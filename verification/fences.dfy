/**
 * Fenced TypeScript blocks in a model reply, as both reply parsers find them with Python's
 * `re.search`: the plain pattern "```typescript(.*?)```" (case-sensitive, `.` crossing
 * newlines) and the marked patterns, which put optional white space, "//", optional white
 * space and the marker between the opening and the "(.*?)```" group, matched without regard
 * to ASCII case. A match is the leftmost one, and its lazy group ends at the first
 * "```" after the opening.
 */
module Fences {
  import opened Results
  import opened Text

  const Opening: String := "```typescript"
  const Fence: String := "```"

  /** Which opening a block must have: the bare one, or the bare one followed by a
      `// <marker>` comment naming the file. */
  datatype FencePattern = Plain | Marked(marker: String)

  /** `p` occurs at `i` when ASCII case is ignored. */
  predicate OccursAtFold(s: String, p: String, i: nat) {
    i + |p| <= |s| && forall k :: 0 <= k < |p| ==> LowerChar(s[i + k]) == LowerChar(p[k])
  }

  /** Where a greedy `\s*` starting at `i` stops. */
  function SkipSpace(s: String, i: nat): (j: nat)
    requires i <= |s|
    ensures i <= j <= |s|
    ensures forall k :: i <= k < j ==> IsSpace(s[k])
    ensures j == |s| || !IsSpace(s[j])
    decreases |s| - i
  {
    if i == |s| || !IsSpace(s[i]) then i else SkipSpace(s, i + 1)
  }

  /** Where the opening of `pat` ends when it starts at `i`, i.e. where the lazy group
      begins. The `\s*` runs are greedy and are followed by a non-space character, so no
      backtracking into them can succeed. */
  function OpeningEnd(s: String, pat: FencePattern, i: nat): (e: Option<nat>)
    requires i <= |s|
    ensures e.Some? ==> i + |Opening| <= e.value <= |s|
  {
    match pat
    case Plain =>
      if OccursAt(s, Opening, i) then Some(i + |Opening|) else None
    case Marked(m) =>
      if !OccursAtFold(s, Opening, i) then None
      else
        var j := SkipSpace(s, i + |Opening|);
        if !OccursAt(s, "//", j) then None
        else
          var k := SkipSpace(s, j + 2);
          if OccursAtFold(s, m, k) then Some(k + |m|) else None
  }

  /** The group of a match starting at `i`: from the end of the opening to the first fence
      after it. */
  function MatchAt(s: String, pat: FencePattern, i: nat): (g: Option<(nat, nat)>)
    requires i <= |s|
    ensures g.Some? ==> i + |Opening| <= g.value.0 <= g.value.1 <= |s|
    ensures g.Some? ==> OccursAt(s, Fence, g.value.1)
    ensures g.Some? ==> forall k :: g.value.0 <= k < g.value.1 ==> !OccursAt(s, Fence, k)
  {
    match OpeningEnd(s, pat, i)
    case None => None
    case Some(e) =>
      match FindFrom(s, Fence, e)
      case None => None
      case Some(c) => Some((e, c))
  }

  /** The leftmost start at or after `from` where the pattern matches. */
  function Search(s: String, pat: FencePattern, from: nat): (r: Option<nat>)
    requires from <= |s|
    ensures r.Some? ==> from <= r.value <= |s| && MatchAt(s, pat, r.value).Some?
    ensures r.Some? ==> forall i :: from <= i < r.value ==> MatchAt(s, pat, i).None?
    ensures r.None? ==> forall i :: from <= i <= |s| ==> MatchAt(s, pat, i).None?
    decreases |s| - from
  {
    if MatchAt(s, pat, from).Some? then Some(from)
    else if from == |s| then None
    else Search(s, pat, from + 1)
  }

  /** `match.group(1)` of the first match, if there is one. */
  function Block(s: String, pat: FencePattern): (b: Option<String>)
    ensures b.Some? <==> exists i :: 0 <= i <= |s| && MatchAt(s, pat, i).Some?
  {
    match Search(s, pat, 0)
    case None => None
    case Some(i) =>
      var g := MatchAt(s, pat, i).value;
      Some(s[g.0..g.1])
  }

  /** `match.group(1).strip()` when the pattern matches, the empty default otherwise. */
  function FencedCode(s: String, pat: FencePattern): (code: String)
    ensures Block(s, pat).None? ==> code == []
    ensures Block(s, pat).Some? ==> code == Strip(Block(s, pat).value)
  {
    match Block(s, pat)
    case None => []
    case Some(b) => Strip(b)
  }

  /** The plain block is the text between the first "```typescript" and the next "```";
      there is none when the first opening is never closed. */
  lemma PlainIsFirstFence(s: String)
    ensures Block(s, Plain) ==
      match Find(s, Opening)
      case None => None
      case Some(i) =>
        match FindFrom(s, Fence, i + |Opening|)
        case None => None
        case Some(c) => Some(s[i + |Opening|..c])
  {
    match Find(s, Opening)
    case None =>
      assert forall i :: 0 <= i <= |s| ==> OpeningEnd(s, Plain, i).None?;
    case Some(i) =>
      assert forall j :: 0 <= j < i ==> MatchAt(s, Plain, j).None?;
      match FindFrom(s, Fence, i + |Opening|)
      case None =>
        forall j | i < j <= |s| ensures MatchAt(s, Plain, j).None? {
          if OccursAt(s, Opening, j) {
            assert FindFrom(s, Fence, j + |Opening|).None?;
          }
        }
      case Some(c) =>
        assert OccursAt(s, Opening, i);
        assert MatchAt(s, Plain, i) == Some((i + |Opening|, c));
        LeftmostMatch(s, Plain, i);
  }

  /** A match with no match before it is the one the search reports. */
  lemma LeftmostMatch(s: String, pat: FencePattern, i: nat)
    requires i <= |s| && MatchAt(s, pat, i).Some?
    requires forall j :: 0 <= j < i ==> MatchAt(s, pat, j).None?
    ensures Search(s, pat, 0) == Some(i)
  {
  }

  /** The first fence at or after `e` is at `c` when no backquote comes between. */
  lemma FenceAt(s: String, e: nat, c: nat)
    requires e <= c && OccursAt(s, Fence, c)
    requires forall k :: e <= k < c ==> s[k] != '`'
    ensures FindFrom(s, Fence, e) == Some(c)
  {
    forall k | e <= k < c ensures !OccursAt(s, Fence, k) {
      assert s[k] != Fence[0];
    }
  }

  /** The opening and marker comment that the configuration prompt asks for. */
  function RenderBlock(marker: String, body: String): String {
    Opening + "\n// " + marker + body + Fence
  }

  /** A block rendered with its marker comment is read back whole by the marked pattern. */
  lemma MarkedRoundTrip(marker: String, body: String)
    requires |marker| > 0 && !IsSpace(marker[0])
    requires forall k :: 0 <= k < |body| ==> body[k] != '`'
    ensures Block(RenderBlock(marker, body), Marked(marker)) == Some(body)
  {
    var s := RenderBlock(marker, body);
    var n := |Opening|;
    assert s[..n] == Opening;
    assert OccursAtFold(s, Opening, 0);
    assert s[n] == '\n' && IsSpace(s[n]) && !IsSpace(s[n + 1]);
    assert SkipSpace(s, n) == n + 1 by {
      assert SkipSpace(s, n + 1) == n + 1;
    }
    assert OccursAt(s, "//", n + 1) by {
      assert s[n + 1..n + 3] == "//";
    }
    assert s[n + 3] == ' ' && s[n + 4] == marker[0];
    assert SkipSpace(s, n + 3) == n + 4 by {
      assert SkipSpace(s, n + 4) == n + 4;
    }
    var e := n + 4 + |marker|;
    assert OccursAtFold(s, marker, n + 4) by {
      assert s[n + 4..e] == marker;
    }
    assert OpeningEnd(s, Marked(marker), 0) == Some(e);
    assert s[e..e + |body|] == body;
    assert s[e + |body|..] == Fence;
    FenceAt(s, e, e + |body|);
    LeftmostMatch(s, Marked(marker), 0);
  }

  /** A bare block is read back whole by the plain pattern. */
  lemma PlainRoundTrip(body: String)
    requires forall k :: 0 <= k < |body| ==> body[k] != '`'
    ensures Block(Opening + body + Fence, Plain) == Some(body)
  {
    var s := Opening + body + Fence;
    var e := |Opening|;
    assert s[..e] == Opening;
    assert s[e..e + |body|] == body;
    assert s[e + |body|..] == Fence;
    FenceAt(s, e, e + |body|);
    LeftmostMatch(s, Plain, 0);
  }
}
