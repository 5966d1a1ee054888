/**
 * The Python string primitives the rest of the model is built from: `str.isspace`,
 * `strip`, `startswith`, `in`, `find`, `split`, `join`, `lower`, `isupper`, `isdigit`,
 * slicing, `int(...)` and `f"{n}"`.
 */
module Text {
  import opened Results

  type String = seq<char>

  /** Python's `str.isspace` for one code point (the Unicode White_Space list CPython uses). */
  predicate IsSpace(c: char) {
    || ('\t' <= c <= '\r')
    || ('\U{1C}' <= c <= ' ')
    || c == '\U{85}' || c == '\U{A0}' || c == '\U{1680}'
    || ('\U{2000}' <= c <= '\U{200A}')
    || c == '\U{2028}' || c == '\U{2029}' || c == '\U{202F}' || c == '\U{205F}' || c == '\U{3000}'
  }

  predicate IsDigit(c: char) { '0' <= c <= '9' }
  predicate IsAsciiUpper(c: char) { 'A' <= c <= 'Z' }
  predicate IsAsciiLower(c: char) { 'a' <= c <= 'z' }

  predicate IsBlank(s: String) {
    forall i :: 0 <= i < |s| ==> IsSpace(s[i])
  }

  /** Neither end is white space, as `strip()` leaves it. */
  predicate Unpadded(s: String) {
    s == [] || (!IsSpace(s[0]) && !IsSpace(s[|s| - 1]))
  }

  /** `s.lstrip()`: the suffix left once leading whitespace is removed. */
  function LStrip(s: String): (r: String)
    ensures |r| <= |s| && r == s[|s| - |r|..]
    ensures forall i :: 0 <= i < |s| - |r| ==> IsSpace(s[i])
    ensures r == [] || !IsSpace(r[0])
  {
    if |s| > 0 && IsSpace(s[0]) then LStrip(s[1..]) else s
  }

  /** `s.rstrip()`: the prefix left once trailing whitespace is removed. */
  function RStrip(s: String): (r: String)
    ensures |r| <= |s| && r == s[..|r|]
    ensures forall i :: |r| <= i < |s| ==> IsSpace(s[i])
    ensures r == [] || !IsSpace(r[|r| - 1])
  {
    if |s| > 0 && IsSpace(s[|s| - 1]) then RStrip(s[..|s| - 1]) else s
  }

  /** `s.strip()`. */
  function Strip(s: String): (r: String)
    ensures |r| <= |s|
    ensures Unpadded(r)
    ensures r == [] <==> IsBlank(s)
  {
    RStrip(LStrip(s))
  }

  /** `strip()` keeps a contiguous middle of the string and drops only white space on either
      side; with the result unpadded, this pins it down. */
  lemma StripShape(s: String)
    ensures exists i, j :: 0 <= i <= j <= |s| && s[i..j] == Strip(s) && IsBlank(s[..i]) && IsBlank(s[j..])
  {
    StripSuffixShape(s, 0);
    assert s[0..] == s;
    var i, j :| 0 <= i <= j <= |s| && s[i..j] == Strip(s) && IsBlank(s[0..i]) && IsBlank(s[j..]);
    assert s[..i] == s[0..i];
  }

  /** `StripShape` for a suffix `t[off..]`, read in `t`'s own indices. */
  lemma StripSuffixShape(t: String, off: nat)
    requires off <= |t|
    ensures exists i, j :: off <= i <= j <= |t| && t[i..j] == Strip(t[off..]) && IsBlank(t[off..i]) && IsBlank(t[j..])
  {
    var i := |t| - |LStrip(t[off..])|;
    LStripAt(t, off, i);
    var j := i + |RStrip(t[i..])|;
    RStripAt(t, i, j);
    assert Strip(t[off..]) == RStrip(t[i..]);
  }

  lemma LStripAt(t: String, off: nat, i: int)
    requires off <= |t| && i == |t| - |LStrip(t[off..])|
    ensures off <= i && LStrip(t[off..]) == t[i..] && IsBlank(t[off..i])
  {
    var s := t[off..];
    var l := LStrip(s);
    assert l == s[i - off..] == t[i..];
    forall k | off <= k < i
      ensures IsSpace(t[k])
    {
      assert t[k] == s[k - off];
    }
    BlankRange(t, off, i);
  }

  lemma RStripAt(t: String, i: nat, j: int)
    requires i <= |t| && j == i + |RStrip(t[i..])|
    ensures j <= |t| && t[i..j] == RStrip(t[i..]) && IsBlank(t[j..])
  {
    var l := t[i..];
    var r := RStrip(l);
    assert t[i..j] == l[..|r|];
    forall k | j <= k < |t|
      ensures IsSpace(t[k])
    {
      assert t[k] == l[k - i];
    }
    BlankRange(t, j, |t|);
    assert t[j..|t|] == t[j..];
  }

  lemma BlankRange(t: String, lo: nat, hi: nat)
    requires lo <= hi <= |t|
    requires forall k :: lo <= k < hi ==> IsSpace(t[k])
    ensures IsBlank(t[lo..hi])
  {
    assert forall k :: 0 <= k < hi - lo ==> t[lo..hi][k] == t[lo + k];
  }

  /** A string with no whitespace at either end is its own `strip()`. */
  lemma StripUnpadded(s: String)
    requires Unpadded(s)
    ensures Strip(s) == s
  {
  }

  /** `s.startswith(p)`. */
  predicate StartsWith(s: String, p: String) {
    |p| <= |s| && s[..|p|] == p
  }

  predicate OccursAt(s: String, p: String, i: int) {
    0 <= i && i + |p| <= |s| && s[i..i + |p|] == p
  }

  /** The least index at or after `from` where `p` occurs in `s`, as `s.find(p, from)`. */
  function FindFrom(s: String, p: String, from: nat): (r: Option<nat>)
    requires from <= |s|
    ensures r.Some? ==> from <= r.value && OccursAt(s, p, r.value)
    ensures r.Some? ==> forall k :: from <= k < r.value ==> !OccursAt(s, p, k)
    ensures r.None? ==> forall k :: from <= k ==> !OccursAt(s, p, k)
    decreases |s| - from
  {
    if OccursAt(s, p, from) then Some(from)
    else if from == |s| then None
    else FindFrom(s, p, from + 1)
  }

  function Find(s: String, p: String): Option<nat> {
    FindFrom(s, p, 0)
  }

  /** Python's `p in s`. */
  predicate Contains(s: String, p: String) {
    Find(s, p).Some?
  }

  lemma ContainsIff(s: String, p: String)
    ensures Contains(s, p) <==> exists k :: OccursAt(s, p, k)
  {
  }

  /** An occurrence inside a prefix is an occurrence in the whole string. */
  lemma NotContainsPrefix(s: String, p: String, n: nat)
    requires |p| > 0 && n <= |s|
    requires forall k :: 0 <= k < n ==> !OccursAt(s, p, k)
    ensures !Contains(s[..n], p)
  {
    if Contains(s[..n], p) {
      var k := Find(s[..n], p).value;
      assert s[..n][k..k + |p|] == s[k..k + |p|];
      assert OccursAt(s, p, k);
    }
  }

  /** `sep.join(parts)`. */
  function Join(parts: seq<String>, sep: String): String
    decreases |parts|
  {
    if |parts| == 0 then []
    else if |parts| == 1 then parts[0]
    else parts[0] + sep + Join(parts[1..], sep)
  }

  /** `s.split(sep)` for a non-empty separator: scans left to right, cutting at each
      non-overlapping occurrence. */
  function SplitOn(s: String, sep: String): (parts: seq<String>)
    requires |sep| > 0
    ensures |parts| >= 1
    ensures Join(parts, sep) == s
    ensures forall i :: 0 <= i < |parts| ==> !Contains(parts[i], sep)
    decreases |s|
  {
    match Find(s, sep)
    case None => [s]
    case Some(k) =>
      NotContainsPrefix(s, sep, k);
      var rest := SplitOn(s[k + |sep|..], sep);
      assert s == s[..k] + sep + s[k + |sep|..];
      [s[..k]] + rest
  }

  /** `s.split('\n')`. */
  function Lines(s: String): (r: seq<String>)
    ensures |r| >= 1
    ensures Join(r, "\n") == s
  {
    SplitOn(s, "\n")
  }

  /** The other half of the round trip: splitting a join on a one-character separator
      that no part contains gives the parts back. */
  lemma {:induction false} SplitJoin(parts: seq<String>, c: char)
    requires |parts| >= 1
    requires forall i :: 0 <= i < |parts| ==> c !in parts[i]
    ensures SplitOn(Join(parts, [c]), [c]) == parts
    decreases |parts|
  {
    var s := Join(parts, [c]);
    var a := parts[0];
    assert forall k :: 0 <= k < |a| ==> !OccursAt(s, [c], k) by {
      forall k | 0 <= k < |a|
        ensures !OccursAt(s, [c], k)
      {
        if |parts| > 1 {
          assert s[k] == a[k];
        } else {
          assert s == a;
        }
        assert a[k] in a;
      }
    }
    if |parts| == 1 {
      assert s == a;
      assert forall k :: k >= |a| ==> !OccursAt(s, [c], k);
      assert Find(s, [c]).None?;
    } else {
      var tail := Join(parts[1..], [c]);
      assert s == a + [c] + tail;
      assert OccursAt(s, [c], |a|);
      assert Find(s, [c]) == Some(|a|);
      assert s[|a| + 1..] == tail;
      SplitJoin(parts[1..], c);
    }
  }

  /** `xs[:n]`. */
  function Take<T>(xs: seq<T>, n: nat): (r: seq<T>)
    ensures |r| <= n && |r| <= |xs|
    ensures r == xs[..|r|]
    ensures |xs| <= n ==> r == xs
  {
    if |xs| <= n then xs else xs[..n]
  }

  function LowerChar(c: char): char {
    if IsAsciiUpper(c) then (c as int + 32) as char else c
  }

  /** `s.lower()`, restricted to ASCII letters. */
  function Lower(s: String): (r: String)
    ensures |r| == |s|
    ensures forall i :: 0 <= i < |s| ==> r[i] == LowerChar(s[i])
  {
    seq(|s|, i requires 0 <= i < |s| => LowerChar(s[i]))
  }

  /** `s.isupper()`: some cased character and no lower-case one (ASCII letters are the cased
      characters here). */
  predicate IsUpper(s: String) {
    && (exists i :: 0 <= i < |s| && IsAsciiUpper(s[i]))
    && (forall i :: 0 <= i < |s| ==> !IsAsciiLower(s[i]))
  }

  function DigitChar(d: nat): char
    requires d < 10
  {
    ('0' as int + d) as char
  }

  function DigitValue(c: char): nat
    requires IsDigit(c)
  {
    c as int - '0' as int
  }

  /** The decimal numeral of `n`. */
  function NatToString(n: nat): (r: String)
    ensures |r| >= 1
    ensures forall i :: 0 <= i < |r| ==> IsDigit(r[i])
    decreases n
  {
    if n < 10 then [DigitChar(n)] else NatToString(n / 10) + [DigitChar(n % 10)]
  }

  /** Python's `f"{n}"` (and JavaScript's `String(n)`) for an integer. */
  function IntToString(n: int): String {
    if n < 0 then "-" + NatToString(-n) else NatToString(n)
  }

  /** The value of a run of decimal digits. */
  function DigitsValue(ds: String): nat
    requires forall i :: 0 <= i < |ds| ==> IsDigit(ds[i])
    decreases |ds|
  {
    if |ds| == 0 then 0 else DigitsValue(ds[..|ds| - 1]) * 10 + DigitValue(ds[|ds| - 1])
  }

  /** The digits of a Python integer literal body: digits, with single underscores allowed
      between two digits. */
  predicate IsDigitGroup(s: String) {
    && |s| > 0
    && IsDigit(s[0]) && IsDigit(s[|s| - 1])
    && (forall i :: 0 <= i < |s| ==> IsDigit(s[i]) || s[i] == '_')
    && (forall i :: 0 <= i < |s| - 1 ==> !(s[i] == '_' && s[i + 1] == '_'))
  }

  function DropUnderscores(s: String): (r: String)
    ensures forall i :: 0 <= i < |r| ==> r[i] != '_' && r[i] in s
    ensures (forall i :: 0 <= i < |s| ==> s[i] != '_') ==> r == s
    decreases |s|
  {
    if |s| == 0 then []
    else (if s[0] == '_' then [] else [s[0]]) + DropUnderscores(s[1..])
  }

  /** Python's `int(s)` on a string: surrounding whitespace, an optional sign, then a digit
      group; anything else raises `ValueError` (here `None`). */
  function ParseInt(s: String): (r: Option<int>)
    ensures r.Some? ==> |Strip(s)| > 0
  {
    var t := Strip(s);
    var negative := |t| > 0 && t[0] == '-';
    var body := if |t| > 0 && (t[0] == '-' || t[0] == '+') then t[1..] else t;
    if IsDigitGroup(body) then
      var ds := DropUnderscores(body);
      assert forall i :: 0 <= i < |ds| ==> IsDigit(ds[i]) by {
        forall i | 0 <= i < |ds| ensures IsDigit(ds[i]) {
          assert ds[i] in body;
        }
      }
      var v: int := DigitsValue(ds);
      Some(if negative then -v else v)
    else None
  }

  lemma {:induction false} DigitsOfNat(n: nat)
    ensures DigitsValue(NatToString(n)) == n
    decreases n
  {
    if n >= 10 {
      var r := NatToString(n);
      DigitsOfNat(n / 10);
      assert r[..|r| - 1] == NatToString(n / 10);
    }
  }

  /** `int(f"{n}") == n`: printing an integer and parsing it back is the identity. */
  lemma ParseIntToString(n: int)
    ensures ParseInt(IntToString(n)) == Some(n)
  {
    var s := IntToString(n);
    var m: nat := if n < 0 then -n else n;
    var digits := NatToString(m);
    assert s[|s| - 1] == digits[|digits| - 1];
    assert IsDigit(s[|s| - 1]);
    assert !IsSpace(s[0]) && !IsSpace(s[|s| - 1]);
    StripUnpadded(s);
    var body := if s[0] == '-' || s[0] == '+' then s[1..] else s;
    assert body == digits by {
      if n < 0 {
        assert s[1..] == digits;
      } else {
        assert IsDigit(s[0]);
      }
    }
    assert IsDigitGroup(body);
    assert DropUnderscores(digits) == digits;
    DigitsOfNat(m);
  }
}
