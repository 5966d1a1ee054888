/**
 * The game generator's document handling (run_game_agent.py): the line-based splitter that
 * cuts an onboarding document into titled sections, with its fixed four-slice fallback, and
 * the keyword classifier that picks a scene type from a section title.
 */
module DocumentSections {
  import opened Results
  import opened Text
  import opened Dicts

  /** The sections found, as an insertion-ordered dictionary from title to body. */
  type Sections = Dict

  // ---------------------------------------------------------------------------------------
  // Splitting into sections

  const FirstTitle: String := "Introduction"

  /** A header: non-blank, and either upper-case as a whole or, once stripped, starting
      with a digit. */
  predicate IsHeader(line: String) {
    !IsBlank(line) && (IsUpper(line) || IsDigit(Strip(line)[0]))
  }

  /** Store the pending section only when its body has at least one line. */
  function Flush(d: Sections, title: String, body: seq<String>): (r: Sections)
    requires DistinctKeys(d)
    ensures DistinctKeys(r)
  {
    if |body| > 0 then Put(d, title, Join(body, "\n")) else d
  }

  /** A document line as the splitter sees it: a header (with its stripped title) or a line
      of body text. */
  datatype DocLine = HeaderLine(raw: String, title: String) | BodyLine(raw: String)

  function ClassifyDocLine(line: String): (l: DocLine)
    ensures l.raw == line
    ensures l.HeaderLine? <==> IsHeader(line)
    ensures l.HeaderLine? ==> l.title == Strip(line)
  {
    if IsHeader(line) then HeaderLine(line, Strip(line)) else BodyLine(line)
  }

  function ClassifyDocLines(lines: seq<String>): (ls: seq<DocLine>)
    ensures |ls| == |lines|
    ensures forall i :: 0 <= i < |lines| ==> ls[i] == ClassifyDocLine(lines[i])
  {
    seq(|lines|, i requires 0 <= i < |lines| => ClassifyDocLine(lines[i]))
  }

  function Raws(ls: seq<DocLine>): (r: seq<String>)
    ensures |r| == |ls|
    decreases |ls|
  {
    if |ls| == 0 then [] else [ls[0].raw] + Raws(ls[1..])
  }

  lemma {:induction false} RawsAt(ls: seq<DocLine>)
    ensures forall i :: 0 <= i < |ls| ==> Raws(ls)[i] == ls[i].raw
    decreases |ls|
  {
    if |ls| > 0 {
      RawsAt(ls[1..]);
    }
  }

  /** The splitter's loop: `title` and `body` are the pending section, `d` the sections
      stored so far. A header stores the pending section and opens a new one under its
      stripped text; any other line, blank ones included, joins the pending body. */
  function ScanDocument(lines: seq<DocLine>, title: String, body: seq<String>, d: Sections): (r: Sections)
    requires DistinctKeys(d)
    ensures DistinctKeys(r)
    decreases |lines|
  {
    if |lines| == 0 then Flush(d, title, body)
    else match lines[0]
      case HeaderLine(_, t) => ScanDocument(lines[1..], t, [], Flush(d, title, body))
      case BodyLine(raw) => ScanDocument(lines[1..], title, body + [raw], d)
  }

  /** A stretch of the document: a header line (none for the opening stretch) and the
      lines of body text up to the next header. */
  datatype Run = Run(header: Option<DocLine>, body: seq<String>)

  function Title(r: Run): String {
    match r.header
    case Some(HeaderLine(_, t)) => t
    case _ => FirstTitle
  }

  /** The index of the first header line, or the number of lines when there is none. */
  function FirstHeader(lines: seq<DocLine>): (k: nat)
    ensures k <= |lines|
    ensures forall j :: 0 <= j < k ==> lines[j].BodyLine?
    ensures k < |lines| ==> lines[k].HeaderLine?
    decreases |lines|
  {
    if |lines| == 0 || lines[0].HeaderLine? then 0 else 1 + FirstHeader(lines[1..])
  }

  /** Reference: the document cut at every header line. */
  function RunsFrom(header: Option<DocLine>, lines: seq<DocLine>): (runs: seq<Run>)
    ensures |runs| >= 1 && runs[0].header == header
    decreases |lines|
  {
    var k := FirstHeader(lines);
    [Run(header, Raws(lines[..k]))] + (if k == |lines| then [] else RunsFrom(Some(lines[k]), lines[k + 1..]))
  }

  function Runs(lines: seq<DocLine>): seq<Run> {
    RunsFrom(None, lines)
  }

  /** The lines the runs came from. */
  function Flatten(runs: seq<Run>): seq<String>
    decreases |runs|
  {
    if |runs| == 0 then []
    else
      var head := match runs[0].header case None => [] case Some(h) => [h.raw];
      head + runs[0].body + Flatten(runs[1..])
  }

  function HeadOf(header: Option<DocLine>): seq<DocLine> {
    match header case None => [] case Some(h) => [h]
  }

  /** Only the opening run lacks a header, and every header is a header line. */
  predicate WellCut(runs: seq<Run>) {
    && (forall i :: 0 <= i < |runs| ==> runs[i].header.None? || runs[i].header.value.HeaderLine?)
    && (forall i :: 0 < i < |runs| ==> runs[i].header.Some?)
  }

  lemma {:induction false} RawsAppend(a: seq<DocLine>, b: seq<DocLine>)
    ensures Raws(a + b) == Raws(a) + Raws(b)
    decreases |a|
  {
    if |a| > 0 {
      assert (a + b)[1..] == a[1..] + b;
      RawsAppend(a[1..], b);
    } else {
      assert a + b == b;
    }
  }

  /** Read back in order, the runs give every line of the document. */
  lemma {:induction false} RunsFlatten(header: Option<DocLine>, lines: seq<DocLine>)
    ensures Flatten(RunsFrom(header, lines)) == Raws(HeadOf(header) + lines)
    decreases |lines|
  {
    var k := FirstHeader(lines);
    if k == |lines| {
      assert lines[..k] == lines;
      FlattenCons(header, Raws(lines), []);
      RawsAppend(HeadOf(header), lines);
    } else {
      RunsFlatten(Some(lines[k]), lines[k + 1..]);
      RunsSplit(header, lines, k);
      RawsAround(HeadOf(header), lines, k);
    }
  }

  lemma RawsAround(h: seq<DocLine>, lines: seq<DocLine>, k: nat)
    requires k < |lines|
    ensures Raws(h) + Raws(lines[..k]) + Raws(HeadOf(Some(lines[k])) + lines[k + 1..]) == Raws(h + lines)
  {
    RawsAppend(h, lines[..k]);
    RawsAppend(h + lines[..k], [lines[k]] + lines[k + 1..]);
    assert h + lines[..k] + ([lines[k]] + lines[k + 1..]) == h + lines;
  }

  lemma FlattenCons(header: Option<DocLine>, body: seq<String>, tail: seq<Run>)
    ensures Flatten([Run(header, body)] + tail) == Raws(HeadOf(header)) + body + Flatten(tail)
  {
    assert ([Run(header, body)] + tail)[1..] == tail;
  }

  lemma RunsSplit(header: Option<DocLine>, lines: seq<DocLine>, k: nat)
    requires k == FirstHeader(lines) && k < |lines|
    ensures Flatten(RunsFrom(header, lines))
      == Raws(HeadOf(header)) + Raws(lines[..k]) + Flatten(RunsFrom(Some(lines[k]), lines[k + 1..]))
  {
    FlattenCons(header, Raws(lines[..k]), RunsFrom(Some(lines[k]), lines[k + 1..]));
  }

  /** Only the opening run lacks a header, and each run's header is a header line. */
  lemma {:induction false} RunsWellCut(header: Option<DocLine>, lines: seq<DocLine>)
    requires header.None? || header.value.HeaderLine?
    ensures WellCut(RunsFrom(header, lines))
    decreases |lines|
  {
    var k := FirstHeader(lines);
    if k < |lines| {
      var runs := RunsFrom(header, lines);
      var tail := RunsFrom(Some(lines[k]), lines[k + 1..]);
      RunsWellCut(Some(lines[k]), lines[k + 1..]);
      assert runs == [Run(header, Raws(lines[..k]))] + tail;
      forall i | 0 < i < |runs|
        ensures runs[i].header.Some? && runs[i].header.value.HeaderLine?
      {
        assert runs[i] == tail[i - 1];
      }
    }
  }

  /** The fold of the runs into a dictionary, as the loop stores them. */
  function Assemble(runs: seq<Run>, d: Sections): (r: Sections)
    requires DistinctKeys(d)
    ensures DistinctKeys(r)
    decreases |runs|
  {
    if |runs| == 0 then d else Assemble(runs[1..], Flush(d, Title(runs[0]), runs[0].body))
  }

  lemma HeaderStep(lines: seq<DocLine>, title: String, body: seq<String>, d: Sections)
    requires DistinctKeys(d) && |lines| > 0 && lines[0].HeaderLine?
    ensures Runs(lines)[1..] == [Run(Some(lines[0]), Raws(lines[1..][..FirstHeader(lines[1..])]))] + Runs(lines[1..])[1..]
    ensures body + Raws(lines[..FirstHeader(lines)]) == body
  {
    var rest := lines[1..];
    var k' := FirstHeader(rest);
    var tail := if k' == |rest| then [] else RunsFrom(Some(rest[k']), rest[k' + 1..]);
    assert FirstHeader(lines) == 0;
    assert lines[..0] == [];
    assert Runs(lines) == [Run(None, Raws(lines[..0]))] + RunsFrom(Some(lines[0]), rest);
    assert RunsFrom(Some(lines[0]), rest) == [Run(Some(lines[0]), Raws(rest[..k']))] + tail;
    assert Runs(rest) == [Run(None, Raws(rest[..k']))] + tail;
  }

  lemma BodyStep(lines: seq<DocLine>, body: seq<String>)
    requires |lines| > 0 && lines[0].BodyLine?
    ensures Runs(lines)[1..] == Runs(lines[1..])[1..]
    ensures body + [lines[0].raw] + Raws(lines[1..][..FirstHeader(lines[1..])]) == body + Raws(lines[..FirstHeader(lines)])
  {
    BodyStepRuns(lines);
    BodyStepBody(lines, body);
  }

  lemma BodyStepRuns(lines: seq<DocLine>)
    requires |lines| > 0 && lines[0].BodyLine?
    ensures Runs(lines)[1..] == Runs(lines[1..])[1..]
  {
    var rest := lines[1..];
    var k := FirstHeader(lines);
    var k' := FirstHeader(rest);
    assert k == 1 + k';
    var tail := if k' == |rest| then [] else RunsFrom(Some(rest[k']), rest[k' + 1..]);
    assert Runs(rest) == [Run(None, Raws(rest[..k']))] + tail;
    if k < |lines| {
      assert rest[k'] == lines[k];
      assert rest[k' + 1..] == lines[k + 1..];
    }
    assert Runs(lines) == [Run(None, Raws(lines[..k]))] + tail;
  }

  lemma BodyStepBody(lines: seq<DocLine>, body: seq<String>)
    requires |lines| > 0 && lines[0].BodyLine?
    ensures body + [lines[0].raw] + Raws(lines[1..][..FirstHeader(lines[1..])]) == body + Raws(lines[..FirstHeader(lines)])
  {
    var k := FirstHeader(lines);
    var x := lines[0].raw;
    var a := Raws(lines[1..][..FirstHeader(lines[1..])]);
    assert k == 1 + FirstHeader(lines[1..]);
    RawsSliceCons(lines, k);
    assert Raws(lines[..k]) == [x] + a;
    ConcatAssoc(body, [x], a);
  }

  lemma ConcatAssoc<T>(a: seq<T>, b: seq<T>, c: seq<T>)
    ensures a + b + c == a + (b + c)
  {
  }

  lemma RawsSliceCons(lines: seq<DocLine>, k: nat)
    requires 1 <= k <= |lines|
    ensures Raws(lines[..k]) == [lines[0].raw] + Raws(lines[1..][..k - 1])
  {
    SliceCons(lines, k);
    assert lines[..k][1..] == lines[1..][..k - 1];
  }

  lemma SliceCons<T>(s: seq<T>, k: nat)
    requires 1 <= k <= |s|
    ensures s[..k] == [s[0]] + s[1..][..k - 1]
  {
  }

  /** The loop, resumed with a pending section, stores what the reference cut gives. */
  lemma {:induction false} ScanIsAssemble(lines: seq<DocLine>, title: String, body: seq<String>, d: Sections)
    requires DistinctKeys(d)
    ensures ScanDocument(lines, title, body, d)
      == Assemble(Runs(lines)[1..], Flush(d, title, body + Raws(lines[..FirstHeader(lines)])))
    decreases |lines|
  {
    if |lines| == 0 {
      assert body + Raws(lines[..0]) == body;
    } else if lines[0].HeaderLine? {
      var rest := lines[1..];
      var d' := Flush(d, title, body);
      ScanIsAssemble(rest, lines[0].title, [], d');
      HeaderStep(lines, title, body, d);
      assert [] + Raws(rest[..FirstHeader(rest)]) == Raws(rest[..FirstHeader(rest)]);
    } else {
      ScanIsAssemble(lines[1..], title, body + [lines[0].raw], d);
      BodyStep(lines, body);
    }
  }

  /** The title's last non-empty run, as a body: the value the dictionary ends up with. */
  function LastBody(runs: seq<Run>, t: String): Option<String>
    decreases |runs|
  {
    if |runs| == 0 then None
    else match LastBody(runs[1..], t)
      case Some(v) => Some(v)
      case None =>
        if |runs[0].body| > 0 && Title(runs[0]) == t then Some(Join(runs[0].body, "\n")) else None
  }

  /** A repeated title keeps only its last non-empty body; a title with no non-empty run
      keeps what it had. */
  lemma {:induction false} AssembleLookup(runs: seq<Run>, d: Sections, t: String)
    requires DistinctKeys(d)
    ensures Lookup(Assemble(runs, d), t) == match LastBody(runs, t) case Some(v) => Some(v) case None => Lookup(d, t)
    decreases |runs|
  {
    if |runs| > 0 {
      AssembleLookup(runs[1..], Flush(d, Title(runs[0]), runs[0].body), t);
    }
  }

  // ---------------------------------------------------------------------------------------
  // The fallback slices

  const FallbackTitles: seq<String> :=
    ["Welcome & Introduction", "Core Information", "Policies & Procedures", "Resources & Support"]
  const SliceSize: nat := 1000

  /** `s[a:b]` for `0 <= a <= b`: both ends clamped to the length. */
  function Slice(s: String, a: nat, b: nat): (r: String)
    requires a <= b
  {
    var hi := if b <= |s| then b else |s|;
    var lo := if a <= hi then a else hi;
    s[lo..hi]
  }

  function Fallback(content: String): (r: Sections)
    ensures |r| == 4 && DistinctKeys(r)
    ensures forall i :: 0 <= i < 4 ==> r[i].0 == FallbackTitles[i]
  {
    [ (FallbackTitles[0], Slice(content, 0, SliceSize)),
      (FallbackTitles[1], Slice(content, SliceSize, 2 * SliceSize)),
      (FallbackTitles[2], Slice(content, 2 * SliceSize, 3 * SliceSize)),
      (FallbackTitles[3], content[if |content| <= 3 * SliceSize then |content| else 3 * SliceSize..]) ]
  }

  /** The four fallback slices read back in order give the whole document. */
  lemma FallbackConcat(content: String)
    ensures var r := Fallback(content); r[0].1 + r[1].1 + r[2].1 + r[3].1 == content
  {
    var n := |content|;
    var c1 := if n <= 1000 then n else 1000;
    var c2 := if n <= 2000 then n else 2000;
    var c3 := if n <= 3000 then n else 3000;
    assert content == content[..c1] + content[c1..c2] + content[c2..c3] + content[c3..];
  }

  /** `parse_document_sections`. */
  function ParseDocumentSections(content: String): (r: Sections)
    ensures |r| >= 2 && DistinctKeys(r)
  {
    var scanned := ScanDocument(ClassifyDocLines(Lines(content)), FirstTitle, [], []);
    if |scanned| <= 1 then Fallback(content) else scanned
  }

  /** When the splitter finds at least two sections, each title maps to the body of its last
      non-empty run; otherwise the result is the four fixed slices. */
  lemma ParseSectionsSpec(content: String, t: String)
    ensures var runs := Runs(ClassifyDocLines(Lines(content)));
      var scanned := Assemble(runs, []);
      && ParseDocumentSections(content) == (if |scanned| <= 1 then Fallback(content) else scanned)
      && Lookup(scanned, t) == LastBody(runs, t)
  {
    var lines := ClassifyDocLines(Lines(content));
    ScanIsAssemble(lines, FirstTitle, [], []);
    assert [] + Raws(lines[..FirstHeader(lines)]) == Raws(lines[..FirstHeader(lines)]);
    AssembleLookup(Runs(lines), [], t);
  }

  lemma {:induction false} RawsClassify(lines: seq<String>)
    ensures Raws(ClassifyDocLines(lines)) == lines
    decreases |lines|
  {
    if |lines| > 0 {
      RawsClassify(lines[1..]);
      assert ClassifyDocLines(lines)[1..] == ClassifyDocLines(lines[1..]);
    }
  }

  /** The runs the splitter stores are a cut of the document's lines: read back in order
      they give every line, and each run after the first opens with a line classified as a
      header. */
  lemma DocumentCut(content: String)
    ensures var runs := Runs(ClassifyDocLines(Lines(content)));
      && Flatten(runs) == Lines(content)
      && WellCut(runs)
      && (forall i, j :: 0 <= i < |runs| && 0 <= j < |runs[i].body| ==> !IsHeader(runs[i].body[j]))
  {
    var lines := ClassifyDocLines(Lines(content));
    RunsFlatten(None, lines);
    RunsWellCut(None, lines);
    RunsBodiesHeaderFree(None, lines);
    RawsClassify(Lines(content));
    assert HeadOf(None) + lines == lines;
  }

  /** No header hides in a body: every line a run holds as body text is a body line. */
  lemma {:induction false} RunsBodiesHeaderFree(header: Option<DocLine>, lines: seq<DocLine>)
    requires forall j :: 0 <= j < |lines| && lines[j].BodyLine? ==> !IsHeader(lines[j].raw)
    ensures var runs := RunsFrom(header, lines);
      forall i, j :: 0 <= i < |runs| && 0 <= j < |runs[i].body| ==> !IsHeader(runs[i].body[j])
    decreases |lines|
  {
    var k := FirstHeader(lines);
    var runs := RunsFrom(header, lines);
    assert runs[0].body == Raws(lines[..k]);
    RawsAt(lines[..k]);
    if k < |lines| {
      var rest := lines[k + 1..];
      assert forall j :: 0 <= j < |rest| ==> rest[j] == lines[k + 1 + j];
      RunsBodiesHeaderFree(Some(lines[k]), rest);
      assert runs[1..] == RunsFrom(Some(lines[k]), rest);
    }
  }

  // ---------------------------------------------------------------------------------------
  // Scene type

  /** The supported scene types (game_agent_config.py). */
  const SupportedSceneTypes: seq<String> := ["platformer", "collection", "puzzle", "quiz", "simulation"]

  predicate MentionsAny(text: String, words: seq<String>) {
    exists i :: 0 <= i < |words| && Contains(text, words[i])
  }

  const CollectionWords: seq<String> := ["benefit", "compensation", "perk"]
  const QuizWords: seq<String> := ["quiz", "test", "assessment"]
  const PuzzleWords: seq<String> := ["policy", "procedure", "rule"]
  const SimulationWords: seq<String> := ["scenario", "situation", "case"]

  /** `determine_scene_type`: the first keyword group the lower-cased title mentions, in the
      order collection, quiz, puzzle, simulation; platformer otherwise. The content is
      lower-cased by the source but never consulted. */
  function DetermineSceneType(title: String, content: String): (r: String)
    ensures r in SupportedSceneTypes
    ensures r == "collection" <==> MentionsAny(Lower(title), CollectionWords)
    ensures r == "quiz" <==> !MentionsAny(Lower(title), CollectionWords) && MentionsAny(Lower(title), QuizWords)
    ensures r == "puzzle" <==>
      !MentionsAny(Lower(title), CollectionWords) && !MentionsAny(Lower(title), QuizWords)
      && MentionsAny(Lower(title), PuzzleWords)
    ensures r == "simulation" <==>
      !MentionsAny(Lower(title), CollectionWords) && !MentionsAny(Lower(title), QuizWords)
      && !MentionsAny(Lower(title), PuzzleWords) && MentionsAny(Lower(title), SimulationWords)
    ensures r == "platformer" <==>
      !MentionsAny(Lower(title), CollectionWords) && !MentionsAny(Lower(title), QuizWords)
      && !MentionsAny(Lower(title), PuzzleWords) && !MentionsAny(Lower(title), SimulationWords)
  {
    var t := Lower(title);
    if MentionsAny(t, CollectionWords) then "collection"
    else if MentionsAny(t, QuizWords) then "quiz"
    else if MentionsAny(t, PuzzleWords) then "puzzle"
    else if MentionsAny(t, SimulationWords) then "simulation"
    else "platformer"
  }

  /** The scene type depends on the title alone. */
  lemma SceneTypeIgnoresContent(title: String, c1: String, c2: String)
    ensures DetermineSceneType(title, c1) == DetermineSceneType(title, c2)
  {
  }
}
