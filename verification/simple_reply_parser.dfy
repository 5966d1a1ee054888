/**
 * The reply parsers of the single-call game generator (game_generation_agent_simple.py).
 * A reply is cut at every "##"; each piece is classified by the words its lower-cased text
 * contains, and feeds at most one field of the result. Every field has a default, so the
 * parsers are total.
 */
module SimpleReplyParser {
  import opened Results
  import opened Text
  import opened Fences

  const SectionMark: String := "##"

  // ---------------------------------------------------------------------------------------
  // Pieces

  /** The piece without its first line (the rest of the heading), stripped. */
  function PieceBody(piece: String): (r: String)
    ensures |r| <= |piece|
  {
    var lines := Lines(piece);
    var rest := Join(lines[1..], "\n");
    JoinedTailShorter(lines, piece);
    Strip(rest)
  }

  lemma JoinedTailShorter(lines: seq<String>, piece: String)
    requires |lines| >= 1 && Join(lines, "\n") == piece
    ensures |Join(lines[1..], "\n")| <= |piece|
  {
    if |lines| > 1 {
      assert Join(lines, "\n") == lines[0] + "\n" + Join(lines[1..], "\n");
    }
  }

  /** A bullet: a line whose stripped text starts with '-', read as that text without its
      first character, stripped. */
  function Bullet(line: String): (r: Option<String>)
    ensures r.Some? <==> StartsWith(Strip(line), "-")
    ensures r.Some? ==> |r.value| < |line| && Unpadded(r.value)
  {
    var t := Strip(line);
    if StartsWith(t, "-") then Some(Strip(t[1..])) else None
  }

  /** A bullet's text is what lies between the leading '-' and the trailing white space of
      the stripped line, with the white space after the dash dropped too. */
  lemma BulletValue(line: String)
    requires Bullet(line).Some?
    ensures var t := Strip(line);
      && t[0] == '-'
      && exists i, j :: 1 <= i <= j <= |t| && t[i..j] == Bullet(line).value && IsBlank(t[1..i]) && IsBlank(t[j..])
  {
    var t := Strip(line);
    assert StartsWith(t, "-") && Bullet(line).value == Strip(t[1..]);
    assert t[0] == t[..1][0] == '-';
    StripSuffixShape(t, 1);
  }

  /** The bullets of a piece, in line order. */
  function Bullets(lines: seq<String>): (items: seq<String>)
    ensures |items| <= |lines|
    ensures forall i :: 0 <= i < |items| ==> Unpadded(items[i])
    decreases |lines|
  {
    if |lines| == 0 then []
    else
      var rest := Bullets(lines[1..]);
      match Bullet(lines[0])
      case Some(b) => AllUnpaddedCons(b, rest); [b] + rest
      case None => rest
  }

  lemma AllUnpaddedCons(b: String, rest: seq<String>)
    requires Unpadded(b) && forall i :: 0 <= i < |rest| ==> Unpadded(rest[i])
    ensures forall i :: 0 <= i < |[b] + rest| ==> Unpadded(([b] + rest)[i])
  {
    forall i | 0 <= i < |[b] + rest| ensures Unpadded(([b] + rest)[i]) {
      if i > 0 {
        assert ([b] + rest)[i] == rest[i - 1];
      }
    }
  }

  /** The bullets of consecutive stretches of lines are the bullets of the whole, in order. */
  lemma {:induction false} BulletsAppend(a: seq<String>, b: seq<String>)
    ensures Bullets(a + b) == Bullets(a) + Bullets(b)
    decreases |a|
  {
    if |a| > 0 {
      var ab := a + b;
      assert ab[0] == a[0] && ab[1..] == a[1..] + b;
      BulletsAppend(a[1..], b);
      BulletsFirst(a);
      BulletsFirst(ab);
      var h := Item(a[0]);
      assert Bullets(ab) == h + (Bullets(a[1..]) + Bullets(b));
      assert Bullets(a) + Bullets(b) == (h + Bullets(a[1..])) + Bullets(b);
    } else {
      assert a + b == b;
    }
  }

  /** What one line contributes: its bullet, or nothing. */
  function Item(line: String): seq<String> {
    match Bullet(line)
    case Some(x) => [x]
    case None => []
  }

  lemma BulletsFirst(lines: seq<String>)
    requires |lines| > 0
    ensures Bullets(lines) == Item(lines[0]) + Bullets(lines[1..])
  {
  }

  /** A single line gives its bullet item, or nothing. */
  lemma BulletsSingle(line: String)
    ensures Bullets([line]) == match Bullet(line) case Some(b) => [b] case None => []
  {
    assert [line][1..] == [];
  }

  // ---------------------------------------------------------------------------------------
  // Scene replies

  /** How the scene parser reads a piece. The tests run in this order, so a piece that
      mentions assets feeds only the assets, whatever else it mentions. */
  datatype ScenePiece =
    | AssetsPiece(items: seq<String>)
    | MechanicsPiece(text: String)
    | ObjectivesPiece(items: seq<String>)
    | OtherPiece

  predicate MentionsAssets(piece: String) {
    var low := Lower(piece);
    Contains(low, "required assets") || Contains(low, "assets")
  }

  predicate MentionsMechanics(piece: String) {
    var low := Lower(piece);
    Contains(low, "game mechanics") || Contains(low, "mechanics")
  }

  predicate MentionsObjectives(piece: String) {
    Contains(Lower(piece), "learning objectives")
  }

  function ClassifyScenePiece(piece: String): (k: ScenePiece)
    ensures k.AssetsPiece? <==> MentionsAssets(piece)
    ensures k.MechanicsPiece? <==> !MentionsAssets(piece) && MentionsMechanics(piece)
    ensures k.ObjectivesPiece? <==>
      !MentionsAssets(piece) && !MentionsMechanics(piece) && MentionsObjectives(piece)
  {
    if MentionsAssets(piece) then AssetsPiece(Bullets(Lines(piece)))
    else if MentionsMechanics(piece) then MechanicsPiece(PieceBody(piece))
    else if MentionsObjectives(piece) then ObjectivesPiece(Bullets(Lines(piece)))
    else OtherPiece
  }

  function ClassifyScenePieces(pieces: seq<String>): (ks: seq<ScenePiece>)
    ensures |ks| == |pieces|
    ensures forall i :: 0 <= i < |pieces| ==> ks[i] == ClassifyScenePiece(pieces[i])
  {
    seq(|pieces|, i requires 0 <= i < |pieces| => ClassifyScenePiece(pieces[i]))
  }

  /** The record the scene parsers return. */
  datatype SceneReply = SceneReply(
    sceneCode: String,
    assets: seq<String>,
    mechanics: String,
    learningObjectives: seq<String>)

  const EmptyScene: SceneReply := SceneReply([], [], [], [])

  /** The parser's loop over the pieces. */
  function ScanScene(ks: seq<ScenePiece>, acc: SceneReply): (r: SceneReply)
    decreases |ks|
  {
    if |ks| == 0 then acc
    else
      var acc' := match ks[0]
        case AssetsPiece(items) => acc.(assets := acc.assets + items)
        case MechanicsPiece(text) => acc.(mechanics := text)
        case ObjectivesPiece(items) => acc.(learningObjectives := acc.learningObjectives + items)
        case OtherPiece => acc;
      ScanScene(ks[1..], acc')
  }

  /** Reference: every asset bullet, piece by piece. */
  function AssetItems(ks: seq<ScenePiece>): seq<String>
    decreases |ks|
  {
    if |ks| == 0 then []
    else (if ks[0].AssetsPiece? then ks[0].items else []) + AssetItems(ks[1..])
  }

  /** Reference: every learning-objective bullet, piece by piece. */
  function ObjectiveItems(ks: seq<ScenePiece>): seq<String>
    decreases |ks|
  {
    if |ks| == 0 then []
    else (if ks[0].ObjectivesPiece? then ks[0].items else []) + ObjectiveItems(ks[1..])
  }

  /** Reference: the text of the last mechanics piece. */
  function LastMechanics(ks: seq<ScenePiece>): (r: Option<String>)
    ensures r.Some? ==> exists i :: (0 <= i < |ks| && ks[i] == MechanicsPiece(r.value)
      && forall j :: i < j < |ks| ==> !ks[j].MechanicsPiece?)
    ensures r.None? ==> forall i :: 0 <= i < |ks| ==> !ks[i].MechanicsPiece?
    decreases |ks|
  {
    if |ks| == 0 then None
    else
      match LastMechanics(ks[1..])
      case Some(t) =>
        var i :| 0 <= i < |ks[1..]| && ks[1..][i] == MechanicsPiece(t)
          && (forall j :: i < j < |ks[1..]| ==> !ks[1..][j].MechanicsPiece?);
        assert ks[i + 1] == MechanicsPiece(t);
        Some(t)
      case None =>
        if ks[0].MechanicsPiece? then Some(ks[0].text) else None
  }

  /** The loop, resumed with any record, appends the bullets of every assets piece and of
      every objectives piece in order, keeps the last mechanics text, and never touches the
      code. */
  lemma {:induction false} ScanSceneFields(ks: seq<ScenePiece>, acc: SceneReply)
    ensures ScanScene(ks, acc).sceneCode == acc.sceneCode
    ensures ScanScene(ks, acc).assets == acc.assets + AssetItems(ks)
    ensures ScanScene(ks, acc).learningObjectives == acc.learningObjectives + ObjectiveItems(ks)
    ensures ScanScene(ks, acc).mechanics == LastMechanics(ks).GetOr(acc.mechanics)
    decreases |ks|
  {
    if |ks| > 0 {
      var acc' := match ks[0]
        case AssetsPiece(items) => acc.(assets := acc.assets + items)
        case MechanicsPiece(text) => acc.(mechanics := text)
        case ObjectivesPiece(items) => acc.(learningObjectives := acc.learningObjectives + items)
        case OtherPiece => acc;
      ScanSceneFields(ks[1..], acc');
      assert acc.assets + AssetItems(ks) == acc'.assets + AssetItems(ks[1..]);
      assert acc.learningObjectives + ObjectiveItems(ks)
        == acc'.learningObjectives + ObjectiveItems(ks[1..]);
    }
  }

  /** `_parse_scene_response`. */
  function ParseSceneResponse(response: String): (r: SceneReply)
  {
    var ks := ClassifyScenePieces(SplitOn(response, SectionMark));
    ScanScene(ks, EmptyScene.(sceneCode := FencedCode(response, Plain)))
  }

  /** What each field of a parsed scene reply holds: the first plain TypeScript block,
      stripped; the bullets of every piece that mentions assets; the body of the last
      piece that mentions mechanics but not assets; the bullets of every piece that
      mentions learning objectives and neither of the others. */
  lemma ParseSceneFields(response: String)
    ensures var ks := ClassifyScenePieces(SplitOn(response, SectionMark));
      var r := ParseSceneResponse(response);
      && r.sceneCode == FencedCode(response, Plain)
      && r.assets == AssetItems(ks)
      && r.mechanics == LastMechanics(ks).GetOr([])
      && r.learningObjectives == ObjectiveItems(ks)
  {
    var ks := ClassifyScenePieces(SplitOn(response, SectionMark));
    ScanSceneFields(ks, EmptyScene.(sceneCode := FencedCode(response, Plain)));
  }

  /** A reply with no fenced block and no piece naming a field parses to the defaults. */
  lemma SceneDefaults(response: String)
    requires Block(response, Plain).None?
    requires forall i :: 0 <= i < |SplitOn(response, SectionMark)| ==>
      ClassifyScenePiece(SplitOn(response, SectionMark)[i]).OtherPiece?
    ensures ParseSceneResponse(response) == EmptyScene
  {
    var ks := ClassifyScenePieces(SplitOn(response, SectionMark));
    ParseSceneFields(response);
    NoSceneItems(ks);
  }

  lemma {:induction false} NoSceneItems(ks: seq<ScenePiece>)
    requires forall i :: 0 <= i < |ks| ==> ks[i].OtherPiece?
    ensures AssetItems(ks) == [] && ObjectiveItems(ks) == []
    decreases |ks|
  {
    if |ks| > 0 {
      NoSceneItems(ks[1..]);
    }
  }

  // ---------------------------------------------------------------------------------------
  // Mini-game replies

  datatype MiniField = VisualDesign | Scoring | Integration

  /** How the mini-game parser reads a piece: "visual design" beats "scoring", which beats
      "integration". */
  datatype MiniPiece = Tagged(field: MiniField, text: String) | Untagged

  function ClassifyMiniPiece(piece: String): (k: MiniPiece)
    ensures k.Tagged? ==> k.text == PieceBody(piece)
    ensures k.Tagged? && k.field == VisualDesign <==> Contains(Lower(piece), "visual design")
    ensures k.Tagged? && k.field == Scoring <==>
      !Contains(Lower(piece), "visual design") && Contains(Lower(piece), "scoring")
    ensures k.Tagged? && k.field == Integration <==>
      !Contains(Lower(piece), "visual design") && !Contains(Lower(piece), "scoring")
      && Contains(Lower(piece), "integration")
  {
    var low := Lower(piece);
    if Contains(low, "visual design") then Tagged(VisualDesign, PieceBody(piece))
    else if Contains(low, "scoring") then Tagged(Scoring, PieceBody(piece))
    else if Contains(low, "integration") then Tagged(Integration, PieceBody(piece))
    else Untagged
  }

  function ClassifyMiniPieces(pieces: seq<String>): (ks: seq<MiniPiece>)
    ensures |ks| == |pieces|
    ensures forall i :: 0 <= i < |pieces| ==> ks[i] == ClassifyMiniPiece(pieces[i])
  {
    seq(|pieces|, i requires 0 <= i < |pieces| => ClassifyMiniPiece(pieces[i]))
  }

  datatype MiniGameReply = MiniGameReply(
    miniGameCode: String,
    visualDesign: String,
    scoringSystem: String,
    integrationNotes: String)

  function FieldOf(r: MiniGameReply, f: MiniField): String {
    match f
    case VisualDesign => r.visualDesign
    case Scoring => r.scoringSystem
    case Integration => r.integrationNotes
  }

  function WithField(r: MiniGameReply, f: MiniField, text: String): (r': MiniGameReply)
    ensures FieldOf(r', f) == text
    ensures forall g :: g != f ==> FieldOf(r', g) == FieldOf(r, g)
    ensures r'.miniGameCode == r.miniGameCode
  {
    match f
    case VisualDesign => r.(visualDesign := text)
    case Scoring => r.(scoringSystem := text)
    case Integration => r.(integrationNotes := text)
  }

  function ScanMini(ks: seq<MiniPiece>, acc: MiniGameReply): MiniGameReply
    decreases |ks|
  {
    if |ks| == 0 then acc
    else
      var acc' := match ks[0]
        case Tagged(f, text) => WithField(acc, f, text)
        case Untagged => acc;
      ScanMini(ks[1..], acc')
  }

  /** Reference: the text of the last piece tagged with `f`. */
  function LastTagged(ks: seq<MiniPiece>, f: MiniField): (r: Option<String>)
    ensures r.Some? ==> exists i :: (0 <= i < |ks| && ks[i] == Tagged(f, r.value)
      && forall j :: i < j < |ks| ==> ks[j] == Untagged || ks[j].field != f)
    ensures r.None? ==> forall i :: 0 <= i < |ks| ==> ks[i] == Untagged || ks[i].field != f
    decreases |ks|
  {
    if |ks| == 0 then None
    else
      match LastTagged(ks[1..], f)
      case Some(t) =>
        var i :| 0 <= i < |ks[1..]| && ks[1..][i] == Tagged(f, t)
          && (forall j :: i < j < |ks[1..]| ==> ks[1..][j] == Untagged || ks[1..][j].field != f);
        assert ks[i + 1] == Tagged(f, t);
        Some(t)
      case None =>
        if ks[0].Tagged? && ks[0].field == f then Some(ks[0].text) else None
  }

  /** The loop keeps, for each field, the text of the last piece tagged with it. */
  lemma {:induction false} ScanMiniFields(ks: seq<MiniPiece>, acc: MiniGameReply, f: MiniField)
    ensures ScanMini(ks, acc).miniGameCode == acc.miniGameCode
    ensures FieldOf(ScanMini(ks, acc), f) == LastTagged(ks, f).GetOr(FieldOf(acc, f))
    decreases |ks|
  {
    if |ks| > 0 {
      var acc' := match ks[0]
        case Tagged(g, text) => WithField(acc, g, text)
        case Untagged => acc;
      ScanMiniFields(ks[1..], acc', f);
    }
  }

  const EmptyMiniGame: MiniGameReply := MiniGameReply([], [], [], [])

  /** `_parse_mini_game_response`. */
  function ParseMiniGameResponse(response: String): (r: MiniGameReply)
  {
    var ks := ClassifyMiniPieces(SplitOn(response, SectionMark));
    ScanMini(ks, EmptyMiniGame.(miniGameCode := FencedCode(response, Plain)))
  }

  /** Each text field is the body of the last piece classified for it, empty when there is
      none; the code is the first plain block, stripped. */
  lemma ParseMiniGameFields(response: String, f: MiniField)
    ensures var ks := ClassifyMiniPieces(SplitOn(response, SectionMark));
      var r := ParseMiniGameResponse(response);
      && r.miniGameCode == FencedCode(response, Plain)
      && FieldOf(r, f) == LastTagged(ks, f).GetOr([])
  {
    var ks := ClassifyMiniPieces(SplitOn(response, SectionMark));
    ScanMiniFields(ks, EmptyMiniGame.(miniGameCode := FencedCode(response, Plain)), f);
  }
}
