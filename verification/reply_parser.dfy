/**
 * The reply parsers of the assistant-based game generator (game_generation_agent.py). The
 * code fields come from fenced blocks; the list and prose fields come from blocks that
 * `re.search` captures after a label such as "Assets:", which are given here as the text
 * captured (or `None` when the label pattern does not match), and only their cleanup is
 * modelled.
 */
module ReplyParser {
  import opened Results
  import opened Text
  import opened Dicts
  import opened Fences
  import SimpleReplyParser

  // ---------------------------------------------------------------------------------------
  // List cleanup

  const BulletDot: char := '•'

  predicate IsBulletChar(c: char) {
    c == '-' || c == BulletDot
  }

  /** `s.lstrip('-•')`. */
  function LStripBullets(s: String): (r: String)
    ensures |r| <= |s| && r == s[|s| - |r|..]
    ensures forall i :: 0 <= i < |s| - |r| ==> IsBulletChar(s[i])
    ensures r == [] || !IsBulletChar(r[0])
    decreases |s|
  {
    if |s| > 0 && IsBulletChar(s[0]) then LStripBullets(s[1..]) else s
  }

  /** One list line: stripped, every leading dash and bullet dot dropped, stripped again. */
  function CleanItem(line: String): (r: String)
    ensures |r| <= |line|
    ensures Unpadded(r)
  {
    Strip(LStripBullets(Strip(line)))
  }

  /** A cleaned item is what is left of the stripped line once its leading run of dashes and
      bullet dots, and the white space around the rest, are dropped. */
  lemma CleanItemValue(line: String)
    ensures var t := Strip(line);
      exists i, p, q :: && 0 <= i <= p <= q <= |t|
                        && (forall k :: 0 <= k < i ==> IsBulletChar(t[k]))
                        && (i == |t| || !IsBulletChar(t[i]))
                        && IsBlank(t[i..p]) && t[p..q] == CleanItem(line) && IsBlank(t[q..])
  {
    CleanShape(Strip(line));
  }

  /** `CleanItemValue` for any already stripped text `t`. */
  lemma CleanShape(t: String)
    ensures exists i, p, q :: && 0 <= i <= p <= q <= |t|
                              && (forall k :: 0 <= k < i ==> IsBulletChar(t[k]))
                              && (i == |t| || !IsBulletChar(t[i]))
                              && IsBlank(t[i..p]) && t[p..q] == Strip(LStripBullets(t)) && IsBlank(t[q..])
  {
    var u := LStripBullets(t);
    var i := |t| - |u|;
    BulletRunAt(t, i);
    var p := |t| - |LStrip(t[i..])|;
    LStripAt(t, i, p);
    var q := p + |RStrip(t[p..])|;
    RStripAt(t, p, q);
    assert Strip(u) == RStrip(t[p..]);
    CleanItemWitness(t, Strip(u), i, p, q);
  }

  /** Packs the indices `CleanItemValue` finds into its existential. */
  lemma CleanItemWitness(t: String, item: String, i: int, p: int, q: int)
    requires 0 <= i <= p <= q <= |t|
    requires forall k :: 0 <= k < i ==> IsBulletChar(t[k])
    requires i == |t| || !IsBulletChar(t[i])
    requires IsBlank(t[i..p]) && t[p..q] == item && IsBlank(t[q..])
    ensures exists i, p, q :: && 0 <= i <= p <= q <= |t|
                              && (forall k :: 0 <= k < i ==> IsBulletChar(t[k]))
                              && (i == |t| || !IsBulletChar(t[i]))
                              && IsBlank(t[i..p]) && t[p..q] == item && IsBlank(t[q..])
  {
  }

  /** The run `LStripBullets` drops from `t`, stated on `t`'s own indices. */
  lemma BulletRunAt(t: String, i: int)
    requires i == |t| - |LStripBullets(t)|
    ensures 0 <= i <= |t| && LStripBullets(t) == t[i..]
    ensures forall k :: 0 <= k < i ==> IsBulletChar(t[k])
    ensures i == |t| || !IsBulletChar(t[i])
  {
    var u := LStripBullets(t);
    assert i == |t| || t[i] == u[0];
  }

  /** The cleaned items of a captured block: one per non-blank line, in order. */
  function CleanList(block: String): (items: seq<String>)
    ensures |items| <= |Lines(block)|
    ensures forall i :: 0 <= i < |items| ==> Unpadded(items[i])
  {
    var kept := NonBlank(Lines(block));
    seq(|kept|, i requires 0 <= i < |kept| => CleanItem(kept[i]))
  }

  /** Every item is the cleanup of some non-blank line of the block. */
  lemma CleanListSound(block: String)
    ensures forall i :: 0 <= i < |CleanList(block)| ==>
      exists line :: line in Lines(block) && !IsBlank(line) && CleanList(block)[i] == CleanItem(line)
  {
    var kept := NonBlank(Lines(block));
    forall i | 0 <= i < |CleanList(block)|
      ensures exists line :: line in Lines(block) && !IsBlank(line) && CleanList(block)[i] == CleanItem(line)
    {
      assert CleanList(block)[i] == CleanItem(kept[i]) && kept[i] in Lines(block) && !IsBlank(kept[i]);
    }
  }

  /** Every non-blank line of the block has its cleanup listed. */
  lemma CleanListComplete(block: String)
    ensures forall line :: line in Lines(block) && !IsBlank(line) ==> CleanItem(line) in CleanList(block)
  {
    var kept := NonBlank(Lines(block));
    forall line | line in Lines(block) && !IsBlank(line)
      ensures CleanItem(line) in CleanList(block)
    {
      var j :| 0 <= j < |kept| && kept[j] == line;
      assert CleanList(block)[j] == CleanItem(line);
    }
  }

  /** `x` is the cleanup of a non-blank line of `block`. */
  ghost predicate CleanedFrom(x: String, block: String) {
    exists line :: line in Lines(block) && !IsBlank(line) && x == CleanItem(line)
  }

  /** An item is listed exactly when it is the cleanup of a non-blank line of the block. */
  lemma CleanListMembers(block: String)
    ensures forall x :: x in CleanList(block) <==> CleanedFrom(x, block)
  {
    CleanListSound(block);
    CleanListComplete(block);
    forall x | x in CleanList(block) ensures CleanedFrom(x, block) {
      var i :| 0 <= i < |CleanList(block)| && CleanList(block)[i] == x;
    }
  }

  /** Reference: the non-blank lines, in order. */
  function NonBlank(lines: seq<String>): (r: seq<String>)
    ensures |r| <= |lines|
    ensures forall i :: 0 <= i < |r| ==> !IsBlank(r[i]) && r[i] in lines
    ensures forall i :: 0 <= i < |lines| && !IsBlank(lines[i]) ==> lines[i] in r
    decreases |lines|
  {
    if |lines| == 0 then []
    else if IsBlank(lines[0]) then NonBlank(lines[1..])
    else
      var rest := NonBlank(lines[1..]);
      assert forall i :: 1 <= i < |lines| ==> lines[i] == lines[1..][i - 1];
      [lines[0]] + rest
  }

  /** Text that is not blank at either end and does not start with a dash or a dot. */
  predicate PlainItem(text: String) {
    |text| > 0 && !IsSpace(text[0]) && !IsSpace(text[|text| - 1]) && !IsBulletChar(text[0])
  }

  lemma DashedUnpadded(text: String)
    requires PlainItem(text)
    ensures Strip(text) == text
    ensures Strip("-" + text) == "-" + text
    ensures Strip("--" + text) == "--" + text
  {
    StripUnpadded(text);
    StripUnpadded("-" + text);
    StripUnpadded("--" + text);
  }

  lemma DashesStripped(text: String)
    requires PlainItem(text)
    ensures LStripBullets("-" + text) == text
    ensures LStripBullets("--" + text) == text
  {
    LStripOneDash(text);
    assert ("--" + text)[0] == '-' && ("--" + text)[1..] == "-" + text;
  }

  lemma LStripOneDash(text: String)
    requires PlainItem(text)
    ensures LStripBullets("-" + text) == text
  {
    assert ("-" + text)[0] == '-' && ("-" + text)[1..] == text;
    assert LStripBullets(text) == text;
  }

  /** A line "- text" gives the same item under both cleanup rules. */
  lemma SingleDashAgrees(text: String)
    requires PlainItem(text)
    ensures CleanItem("-" + text) == text
    ensures SimpleReplyParser.Bullet("-" + text) == Some(text)
  {
    CleanDashed(text);
    BulletSingleDash(text);
  }

  /** With a doubled dash the rules differ: here every leading dash goes, while the
      single-call parser drops only one. */
  lemma DoubleDashDiffers(text: String)
    requires PlainItem(text)
    ensures CleanItem("--" + text) == text
    ensures SimpleReplyParser.Bullet("--" + text) == Some("-" + text)
  {
    CleanDashed(text);
    BulletDoubleDash(text);
  }

  lemma CleanDashed(text: String)
    requires PlainItem(text)
    ensures CleanItem("-" + text) == text
    ensures CleanItem("--" + text) == text
  {
    DashedUnpadded(text);
    DashesStripped(text);
  }

  lemma BulletSingleDash(text: String)
    requires PlainItem(text)
    ensures SimpleReplyParser.Bullet("-" + text) == Some(text)
  {
    DashedUnpadded(text);
    assert ("-" + text)[1..] == text;
  }

  lemma BulletDoubleDash(text: String)
    requires PlainItem(text)
    ensures SimpleReplyParser.Bullet("--" + text) == Some("-" + text)
  {
    DashedUnpadded(text);
    assert ("--" + text)[1..] == "-" + text;
    StripUnpadded("-" + text);
  }

  // ---------------------------------------------------------------------------------------
  // Scene replies

  /** `_parse_scene_response`, given what the assets, mechanics and objectives patterns
      captured. */
  function ParseSceneResponse(response: String, assets: Option<String>, mechanics: Option<String>,
                              objectives: Option<String>): (r: SimpleReplyParser.SceneReply)
    ensures r.sceneCode == FencedCode(response, Plain)
    ensures assets.None? ==> r.assets == []
    ensures mechanics.None? ==> r.mechanics == []
    ensures objectives.None? ==> r.learningObjectives == []
    ensures assets.Some? ==> r.assets == CleanList(assets.value)
    ensures mechanics.Some? ==> r.mechanics == Strip(mechanics.value)
    ensures objectives.Some? ==> r.learningObjectives == CleanList(objectives.value)
  {
    SimpleReplyParser.SceneReply(
      FencedCode(response, Plain),
      match assets case Some(b) => CleanList(b) case None => [],
      match mechanics case Some(m) => Strip(m) case None => [],
      match objectives case Some(b) => CleanList(b) case None => [])
  }

  // ---------------------------------------------------------------------------------------
  // Configuration replies

  /** The dictionary the configuration parser starts from. */
  const ConfigDefaults: Dict :=
    [("config_code", ""), ("app_updates", ""), ("preloader", ""), ("scene_manager", ""), ("save_system", "")]

  /** The section keys, in the order the loop visits them, and the file marker each block's
      comment must name. */
  const ConfigSections: seq<(String, String)> :=
    [("config", "config.ts"), ("app", "App.tsx"), ("preloader", "PreloadScene"),
     ("scene_manager", "SceneManager"), ("save_system", "SaveSystem")]

  lemma DefaultsDistinct()
    ensures DistinctKeys(ConfigDefaults)
  {
  }

  /** The loop as written: a found block is stored under the section key followed by
      "_code". */
  function StoreAsWritten(response: String, sections: seq<(String, String)>, d: Dict): (r: Dict)
    requires DistinctKeys(d)
    ensures DistinctKeys(r)
    decreases |sections|
  {
    if |sections| == 0 then d
    else StoreAsWritten(response, sections[1..], Store(d, sections[0].0 + "_code", BlockOf(response, sections[0].1)))
  }

  /** `_parse_config_response`. */
  function ParseConfigResponse(response: String): (r: Dict)
    ensures DistinctKeys(r)
  {
    DefaultsDistinct();
    StoreAsWritten(response, ConfigSections, ConfigDefaults)
  }

  function Store(d: Dict, key: String, block: Option<String>): (r: Dict)
    requires DistinctKeys(d)
    ensures DistinctKeys(r)
    ensures block.None? ==> r == d
    ensures block.Some? ==> r == Put(d, key, Strip(block.value))
  {
    match block
    case Some(b) => Put(d, key, Strip(b))
    case None => d
  }

  function BlockOf(response: String, marker: String): Option<String> {
    Block(response, Marked(marker))
  }

  /** The keys the loop as written stores under, in order. */
  const StoredKeys: seq<String> :=
    ["config_code", "app_code", "preloader_code", "scene_manager_code", "save_system_code"]

  lemma StoredKeyNames()
    ensures |ConfigSections| == |StoredKeys|
    ensures forall i :: 0 <= i < |ConfigSections| ==> ConfigSections[i].0 + "_code" == StoredKeys[i]
  {
    var s := ConfigSections;
    assert s[0].0 + "_code" == StoredKeys[0];
    assert s[1].0 + "_code" == StoredKeys[1];
    assert s[2].0 + "_code" == StoredKeys[2];
    assert s[3].0 + "_code" == StoredKeys[3];
    assert s[4].0 + "_code" == StoredKeys[4];
  }

  /** A key the loop never stores under keeps its value. */
  lemma {:induction false} AsWrittenKeeps(response: String, sections: seq<(String, String)>, d: Dict, k: String)
    requires DistinctKeys(d)
    requires forall i :: 0 <= i < |sections| ==> sections[i].0 + "_code" != k
    ensures Lookup(StoreAsWritten(response, sections, d), k) == Lookup(d, k)
    decreases |sections|
  {
    if |sections| > 0 {
      var d' := Store(d, sections[0].0 + "_code", BlockOf(response, sections[0].1));
      forall i | 0 <= i < |sections[1..]| ensures sections[1..][i].0 + "_code" != k {
        assert sections[1..][i] == sections[i + 1];
      }
      AsWrittenKeeps(response, sections[1..], d', k);
    }
  }

  /** Each section adds at most one key. */
  lemma {:induction false} AsWrittenGrows(response: String, sections: seq<(String, String)>, d: Dict)
    requires DistinctKeys(d)
    ensures |d| <= |StoreAsWritten(response, sections, d)| <= |d| + |sections|
    decreases |sections|
  {
    if |sections| > 0 {
      var d' := Store(d, sections[0].0 + "_code", BlockOf(response, sections[0].1));
      AsWrittenGrows(response, sections[1..], d');
    }
  }

  /** A key none of the stored keys names keeps its default. */
  lemma UnstoredKey(response: String, k: String)
    requires k !in StoredKeys
    ensures Lookup(ParseConfigResponse(response), k) == Lookup(ConfigDefaults, k)
  {
    StoredKeyNames();
    DefaultsDistinct();
    AsWrittenKeeps(response, ConfigSections, ConfigDefaults, k);
  }

  lemma DefaultsUnstored()
    ensures forall i :: 1 <= i < |ConfigDefaults| ==> ConfigDefaults[i].0 !in StoredKeys
  {
    assert ConfigDefaults[1].0 !in StoredKeys;
    assert ConfigDefaults[2].0 !in StoredKeys;
    assert ConfigDefaults[3].0 !in StoredKeys;
    assert ConfigDefaults[4].0 !in StoredKeys;
  }

  /** Found blocks never reach four of the five result keys: "app_updates", "preloader",
      "scene_manager" and "save_system" (the defaults after the first) stay empty whatever
      the reply. */
  lemma ConfigAsWritten(response: String)
    ensures forall i :: 1 <= i < |ConfigDefaults| ==>
      Lookup(ParseConfigResponse(response), ConfigDefaults[i].0) == Some("")
  {
    forall i | 1 <= i < |ConfigDefaults|
      ensures Lookup(ParseConfigResponse(response), ConfigDefaults[i].0) == Some("")
    {
      DefaultKept(response, i);
    }
  }

  lemma DefaultKept(response: String, i: nat)
    requires 1 <= i < |ConfigDefaults|
    ensures Lookup(ParseConfigResponse(response), ConfigDefaults[i].0) == Some("")
  {
    DefaultsDistinct();
    DefaultsUnstored();
    DefaultsEmpty();
    UnstoredKey(response, ConfigDefaults[i].0);
    LookupDistinct(ConfigDefaults, ConfigDefaults[i].0, i);
  }

  lemma DefaultsEmpty()
    ensures forall i :: 0 <= i < |ConfigDefaults| ==> ConfigDefaults[i].1 == ""
  {
  }

  /** The first step of the loop: the config.ts block overwrites "config_code" in place. */
  function AfterConfig(response: String): (d: Dict)
    ensures DistinctKeys(d) && |d| == 5
    ensures Lookup(d, "config_code") == Some(FencedCode(response, Marked("config.ts")))
    ensures Lookup(d, "app_code").None?
  {
    DefaultsDistinct();
    LookupDistinct(ConfigDefaults, "config_code", 0);
    assert Lookup(ConfigDefaults, "app_code").None?;
    Store(ConfigDefaults, "config_code", BlockOf(response, "config.ts"))
  }

  lemma ConfigFirstStep(response: String)
    ensures ParseConfigResponse(response)
      == StoreAsWritten(response, ConfigSections[1..], AfterConfig(response))
  {
    StoredKeyNames();
  }

  /** Only the config.ts block overwrites a default. */
  lemma ConfigCodeStored(response: String)
    ensures Lookup(ParseConfigResponse(response), "config_code")
      == Some(FencedCode(response, Marked("config.ts")))
  {
    ConfigFirstStep(response);
    ConfigKeyNotReused();
    AsWrittenKeeps(response, ConfigSections[1..], AfterConfig(response), "config_code");
  }

  /** No section after the first stores under "config_code". */
  lemma ConfigKeyNotReused()
    ensures forall i :: 0 <= i < |ConfigSections[1..]| ==> ConfigSections[1..][i].0 + "_code" != "config_code"
  {
    StoredKeyNames();
    StoredKeysDistinct();
    var rest := ConfigSections[1..];
    forall i | 0 <= i < |rest| ensures rest[i].0 + "_code" != "config_code" {
      assert rest[i] == ConfigSections[i + 1];
      assert StoredKeys[0] == "config_code";
    }
  }

  /** The App.tsx block lands under the new key "app_code", present exactly when that block
      is found. */
  lemma AppCodeStored(response: String)
    ensures Lookup(ParseConfigResponse(response), "app_code") ==
      (if BlockOf(response, "App.tsx").Some? then Some(FencedCode(response, Marked("App.tsx"))) else None)
  {
    ConfigFirstStep(response);
    AppSectionFirst();
    AsWrittenStores(response, ConfigSections[1..], AfterConfig(response));
  }

  /** After the first step, the App.tsx section comes first and no later section stores
      under its key. */
  lemma AppSectionFirst()
    ensures ConfigSections[1..][0].0 + "_code" == "app_code" && ConfigSections[1..][0].1 == "App.tsx"
    ensures forall i :: 1 <= i < |ConfigSections[1..]| ==>
      ConfigSections[1..][i].0 + "_code" != ConfigSections[1..][0].0 + "_code"
  {
    StoredKeyNames();
    StoredKeysDistinct();
    var rest := ConfigSections[1..];
    forall i | 1 <= i < |rest| ensures rest[i].0 + "_code" != rest[0].0 + "_code" {
      assert rest[i] == ConfigSections[i + 1];
    }
  }

  lemma StoredKeysDistinct()
    ensures forall i, j :: 0 <= i < j < |StoredKeys| ==> |StoredKeys[i]| != |StoredKeys[j]|
  {
  }

  /** The first section's key ends up holding its stripped block when there is one, and its
      old value otherwise, provided no later section stores under the same key. */
  lemma AsWrittenStores(response: String, sections: seq<(String, String)>, d: Dict)
    requires DistinctKeys(d) && |sections| > 0
    requires forall i :: 1 <= i < |sections| ==> sections[i].0 + "_code" != sections[0].0 + "_code"
    ensures Lookup(StoreAsWritten(response, sections, d), sections[0].0 + "_code") ==
      match BlockOf(response, sections[0].1)
      case Some(b) => Some(Strip(b))
      case None => Lookup(d, sections[0].0 + "_code")
  {
    var k := sections[0].0 + "_code";
    var d' := Store(d, k, BlockOf(response, sections[0].1));
    forall i | 0 <= i < |sections[1..]| ensures sections[1..][i].0 + "_code" != k {
      assert sections[1..][i] == sections[i + 1];
    }
    AsWrittenKeeps(response, sections[1..], d', k);
  }

  /** The result has the five default keys and at most the four new ones. */
  lemma ConfigSize(response: String)
    ensures 5 <= |ParseConfigResponse(response)| <= 9
  {
    ConfigFirstStep(response);
    AsWrittenGrows(response, ConfigSections[1..], AfterConfig(response));
  }

  /** A reply holding only an App.tsx block: the parser as written reports an empty
      "app_updates" and files the code under "app_code" instead. */
  lemma ConfigLosesAppBlock()
    ensures Lookup(ParseConfigResponse(RenderBlock("App.tsx", "x")), "app_updates") == Some("")
    ensures Lookup(ParseConfigResponse(RenderBlock("App.tsx", "x")), "app_code") == Some("x")
  {
    MarkedRoundTrip("App.tsx", "x");
    StripUnpadded("x");
    AppBlockMisfiled(RenderBlock("App.tsx", "x"), "x");
  }

  lemma AppBlockMisfiled(response: String, body: String)
    requires BlockOf(response, "App.tsx") == Some(body) && Strip(body) == body
    ensures Lookup(ParseConfigResponse(response), "app_updates") == Some("")
    ensures Lookup(ParseConfigResponse(response), "app_code") == Some(body)
  {
    ConfigAsWritten(response);
    assert ConfigDefaults[1].0 == "app_updates";
    AppCodeStored(response);
  }

  /** The evidently intended mapping from each marker to the result key that was
      initialised for it. */
  const IntendedSections: seq<(String, String)> :=
    [("config_code", "config.ts"), ("app_updates", "App.tsx"), ("preloader", "PreloadScene"),
     ("scene_manager", "SceneManager"), ("save_system", "SaveSystem")]

  function StoreIntended(response: String, sections: seq<(String, String)>, d: Dict): (r: Dict)
    requires DistinctKeys(d)
    ensures DistinctKeys(r)
    decreases |sections|
  {
    if |sections| == 0 then d
    else StoreIntended(response, sections[1..], Store(d, sections[0].0, BlockOf(response, sections[0].1)))
  }

  /** The corrected configuration parser: each found block overwrites the default it was
      meant for. */
  function ParseConfigResponseIntended(response: String): (r: Dict)
    ensures DistinctKeys(r)
  {
    DefaultsDistinct();
    StoreIntended(response, IntendedSections, ConfigDefaults)
  }

  /** The corrected loop keeps the keys of the dictionary, in order, and each section's key
      ends up holding the stripped block its marker names, or the empty default when there
      is none. */
  lemma {:induction false} StoreIntendedFields(response: String, sections: seq<(String, String)>, d: Dict)
    requires DistinctKeys(d)
    requires forall i :: 0 <= i < |sections| ==> Lookup(d, sections[i].0) == Some("")
    requires forall i, j :: 0 <= i < j < |sections| ==> sections[i].0 != sections[j].0
    ensures var r := StoreIntended(response, sections, d);
      && |r| == |d|
      && (forall i :: 0 <= i < |d| ==> r[i].0 == d[i].0)
      && (forall i :: 0 <= i < |sections| ==> Lookup(r, sections[i].0) == Some(FencedCode(response, Marked(sections[i].1))))
    decreases |sections|
  {
    if |sections| > 0 {
      var d' := Store(d, sections[0].0, BlockOf(response, sections[0].1));
      assert Lookup(d', sections[0].0) == Some(FencedCode(response, Marked(sections[0].1)));
      forall i | 0 <= i < |sections[1..]| ensures Lookup(d', sections[1..][i].0) == Some("") {
        assert sections[1..][i] == sections[i + 1];
      }
      StoreIntendedFields(response, sections[1..], d');
      var r := StoreIntended(response, sections, d);
      forall i | 0 <= i < |sections|
        ensures Lookup(r, sections[i].0) == Some(FencedCode(response, Marked(sections[i].1)))
      {
        if i > 0 {
          assert sections[1..][i - 1] == sections[i];
        } else {
          StoreIntendedKeeps(response, sections[1..], d', sections[0].0);
        }
      }
    }
  }

  lemma {:induction false} StoreIntendedKeeps(response: String, sections: seq<(String, String)>, d: Dict, k: String)
    requires DistinctKeys(d)
    requires forall i :: 0 <= i < |sections| ==> sections[i].0 != k
    ensures Lookup(StoreIntended(response, sections, d), k) == Lookup(d, k)
    decreases |sections|
  {
    if |sections| > 0 {
      var d' := Store(d, sections[0].0, BlockOf(response, sections[0].1));
      forall i | 0 <= i < |sections[1..]| ensures sections[1..][i].0 != k {
        assert sections[1..][i] == sections[i + 1];
      }
      StoreIntendedKeeps(response, sections[1..], d', k);
    }
  }

  /** The corrected parser returns exactly the five default keys, in order, each holding
      the stripped block its marker names, or empty when there is none. */
  lemma ConfigIntended(response: String)
    ensures var r := ParseConfigResponseIntended(response);
      && |r| == 5
      && (forall i :: 0 <= i < 5 ==> r[i].0 == ConfigDefaults[i].0)
      && (forall i :: 0 <= i < 5 ==>
            Lookup(r, ConfigDefaults[i].0) == Some(FencedCode(response, Marked(IntendedSections[i].1))))
  {
    DefaultsDistinct();
    IntendedKeys();
    forall i | 0 <= i < |IntendedSections| ensures Lookup(ConfigDefaults, IntendedSections[i].0) == Some("") {
      LookupDistinct(ConfigDefaults, IntendedSections[i].0, i);
    }
    StoreIntendedFields(response, IntendedSections, ConfigDefaults);
  }

  lemma IntendedKeys()
    ensures |IntendedSections| == |ConfigDefaults| == 5
    ensures forall i :: 0 <= i < 5 ==> IntendedSections[i].0 == ConfigDefaults[i].0 && ConfigDefaults[i].1 == ""
    ensures forall i, j :: 0 <= i < j < 5 ==> IntendedSections[i].0 != IntendedSections[j].0
  {
    DefaultsDistinct();
  }

  /** On the reply holding only an App.tsx block, the corrected parser reports it under
      "app_updates". */
  lemma ConfigIntendedKeepsAppBlock()
    ensures Lookup(ParseConfigResponseIntended(RenderBlock("App.tsx", "x")), "app_updates") == Some("x")
  {
    MarkedRoundTrip("App.tsx", "x");
    StripUnpadded("x");
    AppBlockKept(RenderBlock("App.tsx", "x"), "x");
  }

  lemma AppBlockKept(response: String, body: String)
    requires BlockOf(response, "App.tsx") == Some(body) && Strip(body) == body
    ensures Lookup(ParseConfigResponseIntended(response), "app_updates") == Some(body)
  {
    ConfigIntended(response);
    assert ConfigDefaults[1].0 == "app_updates" && IntendedSections[1].1 == "App.tsx";
  }

  // ---------------------------------------------------------------------------------------
  // Mini-game and enhancement replies

  datatype MiniGameReply = MiniGameReply(
    miniGameCode: String,
    visualDesign: String,
    scoringSystem: String,
    integrationNotes: String,
    accessibility: String)

  function StripOr(block: Option<String>): (r: String)
    ensures block.None? ==> r == []
    ensures block.Some? ==> r == Strip(block.value)
  {
    match block case Some(b) => Strip(b) case None => []
  }

  /** `_parse_mini_game_response`, given what the four section patterns captured. */
  function ParseMiniGameResponse(response: String, visual: Option<String>, scoring: Option<String>,
                                 integration: Option<String>, accessibility: Option<String>): (r: MiniGameReply)
    ensures r.miniGameCode == FencedCode(response, Plain)
    ensures visual.None? ==> r.visualDesign == []
    ensures scoring.None? ==> r.scoringSystem == []
    ensures integration.None? ==> r.integrationNotes == []
    ensures accessibility.None? ==> r.accessibility == []
    ensures visual.Some? ==> r.visualDesign == Strip(visual.value)
    ensures scoring.Some? ==> r.scoringSystem == Strip(scoring.value)
    ensures integration.Some? ==> r.integrationNotes == Strip(integration.value)
    ensures accessibility.Some? ==> r.accessibility == Strip(accessibility.value)
  {
    MiniGameReply(FencedCode(response, Plain), StripOr(visual), StripOr(scoring),
                  StripOr(integration), StripOr(accessibility))
  }

  datatype EnhancementReply = EnhancementReply(
    enhancedCode: String,
    changes: seq<String>,
    newAssets: seq<String>,
    performanceImpact: String)

  /** `_parse_enhancement_response`, given what the changes, new-assets and performance
      patterns captured. */
  function ParseEnhancementResponse(response: String, changes: Option<String>, newAssets: Option<String>,
                                    performance: Option<String>): (r: EnhancementReply)
    ensures r.enhancedCode == FencedCode(response, Plain)
    ensures changes.None? ==> r.changes == []
    ensures newAssets.None? ==> r.newAssets == []
    ensures performance.None? ==> r.performanceImpact == []
    ensures changes.Some? ==> r.changes == CleanList(changes.value)
    ensures newAssets.Some? ==> r.newAssets == CleanList(newAssets.value)
    ensures performance.Some? ==> r.performanceImpact == Strip(performance.value)
  {
    EnhancementReply(
      FencedCode(response, Plain),
      match changes case Some(b) => CleanList(b) case None => [],
      match newAssets case Some(b) => CleanList(b) case None => [],
      StripOr(performance))
  }

  /** The scene parser lists an asset or an objective exactly when it is the cleanup of a
      non-blank line of what the pattern captured; a missing section lists nothing. */
  lemma SceneListsFromCaptures(response: String, assets: Option<String>, mechanics: Option<String>,
                               objectives: Option<String>)
    ensures var r := ParseSceneResponse(response, assets, mechanics, objectives);
      && (assets.Some? ==> forall x :: x in r.assets <==> CleanedFrom(x, assets.value))
      && (objectives.Some? ==> forall x :: x in r.learningObjectives <==> CleanedFrom(x, objectives.value))
      && (assets.None? ==> r.assets == [])
      && (objectives.None? ==> r.learningObjectives == [])
  {
    if assets.Some? { CleanListMembers(assets.value); }
    if objectives.Some? { CleanListMembers(objectives.value); }
  }

  /** The enhancement parser lists a change or a new asset exactly when it is the cleanup of
      a non-blank line of what the pattern captured; a missing section lists nothing. */
  lemma EnhancementListsFromCaptures(response: String, changes: Option<String>, newAssets: Option<String>,
                                     performance: Option<String>)
    ensures var r := ParseEnhancementResponse(response, changes, newAssets, performance);
      && (changes.Some? ==> forall x :: x in r.changes <==> CleanedFrom(x, changes.value))
      && (newAssets.Some? ==> forall x :: x in r.newAssets <==> CleanedFrom(x, newAssets.value))
      && (changes.None? ==> r.changes == [])
      && (newAssets.None? ==> r.newAssets == [])
  {
    if changes.Some? { CleanListMembers(changes.value); }
    if newAssets.Some? { CleanListMembers(newAssets.value); }
  }
}
