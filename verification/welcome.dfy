/**
 * The name-entry screen (WelcomeScene.ts). Typed characters build the player's name up to
 * twenty characters; Backspace removes the last one; Enter with a non-empty name shows the
 * greeting and waits for Space, which stores the name in the game registry and starts the
 * core-values level. Keys are `KeyboardEvent.key` strings, one `char` per UTF-16 unit.
 */
module Welcome {
  import opened Results
  import opened Text

  const MaxNameLength: nat := 20
  const Placeholder: String := "Type your name..."
  const SpaceKey: String := " "

  /** The screen's state: the name typed so far, how many one-shot Space listeners
      `confirmName` has registered and not yet fired, what the registry holds under
      `playerName`, and whether the next scene was started. */
  datatype Screen = Screen(name: String, pendingSpace: nat, registry: Option<String>, started: bool)

  const Start: Screen := Screen([], 0, None, false)

  /** The name line: the name, or the placeholder while it is empty. */
  function Display(name: String): (r: String)
    ensures |name| > 0 ==> r == name
    ensures |name| == 0 ==> r == Placeholder
  {
    if |name| > 0 then name else Placeholder
  }

  /** The generic `keydown` handler. */
  function Typed(s: Screen, key: String): (s': Screen)
    ensures key == "Enter" && |s.name| > 0 ==> s' == s.(pendingSpace := s.pendingSpace + 1)
    ensures key == "Backspace" ==> s' == s.(name := if |s.name| == 0 then [] else s.name[..|s.name| - 1])
    ensures |key| == 1 && |s.name| < MaxNameLength ==> s' == s.(name := s.name + key)
    ensures (key != "Enter" || |s.name| == 0) && key != "Backspace" && (|key| != 1 || |s.name| >= MaxNameLength) ==> s' == s
  {
    if key == "Enter" && |s.name| > 0 then
      s.(pendingSpace := s.pendingSpace + 1)
    else if key == "Backspace" then
      s.(name := if |s.name| == 0 then [] else s.name[..|s.name| - 1])
    else if |key| == 1 && |s.name| < MaxNameLength then
      s.(name := s.name + key)
    else
      s
  }

  /** A key press: the Space-specific listeners fire before the generic one, so the
      registry receives the name as it was before the space is typed. After the next scene
      has started the screen takes no more input. */
  function KeyDown(s: Screen, key: String): (s': Screen)
    ensures s.started ==> s' == s
    ensures !s.started && key == SpaceKey && s.pendingSpace > 0 ==>
      s'.registry == Some(s.name) && s'.started && s'.pendingSpace == 0
    ensures !(key == SpaceKey && s.pendingSpace > 0) ==> s'.registry == s.registry && s'.started == s.started
  {
    if s.started then s
    else
      var s1 := if key == SpaceKey && s.pendingSpace > 0
                then s.(registry := Some(s.name), started := true, pendingSpace := 0)
                else s;
      Typed(s1, key)
  }

  function Run(s: Screen, keys: seq<String>): Screen
    decreases |keys|
  {
    if |keys| == 0 then s else Run(KeyDown(s, keys[0]), keys[1..])
  }

  /** The name never grows past twenty characters. */
  lemma KeyDownBounded(s: Screen, key: String)
    requires |s.name| <= MaxNameLength
    ensures |KeyDown(s, key).name| <= MaxNameLength
  {
  }

  lemma {:induction false} RunBounded(s: Screen, keys: seq<String>)
    requires |s.name| <= MaxNameLength
    ensures |Run(s, keys).name| <= MaxNameLength
    decreases |keys|
  {
    if |keys| > 0 {
      KeyDownBounded(s, keys[0]);
      RunBounded(KeyDown(s, keys[0]), keys[1..]);
    }
  }

  /** Enter on an empty name does nothing, and Backspace on it leaves it empty. */
  lemma EmptyNameKeys(s: Screen)
    requires |s.name| == 0
    ensures KeyDown(s, "Enter") == s
    ensures KeyDown(s, "Backspace") == s
  {
  }

  /** Typing a character and deleting it gives the screen back, when there was room. */
  lemma TypeThenDelete(s: Screen, c: char)
    requires !s.started && |s.name| < MaxNameLength
    requires [c] != SpaceKey || s.pendingSpace == 0
    ensures KeyDown(KeyDown(s, [c]), "Backspace") == s
  {
    assert (s.name + [c])[..|s.name|] == s.name;
  }

  /** Whatever the keys, the registry is written at most once, only together with starting
      the next scene, and only after an Enter registered a Space listener. */
  predicate Consistent(s: Screen) {
    (s.registry.Some? <==> s.started) && (s.started ==> s.pendingSpace == 0)
  }

  lemma KeyDownConsistent(s: Screen, key: String)
    requires Consistent(s)
    ensures Consistent(KeyDown(s, key))
    ensures KeyDown(s, key).pendingSpace > s.pendingSpace ==> key == "Enter" && |s.name| > 0
    ensures KeyDown(s, key).started && !s.started ==> key == SpaceKey && s.pendingSpace > 0
  {
  }

  lemma {:induction false} RunConsistent(s: Screen, keys: seq<String>)
    requires Consistent(s)
    ensures Consistent(Run(s, keys))
    ensures s.started ==> Run(s, keys) == s
    decreases |keys|
  {
    if |keys| > 0 {
      KeyDownConsistent(s, keys[0]);
      RunConsistent(KeyDown(s, keys[0]), keys[1..]);
    }
  }

  /** Enter only guards the greeting: a name emptied by Backspace after Enter is still
      stored by Space, as the empty string. */
  lemma EmptyNameStored()
    ensures Run(Start, ["a", "Enter", "Backspace", " "]).registry == Some([])
  {
    var s1 := KeyDown(Start, "a");
    assert s1.name == "a";
    var s2 := KeyDown(s1, "Enter");
    assert s2.pendingSpace == 1;
    var s3 := KeyDown(s2, "Backspace");
    assert s3.name == [];
    var s4 := KeyDown(s3, " ");
    assert s4.registry == Some([]);
    assert Run(s4, []) == s4;
    assert ["a", "Enter", "Backspace", " "][1..] == ["Enter", "Backspace", " "];
    assert ["Enter", "Backspace", " "][1..] == ["Backspace", " "];
    assert ["Backspace", " "][1..] == [" "];
    assert [" "][1..] == [];
  }
}
