/**
 * The core-values level (CoreValuesScene.ts). Five value items stand on the platforms; in
 * each frame the player collects an uncollected item within reach by pressing E, the HUD
 * shows the running count, and the fifth item schedules the completion message, after
 * which Space starts the work-schedule level. Reach is decided by the physics engine and is
 * an input here: one flag per item, in item order.
 */
module CoreValues {
  import opened Results
  import opened Text

  const ValueNames: seq<String> := ["Innovation", "Integrity", "Excellence", "Teamwork", "Customer Focus"]
  const ValueCount: nat := 5
  const FallbackName: String := "Player"

  /** The level's state. `eDown` and `eJustDown` are the E key's `isDown` and `_justDown`
      flags; `JustDown` reads and clears the second. */
  datatype Level = Level(
    collected: seq<bool>,
    count: nat,
    hud: String,
    registry: Option<String>,
    eDown: bool,
    eJustDown: bool,
    completionCalls: nat,
    completionsFired: nat,
    spaceListeners: nat,
    started: bool)

  datatype Event =
    | EPressed
    | EReleased
    | Frame(inReach: seq<bool>)
    | CompletionDue
    | SpacePressed

  // ---------------------------------------------------------------------------------------
  // The HUD

  /** `${registry.get('playerName')}`: an unset name prints as "undefined". */
  function Interpolated(registry: Option<String>): String {
    match registry
    case None => "undefined"
    case Some(n) => n
  }

  /** `registry.get('playerName') || 'Player'`: unset and empty both fall back. */
  function NameOrFallback(registry: Option<String>): (r: String)
    ensures |r| > 0
    ensures registry.Some? && |registry.value| > 0 ==> r == registry.value
    ensures registry.None? || |registry.value| == 0 ==> r == FallbackName
  {
    match registry
    case Some(n) => if |n| > 0 then n else FallbackName
    case None => FallbackName
  }

  function HudText(name: String, count: nat): String {
    name + " - Core Values: " + NatToString(count) + "/5"
  }

  /** The HUD as `create` writes it. */
  function InitialHud(registry: Option<String>): String {
    HudText(NameOrFallback(registry), 0)
  }

  /** The HUD as `collectValue` writes it, without the fallback. */
  function CollectedHud(registry: Option<String>, count: nat): String {
    HudText(Interpolated(registry), count)
  }

  /** The HUD with the fallback `create` uses, so the name on it never changes. */
  function CollectedHudIntended(registry: Option<String>, count: nat): String {
    HudText(NameOrFallback(registry), count)
  }

  function Init(registry: Option<String>): (s: Level)
    ensures |s.collected| == ValueCount && s.count == 0
  {
    Level([false, false, false, false, false], 0, InitialHud(registry), registry,
          false, false, 0, 0, 0, false)
  }

  // ---------------------------------------------------------------------------------------
  // Collecting

  function CountCollected(c: seq<bool>): (n: nat)
    ensures n <= |c|
    decreases |c|
  {
    if |c| == 0 then 0 else (if c[0] then 1 else 0) + CountCollected(c[1..])
  }

  lemma {:induction false} CountMark(c: seq<bool>, i: nat)
    requires i < |c| && !c[i]
    ensures CountCollected(c[i := true]) == CountCollected(c) + 1
    decreases |c|
  {
    if i > 0 {
      assert c[i := true][1..] == c[1..][i - 1 := true];
      CountMark(c[1..], i - 1);
    }
  }

  lemma {:induction false} AllCollected(c: seq<bool>)
    requires CountCollected(c) == |c|
    ensures forall i :: 0 <= i < |c| ==> c[i]
    decreases |c|
  {
    if |c| > 0 {
      AllCollected(c[1..]);
      assert forall i :: 1 <= i < |c| ==> c[i] == c[1..][i - 1];
    }
  }

  function Near(inReach: seq<bool>, i: nat): bool {
    i < |inReach| && inReach[i]
  }

  /** The first uncollected item within reach: the only one whose `JustDown` call can see
      the key press, since that call clears it. */
  function FirstCandidate(collected: seq<bool>, inReach: seq<bool>, from: nat): (r: Option<nat>)
    requires from <= |collected|
    ensures r.Some? ==> from <= r.value < |collected| && !collected[r.value] && Near(inReach, r.value)
    ensures r.Some? ==> forall j :: from <= j < r.value ==> collected[j] || !Near(inReach, j)
    ensures r.None? ==> forall j :: from <= j < |collected| ==> collected[j] || !Near(inReach, j)
    decreases |collected| - from
  {
    if from == |collected| then None
    else if !collected[from] && Near(inReach, from) then Some(from)
    else FirstCandidate(collected, inReach, from + 1)
  }

  /** `collectValue`. */
  function Collect(s: Level, i: nat): Level
    requires i < |s.collected|
  {
    var count := s.count + 1;
    s.(collected := s.collected[i := true], count := count,
       hud := CollectedHud(s.registry, count),
       completionCalls := if count == ValueCount then s.completionCalls + 1 else s.completionCalls)
  }

  /** `update`'s collection loop for one frame. */
  function Update(s: Level, inReach: seq<bool>): (s': Level)
    ensures |s'.collected| == |s.collected|
    ensures !s.eJustDown ==> s' == s
    ensures s.eJustDown ==> match FirstCandidate(s.collected, inReach, 0)
      case None => s' == s
      case Some(i) => s'.collected == s.collected[i := true] && s'.count == s.count + 1 && !s'.eJustDown
  {
    match FirstCandidate(s.collected, inReach, 0)
    case None => s
    case Some(i) =>
      if s.eJustDown then Collect(s.(eJustDown := false), i) else s
  }

  function Step(s: Level, e: Event): Level {
    if s.started then s
    else match e
      case EPressed => if s.eDown then s else s.(eDown := true, eJustDown := true)
      case EReleased => s.(eDown := false, eJustDown := false)
      case Frame(inReach) => Update(s, inReach)
      case CompletionDue =>
        if s.completionsFired < s.completionCalls
        then s.(completionsFired := s.completionsFired + 1, spaceListeners := s.spaceListeners + 1)
        else s
      case SpacePressed => if s.spaceListeners > 0 then s.(spaceListeners := 0, started := true) else s
  }

  function Run(s: Level, events: seq<Event>): Level
    decreases |events|
  {
    if |events| == 0 then s else Run(Step(s, events[0]), events[1..])
  }

  // ---------------------------------------------------------------------------------------
  // Properties

  /** The count is the number of items collected; the completion message is scheduled
      exactly when all five are in, and only once; the next level starts only after it. */
  predicate Valid(s: Level) {
    && |s.collected| == ValueCount
    && s.count == CountCollected(s.collected)
    && s.completionCalls == (if s.count == ValueCount then 1 else 0)
    && s.completionsFired <= s.completionCalls
    && s.spaceListeners <= s.completionsFired
    && (s.started ==> s.completionsFired == 1)
  }

  lemma InitValid(registry: Option<String>)
    ensures Valid(Init(registry))
  {
  }

  lemma StepValid(s: Level, e: Event)
    requires Valid(s)
    ensures Valid(Step(s, e))
  {
    if !s.started && e.Frame? && s.eJustDown {
      match FirstCandidate(s.collected, e.inReach, 0)
      case None =>
      case Some(i) =>
        CountMark(s.collected, i);
    }
  }

  lemma {:induction false} RunValid(s: Level, events: seq<Event>)
    requires Valid(s)
    ensures Valid(Run(s, events))
    decreases |events|
  {
    if |events| > 0 {
      StepValid(s, events[0]);
      RunValid(Step(s, events[0]), events[1..]);
    }
  }

  /** A frame collects at most one item, and a key press collects at most one item over
      all the frames that follow it until E is pressed again. */
  lemma OnePerPress(s: Level, a: seq<bool>, b: seq<bool>)
    requires Valid(s)
    ensures CountCollected(Update(s, a).collected) <= s.count + 1
    ensures Update(s, a).count > s.count ==> Update(Update(s, a), b) == Update(s, a)
  {
    StepValid(s, Frame(a));
  }

  /** Once all five are in, the level is finished with collecting: every item is marked. */
  lemma CompleteMeansAll(s: Level)
    requires Valid(s) && s.count == ValueCount
    ensures forall i :: 0 <= i < ValueCount ==> s.collected[i]
  {
    AllCollected(s.collected);
  }

  /** The HUD as written drops the fallback of the initial HUD: with no stored name the
      first pick-up turns "Player" into "undefined", and with an empty one into nothing. */
  lemma HudNameChanges()
    ensures InitialHud(None) == "Player - Core Values: 0/5"
    ensures CollectedHud(None, 1) == "undefined - Core Values: 1/5"
    ensures CollectedHud(Some([]), 1) == " - Core Values: 1/5"
  {
    InitialHudUnnamed();
    CollectedHudUnnamed();
    CollectedHudEmpty();
  }

  lemma InitialHudUnnamed()
    ensures InitialHud(None) == "Player - Core Values: 0/5"
  {
    assert NatToString(0) == "0";
  }

  lemma CollectedHudUnnamed()
    ensures CollectedHud(None, 1) == "undefined - Core Values: 1/5"
  {
    assert NatToString(1) == "1";
  }

  lemma CollectedHudEmpty()
    ensures CollectedHud(Some([]), 1) == " - Core Values: 1/5"
  {
    assert NatToString(1) == "1";
  }

  /** With the fallback on both sides the HUD keeps its name: the text before the count is
      the same after any number of pick-ups as at the start. */
  lemma HudNameSteady(registry: Option<String>, count: nat)
    ensures var prefix := NameOrFallback(registry) + " - Core Values: ";
      && InitialHud(registry)[..|prefix|] == prefix
      && CollectedHudIntended(registry, count)[..|prefix|] == prefix
  {
  }
}
