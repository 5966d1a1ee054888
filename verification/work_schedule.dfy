/**
 * The work-schedule level (WorkScheduleScene.ts) as a state machine. The clock runs in
 * half-hour steps from 9:00 to 17:00 and wraps; each tick awards the points of the time
 * zone under the player; late-arrival obstacles cost points unless a communication token
 * (Slack, then Email) absorbs the hit; a portal turns on a flex mode for a while; the level
 * completes at 500 points. Positions come from the physics engine and are inputs here.
 */
module WorkSchedule {
  import opened Results
  import opened Text

  // ---------------------------------------------------------------------------------------
  // The clock, in half-hours since midnight

  const StartClock: int := 18
  const EndClock: int := 34

  /** `advanceTime`: add half an hour; past 17:00 go back to 9:00. */
  function AdvanceClock(h: int): (h': int)
    ensures StartClock <= h <= EndClock ==> StartClock <= h' <= EndClock
  {
    if h + 1 > EndClock then StartClock else h + 1
  }

  function Ticks(h: int, n: nat): int
    decreases n
  {
    if n == 0 then h else Ticks(AdvanceClock(h), n - 1)
  }

  /** From any hour on the dial, n ticks land n half-hours further round a dial of 17
      positions, 9:00 to 17:00. */
  lemma {:induction false} TicksCycle(h: int, n: nat)
    requires StartClock <= h <= EndClock
    ensures Ticks(h, n) == StartClock + (h - StartClock + n) % 17
    decreases n
  {
    if n > 0 {
      var h' := AdvanceClock(h);
      assert h' == StartClock + (h - StartClock + 1) % 17;
      TicksCycle(h', n - 1);
      ModShift(h - StartClock, n);
    }
  }

  lemma ModShift(a: int, n: nat)
    requires 0 <= a < 17 && n > 0
    ensures ((a + 1) % 17 + (n - 1)) % 17 == (a + n) % 17
  {
    if a + 1 == 17 {
      assert (a + 1) % 17 == 0;
      assert (n - 1) % 17 == (a + n) % 17 by {
        assert a + n == (n - 1) + 17;
      }
    } else {
      assert (a + 1) % 17 == a + 1;
    }
  }

  // ---------------------------------------------------------------------------------------
  // The time display

  /** `Math.floor(currentTime)`. */
  function HourOf(h: nat): nat {
    h / 2
  }

  /** `Math.round((currentTime - hour) * 60)`, exact on half-hours. */
  function MinutesOf(h: nat): nat {
    (h % 2) * 30
  }

  function IsPm(hour: nat): bool {
    hour >= 12
  }

  /** The hour as shown: 12 is subtracted only past noon, so noon shows as 12. */
  function DisplayHour(hour: nat): nat {
    if hour > 12 then hour - 12 else hour
  }

  /** `padStart(2, '0')`. */
  function Pad2(s: String): (r: String)
    ensures |s| < 2 ==> |r| == 2
    ensures |s| >= 2 ==> r == s
  {
    if |s| == 0 then "00" else if |s| == 1 then "0" + s else s
  }

  /** `getTimeString`. */
  function TimeString(h: nat): String {
    var hour := HourOf(h);
    NatToString(DisplayHour(hour)) + ":" + Pad2(NatToString(MinutesOf(h))) + " " + (if IsPm(hour) then "PM" else "AM")
  }

  /** Reading the display back: the shown hour, the period and the minutes give the
      half-hour count again, for every time from 1:00 to 23:30. */
  function FromDisplay(shown: nat, pm: bool, minutes: nat): int {
    var hour := if pm && shown != 12 then shown + 12 else shown;
    2 * hour + minutes / 30
  }

  lemma DisplayRoundTrip(h: nat)
    requires 2 <= h < 48
    ensures FromDisplay(DisplayHour(HourOf(h)), IsPm(HourOf(h)), MinutesOf(h)) == h
    ensures 1 <= DisplayHour(HourOf(h)) <= 12
  {
  }

  /** The minutes always show as "00" or "30". */
  lemma MinuteTexts(h: nat)
    ensures Pad2(NatToString(MinutesOf(h))) == (if h % 2 == 0 then "00" else "30")
  {
    if h % 2 == 0 {
      assert NatToString(0) == "0";
    } else {
      assert NatToString(30) == "30" by {
        assert NatToString(3) == "3";
      }
    }
  }

  /** The display on a few ticks of the day: the start, noon and the last tick. */
  lemma TimeStrings()
    ensures TimeString(18) == "9:00 AM"
    ensures TimeString(24) == "12:00 PM"
    ensures TimeString(27) == "1:30 PM"
    ensures TimeString(34) == "5:00 PM"
  {
    NineAm();
    Noon();
    HalfPastOne();
    FivePm();
  }

  lemma NineAm()
    ensures TimeString(18) == "9:00 AM"
  {
    MinuteTexts(18);
    assert NatToString(9) == "9";
  }

  lemma Noon()
    ensures TimeString(24) == "12:00 PM"
  {
    MinuteTexts(24);
    assert NatToString(12) == "12" by {
      assert NatToString(1) == "1";
    }
  }

  lemma HalfPastOne()
    ensures TimeString(27) == "1:30 PM"
  {
    MinuteTexts(27);
    assert NatToString(1) == "1";
  }

  lemma FivePm()
    ensures TimeString(34) == "5:00 PM"
  {
    MinuteTexts(34);
    assert NatToString(5) == "5";
  }

  // ---------------------------------------------------------------------------------------
  // Time zones

  datatype ZoneKind = Standard | CoreHours | Flexible

  datatype Zone = Zone(x: int, width: int, kind: ZoneKind, points: int)

  const Zones: seq<Zone> := [
    Zone(0, 150, Standard, 10),
    Zone(150, 250, CoreHours, 20),
    Zone(400, 150, Standard, 10),
    Zone(550, 250, Flexible, 15)
  ]

  predicate InZone(px: real, z: Zone) {
    z.x as real <= px < (z.x + z.width) as real
  }

  /** `timeZones.find(...)`: the first zone whose half-open span holds `px`. */
  function FindZone(zs: seq<Zone>, px: real): (r: Option<nat>)
    ensures r.Some? ==> r.value < |zs| && InZone(px, zs[r.value])
    ensures r.Some? ==> forall i :: 0 <= i < r.value ==> !InZone(px, zs[i])
    ensures r.None? ==> forall i :: 0 <= i < |zs| ==> !InZone(px, zs[i])
    decreases |zs|
  {
    if |zs| == 0 then None
    else if InZone(px, zs[0]) then Some(0)
    else match FindZone(zs[1..], px)
      case None => None
      case Some(i) => Some(i + 1)
  }

  function ZoneAt(px: real): Option<Zone> {
    match FindZone(Zones, px)
    case None => None
    case Some(i) => Some(Zones[i])
  }

  /** The zones tile [0, 800) without overlap: a position inside the span lies in exactly
      one zone, one outside it in none. */
  lemma ZonesTile(px: real)
    ensures ZoneAt(px).Some? <==> 0.0 <= px < 800.0
    ensures forall i, j :: 0 <= i < |Zones| && 0 <= j < |Zones| && InZone(px, Zones[i]) && InZone(px, Zones[j]) ==> i == j
  {
  }

  /** The points a tick awards in zone `z`: doubled in core hours, and half as much again
      in the flexible zone while flex mode is on. */
  function Award(z: Zone, flex: bool): real {
    var points := z.points * (if z.kind == CoreHours then 2 else 1);
    if flex && z.kind == Flexible then points as real * 1.5 else points as real
  }

  /** `checkTimeZoneBonus`: what one tick adds to the score. */
  function Bonus(px: real, flex: bool): real {
    match ZoneAt(px)
    case None => 0.0
    case Some(z) => Award(z, flex)
  }

  /** The award for each stretch of the floor. */
  lemma BonusTable(px: real, flex: bool)
    ensures 0.0 <= px < 150.0 ==> Bonus(px, flex) == 10.0
    ensures 150.0 <= px < 400.0 ==> Bonus(px, flex) == 40.0
    ensures 400.0 <= px < 550.0 ==> Bonus(px, flex) == 10.0
    ensures 550.0 <= px < 800.0 ==> Bonus(px, flex) == (if flex then 22.5 else 15.0)
    ensures px < 0.0 || px >= 800.0 ==> Bonus(px, flex) == 0.0
  {
  }

  // ---------------------------------------------------------------------------------------
  // The level

  datatype Pos = Pos(x: real, y: real)

  const RespawnPos: Pos := Pos(50.0, 450.0)
  const ObstacleCount: nat := 3
  const CompletionScore: real := 500.0

  datatype Level = Level(
    clock: int,
    score: real,
    player: Pos,
    hasSlack: bool,
    hasEmail: bool,
    slackTaken: bool,
    emailTaken: bool,
    obstacles: set<nat>,
    flexMode: bool,
    flexTimer: bool,
    complete: bool)

  const Start: Level := Level(StartClock, 0.0, RespawnPos, false, false, false, false,
                              {0, 1, 2}, false, false, false)

  /** What happens to the level: the two-second timer fires, a frame is drawn with the
      player at a given spot and near (or not) each token and the portal, the player
      overlaps an obstacle, or the flex timer fires. */
  datatype Event =
    | Tick
    | Frame(at: Pos, nearSlack: bool, nearEmail: bool, nearPortal: bool)
    | Overlap(obstacle: nat)
    | FlexExpire

  /** `advanceTime`: move the clock and award the zone bonus. */
  function AdvanceTime(s: Level): (s': Level)
    ensures s'.score == s.score + Bonus(s.player.x, s.flexMode)
    ensures s'.clock == AdvanceClock(s.clock)
    ensures s' == s.(clock := s'.clock, score := s'.score)
  {
    s.(clock := AdvanceClock(s.clock), score := s.score + Bonus(s.player.x, s.flexMode))
  }

  /** `handleLateObstacle`. */
  function HitObstacle(s: Level, obstacle: nat): (s': Level)
    ensures s.hasSlack || s.hasEmail ==>
      && s'.score == s.score + 50.0
      && s'.obstacles == s.obstacles - {obstacle}
      && s'.player == s.player
      && (if s.hasSlack then !s'.hasSlack && s'.hasEmail == s.hasEmail
          else !s'.hasEmail && s'.hasSlack == s.hasSlack)
    ensures !(s.hasSlack || s.hasEmail) ==>
      s' == s.(score := s.score - 20.0, player := RespawnPos)
    ensures s'.slackTaken == s.slackTaken && s'.emailTaken == s.emailTaken
    ensures s'.clock == s.clock && s'.complete == s.complete && s'.flexMode == s.flexMode
    ensures s'.flexTimer == s.flexTimer
  {
    if s.hasSlack || s.hasEmail then
      var s1 := s.(obstacles := s.obstacles - {obstacle}, score := s.score + 50.0);
      if s.hasSlack then s1.(hasSlack := false) else s1.(hasEmail := false)
    else
      s.(score := s.score - 20.0, player := RespawnPos)
  }

  /** `update`: token pick-up, the flex portal and the completion check. Reaching 500
      points runs `completeLevel`, which removes every pending timer. */
  function Update(s: Level, at: Pos, nearSlack: bool, nearEmail: bool, nearPortal: bool): (s': Level)
    ensures s'.hasSlack == (s.hasSlack || (nearSlack && !s.slackTaken))
    ensures s'.hasEmail == (s.hasEmail || (nearEmail && !s.emailTaken))
    ensures s'.slackTaken == (s.slackTaken || nearSlack)
    ensures s'.emailTaken == (s.emailTaken || nearEmail)
    ensures s'.flexMode == (s.flexMode || nearPortal)
    ensures s'.complete == (s.complete || s.score >= CompletionScore)
    ensures s.score >= CompletionScore ==> !s'.flexTimer
    ensures s.score < CompletionScore ==> s'.flexTimer == (s.flexTimer || (nearPortal && !s.flexMode))
    ensures s'.player == at
    ensures s'.score == s.score && s'.clock == s.clock && s'.obstacles == s.obstacles
  {
    CheckCompletion(EnterPortal(PickUpTokens(s.(player := at), nearSlack, nearEmail), nearPortal))
  }

  /** A token within reach is collected once: it sets its own flag and marks itself taken. */
  function PickUpTokens(s: Level, nearSlack: bool, nearEmail: bool): (s': Level)
    ensures s'.hasSlack == (s.hasSlack || (nearSlack && !s.slackTaken))
    ensures s'.hasEmail == (s.hasEmail || (nearEmail && !s.emailTaken))
    ensures s'.slackTaken == (s.slackTaken || nearSlack)
    ensures s'.emailTaken == (s.emailTaken || nearEmail)
    ensures s' == s.(hasSlack := s'.hasSlack, hasEmail := s'.hasEmail,
                     slackTaken := s'.slackTaken, emailTaken := s'.emailTaken)
  {
    var s1 := if nearSlack && !s.slackTaken then s.(slackTaken := true, hasSlack := true) else s;
    if nearEmail && !s1.emailTaken then s1.(emailTaken := true, hasEmail := true) else s1
  }

  /** The portal turns flex mode on, with its ten-second timer, unless it is already on. */
  function EnterPortal(s: Level, nearPortal: bool): (s': Level)
    ensures s'.flexMode == (s.flexMode || nearPortal)
    ensures s' == s.(flexMode := s'.flexMode, flexTimer := s'.flexTimer)
    ensures s'.flexTimer == (s.flexTimer || (nearPortal && !s.flexMode))
  {
    if nearPortal && !s.flexMode then s.(flexMode := true, flexTimer := true) else s
  }

  /** `completeLevel`, run on every frame at 500 points or more. */
  function CheckCompletion(s: Level): (s': Level)
    ensures s'.complete == (s.complete || s.score >= CompletionScore)
    ensures s.score >= CompletionScore ==> !s'.flexTimer
    ensures s.score < CompletionScore ==> s' == s
    ensures s' == s.(complete := s'.complete, flexTimer := s'.flexTimer)
  {
    if s.score >= CompletionScore then s.(complete := true, flexTimer := false) else s
  }

  function Step(s: Level, e: Event): Level {
    match e
    case Tick => if s.complete then s else AdvanceTime(s)
    case Frame(at, ns, ne, np) => Update(s, at, ns, ne, np)
    case Overlap(i) => if i in s.obstacles then HitObstacle(s, i) else s
    case FlexExpire => if s.flexTimer then s.(flexMode := false, flexTimer := false) else s
  }

  function Run(s: Level, events: seq<Event>): Level
    decreases |events|
  {
    if |events| == 0 then s else Run(Step(s, events[0]), events[1..])
  }

  // ---------------------------------------------------------------------------------------
  // Properties of the level

  predicate Valid(s: Level) {
    && StartClock <= s.clock <= EndClock
    && (s.hasSlack ==> s.slackTaken)
    && (s.hasEmail ==> s.emailTaken)
    && s.obstacles <= {0, 1, 2}
    && (s.flexTimer ==> s.flexMode)
  }

  /** Every event keeps the clock on the dial, tokens held only once picked up, and the
      obstacles among the three placed. */
  lemma StepValid(s: Level, e: Event)
    requires Valid(s)
    ensures Valid(Step(s, e))
  {
  }

  lemma {:induction false} RunValid(s: Level, events: seq<Event>)
    requires Valid(s)
    ensures Valid(Run(s, events))
    decreases |events|
  {
    if |events| > 0 {
      StepValid(s, events[0]);
      RunValid(Step(s, events[0]), events[1..]);
    }
  }

  /** The protection still to come: tokens held plus tokens still lying on the floor. */
  function Shields(s: Level): nat {
    (if s.hasSlack then 1 else 0) + (if s.hasEmail then 1 else 0)
    + (if s.slackTaken then 0 else 1) + (if s.emailTaken then 0 else 1)
  }

  predicate IsShieldedHit(s: Level, e: Event) {
    e.Overlap? && e.obstacle in s.obstacles && (s.hasSlack || s.hasEmail)
  }

  /** How many obstacle hits a token absorbs along a run. */
  function ShieldedHits(s: Level, events: seq<Event>): nat
    decreases |events|
  {
    if |events| == 0 then 0
    else (if IsShieldedHit(s, events[0]) then 1 else 0) + ShieldedHits(Step(s, events[0]), events[1..])
  }

  lemma StepShields(s: Level, e: Event)
    requires Valid(s)
    ensures Shields(Step(s, e)) + (if IsShieldedHit(s, e) then 1 else 0) <= Shields(s)
  {
  }

  /** Each token is picked up at most once and absorbs one hit, so no run has more
      absorbed hits than there are shields to come. */
  lemma {:induction false} ShieldBudget(s: Level, events: seq<Event>)
    requires Valid(s)
    ensures ShieldedHits(s, events) <= Shields(s)
    decreases |events|
  {
    if |events| > 0 {
      StepShields(s, events[0]);
      StepValid(s, events[0]);
      ShieldBudget(Step(s, events[0]), events[1..]);
    }
  }

  /** From the start of the level at most two hits are ever absorbed. */
  lemma AtMostTwoShieldedHits(events: seq<Event>)
    ensures ShieldedHits(Start, events) <= 2
  {
    ShieldBudget(Start, events);
  }

  /** An unshielded hit has no floor: at zero points it leaves the score at -20. */
  lemma NoScoreFloor()
    ensures Step(Start, Overlap(0)).score == -20.0
    ensures Step(Start, Overlap(0)).player == RespawnPos
    ensures Step(Start, Overlap(0)).obstacles == Start.obstacles
  {
  }

  /** Once the level is complete the clock stops and ticks award nothing, and it stays
      complete whatever follows. */
  lemma CompleteIsFinal(s: Level, e: Event)
    requires s.complete
    ensures Step(s, e).complete
    ensures e == Tick ==> Step(s, e) == s
  {
  }

  /** A frame drawn at 500 points or more completes the level. */
  lemma CompletesAtTarget(s: Level, at: Pos, ns: bool, ne: bool, np: bool)
    requires s.score >= CompletionScore
    ensures Step(s, Frame(at, ns, ne, np)).complete
  {
  }

  /** Only a tick or an obstacle changes the score, and a tick adds exactly the zone
      bonus at the player's spot. */
  lemma ScoreChanges(s: Level, e: Event)
    ensures e.Frame? || e.FlexExpire? ==> Step(s, e).score == s.score
    ensures e == Tick && !s.complete ==> Step(s, e).score == s.score + Bonus(s.player.x, s.flexMode)
  {
  }
}
