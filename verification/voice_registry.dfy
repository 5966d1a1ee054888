/**
 * The audio server's content layer (main.py): the registry of voice agents built once at
 * start-up from the agent directories, the resolution of a requested step to the text that
 * is sent for synthesis, and the step numbers the root listing advertises.
 */
module VoiceRegistry {
  import opened Results
  import opened Text

  /** One node of an agent's talking points, as stored in conversation_states.json. */
  datatype ConversationState = ConversationState(
    id: String,
    description: String,
    instructions: seq<String>,
    examples: seq<String>,
    transitions: seq<String>)

  /** A registry entry. `states` and `scriptContent` are absent for the built-in agent. */
  datatype VoiceAgentConfig = VoiceAgentConfig(
    defaultInput: String,
    instructions: String,
    voice: String,
    states: Option<seq<ConversationState>>,
    scriptContent: Option<String>)

  /** What is handed to the speech endpoint for one request. */
  datatype StepContent = StepContent(input: String, instructions: String, voice: String)

  /** `int(step)` raised: the step token is not an integer. */
  datatype StepError = InvalidStep(step: String)

  /** A file of an agent directory: absent, present but failing to read, or read. */
  datatype TextFile = Missing | Unreadable | Present(text: String)

  /** The optional conversation_states.json: absent, failing to read or parse, or parsed. */
  datatype StatesFile = NoStatesFile | BadStatesFile | StatesFile(states: seq<ConversationState>)

  /** One sub-directory of the voice agent root. */
  datatype AgentDir = AgentDir(name: String, script: TextFile, instructor: TextFile, statesFile: StatesFile)

  // ---------------------------------------------------------------------------------------
  // Constants of the built-in agent and of the default sample

  const CoachName: String := "coach"
  function CoachDefaultInput(): String {
    "Alright, team, let's bring the energy\U{2014}time to move, sweat, and feel amazing!\n\n"
    + "We're starting with a dynamic warm-up, so roll those shoulders, stretch it out, and get that body ready! "
    + "Now, into our first round\U{2014}squats, lunges, and high knees\U{2014}keep that core tight, push through, you got this!\n\n"
    + "Halfway there, stay strong\U{2014}breathe, focus, and keep that momentum going! Last ten seconds, give me everything you've got!\n\n"
    + "And\U{2026} done! Take a deep breath, shake it out\U{2014}you crushed it! Stay hydrated, stay moving, and I'll see you next time!"
  }

  function CoachInstructions(): String {
    "Voice: High-energy, upbeat, and encouraging, projecting enthusiasm and motivation.\n\n"
    + "Punctuation: Short, punchy sentences with strategic pauses to maintain excitement and clarity.\n\n"
    + "Delivery: Fast-paced and dynamic, with rising intonation to build momentum and keep engagement high.\n\n"
    + "Phrasing: Action-oriented and direct, using motivational cues to push participants forward.\n\n"
    + "Tone: Positive, energetic, and empowering, creating an atmosphere of encouragement and achievement."
  }

  const CoachVoice: String := "coral"
  const OtherVoice: String := "onyx"
  const CoachSpeaker: String := "Coach Blaze"
  const RedTapeSpeaker: String := "Dr. Red Tape"
  const FallbackSample: String := "Welcome to ACME Corporation!"
  const DefaultSampleLines: nat := 3
  const SectionSampleLines: nat := 5

  const BuiltinCoach: VoiceAgentConfig :=
    VoiceAgentConfig(CoachDefaultInput(), CoachInstructions(), CoachVoice, None, None)

  // ---------------------------------------------------------------------------------------
  // Dialogue lines

  /** The line, once stripped, begins with `speaker` followed by a colon. */
  predicate IsSpeakerLine(line: String, speaker: String) {
    StartsWith(Strip(line), speaker + ":")
  }

  lemma SpeakerLineHasColon(line: String, speaker: String)
    requires IsSpeakerLine(line, speaker)
    ensures Contains(line, ":")
  {
    var l := LStrip(line);
    var t := RStrip(l);
    var k := |line| - |l|;
    var tag := speaker + ":";
    assert t[..|tag|] == tag;
    assert tag[|speaker|] == ':';
    assert t[|speaker|] == ':';
    assert l[|speaker|] == ':';
    assert line[k + |speaker|] == ':';
    assert line[k + |speaker|..k + |speaker| + 1] == ":";
    assert OccursAt(line, ":", k + |speaker|);
  }

  /** `d[1:-1]` when `d` both starts and ends with a double quote, else `d`. */
  function Unquote(d: String): (r: String)
    ensures |d| >= 2 && d[0] == '"' && d[|d| - 1] == '"' ==> d == ['"'] + r + ['"']
    ensures d == "\"" ==> r == []
    ensures !(|d| >= 1 && d[0] == '"' && d[|d| - 1] == '"') ==> r == d
  {
    if |d| >= 1 && d[0] == '"' && d[|d| - 1] == '"' then
      (if |d| >= 2 then d[1..|d| - 1] else [])
    else d
  }

  /** `line.split(':', 1)[1].strip()` with one enclosing pair of quotes removed. */
  function Dialogue(line: String): String
    requires Contains(line, ":")
  {
    var k := Find(line, ":").value;
    Unquote(Strip(line[k + 1..]))
  }

  // ---------------------------------------------------------------------------------------
  // The default sample (load_voice_configs)

  predicate IsNarratorLine(line: String) {
    IsSpeakerLine(line, CoachSpeaker) || IsSpeakerLine(line, RedTapeSpeaker)
  }

  /** The dialogue of a narrator line; nothing for any other line. */
  function NarratorDialogue(line: String): Option<String> {
    if IsSpeakerLine(line, CoachSpeaker) then
      SpeakerLineHasColon(line, CoachSpeaker);
      Some(Dialogue(line))
    else if IsSpeakerLine(line, RedTapeSpeaker) then
      SpeakerLineHasColon(line, RedTapeSpeaker);
      Some(Dialogue(line))
    else None
  }

  function NarratorPicks(lines: seq<String>): (picks: seq<Option<String>>)
    ensures |picks| == |lines|
    ensures forall i :: 0 <= i < |lines| ==> picks[i] == NarratorDialogue(lines[i])
  {
    seq(|lines|, i requires 0 <= i < |lines| => NarratorDialogue(lines[i]))
  }

  /** Reference: every picked value, in order. */
  function Somes(picks: seq<Option<String>>): seq<String>
    decreases |picks|
  {
    if |picks| == 0 then []
    else (if picks[0].Some? then [picks[0].value] else []) + Somes(picks[1..])
  }

  /** The start-up loop: append each picked value, breaking once `limit` are collected. */
  function CollectUpTo(picks: seq<Option<String>>, acc: seq<String>, limit: nat): seq<String>
    decreases |picks|
  {
    if |picks| == 0 then acc
    else if picks[0].Some? then
      var acc' := acc + [picks[0].value];
      if |acc'| >= limit then acc' else CollectUpTo(picks[1..], acc', limit)
    else CollectUpTo(picks[1..], acc, limit)
  }

  lemma {:induction false} CollectUpToTakes(picks: seq<Option<String>>, acc: seq<String>, limit: nat)
    requires |acc| < limit
    ensures CollectUpTo(picks, acc, limit) == Take(acc + Somes(picks), limit)
    decreases |picks|
  {
    if |picks| == 0 {
      assert acc + Somes(picks) == acc;
    } else {
      var rest := Somes(picks[1..]);
      if picks[0].Some? {
        var acc' := acc + [picks[0].value];
        assert acc + Somes(picks) == acc' + rest;
        if |acc'| >= limit {
          assert (acc' + rest)[..limit] == acc';
        } else {
          CollectUpToTakes(picks[1..], acc', limit);
        }
      } else {
        assert acc + Somes(picks) == acc + rest;
        CollectUpToTakes(picks[1..], acc, limit);
      }
    }
  }

  function DefaultSample(script: String): String {
    var collected := CollectUpTo(NarratorPicks(Lines(script)), [], DefaultSampleLines);
    if |collected| > 0 then Join(Take(collected, DefaultSampleLines), " ") else FallbackSample
  }

  /** The default sample is the first three narrator lines joined by spaces, or the fixed
      welcome line when the script has none. */
  lemma DefaultSampleIsFirstThree(script: String)
    ensures var all := Somes(NarratorPicks(Lines(script)));
      DefaultSample(script) == if all == [] then FallbackSample else Join(Take(all, DefaultSampleLines), " ")
  {
    var picks := NarratorPicks(Lines(script));
    CollectUpToTakes(picks, [], DefaultSampleLines);
    assert [] + Somes(picks) == Somes(picks);
  }

  // ---------------------------------------------------------------------------------------
  // Voice and speaker choice

  /** The voice of an agent directory: "coral" when its name mentions "coach" in any case. */
  function VoiceFor(dirName: String): (v: String)
    ensures v == CoachVoice || v == OtherVoice
    ensures v == CoachVoice <==> Contains(Lower(dirName), "coach")
  {
    if Contains(Lower(dirName), "coach") then CoachVoice else OtherVoice
  }

  /** The speaker whose lines the section branch reads: Coach Blaze only for a voice id that
      mentions "coach". */
  function SpeakerFor(voice: String): (s: String)
    ensures s == CoachSpeaker || s == RedTapeSpeaker
    ensures s == CoachSpeaker <==> Contains(voice, "coach")
  {
    if Contains(voice, "coach") then CoachSpeaker else RedTapeSpeaker
  }

  /** Neither voice the registry hands out contains "coach", so the section branch only ever
      reads Dr. Red Tape's lines. */
  lemma SpeakerIsAlwaysRedTape(voice: String)
    requires voice == CoachVoice || voice == OtherVoice
    ensures SpeakerFor(voice) == RedTapeSpeaker
  {
    if voice == CoachVoice {
      assert !OccursAt(voice, "coach", 0) by { assert voice[3] != "coach"[3]; }
      assert forall k :: k > 0 ==> !OccursAt(voice, "coach", k);
    } else {
      assert !OccursAt(voice, "coach", 0) by { assert voice[0] != 'c'; }
      assert forall k :: k > 0 ==> !OccursAt(voice, "coach", k);
    }
  }

  // ---------------------------------------------------------------------------------------
  // Registry construction

  predicate Loadable(d: AgentDir) {
    d.script.Present? && d.instructor.Present? && !d.statesFile.BadStatesFile?
  }

  function ConfigOf(d: AgentDir): (c: VoiceAgentConfig)
    requires Loadable(d)
    ensures c.instructions == d.instructor.text
    ensures c.scriptContent == Some(d.script.text)
    ensures c.voice == VoiceFor(d.name)
  {
    VoiceAgentConfig(
      DefaultSample(d.script.text),
      d.instructor.text,
      VoiceFor(d.name),
      if d.statesFile.StatesFile? then Some(d.statesFile.states) else None,
      Some(d.script.text))
  }

  /** `dirs[i]` is loadable and no later loadable directory has its name. */
  predicate LastLoadable(dirs: seq<AgentDir>, i: int)
    requires 0 <= i < |dirs|
  {
    Loadable(dirs[i]) && forall j :: i < j < |dirs| ==> dirs[j].name != dirs[i].name || !Loadable(dirs[j])
  }

  /** `load_voice_configs` over the directories, in iteration order: the built-in agent
      `builtin` first, then one entry per loadable directory (a later directory of the same name wins). */
  function LoadRegistry(builtin: VoiceAgentConfig, dirs: seq<AgentDir>): (reg: map<String, VoiceAgentConfig>)
    ensures CoachName in reg
    decreases |dirs|
  {
    if |dirs| == 0 then map[CoachName := builtin]
    else
      var prior := LoadRegistry(builtin, dirs[..|dirs| - 1]);
      var d := dirs[|dirs| - 1];
      if Loadable(d) then prior[d.name := ConfigOf(d)] else prior
  }

  /** An agent is registered exactly when it is the built-in one or some directory of that
      name has both files and readable states. */
  lemma {:induction false} RegistryKeys(builtin: VoiceAgentConfig, dirs: seq<AgentDir>, name: String)
    ensures name in LoadRegistry(builtin, dirs) <==>
      name == CoachName || exists i :: 0 <= i < |dirs| && dirs[i].name == name && Loadable(dirs[i])
    decreases |dirs|
  {
    if |dirs| > 0 {
      var init := dirs[..|dirs| - 1];
      RegistryKeys(builtin, init, name);
      ProvidedByPrefix(dirs, init, name);
    }
  }

  /** Some directory provides `name` exactly when one before the last does or the last
      one does. */
  lemma ProvidedByPrefix(dirs: seq<AgentDir>, init: seq<AgentDir>, name: String)
    requires |dirs| > 0 && init == dirs[..|dirs| - 1]
    ensures (exists i :: 0 <= i < |dirs| && dirs[i].name == name && Loadable(dirs[i])) <==>
      ((exists i :: 0 <= i < |init| && init[i].name == name && Loadable(init[i]))
       || (dirs[|dirs| - 1].name == name && Loadable(dirs[|dirs| - 1])))
  {
    assert forall i :: 0 <= i < |init| ==> init[i] == dirs[i];
  }

  /** Every registered agent speaks with one of the two voices. */
  lemma {:induction false} RegistryVoices(builtin: VoiceAgentConfig, dirs: seq<AgentDir>)
    requires builtin.voice == CoachVoice || builtin.voice == OtherVoice
    ensures forall name :: name in LoadRegistry(builtin, dirs) ==>
      LoadRegistry(builtin, dirs)[name].voice == CoachVoice || LoadRegistry(builtin, dirs)[name].voice == OtherVoice
    decreases |dirs|
  {
    if |dirs| > 0 {
      RegistryVoices(builtin, dirs[..|dirs| - 1]);
    }
  }

  /** The entry of a directory is built from its own files unless a later directory of the
      same name replaces it. */
  lemma {:induction false} RegistryEntry(builtin: VoiceAgentConfig, dirs: seq<AgentDir>, i: nat)
    requires i < |dirs| && LastLoadable(dirs, i)
    ensures dirs[i].name in LoadRegistry(builtin, dirs)
    ensures LoadRegistry(builtin, dirs)[dirs[i].name] == ConfigOf(dirs[i])
    decreases |dirs|
  {
    var last := |dirs| - 1;
    var init := dirs[..last];
    RegistrySnoc(builtin, dirs, init);
    if i < last {
      assert init[i] == dirs[i];
      assert LastLoadable(init, i) by {
        forall j | i < j < |init|
          ensures init[j].name != init[i].name || !Loadable(init[j])
        {
          assert init[j] == dirs[j];
        }
      }
      RegistryEntry(builtin, init, i);
      assert dirs[last].name != dirs[i].name || !Loadable(dirs[last]);
    } else {
      assert i == last && Loadable(dirs[last]);
    }
  }

  /** The registry of a list is that of all but its last directory, updated with the last
      one when it is loadable. */
  lemma RegistrySnoc(builtin: VoiceAgentConfig, dirs: seq<AgentDir>, init: seq<AgentDir>)
    requires |dirs| > 0 && init == dirs[..|dirs| - 1]
    ensures Loadable(dirs[|dirs| - 1]) ==>
      LoadRegistry(builtin, dirs) == LoadRegistry(builtin, init)[dirs[|dirs| - 1].name := ConfigOf(dirs[|dirs| - 1])]
    ensures !Loadable(dirs[|dirs| - 1]) ==> LoadRegistry(builtin, dirs) == LoadRegistry(builtin, init)
  {
  }

  /** A directory missing its script or its instructor file never yields an entry of its own. */
  lemma MissingFileExcluded(builtin: VoiceAgentConfig, dirs: seq<AgentDir>, name: String)
    requires name != CoachName
    requires forall i :: 0 <= i < |dirs| && dirs[i].name == name ==>
      !dirs[i].script.Present? || !dirs[i].instructor.Present?
    ensures name !in LoadRegistry(builtin, dirs)
  {
    forall i | 0 <= i < |dirs| && dirs[i].name == name ensures !Loadable(dirs[i]) {
    }
    RegistryKeys(builtin, dirs, name);
  }

  /** The registry the server builds at start-up, with the built-in coach entry. */
  function Registry(dirs: seq<AgentDir>): map<String, VoiceAgentConfig> {
    LoadRegistry(BuiltinCoach, dirs)
  }

  /** "coach" always speaks with the coach's voice, whether or not a directory of that name
      replaces the built-in entry. */
  lemma {:induction false} CoachKeepsVoice(builtin: VoiceAgentConfig, dirs: seq<AgentDir>)
    requires builtin.voice == CoachVoice
    ensures LoadRegistry(builtin, dirs)[CoachName].voice == CoachVoice
    decreases |dirs|
  {
    if |dirs| > 0 {
      CoachKeepsVoice(builtin, dirs[..|dirs| - 1]);
      var d := dirs[|dirs| - 1];
      if Loadable(d) && d.name == CoachName {
        assert Contains(Lower(d.name), "coach") by {
          assert OccursAt(Lower(d.name), "coach", 0);
        }
      }
    }
  }

  // ---------------------------------------------------------------------------------------
  // Step resolution (get_step_content)

  /** The header `Section {n}:`. */
  function SectionKey(n: int): String {
    "Section " + IntToString(n) + ":"
  }

  /** What the resolver's loop makes of one script line: the header it is looking for, the
      header of the following section, a line of the agent's speaker, or anything else. */
  datatype ScriptLine = SectionStart | SectionEnd | Speech(text: String) | OtherLine

  /** The tests of the loop body, in their order: `key in line`, then `next_key in line`,
      then a non-blank line starting with the speaker's label. */
  function ClassifyLine(line: String, key: String, nextKey: String, speaker: String): ScriptLine {
    if Contains(line, key) then SectionStart
    else if Contains(line, nextKey) then SectionEnd
    else if !IsBlank(line) && IsSpeakerLine(line, speaker) then
      SpeakerLineHasColon(line, speaker);
      Speech(Dialogue(line))
    else OtherLine
  }

  function ClassifyLines(lines: seq<String>, key: String, nextKey: String, speaker: String)
    : (kinds: seq<ScriptLine>)
    ensures |kinds| == |lines|
    ensures forall i :: 0 <= i < |lines| ==> kinds[i] == ClassifyLine(lines[i], key, nextKey, speaker)
  {
    seq(|lines|, i requires 0 <= i < |lines| => ClassifyLine(lines[i], key, nextKey, speaker))
  }

  /** The resolver's loop, `inSection` being its flag: a start header (re)enters the section
      and is skipped, an end header inside the section stops the scan, speech inside the
      section is collected. */
  function ScanSection(kinds: seq<ScriptLine>, inSection: bool): seq<String>
    decreases |kinds|
  {
    if |kinds| == 0 then []
    else match kinds[0]
      case SectionStart => ScanSection(kinds[1..], true)
      case SectionEnd => if inSection then [] else ScanSection(kinds[1..], inSection)
      case Speech(d) => if inSection then [d] + ScanSection(kinds[1..], true) else ScanSection(kinds[1..], inSection)
      case OtherLine => ScanSection(kinds[1..], inSection)
  }

  /** The index of the first start header. */
  function FirstStart(kinds: seq<ScriptLine>): (r: Option<nat>)
    ensures r.Some? ==> r.value < |kinds| && kinds[r.value].SectionStart?
    ensures r.Some? ==> forall j :: 0 <= j < r.value ==> !kinds[j].SectionStart?
    ensures r.None? ==> forall j :: 0 <= j < |kinds| ==> !kinds[j].SectionStart?
    decreases |kinds|
  {
    if |kinds| == 0 then None
    else if kinds[0].SectionStart? then Some(0)
    else match FirstStart(kinds[1..])
      case None => None
      case Some(j) => Some(j + 1)
  }

  /** The length of a section body: up to the first end header. */
  function BodyLength(kinds: seq<ScriptLine>): (n: nat)
    ensures n <= |kinds|
    ensures forall j :: 0 <= j < n ==> !kinds[j].SectionEnd?
    ensures n < |kinds| ==> kinds[n].SectionEnd?
    decreases |kinds|
  {
    if |kinds| == 0 || kinds[0].SectionEnd? then 0 else 1 + BodyLength(kinds[1..])
  }

  /** The text of every speech line, in order. */
  function Speeches(kinds: seq<ScriptLine>): seq<String>
    decreases |kinds|
  {
    if |kinds| == 0 then []
    else (if kinds[0].Speech? then [kinds[0].text] else []) + Speeches(kinds[1..])
  }

  /** Reference: the speech strictly after the first start header and before the next end
      header. */
  function SectionWindow(kinds: seq<ScriptLine>): seq<String> {
    match FirstStart(kinds)
    case None => []
    case Some(i) =>
      var rest := kinds[i + 1..];
      Speeches(rest[..BodyLength(rest)])
  }

  lemma {:induction false} ScanInside(kinds: seq<ScriptLine>)
    ensures ScanSection(kinds, true) == Speeches(kinds[..BodyLength(kinds)])
    decreases |kinds|
  {
    if |kinds| > 0 && !kinds[0].SectionEnd? {
      var n := BodyLength(kinds);
      ScanInside(kinds[1..]);
      assert kinds[..n][0] == kinds[0];
      assert kinds[..n][1..] == kinds[1..][..n - 1];
    } else if |kinds| == 0 {
      assert kinds[..0] == [];
    } else {
      assert kinds[..0] == [];
    }
  }

  lemma {:induction false} ScanOutside(kinds: seq<ScriptLine>)
    ensures ScanSection(kinds, false) == SectionWindow(kinds)
    decreases |kinds|
  {
    if |kinds| > 0 {
      if kinds[0].SectionStart? {
        ScanInside(kinds[1..]);
      } else {
        ScanOutside(kinds[1..]);
        match FirstStart(kinds[1..])
        case None =>
        case Some(j) =>
          assert kinds[j + 2..] == kinds[1..][j + 1..];
      }
    }
  }

  /** The resolver's section branch: the speaker's lines of block `n - 1`. */
  function SectionLines(script: String, n: int, speaker: String): seq<String> {
    ScanSection(ClassifyLines(Lines(script), SectionKey(n - 1), SectionKey(n), speaker), false)
  }

  /** The lines the section branch reads, by the reference window: after the first line
      containing `Section {n-1}:`, before the next line containing `Section {n}:` (and not
      `Section {n-1}:`), the speaker's lines. */
  function SectionDialogue(script: String, n: int, speaker: String): seq<String> {
    SectionWindow(ClassifyLines(Lines(script), SectionKey(n - 1), SectionKey(n), speaker))
  }

  lemma SectionLinesWindow(script: String, n: int, speaker: String)
    ensures SectionLines(script, n, speaker) == SectionDialogue(script, n, speaker)
  {
    ScanOutside(ClassifyLines(Lines(script), SectionKey(n - 1), SectionKey(n), speaker));
  }

  /** The index of the first state whose id starts with `prefix`. */
  function FirstStateWithPrefix(states: seq<ConversationState>, prefix: String): (r: Option<nat>)
    ensures r.Some? ==> r.value < |states| && StartsWith(states[r.value].id, prefix)
    ensures r.Some? ==> forall j :: 0 <= j < r.value ==> !StartsWith(states[j].id, prefix)
    ensures r.None? ==> forall j :: 0 <= j < |states| ==> !StartsWith(states[j].id, prefix)
    decreases |states|
  {
    if |states| == 0 then None
    else if StartsWith(states[0].id, prefix) then Some(0)
    else match FirstStateWithPrefix(states[1..], prefix)
      case None => None
      case Some(j) => Some(j + 1)
  }

  /** The text a conversation state is spoken as: its description, a blank line, then its
      examples joined by spaces. */
  function StateText(st: ConversationState): String {
    st.description + "\n\n" + Join(st.examples, " ")
  }

  predicate HasScript(config: VoiceAgentConfig) {
    config.scriptContent.Some? && config.scriptContent.value != []
  }

  predicate HasStates(config: VoiceAgentConfig) {
    config.states.Some? && config.states.value != []
  }

  function WithInput(config: VoiceAgentConfig, input: String): StepContent {
    StepContent(input, config.instructions, config.voice)
  }

  /** The state fallback, then the default. */
  function StateOrDefault(config: VoiceAgentConfig, step: String): (c: StepContent)
    ensures c.instructions == config.instructions && c.voice == config.voice
  {
    if HasStates(config) then
      match FirstStateWithPrefix(config.states.value, step + "_")
      case Some(k) => WithInput(config, StateText(config.states.value[k]))
      case None => WithInput(config, config.defaultInput)
    else WithInput(config, config.defaultInput)
  }

  /** `get_step_content`: an error only where `int(step)` raises. */
  function GetStepContent(config: VoiceAgentConfig, step: Option<String>): (r: Result<StepContent, StepError>)
    ensures r.Ok? ==> r.value.instructions == config.instructions && r.value.voice == config.voice
    ensures r.Err? <==> step.Some? && step.value != [] && HasScript(config) && ParseInt(step.value).None?
  {
    if step.None? || step.value == [] then Ok(WithInput(config, config.defaultInput))
    else
      var s := step.value;
      if HasScript(config) then
        match ParseInt(s)
        case None => Err(InvalidStep(s))
        case Some(n) =>
          var picked := SectionLines(config.scriptContent.value, n, SpeakerFor(config.voice));
          if |picked| > 0 then Ok(WithInput(config, Join(Take(picked, SectionSampleLines), " ")))
          else Ok(StateOrDefault(config, s))
      else Ok(StateOrDefault(config, s))
  }

  /** No step (absent or empty): exactly the default sample, instructions and voice. */
  lemma NoStepIsDefault(config: VoiceAgentConfig, step: Option<String>)
    requires step.None? || step.value == []
    ensures GetStepContent(config, step)
      == Ok(StepContent(config.defaultInput, config.instructions, config.voice))
  {
  }

  /** Section branch: when block `n - 1` holds dialogue of the agent's speaker, the input is
      the first five of those lines joined by spaces. */
  lemma SectionBranch(config: VoiceAgentConfig, step: String, n: int)
    requires step != [] && HasScript(config) && ParseInt(step) == Some(n)
    requires SectionDialogue(config.scriptContent.value, n, SpeakerFor(config.voice)) != []
    ensures var d := SectionDialogue(config.scriptContent.value, n, SpeakerFor(config.voice));
      GetStepContent(config, Some(step)) == Ok(WithInput(config, Join(Take(d, SectionSampleLines), " ")))
  {
    SectionLinesWindow(config.scriptContent.value, n, SpeakerFor(config.voice));
  }

  /** The section branch yielded nothing (or there is no script): the step is looked up
      among the states, by the `{step}_` id prefix, first match in list order. */
  predicate SectionMisses(config: VoiceAgentConfig, step: String) {
    !HasScript(config)
    || (ParseInt(step).Some?
        && SectionDialogue(config.scriptContent.value, ParseInt(step).value, SpeakerFor(config.voice)) == [])
  }

  lemma StateBranch(config: VoiceAgentConfig, step: String, k: nat)
    requires step != [] && SectionMisses(config, step)
    requires HasStates(config) && k < |config.states.value|
    requires StartsWith(config.states.value[k].id, step + "_")
    requires forall j :: 0 <= j < k ==> !StartsWith(config.states.value[j].id, step + "_")
    ensures GetStepContent(config, Some(step)) == Ok(WithInput(config, StateText(config.states.value[k])))
  {
    if HasScript(config) {
      SectionLinesWindow(config.scriptContent.value, ParseInt(step).value, SpeakerFor(config.voice));
    }
    var r := FirstStateWithPrefix(config.states.value, step + "_");
    assert r == Some(k);
  }

  /** Neither a section nor a state matches: the default sample. */
  lemma DefaultBranch(config: VoiceAgentConfig, step: String)
    requires step != [] && SectionMisses(config, step)
    requires !HasStates(config)
      || forall j :: 0 <= j < |config.states.value| ==> !StartsWith(config.states.value[j].id, step + "_")
    ensures GetStepContent(config, Some(step)) == Ok(WithInput(config, config.defaultInput))
  {
    if HasStates(config) {
      assert FirstStateWithPrefix(config.states.value, step + "_").None?;
    }
    assert StateOrDefault(config, step) == WithInput(config, config.defaultInput);
    if HasScript(config) {
      SectionLinesWindow(config.scriptContent.value, ParseInt(step).value, SpeakerFor(config.voice));
    }
  }

  // ---------------------------------------------------------------------------------------
  // The root listing

  /** `state_id.split("_")[0]`. */
  function StepNumber(id: String): (p: String)
    ensures StartsWith(id, p)
    ensures '_' !in p
    ensures p == id || id[|p|] == '_'
  {
    var parts := SplitOn(id, "_");
    var p := parts[0];
    assert '_' !in p by {
      if '_' in p {
        var k :| 0 <= k < |p| && p[k] == '_';
        assert OccursAt(p, "_", k);
      }
    }
    if |parts| == 1 then p
    else
      assert id == p + "_" + Join(parts[1..], "_");
      p
  }

  /** `available_steps`: one entry per state, in list order, each the id's prefix before its
      first underscore. */
  function AvailableSteps(states: seq<ConversationState>): (steps: seq<String>)
    ensures |steps| == |states|
    ensures forall i :: 0 <= i < |states| ==> steps[i] == StepNumber(states[i].id)
    decreases |states|
  {
    if |states| == 0 then [] else [StepNumber(states[0].id)] + AvailableSteps(states[1..])
  }

  /** The listing entry's steps: present only for an agent with a non-empty state list. */
  function ListedSteps(config: VoiceAgentConfig): (r: Option<seq<String>>)
    ensures r.Some? <==> HasStates(config)
  {
    if HasStates(config) then Some(AvailableSteps(config.states.value)) else None
  }

  /** Each advertised step, requested back, reaches its own state in the fallback whenever no
      earlier state shares the prefix. */
  lemma ListedStepSelectsState(states: seq<ConversationState>, k: nat)
    requires k < |states|
    ensures StartsWith(states[k].id, AvailableSteps(states)[k] + "_") || AvailableSteps(states)[k] == states[k].id
    ensures AvailableSteps(states)[k] != states[k].id
            && (forall j :: 0 <= j < k ==> !StartsWith(states[j].id, AvailableSteps(states)[k] + "_"))
            ==> FirstStateWithPrefix(states, AvailableSteps(states)[k] + "_") == Some(k)
  {
    var p := StepNumber(states[k].id);
    if p != states[k].id {
      assert states[k].id[..|p| + 1] == p + "_";
      var found := FirstStateWithPrefix(states, p + "_");
      assert found.Some? && found.value <= k;
    }
  }
}
