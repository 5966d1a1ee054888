# ACME onboarding game: a Dafny model of its parsing and scene logic

The onboarding game has three parts, and this project models the core of each.

- **Voice service (`main.py`).**
  - It loads one voice-agent configuration per agent directory: the script, the instructor text, an optional conversation-state list, and a voice chosen from the directory name. A built-in "coach" entry is always present.
  - For a step, it answers with the text to speak:
    - the first five speeches of a numbered script section;
    - otherwise the text of the first conversation state whose id starts with that step number and an underscore: its description, a blank line, then its examples joined by spaces;
    - otherwise the agent's default sample.
  - It also lists the available steps.
- **Game-generation agents** (`run_game_agent.py`, `game_generation_agent_simple.py`, `game_generation_agent.py`).
  - They cut an onboarding document into titled sections and choose a scene type from each title.
  - They take the first TypeScript code block out of a language-model reply and read the bulleted lists that follow.
  - They file a configuration reply's code blocks under fixed keys.
- **Phaser scenes.**
  - Name entry (`WelcomeScene.ts`).
  - Collecting the five core values (`CoreValuesScene.ts`).
  - The work-schedule level (`WorkScheduleScene.ts`): a half-hour clock, time zones that award points, communication tokens that shield against late obstacles, the flex portal, and completion at 500 points.

Modules:

- `Results` (`results.dfy`): `Option` and `Result`.
- `Text` (`text.dfy`): Python's `str` operations used by the source, such as `strip`, `split`, `join`, `find`, `lower`, `isupper` and `int()`.
- `Dicts` (`dicts.dfy`): insertion-ordered dictionaries.
- `VoiceRegistry` (`voice_registry.dfy`).
- `DocumentSections` (`document_sections.dfy`).
- `Fences` (`fences.dfy`): the code-block regular expressions.
- `SimpleReplyParser` (`simple_reply_parser.dfy`).
- `ReplyParser` (`reply_parser.dfy`).
- `Welcome` (`welcome.dfy`).
- `CoreValues` (`core_values.dfy`).
- `WorkSchedule` (`work_schedule.dfy`).

The scenes are event-driven state machines, modelled as a step function over events plus a `Run` over event sequences:

- Physics overlaps and distances become events or "within reach" flags.
- Timers become events.

The work-schedule clock counts half hours: 18 stands for 9:00 and 34 for 17:00. Because of this, `currentTime += 0.5` is exact integer arithmetic in the model.

## Model

| member | source | states |
|---|---|---|
| VoiceRegistry.SpeakerLineHasColon | main.py:70-71 | a line accepted as a Coach Blaze or Dr. Red Tape line contains a colon, so `split(':', 1)[1]` cannot fail |
| VoiceRegistry.Unquote | main.py:72-73 | a dialogue in double quotes loses exactly the outer pair; a lone `"` becomes empty; anything else is unchanged |
| VoiceRegistry.NarratorPicks | main.py:69-74 | the speech picked from each line is that line's dialogue, or none when it is not a speaker's line |
| VoiceRegistry.CollectUpToTakes | main.py:68-77 | the loop that breaks at three speeches collects exactly the first three speeches of the script |
| VoiceRegistry.DefaultSampleIsFirstThree | main.py:66-87 | the default input is the first three speeches joined by spaces, or "Welcome to ACME Corporation!" when the script has none |
| VoiceRegistry.VoiceFor | main.py:84 | the voice is "coral" exactly when the lower-cased directory name contains "coach", and "onyx" otherwise |
| VoiceRegistry.SpeakerFor | main.py:119 | the section speaker is Coach Blaze exactly when the voice name contains "coach" |
| VoiceRegistry.SpeakerIsAlwaysRedTape | main.py:119 | since voices are only "coral" or "onyx", neither containing "coach", the speaker looked for is always Dr. Red Tape |
| VoiceRegistry.ConfigOf | main.py:80-92 | a loaded entry carries the instructor text, the full script and the voice chosen from the directory name |
| VoiceRegistry.RegistryKeys | main.py:19-96 | a name is in the registry exactly when it is "coach" or some directory of that name has both a script and an instructor file that read without error |
| VoiceRegistry.RegistryVoices | main.py:41-92 | every registry entry speaks with "coral" or "onyx" |
| VoiceRegistry.RegistryEntry | main.py:86-92 | the entry under a name is built from the last loadable directory of that name |
| VoiceRegistry.RegistrySnoc | main.py:47-94 | one more directory overwrites its name's entry when it loads and leaves the registry unchanged when it does not |
| VoiceRegistry.MissingFileExcluded | main.py:54 | a name none of whose directories has both files is not in the registry |
| VoiceRegistry.CoachKeepsVoice | main.py:24-92 | the "coach" entry speaks with "coral" whether or not a "coach" directory replaces the built-in one |
| VoiceRegistry.ClassifyLines | main.py:121-133 | each script line is read independently as section start, section end, a speaker's line or other |
| VoiceRegistry.ScanInside | main.py:121-133 | inside a section the scan collects the speeches up to the first end marker |
| VoiceRegistry.ScanOutside | main.py:121-133 | outside a section the scan skips to the first start marker and then collects the section's speeches |
| VoiceRegistry.SectionLinesWindow | main.py:113-133 | the section loop yields the speeches of the first window opened by the step's header and closed by the next section's header |
| VoiceRegistry.FirstStateWithPrefix | main.py:143-146 | the state chosen is the first whose id starts with the step number and an underscore; none is chosen when no id does |
| VoiceRegistry.StateOrDefault | main.py:142-163 | the state branch and the default branch both keep the agent's instructions and voice |
| VoiceRegistry.GetStepContent | main.py:102-163 | the request fails exactly when the step is non-empty, the agent has a script and the step is not an integer for `int()`; every answer keeps the agent's instructions and voice |
| VoiceRegistry.NoStepIsDefault | main.py:104-109 | with no step, or an empty one, the answer is the agent's default input |
| VoiceRegistry.SectionBranch | main.py:112-140 | when the numbered section has speeches, the answer is its first five joined by spaces |
| VoiceRegistry.StateBranch | main.py:142-156 | when the section yields nothing, the answer is the text of the first state whose id starts with the step number and an underscore: its description, a blank line, then its examples joined by spaces |
| VoiceRegistry.DefaultBranch | main.py:158-163 | when neither a section nor a state matches, the answer is the agent's default input |
| VoiceRegistry.StepNumber | main.py:189 | the listed step is the id's prefix before its first underscore, or the whole id when it has none |
| VoiceRegistry.AvailableSteps | main.py:185-191 | one step per state, in state order |
| VoiceRegistry.ListedSteps | main.py:185-191 | steps are listed exactly when the agent has conversation states |
| VoiceRegistry.ListedStepSelectsState | main.py:143-191 | a listed step, requested back, is a prefix of its own state's id up to an underscore (or the whole id); when it is a proper prefix and no earlier state shares it, the fallback picks exactly that state |
| DocumentSections.ClassifyDocLine | run_game_agent.py:203 | a line is a header exactly when it is non-blank and either the whole line is upper-case or its stripped text starts with a digit; its title is the stripped line |
| DocumentSections.ScanIsAssemble | run_game_agent.py:197-213 | the line-by-line loop equals a reference that cuts the document into header-led runs and stores each run in order |
| DocumentSections.AssembleLookup | run_game_agent.py:204-213 | a title maps to the newline-joined body of its last run that has at least one line, blank lines included; a header with no lines after it never overwrites |
| DocumentSections.DocumentCut | run_game_agent.py:197-209 | the runs put back together give the document's lines, every run after the first starts at a header, and no body line of any run is a header |
| DocumentSections.Fallback | run_game_agent.py:216-222 | the fallback has the four fixed titles in order |
| DocumentSections.FallbackConcat | run_game_agent.py:217-222 | the four fallback slices put back together give the whole document |
| DocumentSections.ParseDocumentSections | run_game_agent.py:192-224 | the result always has at least two sections, with distinct titles |
| DocumentSections.ParseSectionsSpec | run_game_agent.py:192-224 | the result is the scanned sections when there are at least two, and the fallback otherwise |
| DocumentSections.DetermineSceneType | run_game_agent.py:227-241 | the type is a supported one, chosen by the first matching word list (collection, quiz, puzzle, simulation) on the lower-cased title, with platformer exactly when none matches |
| DocumentSections.SceneTypeIgnoresContent | run_game_agent.py:227-241 | the section content never affects the scene type |
| Fences.Search | game_generation_agent.py:377-379 | the match found is the leftmost position where the pattern matches |
| Fences.Block | game_generation_agent_simple.py:182-185 | a block is found exactly when the pattern matches somewhere |
| Fences.FencedCode | game_generation_agent_simple.py:182-185 | the code is the stripped block, or empty when the reply has no block |
| Fences.PlainIsFirstFence | game_generation_agent.py:327-330 | the plain pattern captures from the first opening to the next closing fence, so `findall(...)[0]` and `search` agree |
| Fences.LeftmostMatch | game_generation_agent.py:377-379 | a match with none before it is the one the search returns |
| Fences.MarkedRoundTrip | game_generation_agent.py:371-381 | a block rendered with a marker comment is found again with exactly its body |
| Fences.PlainRoundTrip | game_generation_agent.py:398-401 | a plain block rendered around a body is found again with exactly that body |
| SimpleReplyParser.Bullet | game_generation_agent_simple.py:196-197 | a line is an item exactly when it starts with "-" once stripped; the item is shorter and unpadded |
| SimpleReplyParser.BulletValue | game_generation_agent_simple.py:196-197 | the item is exactly the text of the stripped line between its leading "-" (with the white space after it) and its trailing white space |
| SimpleReplyParser.BulletsAppend | game_generation_agent_simple.py:194-197 | the items of two blocks of lines are the items of each, in order |
| SimpleReplyParser.ClassifyScenePiece | game_generation_agent_simple.py:190-209 | a reply section counts for assets, mechanics or objectives by the first keyword test it passes, in that order |
| SimpleReplyParser.LastMechanics | game_generation_agent_simple.py:199-202 | the mechanics text is the body of the last mechanics section |
| SimpleReplyParser.ScanSceneFields | game_generation_agent_simple.py:188-209 | assets and objectives accumulate across sections, mechanics is overwritten, and the code is untouched |
| SimpleReplyParser.ParseSceneFields | game_generation_agent_simple.py:170-211 | the scene reply is the code block plus all asset items, the last mechanics text and all objective items |
| SimpleReplyParser.SceneDefaults | game_generation_agent_simple.py:174-185 | a reply with no code block and no recognised sections gives the empty defaults |
| SimpleReplyParser.ClassifyMiniPiece | game_generation_agent_simple.py:233-245 | a section is filed under the first of visual design, scoring or integration its lower-cased text mentions, with its body after the heading line |
| SimpleReplyParser.LastTagged | game_generation_agent_simple.py:231-245 | a field's text is the body of the last section filed under it |
| SimpleReplyParser.ScanMiniFields | game_generation_agent_simple.py:231-245 | each field ends with the last section filed under it, or keeps its earlier value |
| SimpleReplyParser.ParseMiniGameFields | game_generation_agent_simple.py:213-247 | every mini-game field is the last section filed under it, or empty |
| ReplyParser.LStripBullets | game_generation_agent.py:337 | only leading bullet characters are removed, all of them, and what is left does not start with one |
| ReplyParser.CleanItem | game_generation_agent.py:337 | a cleaned item is unpadded and never longer than its line |
| ReplyParser.CleanItemValue | game_generation_agent.py:337 | the cleaned item is exactly what the stripped line holds after its whole leading run of dashes and bullet dots and the white space around the rest |
| ReplyParser.CleanList | game_generation_agent.py:337-338 | at most one item per line, and every item is unpadded |
| ReplyParser.CleanListSound | game_generation_agent.py:337-338 | every item is the cleanup of a non-blank line of the captured block |
| ReplyParser.CleanListComplete | game_generation_agent.py:337-338 | every non-blank line of the captured block has its cleanup listed |
| ReplyParser.CleanListMembers | game_generation_agent.py:337-338 | an item is listed exactly when it is the cleanup of a non-blank line of the captured block |
| ReplyParser.SingleDashAgrees | game_generation_agent.py:337 | on a single-dash item the two agents' cleanups agree |
| ReplyParser.DoubleDashDiffers | game_generation_agent.py:337 | on a double-dash item this agent drops both dashes, where the simple agent keeps one |
| ReplyParser.ParseSceneResponse | game_generation_agent.py:316-354 | the scene code is the first plain block; a list whose pattern did not match is empty, and otherwise holds the cleaned non-blank lines of the capture; the mechanics are the stripped capture, or empty |
| ReplyParser.SceneListsFromCaptures | game_generation_agent.py:333-354 | an asset or objective is listed exactly when it is the cleanup of a non-blank line of what its pattern captured |
| ReplyParser.ParseMiniGameResponse | game_generation_agent.py:385-416 | the mini-game code is the first plain block; each of visual design, scoring, integration and accessibility is the stripped capture of its pattern, or empty when the pattern did not match |
| ReplyParser.ParseEnhancementResponse | game_generation_agent.py:418-457 | the enhanced code is the first plain block; a list whose pattern did not match is empty and otherwise holds the cleaned non-blank lines of the capture; the performance impact is the stripped capture, or empty |
| ReplyParser.EnhancementListsFromCaptures | game_generation_agent.py:418-457 | a change or new asset is listed exactly when it is the cleanup of a non-blank line of what its pattern captured |
| ReplyParser.Store | game_generation_agent.py:378-381 | a found block is stored stripped under the key, replacing any earlier value; a missing block changes nothing |
| ReplyParser.AsWrittenKeeps | game_generation_agent.py:377-381 | the loop never touches a key that is not some section name plus "_code" |
| ReplyParser.AsWrittenGrows | game_generation_agent.py:377-381 | each section adds at most one key |
| ReplyParser.ConfigAsWritten | game_generation_agent.py:358-381 | as written, app_updates, preloader, scene_manager and save_system stay empty whatever the reply |
| ReplyParser.ConfigCodeStored | game_generation_agent.py:371-381 | config_code holds the config.ts block |
| ReplyParser.AppCodeStored | game_generation_agent.py:371-381 | the App.tsx block lands under an extra key app_code, present exactly when the block is |
| ReplyParser.ConfigSize | game_generation_agent.py:358-381 | the result has between five and nine keys |
| ReplyParser.ConfigLosesAppBlock | game_generation_agent.py:371-381 | a reply holding an App.tsx block with body "x" yields app_updates "" and app_code "x" |
| ReplyParser.AppBlockMisfiled | game_generation_agent.py:371-381 | for any reply, the App.tsx block goes to app_code and app_updates stays empty |
| ReplyParser.ConfigIntended | game_generation_agent.py:358-381 | with result keys named after the sections, the five documented keys are exactly the result's, each holding its block |
| ReplyParser.ConfigIntendedKeepsAppBlock | game_generation_agent.py:371-381 | the corrected parser files the App.tsx block with body "x" under app_updates |
| ReplyParser.AppBlockKept | game_generation_agent.py:371-381 | for any reply, the corrected parser files the App.tsx block under app_updates |
| Welcome.Display | frontend/src/game/scenes/WelcomeScene.ts:79-83 | the name line shows the name, or the placeholder while it is empty |
| Welcome.Typed | frontend/src/game/scenes/WelcomeScene.ts:43-53 | Enter with a name registers one Space listener; Backspace drops the last character; a one-character key appends below twenty characters; every other key changes nothing |
| Welcome.KeyDown | frontend/src/game/scenes/WelcomeScene.ts:85-101 | Space with a pending listener stores the name as it was before the space and starts the next scene; other keys never touch the registry |
| Welcome.RunBounded | frontend/src/game/scenes/WelcomeScene.ts:50 | the name never exceeds twenty characters |
| Welcome.EmptyNameKeys | frontend/src/game/scenes/WelcomeScene.ts:43-49 | on an empty name Enter and Backspace change nothing |
| Welcome.TypeThenDelete | frontend/src/game/scenes/WelcomeScene.ts:43-53 | typing a character and deleting it restores the screen |
| Welcome.KeyDownConsistent | frontend/src/game/scenes/WelcomeScene.ts:43-101 | the registry is set exactly when the scene has started; only Enter on a name adds a listener; only Space with a listener starts the scene |
| Welcome.RunConsistent | frontend/src/game/scenes/WelcomeScene.ts:43-101 | over any key sequence the registry is set exactly with the start, and the screen ignores all input after it |
| Welcome.EmptyNameStored | frontend/src/game/scenes/WelcomeScene.ts:43-101 | "a", Enter, Backspace, Space stores the empty name |
| CoreValues.NameOrFallback | frontend/src/game/scenes/CoreValuesScene.ts:65 | the HUD name is the stored name when that is non-empty, and "Player" when the name is unset or empty |
| CoreValues.FirstCandidate | frontend/src/game/scenes/CoreValuesScene.ts:168-202 | the item collected is the first uncollected one within reach |
| CoreValues.Update | frontend/src/game/scenes/CoreValuesScene.ts:168-202 | a frame collects an item only on a fresh E press, marks exactly that item, adds one to the count and consumes the press |
| CoreValues.InitValid | frontend/src/game/scenes/CoreValuesScene.ts:17-18 | the level starts with nothing collected and the invariant holding |
| CoreValues.StepValid | frontend/src/game/scenes/CoreValuesScene.ts:168-252 | every event keeps the count equal to the number collected; completion is scheduled once exactly when all five are in; Space starts the next level only after the message |
| CoreValues.RunValid | frontend/src/game/scenes/CoreValuesScene.ts:168-252 | the invariant holds after any event sequence |
| CoreValues.OnePerPress | frontend/src/game/scenes/CoreValuesScene.ts:190-191 | one press of E collects at most one item, however many frames follow |
| CoreValues.CompleteMeansAll | frontend/src/game/scenes/CoreValuesScene.ts:230 | a count of five means all five items are collected |
| CoreValues.HudNameChanges | frontend/src/game/scenes/CoreValuesScene.ts:213 | as written, the first pick-up turns "Player" into "undefined" when no name is stored, and into nothing when it is empty |
| CoreValues.HudNameSteady | frontend/src/game/scenes/CoreValuesScene.ts:65-66 | with the fallback on both sides the HUD's name never changes |
| WorkSchedule.AdvanceClock | frontend/src/game/scenes/WorkScheduleScene.ts:288-292 | the clock stays between 9:00 and 17:00 |
| WorkSchedule.TicksCycle | frontend/src/game/scenes/WorkScheduleScene.ts:288-292 | after n ticks the clock is 9:00 plus (elapsed + n) modulo seventeen half hours, a cycle that includes 17:00 |
| WorkSchedule.DisplayRoundTrip | frontend/src/game/scenes/WorkScheduleScene.ts:173-179 | the displayed hour, AM/PM and minutes recover the time, and the displayed hour is 1 to 12 |
| WorkSchedule.MinuteTexts | frontend/src/game/scenes/WorkScheduleScene.ts:175-178 | the minutes read "00" on the hour and "30" on the half hour |
| WorkSchedule.TimeStrings | frontend/src/game/scenes/WorkScheduleScene.ts:173-179 | 9:00 reads "9:00 AM", 12:00 "12:00 PM", 13:30 "1:30 PM" and 17:00 "5:00 PM" |
| WorkSchedule.FindZone | frontend/src/game/scenes/WorkScheduleScene.ts:302-304 | the zone found is the first containing the player's x, and none is found when none contains it |
| WorkSchedule.ZonesTile | frontend/src/game/scenes/WorkScheduleScene.ts:118-123 | a zone contains x exactly when 0 <= x < 800, and never more than one zone does |
| WorkSchedule.BonusTable | frontend/src/game/scenes/WorkScheduleScene.ts:301-321 | a tick awards 10, 40, 10 and 15 across the four zones; 22.5 in the flexible zone in flex mode; nothing off the map |
| WorkSchedule.AdvanceTime | frontend/src/game/scenes/WorkScheduleScene.ts:288-299 | a tick moves the clock and adds the zone bonus, and nothing else |
| WorkSchedule.HitObstacle | frontend/src/game/scenes/WorkScheduleScene.ts:339-360 | with a token, the hit gives +50, removes the obstacle and spends Slack before Email; without one, it costs 20 and respawns the player; the clock, the flex state and its timer are untouched |
| WorkSchedule.PickUpTokens | frontend/src/game/scenes/WorkScheduleScene.ts:376-398 | a token is gained when reached for the first time only |
| WorkSchedule.EnterPortal | frontend/src/game/scenes/WorkScheduleScene.ts:400-418 | a portal turns flex mode on, and starts its timer only when flex mode was off |
| WorkSchedule.CheckCompletion | frontend/src/game/scenes/WorkScheduleScene.ts:420-446 | reaching 500 completes the level and stops the pending timers; below 500 nothing changes |
| WorkSchedule.Update | frontend/src/game/scenes/WorkScheduleScene.ts:362-424 | a frame moves the player to its position, picks up tokens on first reach, turns flex mode on at the portal (starting the timer below 500 points only when flex was off), and completes at 500 points, dropping the timer |
| WorkSchedule.StepValid | frontend/src/game/scenes/WorkScheduleScene.ts:88-446 | every event keeps the clock on the dial, tokens held only once picked up, the obstacles among the three placed, and the flex timer running only in flex mode |
| WorkSchedule.RunValid | frontend/src/game/scenes/WorkScheduleScene.ts:88-446 | the invariant holds after any event sequence |
| WorkSchedule.StepShields | frontend/src/game/scenes/WorkScheduleScene.ts:339-360 | a shielded hit uses up one of the tokens held or still to be picked up |
| WorkSchedule.ShieldBudget | frontend/src/game/scenes/WorkScheduleScene.ts:339-398 | the shielded hits of a run never exceed the tokens held or still to be picked up |
| WorkSchedule.AtMostTwoShieldedHits | frontend/src/game/scenes/WorkScheduleScene.ts:339-398 | from the start, at most two obstacle hits are ever shielded |
| WorkSchedule.NoScoreFloor | frontend/src/game/scenes/WorkScheduleScene.ts:352-357 | an unshielded hit at the start drives the score to -20, with no floor at zero |
| WorkSchedule.CompleteIsFinal | frontend/src/game/scenes/WorkScheduleScene.ts:426-446 | a completed level stays complete, and the clock no longer ticks |
| WorkSchedule.CompletesAtTarget | frontend/src/game/scenes/WorkScheduleScene.ts:420-423 | any frame with a score of at least 500 completes the level |
| WorkSchedule.ScoreChanges | frontend/src/game/scenes/WorkScheduleScene.ts:288-423 | frames and flex expiry never change the score; a tick before completion adds exactly the zone bonus |

## Left out

- File-system access, JSON decoding, the FastAPI routes, text-to-speech and language-model calls are not modelled. Agent directories arrive as values whose files are present, missing or unreadable. A reply arrives as a string.
- The error printed for a directory that fails to load is not modelled. The directory is simply absent from the registry.
- The coach's built-in default input and instructions are kept as text, but nothing is proved about their wording.
- Upper/lower case, `isupper`, `isdigit` and `int()` digits are ASCII only. Python's Unicode tables are not modelled.
- `int()` is modelled for optional surrounding whitespace, a sign, decimal digits and single underscores between digits. Other `int()` inputs are treated as errors.
- The label patterns in `game_generation_agent.py` are not modelled: the look-ahead ones and the list ones of the form `(?:[-•]\s*.+\n?)+` (lines 333, 347, 436 and 444). What each captures is an input of the parser, `None` when the pattern did not match. The code-block patterns, the bullet cleanup and the list splitting are modelled.
- ReplyParser.CleanList: the order of the items is not stated; the items and the lines they come from are.
- Blocks that contain a backtick are outside the round-trip lemmas, since the pattern stops at the first closing fence.
- A JavaScript string is a sequence of UTF-16 code units: one `char` stands for one unit.
- Phaser's physics, rendering, tweens, popups, prompts and the coach speech bubbles are left out. Distances and overlaps arrive as events or reach flags.
- The work-schedule score HUD text and the clock hand's angle are not modelled. The score HUD (frontend/src/game/scenes/WorkScheduleScene.ts lines 319, 345 and 353) has the same missing name fallback as the core-values HUD.
- Scene transitions in the welcome and core-values scenes are modelled only as a `started` flag, and the next scene is not modelled. The work-schedule level's SPACE step to `BenefitsScene` (frontend/src/game/scenes/WorkScheduleScene.ts:443-445) is not modelled at all.
- WorkSchedule.CheckCompletion: `update()` calls `completeLevel()` on every frame while the score is at least 500 (frontend/src/game/scenes/WorkScheduleScene.ts:421-423). Each such frame adds another completion text and another one-shot SPACE listener. The model keeps only the `complete` flag, so repeated calls look idempotent.
- The generated scenes, the other Phaser scenes (`MainScene.ts`, `MenuScene.ts`, `OnboardingSectionsScene.ts`) and the content agents are not part of this model.
- Scores are real numbers, since the flex bonus yields 22.5. JavaScript's floating point is exact on these values.

## Findings

| source | as written | input that shows it | evidently intended | confidence | as-written member | corrected member |
|---|---|---|---|---|---|---|
| game_generation_agent.py:378-381 | each code block is stored under `f"{key}_code"`, so the result gains keys app_code, preloader_code, scene_manager_code and save_system_code, while the documented keys app_updates, preloader, scene_manager and save_system keep their empty defaults | a reply holding a TypeScript block marked `// App.tsx` with body `x` gives app_updates "" and app_code "x" | every block is stored under the documented key of its section, so app_updates holds the App.tsx block | not executed | ReplyParser.ConfigLosesAppBlock | ReplyParser.ConfigIntendedKeepsAppBlock |
| frontend/src/game/scenes/CoreValuesScene.ts:213 | the HUD after a pick-up interpolates `registry.get('playerName')` without the `|| 'Player'` fallback used at line 65 | no stored name: "Player - Core Values: 0/5" becomes "undefined - Core Values: 1/5"; an empty stored name gives " - Core Values: 1/5" | the HUD keeps the name it started with | not executed | CoreValues.HudNameChanges | CoreValues.HudNameSteady |
