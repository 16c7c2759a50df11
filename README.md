# TekkenBot core in Dafny

This project models the core of TekkenBot, a frame-data and punish-coaching
assistant for Tekken 7. On every frame the bot reads both players' state out
of the game's memory, keeps it in a history log, and runs analysis passes over
that history. It reports the frame data of each move, the outcome of every
punish opportunity and the damage of each combo, and it keeps win/loss records.
Around this engine sit small decoders and serialisers: the movelist parser, the
text protocol of the frame-data overlay, the gamepad wrapper, the settings and
configuration readers, and the version-bump build script.

Modules, one per source file:

- `GameState` (tekken_game_state.py) — the `TekkenGameState` class.
  - The log of per-frame snapshots is capped at 300 frames and has a mirrored twin.
  - `update` drops duplicate frames and back-fills skipped ones, oldest first.
  - `flip_mirror` swaps the two logs.
  - Time travel is single-level: `back_to_the_future` / `return_to_present`.
  - The "x frames ago" queries and the backward scans are functions of the log.
  - The mutating methods are proved against pure transitions, and the promised properties are lemmas about those transitions.
- `GameSnapshots`, `BotSnapshots` and `MoveInfoEnums` (tekken/game_snapshot.py, tekken/bot_snapshot.py, MoveInfoEnums.py):
  - the per-frame snapshot and its mirror image;
  - the decoding of raw memory values into flags and enum members;
  - the predicates the passes ask about;
  - the enum value tables.
- `Encyclopedias` (TekkenEncyclopedia.py) — the `TekkenEncyclopedia` class.
  - It runs three passes per frame: frame data, combo statistics and coaching.
  - Each pass is a pure step on the encyclopedia's state as a value.
  - The class methods do the same work on the objects and are proved to agree with those steps.
  - Its parts are:
    - `FrameDataEntries` (a row of frame data and its text line);
    - `PunishWindows` (the lock/advantage state machine and the punish thresholds);
    - `GameStats` (combo-start classification, closing a combo, round collation);
    - `MatchStats` (the win/loss/draw tables, `load_stats` as a fold over lines, and the match line).
- `PunishCoaches` (tekken/coach/punish_coach.py) — picks the newest closed punish window and counts the updates since it changed.
- `MovelistParsers` (tekken/parsers/movelist_parser.py):
  - header lines;
  - the move-name table;
  - which moves can be done from neutral;
  - the input string each move is shown with.
- `FrameDataOverlays` (gui/my_tkinter/overlay/frame_data_overlay.py) — the string side of the overlay:
  - splitting a line into its tag, columns and advantage;
  - the re-centred column string;
  - the five-line attack log;
  - the frame-advantage labels and the band each panel is set to.
- `PadWrappers` (tekken/data/wrappers/controllers/pad_wrapper.py) — button and stick differences between two pads.
- `DefaultSettingsConfig` and `ReloadableConfigs` (config/) — the settings lists as written and parsed, the merge with the defaults, and the number parsing of configuration values.
- `IncreaseVersion` (build_scripts/increase_version.py) — the version pattern and the part-by-part bump. The bump uses the corrected major pattern `^([0-9]+)`; the pattern as written is modelled beside it (see Findings).
- Shared helpers:
  - `Wrappers` holds `Option`.
  - `PyStrings` holds the Python built-ins the code relies on, with Python's own semantics: negative indexing, clamped slicing, `split`, `strip`, centring, `str(int)` and `int(str)`.

External inputs are parameters:
- the game-memory reader is a function from rollback index to an optional snapshot;
- the opponent's movelist parser and the `MoveDataReport` operations are functions;
- the lines of the match file are a sequence;
- an INI file is a map of sections;
- the current version and the release flag are arguments.

## Model

| member | source | states |
|---|---|---|
| PyStrings.Bound | tekken_game_state.py:184-191 | a Python slice index is clamped into 0..n, counting a negative index from the end |
| PyStrings.Slice | tekken_game_state.py:184-191 | a Python slice is never longer than the sequence |
| PyStrings.SliceToFrom | tekken_game_state.py:184-198 | `s[:k] + s[k:] == s` for every integer k |
| PyStrings.Split | TekkenEncyclopedia.py:49 | `str.split(sep)` gives at least one piece and no piece holds the separator |
| PyStrings.JoinSplit | TekkenEncyclopedia.py:49 | joining the pieces of a split by the separator gives back the text |
| PyStrings.SplitJoin | TekkenEncyclopedia.py:49 | splitting pieces joined by a separator they do not hold gives back the pieces |
| PyStrings.Center | TekkenEncyclopedia.py:664 | `'{:^w}'` pads to width w with the smaller half of the padding on the left, and leaves a longer text alone |
| PyStrings.CenterStrip | gui/my_tkinter/overlay/frame_data_overlay.py:257 | stripping a centred trimmed text gives it back |
| PyStrings.StripPadded | TekkenEncyclopedia.py:50-53 | stripping space padding around a trimmed text gives it back |
| PyStrings.IntToString | TekkenEncyclopedia.py:616-617 | `str(i)` is the decimal digits, with a '-' for a negative number |
| PyStrings.ParseInt | gui/my_tkinter/overlay/frame_data_overlay.py:291 | `int(s)` succeeds only on a non-blank text |
| PyStrings.ParseIntToString | gui/my_tkinter/overlay/frame_data_overlay.py:291 | `int(str(i)) == i` |
| PyStrings.ParseIntNonNumeric | gui/my_tkinter/overlay/frame_data_overlay.py:291 | a text starting with a character that is no digit, sign or space is not an integer |
| GameSnapshots.FromMirrored | tekken/game_snapshot.py:52-59 | the mirrored snapshot swaps the bot and the opponent and keeps every other field |
| GameSnapshots.MirrorInvolution | tekken/game_snapshot.py:52-59 | mirroring twice gives back the same snapshot |
| GameSnapshots.MirrorInjective | tekken/game_snapshot.py:52-59 | two snapshots with the same mirror are equal |
| MoveInfoEnums.AttackTypeOf | MoveInfoEnums.py:3-22 | `AttackType(code)` succeeds only with a member whose value is the code |
| MoveInfoEnums.AttackTypeRoundTrip | MoveInfoEnums.py:3-22 | every `AttackType` member is found again from its value |
| MoveInfoEnums.SimpleMoveStatesOf | MoveInfoEnums.py:25-67 | `SimpleMoveStates(code)` succeeds only with a member whose value is the code |
| MoveInfoEnums.SimpleMoveStatesRoundTrip | MoveInfoEnums.py:25-67 | every `SimpleMoveStates` member is found again from its value |
| MoveInfoEnums.ComplexMoveStatesOf | MoveInfoEnums.py:71-114 | `ComplexMoveStates(code)` succeeds only with a member whose value is the code |
| MoveInfoEnums.ComplexMoveStatesRoundTrip | MoveInfoEnums.py:71-114 | every `ComplexMoveStates` member is found again from its value |
| MoveInfoEnums.ThrowTechsOf | MoveInfoEnums.py:116-122 | `ThrowTechs(code)` succeeds only with a member whose value is the code |
| MoveInfoEnums.ThrowTechsRoundTrip | MoveInfoEnums.py:116-122 | every `ThrowTechs` member is found again from its value |
| MoveInfoEnums.StunStatesOf | MoveInfoEnums.py:124-134 | `StunStates(code)` succeeds only with a member whose value is the code |
| MoveInfoEnums.StunStatesRoundTrip | MoveInfoEnums.py:124-134 | every `StunStates` member is found again from its value |
| MoveInfoEnums.HitOutcomeOf | MoveInfoEnums.py:164-190 | `HitOutcome(code)` succeeds only with a member whose value is the code |
| MoveInfoEnums.HitOutcomeRoundTrip | MoveInfoEnums.py:164-190 | every `HitOutcome` member is found again from its value |
| MoveInfoEnums.InputDirectionCodesOf | MoveInfoEnums.py:198-212 | `InputDirectionCodes(code)` succeeds only with a member whose value is the code |
| MoveInfoEnums.InputDirectionCodesRoundTrip | MoveInfoEnums.py:198-212 | every `InputDirectionCodes` member is found again from its value |
| MoveInfoEnums.InputAttackCodesOf | MoveInfoEnums.py:214-231 | `InputAttackCodes(code)` succeeds only with a member whose value is the code |
| MoveInfoEnums.InputAttackCodesRoundTrip | MoveInfoEnums.py:214-231 | every `InputAttackCodes` member is found again from its value |
| MoveInfoEnums.CharacterCodeName | MoveInfoEnums.py:233-286 | a character code that has a member has a non-empty name |
| MoveInfoEnums.JumpNeedsBothBits | MoveInfoEnums.py:193-196 | the JUMP flag is set exactly when both of its two bits are set |
| MoveInfoEnums.AttackCodesBelowRage | MoveInfoEnums.py:214-231 | every attack code other than xRAGE is a multiple of 512 below the xRAGE value |
| BotSnapshots.CharacterNameAsWritten | tekken/bot_snapshot.py:147-152 | as written, an unknown character id has no name: `CharacterCodes(id)` raises ValueError, which the `except KeyError` does not catch |
| BotSnapshots.CharacterName | tekken/bot_snapshot.py:147-152 | the name is the character code's member name, and is "UNKNOWN" exactly when the id is not a character code |
| BotSnapshots.UnknownCharacterIdFinding | tekken/bot_snapshot.py:147-152 | for id 45 (not a character code) the code as written finds no name while the intended reading gives "UNKNOWN" |
| BotSnapshots.Decode | tekken/bot_snapshot.py:42-152 | decoding succeeds exactly when every enum field holds a member's value; then every plain field is its raw value, each enum field (move states, attack type, stun state, hit outcome, throw tech, input direction) is the member with the raw code, `power_crush_flag` is `power_crush > 0`, the input button is the attack word modulo 8192, the rage flag is `word >= 8192`, each cancel flag is its own mask bit and `is_jump` holds exactly when both jump bits are set; the character name is `CharacterName` of the id |
| BotSnapshots.RageSplit | tekken/bot_snapshot.py:70-77 | an attack word with the rage bit added decodes to the same button with the rage flag set |
| BotSnapshots.PredicateRelations | tekken/bot_snapshot.py:174-334 | being punished implies being hit; standing-while and technical crouch coincide; a block is never a whiff; counter hit and ground hit exclude each other; an unblockable is neither mid, low nor a throw; hitting excludes being hit; the two homing kinds exclude each other |
| BotSnapshots.ActiveFramesPositive | tekken/bot_snapshot.py:234-235 | the active-frame count is at least 1 exactly when the active window does not end before it starts |
| FrameDataEntries.WithPlusIfNeeded | TekkenEncyclopedia.py:613-619 | the shown value is never empty |
| FrameDataEntries.WithPlusRoundTrip | TekkenEncyclopedia.py:613-619 | a '+' is prefixed exactly for a non-negative number; the shown text reads back as the same number, and the '??' placeholder reads back as no number |
| FrameDataEntries.PlaceholderNotANumber | TekkenEncyclopedia.py:591-609 | the '??' placeholder is not a number |
| FrameDataEntries.AbsentReportIgnored | TekkenEncyclopedia.py:637-653 | a report that is not present is ignored; without extended printing only TC, TJ and PC reports reach the notes |
| FrameDataEntries.NoSubtractionNoCorrection | TekkenEncyclopedia.py:645-650 | with no present SKIP or FROZ report the startup is not corrected |
| FrameDataEntries.NewEntry | TekkenEncyclopedia.py:589-611 | a new entry keeps the printing flag, has every field unset, no reports, no throw tech and F_MINUS tracking |
| FrameDataEntries.CalculatedStartupMarked | TekkenEncyclopedia.py:636-662 | the startup column ends in '?' exactly when SKIP/FROZ frames were subtracted, then shows the corrected startup; otherwise it reads back as the startup |
| FrameDataEntries.ColumnMarked | TekkenEncyclopedia.py:661-662 | the startup column is non-empty, ends in '?' exactly for a non-zero correction, and otherwise reads back as the startup |
| FrameDataEntries.Cells | TekkenEncyclopedia.py:664 | one centred cell per field, each at its column's width |
| FrameDataEntries.Fields | TekkenEncyclopedia.py:664-678 | one field per column of the row format |
| FrameDataEntries.Rendered | TekkenEncyclopedia.py:629-686 | `__repr__` fails (subtracting from the '??' string) exactly when the startup is unset and some SKIP/FROZ report is present |
| FrameDataEntries.RowSplit | TekkenEncyclopedia.py:664 | splitting a row at '\|' gives back the centred cells, when no field holds a '\|' |
| FrameDataEntries.BarsSplit | TekkenEncyclopedia.py:664 | cells joined with a '\|' after each split back into the same cells |
| FrameDataEntries.CenterNoBar | TekkenEncyclopedia.py:664 | centring adds no '\|' |
| FrameDataEntries.SplitAfterCell | TekkenEncyclopedia.py:664 | a cell followed by '\|' splits off as one piece |
| FrameDataEntries.Repr | TekkenEncyclopedia.py:629-686 | the loop-built text is exactly `Rendered` |
| FrameDataEntries.ScanReports | TekkenEncyclopedia.py:631-662 | the report loop fails exactly as `Rendered` does; otherwise it collects the notes and subtracts every present SKIP/FROZ total from the startup |
| PunishWindows.BlockPunishThresholds | TekkenEncyclopedia.py:170-195 | NO_LAUNCH_ON_LAUNCHABLE exactly when the advantage is at least 15 and the startup left is at most 13; LAUNCH_ON_LAUNCHABLE when at least 15 and more startup is left; JAB_ON_NOT_LAUNCHABLE below 15 |
| PunishWindows.LaterPunishNoBetter | TekkenEncyclopedia.py:170-195 | a larger leeway never turns a missed launch into a better verdict |
| PunishWindows.NeutralResult | TekkenEncyclopedia.py:201-204 | NO_PUNISH exactly when the advantage is -10 or less, NO_WINDOW otherwise |
| PunishWindows.Opened | TekkenEncyclopedia.py:783-797 | a new window is unlocked, has no lock pending, no locked frames, and its remembered advantage equals its advantage: block minus hit recovery |
| PunishWindows.AdjustReport | TekkenEncyclopedia.py:818-828 | a NOW line is written exactly when the adjusted advantage differs from the remembered one, and shows the new advantage |
| PunishWindows.AdjustSteps | TekkenEncyclopedia.py:799-828 | `adjust_window` takes the new hit recovery, locks once a lock was pending, keeps the block recovery while locked, arms the lock on a zero block recovery, counts locked frames, remembers the new advantage, and the advantage is `-hit - locked` when locked, `block - hit` otherwise |
| PunishWindows.AdjustKeepsLockArmed | TekkenEncyclopedia.py:804-816 | a pending lock stays pending under adjustment |
| PunishWindows.LockedFramesCount | TekkenEncyclopedia.py:808-813 | with a lock pending, n adjustments add n locked frames, lock the window and freeze its block recovery |
| PunishWindows.PunishWindow.constructor | TekkenEncyclopedia.py:783-797 | a new window is `Opened`, not yet closed, and keeps its prefix, move id, name and active frames |
| PunishWindows.PunishWindow.AdjustWindow | TekkenEncyclopedia.py:804-828 | the window state becomes `Adjusted`, the written line is `AdjustReport`, the result is unchanged |
| PunishWindows.PunishWindow.CloseWindow | TekkenEncyclopedia.py:830-835 | sets the result, keeps the state and writes the closing report |
| PunishWindows.ClosingReport | TekkenEncyclopedia.py:832-835 | a closing line is written for every result except NO_WINDOW |
| PunishCoaches.LatestClosed | tekken/coach/punish_coach.py:59-68 | the window found is the last one whose result is not NOT_YET_CLOSED; nothing is found exactly when every window is still open |
| PunishCoaches.Results | tekken/coach/punish_coach.py:62-65 | the results read are the windows' results, in order |
| PunishCoaches.AsOption | tekken/coach/punish_coach.py:67-70 | a null window is no window |
| PunishCoaches.CoachStep | tekken/coach/punish_coach.py:59-80 | the current window becomes the latest closed one; none dispatches nothing and keeps the count; a different one resets the count and dispatches CHANGED; the same one adds one to the count and dispatches SAME with it |
| PunishCoaches.CountsUpdatesSinceChange | tekken/coach/punish_coach.py:70-80 | a new window followed by n updates with the same window dispatches CHANGED then SAME 1..n |
| PunishCoaches.SameWindowCounts | tekken/coach/punish_coach.py:76-80 | n updates with the same window raise the count by n, dispatching each count |
| PunishCoaches.NoWindowKeepsCount | tekken/coach/punish_coach.py:70 | updates with no closed window keep the count and dispatch nothing |
| PunishCoaches.PunishCoach.constructor | tekken/coach/punish_coach.py:41-44 | a new coach has no current window and a zero count |
| PunishCoaches.PunishCoach.UpdatePunishWindow | tekken/coach/punish_coach.py:52-80 | an unsuccessful update changes nothing; a successful one reads the other side's encyclopedia's windows and takes one `CoachStep` |
| PunishCoaches.NewestClosed | tekken/coach/punish_coach.py:59-68 | the reversed scan returns the latest closed window |
| GameState.AlignedSymmetric | tekken_game_state.py:125-135 | the two logs stay aligned whichever one is taken as the own view: each frame of one is the mirror of the frame at the same place in the other |
| GameState.Appended | tekken_game_state.py:125-135 | appending a frame never changes the mirroring flag, the future log or the duplicate counter |
| GameState.AppendedKeepsInvariant | tekken_game_state.py:125-135 | appending at the present keeps both logs aligned and at most 300 long; the new frame (mirrored when the state is mirrored) is last in the log and its mirror last in the other log; the length grows by one until 300, then stays at 300 |
| GameState.AppendedAllValid | tekken_game_state.py:125-135 | appending any number of frames in order keeps the invariant |
| GameState.AppendedAllKeepsNewest | tekken_game_state.py:133-135 | after any number of appends the log is exactly the newest 300 frames of the whole history, oldest first |
| GameState.Flipped | tekken_game_state.py:178-182 | a flip keeps the future log and the duplicate counter |
| GameState.FlipInvolution | tekken_game_state.py:178-182 | two flips restore the state exactly; a flip at the present keeps the invariant |
| GameState.Entered | tekken_game_state.py:184-191 | travelling back fails exactly when already travelling; on success the newest `frames` frames (Python slice semantics, any integer) move to the future log and the mirrored log and the mirroring flag are untouched |
| GameState.Exited | tekken_game_state.py:193-198 | returning fails exactly when not travelling; on success the state is at the present and the log is the visible part plus the future part |
| GameState.EnteredHides | tekken_game_state.py:184-191 | travelling back `frames` frames hides exactly that many frames when 0 < frames <= the log length; `frames == 0` or a longer travel hides the whole log |
| GameState.TravelRoundTrip | tekken_game_state.py:184-198 | leaving the past right after entering it restores the state exactly, for every integer `frames`; the invariant holds while travelling |
| GameState.RollbackIndices | tekken_game_state.py:101-104 | there are `max(0, min(7 - buffer, frames_lost))` rollback reads |
| GameState.RollbackOrder | tekken_game_state.py:101-104 | the rollback indices fall by one from oldest to newest missing frame, stay within `buffer+1..7` for a buffer in 0..7, are empty when no frame was lost, and end at 1 without a buffer |
| GameState.BackfillStep | tekken_game_state.py:101-113 | one more rollback read appends the frame read there, if the read found one |
| GameState.UpdateDropsDuplicate | tekken_game_state.py:88-123 | a frame with the newest logged frame count is dropped: only the duplicate counter moves, by one, and `update` returns False |
| GameState.UpdateAppendsNewFrame | tekken_game_state.py:88-116 | a new frame resets the duplicate counter, keeps the invariant and the mirroring flag, is logged last (after the back-filled frames), and `update` returns True; when the frame counter went backwards nothing is back-filled |
| GameState.TekkenGameState.constructor | tekken_game_state.py:51-58 | a new game state has empty logs, is not mirrored, is at the present, has a zero duplicate counter and satisfies the invariant |
| GameState.TekkenGameState.AppendGameData | tekken_game_state.py:125-135 | the state after the call is `Appended` of the state before |
| GameState.TekkenGameState.FlipMirror | tekken_game_state.py:178-182 | the state after the call is `Flipped` of the state before |
| GameState.TekkenGameState.BackToTheFuture | tekken_game_state.py:184-191 | succeeds exactly when not already travelling, then the state is `Entered`; otherwise nothing changes (the AssertionError) |
| GameState.TekkenGameState.ReturnToPresent | tekken_game_state.py:193-198 | succeeds exactly when travelling, then the state is `Exited`; otherwise nothing changes (the AssertionError) |
| GameState.TekkenGameState.AppendRollbacks | tekken_game_state.py:101-113 | the loop reads exactly the rollback indices, in order, and appends every frame found |
| GameState.TekkenGameState.Update | tekken_game_state.py:77-123 | the new state and the returned flag are those of the pure `Updated` transition; the rollback reads are made only when a new frame is appended |
| GameState.TekkenGameState.AppendNewFrame | tekken_game_state.py:93-116 | the new-frame branch back-fills the lost frames and then appends the frame, as `Updated` states |
| GameState.DidBotJustTakeDamage | tekken_game_state.py:622-629 | the damage the bot took between the two frames is never negative, 0 for a too short log, and positive exactly when the damage counter rose |
| GameState.DidOppJustTakeDamage | tekken_game_state.py:631-638 | the same for the opponent |
| GameState.XFramesAgoFallbacks | tekken_game_state.py:229-288 | with a log no longer than `frames_ago` every "x frames ago" query gives its fallback: False, 0, or 99 for the recovery queries |
| GameState.XFramesAgoLocality | tekken_game_state.py:229-288 | every "x frames ago" query depends only on the two frames at `-frames_ago` and `-frames_ago-1` |
| GameState.TravelShiftsFramesAgo | tekken_game_state.py:184-191 | while `k` frames are hidden, "x frames ago" reads the frames of "x + k frames ago" on the whole log |
| GameState.GetBotHealth | tekken_game_state.py:223-224 | the health is never negative, 0 exactly when the bot has taken 170 damage or more, and health plus damage is 170 otherwise |
| GameState.NewestIndex | tekken_game_state.py:587-593 | the backward search finds the newest frame satisfying the test, or none when no frame does |
| GameState.GetOppLatestNonZeroStartupAndDamage | tekken_game_state.py:587-593 | (0, 0) exactly when no frame has opponent startup or damage; otherwise the startup and damage of the newest frame that has either |
| GameState.GetBotThrowTech | tekken_game_state.py:861-866 | a throw tech other than NONE is returned exactly when one of the last `active_frames` frames has one, and it is the tech of the newest such frame: no later frame of the window has one |
| GameState.HasOppReturnedToNeutralFromMoveId | tekken_game_state.py:790-798 | False exactly when some frame of the move has, after it, only frames of other moves that cannot be done from neutral; True when the move never occurs |
| GameState.GetRecoveryOfMoveId | tekken_game_state.py:335-340 | the result is the largest bot move timer over the frames of that move, or -1 when there is none |
| GameState.GetFramesBotHasBeenBlockingAttack | tekken_game_state.py:427-446 | 0 when the bot is not blocking now; otherwise the length of the newest run of frames continuing the same block, stopping at the first frame that does not |
| GameState.TookDamageWitness | tekken_game_state.py:640-649 | a True answer names an earlier frame with less damage, after which the damage never went below the newest value |
| GameState.DidOppTakeDamageDuringStartup | tekken_game_state.py:640-649 | the loop answers as the backward scan over damage and move timer defines it |
| GameState.GetLastActiveFrameHitWasOn | tekken_game_state.py:500-507 | the loop returns the active-frame count of the scan over the newest `frames + 2` frames, newest first |
| GameState.MostCommon | tekken_game_state.py:868-876 | `Counter.most_common(1)`: the result occurs in the list, no value occurs more often, and every value met earlier occurs strictly less often |
| GameState.MostCommonAfterSingleton | tekken_game_state.py:868-876 | with UNKN counted first and once, it wins unless some other value occurs at least twice |
| GameState.TrackingSamples | tekken_game_state.py:868-876 | every sampled tracking value lies in 0..7 |
| GameState.GetOppTrackingType | tekken_game_state.py:868-876 | the method returns the tracking type the specification function defines |
| GameState.CollectTrackingSamples | tekken_game_state.py:871-875 | the loop collects UNKN followed by the tracked values in 0..7 of the window, newest first |
| GameState.TrackingTypeCases | tekken_game_state.py:868-876 | F_MINUS for a log no longer than `startup`; otherwise UNKN or a value in 0..7, and UNKN unless that value occurs at least twice |
| GameState.IncludedIsPrefix | tekken_game_state.py:895-912 | once a frame is left out of the technical-state sampling every later frame is too |
| GameState.IncludedSamplesArePrefix | tekken_game_state.py:895-947 | the sampled frames are exactly the first frames of the window up to the first one left out, each sampled as itself |
| GameState.IncludedPrefixLength | tekken_game_state.py:895-947 | the number of samples is the position where inclusion stops |
| GameState.GetOppTechnicalStates | tekken_game_state.py:878-947 | nine reports in a fixed order, report `k` holding field `k` of each sampled frame, equal to the specification `TechnicalStates` |
| GameState.TechnicalStatesNewestFirst | tekken_game_state.py:887-947 | the loop over the newest-first window builds the nine report lists from the included samples |
| GameState.ActiveFrameAfterFirstHitMeaning | tekken_game_state.py:500-506 | newest first, the first frame with bot move timer 1 that has a frame after it decides: the answer is that later frame's opponent `move_timer - startup + 1` |
| GameState.ActiveFrameAfterNoHit | tekken_game_state.py:500-507 | without such a frame the answer is 0 |
| Encyclopedias.Plains | TekkenEncyclopedia.py:336-337 | the matchup-record lines written one by one become one plain report each, in order |
| Encyclopedias.AttributionNeedsHistory | TekkenEncyclopedia.py:442-448 | the "move id changed / timer interrupted `active_frame_wait` frames ago" test can only fire when the log is longer than the wait |
| Encyclopedias.Past | TekkenEncyclopedia.py:453-473 | `back_to_the_future(active_frame_wait)` leaves visible exactly the log without its newest `wait` frames |
| Encyclopedias.CommittedEntry | TekkenEncyclopedia.py:484-577 | a committed entry carries the opponent's move id of the past frame, a startup, the opponent's and the bot's frames till the next move as hit and block recovery, the active frames of the past frame, and keeps the extended-printing flag of the entry it updates |
| Encyclopedias.EntryBefore | TekkenEncyclopedia.py:476-482 | the entry updated is the stored one for the move id, or a fresh entry with the encyclopedia's printing flag when the id is new |
| Encyclopedias.CommittedEntryFacts | TekkenEncyclopedia.py:484-577 | a committed entry satisfies every field fact of a commit, and its shown advantage is the bot's minus the opponent's frames till the next move, with a '+' when positive |
| Encyclopedias.FrameDataStepWithCommitted | TekkenEncyclopedia.py:422-586 | running the step with the entry the method computed is the same as running the functional step |
| Encyclopedias.CommitStepFrame | TekkenEncyclopedia.py:581-585 | a commit only changes the frame data, the current entry, the wait counter and the output; the wait is reset to 1 and the current entry is the committed move id |
| Encyclopedias.CommitStepCommits | TekkenEncyclopedia.py:476-484 | a commit adds exactly the committed move id to the table, leaves every other entry untouched and stores a complete entry under that id |
| Encyclopedias.CommitKeepsValid | TekkenEncyclopedia.py:422-586 | a commit keeps the encyclopedia invariant |
| Encyclopedias.FrameDataWaitCounter | TekkenEncyclopedia.py:423-586 | nothing changes unless the bot is reacting and the attribution changed `wait` frames ago; then the wait grows by one while the attacking move's active frames are not yet covered and the bot is not recovering, and otherwise the wait resets to 1 and the entry is committed |
| Encyclopedias.FrameDataCommit | TekkenEncyclopedia.py:476-586 | when the step commits, the table gains exactly the committed id, other entries are unchanged, and the stored entry satisfies every commit fact |
| Encyclopedias.FrameDataKeepsValid | TekkenEncyclopedia.py:422-586 | `determine_frame_data` keeps the encyclopedia invariant |
| Encyclopedias.StoredAdvantage | TekkenEncyclopedia.py:103-108 | `get_frame_advantage` finds nothing exactly when the move id was never recorded |
| Encyclopedias.CommitStoresAdvantage | TekkenEncyclopedia.py:550-569 | the committed advantage is stored as on-block when the bot blocks, as on-counter-hit when it was counter hit, and as on-normal-hit otherwise |
| Encyclopedias.Events | TekkenEncyclopedia.py:226-324 | the event part of `determine_game_stats` either keeps the closed events or appends exactly one, with non-negative damage |
| Encyclopedias.WhenNoEvent | TekkenEncyclopedia.py:227-300 | with no open event, at most one event (an armored hit) is closed and appended, with non-negative damage |
| Encyclopedias.WhenEventOpen | TekkenEncyclopedia.py:301-324 | with an open event, it is closed at most once and appended with non-negative damage |
| Encyclopedias.Bookkeeping | TekkenEncyclopedia.py:327-393 | at most one match line is appended per frame |
| Encyclopedias.MatchRecord | TekkenEncyclopedia.py:341-383 | recording a match result appends at most one match line |
| Encyclopedias.GameStatsStep | TekkenEncyclopedia.py:225-393 | `determine_game_stats` changes only the event, match-recording and statistics fields, the output and the match lines |
| Encyclopedias.GameStatsEvents | TekkenEncyclopedia.py:229-393 | a fight reset clears the event list; otherwise the list grows by at most one and keeps its prefix; the reacquiring flag is the one read from the game |
| Encyclopedias.ArmoredClosedAtOnce | TekkenEncyclopedia.py:279-300 | damage taken with no combo starting opens and closes an ARMORED event in the same frame: one hit, start time equal to end time, the damage taken and no juggle damage |
| Encyclopedias.ComboStartClassified | TekkenEncyclopedia.py:228-277 | a combo counter that started 4 frames ago opens an event classified by the first matching test on the frame 4 frames back, timed at the current round timer |
| Encyclopedias.StatsKeepsValid | TekkenEncyclopedia.py:225-393 | every closed event keeps non-negative damage |
| Encyclopedias.GameStatsKeepsValid | TekkenEncyclopedia.py:225-393 | `determine_game_stats` keeps the encyclopedia invariant |
| Encyclopedias.MatchRecordedOnce | TekkenEncyclopedia.py:327-383 | a match line is written only by player one on a fight reset, at most once, never when already recorded (unless names are being reacquired), and writing one marks the match recorded |
| Encyclopedias.MatchCounted | TekkenEncyclopedia.py:341-383 | a written match line adds the match result against the opponent to the statistics and writes exactly the result line with the timestamp |
| Encyclopedias.ClosedCurrent | TekkenEncyclopedia.py:218-223 | closing the punish window keeps the number of windows and leaves none open |
| Encyclopedias.ClosedCurrentKeepsValid | TekkenEncyclopedia.py:218-223 | closing the punish window keeps the encyclopedia invariant |
| Encyclopedias.NewWindowKeepsValid | TekkenEncyclopedia.py:134-157 | opening a window for a new entry keeps the invariant |
| Encyclopedias.NewWindowFrame | TekkenEncyclopedia.py:134-157 | opening a window leaves the frame data, the wait, the statistics and the match lines alone |
| Encyclopedias.OpenWindowStep | TekkenEncyclopedia.py:180-216 | following an open window never changes the number of windows |
| Encyclopedias.OpenWindowStepOutput | TekkenEncyclopedia.py:180-216 | following an open window only appends to the output already written |
| Encyclopedias.OpenWindowFrame | TekkenEncyclopedia.py:180-216 | following an open window leaves the frame data, the wait, the statistics and the match lines alone |
| Encyclopedias.CoachingWindows | TekkenEncyclopedia.py:134-216 | a new current entry opens one window for its move (closing a still-open one as NO_WINDOW); otherwise the window count is unchanged; every other window is untouched |
| Encyclopedias.CoachingBlockPunish | TekkenEncyclopedia.py:180-195 | a block punish closes the open window with the result judged from the window's advantage and the opponent's recovery 2 frames ago, clears both entries and reports the result |
| Encyclopedias.CoachingAdjusts | TekkenEncyclopedia.py:196-209 | while no verdict is reached the window stays open, the counter grows by one and the window is adjusted by the current recoveries |
| Encyclopedias.CoachingFrame | TekkenEncyclopedia.py:133-216 | coaching leaves the frame data, the wait, the statistics and the match lines alone |
| Encyclopedias.CoachingKeepsValid | TekkenEncyclopedia.py:133-216 | `determine_coaching_tips` keeps the invariant |
| Encyclopedias.OpenWindowKeepsValid | TekkenEncyclopedia.py:180-216 | following an open window keeps the invariant |
| Encyclopedias.UpdateKeepsValid | TekkenEncyclopedia.py:121-131 | one `update` (frame data, then game statistics, then coaching) keeps the invariant |
| Encyclopedias.FrameDataStepWithKeepsValid | TekkenEncyclopedia.py:422-586 | the frame-data step keeps the invariant whenever a committed entry is complete |
| Encyclopedias.InitialValue | TekkenEncyclopedia.py:17-37 | a new encyclopedia satisfies the invariant |
| Encyclopedias.TekkenEncyclopedia.constructor | TekkenEncyclopedia.py:17-37 | a new encyclopedia keeps its side and printing flag, satisfies the invariant and has the initial state with the statistics loaded from the match file for player one |
| Encyclopedias.TekkenEncyclopedia.GetFrameAdvantage | TekkenEncyclopedia.py:103-108 | returns the stored on-block or on-normal-hit advantage of the move, nothing for an unknown move |
| Encyclopedias.TekkenEncyclopedia.ClosePunishWindow | TekkenEncyclopedia.py:218-223 | closes the open window as `ClosedCurrent` and writes its report; the invariant holds |
| Encyclopedias.TekkenEncyclopedia.Update | TekkenEncyclopedia.py:121-131 | runs the three steps on the own log, leaves the game state as it found it and ends in the state the functional steps give |
| Encyclopedias.TekkenEncyclopedia.DetermineFrameData | TekkenEncyclopedia.py:422-586 | leaves the game state as found (every travel is undone) and ends in the functional frame-data step, with a committed entry meeting every commit fact |
| Encyclopedias.TekkenEncyclopedia.AttributeHit | TekkenEncyclopedia.py:442-585 | either waits one frame longer (nothing else changes) or commits the entry under the past frame's move id, reset the wait and writes the entry |
| Encyclopedias.TekkenEncyclopedia.WaitDecision | TekkenEncyclopedia.py:449-463 | decides to wait exactly when `KeepsWaiting` holds, undoing its time travel |
| Encyclopedias.TekkenEncyclopedia.RollBackAndReturn | TekkenEncyclopedia.py:453-465 | travelling back and returning leaves the game state unchanged |
| Encyclopedias.TekkenEncyclopedia.CommitEntry | TekkenEncyclopedia.py:466-585 | stores the committed entry under its key, makes it current, resets the wait and writes it; the game state is unchanged |
| Encyclopedias.TekkenEncyclopedia.ReadEntry | TekkenEncyclopedia.py:473-572 | reads the key and the entry's fields from the past and present frames without changing the game state |
| Encyclopedias.TekkenEncyclopedia.FileEntry | TekkenEncyclopedia.py:482 | stores the entry under its key, makes it current and resets the wait; coaching and statistics are unchanged |
| Encyclopedias.TekkenEncyclopedia.ReadPastFields | TekkenEncyclopedia.py:484-530 | fills the fields read while travelling back |
| Encyclopedias.TekkenEncyclopedia.ReadPresentFields | TekkenEncyclopedia.py:540-577 | fills the fields read at the present |
| Encyclopedias.TekkenEncyclopedia.DetermineGameStats | TekkenEncyclopedia.py:225-393 | ends in the functional statistics step, leaves the game state, the frame data and the coaching alone, keeps the invariant |
| Encyclopedias.TekkenEncyclopedia.StatsPass | TekkenEncyclopedia.py:225-393 | the game-stats fields, the written lines and the match lines end as the functional statistics step gives them; the game state, the frame data and the coaching fields are unchanged |
| Encyclopedias.TekkenEncyclopedia.OpenOrCloseEvent | TekkenEncyclopedia.py:226-324 | the event fields end as `Events` gives them; nothing else changes |
| Encyclopedias.TekkenEncyclopedia.FollowNoEvent | TekkenEncyclopedia.py:227-300 | the event fields end as `WhenNoEvent` gives them; nothing else changes |
| Encyclopedias.TekkenEncyclopedia.StartComboEvent | TekkenEncyclopedia.py:228-277 | a combo start opens the event read 4 frames back and writes nothing; no other field changes and the game state is restored |
| Encyclopedias.TekkenEncyclopedia.RecordArmoredHit | TekkenEncyclopedia.py:279-300 | with damage taken 5 frames back, one closed armored event is appended and its line written; with none, the events are unchanged and nothing is written; no event stays open |
| Encyclopedias.TekkenEncyclopedia.FollowOpenEvent | TekkenEncyclopedia.py:301-324 | the event fields end as `WhenEventOpen` gives them; nothing else changes |
| Encyclopedias.TekkenEncyclopedia.ReadComboStart | TekkenEncyclopedia.py:228-277 | the event opened is the one read 4 frames back; the game state is unchanged |
| Encyclopedias.TekkenEncyclopedia.ClassifyComboAt | TekkenEncyclopedia.py:239-267 | the hit type is the classification of the frame read |
| Encyclopedias.TekkenEncyclopedia.RecordMatch | TekkenEncyclopedia.py:327-393 | the match fields and statistics end as `Bookkeeping` gives them; nothing else changes |
| Encyclopedias.TekkenEncyclopedia.RecordResult | TekkenEncyclopedia.py:341-383 | the match fields and statistics end as `MatchRecord` gives them; nothing else changes |
| Encyclopedias.TekkenEncyclopedia.DetermineCoachingTips | TekkenEncyclopedia.py:133-216 | ends in the functional coaching step and keeps the invariant |
| Encyclopedias.TekkenEncyclopedia.OpenWindowForNewEntry | TekkenEncyclopedia.py:134-157 | ends in `NewWindowStep` with a fresh current window and keeps the invariant |
| Encyclopedias.TekkenEncyclopedia.PushWindow | TekkenEncyclopedia.py:147-157 | a fresh window is appended to the list of windows and becomes current |
| Encyclopedias.TekkenEncyclopedia.FollowOpenWindow | TekkenEncyclopedia.py:180-216 | ends in `OpenWindowStep`, keeps the invariant and the window list |
| Encyclopedias.TekkenEncyclopedia.JudgeWindow | TekkenEncyclopedia.py:180-205 | the verdict is `Verdict` of the current window |
| Encyclopedias.TekkenEncyclopedia.AdjustCurrentWindow | TekkenEncyclopedia.py:206-209 | ends in `AdjustedCurrent` and keeps the invariant |
| GameStats.EntryTypesListed | TekkenEncyclopedia.py:689-708 | the enumeration lists all 14 entry types once each, and distinct types have distinct values |
| GameStats.CloseEntry | TekkenEncyclopedia.py:723-729 | a closed event keeps its start time, player string and hit type, takes the end time, hits and juggle damage given, and its damage is the combo damage minus the damage already on the counter, never below 0 |
| GameStats.Tests | TekkenEncyclopedia.py:239-267 | one test per entry type of the classification chain |
| GameStats.FirstMatchCharacterised | TekkenEncyclopedia.py:239-267 | the first-match scan returns the kind of the first passing test, or the default when none passes |
| GameStats.ClassifyIsFirstMatch | TekkenEncyclopedia.py:239-267 | the classification chain is the first-match scan over the tests in source order, defaulting to NO_BLOCK |
| GameStats.FirstTests | TekkenEncyclopedia.py:239-242 | the scan starts with the unblockable test and then the anti-air test |
| GameStats.MiddleTests | TekkenEncyclopedia.py:243-267 | from THROW on, the scan is the rest of the if-chain |
| GameStats.LaterTests | TekkenEncyclopedia.py:253-267 | from COUNTER on, the scan is the rest of the if-chain |
| GameStats.ClassifyPriority | TekkenEncyclopedia.py:239-267 | a combo start is classified as the k-th type exactly when the k-th test passes and no earlier one does; NO_BLOCK exactly when no test passes |
| GameStats.IndicatorOverKinds | TekkenEncyclopedia.py:755-768 | summing over the entry types counts an event under its own type once |
| GameStats.TallyOverKindsSnoc | TekkenEncyclopedia.py:755-768 | one more event adds its contribution under its own type |
| GameStats.KindsPartitionEvents | TekkenEncyclopedia.py:755-768 | the per-type loops together count every event exactly once |
| GameStats.ZeroOverKinds | TekkenEncyclopedia.py:755-768 | no events give zero totals |
| GameStats.JugglesAndPokesSplit | TekkenEncyclopedia.py:762-767 | every event is either a juggle or a poke: their hit counts sum to the number of events and their damages to the total damage |
| GameStats.UnsortedSources | TekkenEncyclopedia.py:755-768 | one source per entry type |
| GameStats.SortedByDamage | TekkenEncyclopedia.py:770 | sorting keeps the number of sources |
| GameStats.InsertByDamage | TekkenEncyclopedia.py:770 | inserting adds one source |
| GameStats.InsertIsPermutation | TekkenEncyclopedia.py:770 | inserting adds exactly the new source |
| GameStats.SortIsPermutation | TekkenEncyclopedia.py:770 | the sorted sources are a permutation of the unsorted ones |
| GameStats.InsertKeepsDescending | TekkenEncyclopedia.py:770 | inserting into a damage-descending list keeps it descending |
| GameStats.SortedIsDescending | TekkenEncyclopedia.py:770 | the sorted sources are in descending order of damage |
| GameStats.CollateEvents | TekkenEncyclopedia.py:748-775 | the loops produce the sorted per-type sources and the juggle and poke totals |
| GameStats.CollationSummary | TekkenEncyclopedia.py:748-775 | the sources are one per type, descending by damage, each type's occurrences and damage among them; juggles and pokes partition the events and their damage |
| MatchStats.ResultIndex | TekkenEncyclopedia.py:69-74 | index 0 exactly when the result contains 'WIN', 1 when it contains 'LOSS' but not 'WIN', 2 otherwise |
| MatchStats.AddStatCountsOnce | TekkenEncyclopedia.py:60-78 | `add_stat` adds the key to each table if missing, leaves the other keys alone and raises exactly one of the key's three counters by one, as the result says |
| MatchStats.AddedStatGet | TekkenEncyclopedia.py:60-78 | after `add_stat` a table's record for the key is bumped at the result's index and every other record is unchanged |
| MatchStats.FoldStepGet | TekkenEncyclopedia.py:47-56 | reading one line adds to each record exactly the counts that line contributes |
| MatchStats.StepWithGet | TekkenEncyclopedia.py:47-56 | applying one parsed line adds exactly its counts |
| MatchStats.LoadedRecordsCount | TekkenEncyclopedia.py:39-58 | the loaded record of a key counts the wins, losses and draws of every line that names it |
| MatchStats.RecordFromStat | TekkenEncyclopedia.py:80-93 | a missing key reads as "0 - 0" |
| MatchStats.GetPlayerString | TekkenEncyclopedia.py:95-101 | "p1: " exactly when player one is not reversed (or player two is), otherwise "p2: " |
| MatchStats.MatchResultAntisymmetric | TekkenEncyclopedia.py:364-369 | a WIN for one side is a LOSS for the other, a DRAW is a draw for both, and the result's index follows the win counts |
| MatchStats.ResultWords | TekkenEncyclopedia.py:69-74 | WIN, LOSS and DRAW are counted at indices 0, 1 and 2 |
| MatchStats.MissingFirstLetter | TekkenEncyclopedia.py:69-74 | a text without the first letter of a word does not contain the word |
| MatchStats.MatchLineRoundTrip | TekkenEncyclopedia.py:371-383 | a match line written after a match is read back by `load_stats` as the same result, characters and opponent, when the fields hold no '\|' and no outer spaces |
| MatchStats.MatchLinePieces | TekkenEncyclopedia.py:371-377 | splitting a match line at '\|' gives the fields at positions 0, 2, 4 and 5, padded with one space |
| MatchStats.JoinedPieces | TekkenEncyclopedia.py:371-377 | fields joined by " \| " split back into the padded fields |
| MatchStats.StripField | TekkenEncyclopedia.py:50-53 | stripping the padding gives back a trimmed field |
| MatchStats.SplitJoinedBars | TekkenEncyclopedia.py:49 | the pieces of a joined line before the n-th bar are the padded fields |
| MatchStats.SplitCons | TekkenEncyclopedia.py:49 | text before the first bar splits off as one piece |
| MatchStats.MatchupRecordLines | TekkenEncyclopedia.py:395-419 | the matchup record has three lines: against the character, against the opponent, and the matchup |
| MovelistParsers.Pow256 | tekken/parsers/movelist_parser.py:206 | every power of 256 is positive |
| MovelistParsers.LittleEndianBound | tekken/parsers/movelist_parser.py:206 | an n-byte little-endian word is below 256^n |
| MovelistParsers.ToLittleEndian | tekken/parsers/movelist_parser.py:206 | encoding below 256^n gives n bytes |
| MovelistParsers.LittleEndianRoundTrip | tekken/parsers/movelist_parser.py:206 | `struct.unpack('<Q')` reads back the value a little-endian encoding wrote |
| MovelistParsers.HeaderLine | tekken/parsers/movelist_parser.py:204-206 | a header line is read exactly when its 8 bytes are inside the buffer; the result is the unsigned word minus the pointer |
| MovelistParsers.HeaderLineReads | tekken/parsers/movelist_parser.py:204-206 | a header line holding the encoding of x reads as x minus the pointer |
| MovelistParsers.Decode | tekken/parsers/movelist_parser.py:71-85 | decoding keeps one character per byte |
| MovelistParsers.EvenNames | tekken/parsers/movelist_parser.py:83-85 | the names are the decoded even-indexed pieces, one for every pair, as `range(0, len - 1, 2)` gives |
| MovelistParsers.StripNul | tekken/parsers/movelist_parser.py:69-71 | stripping NUL bytes leaves no NUL at either end |
| MovelistParsers.StripNulIdempotent | tekken/parsers/movelist_parser.py:69-71 | stripping twice is stripping once |
| MovelistParsers.NeutralTableMeaning | tekken/parsers/movelist_parser.py:134-141 | the neutral table has a key exactly for each move id of a node, and is True exactly when some node of that move has `cancel_window_1 >= 0x7FFF` |
| MovelistParsers.BuildNeutralTable | tekken/parsers/movelist_parser.py:134-141 | the loop builds exactly the neutral table |
| MovelistParsers.CanBeDoneFromNeutralMeaning | tekken/parsers/movelist_parser.py:208-211 | a move can be done from neutral exactly when no node has it or one of its nodes opens from neutral |
| MovelistParsers.CandidateTableMeaning | tekken/parsers/movelist_parser.py:143-149 | the candidate table has a key for each move id of a node, holding that move's candidates in node order |
| MovelistParsers.NoMoveNoCandidates | tekken/parsers/movelist_parser.py:143-149 | a move id of no node has no candidates |
| MovelistParsers.BuildCandidateTable | tekken/parsers/movelist_parser.py:143-149 | the loop builds exactly the candidate table, and its insertion order lists exactly its keys |
| MovelistParsers.DirectionPriorities | tekken/parsers/movelist_parser.py:151-162 | UP_FORWARD ends at priority 80 (the second assignment wins) and the direction priorities are strictly ordered FULL_CROUCH > UP > UP_BACK > NEUTRAL > WHILE_STANDING > UP_FORWARD > unlisted > NULL |
| MovelistParsers.Dedup | tekken/parsers/movelist_parser.py:174 | `OrderedDict.fromkeys` keeps each candidate once and no other |
| MovelistParsers.CountDistinct | tekken/parsers/movelist_parser.py:188 | in a list without repeats every member is counted once |
| PyStrings.CountAbsent | tekken/parsers/movelist_parser.py:188 | a value not in the list is counted zero times |
| MovelistParsers.LexLessIrreflexive | tekken/parsers/movelist_parser.py:176-197 | the tuple order is irreflexive |
| MovelistParsers.LexLessTransitive | tekken/parsers/movelist_parser.py:176-197 | the tuple order is transitive |
| MovelistParsers.LexLessTotal | tekken/parsers/movelist_parser.py:176-197 | keys of equal length are comparable |
| MovelistParsers.FirstMax | tekken/parsers/movelist_parser.py:176-197 | `sorted(..., reverse=True)[0]` (a stable sort) is the first candidate with a greatest key |
| MovelistParsers.ChosenIndex | tekken/parsers/movelist_parser.py:176-197 | each of the three choices is the first candidate whose direction, input or state key is greatest |
| MovelistParsers.ChosenInput | tekken/parsers/movelist_parser.py:172-201 | a move gets a chosen input exactly when it has candidates; its direction, button and state each come from some candidate |
| MovelistParsers.DistinctCountsOnce | tekken/parsers/movelist_parser.py:186-190 | after de-duplication the `Counter` component of every key is 1 |
| MovelistParsers.CandidateTableNonEmpty | tekken/parsers/movelist_parser.py:143-149 | every move in the candidate table has at least one candidate |
| MovelistParsers.MoveIdToInputDomain | tekken/parsers/movelist_parser.py:172-201 | a move id has a chosen input exactly when some node has it |
| MovelistParsers.BuildMoveIdToInput | tekken/parsers/movelist_parser.py:172-201 | the loop over the candidate table builds exactly the chosen-input map |
| MovelistParsers.ChosenForAll | tekken/parsers/movelist_parser.py:172-201 | a map with the chosen value at every key of the table is the chosen-input map |
| MovelistParsers.EmptyCancelLonger | tekken/parsers/movelist_parser.py:249-263 | an empty cancel means the previous move's name is this move's name plus one of the empty-cancel suffixes, hence longer, hence a different move |
| MovelistParsers.InputForMoveCases | tekken/parsers/movelist_parser.py:213-266 | a move without a chosen input gives ('N/A', False); a NEUTRAL direction adds no direction text; a NULL button with a PRESS state gives only the direction text |
| MovelistParsers.NoReleaseInPress | tekken/parsers/movelist_parser.py:236-240 | a PRESS state adds no '*' |
| MovelistParsers.MovelistParser.constructor | tekken/parsers/movelist_parser.py:60-201 | the character name is the NUL-stripped bytes between header lines 1 and 2, the names are the even pieces of the name block, and the two tables are the neutral table and the chosen inputs |
| MovelistParsers.MovelistParser.InputForMove | tekken/parsers/movelist_parser.py:213-266 | the text and the empty-cancel flag are `MoveInputText` of the parser's names and chosen inputs |
| FrameDataOverlays.ColumnValue | constants/overlay/frame_data/column_names.py:34-50 | the column value of a name is its place in the enumeration, and there is none exactly for a name that is not a member |
| FrameDataOverlays.FindName | gui/my_tkinter/overlay/frame_data_overlay.py:122-126 | the search finds the first place of the name after `from`, or reports that the name is absent |
| FrameDataOverlays.DisplayColumnsFor | gui/my_tkinter/overlay/frame_data_overlay.py:118-126 | the display columns are column values, at most one per setting, and exactly one per setting when every setting names a column |
| FrameDataOverlays.AttributeNames | gui/my_tkinter/overlay/frame_data_overlay.py:62-74 | the `Columns.X.name` list is evaluated exactly when every name is a member, and is then the list itself |
| FrameDataOverlays.InitialSettingsAsWrittenRaise | gui/my_tkinter/overlay/frame_data_overlay.py:72 | as written, the initial settings name OPPONET_FRAMES, which is no member, so building the overlay raises |
| FrameDataOverlays.InitialSettingsShown | gui/my_tkinter/overlay/frame_data_overlay.py:62-74 | with OPPONENT_FRAMES the initial settings are all members and show 11 columns |
| FrameDataOverlays.TagOf | gui/my_tkinter/overlay/frame_data_overlay.py:228-234 | the player tag is P1 exactly when the line contains the P1 tag, otherwise P2 |
| FrameDataOverlays.SplitLine | gui/my_tkinter/overlay/frame_data_overlay.py:227-238 | a line splits into columns and frame advantage that, joined again by the advantage tag, are the line without its player tag |
| FrameDataOverlays.JoinSplitOn | gui/my_tkinter/overlay/frame_data_overlay.py:236-238 | joining the pieces of a split by the separator gives back the text |
| FrameDataOverlays.SplitAtOnlyTag | gui/my_tkinter/overlay/frame_data_overlay.py:236-238 | text with one advantage tag splits into the parts before and after it |
| FrameDataOverlays.GenerateColumns | gui/my_tkinter/overlay/frame_data_overlay.py:255-257 | one stripped column per '\|'-separated piece, at least one |
| FrameDataOverlays.EntryColumns | gui/my_tkinter/overlay/frame_data_overlay.py:255-257 | the columns of a written frame-data row are its fields, followed by the stripped notes |
| FrameDataOverlays.EntryPieces | gui/my_tkinter/overlay/frame_data_overlay.py:255-257 | splitting a frame-data row at '\|' gives its centred cells and then the notes |
| FrameDataOverlays.CellsStrip | gui/my_tkinter/overlay/frame_data_overlay.py:255-257 | stripping the centred cells gives the trimmed fields back |
| FrameDataOverlays.SplitNoSeparator | gui/my_tkinter/overlay/frame_data_overlay.py:257 | a text without the separator splits into itself |
| FrameDataOverlays.PadColumn | gui/my_tkinter/overlay/frame_data_overlay.py:262-273 | a column no longer than its title plus 2 is padded to that width, ceil of the gap on the left and floor on the right; a longer one is unchanged |
| FrameDataOverlays.PadColumnStrip | gui/my_tkinter/overlay/frame_data_overlay.py:262-273 | stripping a padded column gives it back |
| FrameDataOverlays.PaddedCells | gui/my_tkinter/overlay/frame_data_overlay.py:260-275 | one padded cell per visible column, padded to its title's width |
| FrameDataOverlays.ColumnStringSplit | gui/my_tkinter/overlay/frame_data_overlay.py:255-275 | the visible column string splits at '\|' into the padded cells between two empty pieces, and regenerating its columns gives back the values |
| FrameDataOverlays.Values | gui/my_tkinter/overlay/frame_data_overlay.py:277-281 | the values of the visible columns in order |
| FrameDataOverlays.CellsNoBar | gui/my_tkinter/overlay/frame_data_overlay.py:267-273 | padding adds no '\|' |
| FrameDataOverlays.CellsSplit | gui/my_tkinter/overlay/frame_data_overlay.py:274-275 | bar-joined cells split back into themselves |
| FrameDataOverlays.VisibleColumnString | gui/my_tkinter/overlay/frame_data_overlay.py:277-282 | the visible column string exists exactly when every display column indexes a value (otherwise an IndexError) |
| FrameDataOverlays.InsertedKeepsHeader | gui/my_tkinter/overlay/frame_data_overlay.py:284-287 | the new entry is last; the header row stays first; below 5 entries the log just grows; at 5 the oldest row after the header is dropped; the log never exceeds 5 |
| FrameDataOverlays.AdvantageLabel | gui/my_tkinter/overlay/frame_data_overlay.py:289-298 | an advantage containing '?' is ignored; one that is no integer raises |
| FrameDataOverlays.AdvantageLabelReadsBack | gui/my_tkinter/overlay/frame_data_overlay.py:289-300 | the shown label reads back as the advantage and starts with '+' exactly when it is non-negative |
| FrameDataOverlays.LiveRecoveryLabelsMeaning | gui/my_tkinter/overlay/frame_data_overlay.py:369-386 | the two live-recovery labels read back as the difference and its negation; each starts with '+' exactly when its value is non-negative |
| FrameDataOverlays.PlusLabel | gui/my_tkinter/overlay/frame_data_overlay.py:297-298 | a '+'-prefixed number reads back as itself |
| FrameDataOverlays.SignedLabel | gui/my_tkinter/overlay/frame_data_overlay.py:374-375 | a negative number's text starts with '-' and reads back |
| FrameDataOverlays.FrameDataOverlay.constructor | gui/my_tkinter/overlay/frame_data_overlay.py:56-116 | a new overlay holds only the title row, displays the columns the settings give, and has empty labels |
| FrameDataOverlays.FrameDataOverlay.SetDisplayColumns | gui/my_tkinter/overlay/frame_data_overlay.py:118-126 | only the display columns change, to `DisplayColumnsFor` the settings |
| FrameDataOverlays.FrameDataOverlay.InsertColumnsToLog | gui/my_tkinter/overlay/frame_data_overlay.py:284-287 | the log becomes `Inserted`; nothing else changes |
| FrameDataOverlays.FirstAtLeast | gui/my_tkinter/overlay/frame_data_overlay.py:293-296 | the scan's result is the first position whose value is at least the advantage; none exactly when every value is below it |
| FrameDataOverlays.BandOf | gui/my_tkinter/overlay/frame_data_overlay.py:292-296 | the band is never the initial one; it is a member exactly when some value is at least the advantage, and then the first such member |
| FrameDataOverlays.BandOfMonotone | gui/my_tkinter/overlay/frame_data_overlay.py:293-296 | a smaller advantage never falls in a later band |
| FrameDataOverlays.FrameDataOverlay.UpdateFrameAdvantage | gui/my_tkinter/overlay/frame_data_overlay.py:289-308 | raises exactly for a non-integer advantage; otherwise, unless it holds '?', only the given player's label changes, to the signed advantage, and that player's panel gets the band of the first `FrameAdvantage` value at least the advantage, or none |
| FrameDataOverlays.FrameDataOverlay.Write | gui/my_tkinter/overlay/frame_data_overlay.py:200-253 | a line without the advantage tag shows nothing; a line that does not split in two raises; otherwise its columns are logged, the visible columns are shown and the advantage label and band of the line's player updated |
| FrameDataOverlays.FrameDataOverlay.UpdateState | gui/my_tkinter/overlay/frame_data_overlay.py:367-386 | with more than one frame logged, the live-recovery labels are set from the difference of the frames till the next move; otherwise nothing changes |
| FrameDataOverlays.EntryLineParts | gui/my_tkinter/overlay/frame_data_overlay.py:227-257 | a tagged frame-data line written by the encyclopedia splits into its tag, its fields plus notes and its advantage |
| FrameDataOverlays.TagRemoved | gui/my_tkinter/overlay/frame_data_overlay.py:228-234 | removing the leading tag leaves the rest |
| FrameDataOverlays.LeadingTagReplaced | gui/my_tkinter/overlay/frame_data_overlay.py:231-234 | replacing the tag removes only the leading one |
| FrameDataOverlays.NoP1AfterP2 | gui/my_tkinter/overlay/frame_data_overlay.py:229 | a P2 line holds no P1 tag |
| DefaultSettingsConfig.SectionStrings | config/default_settings.py:104-113 | `__values_to_string` keeps every key |
| DefaultSettingsConfig.ValuesToString | config/default_settings.py:104-113 | the loop over the section gives exactly `SectionStrings` |
| DefaultSettingsConfig.KeptChars | config/default_settings.py:98 | `re.sub(r'[^a-zA-Z_,]+', '')` leaves only letters, '_' and ',' and never lengthens the text |
| DefaultSettingsConfig.KeptCharsAppend | config/default_settings.py:98 | the substitution works piece by piece |
| DefaultSettingsConfig.KeptCharsAllKept | config/default_settings.py:98 | text made only of kept characters is unchanged |
| DefaultSettingsConfig.ParseValue | config/default_settings.py:96-101 | a value with ',', '\|', '[' or ']' becomes a list of names made of kept characters; any other value is kept as text |
| DefaultSettingsConfig.SplitPieces | config/default_settings.py:98 | each piece of the split holds only kept characters and no separator |
| DefaultSettingsConfig.ParsedSection | config/default_settings.py:92-102 | `parse` keeps every key |
| DefaultSettingsConfig.Parse | config/default_settings.py:92-102 | the loop gives exactly `ParsedSection` |
| DefaultSettingsConfig.ListRoundTrip | config/default_settings.py:92-113 | a non-empty list of names written by `__values_to_string` is read back by `parse` as the same list |
| DefaultSettingsConfig.JoinKept | config/default_settings.py:109 | the comma-joined names hold only kept characters |
| DefaultSettingsConfig.EmptyListReadsBackAsEmptyName | config/default_settings.py:92-113 | an empty list is written as '[]' and read back as a list of one empty name |
| DefaultSettingsConfig.TextRoundTrip | config/default_settings.py:92-113 | a text value without list characters reads back unchanged |
| DefaultSettingsConfig.MergedMeaning | config/default_settings.py:77-81 | the merged settings have exactly the default keys, take the file's value where the file has the key and keep the default otherwise |
| DefaultSettingsConfig.UpdateRequiredMeaning | config/default_settings.py:67-84 | no update is required exactly when there are file settings with exactly the default keys |
| DefaultSettingsConfig.Merge | config/default_settings.py:77-81 | the loop over the default keys gives exactly `Merged` |
| DefaultSettingsConfig.MergedOverSnoc | config/default_settings.py:77-81 | one more key of the loop takes the file's value or keeps the default |
| DefaultSettingsConfig.DefaultSettings.constructor | config/default_settings.py:67-86 | the DEFAULT section has the default keys; without file settings it is the stringified defaults and an update is required; with them it is the merge, and the update flag is `UpdateRequired` |
| ReloadableConfigs.HexDigitValue | config/reloadable_config.py:80-85 | a hexadecimal digit is worth less than 16 |
| ReloadableConfigs.ParseHex | config/reloadable_config.py:80-85 | `int(s, 16)` succeeds only on a non-blank text |
| ReloadableConfigs.HexDigits | config/reloadable_config.py:80 | every number has a non-empty hexadecimal text |
| ReloadableConfigs.Hex | config/reloadable_config.py:75-85 | `hex(n)` starts with '0x' |
| ReloadableConfigs.HexValueDigits | config/reloadable_config.py:80 | the hexadecimal digits of n are worth n |
| ReloadableConfigs.ParseHexOfHex | config/reloadable_config.py:85 | `int(hex(n), 16) == n` |
| ReloadableConfigs.WordLength | config/reloadable_config.py:80-83 | the first word runs up to the first white space |
| ReloadableConfigs.Words | config/reloadable_config.py:80-83 | `str.split()` gives non-empty words |
| ReloadableConfigs.WordsJoin | config/reloadable_config.py:80-83 | splitting space-joined words gives them back |
| ReloadableConfigs.NoWords | config/reloadable_config.py:83 | the empty text has no words |
| ReloadableConfigs.WordsJoinStep | config/reloadable_config.py:83 | induction step of `WordsJoin` |
| ReloadableConfigs.JoinFirst | config/reloadable_config.py:83 | a join is the first word, the separator and the join of the rest |
| ReloadableConfigs.SeqFirst | config/reloadable_config.py:83 | a sequence is its head then its tail |
| ReloadableConfigs.WordAlone | config/reloadable_config.py:83 | a word splits into itself |
| ReloadableConfigs.WordThenSpace | config/reloadable_config.py:83 | a word then a space splits off the word |
| ReloadableConfigs.WordsSpace | config/reloadable_config.py:83 | leading space is skipped |
| ReloadableConfigs.WordOnly | config/reloadable_config.py:83 | a word before white space splits off whole |
| ReloadableConfigs.WordLengthOf | config/reloadable_config.py:83 | the first word's length is that of the word before the white space |
| ReloadableConfigs.AllSome | config/reloadable_config.py:80-83 | a list comprehension of conversions succeeds exactly when each conversion does, and holds each result |
| ReloadableConfigs.FirstNone | config/reloadable_config.py:78-81 | the loop stops at the first piece whose conversion fails, or runs to the end |
| ReloadableConfigs.Values | config/reloadable_config.py:78-81 | the rows appended before the stop are the converted pieces |
| ReloadableConfigs.Lower | config/reloadable_config.py:91 | lower-casing keeps the length |
| ReloadableConfigs.StrToBool | config/reloadable_config.py:91 | `strtobool` gives 1 exactly for a true word, 0 exactly for a false word, and fails otherwise |
| ReloadableConfigs.ParseNumbers | config/reloadable_config.py:69-96 | the method returns exactly `NumbersOf` |
| ReloadableConfigs.HexRows | config/reloadable_config.py:77-81 | the loop raises exactly when some piece fails, after appending the rows of the pieces before it |
| ReloadableConfigs.ValuesUntilNone | config/reloadable_config.py:78-81 | the generic loop raises exactly at the first failing piece, keeping the earlier values |
| ReloadableConfigs.HexOfEach | config/reloadable_config.py:83 | one hexadecimal text per number |
| ReloadableConfigs.HexLineWords | config/reloadable_config.py:83 | a space-joined line of hexadecimals splits into them and reads back as the numbers |
| ReloadableConfigs.HexLineRoundTrip | config/reloadable_config.py:82-83 | a space-separated line of at least two hexadecimals parses as the list of numbers, without an error |
| ReloadableConfigs.HexNumberRoundTrip | config/reloadable_config.py:84-85 | a single hexadecimal parses as its number |
| ReloadableConfigs.HexTableRoundTrip | config/reloadable_config.py:75-81 | comma-separated rows of hexadecimals parse as the rows of numbers, without an error |
| ReloadableConfigs.HexLinesRead | config/reloadable_config.py:78-81 | every comma piece of such a table converts, to its row |
| ReloadableConfigs.ValuesAll | config/reloadable_config.py:78-81 | when every piece converts, the values are the converted pieces |
| ReloadableConfigs.LinesRows | config/reloadable_config.py:80 | each line converts to its row |
| ReloadableConfigs.FirstNoneAll | config/reloadable_config.py:78-81 | when every piece converts, the loop runs to the end |
| ReloadableConfigs.NoCommaHex | config/reloadable_config.py:75 | a hexadecimal text holds no ',' and no space |
| ReloadableConfigs.JoinNoComma | config/reloadable_config.py:75 | joining hexadecimals by a comma-free separator adds no ',' |
| ReloadableConfigs.JoinStartsWith | config/reloadable_config.py:75 | a joined line starts as its first word does |
| ReloadableConfigs.DecimalRoundTrip | config/reloadable_config.py:86-88 | a decimal text parses as its integer |
| ReloadableConfigs.BooleanWords | config/reloadable_config.py:89-91 | a boolean word that is no integer parses as 1 or 0 |
| ReloadableConfigs.BooleanExamples | config/reloadable_config.py:89-91 | 'True' parses as 1 and 'off' as 0 |
| ReloadableConfigs.StringsUnchanged | config/reloadable_config.py:92-96 | a value kept as a string is the value itself |
| ReloadableConfigs.QuietStringsAreNotHex | config/reloadable_config.py:75-96 | a value kept as a string without an error does not start with '0x' |
| ReloadableConfigs.BadPieceKeepsEarlierRows | config/reloadable_config.py:75-96 | a bad piece in a comma table writes the error and leaves the rows parsed before it |
| ReloadableConfigs.FirstNoneIs | config/reloadable_config.py:78-81 | the stop is at the first failing piece |
| ReloadableConfigs.SectionDict | config/reloadable_config.py:59-66 | a section's keys are the earlier keys and those of its pairs |
| ReloadableConfigs.ConfigOf | config/reloadable_config.py:49-67 | the dictionary has exactly the sections read |
| ReloadableConfigs.SectionDictLast | config/reloadable_config.py:61-66 | the last value given for a key wins |
| ReloadableConfigs.UnparsedAreStrings | config/reloadable_config.py:62-66 | without `parse` every value is a string |
| ReloadableConfigs.SectionDictStrings | config/reloadable_config.py:62-66 | without `parse` a section of strings stays one |
| ReloadableConfigs.SectionDictSnoc | config/reloadable_config.py:61-66 | one more pair stores its (parsed) value under its key |
| ReloadableConfigs.ConfigOfSnoc | config/reloadable_config.py:56-66 | one more section is added to (or fills) its entry |
| ReloadableConfigs.GenerateConfig | config/reloadable_config.py:49-67 | the loops build exactly `ConfigOf` |
| ReloadableConfigs.FillSection | config/reloadable_config.py:61-66 | the inner loop builds exactly `SectionDict` |
| ReloadableConfigs.ReloadableConfig.constructor | config/reloadable_config.py:37-40 | keeps the path and the flag and holds `ConfigOf` the file's contents |
| ReloadableConfigs.ReloadableConfig.Reload | config/reloadable_config.py:42-43 | the configuration becomes `ConfigOf` the current contents |
| ReloadableConfigs.ReloadableConfig.GetItem | config/reloadable_config.py:45-46 | `config.get(key)` is None exactly for a missing section, otherwise the section |
| IncreaseVersion.DigitRun | build_scripts/increase_version.py:59 | `[0-9]+` matches the longest run of digits, stopping at a non-digit |
| IncreaseVersion.DottedRun | build_scripts/increase_version.py:59 | `(?:\.[0-9]+)*` matches a prefix of the text |
| IncreaseVersion.TaggedRun | build_scripts/increase_version.py:59-60 | a tagged group matches only after its whole tag and more |
| IncreaseVersion.PreRun | build_scripts/increase_version.py:59 | `(?:a\|b\|rc)[0-9]+` matches a prefix of the text |
| IncreaseVersion.Group | build_scripts/increase_version.py:59-63 | a group is present exactly when it matched something |
| IncreaseVersion.DigitRunPrefix | build_scripts/increase_version.py:59 | cutting after the digit run keeps it |
| IncreaseVersion.DigitRunAppend | build_scripts/increase_version.py:59 | digits followed by a non-digit run to the end of the digits |
| IncreaseVersion.DottedRunPrefix | build_scripts/increase_version.py:59 | cutting after the dotted run keeps it |
| IncreaseVersion.DottedRunAppend | build_scripts/increase_version.py:59 | a dotted run followed by a proper tail stops at the tail |
| IncreaseVersion.DottedConsAppend | build_scripts/increase_version.py:59 | a dot and digits then a dotted run extend the run |
| IncreaseVersion.DottedSplit | build_scripts/increase_version.py:59 | a non-empty dotted run is a dot, digits and a shorter dotted run |
| IncreaseVersion.DottedRunCons | build_scripts/increase_version.py:59 | a dot and digits add their length to the run that follows |
| IncreaseVersion.TaggedRunPrefix | build_scripts/increase_version.py:59-60 | cutting after a tagged group keeps it |
| IncreaseVersion.TaggedRunAppend | build_scripts/increase_version.py:59-60 | a tagged group followed by a non-digit stops there |
| IncreaseVersion.PreRunFirst | build_scripts/increase_version.py:59 | the pre-release group starts with 'a', 'b' or 'rc' |
| IncreaseVersion.PreRunPrefix | build_scripts/increase_version.py:59 | cutting after the pre-release group keeps it |
| IncreaseVersion.PreRunAppend | build_scripts/increase_version.py:59 | a pre-release group followed by a non-digit stops there |
| IncreaseVersion.PreRunDot | build_scripts/increase_version.py:59 | no pre-release group starts at a dot |
| IncreaseVersion.TagsStart | build_scripts/increase_version.py:59-60 | the tags after the dotted run start with 'a', 'b', 'r' or '.', never with a digit |
| IncreaseVersion.MatchDevSound | build_scripts/increase_version.py:60 | a matched dev group is the rest of the text and well formed |
| IncreaseVersion.MatchDevComplete | build_scripts/increase_version.py:60 | every well-formed dev group is matched |
| IncreaseVersion.MatchPostSound | build_scripts/increase_version.py:60 | matched post and dev groups make up the rest of the text |
| IncreaseVersion.TaggedStart | build_scripts/increase_version.py:60 | a tagged group starts with its tag |
| IncreaseVersion.MatchPostComplete | build_scripts/increase_version.py:60 | every well-formed post and dev pair is matched |
| IncreaseVersion.MatchTagsSound | build_scripts/increase_version.py:59-60 | matched pre, post and dev groups are well formed and make up the rest of the text |
| IncreaseVersion.MatchTagsComplete | build_scripts/increase_version.py:59-60 | every well-formed pre, post and dev triple is matched |
| IncreaseVersion.MatchAfterMajorSound | build_scripts/increase_version.py:59-60 | a match after the major digits renders back to the version and keeps the major |
| IncreaseVersion.SplitAt | build_scripts/increase_version.py:59 | a text is its prefix then its suffix |
| IncreaseVersion.MatchAfterMajorComplete | build_scripts/increase_version.py:59-60 | the rest of a rendered version is matched back to its groups |
| IncreaseVersion.MatchVersionSound | build_scripts/increase_version.py:57-63 | a matched version's groups are well formed and join back to the version |
| IncreaseVersion.MatchVersionComplete | build_scripts/increase_version.py:57-63 | every well-formed group tuple, joined, is matched back to itself |
| IncreaseVersion.MatchAsWrittenMeaning | build_scripts/increase_version.py:59 | the pattern as written, `(^[0-9])+`, matches exactly the versions the intended pattern matches whose major part is one digit |
| IncreaseVersion.MajorTenRejected | build_scripts/increase_version.py:59 | as written '10.0.0' does not match (`.groups()` on None raises), while the intended pattern matches it with major '10' |
| IncreaseVersion.TrailingDigits | build_scripts/increase_version.py:83 | the trailing run of digits, bounded by a non-digit |
| IncreaseVersion.IncrementLastRun | build_scripts/increase_version.py:81-87 | incrementing the last run of digits succeeds exactly when the part ends in a digit |
| IncreaseVersion.IncrementPart | build_scripts/increase_version.py:77-89 | an incremented part is never empty |
| IncreaseVersion.TrailingDigitsAll | build_scripts/increase_version.py:83 | an all-digit text is one trailing run |
| IncreaseVersion.TrailingDigitsAppend | build_scripts/increase_version.py:83 | digits after a non-digit are the trailing run |
| IncreaseVersion.IncrementBranchesAgree | build_scripts/increase_version.py:78-87 | for a part ending in a digit (and not one `int()` reads with a sign or spaces) the `int()` branch and the `re.split` branch agree |
| IncreaseVersion.IncrementMeaning | build_scripts/increase_version.py:81-87 | incrementing keeps everything before the last number and adds one to it |
| IncreaseVersion.JoinAppend | build_scripts/increase_version.py:94 | joining concatenations is concatenating joins |
| IncreaseVersion.JoinKeep | build_scripts/increase_version.py:67-69 | a kept group joins to its text |
| IncreaseVersion.JoinParts | build_scripts/increase_version.py:67-94 | joining the non-empty groups renders the version |
| IncreaseVersion.Associate | build_scripts/increase_version.py:94 | string concatenation regroups |
| IncreaseVersion.PresentGroups | build_scripts/increase_version.py:67-69 | filtering the five groups keeps the present ones in order |
| IncreaseVersion.FirstTwoParts | build_scripts/increase_version.py:71-72 | `version_parts[0:2]` is the major and the first later part |
| IncreaseVersion.LastPart | build_scripts/increase_version.py:77-89 | with a pre-release the last part is the last tag, and replacing it is replacing the last tag |
| IncreaseVersion.BumpedRelease | build_scripts/increase_version.py:71-74 | releasing a pre-release keeps the first two parts and increments nothing |
| IncreaseVersion.WithBetaShort | build_scripts/increase_version.py:91-92 | inserting 'b0' at index 2 of at most two parts appends it |
| IncreaseVersion.BumpedFinal | build_scripts/increase_version.py:71-92 | a final version keeps two parts, increments the second and adds 'b0' unless releasing |
| IncreaseVersion.BumpedPreRelease | build_scripts/increase_version.py:76-89 | a pre-release, not releasing, increments its last part |
| IncreaseVersion.VersionUpdater | build_scripts/increase_version.py:57-94 | the method computes exactly `UpdatedVersion`, which matches the corrected major pattern `^([0-9]+)` of the Findings row; for a major of two or more digits, such as "10.0.0", it therefore returns a bumped version where the script as written raises (`MatchAsWrittenMeaning`) |
| IncreaseVersion.PartsBumpedMeaning | build_scripts/increase_version.py:65-92 | the list steps on the parts compute `Bumped` of the groups |
| IncreaseVersion.UpdateParts | build_scripts/increase_version.py:71-94 | the list updates compute exactly `PartsBumped` |
| IncreaseVersion.MatchedMajor | build_scripts/increase_version.py:59 | a matched version has a non-empty major |
| IncreaseVersion.BumpLastPart | build_scripts/increase_version.py:76-89 | the last part is popped, incremented and pushed back |
| IncreaseVersion.DigitRunAll | build_scripts/increase_version.py:59 | the digit run is the whole text exactly for an all-digit text |
| IncreaseVersion.DottedStart | build_scripts/increase_version.py:59 | a non-empty dotted run starts with a dot |
| IncreaseVersion.DottedRunSnoc | build_scripts/increase_version.py:59 | a dot and digits at the end extend the run |
| IncreaseVersion.DottedSnocStep | build_scripts/increase_version.py:59 | induction step of `DottedRunSnoc` |
| IncreaseVersion.DottedLast | build_scripts/increase_version.py:59-83 | a non-empty dotted run ends in a dot and a run of digits |
| IncreaseVersion.DottedLastStep | build_scripts/increase_version.py:59 | induction step of `DottedLast` |
| IncreaseVersion.Regroup | build_scripts/increase_version.py:94 | string concatenation regroups |
| IncreaseVersion.DottedIncrement | build_scripts/increase_version.py:77-89 | incrementing a dotted run succeeds and gives a dotted run |
| IncreaseVersion.TaggedIncrement | build_scripts/increase_version.py:77-89 | incrementing a tagged group succeeds and gives a tagged group |
| IncreaseVersion.ReleaseOfPreRelease | build_scripts/increase_version.py:71-94 | releasing a pre-release drops its tags, and the result parses as a final version |
| IncreaseVersion.UpdatedOfRender | build_scripts/increase_version.py:57-94 | updating a well-formed version is `Bumped` of its groups |
| IncreaseVersion.BumpedDotted | build_scripts/increase_version.py:71-92 | a final version with a dotted run increments the run and adds 'b0' unless releasing |
| IncreaseVersion.FinalUpdate | build_scripts/increase_version.py:71-94 | updating a final version increments its last dotted number and adds 'b0' unless releasing |
| IncreaseVersion.FinalReparse | build_scripts/increase_version.py:57-63 | a major, a dotted run and an optional pre-release parse back to those groups |
| IncreaseVersion.ReleaseOfFinal | build_scripts/increase_version.py:71-94 | releasing a final version increments its last number and the result parses as a final version |
| IncreaseVersion.NoSuffix | build_scripts/increase_version.py:94 | joining nothing adds nothing |
| IncreaseVersion.FirstBeta | build_scripts/increase_version.py:92 | 'b0' is a well-formed pre-release |
| IncreaseVersion.BetaOfFinal | build_scripts/increase_version.py:71-94 | a final version, not releasing, becomes the next version with 'b0', which parses as a pre-release |
| IncreaseVersion.LastTagIncrement | build_scripts/increase_version.py:77-89 | incrementing the last tag of a pre-release succeeds and keeps the groups well formed |
| IncreaseVersion.NextPreRelease | build_scripts/increase_version.py:76-94 | a pre-release, not releasing, becomes the version with its last tag incremented, which parses back to those groups |
| IncreaseVersion.BumpedTag | build_scripts/increase_version.py:76-89 | the bumped pre-release is the version with the incremented last tag |
| PadWrappers.ButtonBits | constants/controllers/pad.py:35-51 | each button value is a single bit, distinct buttons share no bit, and the enumeration lists every button |
| PadWrappers.PressedXor | tekken/data/wrappers/controllers/pad_wrapper.py:69-73 | a button's bit is set in the xor of two masks exactly when exactly one of them has it |
| PadWrappers.Filtered | tekken/data/wrappers/controllers/pad_wrapper.py:72-74 | the comprehension keeps exactly the enumerated buttons set in the mask, never more buttons than enumerated |
| PadWrappers.Tagged | tekken/data/wrappers/controllers/pad_wrapper.py:75-79 | one pair per listed button, in order, each paired with whether the pad presses it |
| PadWrappers.DiffButtonsMeaning | tekken/data/wrappers/controllers/pad_wrapper.py:68-79 | a button is listed as (button, True) exactly when this pad presses it and the other does not, and as (button, False) exactly in the opposite case |
| PadWrappers.DiffButtonsSelf | tekken/data/wrappers/controllers/pad_wrapper.py:68-79 | a mask compared with itself lists no button |
| PadWrappers.FilteredNothing | tekken/data/wrappers/controllers/pad_wrapper.py:72-74 | an empty mask lists no button |
| PadWrappers.TupleDifference | tekken/data/wrappers/controllers/pad_wrapper.py:110-118 | `__tuple_difference(a, b)` is the component-wise `b - a` |
| PadWrappers.ItemDifference | tekken/data/wrappers/controllers/pad_wrapper.py:110-118 | `(max - min) * (-1 if a > b else 1)` equals `b - a` |
| PadWrappers.DifferenceSelf | tekken/data/wrappers/controllers/pad_wrapper.py:68-89 | a pad compared with one in the same state shows no button and zero stick changes |
| PadWrappers.PadControllerWrapper.constructor | tekken/data/wrappers/controllers/pad_wrapper.py:41-42 | the pad holds the pressed mask and the two stick pairs it is built from |
| PadWrappers.PadControllerWrapper.SetLeftStick | tekken/data/wrappers/controllers/pad_wrapper.py:50-54 | the left stick reads back as set; buttons and the right stick are unchanged |
| PadWrappers.PadControllerWrapper.SetRightStick | tekken/data/wrappers/controllers/pad_wrapper.py:62-66 | the right stick reads back as set; buttons and the left stick are unchanged |
| PadWrappers.PadControllerWrapper.IsPressed | tekken/data/wrappers/controllers/pad_wrapper.py:91-94 | True exactly when the button's bit is set in the pressed mask |
| PadWrappers.PadControllerWrapper.Difference | tekken/data/wrappers/controllers/pad_wrapper.py:68-89 | the buttons are `DiffButtons` of the two masks and each stick entry is the tuple difference from this pad to the other |
| PadWrappers.ButtonsIn | tekken/data/wrappers/controllers/pad_wrapper.py:72-74 | the loop lists exactly `Filtered` of the enumeration |
| PadWrappers.TagButtons | tekken/data/wrappers/controllers/pad_wrapper.py:75-79 | the loop replaces the list by exactly `Tagged` |
| PadWrappers.TaggedSnoc | tekken/data/wrappers/controllers/pad_wrapper.py:75-79 | one more listed button adds its one pair |

## Left out

- Reading game memory, the Win32 calls and the binary struct layouts are not modelled. Game memory is the `read` parameter of `TekkenGameState.Update`. The movelist bytes are a byte sequence, and each move node is an abstract record of the fields the parser uses.
- Threads, timing, audio, the network and every tkinter widget are not modelled. An overlay label is modelled as the string set on it.
- Console output, `sys.stdout.write`, `print` and the events the coach dispatches are not modelled as I/O. The encyclopedia's written lines are returned as symbolic reports: `Report` values whose `Text()` gives each line. The coach's dispatch is its return value.
- The punish window objects the encyclopedia has already closed are tracked through a ghost sequence of their views. Aliasing between windows beyond "the current window is the newest one" is not modelled.
- `MoveDataReport` and the opponent's movelist parser are taken as function parameters (`ReportOps`, `canBeDoneFromNeutral`). They are collaborators whose own code is not part of this model.
- The values of `FrameAdvantage` (constants/battle.py, which is not part of this model) are the `thresholds` parameter of `FrameDataOverlays.FrameDataOverlay.UpdateFrameAdvantage` and `Write`, in declaration order. A panel's band is the position of the member it is given. What `set_frame_advantage` draws for it, and the colour table keyed by those values, are not modelled.
- The parry reports PY1, PY2 and "NO PARRY?" of `get_opp_technical_states` are left out. Their lists are built but never returned.
- `check_jumpframe_data_fallback` is left out. Its call in `update` is commented out, and it only writes to the console.
- `RoundSummary.__repr__`, `PadControllerWrapper.__repr__` and the character, stage and button name tables are left out: they are only display text. The enum names the model needs (character names, entry types) are modelled as lookup functions.
- Floating-point geometry (`GetDist`, `get_range_of_move`) is left out.
- The code identified as broken or dead is left out: `get_frame_progress_of_opp_attack`, `is_bot_whiffing_alt`, `get_movelist_to_use` and `get_opp_move_name`.
- Bytes are decoded one character per byte, because the movelist names are ASCII. UTF-8 multi-byte sequences are not modelled.
- MovelistParsers.MovelistParser.constructor requires the movelist block to hold at least the 0x2e8-byte header. A shorter block makes `struct.unpack` raise `struct.error` in the source, and that error path is not modelled. tekken/game_reader.py always passes a block of the configured movelist size.
- The pad's button mask is a `bv16`, with the sixteen `PadController` bits; the struct that fills it is not modelled.
- `ConfigParser` file reading, its lower-casing of keys and its merging of the DEFAULT section into other sections are not modelled. An INI file is a sequence of sections of key/value pairs. `DefaultSettings.write` and the files of the version script are not modelled either.
- Python's `int(str)` is modelled without digit-group underscores and without non-ASCII digits. `strtobool` is modelled with ASCII lower-casing only.
- `PyStrings.IsSpace` is the set of characters `str.isspace()` accepts, listed by code point: the ASCII controls 0x09-0x0D and 0x1C-0x1F, the space, 0x85, 0xA0 and the Unicode space separators. It is not derived from the Unicode database.
- The snapshot queries in tekken_game_state.py are written in snake_case, for example `opp.is_punish()`, `bot.is_blocking()` and `get_traicking_type()`. tekken/bot_snapshot.py defines them only in CamelCase: `IsPunish`, `IsBlocking`, `GetTrackingType`. The same holds for the attributes `is_power_crush`, `is_parry1` and `is_parry2`, which are defined as `IsPowerCrush()`, `is_parry_1` and `is_parry_2`. As written, every such query raises `AttributeError`. The model maps each call to the CamelCase method or the attribute of the same meaning; the failing lookups are not modelled.
- The members of `Columns` (constants/overlay/frame_data/column_names.py:37-50) are built as `ComplexEnumMember(printable_name=...)`, without the `value` argument that constants/complex_enum.py:38 requires. As written, defining the enum raises `TypeError`. The overlay's `column_enum.value` and `Columns(index)` only work if each value is the column's 0-based position. The model assumes these values (`FrameDataOverlays.ColumnValue`); the failing definition is not modelled.
- The version script's `getopt` command line and `print` are not modelled. `re.split(r'(\d+)', part)` without its empty pieces is modelled by its effect: the last run of digits is replaced.
- The version bump has no concrete examples in the model. Its properties are proved for every well-formed version instead.
- GameState.GetFrameData, GameState.WasFightReset and GameState.TekkenGameState.IsFightOver carry no contract of their own. They are the one-line formulas of the source, and the passes use them as definitions: for example, `Encyclopedias.GameStatsEvents` states that a fight reset empties `game_events`.
- Encyclopedias.TekkenEncyclopedia.Update states the new frame-data fields, the statistics and the match lines field by field, rather than as one equality of the whole state. The coaching state and the written lines are stated by the pass methods and by the pure `UpdateStep`.
- Encyclopedias.TekkenEncyclopedia.DetermineFrameData, Encyclopedias.TekkenEncyclopedia.AttributeHit, Encyclopedias.TekkenEncyclopedia.CommitEntry and Encyclopedias.TekkenEncyclopedia.ReadEntry also state the committed entry by the facts known of it (`CommitFacts`), not as a full equality. The full equality is proved in the static readers and in the pure lemmas that bridge to `FrameDataStepWith`.
- MatchStats.RecordFromStat only states the missing-key case ("0 - 0"). The "w - l" and "w - l - d" forms are its definition.

## Findings

| source | as written | input that shows it | evidently intended | confidence | as-written member | corrected member |
|---|---|---|---|---|---|---|
| tekken/bot_snapshot.py:147-152 | `CharacterCodes(char_id)` is wrapped in `except KeyError`, but an enum lookup of an unlisted value raises `ValueError`, so the snapshot constructor fails | a character id of 45 (between NOCTIS 44 and LEI 46) | the name "UNKNOWN" for an unlisted id | not executed | BotSnapshots.UnknownCharacterIdFinding | BotSnapshots.CharacterName |
| gui/my_tkinter/overlay/frame_data_overlay.py:72 | the first settings name `Columns.OPPONET_FRAMES`, which is not a member, so building the overlay raises `AttributeError` | constructing the overlay with its initial settings | `Columns.OPPONENT_FRAMES`, so that all eleven columns are shown | not executed | FrameDataOverlays.InitialSettingsAsWrittenRaise | FrameDataOverlays.InitialSettingsShown |
| build_scripts/increase_version.py:59-60 | the major number is matched by `(^[0-9])+`, which repeats an anchored single digit and so matches one digit only | version "10.0.0" is not matched, and `.groups()` is then called on `None` | `^([0-9]+)`, matching any major number | not executed | IncreaseVersion.MajorTenRejected | IncreaseVersion.MatchVersionComplete |
