/**
 * `TekkenEncyclopedia` (TekkenEncyclopedia.py, lines 16-586): the three passes
 * that run on every new frame — frame data, combo statistics and the punish
 * window — and the state they keep between frames.
 *
 * Each pass is first written as a function from the encyclopedia's state, as
 * a value, and the game-state log to the next state; the methods of the class
 * do the same work step by step on the objects and are proved to agree.
 *
 * The current and previous frame-data entries are objects held in the
 * `frame_data` dictionary; an entry is created only when its key is first
 * inserted and is never replaced, so an entry is identified by its key and
 * `previous != current` compares keys. The punish windows are objects; the
 * current one is always the newest in `punish_windows`.
 */
module Encyclopedias {
  import opened Wrappers
  import opened PyStrings
  import opened BotSnapshots
  import opened GameSnapshots
  import opened GameState
  import opened FrameDataEntries
  import opened PunishWindows
  import opened GameStats
  import opened MatchStats

  /** What the passes ask of code outside this model. */
  datatype Context = Context(
    ops: ReportOps,                   // `is_present`, `total_present`, `str` of a MoveDataReport
    moveStringOf: Log -> string,      // `get_current_opp_move_string()` on a log
    moveNameOf: Log -> string,        // `get_current_opp_move_name()` on a log
    canBeDoneFromNeutral: int -> bool, // the opponent's movelist parser
    reacquireNames: bool,             // `game_state.get_reader().reacquire_names`
    timestamp: string)                // `time.strftime('%Y_%m_%d_%H.%M')`

  /** A line the encyclopedia writes to standard output, kept as what it
    * reports; `Text` is the line itself. */
  datatype Report =
    | EntryRow(entry: FrameDataEntry, ops: ReportOps) // `sys.stdout.write(frame_data_entry)`
    | WindowNote(line: WindowLine)                    // what a punish window writes
    | Plain(text: string)                             // the combo events, the round and the match
  {
    /** The line; an entry's row exists once its startup is known. */
    function Text(): string
      requires EntryRow? ==> entry.startup.Some?
    {
      match this
      case EntryRow(e, ops) => Rendered(e, ops).value
      case WindowNote(line) => line.Text()
      case Plain(text) => text
    }
  }

  /** What a window writes, if anything. */
  function Lines(line: Option<WindowLine>): seq<Report>
  {
    if line.Some? then [WindowNote(line.value)] else []
  }

  function Plains(lines: seq<string>): (r: seq<Report>)
    ensures |r| == |lines| && forall i :: 0 <= i < |lines| ==> r[i] == Plain(lines[i])
  {
    if lines == [] then [] else [Plain(lines[0])] + Plains(lines[1..])
  }

  /** A punish window, as a value. */
  datatype WindowView = WindowView(
    prefix: string, moveId: int, name: string, activeFrames: int,
    state: WindowState, result: PunishResult)

  /** The encyclopedia's state, as a value. `windowOpen` is
    * `current_punish_window is not None`; that window is then the last one.
    * `output` collects what is written to standard output, `matchLines` what
    * is appended to the match file. */
  datatype EncValue = EncValue(
    frameData: map<int, FrameDataEntry>,
    activeFrameWait: nat,
    currentEntry: Option<int>,
    previousEntry: Option<int>,
    windows: seq<WindowView>,
    windowOpen: bool,
    punishWindowCounter: int,
    currentGameEvent: Option<OpenEvent>,
    gameEvents: seq<GameStatEvent>,
    isMatchRecorded: bool,
    wasFightBeingReacquired: bool,
    stats: StatDict,
    output: seq<Report>,
    matchLines: seq<string>)

  /** An entry that has been committed at least once: the fields the punish
    * window reads with `int()` hold numbers. */
  predicate Committed(frameData: map<int, FrameDataEntry>, key: int)
  {
    key in frameData && Complete(frameData[key])
  }

  /** The fields a commit fills in and the punish window reads hold numbers. */
  predicate Complete(e: FrameDataEntry)
  {
    e.moveId.Some? && e.hitRecovery.Some? && e.blockRecovery.Some? && e.activeFrames.Some?
  }

  /** What holds between frames. */
  predicate ValidValue(v: EncValue)
  {
    v.activeFrameWait >= 1
    && EntriesValid(v.frameData, v.currentEntry, v.previousEntry)
    && (v.windowOpen ==> |v.windows| > 0)
    && EventsValid(v.gameEvents)
  }

  /** The current and previous entries are committed entries, and there is
    * no previous entry without a current one. */
  predicate EntriesValid(frameData: map<int, FrameDataEntry>, current: Option<int>, previous: Option<int>)
  {
    (previous.Some? ==> current.Some? && Committed(frameData, previous.value))
    && (current.Some? ==> Committed(frameData, current.value))
  }

  /** Every closed event's damage is non-negative. */
  predicate EventsValid(events: seq<GameStatEvent>)
  {
    forall i :: 0 <= i < |events| ==> events[i].totalDamage >= 0
  }

  // ---------------------------------------------------------------------------
  // determine_frame_data (lines 422-586)

  /** The bot is blocking, being hit, thrown, knocked down or wall splatted. */
  predicate BotReacting(log: Log)
    requires |log| > 0
  {
    var g := Newest1(log);
    g.bot.IsBlocking() || g.bot.IsGettingHit() || g.opp.IsInThrowing()
    || g.bot.IsBeingKnockedDown() || g.bot.IsGettingWallSplatted()
  }

  /** The bot's move changed or its timer went back `wait` frames ago. */
  predicate AttributionChanged(log: Log, wait: nat)
  {
    DidBotIdChangeXMovesAgo(log, wait) || DidBotTimerInterruptXMovesAgo(log, wait)
  }

  lemma AttributionNeedsHistory(log: Log, wait: nat)
    requires AttributionChanged(log, wait)
    ensures |log| > wait
  {
  }

  /** The log `wait` frames back: `state_log[:-wait]`. */
  function Past(log: Log, wait: nat): (past: Log)
    requires 0 < wait < |log|
    ensures |past| == |log| - wait && past == log[..|log| - wait]
  {
    SliceTo(log, 0 - wait)
  }

  /** Whether the pass waits one frame more (lines 459-465): the wait has not
    * yet covered the opponent's active frames and the bot is not recovering
    * before a long move completes. */
  predicate KeepsWaiting(log: Log, wait: nat)
    requires 0 < wait < |log|
  {
    var bot := Newest1(log).bot;
    !(wait >= Newest1(Past(log, wait)).opp.GetActiveFrames() + 1) && !(bot.recovery - bot.moveTimer == 0)
  }

  /** The startup and damage of the move `wait` frames back; both zero means
    * the newest non-zero pair (lines 489-499). */
  function StartupAndDamage(past: Log): (int, int)
    requires |past| > 0
  {
    var opp := Newest1(past).opp;
    if opp.attackDamage == 0 && opp.startup == 0 then GetOppLatestNonZeroStartupAndDamage(past)
    else (opp.startup, opp.attackDamage)
  }

  /** `hitType`: the attack type's name, with "_THROW" for a throw. */
  function HitTypeName(opp: BotSnapshot): string
  {
    opp.attackType.Name() + (if opp.IsAttackThrow() then "_THROW" else "")
  }

  /** The frame advantage measured now: the bot's frames till its next move
    * less the opponent's. */
  function AdvantageNow(log: Log): int
    requires |log| > 0
  {
    GetBotFramesTillNextMove(log) - GetOppFramesTillNextMove(log)
  }

  /** The entry after a commit (lines 468-577): the active frame the hit
    * landed on, then the fields read 'wait' frames back, then those read now. */
  function CommittedEntry(e: FrameDataEntry, log: Log, wait: nat, c: Context, isPlayerOne: bool): (r: FrameDataEntry)
    requires 0 < wait < |log|
    ensures r.moveId == Some(CommitKey(log, wait)) && r.startup.Some?
    ensures r.hitRecovery == Some(GetOppFramesTillNextMove(log)) && r.blockRecovery == Some(GetBotFramesTillNextMove(log))
    ensures r.activeFrames == Some(Newest1(Past(log, wait)).opp.GetActiveFrames())
    ensures r.printExtended == e.printExtended
  {
    var landed := e.(currentActiveFrame := Some(ActiveFrameAfterFirstHit(Reversed(SliceFrom(log, -(wait + 2))))));
    PresentFields(PastFields(landed, Past(log, wait), c), log, c, isPlayerOne)
  }

  /** The fields read while the log is rolled back to the hit (lines 474-540). */
  function PastFields(e: FrameDataEntry, past: Log, c: Context): (r: FrameDataEntry)
    requires |past| > 0
  {
    var opp := Newest1(past).opp;
    var sd := StartupAndDamage(past);
    e.(moveId := Some(opp.moveId),
       startup := Some(sd.0),
       damage := Some(sd.1),
       activeFrames := Some(opp.GetActiveFrames()),
       hitType := HitTypeName(opp),
       recovery := Some(opp.recovery),
       input := c.moveStringOf(past),
       technicalStateReports := TechnicalStates(past, sd.0 - 1),
       tracking := OppTrackingType(past, sd.0))
  }

  /** The fields read back at the present (lines 544-577). */
  function PresentFields(e: FrameDataEntry, log: Log, c: Context, isPlayerOne: bool): (r: FrameDataEntry)
    requires |log| > 0
  {
    var adv := AdvantageNow(log);
    var bot := Newest1(log).bot;
    e.(throwTech := Some(GetBotThrowTech(log, 1)),
       currentFrameAdvantage := WithPlusIfNeeded(Some(adv)),
       onBlock := if bot.IsBlocking() then Some(adv) else e.onBlock,
       onCounterHit := if !bot.IsBlocking() && bot.IsGettingCounterHit() then Some(adv) else e.onCounterHit,
       onNormalHit := if !bot.IsBlocking() && !bot.IsGettingCounterHit() then Some(adv) else e.onNormalHit,
       hitRecovery := Some(GetOppFramesTillNextMove(log)),
       blockRecovery := Some(GetBotFramesTillNextMove(log)),
       moveStr := c.moveNameOf(log),
       prefix := GetPlayerString(isPlayerOne, false))
  }

  /** The entry a commit starts from: the one filed under `key`, or a new one. */
  function EntryBefore(frameData: map<int, FrameDataEntry>, key: int, printExtended: bool): (e: FrameDataEntry)
    ensures key in frameData ==> e == frameData[key]
    ensures key !in frameData ==> e == NewEntry(printExtended)
  {
    if key in frameData then frameData[key] else NewEntry(printExtended)
  }

  /** The move a commit is filed under: the opponent's move `wait` frames back. */
  function CommitKey(log: Log, wait: nat): int
    requires 0 < wait < |log|
  {
    Newest1(Past(log, wait)).opp.moveId
  }

  /** `determine_frame_data(game_state)` on the log `log`. */
  function FrameDataStep(v: EncValue, log: Log, c: Context, isPlayerOne: bool, printExtended: bool): (r: EncValue)
    requires |log| > 0 && v.activeFrameWait >= 1
  {
    var wait := v.activeFrameWait;
    if !BotReacting(log) || !AttributionChanged(log, wait) then v
    else if KeepsWaiting(log, wait) then v.(activeFrameWait := wait + 1)
    else CommitStep(v, log, c, isPlayerOne, printExtended)
  }

  /** Whether the pass commits an entry. */
  predicate Commits(log: Log, wait: nat)
  {
    |log| > 0 && BotReacting(log) && AttributionChanged(log, wait) && 0 < wait < |log| && !KeepsWaiting(log, wait)
  }

  /** `determine_frame_data(game_state)` on the log `log`, with the entry a
    * commit files given as `e`. */
  function FrameDataStepWith(v: EncValue, log: Log, e: FrameDataEntry, ops: ReportOps): (r: EncValue)
    requires |log| > 0 && v.activeFrameWait >= 1
  {
    var wait := v.activeFrameWait;
    if !BotReacting(log) || !AttributionChanged(log, wait) then v
    else if KeepsWaiting(log, wait) then v.(activeFrameWait := wait + 1)
    else Filed(v, CommitKey(log, wait), e, ops)
  }

  /** The commit of an entry (lines 466-584): the entry for the move `wait`
    * frames back, created if new, is updated, written out and made current. */
  function CommitStep(v: EncValue, log: Log, c: Context, isPlayerOne: bool, printExtended: bool): (r: EncValue)
    requires 0 < v.activeFrameWait < |log|
  {
    var wait := v.activeFrameWait;
    var key := CommitKey(log, wait);
    Filed(v, key, CommittedEntry(EntryBefore(v.frameData, key, printExtended), log, wait, c, isPlayerOne), c.ops)
  }

  /** The entry `e` filed under `key`, made current and written out, with the
    * look-back counter reset (lines 578-584). */
  function Filed(v: EncValue, key: int, e: FrameDataEntry, ops: ReportOps): (r: EncValue)
  {
    v.(frameData := v.frameData[key := e], currentEntry := Some(key), activeFrameWait := 1,
       output := v.output + [EntryRow(e, ops)])
  }

  /** With the committed entry as `e`, the pass with a given entry is the pass. */
  lemma FrameDataStepWithCommitted(v: EncValue, log: Log, c: Context, isPlayerOne: bool, printExtended: bool, e: FrameDataEntry)
    requires |log| > 0 && v.activeFrameWait >= 1
    requires Commits(log, v.activeFrameWait) ==>
      e == CommittedEntry(EntryBefore(v.frameData, CommitKey(log, v.activeFrameWait), printExtended),
                          log, v.activeFrameWait, c, isPlayerOne)
    ensures FrameDataStepWith(v, log, e, c.ops) == FrameDataStep(v, log, c, isPlayerOne, printExtended)
  {
    if BotReacting(log) && AttributionChanged(log, v.activeFrameWait) {
      AttributionNeedsHistory(log, v.activeFrameWait);
    }
  }

  /** A commit changes the entries, the current entry, the look-back counter
    * and the output, and nothing else. */
  lemma CommitStepFrame(v: EncValue, log: Log, c: Context, isPlayerOne: bool, printExtended: bool)
    requires 0 < v.activeFrameWait < |log|
    ensures var r := CommitStep(v, log, c, isPlayerOne, printExtended);
      r == v.(frameData := r.frameData, currentEntry := r.currentEntry, activeFrameWait := r.activeFrameWait,
              output := r.output)
      && r.activeFrameWait == 1 && r.currentEntry == Some(CommitKey(log, v.activeFrameWait))
  {
  }

  /** A commit keeps every committed entry committed and commits the new current one. */
  lemma CommitStepCommits(v: EncValue, log: Log, c: Context, isPlayerOne: bool, printExtended: bool)
    requires 0 < v.activeFrameWait < |log|
    ensures var r := CommitStep(v, log, c, isPlayerOne, printExtended);
      var key := CommitKey(log, v.activeFrameWait);
      r.frameData.Keys == v.frameData.Keys + {key}
      && (forall k :: k in v.frameData && k != key ==> r.frameData[k] == v.frameData[k])
      && Committed(r.frameData, key)
  {
  }

  /** A commit keeps the invariant. */
  lemma CommitKeepsValid(v: EncValue, log: Log, c: Context, isPlayerOne: bool, printExtended: bool)
    requires 0 < v.activeFrameWait < |log| && ValidValue(v)
    ensures ValidValue(CommitStep(v, log, c, isPlayerOne, printExtended))
  {
    var r := CommitStep(v, log, c, isPlayerOne, printExtended);
    var key := CommitKey(log, v.activeFrameWait);
    CommitStepFrame(v, log, c, isPlayerOne, printExtended);
    CommitStepCommits(v, log, c, isPlayerOne, printExtended);
    if v.previousEntry.Some? {
      var p := v.previousEntry.value;
      assert p == key || r.frameData[p] == v.frameData[p];
    }
  }

  /** The look-back counter only grows by one while the attribution is
    * unstable, and a commit resets it to 1; nothing else changes it. */
  lemma FrameDataWaitCounter(v: EncValue, log: Log, c: Context, isPlayerOne: bool, printExtended: bool)
    requires |log| > 0 && v.activeFrameWait >= 1
    ensures var r := FrameDataStep(v, log, c, isPlayerOne, printExtended);
      var wait := v.activeFrameWait;
      var triggered := BotReacting(log) && AttributionChanged(log, wait);
      (!triggered ==> r == v)
      && (triggered ==> |log| > wait)
      && (triggered && KeepsWaiting(log, wait) ==> r == v.(activeFrameWait := wait + 1))
      && (triggered && !KeepsWaiting(log, wait) ==> r.activeFrameWait == 1 && r.currentEntry == Some(CommitKey(log, wait)))
  {
    var wait := v.activeFrameWait;
    if BotReacting(log) && AttributionChanged(log, wait) {
      AttributionNeedsHistory(log, wait);
      if !KeepsWaiting(log, wait) {
        CommitStepFrame(v, log, c, isPlayerOne, printExtended);
      }
    }
  }

  /** What a commit establishes about the entry `e` it files, `before` being
    * the entry found under its key: the move and its recoveries are recorded,
    * and the measured advantage goes under exactly one of on-block,
    * on-counter-hit and on-normal-hit (lines 552-572) while the other two are
    * kept. */
  predicate CommitFacts(e: FrameDataEntry, before: FrameDataEntry, log: Log, wait: nat)
    requires 0 < wait < |log|
  {
    var adv := AdvantageNow(log);
    var bot := Newest1(log).bot;
    e.moveId == Some(CommitKey(log, wait)) && e.startup.Some? && e.activeFrames.Some?
    && e.hitRecovery == Some(GetOppFramesTillNextMove(log)) && e.blockRecovery == Some(GetBotFramesTillNextMove(log))
    && (bot.IsBlocking() ==> e.onBlock == Some(adv) && e.onCounterHit == before.onCounterHit && e.onNormalHit == before.onNormalHit)
    && (!bot.IsBlocking() && bot.IsGettingCounterHit() ==>
          e.onCounterHit == Some(adv) && e.onBlock == before.onBlock && e.onNormalHit == before.onNormalHit)
    && (!bot.IsBlocking() && !bot.IsGettingCounterHit() ==>
          e.onNormalHit == Some(adv) && e.onBlock == before.onBlock && e.onCounterHit == before.onCounterHit)
  }

  /** The committed entry has those facts, and shows the advantage with its sign. */
  lemma CommittedEntryFacts(before: FrameDataEntry, log: Log, wait: nat, c: Context, isPlayerOne: bool)
    requires 0 < wait < |log|
    ensures CommitFacts(CommittedEntry(before, log, wait, c, isPlayerOne), before, log, wait)
    ensures CommittedEntry(before, log, wait, c, isPlayerOne).currentFrameAdvantage == WithPlusIfNeeded(Some(AdvantageNow(log)))
  {
  }

  /** A commit files an entry with those facts under its key, keeps the other
    * entries, and writes the entry's row. */
  lemma FrameDataCommit(v: EncValue, log: Log, c: Context, isPlayerOne: bool, printExtended: bool)
    requires |log| > 0 && v.activeFrameWait >= 1
    requires Commits(log, v.activeFrameWait)
    ensures var wait := v.activeFrameWait;
      var r := FrameDataStep(v, log, c, isPlayerOne, printExtended);
      var key := CommitKey(log, wait);
      var e := r.frameData[key];
      key in r.frameData
      && r.frameData.Keys == v.frameData.Keys + {key}
      && (forall k :: k in v.frameData && k != key ==> r.frameData[k] == v.frameData[k])
      && CommitFacts(e, EntryBefore(v.frameData, key, printExtended), log, wait)
      && Committed(r.frameData, key)
      && r.output == v.output + [EntryRow(e, c.ops)]
  {
    var wait := v.activeFrameWait;
    var key := CommitKey(log, wait);
    var before := EntryBefore(v.frameData, key, printExtended);
    assert FrameDataStep(v, log, c, isPlayerOne, printExtended) == CommitStep(v, log, c, isPlayerOne, printExtended);
    CommitStepCommits(v, log, c, isPlayerOne, printExtended);
    CommittedEntryFacts(before, log, wait, c, isPlayerOne);
  }

  /** A commit keeps the invariant. */
  lemma FrameDataKeepsValid(v: EncValue, log: Log, c: Context, isPlayerOne: bool, printExtended: bool)
    requires |log| > 0 && ValidValue(v)
    ensures ValidValue(FrameDataStep(v, log, c, isPlayerOne, printExtended))
  {
    var wait := v.activeFrameWait;
    if BotReacting(log) && AttributionChanged(log, wait) && !KeepsWaiting(log, wait) {
      CommitKeepsValid(v, log, c, isPlayerOne, printExtended);
    }
  }

  // ---------------------------------------------------------------------------
  // determine_game_stats (lines 225-393)

  /** The classifier's questions on the log 4 frames back (lines 239-267). */
  function ComboContextAt(past: Log): ComboContext
    requires |past| > 0
  {
    var g := Newest1(past);
    ComboContext(
      g.opp.IsAttackUnblockable(),
      g.opp.IsAttackAntiair(),
      g.opp.IsInThrowing(),
      TookDamageDuringStartup(past, g.opp.damageTaken, g.opp.moveTimer),
      DidBotStartGettingPunishedXFramesAgo(past, 1),
      g.bot.IsGettingCounterHit(),
      g.bot.IsGettingGroundHit(),
      GetBotStartupXFramesAgo(past, 2) > 0,
      g.opp.IsAttackLow(),
      g.opp.IsAttackMid(),
      g.bot.IsTechnicalCrouch())
  }

  /** The event opened when the opponent's combo counter started 4 frames
    * ago (lines 233-277): classified in the past, timed in the present. */
  function OpenedEvent(log: Log, isPlayerOne: bool): OpenEvent
    requires |log| > 4
  {
    var past := SliceTo(log, -4);
    OpenEvent(Newest1(log).timerFramesRemaining, GetPlayerString(isPlayerOne, true),
              ClassifyComboStart(ComboContextAt(past)), GetOppComboDamageXFramesAgo(past, 1))
  }

  /** The armored event (lines 283-300): opened and closed on the same frame
    * with one hit and the bot's fresh damage. */
  function ArmoredEvent(log: Log, isPlayerOne: bool, damage: int, timesHit: int): (GameStatEvent, string)
    requires |log| > 0
  {
    var time := Newest1(log).timerFramesRemaining;
    CloseEntry(OpenEvent(time, GetPlayerString(isPlayerOne, true), EntryType.ARMORED, 0), time, 1, damage, 0, timesHit)
  }

  /** The event fields after a frame, and the lines written. */
  datatype EventsResult = EventsResult(current: Option<OpenEvent>, events: seq<GameStatEvent>, output: seq<Report>)

  /** The open and close of combo events (lines 226-325). With no event
    * open, a combo starting 4 frames ago opens one, and otherwise fresh
    * damage on the bot is an armored event; with an event open, the combo
    * ending 4 frames ago or a fight reset closes it. */
  function Events(current: Option<OpenEvent>, events: seq<GameStatEvent>, log: Log, isPlayerOne: bool): (r: EventsResult)
    requires |log| > 0
    ensures r.events == events
      || (|r.events| == |events| + 1 && r.events[..|events|] == events && r.events[|events|].totalDamage >= 0)
  {
    if current.None? then WhenNoEvent(events, log, isPlayerOne) else WhenEventOpen(current.value, events, log)
  }

  /** With no event open: a combo starting 4 frames ago opens one, and
    * otherwise fresh damage on the bot is an armored event (lines 227-300). */
  function WhenNoEvent(events: seq<GameStatEvent>, log: Log, isPlayerOne: bool): (r: EventsResult)
    requires |log| > 0
    ensures r.events == events
      || (|r.events| == |events| + 1 && r.events[..|events|] == events && r.events[|events|].totalDamage >= 0)
  {
    var damageTaken := DidBotJustTakeDamage(log, 5);
    if DidOppComboCounterJustStartXFramesAgo(log, 4) then EventsResult(Some(OpenedEvent(log, isPlayerOne)), events, [])
    else if damageTaken > 0 then
      var closed := ArmoredEvent(log, isPlayerOne, damageTaken, |events|);
      EventsResult(None, events + [closed.0], [Plain(closed.1)])
    else EventsResult(None, events, [])
  }

  /** With an event open: the combo ending 4 frames ago or a fight reset
    * closes it with the combo's hits and damage 5 frames back (lines 301-325). */
  function WhenEventOpen(current: OpenEvent, events: seq<GameStatEvent>, log: Log): (r: EventsResult)
    requires |log| > 0
    ensures r.events == events
      || (|r.events| == |events| + 1 && r.events[..|events|] == events && r.events[|events|].totalDamage >= 0)
  {
    if DidOppComboCounterJustEndXFramesAgo(log, 4) || WasFightReset(log) then
      var closed := CloseEntry(current, Newest1(log).timerFramesRemaining,
                               GetOppComboHitsXFramesAgo(log, 5), GetOppComboDamageXFramesAgo(log, 5),
                               GetOppJuggleDamageXFramesAgo(log, 5), |events|);
      EventsResult(None, events + [closed.0], [Plain(closed.1)])
    else EventsResult(Some(current), events, [])
  }

  /** The coached player's and the opponent's characters and wins, by side. */
  function Sides(g: GameSnapshot): (string, int, string, int)
  {
    if g.isPlayerPlayerOne then (g.opp.characterName, g.opp.wins, g.bot.characterName, g.bot.wins)
    else (g.bot.characterName, g.bot.wins, g.opp.characterName, g.opp.wins)
  }

  /** `get_matchup_record(game_state)` (lines 395-420). */
  function MatchupRecord(d: StatDict, g: GameSnapshot): seq<string>
  {
    var s := Sides(g);
    MatchupRecordLines(d, s.0, s.2, g.opponentName)
  }

  /** The line announcing round `n` (line 339). */
  function RoundLine(n: int): string
  {
    "!ROUND | " + IntToString(n) + " | HIT"
  }

  const NEWLINE: string := "\n"

  /** The match fields after a fight reset, and the lines written. */
  datatype BookResult = BookResult(isMatchRecorded: bool, stats: StatDict, output: seq<Report>, matchLines: seq<string>)

  /** The player-one bookkeeping of a fight reset (lines 330-383): the
    * matchup record after names are reacquired, the round line, and the
    * match result once someone has three wins, at most once per recording. */
  function Bookkeeping(stats: StatDict, isMatchRecorded: bool, wasFightBeingReacquired: bool, log: Log, c: Context)
    : (r: BookResult)
    requires |log| > 0
    ensures |r.matchLines| <= 1
  {
    var g := Newest1(log);
    var reacquired := !c.reacquireNames && wasFightBeingReacquired;
    var recorded := if reacquired then false else isMatchRecorded;
    var record := if reacquired then Plains(MatchupRecord(stats, g)) else [];
    var round := [Plain(RoundLine(g.opp.wins + g.bot.wins + 1))];
    var m := MatchRecord(stats, recorded, g, c.timestamp);
    BookResult(m.isMatchRecorded, m.stats, record + round + m.output, m.matchLines)
  }

  /** The match result, recorded once someone has three wins and the match
    * is not yet recorded (lines 341-383). */
  function MatchRecord(stats: StatDict, isMatchRecorded: bool, g: GameSnapshot, timestamp: string): (r: BookResult)
    ensures |r.matchLines| <= 1
  {
    if (g.bot.wins == 3 || g.opp.wins == 3) && !isMatchRecorded then
      var s := Sides(g);
      var result := MatchResult(s.1, s.3);
      var line := MatchResultLine(result, s.0, g.opponentName, s.2, s.1, s.3, timestamp);
      BookResult(true, AddedStat(stats, Stat(result, s.0, g.opponentName, s.2)), [Plain(line)], [line + NEWLINE])
    else BookResult(isMatchRecorded, stats, [], [])
  }

  /** The game-stats fields after a frame, the lines written and those
    * appended to the match file. */
  datatype StatsResult = StatsResult(after: StatsPart, output: seq<Report>, matchLines: seq<string>)

  /** `determine_game_stats(game_state)` on the log `log`. The `RoundSummary`
    * built on a reset is discarded and leaves no trace. */
  function StatsStep(p: StatsPart, log: Log, c: Context, isPlayerOne: bool): (r: StatsResult)
    requires |log| > 0
  {
    var e := Events(p.currentGameEvent, p.gameEvents, log, isPlayerOne);
    if !WasFightReset(log) then
      StatsResult(p.(currentGameEvent := e.current, gameEvents := e.events, wasFightBeingReacquired := c.reacquireNames),
                  e.output, [])
    else if !isPlayerOne then
      StatsResult(p.(currentGameEvent := e.current, gameEvents := [], wasFightBeingReacquired := c.reacquireNames),
                  e.output, [])
    else
      var b := Bookkeeping(p.stats, p.isMatchRecorded, p.wasFightBeingReacquired, log, c);
      StatsResult(StatsPart(e.current, [], b.isMatchRecorded, c.reacquireNames, b.stats), e.output + b.output,
                  b.matchLines)
  }

  /** `StatsStep` on a value: it changes only the game-stats fields and
    * appends to the output and the match file. */
  function GameStatsStep(v: EncValue, log: Log, c: Context, isPlayerOne: bool): (r: EncValue)
    requires |log| > 0
    ensures r == v.(currentGameEvent := r.currentGameEvent, gameEvents := r.gameEvents,
                    isMatchRecorded := r.isMatchRecorded, wasFightBeingReacquired := r.wasFightBeingReacquired,
                    stats := r.stats, output := r.output, matchLines := r.matchLines)
  {
    var s := StatsStep(StatsOf(v), log, c, isPlayerOne);
    v.(currentGameEvent := s.after.currentGameEvent, gameEvents := s.after.gameEvents,
       isMatchRecorded := s.after.isMatchRecorded, wasFightBeingReacquired := s.after.wasFightBeingReacquired,
       stats := s.after.stats, output := v.output + s.output, matchLines := v.matchLines + s.matchLines)
  }

  /** Every fight reset empties the round's events; otherwise they only grow,
    * by at most one, and an event closed on a reset is dropped with the rest. */
  lemma GameStatsEvents(p: StatsPart, log: Log, c: Context, isPlayerOne: bool)
    requires |log| > 0
    ensures var r := StatsStep(p, log, c, isPlayerOne).after;
      (WasFightReset(log) ==> r.gameEvents == [])
      && (!WasFightReset(log) ==> |p.gameEvents| <= |r.gameEvents| <= |p.gameEvents| + 1
                                  && r.gameEvents[..|p.gameEvents|] == p.gameEvents)
      && r.wasFightBeingReacquired == c.reacquireNames
  {
  }

  /** With no event open and no combo starting, fresh damage on the bot is
    * an armored event, opened and closed at once with one hit, the damage
    * taken and no juggle; no event is left open. */
  lemma ArmoredClosedAtOnce(p: StatsPart, log: Log, c: Context, isPlayerOne: bool)
    requires |log| > 0 && !WasFightReset(log)
    requires p.currentGameEvent.None? && !DidOppComboCounterJustStartXFramesAgo(log, 4)
    requires DidBotJustTakeDamage(log, 5) > 0
    ensures var r := StatsStep(p, log, c, isPlayerOne).after;
      var e := r.gameEvents[|r.gameEvents| - 1];
      |r.gameEvents| == |p.gameEvents| + 1 && r.gameEvents[..|p.gameEvents|] == p.gameEvents
      && e.hitType == EntryType.ARMORED && e.totalHits == 1 && e.startTime == e.endTime
      && e.totalDamage == DidBotJustTakeDamage(log, 5) && e.juggleDamage == 0
      && r.currentGameEvent.None?
  {
    var r := StatsStep(p, log, c, isPlayerOne).after;
    assert r.gameEvents[..|p.gameEvents|] == p.gameEvents;
  }

  /** A combo that starts is classified on the frame 4 back, by first match. */
  lemma ComboStartClassified(p: StatsPart, log: Log, c: Context, isPlayerOne: bool)
    requires |log| > 0 && p.currentGameEvent.None? && DidOppComboCounterJustStartXFramesAgo(log, 4)
    ensures |log| > 4
    ensures var r := StatsStep(p, log, c, isPlayerOne).after;
      var past := SliceTo(log, -4);
      r.currentGameEvent.Some?
      && r.currentGameEvent.value.hitType == FirstMatch(Tests(ComboContextAt(past)), COMBO_ORDER, 0, EntryType.NO_BLOCK)
      && r.currentGameEvent.value.startTime == Newest1(log).timerFramesRemaining
  {
    assert |log| > 4;
    ClassifyIsFirstMatch(ComboContextAt(SliceTo(log, -4)));
  }

  /** Each closed event's damage stays non-negative. */
  lemma StatsKeepsValid(p: StatsPart, log: Log, c: Context, isPlayerOne: bool)
    requires |log| > 0 && EventsValid(p.gameEvents)
    ensures EventsValid(StatsStep(p, log, c, isPlayerOne).after.gameEvents)
  {
    var e := Events(p.currentGameEvent, p.gameEvents, log, isPlayerOne);
    if e.events != p.gameEvents {
      EventsValidGrow(p.gameEvents, e.events);
    }
  }

  /** The game-stats pass keeps the invariant. */
  lemma GameStatsKeepsValid(v: EncValue, log: Log, c: Context, isPlayerOne: bool)
    requires |log| > 0 && ValidValue(v)
    ensures ValidValue(GameStatsStep(v, log, c, isPlayerOne))
  {
    StatsKeepsValid(StatsOf(v), log, c, isPlayerOne);
  }

  /** Appending an event with non-negative damage keeps every damage non-negative. */
  lemma EventsValidGrow(events: seq<GameStatEvent>, grown: seq<GameStatEvent>)
    requires EventsValid(events) && |grown| == |events| + 1 && grown[..|events|] == events
    requires grown[|events|].totalDamage >= 0
    ensures EventsValid(grown)
  {
    forall i | 0 <= i < |grown| ensures grown[i].totalDamage >= 0 {
      if i < |events| {
        assert grown[i] == grown[..|events|][i];
      }
    }
  }

  /** A match is written to the match file at most once per recording cycle:
    * a frame appends at most one line, only player one's encyclopedia
    * writes, only on a fight reset, and once recorded nothing is written
    * until names are reacquired. */
  lemma MatchRecordedOnce(p: StatsPart, log: Log, c: Context, isPlayerOne: bool)
    requires |log| > 0
    ensures var r := StatsStep(p, log, c, isPlayerOne);
      |r.matchLines| <= 1
      && (!isPlayerOne || !WasFightReset(log) ==> r.matchLines == [])
      && (p.isMatchRecorded && (c.reacquireNames || !p.wasFightBeingReacquired) ==> r.matchLines == [])
      && (r.matchLines != [] ==> r.after.isMatchRecorded)
  {
  }

  /** The recorded match is counted in the stats as its own outcome. */
  lemma MatchCounted(p: StatsPart, log: Log, c: Context)
    requires |log| > 0 && WasFightReset(log)
    requires StatsStep(p, log, c, true).matchLines != []
    ensures var r := StatsStep(p, log, c, true);
      var g := Newest1(log);
      var s := Sides(g);
      var result := MatchResult(s.1, s.3);
      r.after.stats == AddedStat(p.stats, Stat(result, s.0, g.opponentName, s.2))
      && r.matchLines == [MatchResultLine(result, s.0, g.opponentName, s.2, s.1, s.3, c.timestamp) + "\n"]
  {
  }

  // ---------------------------------------------------------------------------
  // determine_coaching_tips and close_punish_window (lines 133-223)

  /** `close_punish_window(result, do_close_frame_data_entries)` on the values. */
  function ClosedCurrent(v: EncValue, result: PunishResult, closeEntries: bool): (r: EncValue)
    requires v.windowOpen && |v.windows| > 0
    ensures |r.windows| == |v.windows| && !r.windowOpen
  {
    var n := |v.windows|;
    var v1 := v.(windows := v.windows[n - 1 := v.windows[n - 1].(result := result)],
                 windowOpen := false,
                 output := v.output + Lines(ClosingReport(result)));
    if closeEntries then v1.(previousEntry := None, currentEntry := None) else v1
  }

  lemma ClosedCurrentKeepsValid(v: EncValue, result: PunishResult, closeEntries: bool)
    requires ValidValue(v) && v.windowOpen
    ensures ValidValue(ClosedCurrent(v, result, closeEntries))
  {
  }

  /** A window for the current entry (lines 147-158). */
  function OpenedWindow(e: FrameDataEntry): WindowView
    requires e.moveId.Some? && e.hitRecovery.Some? && e.blockRecovery.Some? && e.activeFrames.Some?
  {
    WindowView(e.prefix, e.moveId.value, e.input, e.activeFrames.value,
               Opened(e.hitRecovery.value, e.blockRecovery.value), PunishResult.NOT_YET_CLOSED)
  }

  /** A new current entry: the open window is closed with `NO_WINDOW` (keeping
    * the entries), and a window for the entry is opened (lines 134-158). */
  function NewWindowStep(v: EncValue): (r: EncValue)
    requires ValidValue(v) && v.previousEntry != v.currentEntry
  {
    var v1 := v.(previousEntry := v.currentEntry);
    PushedWindow(if v1.windowOpen then ClosedCurrent(v1, PunishResult.NO_WINDOW, false) else v1)
  }

  /** The window for the current entry made current and appended (lines 147-158). */
  function PushedWindow(v: EncValue): (r: EncValue)
    requires v.currentEntry.Some? && Committed(v.frameData, v.currentEntry.value)
  {
    v.(windows := v.windows + [OpenedWindow(v.frameData[v.currentEntry.value])],
       windowOpen := true,
       punishWindowCounter := 0)
  }

  /** Opening a window keeps the invariant. */
  lemma NewWindowKeepsValid(v: EncValue)
    requires ValidValue(v) && v.previousEntry != v.currentEntry
    ensures ValidValue(NewWindowStep(v))
  {
  }

  /** The opponent started getting punished or hit one frame ago. */
  predicate WasBlockPunish(log: Log)
  {
    DidOppStartGettingPunishedXFramesAgo(log, 1) || DidOppStartGettingHitXFramesAgo(log, 1)
  }

  /** The verdict on the open window this frame, if any (lines 164-205). */
  function Verdict(w: WindowView, counter: int, log: Log, canBeDoneFromNeutral: int -> bool): Option<PunishResult>
  {
    if WasBlockPunish(log) then
      Some(BlockPunishResult(-1 * Advantage(w.state), OppFramesUntilRecoveryXFramesAgo(log, 2) - 1))
    else if HasOppReturnedToNeutralFromMoveId(log, w.moveId, canBeDoneFromNeutral) && counter >= w.state.hitRecovery then
      Some(NeutralResult(Advantage(w.state)))
    else None
  }

  /** The frame's work on an open window: count, judge, then adjust. */
  function OpenWindowStep(v: EncValue, log: Log, canBeDoneFromNeutral: int -> bool): (r: EncValue)
    requires |log| > 0 && v.windowOpen && |v.windows| > 0
    ensures |r.windows| == |v.windows|
  {
    var n := |v.windows|;
    var v1 := v.(punishWindowCounter := v.punishWindowCounter + 1);
    var w := v1.windows[n - 1];
    match Verdict(w, v1.punishWindowCounter, log, canBeDoneFromNeutral)
    case Some(result) => ClosedCurrent(v1, result, true)
    case None => AdjustedCurrent(v1, GetOppFramesTillNextMove(log), GetBotFramesTillNextMove(log))
  }

  /** The open window's work depends on nothing written before: it only
    * appends to the output. */
  lemma OpenWindowStepOutput(v: EncValue, log: Log, canBeDoneFromNeutral: int -> bool)
    requires |log| > 0 && v.windowOpen && |v.windows| > 0
    ensures var r := OpenWindowStep(v.(output := []), log, canBeDoneFromNeutral);
      OpenWindowStep(v, log, canBeDoneFromNeutral) == r.(output := v.output + r.output)
  {
  }

  /** `adjust_window` on the open window (lines 206-209). */
  function AdjustedCurrent(v: EncValue, hitRecovery: int, blockRecovery: int): (r: EncValue)
    requires v.windowOpen && |v.windows| > 0
  {
    var n := |v.windows|;
    var w := v.windows[n - 1];
    v.(windows := v.windows[n - 1 := w.(state := Adjusted(w.state, hitRecovery, blockRecovery))],
       output := v.output + Lines(AdjustReport(w.prefix, w.state, hitRecovery, blockRecovery)))
  }

  /** `determine_coaching_tips(game_state)` on the log `log`. */
  function CoachingStep(v: EncValue, log: Log, canBeDoneFromNeutral: int -> bool): EncValue
    requires |log| > 0 && ValidValue(v)
  {
    var v1 := if v.previousEntry != v.currentEntry then NewWindowStep(v) else v;
    if v1.windowOpen then OpenWindowStep(v1, log, canBeDoneFromNeutral) else v1
  }

  /** A window opens exactly when the current entry is new; the window list
    * only grows, by at most one, and a new window starts unlocked with the
    * entry's recoveries. Closed windows never change again. */
  lemma CoachingWindows(v: EncValue, log: Log, canBeDoneFromNeutral: int -> bool)
    requires |log| > 0 && ValidValue(v)
    ensures var r := CoachingStep(v, log, canBeDoneFromNeutral);
      var n := |v.windows|;
      (v.previousEntry != v.currentEntry ==>
         |r.windows| == n + 1
         && r.windows[n].moveId == v.frameData[v.currentEntry.value].moveId.value
         && (v.windowOpen ==> r.windows[n - 1].result == PunishResult.NO_WINDOW))
      && (v.previousEntry == v.currentEntry ==> |r.windows| == n)
      && (forall i :: 0 <= i < n && (i != n - 1 || !v.windowOpen) ==> r.windows[i] == v.windows[i])
  {
    var v1 := if v.previousEntry != v.currentEntry then NewWindowStep(v) else v;
    if v1.windowOpen {
      OpenWindowWindows(v1, log, canBeDoneFromNeutral);
    }
  }

  /** The frame's work on an open window touches the newest window only,
    * and keeps its move. */
  lemma OpenWindowWindows(v: EncValue, log: Log, canBeDoneFromNeutral: int -> bool)
    requires |log| > 0 && v.windowOpen && |v.windows| > 0
    ensures var r := OpenWindowStep(v, log, canBeDoneFromNeutral);
      var n := |v.windows|;
      |r.windows| == n && r.windows[n - 1].moveId == v.windows[n - 1].moveId
      && forall i :: 0 <= i < n - 1 ==> r.windows[i] == v.windows[i]
  {
  }

  /** A block punish closes the window with the verdict of the thresholds on
    * how far the opponent was behind, and forgets both entries. */
  lemma CoachingBlockPunish(v: EncValue, log: Log, canBeDoneFromNeutral: int -> bool)
    requires |log| > 0 && ValidValue(v) && v.previousEntry == v.currentEntry && v.windowOpen
    requires WasBlockPunish(log)
    ensures var r := CoachingStep(v, log, canBeDoneFromNeutral);
      var n := |v.windows|;
      var w := v.windows[n - 1];
      !r.windowOpen && r.currentEntry.None? && r.previousEntry.None?
      && r.windows[n - 1] == w.(result := BlockPunishResult(-Advantage(w.state), OppFramesUntilRecoveryXFramesAgo(log, 2) - 1))
      && r.output == v.output + Lines(ClosingReport(r.windows[n - 1].result))
  {
  }

  /** Without a verdict the window stays open and is adjusted to the current
    * recoveries, and the counter grows by one. */
  lemma CoachingAdjusts(v: EncValue, log: Log, canBeDoneFromNeutral: int -> bool)
    requires |log| > 0 && ValidValue(v) && v.previousEntry == v.currentEntry && v.windowOpen
    requires Verdict(v.windows[|v.windows| - 1], v.punishWindowCounter + 1, log, canBeDoneFromNeutral).None?
    ensures var r := CoachingStep(v, log, canBeDoneFromNeutral);
      var n := |v.windows|;
      var w := v.windows[n - 1];
      r.windowOpen && r.punishWindowCounter == v.punishWindowCounter + 1
      && r.windows[n - 1].state == Adjusted(w.state, GetOppFramesTillNextMove(log), GetBotFramesTillNextMove(log))
      && r.windows[n - 1].result == w.result && r.output == v.output + Lines(AdjustReport(w.prefix, w.state, GetOppFramesTillNextMove(log), GetBotFramesTillNextMove(log)))
  {
  }

  /** The coaching pass keeps the invariant. */
  lemma CoachingKeepsValid(v: EncValue, log: Log, canBeDoneFromNeutral: int -> bool)
    requires |log| > 0 && ValidValue(v)
    ensures ValidValue(CoachingStep(v, log, canBeDoneFromNeutral))
  {
    if v.previousEntry != v.currentEntry {
      NewWindowKeepsValid(v);
    }
    var v1 := if v.previousEntry != v.currentEntry then NewWindowStep(v) else v;
    if v1.windowOpen {
      OpenWindowKeepsValid(v1, log, canBeDoneFromNeutral);
    }
  }

  /** The frame's work on an open window keeps the invariant. */
  lemma OpenWindowKeepsValid(v: EncValue, log: Log, canBeDoneFromNeutral: int -> bool)
    requires |log| > 0 && ValidValue(v) && v.windowOpen
    ensures ValidValue(OpenWindowStep(v, log, canBeDoneFromNeutral))
  {
    var v1 := v.(punishWindowCounter := v.punishWindowCounter + 1);
    var verdict := Verdict(v1.windows[|v1.windows| - 1], v1.punishWindowCounter, log, canBeDoneFromNeutral);
    if verdict.Some? {
      ClosedCurrentKeepsValid(v1, verdict.value, true);
    }
  }

  // ---------------------------------------------------------------------------
  // update (lines 121-131)

  /** The log the passes read: the mirrored one for player one. */
  function OwnLog(g: StateValue, isPlayerOne: bool): Log
  {
    if isPlayerOne then g.mirroredStateLog else g.stateLog
  }

  /** `update(game_state)`: the three passes in order on the same log. */
  function UpdateStep(v: EncValue, log: Log, c: Context, isPlayerOne: bool, printExtended: bool): EncValue
    requires |log| > 0 && ValidValue(v)
  {
    var v1 := FrameDataStep(v, log, c, isPlayerOne, printExtended);
    FrameDataKeepsValid(v, log, c, isPlayerOne, printExtended);
    var v2 := GameStatsStep(v1, log, c, isPlayerOne);
    GameStatsKeepsValid(v1, log, c, isPlayerOne);
    CoachingStep(v2, log, c.canBeDoneFromNeutral)
  }

  /** A frame keeps the invariant. */
  lemma UpdateKeepsValid(v: EncValue, log: Log, c: Context, isPlayerOne: bool, printExtended: bool)
    requires |log| > 0 && ValidValue(v)
    ensures ValidValue(UpdateStep(v, log, c, isPlayerOne, printExtended))
  {
    FrameDataKeepsValid(v, log, c, isPlayerOne, printExtended);
    var v1 := FrameDataStep(v, log, c, isPlayerOne, printExtended);
    GameStatsKeepsValid(v1, log, c, isPlayerOne);
    CoachingKeepsValid(GameStatsStep(v1, log, c, isPlayerOne), log, c.canBeDoneFromNeutral);
  }

  /** Filing an entry that holds the numbers keeps the invariant. */
  lemma FrameDataStepWithKeepsValid(v: EncValue, log: Log, e: FrameDataEntry, ops: ReportOps)
    requires |log| > 0 && ValidValue(v) && (Commits(log, v.activeFrameWait) ==> Complete(e))
    ensures ValidValue(FrameDataStepWith(v, log, e, ops))
  {
    var wait := v.activeFrameWait;
    if BotReacting(log) && AttributionChanged(log, wait) && !KeepsWaiting(log, wait) {
      AttributionNeedsHistory(log, wait);
      var key := CommitKey(log, wait);
      var r := Filed(v, key, e, ops);
      if v.previousEntry.Some? {
        var p := v.previousEntry.value;
        assert p == key || r.frameData[p] == v.frameData[p];
      }
    }
  }

  /** The coaching pass leaves the frame data, the look-back counter and the
    * game-stats fields as they are. */
  lemma CoachingFrame(v: EncValue, log: Log, canBeDoneFromNeutral: int -> bool)
    requires |log| > 0 && ValidValue(v)
    ensures var r := CoachingStep(v, log, canBeDoneFromNeutral);
      r.frameData == v.frameData && r.activeFrameWait == v.activeFrameWait && StatsOf(r) == StatsOf(v)
      && r.matchLines == v.matchLines
  {
    var v1 := if v.previousEntry != v.currentEntry then NewWindowStep(v) else v;
    if v.previousEntry != v.currentEntry {
      NewWindowFrame(v);
    }
    if v1.windowOpen {
      OpenWindowFrame(v1, log, canBeDoneFromNeutral);
    }
  }

  /** Opening a window touches no frame-data or game-stats field. */
  lemma NewWindowFrame(v: EncValue)
    requires ValidValue(v) && v.previousEntry != v.currentEntry
    ensures var r := NewWindowStep(v);
      r.frameData == v.frameData && r.activeFrameWait == v.activeFrameWait && StatsOf(r) == StatsOf(v)
      && r.matchLines == v.matchLines
  {
  }

  /** Following an open window touches no frame-data or game-stats field. */
  lemma OpenWindowFrame(v: EncValue, log: Log, canBeDoneFromNeutral: int -> bool)
    requires |log| > 0 && v.windowOpen && |v.windows| > 0
    ensures var r := OpenWindowStep(v, log, canBeDoneFromNeutral);
      r.frameData == v.frameData && r.activeFrameWait == v.activeFrameWait && StatsOf(r) == StatsOf(v)
      && r.matchLines == v.matchLines
  {
  }

  // ---------------------------------------------------------------------------
  // get_frame_advantage and the initial state

  /** `get_frame_advantage(move_id, is_on_block)` (lines 103-108): `None` for
    * a move never seen, otherwise the stored on-block or on-normal-hit value
    * ('??' is `Some(None)`). */
  function StoredAdvantage(frameData: map<int, FrameDataEntry>, moveId: int, isOnBlock: bool): (r: Option<Field>)
    ensures r.None? <==> moveId !in frameData
  {
    if moveId in frameData then Some(if isOnBlock then frameData[moveId].onBlock else frameData[moveId].onNormalHit)
    else None
  }

  /** A move committed while the bot blocks answers the on-block query with
    * the advantage just measured, and the other moves' answers do not change. */
  lemma CommitStoresAdvantage(v: EncValue, log: Log, c: Context, isPlayerOne: bool, printExtended: bool, other: int, isOnBlock: bool)
    requires |log| > 0 && v.activeFrameWait >= 1
    requires BotReacting(log) && AttributionChanged(log, v.activeFrameWait)
    requires !KeepsWaiting(log, v.activeFrameWait)
    ensures var r := FrameDataStep(v, log, c, isPlayerOne, printExtended);
      var key := CommitKey(log, v.activeFrameWait);
      (Newest1(log).bot.IsBlocking() ==> StoredAdvantage(r.frameData, key, true) == Some(Some(AdvantageNow(log))))
      && (!Newest1(log).bot.IsBlocking() && !Newest1(log).bot.IsGettingCounterHit() ==>
            StoredAdvantage(r.frameData, key, false) == Some(Some(AdvantageNow(log))))
      && (other != key ==> StoredAdvantage(r.frameData, other, isOnBlock) == StoredAdvantage(v.frameData, other, isOnBlock))
  {
    FrameDataCommit(v, log, c, isPlayerOne, printExtended);
  }

  /** The state `__init__` leaves (lines 17-37); player two keeps no stats. */
  function InitialValue(isPlayerOne: bool, stats: StatDict): (v: EncValue)
    ensures ValidValue(v)
  {
    EncValue(map[], 1, None, None, [], false, 0, None, [], false, true,
             if isPlayerOne then stats else EMPTY_STATS, [], [])
  }

  /** A window's fields, as a value. */
  function View(w: PunishWindow): WindowView
    reads w
  {
    WindowView(w.prefix, w.moveId, w.name, w.activeFrames, w.State(), w.result)
  }

  /** The current window, if any, is the newest one, and every other window
    * has been closed. */
  predicate WindowsValid(current: PunishWindow?, ws: seq<PunishWindow>, closed: nat)
  {
    |ws| == closed + (if current != null then 1 else 0)
    && (current != null ==> current == ws[|ws| - 1])
  }

  // ---------------------------------------------------------------------------
  // The object

  /** The frame-data state: the entries, the look-back counter and the current entry. */
  datatype FramePart = FramePart(frameData: map<int, FrameDataEntry>, activeFrameWait: nat, currentEntry: Option<int>)

  /** The frame-data part of a value. */
  function FramesOf(v: EncValue): FramePart
  {
    FramePart(v.frameData, v.activeFrameWait, v.currentEntry)
  }

  /** The coaching state: the previous entry and the punish windows. */
  datatype CoachPart = CoachPart(
    previousEntry: Option<int>, closedViews: seq<WindowView>, current: PunishWindow?, currentView: Option<WindowView>,
    windows: seq<PunishWindow>, punishWindowCounter: int)

  /** The game-stats state: the events and the match bookkeeping. */
  datatype StatsPart = StatsPart(
    currentGameEvent: Option<OpenEvent>, gameEvents: seq<GameStatEvent>, isMatchRecorded: bool,
    wasFightBeingReacquired: bool, stats: StatDict)

  /** The game-stats part of a value. */
  function StatsOf(v: EncValue): StatsPart
  {
    StatsPart(v.currentGameEvent, v.gameEvents, v.isMatchRecorded, v.wasFightBeingReacquired, v.stats)
  }

  class TekkenEncyclopedia {
    const isPlayerOne: bool
    const printExtended: bool
    var frameData: map<int, FrameDataEntry>
    var gameEvents: seq<GameStatEvent>
    var currentGameEvent: Option<OpenEvent>
    var activeFrameWait: nat
    var punishWindowCounter: int
    var wasFightBeingReacquired: bool
    var isMatchRecorded: bool
    var statDict: StatDict
    var currentPunishWindow: PunishWindow?
    var punishWindows: seq<PunishWindow>
    var currentFrameDataEntry: Option<int>
    var previousFrameDataEntry: Option<int>

    /** The views of the closed windows, all of `punish_windows` but the
      * current one, as each was closed. */
    ghost var closedViews: seq<WindowView>

    /** The state as a value. The object keeps no record of what it writes:
      * its methods return the lines, so `output` and `matchLines` are empty. */
    ghost function Value(): EncValue
      reads this, currentPunishWindow
    {
      EncValue(frameData, activeFrameWait, currentFrameDataEntry, previousFrameDataEntry,
               closedViews + (if currentPunishWindow != null then [View(currentPunishWindow)] else []),
               currentPunishWindow != null, punishWindowCounter, currentGameEvent, gameEvents, isMatchRecorded,
               wasFightBeingReacquired, statDict, [], [])
    }

    ghost predicate Valid()
      reads this, currentPunishWindow
    {
      activeFrameWait >= 1
      && EntriesValid(frameData, currentFrameDataEntry, previousFrameDataEntry)
      && EventsValid(gameEvents)
      && WindowsValid(currentPunishWindow, punishWindows, |closedViews|)
    }

    /** The frame-data fields. */
    ghost function Frames(): FramePart
      reads this
    {
      FramePart(frameData, activeFrameWait, currentFrameDataEntry)
    }

    /** The coaching fields. */
    ghost function Coaching(): CoachPart
      reads this, currentPunishWindow
    {
      CoachPart(previousFrameDataEntry, closedViews, currentPunishWindow,
                (if currentPunishWindow != null then Some(View(currentPunishWindow)) else None),
                punishWindows, punishWindowCounter)
    }

    /** The game-stats fields. */
    ghost function Stats(): StatsPart
      reads this
    {
      StatsPart(currentGameEvent, gameEvents, isMatchRecorded, wasFightBeingReacquired, statDict)
    }

    /** The recorded views are those of the window objects: a closed window
      * is not changed again. */
    ghost predicate ClosedViewsAgree()
      reads this, set i | 0 <= i < |punishWindows| :: punishWindows[i]
    {
      |closedViews| <= |punishWindows|
      && forall i :: 0 <= i < |closedViews| ==> closedViews[i] == View(punishWindows[i])
    }

    /** `TekkenEncyclopedia(is_player_one, print_extended_frame_data)`; player
      * one loads the match file, `matchFile` (`None` when there is none). */
    constructor(isPlayerOne: bool, printExtended: bool, matchFile: Option<seq<string>>)
      requires isPlayerOne ==> LoadedStats(matchFile).Some?
      ensures this.isPlayerOne == isPlayerOne && this.printExtended == printExtended
      ensures Valid()
      ensures Value() == InitialValue(isPlayerOne, if isPlayerOne then LoadedStats(matchFile).value else EMPTY_STATS)
    {
      this.isPlayerOne := isPlayerOne;
      this.printExtended := printExtended;
      frameData := map[];
      gameEvents := [];
      currentGameEvent := None;
      activeFrameWait := 1;
      punishWindowCounter := 0;
      wasFightBeingReacquired := true;
      isMatchRecorded := false;
      statDict := if isPlayerOne then LoadedStats(matchFile).value else EMPTY_STATS;
      currentPunishWindow := null;
      punishWindows := [];
      currentFrameDataEntry := None;
      previousFrameDataEntry := None;
      closedViews := [];
    }

    /** `get_frame_advantage(move_id, is_on_block)`. */
    function GetFrameAdvantage(moveId: int, isOnBlock: bool): (r: Option<Field>)
      reads this
      ensures r == StoredAdvantage(frameData, moveId, isOnBlock)
    {
      if moveId in frameData then
        if isOnBlock then Some(frameData[moveId].onBlock) else Some(frameData[moveId].onNormalHit)
      else None
    }

    /** `close_punish_window(result, do_close_frame_data_entries)` (lines 218-223). */
    method ClosePunishWindow(result: PunishResult, closeEntries: bool) returns (written: seq<Report>)
      requires Valid() && currentPunishWindow != null
      modifies this, currentPunishWindow
      ensures punishWindows == old(punishWindows) && Valid()
      ensures var r := ClosedCurrent(old(Value()), result, closeEntries);
        Value() == r.(output := []) && written == r.output
    {
      ghost var before := Value();
      var line := currentPunishWindow.CloseWindow(result);
      written := Lines(line);
      closedViews := closedViews + [View(currentPunishWindow)];
      currentPunishWindow := null;
      if closeEntries {
        previousFrameDataEntry := None;
        currentFrameDataEntry := None;
      }
      assert Value().windows == ClosedCurrent(before, result, closeEntries).windows;
    }

    /** `update(game_state)` (lines 121-131): player one's passes read the
      * mirrored log, between two flips; `gs` is left as it was found, `e` is
      * the entry a commit files and `appended` what is appended to the
      * match file. */
    method Update(gs: TekkenGameState, c: Context) returns (written: seq<Report>, appended: seq<string>, ghost e: FrameDataEntry)
      requires Valid() && gs.futureStateLog.None? && |OwnLog(gs.Value(), isPlayerOne)| > 0
      modifies this, gs, currentPunishWindow
      ensures gs.Value() == old(gs.Value())
      ensures var log, wait := OwnLog(old(gs.Value()), isPlayerOne), old(activeFrameWait);
        Commits(log, wait) ==> CommitFacts(e, EntryBefore(old(frameData), CommitKey(log, wait), printExtended), log, wait)
      ensures var log := OwnLog(old(gs.Value()), isPlayerOne);
        var f := FrameDataStepWith(old(Value()), log, e, c.ops);
        var r := StatsStep(old(Stats()), log, c, isPlayerOne);
        frameData == f.frameData && activeFrameWait == f.activeFrameWait
        && Stats() == r.after && appended == r.matchLines
      ensures Valid()
    {
      ghost var log := OwnLog(gs.Value(), isPlayerOne);
      FlipInvolution(gs.Value());
      if isPlayerOne {
        gs.FlipMirror();
      }
      var w1, w2, w3;
      w1, e := DetermineFrameData(gs, c);
      w2, appended := DetermineGameStats(gs, c);
      ghost var mid := Value();
      w3 := DetermineCoachingTips(gs.stateLog, c.canBeDoneFromNeutral);
      CoachingFrame(mid, log, c.canBeDoneFromNeutral);
      if isPlayerOne {
        gs.FlipMirror();
      }
      written := w1 + w2 + w3;
    }

    /** `determine_frame_data(game_state)` (lines 422-586) on the game state
      * `gs`, which is left as it was found; `e` is the entry a commit files. */
    method DetermineFrameData(gs: TekkenGameState, c: Context) returns (written: seq<Report>, ghost e: FrameDataEntry)
      requires Valid() && gs.futureStateLog.None? && |gs.stateLog| > 0
      modifies this, gs
      ensures gs.Value() == old(gs.Value())
      ensures var log, wait := old(gs.stateLog), old(activeFrameWait);
        Commits(log, wait) ==> CommitFacts(e, EntryBefore(old(frameData), CommitKey(log, wait), printExtended), log, wait)
      ensures var r := FrameDataStepWith(old(Value()), old(gs.stateLog), e, c.ops);
        frameData == r.frameData && activeFrameWait == r.activeFrameWait && currentFrameDataEntry == r.currentEntry
        && written == r.output
      ensures Coaching() == old(Coaching()) && Stats() == old(Stats())
      ensures Valid()
    {
      written := [];
      e := NewEntry(printExtended);
      var log := gs.stateLog;
      var wait := activeFrameWait;
      if BotReacting(log) && (DidBotIdChangeXMovesAgo(log, wait) || DidBotTimerInterruptXMovesAgo(log, wait)) {
        AttributionNeedsHistory(log, wait);
        written, e := AttributeHit(gs, c);
      }
    }

    /** The pass once the bot reacts to a change `active_frame_wait` frames
      * back (lines 441-586): wait one frame more, or commit. */
    method AttributeHit(gs: TekkenGameState, c: Context) returns (written: seq<Report>, e: FrameDataEntry)
      requires Valid() && gs.futureStateLog.None? && 0 < activeFrameWait < |gs.stateLog|
      modifies this, gs
      ensures gs.Value() == old(gs.Value())
      ensures var log, wait := old(gs.stateLog), old(activeFrameWait);
        if KeepsWaiting(log, wait) then
          frameData == old(frameData) && activeFrameWait == wait + 1 && currentFrameDataEntry == old(currentFrameDataEntry)
          && written == []
        else
          CommitFacts(e, EntryBefore(old(frameData), CommitKey(log, wait), printExtended), log, wait)
          && frameData == old(frameData)[CommitKey(log, wait) := e] && activeFrameWait == 1
          && currentFrameDataEntry == Some(CommitKey(log, wait)) && written == [EntryRow(e, c.ops)]
      ensures Coaching() == old(Coaching()) && Stats() == old(Stats())
      ensures Valid()
    {
      var wait := activeFrameWait;
      var waits := WaitDecision(gs, wait);
      if waits {
        activeFrameWait := wait + 1;
        written, e := [], NewEntry(printExtended);
      } else {
        written, e := CommitEntry(gs, c);
        RollBackAndReturn(gs, wait);
      }
    }

    /** Whether to wait one frame more, read with the log rolled back `wait`
      * frames (lines 452-465); `gs` ends where it started. */
    static method WaitDecision(gs: TekkenGameState, wait: nat) returns (waits: bool)
      requires gs.futureStateLog.None? && 0 < wait < |gs.stateLog|
      modifies gs
      ensures gs.Value() == old(gs.Value())
      ensures waits == KeepsWaiting(old(gs.stateLog), wait)
    {
      var log := gs.stateLog;
      var bot := Newest1(log).bot;
      var recoveringBeforeLongMove := bot.recovery - bot.moveTimer == 0;
      TravelRoundTrip(gs.Value(), wait);
      var ok := gs.BackToTheFuture(wait);
      waits := !(wait >= Newest1(gs.stateLog).opp.GetActiveFrames() + 1) && !recoveringBeforeLongMove;
      ok := gs.ReturnToPresent();
    }

    /** The rollback of line 583 and the return of line 586, with nothing
      * read in between. */
    static method RollBackAndReturn(gs: TekkenGameState, wait: nat)
      requires gs.futureStateLog.None? && 0 < wait < |gs.stateLog|
      modifies gs
      ensures gs.Value() == old(gs.Value())
    {
      TravelRoundTrip(gs.Value(), wait);
      var ok := gs.BackToTheFuture(wait);
      ok := gs.ReturnToPresent();
    }

    /** The commit of an entry (lines 466-584): the entry for the opponent's
      * move `active_frame_wait` frames back is filled in, written out and
      * made current (the rollback of line 583 is the caller's). */
    method CommitEntry(gs: TekkenGameState, c: Context) returns (written: seq<Report>, e: FrameDataEntry)
      requires Valid() && gs.futureStateLog.None? && 0 < activeFrameWait < |gs.stateLog|
      modifies this, gs
      ensures gs.Value() == old(gs.Value())
      ensures var log, wait := old(gs.stateLog), old(activeFrameWait);
        CommitFacts(e, EntryBefore(old(frameData), CommitKey(log, wait), printExtended), log, wait)
        && frameData == old(frameData)[CommitKey(log, wait) := e] && activeFrameWait == 1
        && currentFrameDataEntry == Some(CommitKey(log, wait)) && written == [EntryRow(e, c.ops)]
      ensures Coaching() == old(Coaching()) && Stats() == old(Stats())
      ensures Valid()
    {
      var wait := activeFrameWait;
      var key, entry := ReadEntry(gs, c, wait);
      e := entry;
      assert Committed(frameData[key := e], key);
      if previousFrameDataEntry.Some? {
        var p := previousFrameDataEntry.value;
        assert p == key || frameData[key := e][p] == frameData[p];
      }
      FileEntry(key, e);
      written := [EntryRow(e, c.ops)];
    }

    /** The entry a commit files, read with the log rolled back `wait` frames,
      * then at the present (lines 466-577); `gs` ends where it started. */
    method ReadEntry(gs: TekkenGameState, c: Context, wait: nat) returns (key: int, e: FrameDataEntry)
      requires gs.futureStateLog.None? && 0 < wait < |gs.stateLog|
      modifies gs
      ensures gs.Value() == old(gs.Value())
      ensures key == CommitKey(old(gs.stateLog), wait)
      ensures CommitFacts(e, EntryBefore(frameData, key, printExtended), old(gs.stateLog), wait)
    {
      ghost var before0 := EntryBefore(frameData, CommitKey(gs.stateLog, wait), printExtended);
      CommittedEntryFacts(before0, gs.stateLog, wait, c, isPlayerOne);
      ghost var present := gs.Value();
      var log := gs.stateLog;
      TravelRoundTrip(present, wait);
      var currentActiveFrame := GetLastActiveFrameHitWasOn(log, wait);
      var ok := gs.BackToTheFuture(wait);
      assert gs.Value() == Entered(present, wait).value;
      var past := gs.stateLog;
      key := Newest1(past).opp.moveId;
      var before := EntryBefore(frameData, key, printExtended);
      e := ReadPastFields(before.(currentActiveFrame := Some(currentActiveFrame)), past, c);
      ok := gs.ReturnToPresent();
      assert gs.Value() == present;
      e := ReadPresentFields(e, gs.stateLog, c, isPlayerOne);
    }

    /** Files `e` under `key`, makes it the current entry and resets the
      * look-back counter (lines 578-584). */
    method FileEntry(key: int, e: FrameDataEntry)
      modifies this
      ensures frameData == old(frameData)[key := e] && currentFrameDataEntry == Some(key) && activeFrameWait == 1
      ensures Coaching() == old(Coaching()) && Stats() == old(Stats())
    {
      frameData := frameData[key := e];
      currentFrameDataEntry := Some(key);
      activeFrameWait := 1;
    }

    /** The reads made while the log is rolled back to the hit (lines 474-540). */
    static method ReadPastFields(e: FrameDataEntry, past: Log, c: Context) returns (r: FrameDataEntry)
      requires |past| > 0
      ensures r == PastFields(e, past, c)
    {
      var opp := Newest1(past).opp;
      var startup, damage := opp.startup, opp.attackDamage;
      if damage == 0 && startup == 0 {
        var latest := GetOppLatestNonZeroStartupAndDamage(past);
        startup, damage := latest.0, latest.1;
      }
      var reports := GetOppTechnicalStates(past, startup - 1);
      var tracking := GetOppTrackingType(past, startup);
      r := e.(moveId := Some(opp.moveId), startup := Some(startup), damage := Some(damage),
              activeFrames := Some(opp.GetActiveFrames()), hitType := HitTypeName(opp),
              recovery := Some(opp.recovery), input := c.moveStringOf(past),
              technicalStateReports := reports, tracking := tracking);
    }

    /** The reads made back at the present (lines 544-577): the measured
      * advantage goes under on-block, on-counter-hit or on-normal-hit. */
    static method ReadPresentFields(e: FrameDataEntry, log: Log, c: Context, isPlayerOne: bool) returns (r: FrameDataEntry)
      requires |log| > 0
      ensures r == PresentFields(e, log, c, isPlayerOne)
    {
      var timeTillRecoveryOpp := GetOppFramesTillNextMove(log);
      var timeTillRecoveryBot := GetBotFramesTillNextMove(log);
      var advantage := timeTillRecoveryBot - timeTillRecoveryOpp;
      var onBlock, onCounterHit, onNormalHit := e.onBlock, e.onCounterHit, e.onNormalHit;
      var bot := Newest1(log).bot;
      if bot.IsBlocking() {
        onBlock := Some(advantage);
      } else if bot.IsGettingCounterHit() {
        onCounterHit := Some(advantage);
      } else {
        onNormalHit := Some(advantage);
      }
      r := e.(throwTech := Some(GetBotThrowTech(log, 1)),
              currentFrameAdvantage := WithPlusIfNeeded(Some(advantage)),
              onBlock := onBlock, onCounterHit := onCounterHit, onNormalHit := onNormalHit,
              hitRecovery := Some(timeTillRecoveryOpp), blockRecovery := Some(timeTillRecoveryBot),
              moveStr := c.moveNameOf(log), prefix := GetPlayerString(isPlayerOne, false));
    }

    /** `determine_game_stats(game_state)` (lines 225-393) on the game state
      * `gs`, which is left as it was found; `appended` is what is appended
      * to the match file. */
    method DetermineGameStats(gs: TekkenGameState, c: Context) returns (written: seq<Report>, appended: seq<string>)
      requires Valid() && gs.futureStateLog.None? && |gs.stateLog| > 0
      modifies this, gs
      ensures gs.Value() == old(gs.Value())
      ensures var r := StatsStep(old(Stats()), old(gs.stateLog), c, isPlayerOne);
        Stats() == r.after && written == r.output && appended == r.matchLines
      ensures Frames() == old(Frames()) && Coaching() == old(Coaching())
      ensures Valid()
    {
      StatsKeepsValid(Stats(), gs.stateLog, c, isPlayerOne);
      written, appended := StatsPass(gs, c);
    }

    /** The work of `DetermineGameStats` on the game-stats fields. */
    method StatsPass(gs: TekkenGameState, c: Context) returns (written: seq<Report>, appended: seq<string>)
      requires gs.futureStateLog.None? && |gs.stateLog| > 0
      modifies this, gs
      ensures gs.Value() == old(gs.Value())
      ensures var r := StatsStep(old(Stats()), old(gs.stateLog), c, isPlayerOne);
        Stats() == r.after && written == r.output && appended == r.matchLines
      ensures Frames() == old(Frames()) && previousFrameDataEntry == old(previousFrameDataEntry)
        && closedViews == old(closedViews) && currentPunishWindow == old(currentPunishWindow)
        && punishWindows == old(punishWindows) && punishWindowCounter == old(punishWindowCounter)
    {
      var log := gs.stateLog;
      written := OpenOrCloseEvent(gs);
      appended := [];
      if WasFightReset(log) {
        if isPlayerOne {
          var more, lines := RecordMatch(log, c);
          written, appended := written + more, lines;
        }
        gameEvents := [];
      }
      wasFightBeingReacquired := c.reacquireNames;
    }

    /** The open and close of combo events (lines 226-325). */
    method OpenOrCloseEvent(gs: TekkenGameState) returns (written: seq<Report>)
      requires gs.futureStateLog.None? && |gs.stateLog| > 0
      modifies this, gs
      ensures gs.Value() == old(gs.Value())
      ensures var r := Events(old(currentGameEvent), old(gameEvents), old(gs.stateLog), isPlayerOne);
        currentGameEvent == r.current && gameEvents == r.events && written == r.output
      ensures isMatchRecorded == old(isMatchRecorded) && wasFightBeingReacquired == old(wasFightBeingReacquired)
        && statDict == old(statDict)
      ensures Frames() == old(Frames()) && previousFrameDataEntry == old(previousFrameDataEntry)
        && closedViews == old(closedViews) && currentPunishWindow == old(currentPunishWindow)
        && punishWindows == old(punishWindows) && punishWindowCounter == old(punishWindowCounter)
    {
      if currentGameEvent.None? {
        written := FollowNoEvent(gs);
      } else {
        written := FollowOpenEvent(gs.stateLog);
      }
    }

    /** `WhenNoEvent` on the object; the log is rolled back to classify a combo. */
    method FollowNoEvent(gs: TekkenGameState) returns (written: seq<Report>)
      requires gs.futureStateLog.None? && |gs.stateLog| > 0
      modifies this, gs
      ensures gs.Value() == old(gs.Value())
      ensures var r := WhenNoEvent(old(gameEvents), old(gs.stateLog), isPlayerOne);
        currentGameEvent == r.current && gameEvents == r.events && written == r.output
      ensures isMatchRecorded == old(isMatchRecorded) && wasFightBeingReacquired == old(wasFightBeingReacquired)
        && statDict == old(statDict)
      ensures Frames() == old(Frames()) && previousFrameDataEntry == old(previousFrameDataEntry)
        && closedViews == old(closedViews) && currentPunishWindow == old(currentPunishWindow)
        && punishWindows == old(punishWindows) && punishWindowCounter == old(punishWindowCounter)
    {
      if DidOppComboCounterJustStartXFramesAgo(gs.stateLog, 4) {
        written := StartComboEvent(gs);
      } else {
        written := RecordArmoredHit(gs.stateLog);
      }
    }

    /** A combo that started 4 frames ago opens its event (lines 228-277). */
    method StartComboEvent(gs: TekkenGameState) returns (written: seq<Report>)
      requires gs.futureStateLog.None? && |gs.stateLog| > 4
      modifies this, gs
      ensures gs.Value() == old(gs.Value())
      ensures currentGameEvent == Some(OpenedEvent(old(gs.stateLog), isPlayerOne)) && written == []
      ensures Stats() == old(Stats()).(currentGameEvent := currentGameEvent)
      ensures Frames() == old(Frames()) && previousFrameDataEntry == old(previousFrameDataEntry)
        && closedViews == old(closedViews) && currentPunishWindow == old(currentPunishWindow)
        && punishWindows == old(punishWindows) && punishWindowCounter == old(punishWindowCounter)
    {
      written := [];
      var event := ReadComboStart(gs, isPlayerOne);
      currentGameEvent := Some(event);
    }

    /** Without a combo start, damage taken on the frame 5 back is an armored
      * hit, recorded as a closed one-hit event at once (lines 279-300). */
    method RecordArmoredHit(log: Log) returns (written: seq<Report>)
      requires |log| > 0
      modifies this
      ensures var damage := DidBotJustTakeDamage(log, 5);
        currentGameEvent == None
        && (damage > 0 ==> var closed := ArmoredEvent(log, isPlayerOne, damage, |old(gameEvents)|);
                            gameEvents == old(gameEvents) + [closed.0] && written == [Plain(closed.1)])
        && (damage <= 0 ==> gameEvents == old(gameEvents) && written == [])
      ensures isMatchRecorded == old(isMatchRecorded) && wasFightBeingReacquired == old(wasFightBeingReacquired)
        && statDict == old(statDict)
      ensures Frames() == old(Frames()) && previousFrameDataEntry == old(previousFrameDataEntry)
        && closedViews == old(closedViews) && currentPunishWindow == old(currentPunishWindow)
        && punishWindows == old(punishWindows) && punishWindowCounter == old(punishWindowCounter)
    {
      written := [];
      currentGameEvent := None;
      var botDamageTaken := DidBotJustTakeDamage(log, 5);
      if botDamageTaken > 0 {
        var closed := ArmoredEvent(log, isPlayerOne, botDamageTaken, |gameEvents|);
        gameEvents := gameEvents + [closed.0];
        written := [Plain(closed.1)];
      }
    }

    /** `WhenEventOpen` on the object. */
    method FollowOpenEvent(log: Log) returns (written: seq<Report>)
      requires |log| > 0 && currentGameEvent.Some?
      modifies this
      ensures var r := WhenEventOpen(old(currentGameEvent).value, old(gameEvents), log);
        currentGameEvent == r.current && gameEvents == r.events && written == r.output
      ensures isMatchRecorded == old(isMatchRecorded) && wasFightBeingReacquired == old(wasFightBeingReacquired)
        && statDict == old(statDict)
      ensures Frames() == old(Frames()) && previousFrameDataEntry == old(previousFrameDataEntry)
        && closedViews == old(closedViews) && currentPunishWindow == old(currentPunishWindow)
        && punishWindows == old(punishWindows) && punishWindowCounter == old(punishWindowCounter)
    {
      written := [];
      if DidOppComboCounterJustEndXFramesAgo(log, 4) || WasFightReset(log) {
        var closed := CloseEntry(currentGameEvent.value, Newest1(log).timerFramesRemaining,
                                 GetOppComboHitsXFramesAgo(log, 5), GetOppComboDamageXFramesAgo(log, 5),
                                 GetOppJuggleDamageXFramesAgo(log, 5), |gameEvents|);
        gameEvents := gameEvents + [closed.0];
        written := [Plain(closed.1)];
        currentGameEvent := None;
      }
    }

    /** The event opened by a combo that started 4 frames ago (lines 233-277):
      * classified with the log rolled back 4 frames, timed at the present. */
    static method ReadComboStart(gs: TekkenGameState, isPlayerOne: bool) returns (event: OpenEvent)
      requires gs.futureStateLog.None? && |gs.stateLog| > 4
      modifies gs
      ensures gs.Value() == old(gs.Value())
      ensures event == OpenedEvent(old(gs.stateLog), isPlayerOne)
    {
      ghost var present := gs.Value();
      TravelRoundTrip(present, 4);
      var ok := gs.BackToTheFuture(4);
      var past := gs.stateLog;
      var comboCounterDamage := GetOppComboDamageXFramesAgo(past, 1);
      var hit := ClassifyComboAt(past);
      ok := gs.ReturnToPresent();
      event := OpenEvent(Newest1(gs.stateLog).timerFramesRemaining, GetPlayerString(isPlayerOne, true), hit,
                         comboCounterDamage);
    }

    /** The classifier's `if`/`elif` chain on the log `past` (lines 239-267). */
    static method ClassifyComboAt(past: Log) returns (hit: EntryType)
      requires |past| > 0
      ensures hit == ClassifyComboStart(ComboContextAt(past))
    {
      var g := Newest1(past);
      var tookDamageDuringStartup := DidOppTakeDamageDuringStartup(past);
      if g.opp.IsAttackUnblockable() {
        hit := EntryType.UNBLOCKABLE;
      } else if g.opp.IsAttackAntiair() {
        hit := EntryType.ANTIAIR;
      } else if g.opp.IsInThrowing() {
        hit := EntryType.THROW;
      } else if tookDamageDuringStartup {
        hit := EntryType.POWER_CRUSHED;
      } else if DidBotStartGettingPunishedXFramesAgo(past, 1) {
        hit := EntryType.PUNISH;
      } else if g.bot.IsGettingCounterHit() {
        hit := EntryType.COUNTER;
      } else if g.bot.IsGettingGroundHit() {
        hit := EntryType.GROUND;
      } else if GetBotStartupXFramesAgo(past, 2) > 0 {
        hit := EntryType.WHIFF_PUNISH;
      } else if g.opp.IsAttackLow() {
        hit := EntryType.LOW;
      } else if g.opp.IsAttackMid() && g.bot.IsTechnicalCrouch() {
        hit := EntryType.MID;
      } else {
        hit := EntryType.NO_BLOCK;
      }
    }

    /** Player one's bookkeeping of a fight reset (lines 330-383): the matchup
      * record after names are reacquired, the round line, and the match
      * result once someone has three wins; `appended` is what is appended to
      * the match file. */
    method RecordMatch(log: Log, c: Context) returns (written: seq<Report>, appended: seq<string>)
      requires |log| > 0
      modifies this
      ensures var r := Bookkeeping(old(statDict), old(isMatchRecorded), old(wasFightBeingReacquired), log, c);
        isMatchRecorded == r.isMatchRecorded && statDict == r.stats && written == r.output && appended == r.matchLines
      ensures currentGameEvent == old(currentGameEvent) && gameEvents == old(gameEvents)
        && wasFightBeingReacquired == old(wasFightBeingReacquired)
      ensures Frames() == old(Frames()) && previousFrameDataEntry == old(previousFrameDataEntry)
        && closedViews == old(closedViews) && currentPunishWindow == old(currentPunishWindow)
        && punishWindows == old(punishWindows) && punishWindowCounter == old(punishWindowCounter)
    {
      var g := Newest1(log);
      written := [];
      if !c.reacquireNames && wasFightBeingReacquired {
        isMatchRecorded := false;
        written := Plains(MatchupRecord(statDict, g));
      }
      var roundNumber := g.opp.wins + g.bot.wins + 1;
      written := written + [Plain(RoundLine(roundNumber))];
      var more;
      more, appended := RecordResult(g, c.timestamp);
      written := written + more;
    }

    /** The match result once someone has three wins (lines 341-383). */
    method RecordResult(g: GameSnapshot, timestamp: string) returns (written: seq<Report>, appended: seq<string>)
      modifies this
      ensures var r := MatchRecord(old(statDict), old(isMatchRecorded), g, timestamp);
        isMatchRecorded == r.isMatchRecorded && statDict == r.stats && written == r.output && appended == r.matchLines
      ensures currentGameEvent == old(currentGameEvent) && gameEvents == old(gameEvents)
        && wasFightBeingReacquired == old(wasFightBeingReacquired)
      ensures Frames() == old(Frames()) && previousFrameDataEntry == old(previousFrameDataEntry)
        && closedViews == old(closedViews) && currentPunishWindow == old(currentPunishWindow)
        && punishWindows == old(punishWindows) && punishWindowCounter == old(punishWindowCounter)
    {
      written, appended := [], [];
      if (g.bot.wins == 3 || g.opp.wins == 3) && !isMatchRecorded {
        isMatchRecorded := true;
        var s := Sides(g);
        var result := MatchResult(s.1, s.3);
        var matchResult := MatchResultLine(result, s.0, g.opponentName, s.2, s.1, s.3, timestamp);
        written := [Plain(matchResult)];
        statDict := AddedStat(statDict, Stat(result, s.0, g.opponentName, s.2));
        appended := [matchResult + NEWLINE];
      }
    }

    /** `determine_coaching_tips(game_state)` (lines 133-216) on the log `log`. */
    method DetermineCoachingTips(log: Log, canBeDoneFromNeutral: int -> bool) returns (written: seq<Report>)
      requires Valid() && |log| > 0
      modifies this, currentPunishWindow
      ensures var r := CoachingStep(old(Value()), log, canBeDoneFromNeutral);
        Value() == r.(output := []) && written == r.output
      ensures Valid()
    {
      ghost var v := old(Value());
      written := [];
      if previousFrameDataEntry != currentFrameDataEntry {
        written := OpenWindowForNewEntry();
      }
      ghost var v1 := if v.previousEntry != v.currentEntry then NewWindowStep(v) else v;
      assert Value() == v1.(output := []) && written == v1.output;
      if currentPunishWindow != null {
        var more := FollowOpenWindow(log, canBeDoneFromNeutral);
        OpenWindowStepOutput(v1, log, canBeDoneFromNeutral);
        written := written + more;
      }
    }

    /** The window for a new current entry (lines 134-158): the open window,
      * if any, is closed with `NO_WINDOW` keeping the entries. */
    method OpenWindowForNewEntry() returns (written: seq<Report>)
      requires Valid() && previousFrameDataEntry != currentFrameDataEntry
      modifies this, currentPunishWindow
      ensures var r := NewWindowStep(old(Value()));
        Value() == r.(output := []) && written == r.output
      ensures Valid() && fresh(currentPunishWindow)
    {
      NewWindowKeepsValid(old(Value()));
      ghost var v1 := old(Value()).(previousEntry := currentFrameDataEntry);
      previousFrameDataEntry := currentFrameDataEntry;
      assert Value() == v1;
      written := [];
      if currentPunishWindow != null {
        written := ClosePunishWindow(PunishResult.NO_WINDOW, false);
      }
      PushWindow();
    }

    /** The window for the current entry, made current (lines 147-158). */
    method PushWindow()
      requires Valid() && currentPunishWindow == null && currentFrameDataEntry.Some?
      modifies this
      ensures Value() == PushedWindow(old(Value())) && fresh(currentPunishWindow)
      ensures punishWindows == old(punishWindows) + [currentPunishWindow] && closedViews == old(closedViews)
    {
      var e := frameData[currentFrameDataEntry.value];
      var w := new PunishWindow(e.prefix, e.moveId.value, e.input, e.hitRecovery.value, e.blockRecovery.value,
                                e.activeFrames.value);
      assert View(w) == OpenedWindow(e);
      currentPunishWindow := w;
      punishWindows := punishWindows + [w];
      punishWindowCounter := 0;
    }

    /** The frame's work on the open window (lines 159-209): count the frame,
      * close the window on a verdict, else adjust it. */
    method FollowOpenWindow(log: Log, canBeDoneFromNeutral: int -> bool) returns (written: seq<Report>)
      requires Valid() && currentPunishWindow != null && |log| > 0
      modifies this, currentPunishWindow
      ensures var r := OpenWindowStep(old(Value()), log, canBeDoneFromNeutral);
        Value() == r.(output := []) && written == r.output
      ensures Valid() && punishWindows == old(punishWindows)
    {
      punishWindowCounter := punishWindowCounter + 1;
      var verdict := JudgeWindow(log, canBeDoneFromNeutral);
      written := [];
      if verdict.Some? {
        written := ClosePunishWindow(verdict.value, true);
      }
      if currentPunishWindow != null {
        written := AdjustCurrentWindow(GetOppFramesTillNextMove(log), GetBotFramesTillNextMove(log));
      }
    }

    /** The verdict on the open window this frame (lines 164-205), if any. */
    method JudgeWindow(log: Log, canBeDoneFromNeutral: int -> bool) returns (verdict: Option<PunishResult>)
      requires currentPunishWindow != null && |log| > 0
      ensures verdict == Verdict(View(currentPunishWindow), punishWindowCounter, log, canBeDoneFromNeutral)
    {
      var wasBlockPunish := DidOppStartGettingPunishedXFramesAgo(log, 1) || DidOppStartGettingHitXFramesAgo(log, 1);
      verdict := None;
      if wasBlockPunish {
        var leeway := OppFramesUntilRecoveryXFramesAgo(log, 2) - 1;
        var frameAdvantage := -1 * currentPunishWindow.GetFrameAdvantage();
        verdict := Some(BlockPunishResult(frameAdvantage, leeway));
      } else if HasOppReturnedToNeutralFromMoveId(log, currentPunishWindow.moveId, canBeDoneFromNeutral)
             && punishWindowCounter >= currentPunishWindow.hitRecovery {
        verdict := Some(NeutralResult(currentPunishWindow.GetFrameAdvantage()));
      }
    }

    /** `adjust_window` on the open window (lines 206-209). */
    method AdjustCurrentWindow(hitRecovery: int, blockRecovery: int) returns (written: seq<Report>)
      requires Valid() && currentPunishWindow != null
      modifies currentPunishWindow
      ensures var r := AdjustedCurrent(old(Value()), hitRecovery, blockRecovery);
        Value() == r.(output := []) && written == r.output
      ensures Valid()
    {
      var line := currentPunishWindow.AdjustWindow(hitRecovery, blockRecovery);
      written := Lines(line);
    }
  }
}
