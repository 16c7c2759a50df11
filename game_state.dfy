/**
 * The temporal game-state engine of tekken_game_state.py: a capped log of
 * per-frame snapshots with a parallel mirrored log, single-level "time travel"
 * that hides the newest frames, and the read-only queries and backward scans
 * the analysis passes ask of the log.
 *
 * The mutable object is the class `TekkenGameState`. Each of its mutating
 * methods is stated against a pure transition on `StateValue` (`Appended`,
 * `Flipped`, `Entered`, `Exited`, `Updated`), and the promised properties are
 * lemmas about those transitions. The queries are functions of `state_log`.
 */
module GameState {
  import opened Wrappers
  import opened PyStrings
  import opened MoveInfoEnums
  import opened BotSnapshots
  import opened GameSnapshots

  /** `len(self.state_log) > 300` evicts the oldest frame. */
  const MAX_LOG_LENGTH: nat := 300

  type Log = seq<GameSnapshot>

  function Min(a: int, b: int): int { if a <= b then a else b }
  function Max(a: int, b: int): int { if a >= b then a else b }

  /** `mirrored[i]` is the mirror image of `log[i]` for every frame. */
  predicate Aligned(log: Log, mirrored: Log)
  {
    |log| == |mirrored| && forall i :: 0 <= i < |log| ==> mirrored[i] == FromMirrored(log[i])
  }

  /** Alignment holds in both directions, since mirroring is an involution. */
  lemma AlignedSymmetric(log: Log, mirrored: Log)
    requires Aligned(log, mirrored)
    ensures Aligned(mirrored, log)
  {
    forall i | 0 <= i < |log|
      ensures log[i] == FromMirrored(mirrored[i])
    {
      MirrorInvolution(log[i]);
    }
  }

  // ---------------------------------------------------------------------------
  // The state of a TekkenGameState, as a value, and its transitions

  datatype StateValue = StateValue(
    stateLog: Log,
    mirroredStateLog: Log,
    isMirrored: bool,
    futureStateLog: Option<Log>,
    duplicateFrameObtained: nat)
  {
    /** The frames the object holds, the hidden future included. */
    function Full(): Log
    {
      stateLog + (if futureStateLog.Some? then futureStateLog.value else [])
    }

    /** The object invariant: the two logs describe the same frames from the two
      * sides, and there are at most 300 of them. */
    predicate Valid()
    {
      |Full()| <= MAX_LOG_LENGTH && Aligned(Full(), mirroredStateLog)
    }

    predicate AtPresent() { futureStateLog.None? }
  }

  /** The frame as it is stored in the log seen from the current side. */
  function OwnView(isMirrored: bool, g: GameSnapshot): GameSnapshot
  {
    if isMirrored then FromMirrored(g) else g
  }

  /** `append_game_data(g)` (tekken_game_state.py, lines 125-135). */
  function Appended(v: StateValue, g: GameSnapshot): (r: StateValue)
    ensures r.isMirrored == v.isMirrored && r.futureStateLog == v.futureStateLog
    ensures r.duplicateFrameObtained == v.duplicateFrameObtained
  {
    var own := v.stateLog + [OwnView(v.isMirrored, g)];
    var mirrored := v.mirroredStateLog + [OwnView(!v.isMirrored, g)];
    if |own| > MAX_LOG_LENGTH then v.(stateLog := own[1..], mirroredStateLog := mirrored[1..])
    else v.(stateLog := own, mirroredStateLog := mirrored)
  }

  /** Appending at the present keeps the invariant: both logs grow together, the
    * new frame is last in the log and its mirror last in the other, and the
    * oldest frame is evicted once there are more than 300. */
  lemma AppendedKeepsInvariant(v: StateValue, g: GameSnapshot)
    requires v.Valid() && v.AtPresent()
    ensures Appended(v, g).Valid()
    ensures var r := Appended(v, g);
      |r.stateLog| == (if |v.stateLog| == MAX_LOG_LENGTH then MAX_LOG_LENGTH else |v.stateLog| + 1)
      && r.stateLog[|r.stateLog| - 1] == OwnView(v.isMirrored, g)
      && r.mirroredStateLog[|r.mirroredStateLog| - 1] == FromMirrored(OwnView(v.isMirrored, g))
  {
    var r := Appended(v, g);
    var x := OwnView(v.isMirrored, g);
    MirrorInvolution(g);
    assert OwnView(!v.isMirrored, g) == FromMirrored(x);
    var own := v.stateLog + [x];
    var mirrored := v.mirroredStateLog + [FromMirrored(x)];
    assert v.Full() == v.stateLog;
    assert Aligned(own, mirrored);
    if |own| > MAX_LOG_LENGTH {
      assert r.stateLog == own[1..] && r.mirroredStateLog == mirrored[1..];
      assert Aligned(own[1..], mirrored[1..]);
    }
    assert r.Full() == r.stateLog;
  }

  /** Appending several frames in order (`append_game_data` in a loop). */
  function AppendedAll(v: StateValue, gs: seq<GameSnapshot>): (r: StateValue)
    ensures r.isMirrored == v.isMirrored && r.futureStateLog == v.futureStateLog
    ensures r.duplicateFrameObtained == v.duplicateFrameObtained
    decreases |gs|
  {
    if |gs| == 0 then v else Appended(AppendedAll(v, gs[..|gs| - 1]), gs[|gs| - 1])
  }

  lemma AppendedAllSnoc(v: StateValue, gs: seq<GameSnapshot>, g: GameSnapshot)
    ensures AppendedAll(v, gs + [g]) == Appended(AppendedAll(v, gs), g)
  {
    assert (gs + [g])[..|gs|] == gs;
  }

  /** The newest `n` elements of `s` (all of them when there are fewer). */
  function Newest<T>(s: seq<T>, n: nat): (r: seq<T>)
    ensures |r| == Min(|s|, n)
  {
    if |s| > n then s[|s| - n..] else s
  }

  /** The frames as the current side sees them. */
  function OwnViews(isMirrored: bool, gs: seq<GameSnapshot>): (r: Log)
    ensures |r| == |gs|
    ensures forall i :: 0 <= i < |gs| ==> r[i] == OwnView(isMirrored, gs[i])
  {
    seq(|gs|, i requires 0 <= i < |gs| => OwnView(isMirrored, gs[i]))
  }

  /** One eviction step: the log after an append drops its oldest frame once it
    * holds more than 300. */
  function Capped(s: Log): Log
  {
    if |s| > MAX_LOG_LENGTH then s[1..] else s
  }

  lemma NewestSnoc(s: Log, x: GameSnapshot)
    ensures Capped(Newest(s, MAX_LOG_LENGTH) + [x]) == Newest(s + [x], MAX_LOG_LENGTH)
  {
    if |s| > MAX_LOG_LENGTH {
      assert Newest(s, MAX_LOG_LENGTH) + [x] == (s + [x])[|s| - MAX_LOG_LENGTH..];
      assert (s + [x])[|s| - MAX_LOG_LENGTH..][1..] == (s + [x])[|s| + 1 - MAX_LOG_LENGTH..];
    }
  }

  /** Appending any number of frames at the present keeps the invariant. */
  lemma {:induction false} AppendedAllValid(v: StateValue, gs: seq<GameSnapshot>)
    requires v.Valid() && v.AtPresent()
    ensures AppendedAll(v, gs).Valid()
    decreases |gs|
  {
    if |gs| > 0 {
      AppendedAllValid(v, gs[..|gs| - 1]);
      AppendedKeepsInvariant(AppendedAll(v, gs[..|gs| - 1]), gs[|gs| - 1]);
    }
  }

  /** Appending any number of frames to a log of at most 300 leaves exactly the
    * newest 300 frames of the whole history, oldest first. */
  lemma {:induction false} AppendedAllKeepsNewest(v: StateValue, gs: seq<GameSnapshot>)
    requires |v.stateLog| <= MAX_LOG_LENGTH
    ensures AppendedAll(v, gs).stateLog == Newest(v.stateLog + OwnViews(v.isMirrored, gs), MAX_LOG_LENGTH)
    decreases |gs|
  {
    if |gs| == 0 {
      assert v.stateLog + OwnViews(v.isMirrored, gs) == v.stateLog;
    } else {
      var init := gs[..|gs| - 1];
      var x := OwnView(v.isMirrored, gs[|gs| - 1]);
      AppendedAllKeepsNewest(v, init);
      var before := v.stateLog + OwnViews(v.isMirrored, init);
      assert v.stateLog + OwnViews(v.isMirrored, gs) == before + [x];
      assert AppendedAll(v, gs).stateLog == Capped(AppendedAll(v, init).stateLog + [x]);
      NewestSnoc(before, x);
    }
  }

  /** `flip_mirror()` (tekken_game_state.py, lines 178-182). */
  function Flipped(v: StateValue): (r: StateValue)
    ensures r.futureStateLog == v.futureStateLog && r.duplicateFrameObtained == v.duplicateFrameObtained
  {
    v.(stateLog := v.mirroredStateLog, mirroredStateLog := v.stateLog, isMirrored := !v.isMirrored)
  }

  /** Two flips restore the state, and a flip at the present keeps the invariant. */
  lemma FlipInvolution(v: StateValue)
    ensures Flipped(Flipped(v)) == v
    ensures v.Valid() && v.AtPresent() ==> Flipped(v).Valid()
  {
    if v.Valid() && v.AtPresent() {
      assert v.Full() == v.stateLog;
      AlignedSymmetric(v.stateLog, v.mirroredStateLog);
      assert Flipped(v).Full() == v.mirroredStateLog;
    }
  }

  /** `back_to_the_future(frames)` (tekken_game_state.py, lines 184-191): `None`
    * is the AssertionError raised when already travelling. The newest frames
    * move to the future log; the mirrored log is not touched. */
  function Entered(v: StateValue, frames: int): (r: Option<StateValue>)
    ensures r.None? <==> v.futureStateLog.Some?
    ensures r.Some? ==> (r.value.stateLog == SliceTo(v.stateLog, 0 - frames)
      && r.value.futureStateLog == Some(SliceFrom(v.stateLog, 0 - frames))
      && r.value.mirroredStateLog == v.mirroredStateLog
      && r.value.isMirrored == v.isMirrored)
  {
    if v.futureStateLog.Some? then None
    else Some(v.(futureStateLog := Some(SliceFrom(v.stateLog, 0 - frames)),
                 stateLog := SliceTo(v.stateLog, 0 - frames)))
  }

  /** `return_to_present()` (tekken_game_state.py, lines 193-198): `None` is the
    * AssertionError raised when not travelling. */
  function Exited(v: StateValue): (r: Option<StateValue>)
    ensures r.None? <==> v.futureStateLog.None?
    ensures r.Some? ==> r.value.AtPresent() && r.value.stateLog == v.Full()
  {
    if v.futureStateLog.None? then None
    else Some(v.(stateLog := v.stateLog + v.futureStateLog.value, futureStateLog := None))
  }

  /** Travelling `frames` back hides exactly the newest `frames` frames: at most
    * the whole log, which is what a `frames` of 0 hides (`s[-0:]` is all of `s`). */
  lemma EnteredHides(v: StateValue, frames: int)
    requires v.AtPresent()
    ensures var r := Entered(v, frames).value;
      (0 < frames <= |v.stateLog| ==> |r.stateLog| == |v.stateLog| - frames)
      && (frames == 0 || frames >= |v.stateLog| ==> r.stateLog == [] && r.futureStateLog == Some(v.stateLog))
  {
  }

  /** Entering and leaving the past restores the state exactly, for every
    * integer `frames`; the invariant holds throughout. */
  lemma TravelRoundTrip(v: StateValue, frames: int)
    requires v.AtPresent()
    ensures Exited(Entered(v, frames).value).Some?
    ensures Exited(Entered(v, frames).value).value == v
    ensures v.Valid() ==> Entered(v, frames).value.Valid()
  {
    SliceToFrom(v.stateLog, 0 - frames);
  }

  // ---------------------------------------------------------------------------
  // update()

  /** The rollback indices `update` reads, in order:
    * `min(7, frames_lost + buffer) - i` for `i in range(min(7 - buffer, frames_lost))`. */
  function RollbackIndices(framesLost: int, buffer: int): (r: seq<int>)
    ensures |r| == Max(0, Min(7 - buffer, framesLost))
  {
    var n := Min(7 - buffer, framesLost);
    if n <= 0 then [] else seq(n, i => Min(7, framesLost + buffer) - i)
  }

  /** The back-fill reads go from the oldest missing frame to the newest: indices
    * strictly decrease by one. Without a buffer they are `k, k-1, ..., 1` with
    * `k <= 7`; with a buffer `b` in 0..7 they stay in `b+1..7`. If the frame
    * counter did not advance by more than one, nothing is read. */
  lemma RollbackOrder(framesLost: int, buffer: int)
    ensures var r := RollbackIndices(framesLost, buffer);
      (forall i :: 0 < i < |r| ==> r[i] == r[i - 1] - 1)
      && (0 <= buffer <= 7 ==> forall i :: 0 <= i < |r| ==> buffer + 1 <= r[i] <= 7)
      && (framesLost <= 0 ==> r == [])
      && (buffer == 0 && |r| > 0 ==> r[|r| - 1] == 1)
  {
  }

  /** The frames the oracle returns for the given rollback indices, in order. */
  function Backfill(read: int -> Option<GameSnapshot>, ks: seq<int>): (r: seq<GameSnapshot>)
    ensures |r| <= |ks|
    decreases |ks|
  {
    if |ks| == 0 then []
    else Backfill(read, ks[..|ks| - 1]) + (if read(ks[|ks| - 1]).Some? then [read(ks[|ks| - 1]).value] else [])
  }

  /** One more rollback index appends the frame read there, if any. */
  lemma BackfillStep(v: StateValue, read: int -> Option<GameSnapshot>, ks: seq<int>, k: int)
    ensures AppendedAll(v, Backfill(read, ks + [k]))
         == if read(k).Some? then Appended(AppendedAll(v, Backfill(read, ks)), read(k).value)
            else AppendedAll(v, Backfill(read, ks))
  {
    assert (ks + [k])[..|ks|] == ks;
    if read(k).Some? {
      AppendedAllSnoc(v, Backfill(read, ks), read(k).value);
    } else {
      assert Backfill(read, ks + [k]) == Backfill(read, ks);
    }
  }

  /** `frames_lost`: how far the frame counter jumped past the newest logged
    * frame, 0 for an empty log. */
  function FramesLost(log: Log, g: GameSnapshot): int
  {
    if |log| == 0 then 0 else g.frameCount - log[|log| - 1].frameCount - 1
  }

  /** `update(buffer)` (tekken_game_state.py, lines 77-123) on the battle snapshot
    * `current` the process read returned; `read(k)` is the snapshot `k` frames
    * back. The result flag is `update`'s return value. */
  function Updated(v: StateValue, current: Option<GameSnapshot>, buffer: int,
                   read: int -> Option<GameSnapshot>): (StateValue, bool)
  {
    if current.None? then (v, false)
    else
      var g := current.value;
      if |v.stateLog| == 0 || g.frameCount != v.stateLog[|v.stateLog| - 1].frameCount then
        var dropped := Backfill(read, RollbackIndices(FramesLost(v.stateLog, g), buffer));
        (AppendedAll(v.(duplicateFrameObtained := 0), dropped + [g]), true)
      else
        (v.(duplicateFrameObtained := v.duplicateFrameObtained + 1), false)
  }

  /** A frame with the frame count of the newest logged one is dropped: only the
    * duplicate counter moves, by one, and `update` returns False. */
  lemma UpdateDropsDuplicate(v: StateValue, g: GameSnapshot, buffer: int, read: int -> Option<GameSnapshot>)
    requires |v.stateLog| > 0 && g.frameCount == v.stateLog[|v.stateLog| - 1].frameCount
    ensures Updated(v, Some(g), buffer, read).1 == false
    ensures Updated(v, Some(g), buffer, read).0
         == v.(duplicateFrameObtained := v.duplicateFrameObtained + 1)
  {
  }

  /** A new frame resets the duplicate counter, is appended last after the
    * back-filled frames, and `update` returns True. When the counter went
    * backwards nothing is back-filled. */
  lemma {:induction false} UpdateAppendsNewFrame(v: StateValue, g: GameSnapshot, buffer: int,
                                                 read: int -> Option<GameSnapshot>)
    requires v.Valid() && v.AtPresent()
    requires |v.stateLog| == 0 || g.frameCount != v.stateLog[|v.stateLog| - 1].frameCount
    ensures var (w, appended) := Updated(v, Some(g), buffer, read);
      appended && w.Valid() && w.AtPresent() && w.duplicateFrameObtained == 0
      && w.isMirrored == v.isMirrored
      && |w.stateLog| > 0 && w.stateLog[|w.stateLog| - 1] == OwnView(v.isMirrored, g)
    ensures |v.stateLog| > 0 && g.frameCount < v.stateLog[|v.stateLog| - 1].frameCount ==>
      Updated(v, Some(g), buffer, read).0 == Appended(v.(duplicateFrameObtained := 0), g)
  {
    var v0 := v.(duplicateFrameObtained := 0);
    assert v0.Full() == v.Full();
    var dropped := Backfill(read, RollbackIndices(FramesLost(v.stateLog, g), buffer));
    var all := dropped + [g];
    AppendedAllValid(v0, all);
    AppendedAllSnoc(v0, dropped, g);
    AppendedAllValid(v0, dropped);
    AppendedKeepsInvariant(AppendedAll(v0, dropped), g);
    if |v.stateLog| > 0 && g.frameCount < v.stateLog[|v.stateLog| - 1].frameCount {
      assert RollbackIndices(FramesLost(v.stateLog, g), buffer) == [];
      assert dropped == [];
    }
  }

  // ---------------------------------------------------------------------------
  // The mutable object

  class TekkenGameState {
    var stateLog: Log
    var mirroredStateLog: Log
    var isMirrored: bool
    var futureStateLog: Option<Log>
    var duplicateFrameObtained: nat

    /** `TekkenGameState()` (tekken_game_state.py, lines 51-58): empty logs, not mirrored, at the present. */
    constructor()
      ensures Value() == StateValue([], [], false, None, 0)
      ensures Value().Valid()
    {
      stateLog := [];
      mirroredStateLog := [];
      isMirrored := false;
      futureStateLog := None;
      duplicateFrameObtained := 0;
    }

    function Value(): StateValue
      reads this
    {
      StateValue(stateLog, mirroredStateLog, isMirrored, futureStateLog, duplicateFrameObtained)
    }

    method AppendGameData(g: GameSnapshot)
      modifies this
      ensures Value() == Appended(old(Value()), g)
    {
      if !isMirrored {
        stateLog := stateLog + [g];
        mirroredStateLog := mirroredStateLog + [FromMirrored(g)];
      } else {
        stateLog := stateLog + [FromMirrored(g)];
        mirroredStateLog := mirroredStateLog + [g];
      }
      if |stateLog| > MAX_LOG_LENGTH {
        stateLog := stateLog[1..];
        mirroredStateLog := mirroredStateLog[1..];
      }
    }

    method FlipMirror()
      modifies this
      ensures Value() == Flipped(old(Value()))
    {
      stateLog, mirroredStateLog := mirroredStateLog, stateLog;
      isMirrored := !isMirrored;
    }

    /** Returns false, changing nothing, where Python raises AssertionError. */
    method BackToTheFuture(frames: int) returns (ok: bool)
      modifies this
      ensures ok <==> old(futureStateLog).None?
      ensures ok ==> Value() == Entered(old(Value()), frames).value
      ensures !ok ==> Value() == old(Value())
    {
      if futureStateLog.Some? {
        return false;
      }
      futureStateLog := Some(SliceFrom(stateLog, 0 - frames));
      stateLog := SliceTo(stateLog, 0 - frames);
      return true;
    }

    /** Returns false, changing nothing, where Python raises AssertionError. */
    method ReturnToPresent() returns (ok: bool)
      modifies this
      ensures ok <==> old(futureStateLog).Some?
      ensures ok ==> Value() == Exited(old(Value())).value
      ensures !ok ==> Value() == old(Value())
    {
      if futureStateLog.None? {
        return false;
      }
      stateLog := stateLog + futureStateLog.value;
      futureStateLog := None;
      return true;
    }

    /** The back-fill loop of `update`: reads `read(k)` for every rollback
      * index `k` in order and appends each frame found. */
    method AppendRollbacks(framesLost: int, buffer: int, read: int -> Option<GameSnapshot>)
      returns (rollbacks: seq<int>)
      modifies this
      ensures rollbacks == RollbackIndices(framesLost, buffer)
      ensures Value() == AppendedAll(old(Value()), Backfill(read, rollbacks))
    {
      var n := Min(7 - buffer, framesLost);
      ghost var v0 := Value();
      ghost var ks := RollbackIndices(framesLost, buffer);
      rollbacks := [];
      var i := 0;
      while i < n
        invariant 0 <= i <= |ks|
        invariant |ks| == Max(0, n)
        invariant rollbacks == ks[..i]
        invariant Value() == AppendedAll(v0, Backfill(read, rollbacks))
      {
        var k := Min(7, framesLost + buffer) - i;
        assert ks[i] == k;
        var dropped := read(k);
        BackfillStep(v0, read, rollbacks, k);
        if dropped.Some? {
          AppendGameData(dropped.value);
        }
        rollbacks := rollbacks + [k];
        i := i + 1;
      }
      assert rollbacks == ks;
    }

    /** `update(buffer)`: `current` is the battle snapshot of this read (None when
      * there is none), `read(k)` the snapshot `k` frames back. `rollbacks` lists
      * the rollback indices read, in order. */
    method Update(current: Option<GameSnapshot>, buffer: int, read: int -> Option<GameSnapshot>)
      returns (appended: bool, rollbacks: seq<int>)
      modifies this
      ensures (Value(), appended) == Updated(old(Value()), current, buffer, read)
      ensures appended ==> rollbacks == RollbackIndices(FramesLost(old(stateLog), current.value), buffer)
      ensures !appended ==> rollbacks == []
    {
      rollbacks := [];
      if current.None? {
        return false, rollbacks;
      }
      var g := current.value;
      if |stateLog| == 0 || g.frameCount != stateLog[|stateLog| - 1].frameCount {
        rollbacks := AppendNewFrame(g, buffer, read);
        return true, rollbacks;
      }
      duplicateFrameObtained := duplicateFrameObtained + 1;
      return false, rollbacks;
    }

    /** The new-frame branch of `update`. */
    method AppendNewFrame(g: GameSnapshot, buffer: int, read: int -> Option<GameSnapshot>)
      returns (rollbacks: seq<int>)
      requires |stateLog| == 0 || g.frameCount != stateLog[|stateLog| - 1].frameCount
      modifies this
      ensures Value() == Updated(old(Value()), Some(g), buffer, read).0
      ensures rollbacks == RollbackIndices(FramesLost(old(stateLog), g), buffer)
    {
      ghost var v := Value();
      duplicateFrameObtained := 0;
      var framesLost := 0;
      if |stateLog| > 0 {
        framesLost := g.frameCount - stateLog[|stateLog| - 1].frameCount - 1;
      }
      assert framesLost == FramesLost(v.stateLog, g);
      ghost var v0 := Value();
      rollbacks := AppendRollbacks(framesLost, buffer, read);
      ghost var dropped := Backfill(read, rollbacks);
      AppendedAllSnoc(v0, dropped, g);
      AppendGameData(g);
    }

    /** `is_fight_over()` (tekken_game_state.py, lines 949-950). */
    predicate IsFightOver()
      reads this
    {
      duplicateFrameObtained > 5
    }
  }

  // ---------------------------------------------------------------------------
  // "x frames ago" queries (tekken_game_state.py, lines 229-288 and 622-689).
  // `state_log[0 - frames_ago]` and `state_log[0 - frames_ago - 1]` use Python
  // indexing: with `frames_ago == 0` the first reads index 0, the oldest frame.

  /** `state_log[0 - frames_ago]`. */
  function Ago(log: Log, framesAgo: nat): GameSnapshot
    requires |log| > framesAgo
  {
    At(log, 0 - framesAgo)
  }

  /** `state_log[0 - frames_ago - 1]`. */
  function AgoPrev(log: Log, framesAgo: nat): GameSnapshot
    requires |log| > framesAgo
  {
    At(log, 0 - framesAgo - 1)
  }

  predicate DidOppComboCounterJustStartXFramesAgo(log: Log, framesAgo: nat)
  {
    |log| > framesAgo && Ago(log, framesAgo).opp.comboCounter == 1 && AgoPrev(log, framesAgo).opp.comboCounter == 0
  }

  predicate DidOppComboCounterJustEndXFramesAgo(log: Log, framesAgo: nat)
  {
    |log| > framesAgo && Ago(log, framesAgo).opp.comboCounter == 0 && AgoPrev(log, framesAgo).opp.comboCounter > 0
  }

  function GetOppComboDamageXFramesAgo(log: Log, framesAgo: nat): int
  {
    if |log| > framesAgo then Ago(log, framesAgo).opp.comboDamage else 0
  }

  function GetOppComboHitsXFramesAgo(log: Log, framesAgo: nat): int
  {
    if |log| > framesAgo then Ago(log, framesAgo).opp.comboCounter else 0
  }

  function GetOppJuggleDamageXFramesAgo(log: Log, framesAgo: nat): int
  {
    if |log| > framesAgo then Ago(log, framesAgo).opp.juggleDamage else 0
  }

  predicate DidBotStartGettingPunishedXFramesAgo(log: Log, framesAgo: nat)
  {
    |log| > framesAgo && Ago(log, framesAgo).bot.IsPunish()
  }

  predicate DidOppStartGettingPunishedXFramesAgo(log: Log, framesAgo: nat)
  {
    |log| > framesAgo && Ago(log, framesAgo).opp.IsPunish()
  }

  function BotFramesUntilRecoveryXFramesAgo(log: Log, framesAgo: nat): int
  {
    if |log| > framesAgo then Ago(log, framesAgo).bot.recovery - Ago(log, framesAgo).bot.moveTimer else 99
  }

  function OppFramesUntilRecoveryXFramesAgo(log: Log, framesAgo: nat): int
  {
    if |log| > framesAgo then Ago(log, framesAgo).opp.recovery - Ago(log, framesAgo).opp.moveTimer else 99
  }

  predicate IsOppWhiffingXFramesAgo(log: Log, framesAgo: nat)
  {
    |log| > framesAgo && Ago(log, framesAgo).opp.IsAttackWhiffing()
  }

  /** Falls back to `False`, which compares as 0. */
  function GetBotStartupXFramesAgo(log: Log, framesAgo: nat): int
  {
    if |log| > framesAgo then Ago(log, framesAgo).bot.startup else 0
  }

  function GetOppActiveFramesXFramesAgo(log: Log, framesAgo: nat): int
  {
    if |log| > framesAgo then Ago(log, framesAgo).opp.GetActiveFrames() else 0
  }

  /** Falls back to `False` (here `None`). */
  function GetOppAttackTypeXFramesAgo(log: Log, framesAgo: nat): Option<AttackType>
  {
    if |log| > framesAgo then Some(Ago(log, framesAgo).opp.attackType) else None
  }

  /** `did_bot_just_take_damage(frames_ago)`: the damage the bot took between the
    * two frames, never negative. */
  function DidBotJustTakeDamage(log: Log, framesAgo: nat): (r: int)
    ensures r >= 0
    ensures |log| <= framesAgo ==> r == 0
    ensures |log| > framesAgo ==>
      (r > 0 <==> Ago(log, framesAgo).bot.damageTaken > AgoPrev(log, framesAgo).bot.damageTaken)
  {
    if |log| > framesAgo then Max(0, Ago(log, framesAgo).bot.damageTaken - AgoPrev(log, framesAgo).bot.damageTaken)
    else 0
  }

  /** `did_opp_just_take_damage(frames_ago)`, never negative. */
  function DidOppJustTakeDamage(log: Log, framesAgo: nat): (r: int)
    ensures r >= 0
    ensures |log| <= framesAgo ==> r == 0
    ensures |log| > framesAgo ==>
      (r > 0 <==> Ago(log, framesAgo).opp.damageTaken > AgoPrev(log, framesAgo).opp.damageTaken)
  {
    if |log| > framesAgo then Max(0, Ago(log, framesAgo).opp.damageTaken - AgoPrev(log, framesAgo).opp.damageTaken)
    else 0
  }

  predicate DidBotTimerInterruptXMovesAgo(log: Log, framesAgo: nat)
  {
    |log| > framesAgo && Ago(log, framesAgo).bot.moveTimer < AgoPrev(log, framesAgo).bot.moveTimer
  }

  predicate DidBotStartGettingHitXFramesAgo(log: Log, framesAgo: nat)
  {
    |log| > framesAgo && Ago(log, framesAgo).bot.IsGettingHit() && !AgoPrev(log, framesAgo).bot.IsGettingHit()
  }

  predicate DidOppStartGettingHitXFramesAgo(log: Log, framesAgo: nat)
  {
    |log| > framesAgo && Ago(log, framesAgo).opp.IsGettingHit() && !AgoPrev(log, framesAgo).opp.IsGettingHit()
  }

  predicate DidBotIdChangeXMovesAgo(log: Log, framesAgo: nat)
  {
    |log| > framesAgo && Ago(log, framesAgo).bot.moveId != AgoPrev(log, framesAgo).bot.moveId
  }

  predicate DidOppIdChangeXMovesAgo(log: Log, framesAgo: nat)
  {
    |log| > framesAgo && Ago(log, framesAgo).opp.moveId != AgoPrev(log, framesAgo).opp.moveId
  }

  /** `get_timer(frames_ago)`; falls back to `False`, which compares as 0. */
  function GetTimer(log: Log, framesAgo: nat): int
  {
    if |log| > framesAgo then Ago(log, framesAgo).timerFramesRemaining else 0
  }

  /** `get_opp_round_summary(frames_ago)`: (opponent's wins, bot's damage taken). */
  function GetOppRoundSummary(log: Log, framesAgo: nat): (int, int)
  {
    if |log| > framesAgo then (Ago(log, framesAgo).opp.wins, Ago(log, framesAgo).bot.damageTaken) else (0, 0)
  }

  /** With too short a log every "x frames ago" query gives its fallback. */
  lemma XFramesAgoFallbacks(log: Log, framesAgo: nat)
    requires |log| <= framesAgo
    ensures !DidOppComboCounterJustStartXFramesAgo(log, framesAgo) && !DidOppComboCounterJustEndXFramesAgo(log, framesAgo)
    ensures GetOppComboDamageXFramesAgo(log, framesAgo) == 0 && GetOppComboHitsXFramesAgo(log, framesAgo) == 0
    ensures GetOppJuggleDamageXFramesAgo(log, framesAgo) == 0
    ensures !DidBotStartGettingPunishedXFramesAgo(log, framesAgo) && !DidOppStartGettingPunishedXFramesAgo(log, framesAgo)
    ensures BotFramesUntilRecoveryXFramesAgo(log, framesAgo) == 99 && OppFramesUntilRecoveryXFramesAgo(log, framesAgo) == 99
    ensures DidBotJustTakeDamage(log, framesAgo) == 0 && DidOppJustTakeDamage(log, framesAgo) == 0
    ensures !DidBotTimerInterruptXMovesAgo(log, framesAgo)
    ensures !DidBotStartGettingHitXFramesAgo(log, framesAgo) && !DidOppStartGettingHitXFramesAgo(log, framesAgo)
    ensures !DidBotIdChangeXMovesAgo(log, framesAgo) && !DidOppIdChangeXMovesAgo(log, framesAgo)
    ensures GetBotStartupXFramesAgo(log, framesAgo) == 0 && GetTimer(log, framesAgo) == 0
  {
  }

  /** Two logs that have the same two frames at `-frames_ago` and
    * `-frames_ago - 1` answer every "x frames ago" query alike: those two are
    * the only frames read. */
  predicate SameWindow(a: Log, b: Log, framesAgo: nat)
  {
    |a| > framesAgo && |b| > framesAgo
    && Ago(a, framesAgo) == Ago(b, framesAgo) && AgoPrev(a, framesAgo) == AgoPrev(b, framesAgo)
  }

  lemma XFramesAgoLocality(a: Log, b: Log, framesAgo: nat)
    requires SameWindow(a, b, framesAgo)
    ensures DidOppComboCounterJustStartXFramesAgo(a, framesAgo) == DidOppComboCounterJustStartXFramesAgo(b, framesAgo)
    ensures DidOppComboCounterJustEndXFramesAgo(a, framesAgo) == DidOppComboCounterJustEndXFramesAgo(b, framesAgo)
    ensures GetOppComboDamageXFramesAgo(a, framesAgo) == GetOppComboDamageXFramesAgo(b, framesAgo)
    ensures GetOppJuggleDamageXFramesAgo(a, framesAgo) == GetOppJuggleDamageXFramesAgo(b, framesAgo)
    ensures DidBotJustTakeDamage(a, framesAgo) == DidBotJustTakeDamage(b, framesAgo)
    ensures DidOppJustTakeDamage(a, framesAgo) == DidOppJustTakeDamage(b, framesAgo)
    ensures DidBotIdChangeXMovesAgo(a, framesAgo) == DidBotIdChangeXMovesAgo(b, framesAgo)
    ensures DidBotTimerInterruptXMovesAgo(a, framesAgo) == DidBotTimerInterruptXMovesAgo(b, framesAgo)
    ensures DidOppStartGettingHitXFramesAgo(a, framesAgo) == DidOppStartGettingHitXFramesAgo(b, framesAgo)
  {
  }

  /** While `k` frames are hidden, "x frames ago" on the visible log is
    * "x + k frames ago" on the whole log, for every `x >= 1`. */
  lemma {:induction false} TravelShiftsFramesAgo(log: Log, k: nat, x: nat)
    requires x >= 1 && |log| > x + k
    ensures |SliceTo(log, 0 - k)| > x || k == 0
    ensures k > 0 ==> (Ago(SliceTo(log, 0 - k), x) == Ago(log, x + k)
      && AgoPrev(SliceTo(log, 0 - k), x) == AgoPrev(log, x + k))
    ensures k > 0 ==> SameWindow(SliceTo(log, 0 - k), log[..|log| - k], x)
  {
    if k > 0 {
      var visible := SliceTo(log, 0 - k);
      assert visible == log[..|log| - k];
      assert Ago(visible, x) == visible[|visible| - x];
      assert AgoPrev(visible, x) == visible[|visible| - x - 1];
    }
  }

  // ---------------------------------------------------------------------------
  // Frame queries on the newest frame and small formulas

  /** `get_bot_health()` (tekken_game_state.py, lines 223-224). */
  function GetBotHealth(log: Log): (r: int)
    requires |log| > 0
    ensures r >= 0
    ensures r == 0 <==> log[|log| - 1].bot.damageTaken >= 170
    ensures log[|log| - 1].bot.damageTaken <= 170 ==> r + log[|log| - 1].bot.damageTaken == 170
  {
    Max(0, 170 - log[|log| - 1].bot.damageTaken)
  }

  /** `get_frame_data(defender, attacker)` (tekken_game_state.py, lines 816-820). */
  function GetFrameData(defendingPlayer: BotSnapshot, attackingPlayer: BotSnapshot): int
  {
    (defendingPlayer.recovery + attackingPlayer.startup) - attackingPlayer.recovery
  }

  /** `was_fight_reset()` (tekken_game_state.py, lines 963-970). */
  predicate WasFightReset(log: Log)
  {
    |log| > 2 && log[|log| - 1].frameCount < log[|log| - 2].frameCount && log[|log| - 2].frameCount > 0
  }

  function Newest1(log: Log): GameSnapshot
    requires |log| > 0
  {
    log[|log| - 1]
  }

  /** `get_opp_frames_till_next_move()` (lines 517-518). */
  function GetOppFramesTillNextMove(log: Log): int
    requires |log| > 0
  {
    Newest1(log).opp.recovery - Newest1(log).opp.moveTimer
  }

  /** `get_bot_frames_till_next_move()` (lines 520-521). */
  function GetBotFramesTillNextMove(log: Log): int
    requires |log| > 0
  {
    Newest1(log).bot.recovery - Newest1(log).bot.moveTimer
  }

  // ---------------------------------------------------------------------------
  // Backward scans

  /** The newest frame satisfying `p`: the search `for state in reversed(...)`
    * with an early return performs. */
  function NewestIndex(log: Log, p: GameSnapshot -> bool): (r: Option<nat>)
    ensures r.None? <==> forall i :: 0 <= i < |log| ==> !p(log[i])
    ensures r.Some? ==> (r.value < |log| && p(log[r.value])
      && forall i :: r.value < i < |log| ==> !p(log[i]))
    decreases |log|
  {
    if |log| == 0 then None
    else if p(log[|log| - 1]) then Some(|log| - 1)
    else NewestIndex(log[..|log| - 1], p)
  }

  predicate HasOppStartupOrDamage(g: GameSnapshot)
  {
    g.opp.attackDamage > 0 || g.opp.startup > 0
  }

  /** `get_opp_latest_non_zero_startup_and_damage()` (lines 587-593): the
    * newest frame whose opponent attack has damage or startup, else (0, 0). */
  function GetOppLatestNonZeroStartupAndDamage(log: Log): (r: (int, int))
    ensures r == (0, 0) <==> forall i :: 0 <= i < |log| ==> !HasOppStartupOrDamage(log[i])
    ensures r != (0, 0) ==> exists i :: (0 <= i < |log| && HasOppStartupOrDamage(log[i])
      && r == (log[i].opp.startup, log[i].opp.attackDamage)
      && forall j :: i < j < |log| ==> !HasOppStartupOrDamage(log[j]))
  {
    match NewestIndex(log, HasOppStartupOrDamage)
    case None => (0, 0)
    case Some(i) => (log[i].opp.startup, log[i].opp.attackDamage)
  }

  predicate BotHasThrowTech(g: GameSnapshot)
  {
    g.bot.throwTech != ThrowTechs.NONE
  }

  /** `get_bot_throw_tech(active_frames)` (lines 861-866): the newest throw tech
    * other than NONE among the last `active_frames` frames (`[-0:]` is all). */
  function GetBotThrowTech(log: Log, activeFrames: int): (r: ThrowTechs)
    ensures r != ThrowTechs.NONE <==> exists g :: g in SliceFrom(log, -activeFrames) && BotHasThrowTech(g)
    ensures var w := SliceFrom(log, -activeFrames);
      r != ThrowTechs.NONE ==>
        exists i :: (0 <= i < |w| && w[i].bot.throwTech == r
                     && forall j :: i < j < |w| ==> !BotHasThrowTech(w[j]))
  {
    var window := SliceFrom(log, -activeFrames);
    match NewestIndex(window, BotHasThrowTech)
    case None => ThrowTechs.NONE
    case Some(i) => window[i].bot.throwTech
  }

  /** `has_opp_returned_to_neutral_from_move_id(move_id)` (lines 790-798), with
    * the opponent's movelist parser passed as `canBeDoneFromNeutral`: going back
    * from the newest frame, a frame of `move_id` answers False, a frame whose
    * move can be done from neutral answers True; with neither, True. */
  function HasOppReturnedToNeutralFromMoveId(log: Log, moveId: int, canBeDoneFromNeutral: int -> bool): (r: bool)
    ensures (forall i :: 0 <= i < |log| ==> log[i].opp.moveId != moveId) ==> r
    ensures !r <==> exists i :: (0 <= i < |log| && log[i].opp.moveId == moveId
      && forall j :: i < j < |log| ==> log[j].opp.moveId != moveId && !canBeDoneFromNeutral(log[j].opp.moveId))
  {
    match NewestIndex(log, (g: GameSnapshot) => g.opp.moveId == moveId || canBeDoneFromNeutral(g.opp.moveId))
    case None => true
    case Some(i) => log[i].opp.moveId != moveId
  }

  /** `get_recovery_of_move_id(move_id)` (lines 335-340): the largest bot move
    * timer over the frames of that move, or -1. */
  method GetRecoveryOfMoveId(log: Log, moveId: int) returns (largestTime: int)
    ensures largestTime >= -1
    ensures forall i :: 0 <= i < |log| && log[i].bot.moveId == moveId ==> log[i].bot.moveTimer <= largestTime
    ensures largestTime == -1 || exists i :: 0 <= i < |log| && log[i].bot.moveId == moveId
                                      && log[i].bot.moveTimer == largestTime
  {
    largestTime := -1;
    var j := |log|;
    while j > 0
      invariant 0 <= j <= |log|
      invariant largestTime >= -1
      invariant forall i :: j <= i < |log| && log[i].bot.moveId == moveId ==> log[i].bot.moveTimer <= largestTime
      invariant largestTime == -1 || exists i :: j <= i < |log| && log[i].bot.moveId == moveId
                                           && log[i].bot.moveTimer == largestTime
    {
      j := j - 1;
      if log[j].bot.moveId == moveId {
        largestTime := Max(largestTime, log[j].bot.moveTimer);
      }
    }
  }

  /** The frame `k` places back from the newest, and whether it continues the
    * blocking run of `get_frames_bot_has_been_blocking_attack`. */
  predicate ContinuesBlock(log: Log, k: nat)
    requires k < |log|
  {
    var s := log[|log| - 1 - k];
    s.bot.IsBlocking()
    && s.opp.moveId == log[|log| - 1].opp.moveId
    && s.opp.moveTimer > s.opp.startup
    && (k == 0 || s.opp.moveTimer <= log[|log| - k].opp.moveTimer)
  }

  /** `get_frames_bot_has_been_blocking_attack()` (lines 427-446): 0 if the bot
    * is not blocking now, otherwise the length of the run of newest frames in
    * which it blocks the same opponent move past its startup, the opponent's
    * move timer not increasing from one frame back to the frame before it. */
  method GetFramesBotHasBeenBlockingAttack(log: Log) returns (framesSpentBlocking: nat)
    requires |log| > 0
    ensures !log[|log| - 1].bot.IsBlocking() ==> framesSpentBlocking == 0
    ensures framesSpentBlocking <= |log|
    ensures log[|log| - 1].bot.IsBlocking() ==>
      (forall k :: 0 <= k < framesSpentBlocking ==> ContinuesBlock(log, k))
      && (framesSpentBlocking < |log| ==> !ContinuesBlock(log, framesSpentBlocking))
  {
    if !log[|log| - 1].bot.IsBlocking() {
      return 0;
    }
    var opponentMoveId := log[|log| - 1].opp.moveId;
    var opponentMoveTimer := log[|log| - 1].opp.moveTimer;
    framesSpentBlocking := 0;
    var j := |log|;
    while j > 0
      invariant 0 <= j <= |log| && framesSpentBlocking == |log| - j
      invariant forall k :: 0 <= k < framesSpentBlocking ==> ContinuesBlock(log, k)
      invariant opponentMoveTimer == log[if j == |log| then |log| - 1 else j].opp.moveTimer
    {
      var state := log[j - 1];
      if state.bot.IsBlocking() && state.opp.moveTimer <= opponentMoveTimer
         && state.opp.moveId == opponentMoveId && state.opp.moveTimer > state.opp.startup
      {
        framesSpentBlocking := framesSpentBlocking + 1;
        opponentMoveTimer := state.opp.moveTimer;
        j := j - 1;
      } else {
        assert !ContinuesBlock(log, framesSpentBlocking);
        return;
      }
    }
  }

  /** `did_opp_take_damage_during_startup()` (lines 640-649), as a specification:
    * scanning back from the newest frame, True at the first frame where the
    * opponent had taken less damage, False as soon as its move timer is larger
    * than the one after it. `timer` is the timer of the frame after `log`. */
  function TookDamageDuringStartup(log: Log, damage: int, timer: int): bool
    decreases |log|
  {
    if |log| == 0 then false
    else
      var state := log[|log| - 1];
      if state.opp.damageTaken < damage then true
      else if timer < state.opp.moveTimer then false
      else TookDamageDuringStartup(log[..|log| - 1], damage, state.opp.moveTimer)
  }

  /** Damage is only ever found before a timer increase: a True answer names a
    * frame with less damage, and every frame after it has the newest damage or
    * more and a timer no larger than the frame after it. */
  lemma {:induction false} TookDamageWitness(log: Log, damage: int, timer: int)
    requires TookDamageDuringStartup(log, damage, timer)
    ensures exists i :: (0 <= i < |log| && log[i].opp.damageTaken < damage
      && forall j :: i < j < |log| ==> log[j].opp.damageTaken >= damage)
    decreases |log|
  {
    var state := log[|log| - 1];
    if state.opp.damageTaken < damage {
    } else {
      var init := log[..|log| - 1];
      TookDamageWitness(init, damage, state.opp.moveTimer);
      var i :| 0 <= i < |init| && init[i].opp.damageTaken < damage
        && forall j :: i < j < |init| ==> init[j].opp.damageTaken >= damage;
      assert log[i] == init[i];
      forall j | i < j < |log|
        ensures log[j].opp.damageTaken >= damage
      {
        if j < |init| {
          assert log[j] == init[j];
        }
      }
    }
  }

  method DidOppTakeDamageDuringStartup(log: Log) returns (r: bool)
    requires |log| > 0
    ensures r == TookDamageDuringStartup(log, log[|log| - 1].opp.damageTaken, log[|log| - 1].opp.moveTimer)
  {
    var currentDamageTaken := log[|log| - 1].opp.damageTaken;
    var currentMoveTimer := log[|log| - 1].opp.moveTimer;
    var j := |log|;
    assert log[..j] == log;
    while j > 0
      invariant 0 <= j <= |log|
      invariant TookDamageDuringStartup(log, currentDamageTaken, log[|log| - 1].opp.moveTimer)
             == TookDamageDuringStartup(log[..j], currentDamageTaken, currentMoveTimer)
    {
      var state := log[j - 1];
      assert log[..j][..j - 1] == log[..j - 1];
      if state.opp.damageTaken < currentDamageTaken {
        return true;
      }
      if currentMoveTimer < state.opp.moveTimer {
        return false;
      }
      currentMoveTimer := state.opp.moveTimer;
      j := j - 1;
    }
    return false;
  }

  /** `get_last_active_frame_hit_was_on(frames)` (lines 500-507), as a
    * specification over the frames newest first: the frame after the first one
    * whose bot move timer is 1 gives `move_timer - startup + 1`; otherwise 0. */
  function ActiveFrameAfterFirstHit(newestFirst: Log): int
    decreases |newestFirst|
  {
    if |newestFirst| < 2 then 0
    else if newestFirst[0].bot.moveTimer == 1 then
      newestFirst[1].opp.moveTimer - newestFirst[1].opp.startup + 1
    else ActiveFrameAfterFirstHit(newestFirst[1..])
  }

  /** The scan answers from the first frame, newest first, whose bot move
    * timer is 1 and which has a frame after it: 0 when there is none,
    * otherwise the opponent's active frame in the frame after it. */
  lemma {:induction false} ActiveFrameAfterFirstHitMeaning(newestFirst: Log, i: nat)
    requires i < |newestFirst| - 1 && newestFirst[i].bot.moveTimer == 1
    requires forall j :: 0 <= j < i ==> newestFirst[j].bot.moveTimer != 1
    ensures ActiveFrameAfterFirstHit(newestFirst)
      == newestFirst[i + 1].opp.moveTimer - newestFirst[i + 1].opp.startup + 1
    decreases i
  {
    if i > 0 {
      ActiveFrameAfterFirstHitMeaning(newestFirst[1..], i - 1);
    }
  }

  /** Without such a frame the scan gives 0. */
  lemma {:induction false} ActiveFrameAfterNoHit(newestFirst: Log)
    requires forall j :: 0 <= j < |newestFirst| - 1 ==> newestFirst[j].bot.moveTimer != 1
    ensures ActiveFrameAfterFirstHit(newestFirst) == 0
    decreases |newestFirst|
  {
    if |newestFirst| >= 2 {
      ActiveFrameAfterNoHit(newestFirst[1..]);
    }
  }

  method GetLastActiveFrameHitWasOn(log: Log, frames: int) returns (r: int)
    ensures r == ActiveFrameAfterFirstHit(Reversed(SliceFrom(log, -(frames + 2))))
  {
    var newestFirst := Reversed(SliceFrom(log, -(frames + 2)));
    var returnNextState := false;
    var i := 0;
    while i < |newestFirst|
      invariant 0 <= i <= |newestFirst|
      invariant returnNextState ==> i > 0 && newestFirst[i - 1].bot.moveTimer == 1
      invariant ActiveFrameAfterFirstHit(newestFirst)
             == if returnNextState then (if i < |newestFirst| then newestFirst[i].opp.moveTimer - newestFirst[i].opp.startup + 1 else 0)
                else ActiveFrameAfterFirstHit(newestFirst[i..])
      invariant returnNextState ==> ActiveFrameAfterFirstHit(newestFirst[i - 1..]) == ActiveFrameAfterFirstHit(newestFirst)
    {
      var state := newestFirst[i];
      if returnNextState {
        return (state.opp.moveTimer - state.opp.startup) + 1;
      }
      if state.bot.moveTimer == 1 {
        returnNextState := true;
      }
      assert newestFirst[i..][1..] == newestFirst[i + 1..];
      i := i + 1;
    }
    return 0;
  }

  // ---------------------------------------------------------------------------
  // Tracking type

  /** `Counter(xs).most_common(1)[0][0]`: a value with the largest count; of
    * several such values, the one whose first occurrence comes first (Counter
    * keeps insertion order and `most_common` takes the first maximum). */
  function MostCommon<T(==)>(xs: seq<T>): (r: T)
    requires |xs| > 0
    ensures r in xs
    ensures forall x :: x in xs ==> Count(xs, x) <= Count(xs, r)
    ensures forall i :: 0 <= i < FirstIndex(xs, r) ==> Count(xs, xs[i]) < Count(xs, r)
  {
    var m := MaxCount(xs, |xs|);
    var k := FirstWithCount(xs, m, 0);
    assert FirstIndex(xs, xs[k]) == k;
    forall x | x in xs
      ensures Count(xs, x) <= m
    {
      var i := FirstIndex(xs, x);
      assert Count(xs, xs[i]) <= m;
    }
    xs[k]
  }

  function FirstIndex<T(==)>(xs: seq<T>, x: T): (k: nat)
    requires x in xs
    ensures k < |xs| && xs[k] == x && forall i :: 0 <= i < k ==> xs[i] != x
  {
    if xs[0] == x then 0 else 1 + FirstIndex(xs[1..], x)
  }

  /** The largest count of the first `n` elements. */
  function MaxCount<T(==)>(xs: seq<T>, n: nat): (m: nat)
    requires 0 < n <= |xs|
    ensures forall i :: 0 <= i < n ==> Count(xs, xs[i]) <= m
    ensures exists i :: 0 <= i < n && Count(xs, xs[i]) == m
  {
    if n == 1 then Count(xs, xs[0])
    else
      var m := MaxCount(xs, n - 1);
      if Count(xs, xs[n - 1]) > m then Count(xs, xs[n - 1]) else m
  }

  function FirstWithCount<T(==)>(xs: seq<T>, m: nat, from: nat): (k: nat)
    requires from <= |xs|
    requires exists i :: from <= i < |xs| && Count(xs, xs[i]) == m
    ensures from <= k < |xs| && Count(xs, xs[k]) == m
    ensures forall i :: from <= i < k ==> Count(xs, xs[i]) != m
    decreases |xs| - from
  {
    if Count(xs, xs[from]) == m then from else FirstWithCount(xs, m, from + 1)
  }

  lemma CountCons<T>(x: T, s: seq<T>, y: T)
    ensures Count([x] + s, y) == (if x == y then 1 else 0) + Count(s, y)
  {
    assert ([x] + s)[1..] == s;
  }

  /** A value counted once and put first wins unless another value occurs at
    * least twice. */
  lemma MostCommonAfterSingleton<T>(x: T, s: seq<T>)
    requires x !in s
    ensures MostCommon([x] + s) == x || (MostCommon([x] + s) in s && Count(s, MostCommon([x] + s)) >= 2)
  {
    var xs := [x] + s;
    var r := MostCommon(xs);
    CountCons(x, s, x);
    CountAbsent(s, x);
    CountCons(x, s, r);
    if r != x {
      assert xs[0] == x;
      assert FirstIndex(xs, r) > 0;
      assert Count(xs, xs[0]) < Count(xs, r);
    }
  }

  predicate IsSampledTracking(c: ComplexMoveStates)
  {
    -1 < c.Code() < 8
  }

  /** The tracking values `get_opp_tracking_type` samples, in the order of
    * `frames`: those in 0..7. */
  function TrackingSamples(frames: Log): (r: seq<ComplexMoveStates>)
    ensures forall c :: c in r ==> 0 <= c.Code() < 8
    decreases |frames|
  {
    if |frames| == 0 then []
    else
      var c := frames[|frames| - 1].opp.GetTrackingType();
      TrackingSamples(frames[..|frames| - 1]) + (if IsSampledTracking(c) then [c] else [])
  }

  /** One more frame adds its sample, if it has one. */
  lemma TrackingSamplesStep(frames: Log, i: nat)
    requires i < |frames|
    ensures var c := frames[i].opp.GetTrackingType();
      TrackingSamples(frames[..i + 1]) == TrackingSamples(frames[..i]) + (if IsSampledTracking(c) then [c] else [])
  {
    assert frames[..i + 1][..i] == frames[..i];
  }

  /** `get_opp_tracking_type(startup)` (lines 868-876), as a specification. */
  function OppTrackingType(log: Log, startup: int): ComplexMoveStates
  {
    if |log| > startup then
      MostCommon([ComplexMoveStates.UNKN] + TrackingSamples(Reversed(SliceFrom(log, -startup))))
    else ComplexMoveStates.F_MINUS
  }

  method GetOppTrackingType(log: Log, startup: int) returns (r: ComplexMoveStates)
    ensures r == OppTrackingType(log, startup)
  {
    if |log| > startup {
      var complexStates := CollectTrackingSamples(Reversed(SliceFrom(log, -startup)));
      return MostCommon(complexStates);
    }
    return ComplexMoveStates.F_MINUS;
  }

  /** The loop of `get_opp_tracking_type`: UNKN, then the samples in order. */
  method CollectTrackingSamples(newestFirst: Log) returns (complexStates: seq<ComplexMoveStates>)
    ensures complexStates == [ComplexMoveStates.UNKN] + TrackingSamples(newestFirst)
  {
    complexStates := [ComplexMoveStates.UNKN];
    var i := 0;
    while i < |newestFirst|
      invariant 0 <= i <= |newestFirst|
      invariant complexStates == [ComplexMoveStates.UNKN] + TrackingSamples(newestFirst[..i])
    {
      var c := newestFirst[i].opp.GetTrackingType();
      TrackingSamplesStep(newestFirst, i);
      if -1 < c.Code() < 8 {
        complexStates := complexStates + [c];
      }
      i := i + 1;
    }
    assert newestFirst[..i] == newestFirst;
  }

  /** The tracking type is F_MINUS for a log no longer than `startup`; otherwise
    * it is UNKN or a value in 0..7, and UNKN unless that value occurs at least
    * twice among the samples (UNKN is counted once and counted first). */
  lemma TrackingTypeCases(log: Log, startup: int)
    ensures |log| <= startup ==> OppTrackingType(log, startup) == ComplexMoveStates.F_MINUS
    ensures |log| > startup ==>
      var r := OppTrackingType(log, startup);
      var samples := TrackingSamples(Reversed(SliceFrom(log, -startup)));
      (r == ComplexMoveStates.UNKN || 0 <= r.Code() < 8)
      && (r != ComplexMoveStates.UNKN ==> Count(samples, r) >= 2)
  {
    if |log| > startup {
      var samples := TrackingSamples(Reversed(SliceFrom(log, -startup)));
      assert ComplexMoveStates.UNKN !in samples;
      MostCommonAfterSingleton(ComplexMoveStates.UNKN, samples);
    }
  }

  // ---------------------------------------------------------------------------
  // Technical states

  /** One sampled frame of `get_opp_technical_states`: the nine lists the
    * method returns reports of, in the order TC, TJ, BUF, xx, PC, HOM1, HOM2,
    * SKIP, FROZ. */
  datatype TechSample = TechSample(
    tc: bool, tj: bool, buf: bool, xx: bool, pc: bool,
    hom1: bool, hom2: bool, skip: bool, froz: bool)

  /** A `MoveDataReport(name, frames)`: the report class itself is not part of
    * this model; these are its constructor arguments. */
  datatype MoveDataReport = MoveDataReport(name: string, frames: seq<bool>)

  const TECHNICAL_REPORT_NAMES: seq<string> := ["TC", "TJ", "BUF", "xx", "PC", "HOM1", "HOM2", "SKIP", "FROZ"]

  function Column(s: TechSample, k: nat): bool
    requires k < 9
  {
    if k == 0 then s.tc else if k == 1 then s.tj else if k == 2 then s.buf
    else if k == 3 then s.xx else if k == 4 then s.pc else if k == 5 then s.hom1
    else if k == 6 then s.hom2 else if k == 7 then s.skip else s.froz
  }

  /** Column `k` of every sample, in order. */
  function Columns(samples: seq<TechSample>, k: nat): (r: seq<bool>)
    requires k < 9
    ensures |r| == |samples|
  {
    if |samples| == 0 then []
    else Columns(samples[..|samples| - 1], k) + [Column(samples[|samples| - 1], k)]
  }

  /** Entry `i` of column `k` is field `k` of sample `i`. */
  lemma {:induction false} ColumnsAt(samples: seq<TechSample>, k: nat)
    requires k < 9
    ensures forall i :: 0 <= i < |samples| ==> Columns(samples, k)[i] == Column(samples[i], k)
    decreases |samples|
  {
    if |samples| > 0 {
      ColumnsAt(samples[..|samples| - 1], k);
    }
  }

  /** The nine lists of `get_opp_technical_states` are the columns of `samples`. */
  predicate ListsAre(samples: seq<TechSample>, tc: seq<bool>, tj: seq<bool>, buf: seq<bool>, xx: seq<bool>,
                     pc: seq<bool>, hom1: seq<bool>, hom2: seq<bool>, skip: seq<bool>, froz: seq<bool>)
  {
    tc == Columns(samples, 0) && tj == Columns(samples, 1) && buf == Columns(samples, 2)
    && xx == Columns(samples, 3) && pc == Columns(samples, 4) && hom1 == Columns(samples, 5)
    && hom2 == Columns(samples, 6) && skip == Columns(samples, 7) && froz == Columns(samples, 8)
  }

  lemma ListsSnoc(samples: seq<TechSample>, x: TechSample, tc: seq<bool>, tj: seq<bool>, buf: seq<bool>,
                  xx: seq<bool>, pc: seq<bool>, hom1: seq<bool>, hom2: seq<bool>, skip: seq<bool>, froz: seq<bool>)
    requires ListsAre(samples, tc, tj, buf, xx, pc, hom1, hom2, skip, froz)
    ensures ListsAre(samples + [x], tc + [x.tc], tj + [x.tj], buf + [x.buf], xx + [x.xx], pc + [x.pc],
                     hom1 + [x.hom1], hom2 + [x.hom2], skip + [x.skip], froz + [x.froz])
  {
    AllColumnsSnoc(samples, x);
  }

  lemma AllColumnsSnoc(samples: seq<TechSample>, x: TechSample)
    ensures Columns(samples + [x], 0) == Columns(samples, 0) + [x.tc]
    ensures Columns(samples + [x], 1) == Columns(samples, 1) + [x.tj]
    ensures Columns(samples + [x], 2) == Columns(samples, 2) + [x.buf]
    ensures Columns(samples + [x], 3) == Columns(samples, 3) + [x.xx]
    ensures Columns(samples + [x], 4) == Columns(samples, 4) + [x.pc]
    ensures Columns(samples + [x], 5) == Columns(samples, 5) + [x.hom1]
    ensures Columns(samples + [x], 6) == Columns(samples, 6) + [x.hom2]
    ensures Columns(samples + [x], 7) == Columns(samples, 7) + [x.skip]
    ensures Columns(samples + [x], 8) == Columns(samples, 8) + [x.froz]
  {
    assert (samples + [x])[..|samples|] == samples;
  }

  /** The opponent's move timer did not go down by exactly one from the frame
    * before (in the newest-first order, the previous element). */
  predicate Skipped(r: Log, i: nat)
    requires i < |r|
  {
    i > 0 && r[i].opp.moveTimer != r[i - 1].opp.moveTimer - 1
  }

  predicate Frozen(r: Log, i: nat)
    requires i < |r|
  {
    i > 0 && r[i].bot.moveTimer == r[i - 1].bot.moveTimer
  }

  /** `skipped_frames_counter` after the element at `i`. */
  function SkipCount(r: Log, i: nat): nat
    requires i < |r|
  {
    (if Skipped(r, i) then 1 else 0) + (if i == 0 then 0 else SkipCount(r, i - 1))
  }

  predicate Included(r: Log, i: nat, startup: int)
    requires i < |r|
  {
    SkipCount(r, i) + i <= startup
  }

  function SampleAt(r: Log, i: nat): TechSample
    requires i < |r|
  {
    var s := r[i].opp;
    TechSample(s.IsTechnicalCrouch(), s.IsTechnicalJump(), s.isBufferable, s.isCancelable,
               s.IsPowerCrush(), s.IsHoming1(), s.IsHoming2(), Skipped(r, i), Frozen(r, i))
  }

  /** The samples of the included elements among the first `n`, in order. */
  function IncludedSamples(r: Log, startup: int, n: nat): (out: seq<TechSample>)
    requires n <= |r|
    ensures |out| <= n
  {
    if n == 0 then []
    else IncludedSamples(r, startup, n - 1) + (if Included(r, n - 1, startup) then [SampleAt(r, n - 1)] else [])
  }

  /** One step of `IncludedSamples`, with the sample spelled out. */
  lemma SampleStep(r: Log, startup: int, i: nat)
    requires i < |r|
    ensures IncludedSamples(r, startup, i + 1) == IncludedSamples(r, startup, i)
      + (if Included(r, i, startup) then [SampleAt(r, i)] else [])
    ensures SampleAt(r, i) == TechSample(r[i].opp.IsTechnicalCrouch(), r[i].opp.IsTechnicalJump(),
      r[i].opp.isBufferable, r[i].opp.isCancelable, r[i].opp.IsPowerCrush(), r[i].opp.IsHoming1(),
      r[i].opp.IsHoming2(), Skipped(r, i), Frozen(r, i))
  {
  }

  /** Inclusion only ever stops: `skipped + i` grows with `i`, so the sampled
    * frames are a prefix of the newest-first window. */
  lemma {:induction false} IncludedIsPrefix(r: Log, startup: int, i: nat, j: nat)
    requires i <= j < |r|
    requires Included(r, j, startup)
    ensures Included(r, i, startup)
    decreases j - i
  {
    if i < j {
      assert SkipCount(r, j) >= SkipCount(r, j - 1);
      IncludedIsPrefix(r, startup, i, j - 1);
    }
  }

  /** The included samples are exactly the samples of the first frames, up to
    * the first frame left out. */
  lemma IncludedSamplesArePrefix(r: Log, startup: int, n: nat)
    requires n <= |r|
    ensures var out := IncludedSamples(r, startup, n);
      forall k :: 0 <= k < |out| ==> Included(r, k, startup) && out[k] == SampleAt(r, k)
    ensures var out := IncludedSamples(r, startup, n);
      forall k :: |out| <= k < n ==> !Included(r, k, startup)
  {
    IncludedPrefixLength(r, startup, n);
    IncludedSamplesAt(r, startup, n);
  }

  /** A frame after the first excluded one is excluded too. */
  lemma IncludedStep(r: Log, startup: int, j: nat)
    requires 0 < j < |r|
    requires Included(r, j, startup)
    ensures Included(r, j - 1, startup)
  {
    assert SkipCount(r, j) >= SkipCount(r, j - 1);
  }

  /** The number of included frames among the first `n`. */
  function IncludedCount(r: Log, startup: int, n: nat): nat
    requires n <= |r|
  {
    if n == 0 then 0 else IncludedCount(r, startup, n - 1) + (if Included(r, n - 1, startup) then 1 else 0)
  }

  lemma {:induction false} IncludedSamplesLength(r: Log, startup: int, n: nat)
    requires n <= |r|
    ensures |IncludedSamples(r, startup, n)| == IncludedCount(r, startup, n)
    decreases n
  {
    if n > 0 {
      IncludedSamplesLength(r, startup, n - 1);
    }
  }

  /** The number of included samples is where inclusion stops. */
  lemma IncludedPrefixLength(r: Log, startup: int, n: nat)
    requires n <= |r|
    ensures var m := |IncludedSamples(r, startup, n)|;
      (forall k :: 0 <= k < m ==> Included(r, k, startup)) && (forall k :: m <= k < n ==> !Included(r, k, startup))
  {
    IncludedSamplesLength(r, startup, n);
    IncludedCountStops(r, startup, n);
  }

  /** `IncludedPrefixLength` on the count. */
  lemma {:induction false} IncludedCountStops(r: Log, startup: int, n: nat)
    requires n <= |r|
    ensures var m := IncludedCount(r, startup, n);
      m <= n && (forall k :: 0 <= k < m ==> Included(r, k, startup)) && (forall k :: m <= k < n ==> !Included(r, k, startup))
    decreases n
  {
    if n > 0 {
      IncludedCountStops(r, startup, n - 1);
      var prev := IncludedCount(r, startup, n - 1);
      if Included(r, n - 1, startup) {
        if n > 1 {
          IncludedStep(r, startup, n - 1);
        }
        assert prev == n - 1;
        forall k | 0 <= k < n
          ensures Included(r, k, startup)
        {
          if k < n - 1 {
            assert k < prev;
          }
        }
      } else {
        forall k | prev <= k < n
          ensures !Included(r, k, startup)
        {
          if k < n - 1 {
            assert prev <= k < n - 1;
          }
        }
      }
    }
  }

  /** The samples of the first `m` frames. */
  function FrameSamples(r: Log, m: nat): (out: seq<TechSample>)
    requires m <= |r|
    ensures |out| == m
  {
    seq(m, k requires 0 <= k < m => SampleAt(r, k))
  }

  /** Each included sample is the sample of its own frame. */
  lemma {:induction false} IncludedSamplesAt(r: Log, startup: int, n: nat)
    requires n <= |r|
    ensures var out := IncludedSamples(r, startup, n);
      out == FrameSamples(r, |out|)
    decreases n
  {
    if n > 0 {
      IncludedSamplesAt(r, startup, n - 1);
      var prev := IncludedSamples(r, startup, n - 1);
      var out := IncludedSamples(r, startup, n);
      if Included(r, n - 1, startup) {
        assert out == prev + [SampleAt(r, n - 1)];
        assert |prev| == n - 1 by {
          IncludedPrefixLength(r, startup, n);
        }
        FrameSamplesSnoc(r, n - 1);
      } else {
        assert out == prev;
      }
    }
  }

  lemma FrameSamplesSnoc(r: Log, m: nat)
    requires m < |r|
    ensures FrameSamples(r, m + 1) == FrameSamples(r, m) + [SampleAt(r, m)]
  {
  }

  /** The nine reports of `get_opp_technical_states(startup)`, as a specification. */
  function TechnicalStates(log: Log, startup: int): (reports: seq<MoveDataReport>)
    ensures |reports| == 9
  {
    var r := Reversed(SliceFrom(log, -startup));
    seq(9, k requires 0 <= k < 9 => MoveDataReport(TECHNICAL_REPORT_NAMES[k], Columns(IncludedSamples(r, startup, |r|), k)))
  }

  /** `get_opp_technical_states(startup)` (lines 878-947): nine reports, in a
    * fixed order, whose lists hold one entry per sampled frame. */
  method GetOppTechnicalStates(log: Log, startup: int) returns (reports: seq<MoveDataReport>)
    ensures |reports| == 9
    ensures var r := Reversed(SliceFrom(log, -startup));
      forall k :: 0 <= k < 9 ==>
        reports[k] == MoveDataReport(TECHNICAL_REPORT_NAMES[k], Columns(IncludedSamples(r, startup, |r|), k))
    ensures reports == TechnicalStates(log, startup)
  {
    reports := TechnicalStatesNewestFirst(Reversed(SliceFrom(log, -startup)), startup);
  }

  /** The loop of `get_opp_technical_states` over the window, newest frame first. */
  method TechnicalStatesNewestFirst(r: Log, startup: int) returns (reports: seq<MoveDataReport>)
    ensures |reports| == 9
    ensures forall k :: 0 <= k < 9 ==>
      reports[k] == MoveDataReport(TECHNICAL_REPORT_NAMES[k], Columns(IncludedSamples(r, startup, |r|), k))
  {
    var tcFrames: seq<bool> := [];
    var tjFrames: seq<bool> := [];
    var cancelFrames: seq<bool> := [];
    var bufferFrames: seq<bool> := [];
    var pcFrames: seq<bool> := [];
    var homingFrames1: seq<bool> := [];
    var homingFrames2: seq<bool> := [];
    var startupFrames: seq<bool> := [];
    var frozenFrames: seq<bool> := [];
    var skippedFramesCounter := 0;
    var frozenFramesCounter := 0;
    ghost var samples: seq<TechSample> := [];
    var i := 0;
    while i < |r|
      invariant 0 <= i <= |r|
      invariant skippedFramesCounter == if i == 0 then 0 else SkipCount(r, i - 1)
      invariant samples == IncludedSamples(r, startup, i)
      invariant ListsAre(samples, tcFrames, tjFrames, bufferFrames, cancelFrames, pcFrames,
                         homingFrames1, homingFrames2, startupFrames, frozenFrames)
    {
      var state := r[i];
      var isSkipped := false;
      var isFrozen := false;
      if i > 0 {
        var previousState := r[i - 1];
        isSkipped := state.opp.moveTimer != previousState.opp.moveTimer - 1;
        if isSkipped {
          skippedFramesCounter := skippedFramesCounter + 1;
        }
        isFrozen := state.bot.moveTimer == previousState.bot.moveTimer;
        if isFrozen {
          frozenFramesCounter := frozenFramesCounter + 1;
        }
      }
      assert skippedFramesCounter == SkipCount(r, i);
      assert Included(r, i, startup) <==> skippedFramesCounter + i <= startup;
      if skippedFramesCounter + i <= startup {
        var tc := state.opp.IsTechnicalCrouch();
        var tj := state.opp.IsTechnicalJump();
        var pc := state.opp.IsPowerCrush();
        var hom1 := state.opp.IsHoming1();
        var hom2 := state.opp.IsHoming2();
        ghost var x := TechSample(tc, tj, state.opp.isBufferable, state.opp.isCancelable, pc, hom1, hom2, isSkipped, isFrozen);
        assert isSkipped == Skipped(r, i) && isFrozen == Frozen(r, i);
        SampleStep(r, startup, i);
        ListsSnoc(samples, x, tcFrames, tjFrames, bufferFrames, cancelFrames, pcFrames,
                  homingFrames1, homingFrames2, startupFrames, frozenFrames);
        tcFrames := tcFrames + [tc];
        tjFrames := tjFrames + [tj];
        cancelFrames := cancelFrames + [state.opp.isCancelable];
        bufferFrames := bufferFrames + [state.opp.isBufferable];
        pcFrames := pcFrames + [pc];
        homingFrames1 := homingFrames1 + [hom1];
        homingFrames2 := homingFrames2 + [hom2];
        startupFrames := startupFrames + [isSkipped];
        frozenFrames := frozenFrames + [isFrozen];
        samples := samples + [x];
      } else {
        SampleStep(r, startup, i);
      }
      i := i + 1;
    }
    reports := [
      MoveDataReport("TC", tcFrames),
      MoveDataReport("TJ", tjFrames),
      MoveDataReport("BUF", bufferFrames),
      MoveDataReport("xx", cancelFrames),
      MoveDataReport("PC", pcFrames),
      MoveDataReport("HOM1", homingFrames1),
      MoveDataReport("HOM2", homingFrames2),
      MoveDataReport("SKIP", startupFrames),
      MoveDataReport("FROZ", frozenFrames)
    ];
  }
}
