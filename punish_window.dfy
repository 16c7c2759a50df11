/**
 * The punish window of TekkenEncyclopedia.py (`PunishWindow`): the frame
 * advantage of the move the coached player just blocked, followed frame by
 * frame until the window locks, and the thresholds that judge the punish.
 */
module PunishWindows {
  import opened Wrappers
  import FrameDataEntries

  /** The results a window closes with. The `PunishResult` table lives in a
    * constants module that is not part of this model; these are the members
    * the encyclopedia uses. */
  datatype PunishResult =
    NOT_YET_CLOSED | NO_WINDOW | NO_PUNISH | NO_LAUNCH_ON_LAUNCHABLE | LAUNCH_ON_LAUNCHABLE | JAB_ON_NOT_LAUNCHABLE
  {
    function Name(): string
    {
      match this
      case NOT_YET_CLOSED => "NOT_YET_CLOSED"
      case NO_WINDOW => "NO_WINDOW"
      case NO_PUNISH => "NO_PUNISH"
      case NO_LAUNCH_ON_LAUNCHABLE => "NO_LAUNCH_ON_LAUNCHABLE"
      case LAUNCH_ON_LAUNCHABLE => "LAUNCH_ON_LAUNCHABLE"
      case JAB_ON_NOT_LAUNCHABLE => "JAB_ON_NOT_LAUNCHABLE"
    }
  }

  /** `LAUNCH_PUNISHIBLE` and `BAD_PUNISH_THRESHOLD` (TekkenEncyclopedia.py, lines 174-175). */
  const LAUNCH_PUNISHIBLE: int := 15
  const BAD_PUNISH_THRESHOLD: int := 13

  /** The verdict on a block punish (lines 181-195): `frameAdvantage` is how far
    * the opponent was behind, `leeway` how late the punish came, and
    * `frameAdvantage - leeway` the startup of the punish used. */
  function BlockPunishResult(frameAdvantage: int, leeway: int): (r: PunishResult)
  {
    var startup := frameAdvantage - leeway;
    if frameAdvantage >= LAUNCH_PUNISHIBLE && startup <= BAD_PUNISH_THRESHOLD then PunishResult.NO_LAUNCH_ON_LAUNCHABLE
    else if frameAdvantage >= LAUNCH_PUNISHIBLE then PunishResult.LAUNCH_ON_LAUNCHABLE
    else PunishResult.JAB_ON_NOT_LAUNCHABLE
  }

  /** The three verdicts partition the inputs: a launch-punishable window was
    * wasted exactly when a punish of startup 13 or less was used, and below 15
    * frames only a jab was possible. */
  lemma BlockPunishThresholds(frameAdvantage: int, leeway: int)
    ensures var r := BlockPunishResult(frameAdvantage, leeway);
      (r == PunishResult.NO_LAUNCH_ON_LAUNCHABLE <==> frameAdvantage >= 15 && frameAdvantage - leeway <= 13)
      && (r == PunishResult.LAUNCH_ON_LAUNCHABLE <==> frameAdvantage >= 15 && frameAdvantage - leeway > 13)
      && (r == PunishResult.JAB_ON_NOT_LAUNCHABLE <==> frameAdvantage < 15)
  {
  }

  /** A later punish (more leeway) of the same window is judged no better. */
  lemma LaterPunishNoBetter(frameAdvantage: int, leeway: int, later: int)
    requires leeway <= later
    requires BlockPunishResult(frameAdvantage, leeway) == PunishResult.NO_LAUNCH_ON_LAUNCHABLE
    ensures BlockPunishResult(frameAdvantage, later) == PunishResult.NO_LAUNCH_ON_LAUNCHABLE
  {
  }

  /** The verdict when the opponent got back to neutral unpunished (lines 202-205). */
  function NeutralResult(frameAdvantage: int): (r: PunishResult)
    ensures r == PunishResult.NO_PUNISH <==> frameAdvantage <= -10
    ensures r != PunishResult.NO_PUNISH ==> r == PunishResult.NO_WINDOW
  {
    if frameAdvantage <= -10 then PunishResult.NO_PUNISH else PunishResult.NO_WINDOW
  }

  // ---------------------------------------------------------------------------
  // The window

  /** The fields of a window that `adjust_window` changes. */
  datatype WindowState = WindowState(
    hitRecovery: int,
    blockRecovery: int,
    isWindowLocked: bool,
    originalDiff: int,
    upcomingLock: bool,
    framesLocked: int)

  /** `get_frame_advantage()` (lines 799-802). */
  function Advantage(w: WindowState): int
  {
    if !w.isWindowLocked then w.blockRecovery - w.hitRecovery
    else 0 - w.hitRecovery - w.framesLocked
  }

  /** A fresh window (lines 783-797): unlocked, its original difference the
    * advantage it starts with. */
  function Opened(hitRecovery: int, blockRecovery: int): (w: WindowState)
    ensures !w.isWindowLocked && !w.upcomingLock && w.framesLocked == 0
    ensures w.originalDiff == Advantage(w) == blockRecovery - hitRecovery
  {
    WindowState(hitRecovery, blockRecovery, false, blockRecovery - hitRecovery, false, 0)
  }

  /** The fields after `adjust_window` but before the report of a changed advantage. */
  function AdjustedFields(w: WindowState, hitRecovery: int, blockRecovery: int): WindowState
  {
    var locked := w.isWindowLocked || w.upcomingLock;
    WindowState(hitRecovery,
                if locked then w.blockRecovery else blockRecovery,
                locked,
                w.originalDiff,
                w.upcomingLock || blockRecovery == 0,
                if w.upcomingLock then w.framesLocked + 1 else w.framesLocked)
  }

  /** `adjust_window(hit_recovery, block_recovery)` (lines 804-828). */
  function Adjusted(w: WindowState, hitRecovery: int, blockRecovery: int): WindowState
  {
    var a := AdjustedFields(w, hitRecovery, blockRecovery);
    a.(originalDiff := Advantage(a))
  }

  /** A line a window writes, as what it reports. */
  datatype WindowLine =
    | Now(prefix: string, advantage: int)   // `adjust_window`: the advantage changed
    | Closing(result: PunishResult)         // `close_window`
  {
    /** The line itself (lines 819-826 and 833-835). */
    function Text(): string
    {
      match this
      case Now(prefix, advantage) => prefix + "NOW:" + FrameDataEntries.WithPlusIfNeeded(Some(advantage))
      case Closing(result) => "Closing punish window, result: " + result.Name()
    }
  }

  /** The line `adjust_window` writes: the new advantage, when it changed. */
  function AdjustReport(prefix: string, w: WindowState, hitRecovery: int, blockRecovery: int): (r: Option<WindowLine>)
    ensures r.Some? <==> Advantage(Adjusted(w, hitRecovery, blockRecovery)) != w.originalDiff
    ensures r.Some? ==> r.value == Now(prefix, Advantage(Adjusted(w, hitRecovery, blockRecovery)))
  {
    var a := AdjustedFields(w, hitRecovery, blockRecovery);
    if Advantage(a) != w.originalDiff then Some(Now(prefix, Advantage(a))) else None
  }

  /** What one adjustment does: the hit recovery is always replaced; the block
    * recovery only while the window is unlocked; a zero block recovery arms
    * the lock, which engages on the following call and from then on counts
    * one locked frame per call. The last reported advantage is the current one. */
  lemma AdjustSteps(w: WindowState, hitRecovery: int, blockRecovery: int)
    ensures var r := Adjusted(w, hitRecovery, blockRecovery);
      r.hitRecovery == hitRecovery
      && (r.isWindowLocked <==> w.isWindowLocked || w.upcomingLock)
      && (r.blockRecovery == if r.isWindowLocked then w.blockRecovery else blockRecovery)
      && (r.upcomingLock <==> w.upcomingLock || blockRecovery == 0)
      && r.framesLocked == (if w.upcomingLock then w.framesLocked + 1 else w.framesLocked)
      && r.originalDiff == Advantage(r)
      && (r.isWindowLocked ==> Advantage(r) == 0 - hitRecovery - r.framesLocked)
      && (!r.isWindowLocked ==> Advantage(r) == blockRecovery - hitRecovery)
  {
  }

  /** The lock only engages through an armed lock. */
  predicate LockArmed(w: WindowState)
  {
    w.isWindowLocked ==> w.upcomingLock
  }

  /** `adjust_window` keeps `LockArmed`; a fresh window has it. */
  lemma AdjustKeepsLockArmed(w: WindowState, hitRecovery: int, blockRecovery: int)
    requires LockArmed(w)
    ensures LockArmed(Adjusted(w, hitRecovery, blockRecovery))
    ensures LockArmed(Opened(hitRecovery, blockRecovery))
  {
  }

  /** A run of adjustments, one pair of recoveries per frame. */
  function AdjustedAll(w: WindowState, steps: seq<(int, int)>): WindowState
    decreases |steps|
  {
    if |steps| == 0 then w
    else AdjustedAll(Adjusted(w, steps[0].0, steps[0].1), steps[1..])
  }

  /** Once the lock is armed, every later adjustment keeps the window locked
    * and adds exactly one locked frame. */
  lemma {:induction false} LockedFramesCount(w: WindowState, steps: seq<(int, int)>)
    requires w.upcomingLock
    ensures var r := AdjustedAll(w, steps);
      r.upcomingLock && r.framesLocked == w.framesLocked + |steps|
      && (|steps| > 0 ==> r.isWindowLocked)
      && (w.isWindowLocked ==> r.isWindowLocked && r.blockRecovery == w.blockRecovery)
    decreases |steps|
  {
    if |steps| > 0 {
      var next := Adjusted(w, steps[0].0, steps[0].1);
      assert next.upcomingLock && next.isWindowLocked && next.framesLocked == w.framesLocked + 1;
      assert next.blockRecovery == w.blockRecovery || !w.isWindowLocked;
      LockedFramesCount(next, steps[1..]);
    }
  }

  /** A window object: the encyclopedia keeps the current one and the list of
    * all of them; the punish coach compares them by identity. */
  class PunishWindow {
    const prefix: string
    const moveId: int
    const name: string
    const activeFrames: int
    var hitRecovery: int
    var blockRecovery: int
    var isWindowLocked: bool
    var originalDiff: int
    var upcomingLock: bool
    var framesLocked: int
    var result: PunishResult

    function State(): WindowState
      reads this
    {
      WindowState(hitRecovery, blockRecovery, isWindowLocked, originalDiff, upcomingLock, framesLocked)
    }

    /** `PunishWindow(prefix, move_id, string_name, hit_recovery, block_recovery, active_frames)`. */
    constructor(prefix: string, moveId: int, name: string, hitRecovery: int, blockRecovery: int, activeFrames: int)
      ensures State() == Opened(hitRecovery, blockRecovery)
      ensures result == PunishResult.NOT_YET_CLOSED
      ensures this.prefix == prefix && this.moveId == moveId && this.name == name && this.activeFrames == activeFrames
    {
      this.prefix := prefix;
      this.moveId := moveId;
      this.name := name;
      this.activeFrames := activeFrames;
      this.hitRecovery := hitRecovery;
      this.blockRecovery := blockRecovery;
      isWindowLocked := false;
      originalDiff := blockRecovery - hitRecovery;
      upcomingLock := false;
      framesLocked := 0;
      result := PunishResult.NOT_YET_CLOSED;
    }

    /** `get_frame_advantage()`. */
    function GetFrameAdvantage(): int
      reads this
    {
      Advantage(State())
    }

    /** `adjust_window(hit_recovery, block_recovery)`; `line` is what it writes. */
    method AdjustWindow(hitRecovery: int, blockRecovery: int) returns (line: Option<WindowLine>)
      modifies this
      ensures State() == Adjusted(old(State()), hitRecovery, blockRecovery)
      ensures line == AdjustReport(prefix, old(State()), hitRecovery, blockRecovery)
      ensures result == old(result)
    {
      ghost var w := State();
      this.hitRecovery := hitRecovery;
      if upcomingLock {
        framesLocked := framesLocked + 1;
        isWindowLocked := true;
      }
      if !isWindowLocked {
        this.blockRecovery := blockRecovery;
      }
      if blockRecovery == 0 {
        upcomingLock := true;
      }
      assert State() == AdjustedFields(w, hitRecovery, blockRecovery);
      line := None;
      if GetFrameAdvantage() != originalDiff {
        line := Some(Now(prefix, GetFrameAdvantage()));
        originalDiff := GetFrameAdvantage();
      }
    }

    /** `close_window(result)`: records the result; `line` is what it writes
      * (nothing for `NO_WINDOW`). */
    method CloseWindow(result: PunishResult) returns (line: Option<WindowLine>)
      modifies this
      ensures this.result == result
      ensures State() == old(State())
      ensures line == ClosingReport(result)
    {
      this.result := result;
      line := None;
      if result != PunishResult.NO_WINDOW {
        line := Some(Closing(this.result));
      }
    }
  }

  /** The line `close_window` writes (lines 830-835). */
  function ClosingReport(result: PunishResult): (r: Option<WindowLine>)
    ensures r.None? <==> result == PunishResult.NO_WINDOW
  {
    if result != PunishResult.NO_WINDOW then Some(Closing(result)) else None
  }
}
