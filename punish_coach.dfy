/**
 * The punish coach (tekken/coach/punish_coach.py): after each successful
 * read it picks the newest closed punish window of the encyclopedia that
 * watches the local player and tells its listeners whether the window is new
 * or the same as before, and for how many updates it has been the same.
 */
module PunishCoaches {
  import opened Wrappers
  import opened PunishWindows
  import opened GameSnapshots

  /** The index of the newest result that is not `NOT_YET_CLOSED`. */
  function LatestClosed(results: seq<PunishResult>): (r: Option<nat>)
    ensures r.Some? ==> r.value < |results| && results[r.value] != PunishResult.NOT_YET_CLOSED
    ensures r.Some? ==> forall j :: r.value < j < |results| ==> results[j] == PunishResult.NOT_YET_CLOSED
    ensures r.None? ==> forall j :: 0 <= j < |results| ==> results[j] == PunishResult.NOT_YET_CLOSED
  {
    if |results| == 0 then None
    else if results[|results| - 1] != PunishResult.NOT_YET_CLOSED then Some(|results| - 1)
    else LatestClosed(results[..|results| - 1])
  }

  /** The results of a list of windows. */
  function Results(ws: seq<PunishWindow>): (r: seq<PunishResult>)
    reads ws
    ensures |r| == |ws| && forall i :: 0 <= i < |ws| ==> r[i] == ws[i].result
  {
    if |ws| == 0 then [] else Results(ws[..|ws| - 1]) + [ws[|ws| - 1].result]
  }

  /** The generator of lines 60-68: the newest closed window, if any. */
  function LatestWindow(ws: seq<PunishWindow>): Option<PunishWindow>
    reads ws
  {
    match LatestClosed(Results(ws))
    case None => None
    case Some(i) => Some(ws[i])
  }

  /** The windows the coach looks at: those of the encyclopedia watching player
    * two when the local player is player one, else those of player one's. */
  function WatchedWindows(log: seq<GameSnapshot>, p1Windows: seq<PunishWindow>, p2Windows: seq<PunishWindow>)
    : seq<PunishWindow>
    requires |log| > 0
  {
    if log[|log| - 1].isPlayerPlayerOne then p2Windows else p1Windows
  }

  /** Python's `None` for a missing window. */
  function AsOption(w: PunishWindow?): (r: Option<PunishWindow>)
    ensures r.None? <==> w == null
    ensures r.Some? ==> r.value == w
  {
    if w == null then None else Some(w as PunishWindow)
  }

  /** What the coach dispatches: `CHANGED` with the new window, or `SAME` with
    * the count of updates since it changed. */
  datatype Dispatch<W> = Changed(window: W) | Same(framesSinceNewWindow: int)

  /** The coach's state, with `W` standing for the window objects. */
  datatype CoachState<W> = CoachState(current: Option<W>, framesSinceNewWindow: int)

  /** The outcome of one successful update. */
  datatype StepResult<W> = StepResult(after: CoachState<W>, dispatched: Option<Dispatch<W>>)

  /** Lines 59-80 once the newest closed window `latest` is known. */
  function CoachStep<W(==)>(s: CoachState<W>, latest: Option<W>): (r: StepResult<W>)
    ensures r.after.current == latest
    ensures latest.None? ==> r.dispatched.None? && r.after.framesSinceNewWindow == s.framesSinceNewWindow
    ensures latest.Some? && latest != s.current ==>
      r.after.framesSinceNewWindow == 0 && r.dispatched == Some(Changed(latest.value))
    ensures latest.Some? && latest == s.current ==>
      r.after.framesSinceNewWindow == s.framesSinceNewWindow + 1
      && r.dispatched == Some(Same(s.framesSinceNewWindow + 1))
  {
    match latest
    case None => StepResult(CoachState(None, s.framesSinceNewWindow), None)
    case Some(w) =>
      if latest != s.current then StepResult(CoachState(latest, 0), Some(Changed(w)))
      else
        var n := s.framesSinceNewWindow + 1;
        StepResult(CoachState(latest, n), Some(Same(n)))
  }

  /** The same newest window over several updates. */
  function CoachSteps<W(==)>(s: CoachState<W>, latests: seq<Option<W>>): (r: StepResults<W>)
    decreases |latests|
  {
    if |latests| == 0 then StepResults(s, [])
    else
      var first := CoachStep(s, latests[0]);
      var rest := CoachSteps(first.after, latests[1..]);
      StepResults(rest.after, [first.dispatched] + rest.dispatched)
  }

  datatype StepResults<W> = StepResults(after: CoachState<W>, dispatched: seq<Option<Dispatch<W>>>)

  /** A window that becomes the newest closed one and stays so for `n` more
    * updates is announced once as `CHANGED`, then counted `SAME` 1, 2, ..., n:
    * the count is the number of updates since it appeared. */
  lemma {:induction false} CountsUpdatesSinceChange<W>(s: CoachState<W>, w: W, n: nat)
    requires s.current != Some(w)
    ensures var r := CoachSteps(s, seq(n + 1, _ => Some(w)));
      r.after == CoachState(Some(w), n)
      && |r.dispatched| == n + 1
      && r.dispatched[0] == Some(Changed(w))
      && forall k :: 1 <= k <= n ==> r.dispatched[k] == Some(Same(k))
  {
    var latests := seq(n + 1, _ => Some(w));
    var first := CoachStep(s, Some(w));
    assert latests[0] == Some(w) && latests[1..] == seq(n, _ => Some(w));
    SameWindowCounts(first.after, w, n);
  }

  /** From a state already showing `w` with count `m`, `n` more updates with
    * the same window count `m + 1, ..., m + n`. */
  lemma {:induction false} SameWindowCounts<W>(s: CoachState<W>, w: W, n: nat)
    requires s.current == Some(w)
    ensures var r := CoachSteps(s, seq(n, _ => Some(w)));
      r.after == CoachState(Some(w), s.framesSinceNewWindow + n)
      && |r.dispatched| == n
      && forall k :: 0 <= k < n ==> r.dispatched[k] == Some(Same(s.framesSinceNewWindow + k + 1))
    decreases n
  {
    if n > 0 {
      var latests := seq(n, _ => Some(w));
      assert latests[0] == Some(w) && latests[1..] == seq(n - 1, _ => Some(w));
      var first := CoachStep(s, Some(w));
      SameWindowCounts(first.after, w, n - 1);
      var rest := CoachSteps(first.after, latests[1..]);
      var r := CoachSteps(s, latests);
      assert r.dispatched == [first.dispatched] + rest.dispatched;
      forall k | 0 <= k < n
        ensures r.dispatched[k] == Some(Same(s.framesSinceNewWindow + k + 1))
      {
        if k > 0 {
          assert r.dispatched[k] == rest.dispatched[k - 1];
        }
      }
    }
  }

  /** Updates that find no closed window leave the count and dispatch nothing. */
  lemma {:induction false} NoWindowKeepsCount<W>(s: CoachState<W>, n: nat)
    ensures var r := CoachSteps(s, seq(n, _ => None));
      r.after.framesSinceNewWindow == s.framesSinceNewWindow
      && forall k :: 0 <= k < |r.dispatched| ==> r.dispatched[k].None?
    decreases n
  {
    if n > 0 {
      var latests: seq<Option<W>> := seq(n, _ => None);
      assert latests[0] == None && latests[1..] == seq(n - 1, _ => None);
      var first := CoachStep(s, None);
      NoWindowKeepsCount(first.after, n - 1);
      var rest := CoachSteps(first.after, latests[1..]);
      var r := CoachSteps(s, latests);
      assert r.dispatched == [first.dispatched] + rest.dispatched;
    }
  }

  class PunishCoach {
    var currentPunishWindow: PunishWindow?
    var framesSinceNewWindow: int

    function State(): CoachState<PunishWindow>
      reads this
    {
      CoachState(AsOption(currentPunishWindow), framesSinceNewWindow)
    }

    /** `PunishCoach(launcher)`: no window yet and a count of 0. */
    constructor()
      ensures State() == CoachState(None, 0)
    {
      currentPunishWindow := null;
      framesSinceNewWindow := 0;
    }

    /** `update_punish_window(success)` (lines 52-80): `log` is the game state's
      * `state_log`, `p1Windows` and `p2Windows` the `punish_windows` of the two
      * encyclopedias; the result is what is dispatched, if anything. A
      * successful update has appended a frame, so the log is not empty. */
    method UpdatePunishWindow(success: bool, log: seq<GameSnapshot>, p1Windows: seq<PunishWindow>,
                              p2Windows: seq<PunishWindow>)
      returns (dispatched: Option<Dispatch<PunishWindow>>)
      requires success ==> |log| > 0
      modifies this
      ensures !success ==> State() == old(State()) && dispatched.None?
      ensures success ==>
        var r := CoachStep(old(State()), old(LatestWindow(WatchedWindows(log, p1Windows, p2Windows))));
        State() == r.after && dispatched == r.dispatched
    {
      if !success {
        return None;
      }
      var ws := WatchedWindows(log, p1Windows, p2Windows);
      ghost var prior := State();
      var lastPunishWindow := currentPunishWindow;
      var latest := NewestClosed(ws);
      ghost var r := CoachStep(prior, AsOption(latest));
      currentPunishWindow := latest;
      if currentPunishWindow != null {
        if currentPunishWindow != lastPunishWindow {
          framesSinceNewWindow := 0;
          dispatched := Some(Changed(currentPunishWindow));
        } else {
          framesSinceNewWindow := framesSinceNewWindow + 1;
          dispatched := Some(Same(framesSinceNewWindow));
        }
      } else {
        dispatched := None;
      }
      assert State() == r.after && dispatched == r.dispatched;
    }
  }

  /** The search of lines 60-68, from the newest window back. */
  method NewestClosed(ws: seq<PunishWindow>) returns (w: PunishWindow?)
    ensures AsOption(w) == LatestWindow(ws)
  {
    var k := |ws|;
    while k > 0 && ws[k - 1].result == PunishResult.NOT_YET_CLOSED
      invariant 0 <= k <= |ws|
      invariant forall j :: k <= j < |ws| ==> ws[j].result == PunishResult.NOT_YET_CLOSED
      decreases k
    {
      k := k - 1;
    }
    var rs := Results(ws);
    var i := LatestClosed(rs);
    if k == 0 {
      assert i.None?;
      w := null;
    } else {
      assert i == Some(k - 1);
      w := ws[k - 1];
    }
  }
}
