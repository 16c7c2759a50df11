/**
 * One row of frame data (`FrameDataEntry` in TekkenEncyclopedia.py) and its
 * text rendering: the line the frame-data overlay later splits back into
 * columns.
 *
 * The Python fields start as the placeholder string '??' and are later
 * overwritten with integers; a numeric field is therefore an `Option<int>`
 * whose `None` is '??'.
 */
module FrameDataEntries {
  import opened Wrappers
  import opened PyStrings
  import opened MoveInfoEnums
  import GameState

  type Field = Option<int>

  /** `str(field)`. */
  function Str(v: Field): string
  {
    match v
    case None => "??"
    case Some(n) => IntToString(n)
  }

  /** `WithPlusIfNeeded(value)` (TekkenEncyclopedia.py, lines 613-619): '+' in
    * front of a non-negative number. On '??' the comparison raises TypeError
    * and the bare `except` returns `str(value)`. */
  function WithPlusIfNeeded(value: Field): (r: string)
    ensures |r| > 0
  {
    match value
    case None => "??"
    case Some(n) => if n >= 0 then "+" + IntToString(n) else IntToString(n)
  }

  /** The '+' appears exactly on non-negative numbers, and `int()` reads the
    * number back: the overlay parses this text again. */
  lemma WithPlusRoundTrip(value: Field)
    ensures WithPlusIfNeeded(value)[0] == '+' <==> value.Some? && value.value >= 0
    ensures value.Some? ==> ParseInt(WithPlusIfNeeded(value)) == value
    ensures value.None? ==> ParseInt(WithPlusIfNeeded(value)) == None
  {
    match value
    case None =>
      PlaceholderNotANumber();
    case Some(n) =>
      if n >= 0 {
        ParseIntPlus(n);
        assert WithPlusIfNeeded(value) == "+" + NatToString(n);
      } else {
        ParseIntToString(n);
        assert WithPlusIfNeeded(value) == "-" + NatToString(-n);
      }
  }

  /** `int('??')` raises ValueError. */
  lemma PlaceholderNotANumber()
    ensures ParseInt("??") == None
  {
    ParseIntNonNumeric("??");
  }

  // ---------------------------------------------------------------------------
  // Technical-state reports

  /** `MoveDataReport` is not part of this model beyond its name and lists: its
    * `is_present()`, `total_present()` and `str()` are these functions. */
  datatype ReportOps = ReportOps(
    isPresent: GameState.MoveDataReport -> bool,
    totalPresent: GameState.MoveDataReport -> int,
    text: GameState.MoveDataReport -> string)

  /** What `__repr__` does with one report. */
  datatype ReportAction = AddToNotes | SubtractFromStartup | Ignore

  /** The `if`/`elif` chain of `__repr__` (lines 636-656). */
  function ActionOf(report: GameState.MoveDataReport, ops: ReportOps, printExtended: bool): ReportAction
  {
    if Contains(report.name, "TC") && ops.isPresent(report) then AddToNotes
    else if Contains(report.name, "TJ") && ops.isPresent(report) then AddToNotes
    else if Contains(report.name, "PC") && ops.isPresent(report) then AddToNotes
    else if Contains(report.name, "SKIP") && ops.isPresent(report) then SubtractFromStartup
    else if Contains(report.name, "FROZ") && ops.isPresent(report) then SubtractFromStartup
    else if printExtended && ops.isPresent(report) then AddToNotes
    else Ignore
  }

  /** Only a present report does anything. */
  lemma AbsentReportIgnored(report: GameState.MoveDataReport, ops: ReportOps, printExtended: bool)
    ensures !ops.isPresent(report) ==> ActionOf(report, ops, printExtended) == Ignore
    ensures ops.isPresent(report) && !printExtended && ActionOf(report, ops, printExtended) == AddToNotes
        ==> Contains(report.name, "TC") || Contains(report.name, "TJ") || Contains(report.name, "PC")
  {
  }

  /** The notes the reports contribute, in report order. */
  function ReportNotes(reports: seq<GameState.MoveDataReport>, ops: ReportOps, printExtended: bool): string
  {
    if |reports| == 0 then ""
    else
      var last := reports[|reports| - 1];
      ReportNotes(reports[..|reports| - 1], ops, printExtended)
        + (if ActionOf(last, ops, printExtended) == AddToNotes then ops.text(last) else "")
  }

  /** The total the SKIP and FROZ reports take off the startup. */
  function StartupCorrection(reports: seq<GameState.MoveDataReport>, ops: ReportOps, printExtended: bool): int
  {
    if |reports| == 0 then 0
    else
      var last := reports[|reports| - 1];
      StartupCorrection(reports[..|reports| - 1], ops, printExtended)
        + (if ActionOf(last, ops, printExtended) == SubtractFromStartup then ops.totalPresent(last) else 0)
  }

  /** Whether some report subtracts from the startup. */
  predicate AnySubtraction(reports: seq<GameState.MoveDataReport>, ops: ReportOps, printExtended: bool)
  {
    exists i :: 0 <= i < |reports| && ActionOf(reports[i], ops, printExtended) == SubtractFromStartup
  }

  /** Without a subtracting report there is nothing to subtract. */
  lemma {:induction false} NoSubtractionNoCorrection(reports: seq<GameState.MoveDataReport>, ops: ReportOps, printExtended: bool)
    requires !AnySubtraction(reports, ops, printExtended)
    ensures StartupCorrection(reports, ops, printExtended) == 0
  {
    if |reports| > 0 {
      var init := reports[..|reports| - 1];
      assert !AnySubtraction(init, ops, printExtended) by {
        forall i | 0 <= i < |init|
          ensures ActionOf(init[i], ops, printExtended) != SubtractFromStartup
        {
          assert init[i] == reports[i];
        }
      }
      NoSubtractionNoCorrection(init, ops, printExtended);
      assert ActionOf(reports[|reports| - 1], ops, printExtended) != SubtractFromStartup;
    }
  }

  // ---------------------------------------------------------------------------
  // The entry

  /** `FrameDataEntry` (lines 588-611). `blockFrames` is never set or read and
    * `calculated_startup` is scratch space of `__repr__`: both are left out. */
  datatype FrameDataEntry = FrameDataEntry(
    printExtended: bool,
    prefix: string,
    moveId: Field,
    moveStr: string,
    startup: Field,
    hitType: string,
    onBlock: Field,
    onCounterHit: Field,
    onNormalHit: Field,
    recovery: Field,
    damage: Field,
    activeFrames: Field,
    currentFrameAdvantage: string,
    currentActiveFrame: Field,
    input: string,
    technicalStateReports: seq<GameState.MoveDataReport>,
    blockRecovery: Field,
    hitRecovery: Field,
    throwTech: Option<ThrowTechs>,
    tracking: ComplexMoveStates)

  /** `FrameDataEntry(print_extended)`: every field '??', no reports, no throw
    * tech, tracking `F_MINUS`. */
  function NewEntry(printExtended: bool): (e: FrameDataEntry)
    ensures e.printExtended == printExtended
    ensures e.moveId.None? && e.startup.None? && e.onBlock.None? && e.onCounterHit.None? && e.onNormalHit.None?
    ensures e.technicalStateReports == [] && e.throwTech.None? && e.tracking == ComplexMoveStates.F_MINUS
  {
    FrameDataEntry(printExtended, "??", None, "??", None, "??", None, None, None, None, None, None,
                   "??", None, "??", [], None, None, None, ComplexMoveStates.F_MINUS)
  }

  /** The throw-tech note: its name and a space, unless there is none. */
  function ThrowNote(throwTech: Option<ThrowTechs>): string
  {
    if throwTech.Some? && throwTech.value != ThrowTechs.NONE then throwTech.value.Name() + " " else ""
  }

  /** The notes of `__repr__`: the throw-tech note, then the report notes. */
  function Notes(e: FrameDataEntry, ops: ReportOps): string
  {
    ThrowNote(e.throwTech) + ReportNotes(e.technicalStateReports, ops, e.printExtended)
  }

  /** The startup column of `__repr__`: the startup less the SKIP and FROZ
    * totals, marked '?' when that differs from the startup. `None`: the
    * TypeError of subtracting from a '??' startup. */
  function CalculatedStartup(e: FrameDataEntry, ops: ReportOps): Option<string>
  {
    var c := StartupCorrection(e.technicalStateReports, ops, e.printExtended);
    match e.startup
    case None => if AnySubtraction(e.technicalStateReports, ops, e.printExtended) then None else Some("??")
    case Some(s) => Some(StartupColumn(s, c))
  }

  /** The startup `s` less the correction `c`, marked '?' when they differ. */
  function StartupColumn(s: int, c: int): string
  {
    if s - c != s then IntToString(s - c) + "?" else IntToString(s - c)
  }

  /** The column is '?'-marked exactly when the corrected startup is not the
    * raw one, and without the mark it reads back as that number. */
  lemma CalculatedStartupMarked(e: FrameDataEntry, ops: ReportOps)
    requires e.startup.Some?
    ensures var c := StartupCorrection(e.technicalStateReports, ops, e.printExtended);
      var col := CalculatedStartup(e, ops).value;
      (col[|col| - 1] == '?' <==> c != 0)
      && (c != 0 ==> col == IntToString(e.startup.value - c) + "?")
      && (c == 0 ==> ParseInt(col) == e.startup)
  {
    ColumnMarked(e.startup.value, StartupCorrection(e.technicalStateReports, ops, e.printExtended));
  }

  /** `CalculatedStartupMarked` on the numbers alone. */
  lemma ColumnMarked(s: int, c: int)
    ensures var col := StartupColumn(s, c);
      |col| > 0 && (col[|col| - 1] == '?' <==> c != 0)
      && (c != 0 ==> col == IntToString(s - c) + "?")
      && (c == 0 ==> ParseInt(col) == Some(s))
  {
    if c == 0 {
      assert StartupColumn(s, c) == IntToString(s);
      IntToStringLastDigit(s);
      ParseIntToString(s);
    } else {
      var t := IntToString(s - c);
      assert StartupColumn(s, c) == t + "?";
      assert (t + "?")[|t|] == '?';
    }
  }

  /** `{:^7}` of `str(self.hitType)[:7]` and similar: Python's centring. */
  const COLUMN_WIDTHS: seq<nat> := [5, 4, 4, 7, 4, 4, 4, 5, 3, 2, 3, 3, 3]

  /** Each value centred to its width and followed by '|'. */
  function Row(fields: seq<string>, widths: seq<nat>): string
    requires |fields| == |widths|
  {
    Bars(Cells(fields, widths))
  }

  /** Each cell followed by '|'. */
  function Bars(cells: seq<string>): string
  {
    if |cells| == 0 then "" else cells[0] + "|" + Bars(cells[1..])
  }

  /** The centred values of a row. */
  function Cells(fields: seq<string>, widths: seq<nat>): (r: seq<string>)
    requires |fields| == |widths|
    ensures |r| == |fields|
    ensures forall i :: 0 <= i < |r| ==> r[i] == Center(fields[i], widths[i])
  {
    seq(|fields|, i requires 0 <= i < |fields| => Center(fields[i], widths[i]))
  }

  /** The tracking column: `F_MINUS` reads "F-", `S_PLUS` "S+", `UNKN` "?". */
  function TrackingLabel(t: ComplexMoveStates): string
  {
    Replace(Replace(Replace(t.Name(), "_MINUS", "-"), "_PLUS", "+"), ComplexMoveStates.UNKN.Name(), "?")
  }

  /** The thirteen values of the row, in column order, given the startup column. */
  function Fields(e: FrameDataEntry, startupColumn: string): (r: seq<string>)
    ensures |r| == |COLUMN_WIDTHS|
  {
    [e.input, Str(e.moveId), e.moveStr, SliceTo(e.hitType, 7), startupColumn,
     WithPlusIfNeeded(e.onBlock), WithPlusIfNeeded(e.onNormalHit), WithPlusIfNeeded(e.onCounterHit),
     Str(e.currentActiveFrame) + "/" + Str(e.activeFrames), TrackingLabel(e.tracking),
     Str(e.recovery), Str(e.hitRecovery), Str(e.blockRecovery)]
  }

  /** `str(entry)` (lines 629-686): prefix, the thirteen '|'-terminated
    * columns, the notes, then "NOW:" (with a space in front when there are no
    * notes) and the current frame advantage. `None` where Python raises. */
  function Rendered(e: FrameDataEntry, ops: ReportOps): (r: Option<string>)
    ensures r.None? <==> e.startup.None? && AnySubtraction(e.technicalStateReports, ops, e.printExtended)
  {
    match CalculatedStartup(e, ops)
    case None => None
    case Some(startupColumn) =>
      var notes := Notes(e, ops);
      Some(e.prefix + Row(Fields(e, startupColumn), COLUMN_WIDTHS) + notes
           + (if notes != "" then "NOW:" else " NOW:") + e.currentFrameAdvantage)
  }

  /** A row whose values hold no '|' splits back into its centred values; what
    * follows the row becomes the remaining pieces. */
  lemma RowSplit(fields: seq<string>, widths: seq<nat>, tail: string)
    requires |fields| == |widths|
    requires forall i :: 0 <= i < |fields| ==> '|' !in fields[i]
    ensures Split(Row(fields, widths) + tail, '|') == Cells(fields, widths) + Split(tail, '|')
  {
    var cells := Cells(fields, widths);
    forall i | 0 <= i < |cells|
      ensures '|' !in cells[i]
    {
      CenterNoBar(fields[i], widths[i]);
    }
    BarsSplit(cells, tail);
  }

  /** Cells free of '|', each followed by '|', split back into the cells. */
  lemma {:induction false} BarsSplit(cells: seq<string>, tail: string)
    requires forall i :: 0 <= i < |cells| ==> '|' !in cells[i]
    ensures Split(Bars(cells) + tail, '|') == cells + Split(tail, '|')
    decreases |cells|
  {
    if |cells| == 0 {
      assert Bars(cells) + tail == tail;
    } else {
      var c := cells[0];
      var rest := Bars(cells[1..]);
      forall i | 0 <= i < |cells[1..]|
        ensures '|' !in cells[1..][i]
      {
        assert cells[1..][i] == cells[i + 1];
      }
      BarsSplit(cells[1..], tail);
      SplitAfterCell(c, rest + tail);
      assert Bars(cells) + tail == c + ("|" + (rest + tail));
      assert cells == [c] + cells[1..];
    }
  }

  /** Centring adds only spaces. */
  lemma CenterNoBar(s: string, w: nat)
    requires '|' !in s
    ensures '|' !in Center(s, w)
  {
    if |s| < w {
      var pad := w - |s|;
      assert Center(s, w) == Spaces(pad / 2) + s + Spaces(pad - pad / 2);
    }
  }

  /** A cell free of '|' followed by '|' is the first piece of the split. */
  lemma SplitAfterCell(c: string, t: string)
    requires '|' !in c
    ensures Split(c + ("|" + t), '|') == [c] + Split(t, '|')
  {
    SplitPrefix(c, "|" + t, '|');
    SplitHead(t, '|');
    var h := Split("|" + t, '|');
    assert h == [[]] + Split(t, '|');
    assert h[0] == [] && h[1..] == Split(t, '|');
    assert c + h[0] == c;
  }

  /** `__repr__` itself: the loop over the reports collects the notes and the
    * startup correction; Python's TypeError on a '??' startup is `None`. */
  method Repr(e: FrameDataEntry, ops: ReportOps) returns (r: Option<string>)
    ensures r == Rendered(e, ops)
  {
    var notes, calculated, failed := ScanReports(e.technicalStateReports, ops, e.printExtended, e.startup);
    if failed {
      return None;
    }
    var startupColumn: string;
    if calculated.None? {
      startupColumn := "??";
    } else if calculated != e.startup {
      startupColumn := IntToString(calculated.value) + "?";
    } else {
      startupColumn := IntToString(calculated.value);
    }
    assert CalculatedStartup(e, ops) == Some(startupColumn);
    notes := ThrowNote(e.throwTech) + notes;
    var row := Row(Fields(e, startupColumn), COLUMN_WIDTHS);
    if notes != "" {
      r := Some(e.prefix + row + notes + "NOW:" + e.currentFrameAdvantage);
    } else {
      r := Some(e.prefix + row + notes + " NOW:" + e.currentFrameAdvantage);
    }
  }

  /** The report loop of `__repr__` (lines 636-656): the notes it adds, the
    * startup after its subtractions, and whether a subtraction met '??'. */
  method ScanReports(reports: seq<GameState.MoveDataReport>, ops: ReportOps, printExtended: bool, startup: Field)
    returns (notes: string, calculated: Field, failed: bool)
    ensures failed <==> startup.None? && AnySubtraction(reports, ops, printExtended)
    ensures !failed ==> notes == ReportNotes(reports, ops, printExtended)
    ensures !failed ==> calculated == (if startup.None? then None
                                       else Some(startup.value - StartupCorrection(reports, ops, printExtended)))
  {
    notes := "";
    calculated := startup;
    failed := false;
    var i := 0;
    while i < |reports|
      invariant 0 <= i <= |reports|
      invariant notes == ReportNotes(reports[..i], ops, printExtended)
      invariant startup.Some? ==> calculated == Some(startup.value - StartupCorrection(reports[..i], ops, printExtended))
      invariant startup.None? ==> calculated.None? && !AnySubtraction(reports[..i], ops, printExtended)
    {
      var report := reports[i];
      ghost var seen := reports[..i + 1];
      assert seen[..i] == reports[..i] && seen[i] == report;
      var action := ActionOf(report, ops, printExtended);
      if action == AddToNotes {
        notes := notes + ops.text(report);
      } else if action == SubtractFromStartup {
        if calculated.None? {
          assert AnySubtraction(reports, ops, printExtended) by {
            assert reports[i] == report;
          }
          return notes, calculated, true;
        }
        calculated := Some(calculated.value - ops.totalPresent(report));
      }
      assert startup.None? ==> !AnySubtraction(seen, ops, printExtended) by {
        if startup.None? {
          forall k | 0 <= k < |seen|
            ensures ActionOf(seen[k], ops, printExtended) != SubtractFromStartup
          {
            if k < i {
              assert seen[k] == reports[..i][k];
            }
          }
        }
      }
      i := i + 1;
    }
    assert reports[..i] == reports;
  }
}
