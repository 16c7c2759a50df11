/**
 * The text side of the frame-data overlay
 * (gui/my_tkinter/overlay/frame_data_overlay.py): a line the encyclopedia
 * writes is taken apart into its player tag, its columns and its frame
 * advantage; the columns go to a short attack log and are shown re-centred
 * under their titles, and the frame advantages are labelled. Widgets, fonts,
 * colours and geometry are not part of this model: a label is the string set
 * on it.
 */
module FrameDataOverlays {
  import opened Wrappers
  import opened PyStrings
  import FrameDataEntries

  const P1_TAG: string := "p1: "
  const P2_TAG: string := "p2: "
  const FRAME_ADVANTAGE_TAG: string := "NOW:"
  const MAX_ATTACK_LOG_LENGTH: nat := 5

  /** The member names of `Columns` (column_names.py), in declaration order. */
  const COLUMN_NAMES: seq<string> := ["INPUT_COMMAND", "MOVE_ID", "MOVE_NAME", "ATTACK_TYPE", "STARTUP_FRAMES",
    "ON_BLOCK_FRAMES", "ON_HIT_FRAMES", "COUNTER_HIT_FRAMES", "ACTIVE_FRAMES", "TRACKING", "TOTAL_FRAMES",
    "RECOVERY_FRAMES", "OPPONENT_FRAMES", "NOTES"]

  /** Their printable names: the column titles. The members of `Columns` are built
    * without the `value` that `ComplexEnumMember` requires; the model takes a
    * column's value to be its 0-based position. */
  const COLUMN_TITLES: seq<string> := ["command", "id", "name", "type", "startup", "block", "hit", "counter",
    "active", "track", "total", "recovery", "opponent", "notes"]

  // ---------------------------------------------------------------------------
  // The columns to show (lines 60-72, 119-126)

  /** The value of the member of `Columns` named `name`, if there is one. */
  function ColumnValue(name: string): (r: Option<nat>)
    ensures r.Some? ==> r.value < |COLUMN_NAMES| && COLUMN_NAMES[r.value] == name
    ensures r.None? <==> name !in COLUMN_NAMES
  {
    FindName(COLUMN_NAMES, name, 0)
  }

  function FindName(names: seq<string>, name: string, from: nat): (r: Option<nat>)
    requires from <= |names|
    ensures r.Some? ==> from <= r.value < |names| && names[r.value] == name
    ensures r.None? <==> forall i :: from <= i < |names| ==> names[i] != name
    decreases |names| - from
  {
    if from == |names| then None
    else if names[from] == name then Some(from)
    else FindName(names, name, from + 1)
  }

  /** `set_display_columns`: the values of the named columns, in the order of
    * the names; a name no column has is skipped. */
  function DisplayColumnsFor(settings: seq<string>): (r: seq<nat>)
    ensures forall i :: 0 <= i < |r| ==> r[i] < |COLUMN_TITLES|
    ensures |r| <= |settings|
    ensures (forall i :: 0 <= i < |settings| ==> settings[i] in COLUMN_NAMES) ==> |r| == |settings|
    decreases |settings|
  {
    if |settings| == 0 then []
    else
      var rest := DisplayColumnsFor(settings[1..]);
      assert forall i :: 0 <= i < |settings[1..]| ==> settings[1..][i] == settings[i + 1];
      match ColumnValue(settings[0])
      case None => rest
      case Some(v) => [v] + rest
  }

  /** The attribute names `__init__` reads off `Columns` for its first
    * settings, as written: `OPPONET_FRAMES` (line 72) is misspelt. */
  const INITIAL_SETTINGS_AS_WRITTEN: seq<string> := ["INPUT_COMMAND", "ATTACK_TYPE", "STARTUP_FRAMES",
    "ON_BLOCK_FRAMES", "ON_HIT_FRAMES", "ACTIVE_FRAMES", "TRACKING", "TOTAL_FRAMES", "RECOVERY_FRAMES",
    "OPPONET_FRAMES", "NOTES"]

  /** The same list with `OPPONENT_FRAMES`, as the default settings have it. */
  const INITIAL_SETTINGS: seq<string> := ["INPUT_COMMAND", "ATTACK_TYPE", "STARTUP_FRAMES",
    "ON_BLOCK_FRAMES", "ON_HIT_FRAMES", "ACTIVE_FRAMES", "TRACKING", "TOTAL_FRAMES", "RECOVERY_FRAMES",
    "OPPONENT_FRAMES", "NOTES"]

  /** `[Columns.X.name for X in names]`: `None` is the `AttributeError` of a
    * name that is no member. */
  function AttributeNames(names: seq<string>): (r: Option<seq<string>>)
    ensures r.Some? <==> forall i :: 0 <= i < |names| ==> names[i] in COLUMN_NAMES
    ensures r.Some? ==> r.value == names
  {
    if forall i :: 0 <= i < |names| ==> names[i] in COLUMN_NAMES then Some(names) else None
  }

  /** As written, building the first settings raises: the overlay never gets
    * constructed. */
  lemma InitialSettingsAsWrittenRaise()
    ensures AttributeNames(INITIAL_SETTINGS_AS_WRITTEN).None?
  {
    assert INITIAL_SETTINGS_AS_WRITTEN[9] == "OPPONET_FRAMES";
    assert forall i :: 0 <= i < |COLUMN_NAMES| ==> COLUMN_NAMES[i] != "OPPONET_FRAMES";
  }

  /** With the spelling corrected the settings are read, and all eleven
    * columns they name are shown. */
  lemma InitialSettingsShown()
    ensures AttributeNames(INITIAL_SETTINGS) == Some(INITIAL_SETTINGS)
    ensures |DisplayColumnsFor(INITIAL_SETTINGS)| == 11
  {
    assert forall i :: 0 <= i < |INITIAL_SETTINGS| ==> INITIAL_SETTINGS[i] in COLUMN_NAMES by {
      assert INITIAL_SETTINGS == [COLUMN_NAMES[0], COLUMN_NAMES[3], COLUMN_NAMES[4], COLUMN_NAMES[5],
        COLUMN_NAMES[6], COLUMN_NAMES[8], COLUMN_NAMES[9], COLUMN_NAMES[10], COLUMN_NAMES[11],
        COLUMN_NAMES[12], COLUMN_NAMES[13]];
    }
  }

  // ---------------------------------------------------------------------------
  // Taking a line apart (lines 227-257)

  /** `'NOW:' in string`. */
  predicate HasFrameAdvantage(s: string)
  {
    Contains(s, FRAME_ADVANTAGE_TAG)
  }

  /** The player tag of a line and the line with every copy of it removed:
    * 'p1: ' when it occurs, else 'p2: '. */
  function TagOf(s: string): (r: (string, string))
    ensures r.0 == P1_TAG <==> Contains(s, P1_TAG)
    ensures r.0 == P1_TAG || r.0 == P2_TAG
  {
    if Contains(s, P1_TAG) then (P1_TAG, Replace(s, P1_TAG, "")) else (P2_TAG, Replace(s, P2_TAG, ""))
  }

  /** A line taken apart: its tag, its column part and its frame advantage. */
  datatype LineParts = LineParts(tag: string, columns: string, frameAdvantage: string)

  /** `re.split('NOW:', ...)` unpacked into two names; `None` is the
    * `ValueError` when 'NOW:' does not occur exactly once. */
  function SplitLine(s: string): (r: Option<LineParts>)
    ensures r.Some? ==> r.value.tag == TagOf(s).0
    ensures r.Some? ==> r.value.columns + FRAME_ADVANTAGE_TAG + r.value.frameAdvantage == TagOf(s).1
  {
    var (tag, rest) := TagOf(s);
    var parts := SplitOn(rest, FRAME_ADVANTAGE_TAG);
    JoinSplitOn(rest, FRAME_ADVANTAGE_TAG);
    if |parts| == 2 then Some(LineParts(tag, parts[0], parts[1])) else None
  }

  /** Splitting on a separator and joining with it gives the input back. */
  lemma {:induction false} JoinSplitOn(s: string, sep: string)
    requires |sep| > 0
    ensures Join(SplitOn(s, sep), sep) == s
    decreases |s|
  {
    if |s| >= |sep| {
      if s[..|sep|] == sep {
        JoinSplitOn(s[|sep|..], sep);
        var rest := SplitOn(s[|sep|..], sep);
        assert SplitOn(s, sep) == [[]] + rest;
        JoinAfterSeparator(s, sep, rest);
      } else {
        JoinSplitOn(s[1..], sep);
        var rest := SplitOn(s[1..], sep);
        assert SplitOn(s, sep) == [[s[0]] + rest[0]] + rest[1..];
        JoinAfterFirst(s, sep, rest);
      }
    }
  }

  /** The step of `JoinSplitOn` for an input that starts with the separator:
    * an empty first piece, then the pieces of the remainder. */
  lemma JoinAfterSeparator(s: string, sep: string, rest: seq<string>)
    requires |sep| <= |s| && s[..|sep|] == sep
    requires |rest| >= 1 && Join(rest, sep) == s[|sep|..]
    ensures Join([[]] + rest, sep) == s
  {
    JoinAfterEmpty(rest, sep);
    assert s == s[..|sep|] + s[|sep|..];
  }

  /** The step of `JoinSplitOn` for an input whose first element begins no
    * separator: that element goes in front of the remainder's first piece. */
  lemma JoinAfterFirst(s: string, sep: string, rest: seq<string>)
    requires |s| > 0
    requires |rest| >= 1 && Join(rest, sep) == s[1..]
    ensures Join([[s[0]] + rest[0]] + rest[1..], sep) == s
  {
    JoinExtendFirst(s[0], rest, sep);
    assert s == [s[0]] + s[1..];
  }

  /** Joining after an empty first piece starts with the separator. */
  lemma JoinAfterEmpty(rest: seq<string>, sep: string)
    requires |rest| >= 1
    ensures Join([[]] + rest, sep) == sep + Join(rest, sep)
  {
    var parts := [[]] + rest;
    assert parts[0] == [] && parts[1..] == rest;
    assert [] + sep == sep;
  }

  /** Joining pieces whose first one is extended in front by `c` extends
    * the join by `c`. */
  lemma JoinExtendFirst(c: char, rest: seq<string>, sep: string)
    requires |rest| >= 1
    ensures Join([[c] + rest[0]] + rest[1..], sep) == [c] + Join(rest, sep)
  {
    var parts := [[c] + rest[0]] + rest[1..];
    assert parts[0] == [c] + rest[0] && parts[1..] == rest[1..];
  }

  /** 'NOW:' cannot overlap itself, so in `d + 'NOW:' + a`, with no 'NOW:'
    * in `d` or `a`, the only occurrence is the one between them. */
  lemma SplitAtOnlyTag(d: string, a: string)
    requires !Contains(d, FRAME_ADVANTAGE_TAG) && !Contains(a, FRAME_ADVANTAGE_TAG)
    ensures SplitOn(d + FRAME_ADVANTAGE_TAG + a, FRAME_ADVANTAGE_TAG) == [d, a]
  {
    var s := d + FRAME_ADVANTAGE_TAG + a;
    var sep := FRAME_ADVANTAGE_TAG;
    forall i | 0 <= i < |d|
      ensures !OccursAt(s, sep, i)
    {
      if i + 4 <= |d| {
        assert d[i..i + 4] == s[i..i + 4];
        assert !OccursAt(d, sep, i);
      } else {
        assert s[i..i + 4][|d| - i] == s[|d|] == 'N';
        assert sep[|d| - i] != 'N';
      }
    }
    assert OccursAt(s, sep, |d|) by {
      assert s[|d|..|d| + 4] == sep;
    }
    SplitOnFirst(s, sep, |d|);
    assert s[..|d|] == d;
    assert s[|d| + 4..] == a;
    SplitOnAbsent(a, sep);
  }

  /** `__generate_columns`: the pieces between '|', stripped. */
  function GenerateColumns(s: string): (r: seq<string>)
    ensures |r| == |Split(s, '|')| >= 1
    ensures forall i :: 0 <= i < |r| ==> r[i] == Strip(Split(s, '|')[i])
  {
    var parts := Split(s, '|');
    seq(|parts|, i requires 0 <= i < |parts| => Strip(parts[i]))
  }

  /** Strip characters at neither end of the string. */
  predicate Trimmed(s: string)
  {
    |s| > 0 ==> !IsSpace(s[0]) && !IsSpace(s[|s| - 1])
  }

  /** The column part of a frame-data entry's line, thirteen centred values
    * ending in '|' and then the notes, gives back the thirteen values and the
    * stripped notes. */
  lemma EntryColumns(fields: seq<string>, notes: string)
    requires |fields| == |FrameDataEntries.COLUMN_WIDTHS|
    requires forall i :: 0 <= i < |fields| ==> '|' !in fields[i] && Trimmed(fields[i])
    requires '|' !in notes
    ensures GenerateColumns(FrameDataEntries.Row(fields, FrameDataEntries.COLUMN_WIDTHS) + notes)
      == fields + [Strip(notes)]
  {
    var cells := FrameDataEntries.Cells(fields, FrameDataEntries.COLUMN_WIDTHS);
    var line := FrameDataEntries.Row(fields, FrameDataEntries.COLUMN_WIDTHS) + notes;
    EntryPieces(fields, notes);
    CellsStrip(fields);
    StrippedPieces(GenerateColumns(line), cells, fields, notes);
  }

  /** Columns that strip each of the cells and then the notes are the
    * stripped cells followed by the stripped notes. */
  lemma StrippedPieces(r: seq<string>, cells: seq<string>, fields: seq<string>, notes: string)
    requires |cells| == |fields| && |r| == |cells + [notes]|
    requires forall i :: 0 <= i < |r| ==> r[i] == Strip((cells + [notes])[i])
    requires forall i :: 0 <= i < |fields| ==> Strip(cells[i]) == fields[i]
    ensures r == fields + [Strip(notes)]
  {
    assert forall i :: 0 <= i < |fields| ==> (cells + [notes])[i] == cells[i];
    assert (cells + [notes])[|fields|] == notes;
  }

  /** The pieces of an entry's line between '|' are its centred cells and the
    * notes. */
  lemma EntryPieces(fields: seq<string>, notes: string)
    requires |fields| == |FrameDataEntries.COLUMN_WIDTHS|
    requires forall i :: 0 <= i < |fields| ==> '|' !in fields[i]
    requires '|' !in notes
    ensures Split(FrameDataEntries.Row(fields, FrameDataEntries.COLUMN_WIDTHS) + notes, '|')
      == FrameDataEntries.Cells(fields, FrameDataEntries.COLUMN_WIDTHS) + [notes]
  {
    FrameDataEntries.RowSplit(fields, FrameDataEntries.COLUMN_WIDTHS, notes);
    SplitNoSeparator(notes, '|');
  }

  /** Stripping a centred trimmed value gives the value back. */
  lemma CellsStrip(fields: seq<string>)
    requires |fields| == |FrameDataEntries.COLUMN_WIDTHS|
    requires forall i :: 0 <= i < |fields| ==> Trimmed(fields[i])
    ensures forall i :: 0 <= i < |fields| ==>
      Strip(FrameDataEntries.Cells(fields, FrameDataEntries.COLUMN_WIDTHS)[i]) == fields[i]
  {
    forall i | 0 <= i < |fields|
      ensures Strip(FrameDataEntries.Cells(fields, FrameDataEntries.COLUMN_WIDTHS)[i]) == fields[i]
    {
      CenterStrip(fields[i], FrameDataEntries.COLUMN_WIDTHS[i]);
    }
  }

  lemma {:induction false} SplitNoSeparator(s: string, sep: char)
    requires sep !in s
    ensures Split(s, sep) == [s]
    decreases |s|
  {
    if |s| > 0 {
      SplitNoSeparator(s[1..], sep);
      assert s == [s[0]] + s[1..];
    }
  }

  // ---------------------------------------------------------------------------
  // Showing the columns (lines 259-282)

  /** A value no wider than its title plus two is padded to exactly that
    * width, the larger half of the padding on the left; a wider value is
    * kept as it is. */
  function PadColumn(column: string, titleLength: nat): (r: string)
    ensures |column| <= titleLength + 2 ==> |r| == titleLength + 2
    ensures |column| > titleLength + 2 ==> r == column
    ensures exists l, rt :: rt <= l <= rt + 1 && r == Spaces(l) + column + Spaces(rt)
  {
    var width := titleLength + 2;
    if |column| <= width then
      var needed := width - |column|;
      Spaces((needed + 1) / 2) + column + Spaces(needed / 2)
    else
      assert column == Spaces(0) + column + Spaces(0);
      column
  }

  /** Padding a trimmed value and stripping it again gives the value back. */
  lemma PadColumnStrip(column: string, titleLength: nat)
    requires Trimmed(column)
    ensures Strip(PadColumn(column, titleLength)) == column
  {
    var l, rt :| rt <= l <= rt + 1 && PadColumn(column, titleLength) == Spaces(l) + column + Spaces(rt);
    StripPadded(l, column, rt);
  }

  /** The padded cells of the shown columns, each column an index into the
    * titles and a value. */
  function PaddedCells(columns: seq<(nat, string)>): (r: seq<string>)
    requires forall i :: 0 <= i < |columns| ==> columns[i].0 < |COLUMN_TITLES|
    ensures |r| == |columns|
    ensures forall i :: 0 <= i < |r| ==> r[i] == PadColumn(columns[i].1, |COLUMN_TITLES[columns[i].0]|)
  {
    seq(|columns|, i requires 0 <= i < |columns| => PadColumn(columns[i].1, |COLUMN_TITLES[columns[i].0]|))
  }

  /** `__generate_column_string`: '|' before every padded column and one at
    * the end. */
  function ColumnString(columns: seq<(nat, string)>): string
    requires forall i :: 0 <= i < |columns| ==> columns[i].0 < |COLUMN_TITLES|
  {
    "|" + FrameDataEntries.Bars(PaddedCells(columns))
  }

  /** The column string splits on '|' into an empty piece, the padded values
    * and an empty piece; so the overlay's own splitting recovers the values. */
  lemma ColumnStringSplit(columns: seq<(nat, string)>)
    requires forall i :: 0 <= i < |columns| ==> columns[i].0 < |COLUMN_TITLES|
    requires forall i :: 0 <= i < |columns| ==> '|' !in columns[i].1 && Trimmed(columns[i].1)
    ensures Split(ColumnString(columns), '|') == [""] + PaddedCells(columns) + [""]
    ensures GenerateColumns(ColumnString(columns)) == [""] + Values(columns) + [""]
  {
    var cells := PaddedCells(columns);
    CellsNoBar(columns);
    CellsSplit(cells);
    var parts := Split(ColumnString(columns), '|');
    assert parts == [""] + cells + [""];
    var r := GenerateColumns(ColumnString(columns));
    var expected := [""] + Values(columns) + [""];
    forall k | 0 <= k < |r|
      ensures r[k] == expected[k]
    {
      if 0 < k < |r| - 1 {
        assert parts[k] == cells[k - 1];
        PadColumnStrip(columns[k - 1].1, |COLUMN_TITLES[columns[k - 1].0]|);
      } else {
        assert parts[k] == "";
      }
    }
  }

  /** The values of the shown columns. */
  function Values(columns: seq<(nat, string)>): (r: seq<string>)
    ensures |r| == |columns| && forall i :: 0 <= i < |columns| ==> r[i] == columns[i].1
  {
    seq(|columns|, i requires 0 <= i < |columns| => columns[i].1)
  }

  lemma CellsNoBar(columns: seq<(nat, string)>)
    requires forall i :: 0 <= i < |columns| ==> columns[i].0 < |COLUMN_TITLES|
    requires forall i :: 0 <= i < |columns| ==> '|' !in columns[i].1
    ensures forall i :: 0 <= i < |columns| ==> '|' !in PaddedCells(columns)[i]
  {
    var cells := PaddedCells(columns);
    forall i | 0 <= i < |cells|
      ensures '|' !in cells[i]
    {
      var l, rt :| rt <= l <= rt + 1 && cells[i] == Spaces(l) + columns[i].1 + Spaces(rt);
    }
  }

  lemma CellsSplit(cells: seq<string>)
    requires forall i :: 0 <= i < |cells| ==> '|' !in cells[i]
    ensures Split("|" + FrameDataEntries.Bars(cells), '|') == [""] + cells + [""]
  {
    FrameDataEntries.BarsSplit(cells, "");
    assert FrameDataEntries.Bars(cells) + "" == FrameDataEntries.Bars(cells);
    SplitHead(FrameDataEntries.Bars(cells), '|');
  }

  /** `__generate_visible_column_string`: the shown columns of a line's
    * values; `None` is the `IndexError` of a line with too few values. */
  function VisibleColumnString(displayColumns: seq<nat>, values: seq<string>): (r: Option<string>)
    requires forall i :: 0 <= i < |displayColumns| ==> displayColumns[i] < |COLUMN_TITLES|
    ensures r.Some? <==> forall i :: 0 <= i < |displayColumns| ==> displayColumns[i] < |values|
  {
    if forall i :: 0 <= i < |displayColumns| ==> displayColumns[i] < |values| then
      Some(ColumnString(seq(|displayColumns|, i requires 0 <= i < |displayColumns| => (displayColumns[i], values[displayColumns[i]]))))
    else None
  }

  // ---------------------------------------------------------------------------
  // The attack log (lines 284-287)

  /** A line of the attack log: a tag, always `None` here, and its values. */
  datatype LogEntry = LogEntry(tag: Option<string>, columns: seq<string>)

  /** `insert_columns_to_log`: at the cap the oldest line after the header
    * goes, then the new line is appended. */
  function Inserted(log: seq<LogEntry>, entry: LogEntry): (r: seq<LogEntry>)
  {
    (if |log| >= MAX_ATTACK_LOG_LENGTH then log[..1] + log[2..] else log) + [entry]
  }

  /** The new line is last, the header stays first, the rest keep their order
    * and the log never grows past the cap. */
  lemma InsertedKeepsHeader(log: seq<LogEntry>, entry: LogEntry)
    ensures var r := Inserted(log, entry);
      r[|r| - 1] == entry
      && (|log| >= 1 ==> r[0] == log[0])
      && (|log| < MAX_ATTACK_LOG_LENGTH ==> r == log + [entry])
      && (|log| >= MAX_ATTACK_LOG_LENGTH ==> |r| == |log| && r[1..|r| - 1] == log[2..])
      && (|log| <= MAX_ATTACK_LOG_LENGTH ==> |r| <= MAX_ATTACK_LOG_LENGTH)
  {
  }

  // ---------------------------------------------------------------------------
  // Frame advantage labels (lines 289-298, 369-386)

  /** What `__update_frame_advantage` does with the text after 'NOW:'. */
  datatype AdvantageUpdate = Ignored | Label(text: string) | NotANumber

  /** A value containing '?' is ignored; otherwise it is read as an integer
    * and shown with a '+' when it is not negative. */
  function AdvantageLabel(frameAdvantage: string): (r: AdvantageUpdate)
    ensures r == Ignored <==> Contains(frameAdvantage, "?")
    ensures r == NotANumber <==> !Contains(frameAdvantage, "?") && ParseInt(frameAdvantage).None?
  {
    if Contains(frameAdvantage, "?") then Ignored
    else match ParseInt(frameAdvantage)
      case None => NotANumber
      case Some(v) => Label(if v >= 0 then "+" + IntToString(v) else IntToString(v))
  }

  /** The label reads back as the value, with a '+' exactly when it is not
    * negative. */
  lemma AdvantageLabelReadsBack(frameAdvantage: string)
    requires AdvantageLabel(frameAdvantage).Label?
    ensures var t := AdvantageLabel(frameAdvantage).text;
      ParseInt(t) == ParseInt(frameAdvantage) && |t| > 0
      && (t[0] == '+' <==> ParseInt(frameAdvantage).value >= 0)
  {
    var v := ParseInt(frameAdvantage).value;
    if v >= 0 {
      ParseIntPlus(v);
    } else {
      ParseIntToString(v);
    }
  }

  /** `_update_state`'s labels for `p1Recovery = opp_frames - bot_frames`:
    * player two's is the negation, '+' goes to player one when positive, to
    * player two when negative and to both at zero. */
  function LiveRecoveryLabels(p1Recovery: int): (r: (string, string))
  {
    var p1 := IntToString(p1Recovery);
    var p2 := IntToString(p1Recovery * -1);
    if p1Recovery > 0 then ("+" + p1, p2)
    else if p1Recovery == 0 then ("+" + p1, "+" + p2)
    else (p1, "+" + p2)
  }

  lemma LiveRecoveryLabelsMeaning(p1Recovery: int)
    ensures var r := LiveRecoveryLabels(p1Recovery);
      |r.0| > 0 && |r.1| > 0
      && ParseInt(r.0) == Some(p1Recovery) && ParseInt(r.1) == Some(-p1Recovery)
      && (r.0[0] == '+' <==> p1Recovery >= 0) && (r.1[0] == '+' <==> p1Recovery <= 0)
  {
    if p1Recovery >= 0 {
      PlusLabel(p1Recovery);
    } else {
      SignedLabel(p1Recovery);
    }
    if p1Recovery <= 0 {
      PlusLabel(-p1Recovery);
    } else {
      SignedLabel(-p1Recovery);
    }
  }

  /** A '+'-marked label of a natural number. */
  lemma PlusLabel(n: nat)
    ensures var t := "+" + IntToString(n); ParseInt(t) == Some(n) && t[0] == '+'
  {
    ParseIntPlus(n);
  }

  /** The plain label of a negative number starts with '-'. */
  lemma SignedLabel(v: int)
    requires v < 0
    ensures var t := IntToString(v); |t| > 0 && ParseInt(t) == Some(v) && t[0] == '-'
  {
    ParseIntToString(v);
  }

  // ---------------------------------------------------------------------------
  // Frame advantage bands (lines 292-296, 301-303, 306-308)

  /** What a frame-advantage panel is set to: `InitialBand` is the member it
    * starts with (frame_advantage_panel.py:44), `Band(i)` the i-th member of
    * `FrameAdvantage` in declaration order, and `NoBand` the `None` it is
    * given when no member's value is at least the advantage. */
  datatype AdvantageBand = InitialBand | Band(index: nat) | NoBand

  /** The first position at or after `from` whose threshold is at least
    * `advantage`, or none when every one from there on is below it. */
  function FirstAtLeast(thresholds: seq<int>, advantage: int, from: nat): (r: Option<nat>)
    requires from <= |thresholds|
    ensures r.Some? ==>
      from <= r.value < |thresholds| && advantage <= thresholds[r.value]
      && forall j :: from <= j < r.value ==> thresholds[j] < advantage
    ensures r.None? <==> forall j :: from <= j < |thresholds| ==> thresholds[j] < advantage
    decreases |thresholds| - from
  {
    if from == |thresholds| then None
    else if advantage <= thresholds[from] then Some(from)
    else FirstAtLeast(thresholds, advantage, from + 1)
  }

  /** The band `__update_frame_advantage` picks for an advantage: the first
    * member of `FrameAdvantage`, in declaration order, whose value is at
    * least the advantage. */
  function BandOf(thresholds: seq<int>, advantage: int): (r: AdvantageBand)
    ensures r != InitialBand
    ensures r.Band? <==> exists i :: 0 <= i < |thresholds| && advantage <= thresholds[i]
    ensures r.Band? ==>
      r.index < |thresholds| && advantage <= thresholds[r.index]
      && forall j :: 0 <= j < r.index ==> thresholds[j] < advantage
  {
    match FirstAtLeast(thresholds, advantage, 0)
    case None => NoBand
    case Some(i) => Band(i)
  }

  /** A smaller advantage never falls in a later band, whatever the order of
    * the thresholds. */
  lemma BandOfMonotone(thresholds: seq<int>, a: int, b: int)
    requires a <= b
    requires BandOf(thresholds, b).Band?
    ensures BandOf(thresholds, a).Band?
    ensures BandOf(thresholds, a).index <= BandOf(thresholds, b).index
  {
    var ib := BandOf(thresholds, b).index;
    assert a <= thresholds[ib];
  }

  // ---------------------------------------------------------------------------
  // The overlay

  /** What `write` shows: a line for the text box with its tag, nothing, or
    * the exception that ends it. */
  datatype WriteOutcome = Shown(text: string, tag: string) | NothingShown | Raised

  class FrameDataOverlay {
    var attackLog: seq<LogEntry>
    var displayColumns: seq<nat>
    var p1FrameAdvantage: string
    var p2FrameAdvantage: string
    var p1LiveRecovery: string
    var p2LiveRecovery: string
    var p1AdvantageBand: AdvantageBand
    var p2AdvantageBand: AdvantageBand

    /** The header line stays first, the log is capped and every shown column
      * has a title. */
    predicate Valid()
      reads this
    {
      1 <= |attackLog| <= MAX_ATTACK_LOG_LENGTH
      && attackLog[0] == LogEntry(None, COLUMN_TITLES)
      && forall i :: 0 <= i < |displayColumns| ==> displayColumns[i] < |COLUMN_TITLES|
    }

    /** `FrameDataOverlay(launcher)`: the titles are the first line of the log,
      * then the columns of `settings` are shown. */
    constructor(settings: seq<string>)
      ensures Valid()
      ensures attackLog == [LogEntry(None, COLUMN_TITLES)]
      ensures displayColumns == DisplayColumnsFor(settings)
      ensures p1FrameAdvantage == "" && p2FrameAdvantage == "" && p1LiveRecovery == "" && p2LiveRecovery == ""
      ensures p1AdvantageBand == InitialBand && p2AdvantageBand == InitialBand
    {
      attackLog := Inserted([], LogEntry(None, COLUMN_TITLES));
      displayColumns := DisplayColumnsFor(settings);
      p1FrameAdvantage, p2FrameAdvantage := "", "";
      p1LiveRecovery, p2LiveRecovery := "", "";
      p1AdvantageBand, p2AdvantageBand := InitialBand, InitialBand;
    }

    /** `set_display_columns(settings)`. */
    method SetDisplayColumns(settings: seq<string>)
      requires Valid()
      modifies this
      ensures Valid()
      ensures displayColumns == DisplayColumnsFor(settings)
      ensures attackLog == old(attackLog) && p1FrameAdvantage == old(p1FrameAdvantage)
      ensures p2FrameAdvantage == old(p2FrameAdvantage)
      ensures p1LiveRecovery == old(p1LiveRecovery) && p2LiveRecovery == old(p2LiveRecovery)
      ensures p1AdvantageBand == old(p1AdvantageBand) && p2AdvantageBand == old(p2AdvantageBand)
    {
      displayColumns := DisplayColumnsFor(settings);
    }

    /** `insert_columns_to_log(columns, tag)`. */
    method InsertColumnsToLog(columns: seq<string>, tag: Option<string>)
      requires Valid()
      modifies this
      ensures Valid()
      ensures attackLog == Inserted(old(attackLog), LogEntry(tag, columns))
      ensures displayColumns == old(displayColumns)
      ensures p1FrameAdvantage == old(p1FrameAdvantage) && p2FrameAdvantage == old(p2FrameAdvantage)
      ensures p1LiveRecovery == old(p1LiveRecovery) && p2LiveRecovery == old(p2LiveRecovery)
      ensures p1AdvantageBand == old(p1AdvantageBand) && p2AdvantageBand == old(p2AdvantageBand)
    {
      if |attackLog| >= MAX_ATTACK_LOG_LENGTH {
        attackLog := attackLog[..1] + attackLog[2..];
      }
      attackLog := attackLog + [LogEntry(tag, columns)];
    }

    /** `__update_frame_advantage(frame_advantage, player_1)`: the label and
      * the band of player one or two are set, unless the value is ignored.
      * `thresholds` are the values of `FrameAdvantage` in declaration order. */
    method UpdateFrameAdvantage(frameAdvantage: string, player1: bool, thresholds: seq<int>) returns (raised: bool)
      requires Valid()
      modifies this
      ensures Valid()
      ensures raised <==> AdvantageLabel(frameAdvantage) == NotANumber
      ensures var u := AdvantageLabel(frameAdvantage);
        p1FrameAdvantage == (if u.Label? && player1 then u.text else old(p1FrameAdvantage))
        && p2FrameAdvantage == (if u.Label? && !player1 then u.text else old(p2FrameAdvantage))
      ensures var u := AdvantageLabel(frameAdvantage);
        p1AdvantageBand == (if u.Label? && player1 then BandOf(thresholds, ParseInt(frameAdvantage).value)
                            else old(p1AdvantageBand))
        && p2AdvantageBand == (if u.Label? && !player1 then BandOf(thresholds, ParseInt(frameAdvantage).value)
                               else old(p2AdvantageBand))
      ensures attackLog == old(attackLog) && displayColumns == old(displayColumns)
      ensures p1LiveRecovery == old(p1LiveRecovery) && p2LiveRecovery == old(p2LiveRecovery)
    {
      raised := false;
      if !Contains(frameAdvantage, "?") {
        var value := ParseInt(frameAdvantage);
        if value.None? {
          return true;
        }
        var band := NoBand;
        var i := 0;
        while i < |thresholds|
          invariant 0 <= i <= |thresholds|
          invariant FirstAtLeast(thresholds, value.value, i) == FirstAtLeast(thresholds, value.value, 0)
          invariant band == NoBand
        {
          if value.value <= thresholds[i] {
            band := Band(i);
            break;
          }
          i := i + 1;
        }
        var text := IntToString(value.value);
        if value.value >= 0 {
          text := "+" + text;
        }
        if player1 {
          p1FrameAdvantage := text;
          p1AdvantageBand := band;
        } else {
          p2FrameAdvantage := text;
          p2AdvantageBand := band;
        }
      }
    }

    /** `write(string)` with `__process_string` (lines 200-253): a line with
      * 'NOW:' is taken apart; a non-empty column part is logged and shown,
      * then the frame advantage is labelled for the line's player. */
    method Write(s: string, thresholds: seq<int>) returns (outcome: WriteOutcome)
      requires Valid()
      modifies this
      ensures Valid()
      ensures !HasFrameAdvantage(s) ==>
        outcome == NothingShown && attackLog == old(attackLog)
        && p1FrameAdvantage == old(p1FrameAdvantage) && p2FrameAdvantage == old(p2FrameAdvantage)
        && p1AdvantageBand == old(p1AdvantageBand) && p2AdvantageBand == old(p2AdvantageBand)
      ensures HasFrameAdvantage(s) && SplitLine(s).None? ==>
        outcome == Raised && attackLog == old(attackLog)
        && p1FrameAdvantage == old(p1FrameAdvantage) && p2FrameAdvantage == old(p2FrameAdvantage)
        && p1AdvantageBand == old(p1AdvantageBand) && p2AdvantageBand == old(p2AdvantageBand)
      ensures HasFrameAdvantage(s) && SplitLine(s).Some? ==>
        var parts := SplitLine(s).value;
        var values := GenerateColumns(parts.columns);
        var shown := VisibleColumnString(old(displayColumns), values);
        var u := AdvantageLabel(parts.frameAdvantage);
        attackLog == (if parts.columns != "" then Inserted(old(attackLog), LogEntry(None, values)) else old(attackLog))
        && (parts.columns != "" && shown.None? ==>
              outcome == Raised && p1FrameAdvantage == old(p1FrameAdvantage) && p2FrameAdvantage == old(p2FrameAdvantage)
              && p1AdvantageBand == old(p1AdvantageBand) && p2AdvantageBand == old(p2AdvantageBand))
        && (parts.columns == "" || shown.Some? ==>
            p1FrameAdvantage == (if u.Label? && parts.tag == P1_TAG then u.text else old(p1FrameAdvantage))
            && p2FrameAdvantage == (if u.Label? && parts.tag != P1_TAG then u.text else old(p2FrameAdvantage))
            && p1AdvantageBand == (if u.Label? && parts.tag == P1_TAG
                                   then BandOf(thresholds, ParseInt(parts.frameAdvantage).value)
                                   else old(p1AdvantageBand))
            && p2AdvantageBand == (if u.Label? && parts.tag != P1_TAG
                                   then BandOf(thresholds, ParseInt(parts.frameAdvantage).value)
                                   else old(p2AdvantageBand))
            && outcome == (if u == NotANumber then Raised
                           else if parts.columns == "" then NothingShown
                           else Shown(shown.value + "\n", parts.tag)))
      ensures displayColumns == old(displayColumns)
      ensures p1LiveRecovery == old(p1LiveRecovery) && p2LiveRecovery == old(p2LiveRecovery)
    {
      if !HasFrameAdvantage(s) {
        return NothingShown;
      }
      var split := SplitLine(s);
      if split.None? {
        return Raised;
      }
      var parts := split.value;
      var display: Option<string> := None;
      if parts.columns != "" {
        var values := GenerateColumns(parts.columns);
        InsertColumnsToLog(values, None);
        var shown := VisibleColumnString(displayColumns, values);
        if shown.None? {
          return Raised;
        }
        display := Some(shown.value + "\n");
      }
      var raised := UpdateFrameAdvantage(parts.frameAdvantage, parts.tag == P1_TAG, thresholds);
      if raised {
        return Raised;
      }
      outcome := if display.Some? then Shown(display.value, parts.tag) else NothingShown;
    }

    /** `_update_state`'s labels: with more than one frame logged,
      * `p1Frames - p2Frames` is shown for player one and its negation for
      * player two. */
    method UpdateState(logLength: nat, p1Frames: int, p2Frames: int)
      requires Valid()
      modifies this
      ensures Valid()
      ensures logLength > 1 ==> (p1LiveRecovery, p2LiveRecovery) == LiveRecoveryLabels(p1Frames - p2Frames)
      ensures logLength <= 1 ==> p1LiveRecovery == old(p1LiveRecovery) && p2LiveRecovery == old(p2LiveRecovery)
      ensures attackLog == old(attackLog) && displayColumns == old(displayColumns)
      ensures p1FrameAdvantage == old(p1FrameAdvantage) && p2FrameAdvantage == old(p2FrameAdvantage)
      ensures p1AdvantageBand == old(p1AdvantageBand) && p2AdvantageBand == old(p2AdvantageBand)
    {
      if logLength > 1 {
        var p1Recovery := p1Frames - p2Frames;
        var strP1Recovery := IntToString(p1Recovery);
        var strP2Recovery := IntToString(p1Recovery * -1);
        if p1Recovery > 0 {
          strP1Recovery := "+" + strP1Recovery;
        } else if p1Recovery == 0 {
          strP1Recovery := "+" + strP1Recovery;
          strP2Recovery := "+" + strP2Recovery;
        } else {
          strP2Recovery := "+" + strP2Recovery;
        }
        p1LiveRecovery := strP1Recovery;
        p2LiveRecovery := strP2Recovery;
      }
    }
  }

  /** A line as the encyclopedia writes it for an entry, its tag, thirteen
    * values, notes, 'NOW:' and the frame advantage, is taken apart into
    * exactly those pieces. */
  lemma EntryLineParts(tag: string, fields: seq<string>, notes: string, frameAdvantage: string)
    requires tag == P1_TAG || tag == P2_TAG
    requires |fields| == |FrameDataEntries.COLUMN_WIDTHS|
    requires var line := FrameDataEntries.Row(fields, FrameDataEntries.COLUMN_WIDTHS) + notes;
      !Contains(line + FRAME_ADVANTAGE_TAG + frameAdvantage, P1_TAG)
      && !Contains(line + FRAME_ADVANTAGE_TAG + frameAdvantage, P2_TAG)
      && !Contains(line, FRAME_ADVANTAGE_TAG) && !Contains(frameAdvantage, FRAME_ADVANTAGE_TAG)
    ensures var line := FrameDataEntries.Row(fields, FrameDataEntries.COLUMN_WIDTHS) + notes;
      SplitLine(tag + line + FRAME_ADVANTAGE_TAG + frameAdvantage) == Some(LineParts(tag, line, frameAdvantage))
  {
    var line := FrameDataEntries.Row(fields, FrameDataEntries.COLUMN_WIDTHS) + notes;
    var rest := line + FRAME_ADVANTAGE_TAG + frameAdvantage;
    var s := tag + rest;
    assert s == tag + line + FRAME_ADVANTAGE_TAG + frameAdvantage;
    TagRemoved(tag, rest);
    SplitAtOnlyTag(line, frameAdvantage);
  }

  /** A tag in front of text that holds neither tag is found and removed. */
  lemma TagRemoved(tag: string, rest: string)
    requires tag == P1_TAG || tag == P2_TAG
    requires !Contains(rest, P1_TAG) && !Contains(rest, P2_TAG)
    ensures TagOf(tag + rest) == (tag, rest)
  {
    LeadingTagReplaced(tag, rest);
    if tag == P2_TAG {
      NoP1AfterP2(rest);
    } else {
      assert OccursAt(tag + rest, P1_TAG, 0) by {
        assert (tag + rest)[..4] == tag;
      }
    }
  }

  /** Removing a leading tag that occurs nowhere else leaves the rest. */
  lemma LeadingTagReplaced(tag: string, rest: string)
    requires |tag| > 0 && !Contains(rest, tag)
    ensures Replace(tag + rest, tag, "") == rest
  {
    var s := tag + rest;
    assert OccursAt(s, tag, 0) by {
      assert s[..|tag|] == tag;
    }
    SplitOnFirst(s, tag, 0);
    assert s[|tag|..] == rest;
    SplitOnAbsent(rest, tag);
    assert SplitOn(s, tag) == [[], rest];
    assert Join([[], rest], "") == rest;
  }

  /** 'p1: ' does not occur in 'p2: ' followed by text without it. */
  lemma NoP1AfterP2(rest: string)
    requires !Contains(rest, P1_TAG)
    ensures !Contains(P2_TAG + rest, P1_TAG)
  {
    var s := P2_TAG + rest;
    forall i | 0 <= i <= |s| - 4
      ensures !OccursAt(s, P1_TAG, i)
    {
      if i == 0 {
        assert s[0..4][1] == s[1] == '2';
      } else if i < 4 {
        assert s[i..i + 4][0] == s[i] != 'p';
      } else {
        assert s[i..i + 4] == rest[i - 4..i];
        assert !OccursAt(rest, P1_TAG, i - 4);
      }
    }
  }
}
