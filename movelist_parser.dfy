/**
 * The movelist parser (tekken/parsers/movelist_parser.py): reads the header of
 * a character's movelist, the table of move names, and from the move nodes
 * which moves can be done from neutral and the input each move is shown with.
 */
module MovelistParsers {
  import opened Wrappers
  import opened PyStrings

  newtype byte = x: int | 0 <= x < 256

  // ---------------------------------------------------------------------------
  // Header lines (lines 204-206)

  function Pow256(n: nat): (r: nat)
    ensures r > 0
  {
    if n == 0 then 1 else 256 * Pow256(n - 1)
  }

  /** `struct.unpack('<Q', ...)` of the bytes: the first byte is the lowest. */
  function LittleEndian(bs: seq<byte>): nat
  {
    if |bs| == 0 then 0 else bs[0] as nat + 256 * LittleEndian(bs[1..])
  }

  /** `n` bytes hold a value below 256^n. */
  lemma {:induction false} LittleEndianBound(bs: seq<byte>)
    ensures LittleEndian(bs) < Pow256(|bs|)
    decreases |bs|
  {
    if |bs| > 0 {
      LittleEndianBound(bs[1..]);
    }
  }

  /** The little-endian bytes of `x`, as the game writes an address. */
  function ToLittleEndian(x: nat, n: nat): (bs: seq<byte>)
    ensures |bs| == n
  {
    if n == 0 then [] else [(x % 256) as byte] + ToLittleEndian(x / 256, n - 1)
  }

  /** Reading back the bytes of a value that fits gives the value. */
  lemma {:induction false} LittleEndianRoundTrip(x: nat, n: nat)
    requires x < Pow256(n)
    ensures LittleEndian(ToLittleEndian(x, n)) == x
    decreases n
  {
    if n > 0 {
      var bs := ToLittleEndian(x, n);
      assert bs[1..] == ToLittleEndian(x / 256, n - 1);
      LittleEndianRoundTrip(x / 256, n - 1);
    }
  }

  /** `header_line(line)`: the unsigned 64-bit little-endian value at bytes
    * `8*line .. 8*line+8`, less `pointer`. `None` is the `struct.error` of a
    * read past the end, where the slice is shorter than eight bytes. */
  function HeaderLine(bytes: seq<byte>, pointer: int, line: nat): (r: Option<int>)
    ensures r.Some? <==> (line + 1) * 8 <= |bytes|
    ensures r.Some? ==> -pointer <= r.value < Pow256(8) - pointer
  {
    var lineBytes := Slice(bytes, line * 8, (line + 1) * 8);
    LittleEndianBound(lineBytes);
    if |lineBytes| == 8 then Some(LittleEndian(lineBytes) - pointer) else None
  }

  /** A header line holding the address `x` reads as `x - pointer`. */
  lemma HeaderLineReads(bytes: seq<byte>, pointer: int, line: nat, x: nat)
    requires (line + 1) * 8 <= |bytes| && x < Pow256(8)
    requires bytes[line * 8..(line + 1) * 8] == ToLittleEndian(x, 8)
    ensures HeaderLine(bytes, pointer, line) == Some(x - pointer)
  {
    LittleEndianRoundTrip(x, 8);
  }

  // ---------------------------------------------------------------------------
  // Names (lines 69-85)

  const HEADER_LENGTH: int := 0x2e8

  /** `.decode('utf-8')` of a name; the names are ASCII, one byte a character. */
  function Decode(b: seq<byte>): (s: string)
    ensures |s| == |b|
  {
    seq(|b|, i requires 0 <= i < |b| => b[i] as int as char)
  }

  /** `names_double`: the region from the end of the header to `namesEnd`,
    * split on NUL bytes, without its first four pieces. */
  function NamesDouble(bytes: seq<byte>, namesEnd: int): seq<seq<byte>>
  {
    SliceFrom(Split(Slice(bytes, HEADER_LENGTH, namesEnd), 0 as byte), 4)
  }

  /** The loop of lines 84-85: every other piece from the first on, never the
    * last one. */
  method EvenNames(namesDouble: seq<seq<byte>>) returns (names: seq<string>)
    ensures |names| == |namesDouble| / 2
    ensures forall k :: 0 <= k < |names| ==> 2 * k < |namesDouble| - 1 && names[k] == Decode(namesDouble[2 * k])
  {
    names := [];
    var i := 0;
    while i < |namesDouble| - 1
      invariant i % 2 == 0 && 0 <= i <= |namesDouble|
      invariant |names| == i / 2
      invariant forall k :: 0 <= k < |names| ==> names[k] == Decode(namesDouble[2 * k])
    {
      names := names + [Decode(namesDouble[i])];
      i := i + 2;
    }
  }

  /** `self.bytes[a:b].strip(b'\00')`: NUL bytes removed at both ends. */
  function StripNul(b: seq<byte>): (r: seq<byte>)
    ensures |r| <= |b|
    ensures |r| > 0 ==> r[0] != 0 && r[|r| - 1] != 0
    decreases |b|
  {
    if |b| == 0 then []
    else if b[0] == 0 then StripNul(b[1..])
    else if b[|b| - 1] == 0 then StripNul(b[..|b| - 1])
    else b
  }

  /** Stripping is a no-op on bytes with no NUL at either end. */
  lemma StripNulIdempotent(b: seq<byte>)
    ensures StripNul(StripNul(b)) == StripNul(b)
  {
  }

  // ---------------------------------------------------------------------------
  // Move nodes (lines 134-201)

  /** A `MovelistInput` member (its code and `printable_name`), or the raw
    * value of a direction the enum does not know. */
  datatype Direction = Direction(code: int, printableName: string) | RawDirection(value: int)

  /** A `MovelistButtonInput` member, identified by name, or a raw value. */
  datatype ButtonInput = ButtonNull | Button(name: string, printableName: string) | RawButton(value: int)

  /** A `MovelistButtonState` member, identified by name, or a raw value. */
  datatype ButtonState = ButtonState(name: string) | RawButtonState(value: int)

  /** The parts of a move node the parser reads; the struct layout is not part
    * of this model. */
  datatype MoveNode = MoveNode(moveId: int, cancelWindow1: int, direction: Direction,
                               buttonInput: ButtonInput, buttonState: ButtonState)

  /** `(node.direction, node.button_input, node.button_state)`. */
  datatype Candidate = Candidate(direction: Direction, buttonInput: ButtonInput, buttonState: ButtonState)

  function CandidateOf(node: MoveNode): Candidate
  {
    Candidate(node.direction, node.buttonInput, node.buttonState)
  }

  const NULL_DIRECTION: int := 0x0
  const NEUTRAL: int := 0x20
  const FULL_CROUCH: int := 6
  const UP_BACK: int := 0x80
  const UP: int := 0x100
  const UP_FORWARD: int := 0x200
  const WHILE_STANDING: int := 0x3f0

  /** `0x7FFF`: a node whose first cancel window reaches it starts from neutral. */
  const NEUTRAL_CANCEL_WINDOW: int := 0x7FFF

  /** The table `can_move_be_done_from_neutral` after the nodes in order. */
  function NeutralTable(nodes: seq<MoveNode>): map<int, bool>
  {
    if |nodes| == 0 then map[]
    else
      var t := NeutralTable(nodes[..|nodes| - 1]);
      var node := nodes[|nodes| - 1];
      var t1 := if node.moveId in t then t else t[node.moveId := false];
      if node.cancelWindow1 >= NEUTRAL_CANCEL_WINDOW then t1[node.moveId := true] else t1
  }

  predicate HasMove(nodes: seq<MoveNode>, m: int)
  {
    exists i :: 0 <= i < |nodes| && nodes[i].moveId == m
  }

  predicate HasNeutralNode(nodes: seq<MoveNode>, m: int)
  {
    exists i :: 0 <= i < |nodes| && nodes[i].moveId == m && nodes[i].cancelWindow1 >= NEUTRAL_CANCEL_WINDOW
  }

  /** The table knows exactly the move ids of the nodes, and says "from
    * neutral" exactly for those with a node reaching the cancel window. */
  lemma {:induction false} NeutralTableMeaning(nodes: seq<MoveNode>)
    ensures forall m :: m in NeutralTable(nodes) <==> HasMove(nodes, m)
    ensures forall m :: m in NeutralTable(nodes) ==> (NeutralTable(nodes)[m] <==> HasNeutralNode(nodes, m))
    decreases |nodes|
  {
    if |nodes| > 0 {
      var init := nodes[..|nodes| - 1];
      var last := nodes[|nodes| - 1];
      NeutralTableMeaning(init);
      forall m
        ensures HasMove(nodes, m) <==> HasMove(init, m) || last.moveId == m
        ensures HasNeutralNode(nodes, m) <==>
          (HasNeutralNode(init, m) || (last.moveId == m && last.cancelWindow1 >= NEUTRAL_CANCEL_WINDOW))
      {
        if HasMove(init, m) {
          var i :| 0 <= i < |init| && init[i].moveId == m;
          assert nodes[i] == init[i];
        }
        if HasMove(nodes, m) && last.moveId != m {
          var i :| 0 <= i < |nodes| && nodes[i].moveId == m;
          assert init[i] == nodes[i];
        }
        if HasNeutralNode(init, m) {
          var i :| 0 <= i < |init| && init[i].moveId == m && init[i].cancelWindow1 >= NEUTRAL_CANCEL_WINDOW;
          assert nodes[i] == init[i];
        }
        if HasNeutralNode(nodes, m) && !(last.moveId == m && last.cancelWindow1 >= NEUTRAL_CANCEL_WINDOW) {
          var i :| 0 <= i < |nodes| && nodes[i].moveId == m && nodes[i].cancelWindow1 >= NEUTRAL_CANCEL_WINDOW;
          assert i < |init|;
          assert init[i] == nodes[i];
        }
      }
    }
  }

  /** The loop of lines 136-141. */
  method BuildNeutralTable(nodes: seq<MoveNode>) returns (table: map<int, bool>)
    ensures table == NeutralTable(nodes)
  {
    table := map[];
    for i := 0 to |nodes|
      invariant table == NeutralTable(nodes[..i])
    {
      var node := nodes[i];
      assert nodes[..i + 1][..i] == nodes[..i];
      if node.moveId !in table {
        table := table[node.moveId := false];
      }
      if node.cancelWindow1 >= NEUTRAL_CANCEL_WINDOW {
        table := table[node.moveId := true];
      }
    }
    assert nodes[..|nodes|] == nodes;
  }

  /** `can_be_done_from_neutral(move_id)` (lines 208-211): an unknown move
    * (blocking, taking damage) counts as done from neutral. */
  function FromNeutral(table: map<int, bool>, moveId: int): bool
  {
    if moveId in table then table[moveId] else true
  }

  lemma CanBeDoneFromNeutralMeaning(nodes: seq<MoveNode>, moveId: int)
    ensures FromNeutral(NeutralTable(nodes), moveId) <==> !HasMove(nodes, moveId) || HasNeutralNode(nodes, moveId)
  {
    NeutralTableMeaning(nodes);
    if HasNeutralNode(nodes, moveId) {
      var i :| 0 <= i < |nodes| && nodes[i].moveId == moveId && nodes[i].cancelWindow1 >= NEUTRAL_CANCEL_WINDOW;
      assert HasMove(nodes, moveId);
    }
  }

  /** `democratically_chosen_input` after the nodes in order. */
  function CandidateTable(nodes: seq<MoveNode>): map<int, seq<Candidate>>
  {
    if |nodes| == 0 then map[]
    else
      var t := CandidateTable(nodes[..|nodes| - 1]);
      var node := nodes[|nodes| - 1];
      t[node.moveId := (if node.moveId in t then t[node.moveId] else []) + [CandidateOf(node)]]
  }

  /** The candidates of the nodes of move `m`, in node order. */
  function CandidatesOf(nodes: seq<MoveNode>, m: int): seq<Candidate>
  {
    if |nodes| == 0 then []
    else
      CandidatesOf(nodes[..|nodes| - 1], m) + (if nodes[|nodes| - 1].moveId == m then [CandidateOf(nodes[|nodes| - 1])] else [])
  }

  /** The table lists, for every move id of the nodes and no other, the
    * candidates of its nodes in order. */
  lemma {:induction false} CandidateTableMeaning(nodes: seq<MoveNode>)
    ensures forall m :: m in CandidateTable(nodes) <==> HasMove(nodes, m)
    ensures forall m :: m in CandidateTable(nodes) ==> CandidateTable(nodes)[m] == CandidatesOf(nodes, m)
    decreases |nodes|
  {
    if |nodes| > 0 {
      var init := nodes[..|nodes| - 1];
      var last := nodes[|nodes| - 1];
      CandidateTableMeaning(init);
      forall m
        ensures HasMove(nodes, m) <==> HasMove(init, m) || last.moveId == m
      {
        if HasMove(init, m) {
          var i :| 0 <= i < |init| && init[i].moveId == m;
          assert nodes[i] == init[i];
        }
        if HasMove(nodes, m) && last.moveId != m {
          var i :| 0 <= i < |nodes| && nodes[i].moveId == m;
          assert init[i] == nodes[i];
        }
      }
      forall m | m in CandidateTable(init) && m != last.moveId
        ensures CandidatesOf(nodes, m) == CandidatesOf(init, m)
      {
      }
      assert last.moveId !in CandidateTable(init) ==> CandidatesOf(init, last.moveId) == [] by {
        if last.moveId !in CandidateTable(init) {
          NoMoveNoCandidates(init, last.moveId);
        }
      }
    }
  }

  lemma {:induction false} NoMoveNoCandidates(nodes: seq<MoveNode>, m: int)
    requires !HasMove(nodes, m)
    ensures CandidatesOf(nodes, m) == []
    decreases |nodes|
  {
    if |nodes| > 0 {
      var init := nodes[..|nodes| - 1];
      assert !HasMove(init, m);
      NoMoveNoCandidates(init, m);
      assert nodes[|nodes| - 1].moveId != m;
    }
  }

  /** The loop of lines 144-149. */
  method BuildCandidateTable(nodes: seq<MoveNode>) returns (table: map<int, seq<Candidate>>, order: seq<int>)
    ensures table == CandidateTable(nodes)
    ensures forall m :: m in table <==> m in order
  {
    table := map[];
    order := [];
    for i := 0 to |nodes|
      invariant table == CandidateTable(nodes[..i])
      invariant forall m :: m in table <==> m in order
    {
      var node := nodes[i];
      assert nodes[..i + 1][..i] == nodes[..i];
      if node.moveId !in table {
        table := table[node.moveId := []];
        order := order + [node.moveId];
      }
      table := table[node.moveId := table[node.moveId] + [CandidateOf(node)]];
    }
    assert nodes[..|nodes|] == nodes;
  }

  // ---------------------------------------------------------------------------
  // Choosing the input of a move (lines 151-201)

  /** `sort_directions`: the second assignment to `UP_FORWARD` (80) replaces
    * the first (103); anything else is 0. */
  function SortDirection(d: Direction): int
  {
    match d
    case RawDirection(_) => 0
    case Direction(code, _) =>
      if code == FULL_CROUCH then 110
      else if code == UP then 102
      else if code == UP_BACK then 101
      else if code == NEUTRAL then 100
      else if code == WHILE_STANDING then 90
      else if code == UP_FORWARD then 80
      else if code == NULL_DIRECTION then -1
      else 0
  }

  /** `sort_attacks`. */
  function SortAttack(b: ButtonInput): int
  {
    match b
    case Button(name, _) =>
      if name == "B_1" then 100 else if name == "B_2" then 99 else if name == "B_3" then 98
      else if name == "B_4" then 97 else 0
    case _ => 0
  }

  /** `sort_presses`. */
  function SortPress(s: ButtonState): int
  {
    match s
    case ButtonState(name) => if name == "PRESS" then 100 else if name == "NULL" then -2 else 0
    case RawButtonState(_) => 0
  }

  /** The priorities of the three choices, in the order the sort keys list them. */
  lemma DirectionPriorities(p: string)
    ensures SortDirection(Direction(UP_FORWARD, p)) == 80
    ensures SortDirection(Direction(FULL_CROUCH, p)) > SortDirection(Direction(UP, p)) > SortDirection(Direction(UP_BACK, p))
      > SortDirection(Direction(NEUTRAL, p)) > SortDirection(Direction(WHILE_STANDING, p))
      > SortDirection(Direction(UP_FORWARD, p)) > SortDirection(RawDirection(0)) > SortDirection(Direction(NULL_DIRECTION, p))
  {
  }

  /** `list(OrderedDict.fromkeys(candidates))`: first occurrences, in order. */
  function Dedup(s: seq<Candidate>): (r: seq<Candidate>)
    ensures forall x :: x in r <==> x in s
    ensures forall i, j :: 0 <= i < j < |r| ==> r[i] != r[j]
  {
    if |s| == 0 then []
    else
      var d := Dedup(s[..|s| - 1]);
      if s[|s| - 1] in d then d else d + [s[|s| - 1]]
  }

  /** After deduplication every candidate is counted once, so the
    * `Counter(values)` term of the input key never decides. */
  lemma {:induction false} CountDistinct<T>(s: seq<T>, x: T)
    requires forall i, j :: 0 <= i < j < |s| ==> s[i] != s[j]
    requires x in s
    ensures Count(s, x) == 1
    decreases |s|
  {
    if s[0] == x {
      assert x !in s[1..];
      CountAbsent(s[1..], x);
    } else {
      CountDistinct(s[1..], x);
    }
  }

  /** Tuples of priorities compared as Python compares tuples. */
  predicate LexLess(a: seq<int>, b: seq<int>)
    decreases |a|
  {
    |a| > 0 && |b| > 0 && (a[0] < b[0] || (a[0] == b[0] && LexLess(a[1..], b[1..])))
  }

  lemma {:induction false} LexLessIrreflexive(a: seq<int>)
    ensures !LexLess(a, a)
    decreases |a|
  {
    if |a| > 0 {
      LexLessIrreflexive(a[1..]);
    }
  }

  lemma {:induction false} LexLessTransitive(a: seq<int>, b: seq<int>, c: seq<int>)
    requires LexLess(a, b) && LexLess(b, c)
    ensures LexLess(a, c)
    decreases |a|
  {
    if a[0] == b[0] && b[0] == c[0] {
      LexLessTransitive(a[1..], b[1..], c[1..]);
    }
  }

  lemma {:induction false} LexLessTotal(a: seq<int>, b: seq<int>)
    requires |a| == |b|
    ensures LexLess(a, b) || LexLess(b, a) || a == b
    decreases |a|
  {
    if |a| > 0 && a[0] == b[0] {
      LexLessTotal(a[1..], b[1..]);
      if a[1..] == b[1..] {
        assert a == [a[0]] + a[1..] && b == [b[0]] + b[1..];
      }
    }
  }

  /** `sorted(..., reverse=True)[0]`: the sort is stable, so the result is the
    * first element among those with the largest key. */
  function FirstMax(keys: seq<seq<int>>, width: nat): (r: nat)
    requires |keys| > 0 && forall i :: 0 <= i < |keys| ==> |keys[i]| == width
    ensures r < |keys|
    ensures forall j :: 0 <= j < |keys| ==> !LexLess(keys[r], keys[j])
    ensures forall j :: 0 <= j < r ==> LexLess(keys[j], keys[r])
  {
    if |keys| == 1 then
      LexLessIrreflexive(keys[0]);
      0
    else
      var r := FirstMax(keys[..|keys| - 1], width);
      var last := |keys| - 1;
      assert keys[..|keys| - 1][r] == keys[r];
      if LexLess(keys[r], keys[last]) then
        assert forall j :: 0 <= j < last ==> LexLess(keys[j], keys[last]) by {
          forall j | 0 <= j < last
            ensures LexLess(keys[j], keys[last])
          {
            assert keys[..|keys| - 1][j] == keys[j];
            LexLessTotal(keys[j], keys[r]);
            if LexLess(keys[j], keys[r]) {
              LexLessTransitive(keys[j], keys[r], keys[last]);
            }
          }
        }
        assert !LexLess(keys[last], keys[last]) by {
          LexLessIrreflexive(keys[last]);
        }
        assert forall j :: 0 <= j < last ==> !LexLess(keys[last], keys[j]) by {
          forall j | 0 <= j < last
            ensures !LexLess(keys[last], keys[j])
          {
            assert keys[..|keys| - 1][j] == keys[j];
            if LexLess(keys[last], keys[j]) {
              LexLessTransitive(keys[r], keys[last], keys[j]);
            }
          }
        }
        last
      else
        assert forall j | 0 <= j < last :: keys[..|keys| - 1][j] == keys[j];
        r
  }

  function DirectionKey(c: Candidate): seq<int>
  {
    [SortDirection(c.direction), SortPress(c.buttonState)]
  }

  function InputKey(c: Candidate, values: seq<Candidate>): seq<int>
  {
    [SortPress(c.buttonState), Count(values, c), SortAttack(c.buttonInput)]
  }

  function StateKey(c: Candidate): seq<int>
  {
    [SortPress(c.buttonState)]
  }

  /** The index of the candidate the sort on the `which`-th key (0: direction,
    * 1: input, 2: state) puts first: no candidate has a larger key and every
    * one before it a smaller one. */
  function ChosenIndex(d: seq<Candidate>, which: nat): (r: nat)
    requires |d| > 0 && which < 3
    ensures r < |d|
    ensures which == 0 ==>
      (forall j :: 0 <= j < |d| ==> !LexLess(DirectionKey(d[r]), DirectionKey(d[j])))
      && (forall j :: 0 <= j < r ==> LexLess(DirectionKey(d[j]), DirectionKey(d[r])))
    ensures which == 1 ==>
      (forall j :: 0 <= j < |d| ==> !LexLess(InputKey(d[r], d), InputKey(d[j], d)))
      && (forall j :: 0 <= j < r ==> LexLess(InputKey(d[j], d), InputKey(d[r], d)))
    ensures which == 2 ==>
      (forall j :: 0 <= j < |d| ==> !LexLess(StateKey(d[r]), StateKey(d[j])))
      && (forall j :: 0 <= j < r ==> LexLess(StateKey(d[j]), StateKey(d[r])))
  {
    if which == 0 then
      var keys := seq(|d|, i requires 0 <= i < |d| => DirectionKey(d[i]));
      assert forall j :: 0 <= j < |d| ==> keys[j] == DirectionKey(d[j]);
      FirstMax(keys, 2)
    else if which == 1 then
      var keys := seq(|d|, i requires 0 <= i < |d| => InputKey(d[i], d));
      assert forall j :: 0 <= j < |d| ==> keys[j] == InputKey(d[j], d);
      FirstMax(keys, 3)
    else
      var keys := seq(|d|, i requires 0 <= i < |d| => StateKey(d[i]));
      assert forall j :: 0 <= j < |d| ==> keys[j] == StateKey(d[j]);
      FirstMax(keys, 1)
  }

  /** `move_id_to_input[move_id]`: the direction of the best direction
    * candidate, the button of the best input candidate and the state of the
    * best state candidate, among the distinct candidates. */
  function ChosenInput(candidates: seq<Candidate>): (r: Option<Candidate>)
    ensures r.None? <==> |candidates| == 0
    ensures r.Some? ==> exists c :: c in candidates && c.direction == r.value.direction
    ensures r.Some? ==> exists c :: c in candidates && c.buttonInput == r.value.buttonInput
    ensures r.Some? ==> exists c :: c in candidates && c.buttonState == r.value.buttonState
  {
    var d := Dedup(candidates);
    assert |candidates| > 0 ==> candidates[0] in d;
    if |d| == 0 then None
    else
      var i, j, k := ChosenIndex(d, 0), ChosenIndex(d, 1), ChosenIndex(d, 2);
      assert d[i] in candidates && d[j] in candidates && d[k] in candidates;
      Some(Candidate(d[i].direction, d[j].buttonInput, d[k].buttonState))
  }

  /** Every distinct candidate occurs once, so the `Counter(values)` term of
    * the input key is 1 for all of them and never decides. */
  lemma DistinctCountsOnce(candidates: seq<Candidate>)
    ensures var d := Dedup(candidates);
      forall j :: 0 <= j < |d| ==> InputKey(d[j], d)[1] == 1
  {
    var d := Dedup(candidates);
    forall j | 0 <= j < |d|
      ensures InputKey(d[j], d)[1] == 1
    {
      CountDistinct(d, d[j]);
    }
  }

  /** `move_id_to_input` for the table of candidates. */
  function MoveIdToInput(table: map<int, seq<Candidate>>): map<int, Candidate>
  {
    ChosenEach(table, ChosenInput)
  }

  /** Every entry of the candidate table has at least one candidate. */
  lemma CandidateTableNonEmpty(nodes: seq<MoveNode>)
    ensures forall m :: m in CandidateTable(nodes) ==> |CandidateTable(nodes)[m]| > 0
  {
  }

  /** `move_id_to_input` is defined exactly for the move ids of the nodes. */
  lemma MoveIdToInputDomain(nodes: seq<MoveNode>)
    ensures forall m :: m in MoveIdToInput(CandidateTable(nodes)) <==> HasMove(nodes, m)
  {
    CandidateTableMeaning(nodes);
    CandidateTableNonEmpty(nodes);
  }

  /** The loop of lines 172-201 over the entries of the candidate table, in
    * the table's insertion order `order`. */
  method BuildMoveIdToInput(table: map<int, seq<Candidate>>, order: seq<int>) returns (inputs: map<int, Candidate>)
    requires forall m :: m in table <==> m in order
    ensures inputs == MoveIdToInput(table)
  {
    inputs := map[];
    for i := 0 to |order|
      invariant forall m :: m in inputs <==> m in table && m in order[..i] && ChosenInput(table[m]).Some?
      invariant forall m :: m in inputs ==> Some(inputs[m]) == ChosenInput(table[m])
    {
      var m := order[i];
      assert order[..i + 1] == order[..i] + [m];
      var chosen := ChosenInput(table[m]);
      if chosen.Some? {
        inputs := inputs[m := chosen.value];
      }
    }
    assert order[..|order|] == order;
    ChosenForAll(table, inputs, ChosenInput);
  }

  /** The map of the values `f` chooses for the entries of `table`. */
  function ChosenEach<V, W>(table: map<int, V>, f: V -> Option<W>): map<int, W>
  {
    map m | m in table && f(table[m]).Some? :: f(table[m]).value
  }

  lemma ChosenForAll<V, W>(table: map<int, V>, inputs: map<int, W>, f: V -> Option<W>)
    requires forall m :: m in inputs <==> m in table && f(table[m]).Some?
    requires forall m :: m in inputs ==> Some(inputs[m]) == f(table[m])
    ensures inputs == ChosenEach(table, f)
  {
    var e := ChosenEach(table, f);
    forall m
      ensures m in inputs <==> m in e
    {
      assert m in e <==> m in table && f(table[m]).Some?;
    }
    forall m | m in e
      ensures e[m] == inputs[m]
    {
    }
  }

  // ---------------------------------------------------------------------------
  // The input string of a move (lines 213-266)

  const EMPTY_CANCEL_STRINGS: seq<string> := ["b", "_B", "_R_D", "y", "Rv", "_R", "_D", "Y"]

  /** `-1 < i < len(names)`. */
  predicate NameIndex(names: seq<string>, i: int)
  {
    -1 < i < |names|
  }

  /** The text of a direction: its printable name, or `str` of a raw value. */
  function DirectionText(d: Direction): string
  {
    match d
    case Direction(_, p) => p
    case RawDirection(v) => IntToString(v)
  }

  /** The direction part: none for `NULL` and `NEUTRAL`; 'ff' for a dash move
    * (a name with '66' but not '666'); otherwise the direction's text. */
  function DirectionPart(d: Direction, names: seq<string>, moveId: int): string
  {
    if d.Direction? && (d.code == NULL_DIRECTION || d.code == NEUTRAL) then ""
    else if NameIndex(names, moveId) && Contains(names[moveId], "66") && !Contains(names[moveId], "666") then "ff"
    else DirectionText(d)
  }

  /** '*' for a button state whose name contains 'RELEASE'. */
  function StatePart(s: ButtonState): string
  {
    if s.ButtonState? && Contains(s.name, "RELEASE") then "*" else ""
  }

  /** The button's printable name, none for `NULL` or a raw value. */
  function ButtonPart(b: ButtonInput): string
  {
    if b.Button? then b.printableName else ""
  }

  /** `self.names[previous_move_id] in [self.names[move_id] + s for s in EMPTY_CANCEL_STRINGS]`. */
  predicate IsEmptyCancel(names: seq<string>, moveId: int, previousMoveId: int)
  {
    NameIndex(names, previousMoveId) && NameIndex(names, moveId)
    && names[previousMoveId] in seq(|EMPTY_CANCEL_STRINGS|, k requires 0 <= k < |EMPTY_CANCEL_STRINGS| => names[moveId] + EMPTY_CANCEL_STRINGS[k])
  }

  /** The result of `input_for_move`. */
  datatype MoveText = MoveText(input: string, lastMoveWasEmptyCancel: bool)

  /** `input_for_move(move_id, previous_move_id)` as a specification. */
  function MoveInputText(names: seq<string>, inputs: map<int, Candidate>, moveId: int, previousMoveId: int): MoveText
  {
    if moveId !in inputs then MoveText("N/A", false)
    else
      var t := inputs[moveId];
      MoveText(DirectionPart(t.direction, names, moveId) + StatePart(t.buttonState) + ButtonPart(t.buttonInput),
               IsEmptyCancel(names, moveId, previousMoveId))
  }

  /** An empty cancel's name is the move's name followed by one of the cancel
    * suffixes, so it is strictly longer: no move is an empty cancel of itself. */
  lemma EmptyCancelLonger(names: seq<string>, moveId: int, previousMoveId: int)
    requires IsEmptyCancel(names, moveId, previousMoveId)
    ensures exists k :: 0 <= k < |EMPTY_CANCEL_STRINGS| && names[previousMoveId] == names[moveId] + EMPTY_CANCEL_STRINGS[k]
    ensures |names[previousMoveId]| > |names[moveId]|
    ensures moveId != previousMoveId
  {
    var s := seq(|EMPTY_CANCEL_STRINGS|, k requires 0 <= k < |EMPTY_CANCEL_STRINGS| => names[moveId] + EMPTY_CANCEL_STRINGS[k]);
    var k :| 0 <= k < |s| && s[k] == names[previousMoveId];
    assert |EMPTY_CANCEL_STRINGS[k]| > 0;
  }

  /** An unknown move reads 'N/A' and is no empty cancel; a known move with no
    * direction part, no release and no button reads as the empty string. */
  lemma InputForMoveCases(names: seq<string>, inputs: map<int, Candidate>, moveId: int, previousMoveId: int)
    ensures moveId !in inputs ==> MoveInputText(names, inputs, moveId, previousMoveId) == MoveText("N/A", false)
    ensures moveId in inputs ==>
      var t := inputs[moveId];
      var r := MoveInputText(names, inputs, moveId, previousMoveId).input;
      (t.direction.Direction? && t.direction.code == NEUTRAL ==> r == StatePart(t.buttonState) + ButtonPart(t.buttonInput))
      && (t.buttonInput.ButtonNull? && t.buttonState == ButtonState("PRESS") ==> r == DirectionPart(t.direction, names, moveId))
  {
    if moveId in inputs {
      var t := inputs[moveId];
      if t.buttonState == ButtonState("PRESS") {
        NoReleaseInPress();
      }
    }
  }

  lemma NoReleaseInPress()
    ensures !Contains("PRESS", "RELEASE")
  {
  }

  /** The parser after `parse_header`: the names, the neutral table and the
    * chosen inputs. */
  class MovelistParser {
    const pointer: int
    var charName: string
    var names: seq<string>
    var canMoveBeDoneFromNeutral: map<int, bool>
    var moveIdToInput: map<int, Candidate>

    /** `MovelistParser(movelist_bytes, movelist_pointer)` and `parse_header`
      * (lines 48-201). `nodes` are the move nodes read from the bytes between
      * the addresses of header lines 54 and 58. The header must be complete
      * for its lines to be read. */
    constructor(bytes: seq<byte>, pointer: int, nodes: seq<MoveNode>)
      requires |bytes| >= HEADER_LENGTH
      ensures this.pointer == pointer
      ensures charName == Decode(StripNul(Slice(bytes, HeaderLine(bytes, pointer, 1).value, HeaderLine(bytes, pointer, 2).value)))
      ensures var d := NamesDouble(bytes, HeaderLine(bytes, pointer, 42).value);
        |names| == |d| / 2 && forall k :: 0 <= k < |names| ==> names[k] == Decode(d[2 * k])
      ensures canMoveBeDoneFromNeutral == NeutralTable(nodes)
      ensures moveIdToInput == MoveIdToInput(CandidateTable(nodes))
    {
      this.pointer := pointer;
      var charNameAddress := HeaderLine(bytes, pointer, 1).value;
      var developerNameAddress := HeaderLine(bytes, pointer, 2).value;
      charName := Decode(StripNul(Slice(bytes, charNameAddress, developerNameAddress)));
      var namesEnd := HeaderLine(bytes, pointer, 42).value;
      var parsedNames := EvenNames(NamesDouble(bytes, namesEnd));
      var neutral := BuildNeutralTable(nodes);
      var candidates, order := BuildCandidateTable(nodes);
      var inputs := BuildMoveIdToInput(candidates, order);
      names := parsedNames;
      canMoveBeDoneFromNeutral := neutral;
      moveIdToInput := inputs;
    }

    /** `can_be_done_from_neutral(move_id)`. */
    function CanBeDoneFromNeutral(moveId: int): bool
      reads this
    {
      FromNeutral(canMoveBeDoneFromNeutral, moveId)
    }

    /** `input_for_move(move_id, previous_move_id)`: the string is built part
      * by part. */
    method InputForMove(moveId: int, previousMoveId: int) returns (r: MoveText)
      ensures r == MoveInputText(names, moveIdToInput, moveId, previousMoveId)
    {
      if moveId !in moveIdToInput {
        return MoveText("N/A", false);
      }
      var strInput := "";
      var lastMoveWasEmptyCancel := false;
      var moveTuple := moveIdToInput[moveId];
      if !(moveTuple.direction.Direction? && (moveTuple.direction.code == NULL_DIRECTION || moveTuple.direction.code == NEUTRAL)) {
        if NameIndex(names, moveId) && Contains(names[moveId], "66") && !Contains(names[moveId], "666") {
          strInput := strInput + "ff";
        } else {
          strInput := strInput + DirectionText(moveTuple.direction);
        }
      }
      if moveTuple.buttonState.ButtonState? && Contains(moveTuple.buttonState.name, "RELEASE") {
        strInput := strInput + "*";
      }
      if moveTuple.buttonInput.Button? {
        strInput := strInput + moveTuple.buttonInput.printableName;
      }
      if NameIndex(names, previousMoveId) && NameIndex(names, moveId) {
        if IsEmptyCancel(names, moveId, previousMoveId) {
          lastMoveWasEmptyCancel := true;
        }
      }
      return MoveText(strInput, lastMoveWasEmptyCancel);
    }
  }
}
