/**
 * The combo events of TekkenEncyclopedia.py (`GameStatEventEntry`,
 * `RoundSummary`): how the start of a combo is classified, how a finished combo
 * is closed, and how a round's events are collated by kind.
 */
module GameStats {
  import opened PyStrings

  /** `GameStatEventEntry.EntryType` (TekkenEncyclopedia.py, lines 689-708). */
  datatype EntryType =
    COUNTER | PUNISH | WHIFF_PUNISH | LOW | MID | THROW | GROUND | NO_BLOCK
    | ARMORED | UNBLOCKABLE | ANTIAIR | POWER_CRUSHED | LOW_PARRY | OUT_OF_THE_AIR
  {
    function Code(): int
    {
      match this
      case COUNTER => 1
      case PUNISH => 2
      case WHIFF_PUNISH => 3
      case LOW => 4
      case MID => 5
      case THROW => 6
      case GROUND => 7
      case NO_BLOCK => 8
      case ARMORED => 10
      case UNBLOCKABLE => 12
      case ANTIAIR => 14
      case POWER_CRUSHED => 15
      case LOW_PARRY => 9
      case OUT_OF_THE_AIR => 13
    }

    function Name(): string
    {
      match this
      case COUNTER => "COUNTER"
      case PUNISH => "PUNISH"
      case WHIFF_PUNISH => "WHIFF_PUNISH"
      case LOW => "LOW"
      case MID => "MID"
      case THROW => "THROW"
      case GROUND => "GROUND"
      case NO_BLOCK => "NO_BLOCK"
      case ARMORED => "ARMORED"
      case UNBLOCKABLE => "UNBLOCKABLE"
      case ANTIAIR => "ANTIAIR"
      case POWER_CRUSHED => "POWER_CRUSHED"
      case LOW_PARRY => "LOW_PARRY"
      case OUT_OF_THE_AIR => "OUT_OF_THE_AIR"
    }
  }

  /** `for entry in GameStatEventEntry.EntryType`: definition order. */
  const ENTRY_TYPES: seq<EntryType> :=
    [EntryType.COUNTER, EntryType.PUNISH, EntryType.WHIFF_PUNISH, EntryType.LOW, EntryType.MID,
     EntryType.THROW, EntryType.GROUND, EntryType.NO_BLOCK, EntryType.ARMORED, EntryType.UNBLOCKABLE,
     EntryType.ANTIAIR, EntryType.POWER_CRUSHED, EntryType.LOW_PARRY, EntryType.OUT_OF_THE_AIR]

  /** Every member is listed once, and the values are distinct. */
  lemma EntryTypesListed(t: EntryType, u: EntryType)
    ensures t in ENTRY_TYPES
    ensures |ENTRY_TYPES| == 14
    ensures forall i, j :: 0 <= i < j < |ENTRY_TYPES| ==> ENTRY_TYPES[i] != ENTRY_TYPES[j]
    ensures t.Code() == u.Code() ==> t == u
  {
  }

  // ---------------------------------------------------------------------------
  // Events

  /** A `GameStatEventEntry` before `close_entry`. */
  datatype OpenEvent = OpenEvent(
    startTime: int,
    playerString: string,
    hitType: EntryType,
    damageAlreadyOnComboCounter: int)

  /** A `GameStatEventEntry` after `close_entry`. */
  datatype GameStatEvent = GameStatEvent(
    startTime: int,
    playerString: string,
    hitType: EntryType,
    damageAlreadyOnComboCounter: int,
    endTime: int,
    totalHits: int,
    totalDamage: int,
    juggleDamage: int)

  /** `close_entry(time_in_frames, total_hits, total_damage, juggle_damage,
    * times_hit)` (lines 716-729): the closed event and the line printed. The
    * damage already on the combo counter when the event opened is not the
    * event's, and the stored damage never goes below zero. */
  function CloseEntry(e: OpenEvent, timeInFrames: int, totalHits: int, totalDamage: int,
                      juggleDamage: int, timesHit: int): (r: (GameStatEvent, string))
    ensures r.0.totalDamage >= 0
    ensures totalDamage >= e.damageAlreadyOnComboCounter
        ==> r.0.totalDamage + e.damageAlreadyOnComboCounter == totalDamage
    ensures totalDamage < e.damageAlreadyOnComboCounter ==> r.0.totalDamage == 0
    ensures r.0.startTime == e.startTime && r.0.playerString == e.playerString && r.0.hitType == e.hitType
    ensures r.0.endTime == timeInFrames && r.0.totalHits == totalHits && r.0.juggleDamage == juggleDamage
  {
    var damage := if totalDamage - e.damageAlreadyOnComboCounter >= 0 then totalDamage - e.damageAlreadyOnComboCounter else 0;
    var closed := GameStatEvent(e.startTime, e.playerString, e.hitType, e.damageAlreadyOnComboCounter,
                                timeInFrames, totalHits, damage, juggleDamage);
    (closed, e.playerString + " " + e.hitType.Name() + " | " + IntToString(damage) + " | "
             + IntToString(totalHits) + " | " + IntToString(e.startTime) + " | "
             + IntToString(timeInFrames) + " | HIT")
  }

  // ---------------------------------------------------------------------------
  // Classifying the start of a combo (lines 239-267)

  /** The questions the classifier asks, evaluated 4 frames back. */
  datatype ComboContext = ComboContext(
    oppAttackUnblockable: bool,
    oppAttackAntiair: bool,
    botBeingThrown: bool,
    oppTookDamageDuringStartup: bool,
    botStartedGettingPunished: bool,
    botGettingCounterHit: bool,
    botGettingHitOnGround: bool,
    botStartupTwoFramesAgo: bool,
    oppAttackLow: bool,
    oppAttackMid: bool,
    botCrouching: bool)

  /** The `if`/`elif` chain: the first question answered yes decides. */
  function ClassifyComboStart(c: ComboContext): EntryType
  {
    if c.oppAttackUnblockable then EntryType.UNBLOCKABLE
    else if c.oppAttackAntiair then EntryType.ANTIAIR
    else if c.botBeingThrown then EntryType.THROW
    else if c.oppTookDamageDuringStartup then EntryType.POWER_CRUSHED
    else if c.botStartedGettingPunished then EntryType.PUNISH
    else if c.botGettingCounterHit then EntryType.COUNTER
    else if c.botGettingHitOnGround then EntryType.GROUND
    else if c.botStartupTwoFramesAgo then EntryType.WHIFF_PUNISH
    else if c.oppAttackLow then EntryType.LOW
    else if c.oppAttackMid && c.botCrouching then EntryType.MID
    else EntryType.NO_BLOCK
  }

  /** The kinds in the order they are tried. */
  const COMBO_ORDER: seq<EntryType> :=
    [EntryType.UNBLOCKABLE, EntryType.ANTIAIR, EntryType.THROW, EntryType.POWER_CRUSHED, EntryType.PUNISH,
     EntryType.COUNTER, EntryType.GROUND, EntryType.WHIFF_PUNISH, EntryType.LOW, EntryType.MID]

  /** The test for each kind of `COMBO_ORDER`; a mid only counts on a crouching bot. */
  function Tests(c: ComboContext): (r: seq<bool>)
    ensures |r| == |COMBO_ORDER|
  {
    [c.oppAttackUnblockable, c.oppAttackAntiair, c.botBeingThrown, c.oppTookDamageDuringStartup,
     c.botStartedGettingPunished, c.botGettingCounterHit, c.botGettingHitOnGround,
     c.botStartupTwoFramesAgo, c.oppAttackLow, c.oppAttackMid && c.botCrouching]
  }

  /** First match in a list of tests from position `from` on: an independent
    * reading of the chain. */
  function FirstMatch(tests: seq<bool>, kinds: seq<EntryType>, from: nat, otherwise: EntryType): EntryType
    requires |tests| == |kinds|
    decreases |tests| - from
  {
    if from >= |tests| then otherwise
    else if tests[from] then kinds[from]
    else FirstMatch(tests, kinds, from + 1, otherwise)
  }

  /** `FirstMatch` gives the kind of the first passing test, or the default
    * when none passes. */
  lemma {:induction false} FirstMatchCharacterised(tests: seq<bool>, kinds: seq<EntryType>, from: nat, otherwise: EntryType)
    requires |tests| == |kinds|
    ensures var r := FirstMatch(tests, kinds, from, otherwise);
      (r == otherwise && forall j :: from <= j < |tests| ==> !tests[j])
      || exists i :: from <= i < |tests| && tests[i] && r == kinds[i] && forall j :: from <= j < i ==> !tests[j]
    decreases |tests| - from
  {
    if from < |tests| && !tests[from] {
      FirstMatchCharacterised(tests, kinds, from + 1, otherwise);
    }
  }

  /** The classifier is first match over `COMBO_ORDER`, with `NO_BLOCK` last. */
  lemma ClassifyIsFirstMatch(c: ComboContext)
    ensures ClassifyComboStart(c) == FirstMatch(Tests(c), COMBO_ORDER, 0, EntryType.NO_BLOCK)
  {
    FirstTests(c);
    MiddleTests(c);
  }

  /** The start of the chain: the unblockable and the anti-air tests. */
  lemma FirstTests(c: ComboContext)
    ensures FirstMatch(Tests(c), COMBO_ORDER, 0, EntryType.NO_BLOCK)
      == if c.oppAttackUnblockable then EntryType.UNBLOCKABLE
         else if c.oppAttackAntiair then EntryType.ANTIAIR
         else FirstMatch(Tests(c), COMBO_ORDER, 2, EntryType.NO_BLOCK)
  {
    var t := Tests(c);
    var o := COMBO_ORDER;
    var n := EntryType.NO_BLOCK;
    assert FirstMatch(t, o, 1, n) == if t[1] then o[1] else FirstMatch(t, o, 2, n);
    assert FirstMatch(t, o, 0, n) == if t[0] then o[0] else FirstMatch(t, o, 1, n);
  }

  /** The chain from the throw on. */
  lemma MiddleTests(c: ComboContext)
    ensures FirstMatch(Tests(c), COMBO_ORDER, 2, EntryType.NO_BLOCK)
      == if c.botBeingThrown then EntryType.THROW
         else if c.oppTookDamageDuringStartup then EntryType.POWER_CRUSHED
         else if c.botStartedGettingPunished then EntryType.PUNISH
         else if c.botGettingCounterHit then EntryType.COUNTER
         else if c.botGettingHitOnGround then EntryType.GROUND
         else if c.botStartupTwoFramesAgo then EntryType.WHIFF_PUNISH
         else if c.oppAttackLow then EntryType.LOW
         else if c.oppAttackMid && c.botCrouching then EntryType.MID
         else EntryType.NO_BLOCK
  {
    LaterTests(c);
    var t := Tests(c);
    var o := COMBO_ORDER;
    var n := EntryType.NO_BLOCK;
    assert FirstMatch(t, o, 4, n) == if t[4] then o[4] else FirstMatch(t, o, 5, n);
    assert FirstMatch(t, o, 3, n) == if t[3] then o[3] else FirstMatch(t, o, 4, n);
    assert FirstMatch(t, o, 2, n) == if t[2] then o[2] else FirstMatch(t, o, 3, n);
  }

  /** The second half of the chain, from the counter hit on. */
  lemma LaterTests(c: ComboContext)
    ensures FirstMatch(Tests(c), COMBO_ORDER, 5, EntryType.NO_BLOCK)
      == if c.botGettingCounterHit then EntryType.COUNTER
         else if c.botGettingHitOnGround then EntryType.GROUND
         else if c.botStartupTwoFramesAgo then EntryType.WHIFF_PUNISH
         else if c.oppAttackLow then EntryType.LOW
         else if c.oppAttackMid && c.botCrouching then EntryType.MID
         else EntryType.NO_BLOCK
  {
    var t := Tests(c);
    var o := COMBO_ORDER;
    var n := EntryType.NO_BLOCK;
    assert FirstMatch(t, o, 10, n) == n;
    assert FirstMatch(t, o, 9, n) == if t[9] then o[9] else n;
    assert FirstMatch(t, o, 8, n) == if t[8] then o[8] else FirstMatch(t, o, 9, n);
    assert FirstMatch(t, o, 7, n) == if t[7] then o[7] else FirstMatch(t, o, 8, n);
    assert FirstMatch(t, o, 6, n) == if t[6] then o[6] else FirstMatch(t, o, 7, n);
    assert FirstMatch(t, o, 5, n) == if t[5] then o[5] else FirstMatch(t, o, 6, n);
  }

  /** Kind k of `COMBO_ORDER` is chosen exactly when its test passes and no
    * earlier one does; `NO_BLOCK` exactly when every test fails. */
  lemma ClassifyPriority(c: ComboContext, k: nat)
    requires k < |COMBO_ORDER|
    ensures ClassifyComboStart(c) == COMBO_ORDER[k] <==> Tests(c)[k] && forall j :: 0 <= j < k ==> !Tests(c)[j]
    ensures ClassifyComboStart(c) == EntryType.NO_BLOCK <==> forall j :: 0 <= j < |COMBO_ORDER| ==> !Tests(c)[j]
  {
    ClassifyIsFirstMatch(c);
    FirstMatchCharacterised(Tests(c), COMBO_ORDER, 0, EntryType.NO_BLOCK);
    assert forall i, j :: 0 <= i < j < |COMBO_ORDER| ==> COMBO_ORDER[i] != COMBO_ORDER[j];
    assert EntryType.NO_BLOCK !in COMBO_ORDER;
  }

  // ---------------------------------------------------------------------------
  // RoundSummary.collate_events (lines 748-775)

  /** One entry of `sources`: a kind, how often it occurred, its damage. */
  datatype Source = Source(entry: EntryType, occurrences: int, damage: int)

  /** What an event adds to a tally: of juggles (`juggle`) or of pokes, its
    * hits (`hits`) or its damage. */
  function Contribution(e: GameStatEvent, juggle: bool, hits: bool): int
  {
    if (e.juggleDamage > 0) == juggle then (if hits then 1 else e.totalDamage) else 0
  }

  /** A tally over all events. */
  function Tally(events: seq<GameStatEvent>, juggle: bool, hits: bool): int
  {
    if |events| == 0 then 0
    else Tally(events[..|events| - 1], juggle, hits) + Contribution(events[|events| - 1], juggle, hits)
  }

  /** A tally over the events of one kind. */
  function TallyOfKind(events: seq<GameStatEvent>, t: EntryType, juggle: bool, hits: bool): int
  {
    if |events| == 0 then 0
    else TallyOfKind(events[..|events| - 1], t, juggle, hits)
         + (if events[|events| - 1].hitType == t then Contribution(events[|events| - 1], juggle, hits) else 0)
  }

  /** Occurrences and damage of one kind. */
  function Occurrences(events: seq<GameStatEvent>, t: EntryType): int
  {
    if |events| == 0 then 0
    else Occurrences(events[..|events| - 1], t) + (if events[|events| - 1].hitType == t then 1 else 0)
  }

  function DamageOf(events: seq<GameStatEvent>, t: EntryType): int
  {
    if |events| == 0 then 0
    else DamageOf(events[..|events| - 1], t) + (if events[|events| - 1].hitType == t then events[|events| - 1].totalDamage else 0)
  }

  /** The sum of all events' damage. */
  function TotalDamage(events: seq<GameStatEvent>): int
  {
    if |events| == 0 then 0 else TotalDamage(events[..|events| - 1]) + events[|events| - 1].totalDamage
  }

  /** The per-kind tallies summed over the first `n` kinds of `ENTRY_TYPES`. */
  function TallyOverKinds(events: seq<GameStatEvent>, n: nat, juggle: bool, hits: bool): int
    requires n <= |ENTRY_TYPES|
  {
    if n == 0 then 0 else TallyOverKinds(events, n - 1, juggle, hits) + TallyOfKind(events, ENTRY_TYPES[n - 1], juggle, hits)
  }

  /** An amount counted for one kind only, summed over the kinds. */
  lemma {:induction false} IndicatorOverKinds(t: EntryType, v: int, n: nat)
    requires n <= |ENTRY_TYPES|
    ensures SumIndicator(t, v, n) == if t in ENTRY_TYPES[..n] then v else 0
  {
    EntryTypesListed(t, t);
    if n > 0 {
      IndicatorOverKinds(t, v, n - 1);
      assert ENTRY_TYPES[..n] == ENTRY_TYPES[..n - 1] + [ENTRY_TYPES[n - 1]];
      if ENTRY_TYPES[n - 1] == t {
        var pre := ENTRY_TYPES[..n - 1];
        assert t !in pre by {
          forall i | 0 <= i < |pre|
            ensures pre[i] != t
          {
            assert pre[i] == ENTRY_TYPES[i] != ENTRY_TYPES[n - 1];
          }
        }
      }
    }
  }

  function SumIndicator(t: EntryType, v: int, n: nat): int
    requires n <= |ENTRY_TYPES|
  {
    if n == 0 then 0 else SumIndicator(t, v, n - 1) + (if ENTRY_TYPES[n - 1] == t then v else 0)
  }

  /** Taking one more event adds its contribution under its own kind. */
  lemma {:induction false} TallyOverKindsSnoc(events: seq<GameStatEvent>, e: GameStatEvent, n: nat, juggle: bool, hits: bool)
    requires n <= |ENTRY_TYPES|
    ensures TallyOverKinds(events + [e], n, juggle, hits)
         == TallyOverKinds(events, n, juggle, hits) + SumIndicator(e.hitType, Contribution(e, juggle, hits), n)
  {
    assert (events + [e])[..|events|] == events;
    if n > 0 {
      TallyOverKindsSnoc(events, e, n - 1, juggle, hits);
    }
  }

  /** Every event has exactly one kind, so the per-kind tallies add up to the
    * tally over all events. */
  lemma {:induction false} KindsPartitionEvents(events: seq<GameStatEvent>, juggle: bool, hits: bool)
    ensures TallyOverKinds(events, |ENTRY_TYPES|, juggle, hits) == Tally(events, juggle, hits)
    decreases |events|
  {
    if |events| == 0 {
      ZeroOverKinds(|ENTRY_TYPES|, juggle, hits);
    } else {
      var init := events[..|events| - 1];
      var e := events[|events| - 1];
      assert events == init + [e];
      KindsPartitionEvents(init, juggle, hits);
      TallyOverKindsSnoc(init, e, |ENTRY_TYPES|, juggle, hits);
      IndicatorOverKinds(e.hitType, Contribution(e, juggle, hits), |ENTRY_TYPES|);
      assert ENTRY_TYPES[..|ENTRY_TYPES|] == ENTRY_TYPES;
    }
  }

  lemma {:induction false} ZeroOverKinds(n: nat, juggle: bool, hits: bool)
    requires n <= |ENTRY_TYPES|
    ensures TallyOverKinds([], n, juggle, hits) == 0
  {
    if n > 0 {
      ZeroOverKinds(n - 1, juggle, hits);
    }
  }

  /** Juggles and pokes split the events: together they hold every event once
    * and all the damage. */
  lemma {:induction false} JugglesAndPokesSplit(events: seq<GameStatEvent>)
    ensures Tally(events, true, true) + Tally(events, false, true) == |events|
    ensures Tally(events, true, false) + Tally(events, false, false) == TotalDamage(events)
    decreases |events|
  {
    if |events| > 0 {
      JugglesAndPokesSplit(events[..|events| - 1]);
    }
  }

  /** `sources` before the sort: one entry per kind, in definition order. */
  function UnsortedSources(events: seq<GameStatEvent>): (r: seq<Source>)
    ensures |r| == |ENTRY_TYPES|
  {
    seq(|ENTRY_TYPES|, k requires 0 <= k < |ENTRY_TYPES| =>
      Source(ENTRY_TYPES[k], Occurrences(events, ENTRY_TYPES[k]), DamageOf(events, ENTRY_TYPES[k])))
  }

  /** `sorted(key=damage, reverse=True)`: a stable sort by damage, largest
    * first; of equal damages the earlier entry stays first. */
  function SortedByDamage(s: seq<Source>): (r: seq<Source>)
    ensures |r| == |s|
    decreases |s|
  {
    if |s| == 0 then []
    else InsertByDamage(SortedByDamage(s[..|s| - 1]), s[|s| - 1])
  }

  /** Insert `x` after every entry of at least its damage. */
  function InsertByDamage(sorted: seq<Source>, x: Source): (r: seq<Source>)
    ensures |r| == |sorted| + 1
    decreases |sorted|
  {
    if |sorted| == 0 then [x]
    else if sorted[|sorted| - 1].damage >= x.damage then sorted + [x]
    else InsertByDamage(sorted[..|sorted| - 1], x) + [sorted[|sorted| - 1]]
  }

  /** Inserting adds exactly `x`. */
  lemma {:induction false} InsertIsPermutation(sorted: seq<Source>, x: Source)
    ensures multiset(InsertByDamage(sorted, x)) == multiset(sorted) + multiset{x}
    decreases |sorted|
  {
    if |sorted| > 0 {
      var init := sorted[..|sorted| - 1];
      var last := sorted[|sorted| - 1];
      assert sorted == init + [last];
      if last.damage < x.damage {
        InsertIsPermutation(init, x);
      }
    }
  }

  /** The sort is a permutation. */
  lemma {:induction false} SortIsPermutation(s: seq<Source>)
    ensures multiset(SortedByDamage(s)) == multiset(s)
    decreases |s|
  {
    if |s| > 0 {
      SortIsPermutation(s[..|s| - 1]);
      InsertIsPermutation(SortedByDamage(s[..|s| - 1]), s[|s| - 1]);
      assert s == s[..|s| - 1] + [s[|s| - 1]];
    }
  }

  predicate DamageDescending(s: seq<Source>)
  {
    forall i, j :: 0 <= i < j < |s| ==> s[i].damage >= s[j].damage
  }

  lemma {:induction false} InsertKeepsDescending(sorted: seq<Source>, x: Source)
    requires DamageDescending(sorted)
    ensures DamageDescending(InsertByDamage(sorted, x))
    ensures |sorted| > 0 && InsertByDamage(sorted, x)[0] != sorted[0] ==> InsertByDamage(sorted, x)[0] == x
    decreases |sorted|
  {
    if |sorted| > 0 && sorted[|sorted| - 1].damage < x.damage {
      var init := sorted[..|sorted| - 1];
      var last := sorted[|sorted| - 1];
      InsertKeepsDescending(init, x);
      InsertIsPermutation(init, x);
      var r := InsertByDamage(init, x);
      assert multiset(r) == multiset(init) + multiset{x};
      forall i | 0 <= i < |r|
        ensures r[i].damage >= last.damage
      {
        assert r[i] in multiset(r);
        if r[i] != x {
          assert r[i] in multiset(init);
          var k :| 0 <= k < |init| && init[k] == r[i];
          assert sorted[k] == init[k];
        }
      }
      if |init| > 0 {
        assert init[0] == sorted[0];
      }
    }
  }

  /** The sorted sources are in descending order of damage. */
  lemma {:induction false} SortedIsDescending(s: seq<Source>)
    ensures DamageDescending(SortedByDamage(s))
    decreases |s|
  {
    if |s| > 0 {
      SortedIsDescending(s[..|s| - 1]);
      InsertKeepsDescending(SortedByDamage(s[..|s| - 1]), s[|s| - 1]);
    }
  }

  /** `collate_events(events)`: the nested loops over kinds and events. */
  method CollateEvents(events: seq<GameStatEvent>) returns (sources: seq<Source>, types: seq<(int, int)>)
    ensures sources == SortedByDamage(UnsortedSources(events))
    ensures types == [(Tally(events, true, true), Tally(events, true, false)),
                      (Tally(events, false, true), Tally(events, false, false))]
  {
    var hitsIntoJuggles := 0;
    var hitsIntoPokes := 0;
    var damageFromJuggles := 0;
    var damageFromPokes := 0;
    var unsorted: seq<Source> := [];
    var k := 0;
    while k < |ENTRY_TYPES|
      invariant 0 <= k <= |ENTRY_TYPES|
      invariant unsorted == UnsortedSources(events)[..k]
      invariant hitsIntoJuggles == TallyOverKinds(events, k, true, true)
      invariant damageFromJuggles == TallyOverKinds(events, k, true, false)
      invariant hitsIntoPokes == TallyOverKinds(events, k, false, true)
      invariant damageFromPokes == TallyOverKinds(events, k, false, false)
    {
      var entry := ENTRY_TYPES[k];
      var occurrences := 0;
      var damage := 0;
      var i := 0;
      while i < |events|
        invariant 0 <= i <= |events|
        invariant occurrences == Occurrences(events[..i], entry)
        invariant damage == DamageOf(events[..i], entry)
        invariant hitsIntoJuggles == TallyOverKinds(events, k, true, true) + TallyOfKind(events[..i], entry, true, true)
        invariant damageFromJuggles == TallyOverKinds(events, k, true, false) + TallyOfKind(events[..i], entry, true, false)
        invariant hitsIntoPokes == TallyOverKinds(events, k, false, true) + TallyOfKind(events[..i], entry, false, true)
        invariant damageFromPokes == TallyOverKinds(events, k, false, false) + TallyOfKind(events[..i], entry, false, false)
      {
        var event := events[i];
        assert events[..i + 1][..i] == events[..i];
        if entry == event.hitType {
          occurrences := occurrences + 1;
          damage := damage + event.totalDamage;
          if event.juggleDamage > 0 {
            damageFromJuggles := damageFromJuggles + event.totalDamage;
            hitsIntoJuggles := hitsIntoJuggles + 1;
          } else {
            damageFromPokes := damageFromPokes + event.totalDamage;
            hitsIntoPokes := hitsIntoPokes + 1;
          }
        }
        i := i + 1;
      }
      assert events[..i] == events;
      unsorted := unsorted + [Source(entry, occurrences, damage)];
      assert UnsortedSources(events)[..k + 1] == UnsortedSources(events)[..k] + [UnsortedSources(events)[k]];
      k := k + 1;
    }
    assert unsorted == UnsortedSources(events);
    KindsPartitionEvents(events, true, true);
    KindsPartitionEvents(events, true, false);
    KindsPartitionEvents(events, false, true);
    KindsPartitionEvents(events, false, false);
    sources := SortedByDamage(unsorted);
    types := [(hitsIntoJuggles, damageFromJuggles), (hitsIntoPokes, damageFromPokes)];
  }

  /** The collation has one source per kind, in descending order of damage,
    * and juggles plus pokes account for every event and all its damage. */
  lemma CollationSummary(events: seq<GameStatEvent>, t: EntryType)
    ensures var sources := SortedByDamage(UnsortedSources(events));
      |sources| == |ENTRY_TYPES| && DamageDescending(sources)
      && Source(t, Occurrences(events, t), DamageOf(events, t)) in sources
    ensures Tally(events, true, true) + Tally(events, false, true) == |events|
    ensures Tally(events, true, false) + Tally(events, false, false) == TotalDamage(events)
  {
    SortedIsDescending(UnsortedSources(events));
    SortIsPermutation(UnsortedSources(events));
    JugglesAndPokesSplit(events);
    EntryTypesListed(t, t);
    var k :| 0 <= k < |ENTRY_TYPES| && ENTRY_TYPES[k] == t;
    var u := UnsortedSources(events);
    assert u[k] == Source(t, Occurrences(events, t), DamageOf(events, t));
    assert u[k] in multiset(u);
  }
}
