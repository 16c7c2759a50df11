/**
 * The win/loss/draw records of TekkenEncyclopedia.py: the three tables of
 * `stat_dict`, `add_stat`, `load_stats` as a fold over the lines of the match
 * file, `record_from_stat`, and the match-result line appended to that file.
 */
module MatchStats {
  import opened Wrappers
  import opened PyStrings

  /** `[wins, losses, draws]`. */
  datatype Record = Record(wins: int, losses: int, draws: int)

  type Table = map<string, Record>

  /** The keys of `stat_dict`: 'char_stats', 'matchup_stats', 'opponent_stats'. */
  datatype Category = CharStats | MatchupStats | OpponentStats

  datatype StatDict = StatDict(charStats: Table, matchupStats: Table, opponentStats: Table)
  {
    function Table(c: Category): Table
    {
      match c
      case CharStats => charStats
      case MatchupStats => matchupStats
      case OpponentStats => opponentStats
    }
  }

  /** `load_stats` starts from three empty tables. */
  const EMPTY_STATS: StatDict := StatDict(map[], map[], map[])

  /** `stat_dict[category][key]`, or `[0, 0, 0]` for a key not there. */
  function Get(t: Table, key: string): Record
  {
    if key in t then t[key] else Record(0, 0, 0)
  }

  /** The outcome counted: 'WIN' anywhere in the result is tested first, then
    * 'LOSS'; anything else is a draw (lines 69-74). */
  function ResultIndex(result: string): (i: nat)
    ensures i < 3
    ensures i == 0 <==> Contains(result, "WIN")
    ensures i == 1 <==> !Contains(result, "WIN") && Contains(result, "LOSS")
  {
    if Contains(result, "WIN") then 0 else if Contains(result, "LOSS") then 1 else 2
  }

  function Bumped(r: Record, index: nat): Record
  {
    if index == 0 then r.(wins := r.wins + 1)
    else if index == 1 then r.(losses := r.losses + 1)
    else r.(draws := r.draws + 1)
  }

  /** One match as `add_stat` sees it. */
  datatype Stat = Stat(result: string, playerChar: string, opponentName: string, opponentChar: string)

  /** The key a match is counted under in each table: the opponent's character,
    * "{player_char} vs {opponent_char}", the opponent's name. */
  function KeyOf(c: Category, s: Stat): string
  {
    match c
    case CharStats => s.opponentChar
    case MatchupStats => s.playerChar + " vs " + s.opponentChar
    case OpponentStats => s.opponentName
  }

  function BumpedIn(t: Table, key: string, index: nat): Table
  {
    t[key := Bumped(Get(t, key), index)]
  }

  /** `add_stat(result, player_char, opponent_name, opponent_char)` (lines 60-78). */
  function AddedStat(d: StatDict, s: Stat): StatDict
  {
    var i := ResultIndex(s.result);
    StatDict(BumpedIn(d.charStats, KeyOf(CharStats, s), i),
             BumpedIn(d.matchupStats, KeyOf(MatchupStats, s), i),
             BumpedIn(d.opponentStats, KeyOf(OpponentStats, s), i))
  }

  /** `add_stat` adds one to exactly one of wins, losses and draws of one key
    * in each table, creating the key at zero first, and changes nothing else. */
  lemma AddStatCountsOnce(d: StatDict, s: Stat, c: Category)
    ensures var before := d.Table(c);
      var after := AddedStat(d, s).Table(c);
      var key := KeyOf(c, s);
      var b := Get(before, key);
      var a := Get(after, key);
      after.Keys == before.Keys + {key}
      && (forall k :: k in before && k != key ==> after[k] == before[k])
      && a.wins + a.losses + a.draws == b.wins + b.losses + b.draws + 1
      && (a.wins == b.wins + 1 <==> Contains(s.result, "WIN"))
      && (a.losses == b.losses + 1 <==> !Contains(s.result, "WIN") && Contains(s.result, "LOSS"))
      && (a.draws == b.draws + 1 <==> !Contains(s.result, "WIN") && !Contains(s.result, "LOSS"))
  {
  }

  // ---------------------------------------------------------------------------
  // load_stats (lines 39-58)

  /** What `load_stats` makes of one line. */
  datatype LineParse = NoStat | Malformed | Parsed(stat: Stat)

  /** A line without '|' is skipped; one with fewer than six fields makes
    * `args[5]` raise IndexError, which `load_stats` does not catch. */
  function ParseLine(line: string): LineParse
  {
    if '|' !in line then NoStat
    else
      var args := Split(line, '|');
      if |args| < 6 then Malformed
      else Parsed(Stat(Strip(args[0]), Strip(args[2]), Strip(args[4]), Strip(args[5])))
  }

  /** One line of the loop in `load_stats`; `None` is the IndexError. */
  function FoldStep(d: StatDict, line: string): Option<StatDict>
  {
    StepWith(d, ParseLine(line))
  }

  /** What one parsed line does to the tables. */
  function StepWith(d: StatDict, p: LineParse): Option<StatDict>
  {
    match p
    case NoStat => Some(d)
    case Malformed => None
    case Parsed(s) => Some(AddedStat(d, s))
  }

  /** `add_stat` for every stat line in order. */
  function FoldStats(d: StatDict, lines: seq<string>): Option<StatDict>
  {
    if |lines| == 0 then Some(d)
    else
      match FoldStats(d, lines[..|lines| - 1])
      case None => None
      case Some(e) => FoldStep(e, lines[|lines| - 1])
  }

  /** The stats `load_stats` leaves: `file` is the match file's lines, `None`
    * when it does not exist (FileNotFoundError gives empty tables). */
  function LoadedStats(file: Option<seq<string>>): Option<StatDict>
  {
    match file
    case None => Some(EMPTY_STATS)
    case Some(lines) => FoldStats(EMPTY_STATS, lines)
  }

  /** Whether one line counts an outcome `index` under `key` in table `c`. */
  function CountedBy(line: string, c: Category, key: string, index: nat): nat
  {
    ParsedCount(ParseLine(line), c, key, index)
  }

  /** Whether one parsed line counts an outcome `index` under `key` in table `c`. */
  function ParsedCount(p: LineParse, c: Category, key: string, index: nat): nat
  {
    match p
    case Parsed(s) => if KeyOf(c, s) == key && ResultIndex(s.result) == index then 1 else 0
    case _ => 0
  }

  /** How many stat lines count an outcome `index` under `key` in table `c`. */
  function CountFor(lines: seq<string>, c: Category, key: string, index: nat): nat
  {
    if |lines| == 0 then 0
    else CountFor(lines[..|lines| - 1], c, key, index) + CountedBy(lines[|lines| - 1], c, key, index)
  }

  /** One `add_stat` seen at any key of one table. */
  lemma AddedStatGet(d: StatDict, s: Stat, c: Category, k: string)
    ensures Get(AddedStat(d, s).Table(c), k)
         == if k == KeyOf(c, s) then Bumped(Get(d.Table(c), k), ResultIndex(s.result)) else Get(d.Table(c), k)
  {
  }

  /** One line adds its own count to the record of each key. */
  lemma FoldStepGet(d: StatDict, line: string, c: Category, key: string)
    requires FoldStep(d, line).Some?
    ensures var b := Get(d.Table(c), key);
      Get(FoldStep(d, line).value.Table(c), key)
        == Record(b.wins + CountedBy(line, c, key, 0), b.losses + CountedBy(line, c, key, 1),
                  b.draws + CountedBy(line, c, key, 2))
  {
    StepWithGet(d, ParseLine(line), c, key);
  }

  /** `FoldStepGet` for one parsed line. */
  lemma StepWithGet(d: StatDict, p: LineParse, c: Category, key: string)
    requires StepWith(d, p).Some?
    ensures var b := Get(d.Table(c), key);
      Get(StepWith(d, p).value.Table(c), key)
        == Record(b.wins + ParsedCount(p, c, key, 0), b.losses + ParsedCount(p, c, key, 1),
                  b.draws + ParsedCount(p, c, key, 2))
  {
    if p.Parsed? {
      AddedStatGet(d, p.stat, c, key);
    }
  }

  /** A plain fold: every record is the number of stat lines of that key and
    * outcome, with no deduplication of repeated lines. */
  lemma {:induction false} LoadedRecordsCount(lines: seq<string>, c: Category, key: string)
    requires FoldStats(EMPTY_STATS, lines).Some?
    ensures Get(FoldStats(EMPTY_STATS, lines).value.Table(c), key)
         == Record(CountFor(lines, c, key, 0), CountFor(lines, c, key, 1), CountFor(lines, c, key, 2))
  {
    if |lines| > 0 {
      var init := lines[..|lines| - 1];
      var last := lines[|lines| - 1];
      assert FoldStats(EMPTY_STATS, init).Some?;
      LoadedRecordsCount(init, c, key);
      FoldStepGet(FoldStats(EMPTY_STATS, init).value, last, c, key);
    }
  }

  // ---------------------------------------------------------------------------
  // Records and results

  /** `record_from_stat(category, lookup)` (lines 80-93): "w - l", with
    * " - d" added when there are draws; a missing key reads as no games. */
  function RecordFromStat(d: StatDict, c: Category, lookup: string): (r: string)
    ensures lookup !in d.Table(c) ==> r == "0 - 0"
  {
    var rec := Get(d.Table(c), lookup);
    if rec.draws <= 0 then IntToString(rec.wins) + " - " + IntToString(rec.losses)
    else IntToString(rec.wins) + " - " + IntToString(rec.losses) + " - " + IntToString(rec.draws)
  }

  /** `get_player_string(reverse)` (lines 95-101). */
  function GetPlayerString(isPlayerOne: bool, reverse: bool): (r: string)
    ensures r == "p1: " <==> isPlayerOne != reverse
    ensures r == "p1: " || r == "p2: "
  {
    if (isPlayerOne && !reverse) || (!isPlayerOne && reverse) then "p1: " else "p2: "
  }

  /** The match result (lines 364-369). */
  function MatchResult(playerWins: int, opponentWins: int): string
  {
    if playerWins == opponentWins then "DRAW"
    else if playerWins > opponentWins then "WIN"
    else "LOSS"
  }

  /** Seen from the other side a win is a loss and a draw a draw; and the
    * result is counted as its own outcome. */
  lemma MatchResultAntisymmetric(a: int, b: int)
    ensures MatchResult(a, b) == "WIN" <==> MatchResult(b, a) == "LOSS"
    ensures MatchResult(a, b) == "DRAW" <==> MatchResult(b, a) == "DRAW"
    ensures ResultIndex(MatchResult(a, b)) == (if a > b then 0 else if a < b then 1 else 2)
  {
    ResultWords();
  }

  /** Which of 'WIN' and 'LOSS' the three result words contain. */
  lemma ResultWords()
    ensures Contains("WIN", "WIN") && !Contains("LOSS", "WIN") && Contains("LOSS", "LOSS")
    ensures !Contains("DRAW", "WIN") && !Contains("DRAW", "LOSS")
  {
    assert OccursAt("WIN", "WIN", 0);
    assert OccursAt("LOSS", "LOSS", 0);
    MissingFirstLetter("LOSS", "WIN");
    MissingFirstLetter("DRAW", "WIN");
    MissingFirstLetter("DRAW", "LOSS");
  }

  /** A word whose first letter is at no place it could start does not occur. */
  lemma MissingFirstLetter(s: string, sub: string)
    requires |sub| > 0 && forall i :: 0 <= i <= |s| - |sub| ==> s[i] != sub[0]
    ensures !Contains(s, sub)
  {
    forall i | 0 <= i <= |s| - |sub|
      ensures !OccursAt(s, sub, i)
    {
      assert s[i..i + |sub|][0] == s[i] != sub[0];
    }
  }

  /** The match-result line (lines 371-377): the format
    * '{} | {} | {} | vs | {} | {} | {}-{} | {}' is the eight values joined by
    * " | "; `timestamp` stands for `time.strftime('%Y_%m_%d_%H.%M')`. */
  function MatchResultLine(result: string, playerChar: string, opponentName: string, opponentChar: string,
                           playerWins: int, opponentWins: int, timestamp: string): string
  {
    Join([result, "You", playerChar, "vs", opponentName, opponentChar,
          IntToString(playerWins) + "-" + IntToString(opponentWins), timestamp], " | ")
  }

  predicate Trimmed(s: string)
  {
    |s| > 0 ==> !IsSpace(s[0]) && !IsSpace(s[|s| - 1])
  }

  /** The line written for a match reads back, through `load_stats`, as the
    * same match: names free of '|' and of surrounding white space. */
  lemma MatchLineRoundTrip(result: string, playerChar: string, opponentName: string, opponentChar: string,
                           playerWins: int, opponentWins: int, timestamp: string)
    requires '|' !in result && '|' !in playerChar && '|' !in opponentName && '|' !in opponentChar
    requires Trimmed(result) && Trimmed(playerChar) && Trimmed(opponentName) && Trimmed(opponentChar)
    ensures ParseLine(MatchResultLine(result, playerChar, opponentName, opponentChar, playerWins, opponentWins, timestamp) + "\n")
         == Parsed(Stat(result, playerChar, opponentName, opponentChar))
  {
    MatchLinePieces(result, playerChar, opponentName, opponentChar, playerWins, opponentWins, timestamp);
    StripField(result);
    StripField(playerChar);
    StripField(opponentName);
    StripField(opponentChar);
  }

  /** The pieces of a match line split on '|'. */
  lemma MatchLinePieces(result: string, playerChar: string, opponentName: string, opponentChar: string,
                        playerWins: int, opponentWins: int, timestamp: string)
    requires '|' !in result && '|' !in playerChar && '|' !in opponentName && '|' !in opponentChar
    ensures var line := MatchResultLine(result, playerChar, opponentName, opponentChar, playerWins, opponentWins, timestamp) + "\n";
      var args := Split(line, '|');
      '|' in line && |args| > 5 && args[0] == result + " " && args[2] == " " + playerChar + " "
      && args[4] == " " + opponentName + " " && args[5] == " " + opponentChar + " "
  {
    var fields := [result, "You", playerChar, "vs", opponentName, opponentChar,
                   IntToString(playerWins) + "-" + IntToString(opponentWins), timestamp];
    JoinedPieces(fields);
  }

  /** Eight fields joined by " | " and ended by a newline, split on '|'. */
  lemma JoinedPieces(fields: seq<string>)
    requires |fields| == 8 && forall i :: 0 <= i < 6 ==> '|' !in fields[i]
    ensures var line := Join(fields, " | ") + "\n";
      var args := Split(line, '|');
      '|' in line && |args| > 5 && forall i :: 0 <= i < 6 ==> args[i] == (if i == 0 then "" else " ") + fields[i] + " "
  {
    var line := Join(fields, " | ") + "\n";
    assert "" + Join(fields, " | ") + "\n" == line;
    SplitJoinedBars("", fields, "\n", 6);
    assert '|' in line by {
      assert Join(fields, " | ") == fields[0] + " | " + Join(fields[1..], " | ");
      assert line[|fields[0]| + 1] == '|';
    }
  }

  /** A trimmed name padded by the spaces of the line strips back to itself. */
  lemma StripField(s: string)
    requires Trimmed(s)
    ensures Strip(s + " ") == s && Strip(" " + s + " ") == s
  {
    assert Spaces(1) == " ";
    assert Spaces(0) == "";
    StripPadded(0, s, 1);
    assert Spaces(0) + s + Spaces(1) == s + " ";
    StripPadded(1, s, 1);
  }

  /** Splitting `p` followed by fields joined by " | " on '|': each of the
    * first `n` pieces is a field with the spaces around it. */
  lemma {:induction false} SplitJoinedBars(p: string, fields: seq<string>, tail: string, n: nat)
    requires n < |fields|
    requires '|' !in p
    requires forall i :: 0 <= i < n ==> '|' !in fields[i]
    ensures |Split(p + Join(fields, " | ") + tail, '|')| > n
    ensures forall i :: 0 <= i < n ==>
      Split(p + Join(fields, " | ") + tail, '|')[i] == (if i == 0 then p else " ") + fields[i] + " "
    decreases n
  {
    if n > 0 {
      var rest := Join(fields[1..], " | ");
      assert Join(fields, " | ") == fields[0] + " | " + rest;
      var a := p + fields[0] + " ";
      var b := " " + rest + tail;
      assert p + Join(fields, " | ") + tail == a + "|" + b;
      SplitCons(a, b);
      SplitJoinedBars(" ", fields[1..], tail, n - 1);
    }
  }

  /** A separator-free piece followed by the separator splits off first. */
  lemma SplitCons(a: string, b: string)
    requires '|' !in a
    ensures Split(a + "|" + b, '|') == [a] + Split(b, '|')
  {
    SplitPrefix(a, "|" + b, '|');
    SplitHead(b, '|');
    assert a + "|" + b == a + ("|" + b);
    assert "|" + b == ['|'] + b;
    var h := Split("|" + b, '|');
    assert h[0] == [] && h[1..] == Split(b, '|');
    assert a + h[0] == a;
  }

  /** The three '!RECORD' lines of `get_matchup_record` (lines 395-420), given
    * the coached player's and the opponent's characters and the opponent's name. */
  function MatchupRecordLines(d: StatDict, playerChar: string, opponentChar: string, opponentName: string): (r: seq<string>)
    ensures |r| == 3
  {
    ["!RECORD | vs " + opponentChar + ": " + RecordFromStat(d, CharStats, opponentChar),
     "!RECORD | vs " + opponentName + ": " + RecordFromStat(d, OpponentStats, opponentName),
     "!RECORD | " + playerChar + " vs " + opponentChar + ": "
       + RecordFromStat(d, MatchupStats, playerChar + " vs " + opponentChar)]
  }
}
