/**
 * Configuration files that can be read again (config/reloadable_config.py):
 * the sections and keys of an INI file become a dictionary of dictionaries,
 * and with `parse` set each value is read as hexadecimal numbers, a decimal
 * number, a boolean word or else kept as text.
 */
module ReloadableConfigs {
  import opened Wrappers
  import opened PyStrings

  /** The value `__parse_numbers` gives back. */
  datatype ConfigValue =
    | Str(text: string)
    | Int(number: int)
    | IntList(numbers: seq<int>)
    | IntRows(rows: seq<seq<int>>)

  /** The value, and whether a `ValueError` was written to standard error. */
  datatype Parsed = Parsed(value: ConfigValue, errorWritten: bool)

  // ---------------------------------------------------------------------------
  // Hexadecimal numbers: Python's `int(val, 16)`

  predicate IsHexDigit(c: char)
  {
    '0' <= c <= '9' || 'a' <= c <= 'f' || 'A' <= c <= 'F'
  }

  function HexDigitValue(c: char): (r: nat)
    requires IsHexDigit(c)
    ensures r < 16
  {
    if '0' <= c <= '9' then (c as int) - ('0' as int)
    else if 'a' <= c <= 'f' then (c as int) - ('a' as int) + 10
    else (c as int) - ('A' as int) + 10
  }

  predicate AllHex(s: string)
  {
    forall i :: 0 <= i < |s| ==> IsHexDigit(s[i])
  }

  /** The value of a string of hexadecimal digits. */
  function HexValue(s: string): nat
    requires AllHex(s)
  {
    if |s| == 0 then 0 else HexValue(s[..|s| - 1]) * 16 + HexDigitValue(s[|s| - 1])
  }

  /** `int(s, 16)`: white space around, an optional sign, an optional '0x'
    * or '0X', then at least one hexadecimal digit; `None` is the
    * `ValueError`. */
  function ParseHex(s: string): (r: Option<int>)
    ensures r.Some? ==> |Strip(s)| > 0
  {
    var t := Strip(s);
    var negative := |t| > 0 && t[0] == '-';
    var u := if |t| > 0 && (t[0] == '-' || t[0] == '+') then t[1..] else t;
    var d := if |u| >= 2 && u[0] == '0' && (u[1] == 'x' || u[1] == 'X') then u[2..] else u;
    if |d| > 0 && AllHex(d) then Some(if negative then -(HexValue(d) as int) else HexValue(d)) else None
  }

  const HEX_DIGITS: string := "0123456789abcdef"

  /** The digits of `hex(n)` without its '0x'. */
  function HexDigits(n: nat): (r: string)
    ensures |r| > 0 && AllHex(r)
  {
    if n < 16 then [HEX_DIGITS[n]] else HexDigits(n / 16) + [HEX_DIGITS[n % 16]]
  }

  /** Python's `hex(n)` for a natural number. */
  function Hex(n: nat): (r: string)
    ensures |r| > 2 && r[0] == '0' && r[1] == 'x'
  {
    "0x" + HexDigits(n)
  }

  lemma {:induction false} HexValueDigits(n: nat)
    ensures HexValue(HexDigits(n)) == n
  {
    if n >= 16 {
      var s := HexDigits(n);
      assert s[..|s| - 1] == HexDigits(n / 16);
      HexValueDigits(n / 16);
    }
  }

  /** `int(hex(n), 16) == n`. */
  lemma ParseHexOfHex(n: nat)
    ensures ParseHex(Hex(n)) == Some(n)
  {
    var s := Hex(n);
    var d := HexDigits(n);
    assert s[2..] == d;
    assert s[|s| - 1] == d[|d| - 1];
    assert IsHexDigit(d[|d| - 1]);
    StripTrimmed(s);
    HexValueDigits(n);
  }

  // ---------------------------------------------------------------------------
  // Words: Python's `s.split()` with no separator

  /** The length of the run of non-space characters `s` starts with. */
  function WordLength(s: string): (n: nat)
    ensures n <= |s|
    ensures forall i :: 0 <= i < n ==> !IsSpace(s[i])
    ensures n < |s| ==> IsSpace(s[n])
  {
    if |s| == 0 || IsSpace(s[0]) then 0 else 1 + WordLength(s[1..])
  }

  /** `s.split()`: the maximal runs of non-space characters, in order. */
  function Words(s: string): (r: seq<string>)
    ensures forall i :: 0 <= i < |r| ==> |r[i]| > 0
    decreases |s|
  {
    var t := StripLeft(s);
    if |t| == 0 then []
    else
      var n := WordLength(t);
      [t[..n]] + Words(t[n..])
  }

  /** A word takes no space characters. */
  predicate IsWord(w: string)
  {
    |w| > 0 && forall i :: 0 <= i < |w| ==> !IsSpace(w[i])
  }

  /** Words joined by single spaces split back into the same words. */
  lemma {:induction false} WordsJoin(ws: seq<string>)
    requires forall i :: 0 <= i < |ws| ==> IsWord(ws[i])
    ensures Words(Join(ws, " ")) == ws
    decreases |ws|
  {
    if |ws| == 1 {
      WordAlone(ws[0]);
    } else if |ws| > 1 {
      WordsJoin(ws[1..]);
      WordsJoinStep(ws);
    } else {
      NoWords();
    }
  }

  lemma NoWords()
    ensures Words([]) == []
  {
  }

  /** The first word in front of the words of the rest. */
  lemma WordsJoinStep(ws: seq<string>)
    requires |ws| > 1 && IsWord(ws[0])
    requires Words(Join(ws[1..], " ")) == ws[1..]
    ensures Words(Join(ws, " ")) == ws
  {
    JoinFirst(ws, " ");
    WordThenSpace(ws[0], Join(ws[1..], " "));
    SeqFirst(ws);
  }

  lemma JoinFirst(ws: seq<string>, sep: string)
    requires |ws| > 1
    ensures Join(ws, sep) == ws[0] + (sep + Join(ws[1..], sep))
  {
  }

  lemma SeqFirst(ws: seq<string>)
    requires |ws| > 0
    ensures ws == [ws[0]] + ws[1..]
  {
  }

  /** A word on its own is its only word. */
  lemma WordAlone(w: string)
    requires IsWord(w)
    ensures Words(w) == [w]
  {
    WordOnly(w, []);
    assert w + [] == w;
    assert Words([]) == [];
  }

  /** A word, a space and more text: the word comes first. */
  lemma WordThenSpace(w: string, tail: string)
    requires IsWord(w)
    ensures Words(w + (" " + tail)) == [w] + Words(tail)
  {
    WordOnly(w, " " + tail);
    WordsSpace(tail);
  }

  /** A leading space does not change the words. */
  lemma WordsSpace(s: string)
    ensures Words(" " + s) == Words(s)
  {
    assert (" " + s)[1..] == s;
    assert StripLeft(" " + s) == StripLeft(s);
  }

  /** A word followed by nothing or by space-led text is the first word. */
  lemma WordOnly(w: string, rest: string)
    requires IsWord(w)
    requires |rest| > 0 ==> IsSpace(rest[0])
    ensures Words(w + rest) == [w] + Words(rest)
  {
    var s := w + rest;
    assert StripLeft(s) == s;
    WordLengthOf(w, rest);
    assert s[..|w|] == w && s[|w|..] == rest;
  }

  lemma {:induction false} WordLengthOf(w: string, rest: string)
    requires forall i :: 0 <= i < |w| ==> !IsSpace(w[i])
    requires |rest| > 0 ==> IsSpace(rest[0])
    ensures WordLength(w + rest) == |w|
    decreases |w|
  {
    if |w| > 0 {
      assert (w + rest)[1..] == w[1..] + rest;
      WordLengthOf(w[1..], rest);
    } else {
      assert w + rest == rest;
    }
  }

  // ---------------------------------------------------------------------------
  // The branches of `__parse_numbers` (lines 69-96)

  /** `[f(x) for x in xs]` for an `f` that may raise (`None`): `None` as
    * soon as one element raises. */
  function AllSome<T>(xs: seq<string>, f: string -> Option<T>): (r: Option<seq<T>>)
    ensures r.Some? <==> forall i :: 0 <= i < |xs| ==> f(xs[i]).Some?
    ensures r.Some? ==> |r.value| == |xs| && forall i :: 0 <= i < |xs| ==> r.value[i] == f(xs[i]).value
  {
    if |xs| == 0 then Some([])
    else
      match AllSome(xs[..|xs| - 1], f)
      case None => None
      case Some(l) =>
        match f(xs[|xs| - 1])
        case None => None
        case Some(n) => Some(l + [n])
  }

  /** The first element on which `f` raises, or the length when none does. */
  function FirstNone<T>(xs: seq<string>, f: string -> Option<T>): (k: nat)
    ensures k <= |xs|
    ensures forall j :: 0 <= j < k ==> f(xs[j]).Some?
    ensures k < |xs| ==> f(xs[k]).None?
  {
    if |xs| == 0 then 0
    else if f(xs[0]).None? then 0
    else 1 + FirstNone(xs[1..], f)
  }

  /** The values of `f` on the first `k` elements, none of which raises. */
  function Values<T>(xs: seq<string>, f: string -> Option<T>, k: nat): (r: seq<T>)
    requires k <= |xs|
    requires forall j :: 0 <= j < k ==> f(xs[j]).Some?
    ensures |r| == k
    ensures forall j :: 0 <= j < k ==> r[j] == f(xs[j]).value
  {
    seq(k, j requires 0 <= j < k => f(xs[j]).value)
  }

  /** `[int(val, 16) for val in words]`; `None` when one of them raises. */
  function HexWords(words: seq<string>): Option<seq<int>>
  {
    AllSome(words, ParseHex)
  }

  /** One piece of the comma branch: `[int(val, 16) for val in piece.split()]`. */
  function RowOf(piece: string): Option<seq<int>>
  {
    HexWords(Words(piece))
  }

  /** `value.startswith('0x')`. */
  predicate StartsHex(value: string)
  {
    |value| >= 2 && value[0] == '0' && value[1] == 'x'
  }

  const TRUE_WORDS: seq<string> := ["y", "yes", "t", "true", "on", "1"]
  const FALSE_WORDS: seq<string> := ["n", "no", "f", "false", "off", "0"]

  /** ASCII lower case. None of the boolean words holds a letter that a
    * non-ASCII character lowers to, so this decides membership as Python's
    * `lower()` does. */
  function Lower(s: string): (r: string)
    ensures |r| == |s|
  {
    seq(|s|, i requires 0 <= i < |s| => if 'A' <= s[i] <= 'Z' then ((s[i] as int) + 32) as char else s[i])
  }

  /** `distutils.util.strtobool`: 1 for a yes word, 0 for a no word, `None`
    * for the `ValueError`. */
  function StrToBool(s: string): (r: Option<int>)
    ensures r == Some(1) <==> Lower(s) in TRUE_WORDS
    ensures r == Some(0) <==> Lower(s) in FALSE_WORDS
    ensures r.None? <==> Lower(s) !in TRUE_WORDS + FALSE_WORDS
  {
    var v := Lower(s);
    if v in TRUE_WORDS then Some(1) else if v in FALSE_WORDS then Some(0) else None
  }

  /** What `__parse_numbers(value)` returns and whether it wrote an error:
    * in the comma branch the rows parsed before the first bad piece; in the
    * other hexadecimal branches the unchanged string on an error; a decimal,
    * then a boolean word, then the unchanged string otherwise. */
  function NumbersOf(value: string): Parsed
  {
    if StartsHex(value) && ',' in value then
      var pieces := Split(value, ',');
      var k := FirstNone(pieces, RowOf);
      Parsed(IntRows(Values(pieces, RowOf, k)), k < |pieces|)
    else if StartsHex(value) && ' ' in value then
      match HexWords(Words(value))
      case None => Parsed(Str(value), true)
      case Some(l) => Parsed(IntList(l), false)
    else if StartsHex(value) then
      match ParseHex(value)
      case None => Parsed(Str(value), true)
      case Some(n) => Parsed(Int(n), false)
    else
      match ParseInt(value)
      case Some(n) => Parsed(Int(n), false)
      case None =>
        match StrToBool(value)
        case Some(b) => Parsed(Int(b), false)
        case None => Parsed(Str(value), false)
  }

  /** `__parse_numbers`: the branch chain, with the loop of the comma branch. */
  method ParseNumbers(value: string) returns (r: Parsed)
    ensures r == NumbersOf(value)
  {
    if StartsHex(value) && ',' in value {
      var rows, raised := HexRows(Split(value, ','));
      r := Parsed(IntRows(rows), raised);
    } else {
      r := NumbersOf(value);
    }
  }

  /** The loop of lines 78-81: one row per piece, stopping at the first piece
    * whose numbers raise. */
  method HexRows(pieces: seq<string>) returns (rows: seq<seq<int>>, raised: bool)
    ensures raised <==> FirstNone(pieces, RowOf) < |pieces|
    ensures rows == Values(pieces, RowOf, FirstNone(pieces, RowOf))
  {
    rows, raised := ValuesUntilNone(pieces, RowOf);
  }

  /** Appending `f(x)` for each `x` in turn until one raises. */
  method ValuesUntilNone<T>(xs: seq<string>, f: string -> Option<T>) returns (vals: seq<T>, raised: bool)
    ensures raised <==> FirstNone(xs, f) < |xs|
    ensures vals == Values(xs, f, FirstNone(xs, f))
  {
    vals := [];
    raised := false;
    var i := 0;
    while i < |xs|
      invariant 0 <= i <= |xs|
      invariant forall j :: 0 <= j < i ==> f(xs[j]).Some?
      invariant vals == Values(xs, f, i)
      decreases |xs| - i
    {
      var v := f(xs[i]);
      if v.None? {
        FirstNoneIs(xs, f, i);
        raised := true;
        return;
      }
      vals := vals + [v.value];
      i := i + 1;
    }
    FirstNoneAll(xs, f);
  }

  // ---------------------------------------------------------------------------
  // What the branches give for values written in the expected forms

  /** Each number written by `hex`. */
  function HexOfEach(l: seq<nat>): (r: seq<string>)
    ensures |r| == |l| && forall i :: 0 <= i < |l| ==> r[i] == Hex(l[i])
  {
    seq(|l|, i requires 0 <= i < |l| => Hex(l[i]))
  }

  /** The numbers written as `hex` and separated by single spaces. */
  function HexLine(l: seq<nat>): string
  {
    Join(HexOfEach(l), " ")
  }

  /** Rows of numbers separated by commas. */
  function HexTable(rows: seq<seq<nat>>): string
  {
    Join(seq(|rows|, i requires 0 <= i < |rows| => HexLine(rows[i])), ",")
  }

  /** Numbers written by `hex` are the words of the line and all parse. */
  lemma HexLineWords(l: seq<nat>)
    ensures Words(HexLine(l)) == HexOfEach(l)
    ensures HexWords(Words(HexLine(l))) == Some(l)
  {
    var ws := HexOfEach(l);
    forall i | 0 <= i < |ws|
      ensures IsWord(ws[i])
    {
      var d := HexDigits(l[i]);
      assert ws[i] == "0x" + d;
      forall j | 0 <= j < |ws[i]|
        ensures !IsSpace(ws[i][j])
      {
        if j >= 2 {
          assert ws[i][j] == d[j - 2];
        }
      }
    }
    WordsJoin(ws);
    forall i | 0 <= i < |ws|
      ensures ParseHex(ws[i]) == Some(l[i])
    {
      ParseHexOfHex(l[i]);
    }
    var h := HexWords(ws);
    assert h.value == l;
  }

  /** A line of two or more numbers reads back as the same flat list. */
  lemma HexLineRoundTrip(l: seq<nat>)
    requires |l| >= 2
    ensures NumbersOf(HexLine(l)) == Parsed(IntList(l), false)
  {
    var ws := HexOfEach(l);
    var s := HexLine(l);
    assert s == ws[0] + " " + Join(ws[1..], " ");
    assert s[0] == ws[0][0] && s[1] == ws[0][1];
    assert s[|ws[0]|] == ' ';
    assert ',' !in s by {
      JoinNoComma(l, " ");
    }
    HexLineWords(l);
  }

  /** A single number reads back as that number. */
  lemma HexNumberRoundTrip(n: nat)
    ensures NumbersOf(Hex(n)) == Parsed(Int(n), false)
  {
    var s := Hex(n);
    assert s == "0x" + HexDigits(n);
    assert ',' !in s && ' ' !in s by {
      NoCommaHex(n);
    }
    ParseHexOfHex(n);
  }

  /** Two or more rows, the first of them not empty, read back as the same
    * rows. */
  lemma HexTableRoundTrip(rows: seq<seq<nat>>)
    requires |rows| >= 2 && |rows[0]| > 0
    ensures NumbersOf(HexTable(rows)) == Parsed(IntRows(rows), false)
  {
    var lines := seq(|rows|, i requires 0 <= i < |rows| => HexLine(rows[i]));
    var s := HexTable(rows);
    forall i | 0 <= i < |lines|
      ensures ',' !in lines[i]
    {
      JoinNoComma(rows[i], " ");
    }
    SplitJoin(lines, ',');
    assert s == lines[0] + "," + Join(lines[1..], ",");
    var ws0 := HexOfEach(rows[0]);
    assert lines[0] == Join(ws0, " ");
    JoinStartsWith(ws0, " ");
    assert s[0] == lines[0][0] && s[1] == lines[0][1];
    assert s[|lines[0]|] == ',';
    assert StartsHex(s) && ',' in s;
    HexLinesRead(rows, lines);
    var k := FirstNone(lines, RowOf);
    assert NumbersOf(s) == Parsed(IntRows(Values(Split(s, ','), RowOf, k)), false);
  }

  /** Every line of a hex table reads back as its row. */
  lemma HexLinesRead(rows: seq<seq<nat>>, lines: seq<string>)
    requires |lines| == |rows| && forall i :: 0 <= i < |rows| ==> lines[i] == HexLine(rows[i])
    ensures FirstNone(lines, RowOf) == |lines| && Values(lines, RowOf, |lines|) == rows
  {
    LinesRows(rows, lines);
    FirstNoneAll(lines, RowOf);
    ValuesAll(lines, RowOf, rows);
  }

  /** When every piece reads as the matching value, the values are those. */
  lemma ValuesAll<T>(xs: seq<string>, f: string -> Option<T>, vs: seq<T>)
    requires |vs| == |xs| && forall j :: 0 <= j < |xs| ==> f(xs[j]) == Some(vs[j])
    ensures Values(xs, f, |xs|) == vs
  {
  }

  lemma LinesRows(rows: seq<seq<nat>>, lines: seq<string>)
    requires |lines| == |rows| && forall i :: 0 <= i < |rows| ==> lines[i] == HexLine(rows[i])
    ensures forall j :: 0 <= j < |lines| ==> RowOf(lines[j]) == Some(rows[j])
  {
    forall j | 0 <= j < |lines|
      ensures RowOf(lines[j]) == Some(rows[j])
    {
      HexLineWords(rows[j]);
    }
  }

  /** `f` raising on no element means the first failure is at the end. */
  lemma {:induction false} FirstNoneAll<T>(xs: seq<string>, f: string -> Option<T>)
    requires forall j :: 0 <= j < |xs| ==> f(xs[j]).Some?
    ensures FirstNone(xs, f) == |xs|
    decreases |xs|
  {
    if |xs| > 0 {
      FirstNoneAll(xs[1..], f);
    }
  }

  /** `hex` writes no comma and no space. */
  lemma NoCommaHex(n: nat)
    ensures ',' !in Hex(n) && ' ' !in Hex(n)
  {
    var d := HexDigits(n);
    assert Hex(n) == "0x" + d;
    assert ',' !in d && ' ' !in d by {
      forall j | 0 <= j < |d|
        ensures d[j] != ',' && d[j] != ' '
      {
        assert IsHexDigit(d[j]);
      }
    }
  }

  /** Numbers written by `hex` and joined by a separator without a comma hold
    * no comma. */
  lemma {:induction false} JoinNoComma(l: seq<nat>, sep: string)
    requires ',' !in sep
    ensures ',' !in Join(HexOfEach(l), sep)
    decreases |l|
  {
    if |l| > 0 {
      NoCommaHex(l[0]);
      if |l| > 1 {
        JoinNoComma(l[1..], sep);
        assert HexOfEach(l)[1..] == HexOfEach(l[1..]);
      }
    }
  }

  /** A join begins with its first part when that is at least two long. */
  lemma JoinStartsWith(ws: seq<string>, sep: string)
    requires |ws| > 0 && |ws[0]| >= 2
    ensures |Join(ws, sep)| >= 2 && Join(ws, sep)[0] == ws[0][0] && Join(ws, sep)[1] == ws[0][1]
  {
    if |ws| > 1 {
      assert Join(ws, sep) == ws[0] + sep + Join(ws[1..], sep);
    }
  }

  /** `str(i)` reads back as the number `i`. */
  lemma DecimalRoundTrip(i: int)
    ensures NumbersOf(IntToString(i)) == Parsed(Int(i), false)
  {
    var s := IntToString(i);
    assert !StartsHex(s) by {
      if i >= 0 {
        if |s| >= 2 {
          assert IsDigit(s[1]);
        }
      } else {
        assert s[0] == '-';
      }
    }
    ParseIntToString(i);
  }

  /** A boolean word that is not a number reads back as 1 or 0. */
  lemma BooleanWords(s: string)
    requires Lower(s) in TRUE_WORDS + FALSE_WORDS && ParseInt(s).None? && !StartsHex(s)
    ensures NumbersOf(s) == Parsed(Int(if Lower(s) in TRUE_WORDS then 1 else 0), false)
  {
  }

  /** 'True' is read as 1, 'off' as 0. */
  lemma BooleanExamples()
    ensures NumbersOf("True") == Parsed(Int(1), false)
    ensures NumbersOf("off") == Parsed(Int(0), false)
  {
    assert !StartsHex("True") && !StartsHex("off");
    ParseIntNonNumeric("True");
    ParseIntNonNumeric("off");
    assert Lower("True") == "true";
    assert Lower("off") == "off";
    assert StrToBool("True") == Some(1);
    assert StrToBool("off") == Some(0);
  }

  /** Everything but the comma branch leaves the input unchanged when it
    * gives a string. */
  lemma StringsUnchanged(value: string)
    requires NumbersOf(value).value.Str?
    ensures NumbersOf(value).value == Str(value)
  {
  }

  /** A string given back without an error is not hexadecimal. */
  lemma QuietStringsAreNotHex(value: string)
    requires NumbersOf(value).value.Str? && !NumbersOf(value).errorWritten
    ensures !StartsHex(value)
  {
  }

  /** In the comma branch a piece that does not parse ends the list: the rows
    * before it are kept and the error is written. */
  lemma BadPieceKeepsEarlierRows(value: string, k: nat)
    requires StartsHex(value) && ',' in value
    requires k < |Split(value, ',')|
    requires forall j :: 0 <= j < k ==> RowOf(Split(value, ',')[j]).Some?
    requires RowOf(Split(value, ',')[k]).None?
    ensures NumbersOf(value).errorWritten
    ensures NumbersOf(value).value == IntRows(Values(Split(value, ','), RowOf, k))
  {
    FirstNoneIs(Split(value, ','), RowOf, k);
  }

  lemma {:induction false} FirstNoneIs<T>(xs: seq<string>, f: string -> Option<T>, k: nat)
    requires k < |xs|
    requires forall j :: 0 <= j < k ==> f(xs[j]).Some?
    requires f(xs[k]).None?
    ensures FirstNone(xs, f) == k
    decreases k
  {
    if k > 0 {
      FirstNoneIs(xs[1..], f, k - 1);
    }
  }

  // ---------------------------------------------------------------------------
  // The configuration (lines 36-67)

  /** A section as the INI parser hands it out: its name and its key/value
    * pairs in order. */
  type Section = (string, seq<(string, string)>)

  /** A value as it is stored: parsed when `parse` is set. */
  function Stored(value: string, parse: bool): ConfigValue
  {
    if parse then NumbersOf(value).value else Str(value)
  }

  /** The dictionary of one section after its pairs are stored in order. */
  function SectionDict(d: map<string, ConfigValue>, pairs: seq<(string, string)>, parse: bool)
    : (r: map<string, ConfigValue>)
    ensures forall k :: k in r <==> k in d || exists i :: 0 <= i < |pairs| && pairs[i].0 == k
  {
    if |pairs| == 0 then d
    else
      var p := pairs[|pairs| - 1];
      SectionDict(d, pairs[..|pairs| - 1], parse)[p.0 := Stored(p.1, parse)]
  }

  /** `__generate_config`: every section becomes a dictionary, created on its
    * first appearance. */
  function ConfigOf(sections: seq<Section>, parse: bool): (r: map<string, map<string, ConfigValue>>)
    ensures r.Keys == set i | 0 <= i < |sections| :: sections[i].0
  {
    if |sections| == 0 then map[]
    else
      var c := ConfigOf(sections[..|sections| - 1], parse);
      var (name, pairs) := sections[|sections| - 1];
      var d := if name in c then c[name] else map[];
      c[name := SectionDict(d, pairs, parse)]
  }

  /** The last pair for a key decides its value. */
  lemma {:induction false} SectionDictLast(d: map<string, ConfigValue>, pairs: seq<(string, string)>, parse: bool,
                                          i: nat)
    requires i < |pairs|
    requires forall j :: i < j < |pairs| ==> pairs[j].0 != pairs[i].0
    ensures SectionDict(d, pairs, parse)[pairs[i].0] == Stored(pairs[i].1, parse)
    decreases |pairs|
  {
    if i < |pairs| - 1 {
      SectionDictLast(d, pairs[..|pairs| - 1], parse, i);
    }
  }

  /** Without `parse` every value stays the string the file holds. */
  lemma {:induction false} UnparsedAreStrings(sections: seq<Section>)
    ensures forall s, k :: s in ConfigOf(sections, false) && k in ConfigOf(sections, false)[s] ==>
      ConfigOf(sections, false)[s][k].Str?
    decreases |sections|
  {
    if |sections| > 0 {
      UnparsedAreStrings(sections[..|sections| - 1]);
      var c := ConfigOf(sections[..|sections| - 1], false);
      var (name, pairs) := sections[|sections| - 1];
      var d := if name in c then c[name] else map[];
      SectionDictStrings(d, pairs);
    }
  }

  lemma {:induction false} SectionDictStrings(d: map<string, ConfigValue>, pairs: seq<(string, string)>)
    requires forall k :: k in d ==> d[k].Str?
    ensures forall k :: k in SectionDict(d, pairs, false) ==> SectionDict(d, pairs, false)[k].Str?
    decreases |pairs|
  {
    if |pairs| > 0 {
      SectionDictStrings(d, pairs[..|pairs| - 1]);
    }
  }

  lemma SectionDictSnoc(d: map<string, ConfigValue>, pairs: seq<(string, string)>, j: nat, parse: bool)
    requires j < |pairs|
    ensures SectionDict(d, pairs[..j + 1], parse)
      == SectionDict(d, pairs[..j], parse)[pairs[j].0 := Stored(pairs[j].1, parse)]
  {
    assert pairs[..j + 1][..j] == pairs[..j];
  }

  lemma ConfigOfSnoc(sections: seq<Section>, i: nat, parse: bool)
    requires i < |sections|
    ensures var c := ConfigOf(sections[..i], parse);
      var (name, pairs) := sections[i];
      ConfigOf(sections[..i + 1], parse)
        == c[name := SectionDict(if name in c then c[name] else map[], pairs, parse)]
  {
    assert sections[..i + 1][..i] == sections[..i];
  }

  /** The loop of `__generate_config` over sections. */
  method GenerateConfig(sections: seq<Section>, parse: bool) returns (inputDict: map<string, map<string, ConfigValue>>)
    ensures inputDict == ConfigOf(sections, parse)
  {
    inputDict := map[];
    for i := 0 to |sections|
      invariant inputDict == ConfigOf(sections[..i], parse)
    {
      var (section, pairs) := sections[i];
      if section !in inputDict {
        inputDict := inputDict[section := map[]];
      }
      var filled := FillSection(inputDict[section], pairs, parse);
      ConfigOfSnoc(sections, i, parse);
      inputDict := inputDict[section := filled];
    }
    assert sections[..|sections|] == sections;
  }

  /** The inner loop of `__generate_config`: each pair of the section is
    * stored, parsed when `parse` is set. */
  method FillSection(d: map<string, ConfigValue>, pairs: seq<(string, string)>, parse: bool)
    returns (filled: map<string, ConfigValue>)
    ensures filled == SectionDict(d, pairs, parse)
  {
    filled := d;
    for j := 0 to |pairs|
      invariant filled == SectionDict(d, pairs[..j], parse)
    {
      var (key, value) := pairs[j];
      var stored := Str(value);
      if parse {
        var parsed := ParseNumbers(value);
        stored := parsed.value;
      }
      SectionDictSnoc(d, pairs, j, parse);
      filled := filled[key := stored];
    }
    assert pairs[..|pairs|] == pairs;
  }

  class ReloadableConfig {
    const path: string
    const parse: bool
    var config: map<string, map<string, ConfigValue>>

    /** `ReloadableConfig(path, parse)`; `contents` is what the INI parser
      * reads from `path`. */
    constructor(path: string, parse: bool, contents: seq<Section>)
      ensures this.path == path && this.parse == parse
      ensures config == ConfigOf(contents, parse)
    {
      this.path := path;
      this.parse := parse;
      new;
      config := GenerateConfig(contents, parse);
    }

    /** `reload()`: the file is read again. */
    method Reload(contents: seq<Section>)
      modifies this
      ensures config == ConfigOf(contents, parse)
    {
      config := GenerateConfig(contents, parse);
    }

    /** `config[key]`: the section's dictionary, `None` for a missing one. */
    function GetItem(key: string): (r: Option<map<string, ConfigValue>>)
      reads this
      ensures r.None? <==> key !in config
      ensures r.Some? ==> r.value == config[key]
    {
      if key in config then Some(config[key]) else None
    }
  }
}
