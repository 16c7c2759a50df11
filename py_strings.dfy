/**
 * The handful of Python built-ins the modelled code leans on, written out with
 * Python's semantics: negative indexing, clamped slicing, `str.split` on a
 * single character or on a longer separator, `str.replace`, `in` on strings,
 * `str.strip`, the `'{:^w}'` centring of `str.format`, `str(int)` and `int(str)`.
 */
module PyStrings {
  import opened Wrappers

  // ---------------------------------------------------------------------------
  // Indexing and slicing

  /** Python's `s[i]`: a negative index counts from the end. */
  function At<T>(s: seq<T>, i: int): T
    requires -|s| <= i < |s|
  {
    if i < 0 then s[|s| + i] else s[i]
  }

  /** How Python normalises a slice bound `i` against a length `n`. */
  function Bound(i: int, n: nat): (r: nat)
    ensures r <= n
    ensures 0 <= i <= n ==> r == i
    ensures -(n as int) <= i < 0 ==> r == n + i
    ensures i < -(n as int) ==> r == 0
    ensures n < i ==> r == n
  {
    if i < 0 then (if n + i < 0 then 0 else n + i) else if i > n then n else i
  }

  /** Python's `s[start:]`. */
  function SliceFrom<T>(s: seq<T>, start: int): seq<T>
  {
    s[Bound(start, |s|)..]
  }

  /** Python's `s[:stop]`. */
  function SliceTo<T>(s: seq<T>, stop: int): seq<T>
  {
    s[..Bound(stop, |s|)]
  }

  /** Python's `s[start:stop]` (an empty slice when the bounds cross). */
  function Slice<T>(s: seq<T>, start: int, stop: int): (r: seq<T>)
    ensures |r| <= |s|
  {
    var a := Bound(start, |s|);
    var b := Bound(stop, |s|);
    if a <= b then s[a..b] else []
  }

  /** `s[:k] + s[k:] == s` for every integer `k`, negative ones included. */
  lemma SliceToFrom<T>(s: seq<T>, k: int)
    ensures SliceTo(s, k) + SliceFrom(s, k) == s
  {
  }

  /** Python's `reversed(s)`, as a sequence. */
  function Reversed<T>(s: seq<T>): (r: seq<T>)
    ensures |r| == |s|
    ensures forall i :: 0 <= i < |s| ==> r[i] == s[|s| - 1 - i]
  {
    if |s| == 0 then [] else [s[|s| - 1]] + Reversed(s[..|s| - 1])
  }

  // ---------------------------------------------------------------------------
  // Splitting and joining

  /** Python's `s.split(sep)` for a one-element separator (`'|'`, `','`, `b'\0'`). */
  function Split<T(==)>(s: seq<T>, sep: T): (r: seq<seq<T>>)
    ensures |r| >= 1
    ensures forall p :: p in r ==> sep !in p
    decreases |s|
  {
    if |s| == 0 then [[]]
    else
      var rest := Split(s[1..], sep);
      if s[0] == sep then [[]] + rest else [[s[0]] + rest[0]] + rest[1..]
  }

  /** Python's `sep.join(parts)`. */
  function Join<T>(parts: seq<seq<T>>, sep: seq<T>): seq<T>
    decreases |parts|
  {
    if |parts| == 0 then []
    else if |parts| == 1 then parts[0]
    else parts[0] + sep + Join(parts[1..], sep)
  }

  /** Number of occurrences of `x` in `s`. */
  function Count<T(==)>(s: seq<T>, x: T): nat
  {
    if |s| == 0 then 0 else (if s[0] == x then 1 else 0) + Count(s[1..], x)
  }

  /** A value that does not occur is counted zero times. */
  lemma {:induction false} CountAbsent<T>(s: seq<T>, x: T)
    requires x !in s
    ensures Count(s, x) == 0
    decreases |s|
  {
    if |s| > 0 {
      CountAbsent(s[1..], x);
    }
  }

  /** Splitting and re-joining on the same separator gives the input back. */
  lemma {:induction false} JoinSplit<T>(s: seq<T>, sep: T)
    ensures Join(Split(s, sep), [sep]) == s
    decreases |s|
  {
    if |s| > 0 {
      JoinSplit(s[1..], sep);
      var rest := Split(s[1..], sep);
      if s[0] == sep {
        assert Split(s, sep) == [[]] + rest;
        assert s == [sep] + s[1..];
      } else {
        var r := [[s[0]] + rest[0]] + rest[1..];
        assert Split(s, sep) == r;
        if |rest| == 1 {
          assert Join(r, [sep]) == [s[0]] + rest[0];
        } else {
          assert r[1..] == rest[1..];
          assert Join(rest, [sep]) == rest[0] + [sep] + Join(rest[1..], [sep]);
          assert Join(r, [sep]) == [s[0]] + rest[0] + [sep] + Join(rest[1..], [sep]);
        }
        assert s == [s[0]] + s[1..];
      }
    }
  }

  /** A separator-free prefix joins the first piece of what follows it. */
  lemma {:induction false} SplitPrefix<T>(a: seq<T>, b: seq<T>, sep: T)
    requires sep !in a
    ensures Split(a + b, sep) == [a + Split(b, sep)[0]] + Split(b, sep)[1..]
    decreases |a|
  {
    if |a| > 0 {
      SplitPrefix(a[1..], b, sep);
      var sb := Split(b, sep);
      assert (a + b)[1..] == a[1..] + b;
      assert (a + b)[0] == a[0] && a[0] != sep;
      var r := Split(a[1..] + b, sep);
      assert r[0] == a[1..] + sb[0] && r[1..] == sb[1..];
      assert Split(a + b, sep) == [[a[0]] + r[0]] + r[1..];
      assert [a[0]] + (a[1..] + sb[0]) == a + sb[0];
    } else {
      var r := Split(b, sep);
      assert a + b == b;
      assert a + r[0] == r[0];
      assert [r[0]] + r[1..] == r;
    }
  }

  /** A separator at the front starts with an empty piece. */
  lemma SplitHead<T>(b: seq<T>, sep: T)
    ensures Split([sep] + b, sep) == [[]] + Split(b, sep)
  {
    assert ([sep] + b)[1..] == b;
  }

  /** Joining separator-free pieces and splitting again gives the pieces back. */
  lemma {:induction false} SplitJoin<T>(parts: seq<seq<T>>, sep: T)
    requires |parts| >= 1
    requires forall i :: 0 <= i < |parts| ==> sep !in parts[i]
    ensures Split(Join(parts, [sep]), sep) == parts
    decreases |parts|
  {
    if |parts| == 1 {
      SplitPrefix(parts[0], [], sep);
      assert parts[0] + [] == parts[0];
      assert Join(parts, [sep]) == parts[0];
      assert Split([], sep) == [[]];
      assert parts == [parts[0]];
    } else {
      var tail := Join(parts[1..], [sep]);
      SplitJoin(parts[1..], sep);
      assert Join(parts, [sep]) == parts[0] + [sep] + tail;
      assert parts[0] + [sep] + tail == parts[0] + ([sep] + tail);
      SplitPrefix(parts[0], [sep] + tail, sep);
      SplitHead(tail, sep);
      var h := Split([sep] + tail, sep);
      assert h == [[]] + parts[1..];
      assert h[0] == [] && h[1..] == parts[1..];
      assert parts[0] + h[0] == parts[0];
      assert parts == [parts[0]] + parts[1..];
    }
  }

  /** `sub` occurs in `s` (Python's `sub in s`). */
  predicate Contains<T(==)>(s: seq<T>, sub: seq<T>)
  {
    exists i | 0 <= i <= |s| - |sub| :: OccursAt(s, sub, i)
  }

  /** `sub` occurs in `s` starting at position `i`. */
  predicate OccursAt<T(==)>(s: seq<T>, sub: seq<T>, i: int)
  {
    0 <= i <= |s| - |sub| && s[i..i + |sub|] == sub
  }

  /** Python's `s.split(sep)` for a separator of any non-zero length:
    * the leftmost occurrence is cut first and the scan restarts after it. */
  function SplitOn<T(==)>(s: seq<T>, sep: seq<T>): (r: seq<seq<T>>)
    requires |sep| > 0
    ensures |r| >= 1
    decreases |s|
  {
    if |s| < |sep| then [s]
    else if s[..|sep|] == sep then [[]] + SplitOn(s[|sep|..], sep)
    else
      var rest := SplitOn(s[1..], sep);
      [[s[0]] + rest[0]] + rest[1..]
  }

  /** Dropping the first element shifts every occurrence one place left. */
  lemma OccursShift<T>(s: seq<T>, sub: seq<T>, i: int)
    requires |s| > 0
    requires 0 <= i
    ensures OccursAt(s[1..], sub, i) <==> OccursAt(s, sub, i + 1)
  {
    if 0 <= i <= |s| - 1 - |sub| {
      assert s[1..][i..i + |sub|] == s[i + 1..i + 1 + |sub|];
    }
  }

  /** With no occurrence of the separator there is one piece: the input. */
  lemma {:induction false} SplitOnAbsent<T>(s: seq<T>, sep: seq<T>)
    requires |sep| > 0
    requires !Contains(s, sep)
    ensures SplitOn(s, sep) == [s]
    decreases |s|
  {
    if |s| >= |sep| {
      assert !OccursAt(s, sep, 0);
      assert s[..|sep|] != sep;
      forall i | 0 <= i <= |s[1..]| - |sep|
        ensures !OccursAt(s[1..], sep, i)
      {
        OccursShift(s, sep, i);
        assert !OccursAt(s, sep, i + 1);
      }
      SplitOnAbsent(s[1..], sep);
      assert s == [s[0]] + s[1..];
    }
  }

  /** The first occurrence at `k` cuts off `s[..k]` as the first piece. */
  lemma {:induction false} SplitOnFirst<T>(s: seq<T>, sep: seq<T>, k: nat)
    requires |sep| > 0
    requires OccursAt(s, sep, k)
    requires forall i :: 0 <= i < k ==> !OccursAt(s, sep, i)
    ensures SplitOn(s, sep) == [s[..k]] + SplitOn(s[k + |sep|..], sep)
    decreases k
  {
    if k == 0 {
      assert s[..|sep|] == sep;
    } else {
      assert !OccursAt(s, sep, 0);
      assert s[..|sep|] != sep;
      var t := s[1..];
      OccursShift(s, sep, k - 1);
      forall i | 0 <= i < k - 1
        ensures !OccursAt(t, sep, i)
      {
        OccursShift(s, sep, i);
      }
      SplitOnFirst(t, sep, k - 1);
      var rest := SplitOn(t, sep);
      assert rest[0] == t[..k - 1];
      assert t[k - 1 + |sep|..] == s[k + |sep|..];
      assert [s[0]] + t[..k - 1] == s[..k];
    }
  }

  /** Python's `s.replace(target, replacement)` for a non-empty `target`. */
  function Replace<T(==)>(s: seq<T>, target: seq<T>, replacement: seq<T>): seq<T>
    requires |target| > 0
  {
    Join(SplitOn(s, target), replacement)
  }

  /** Replacing a string that does not occur changes nothing. */
  lemma ReplaceAbsent<T>(s: seq<T>, target: seq<T>, replacement: seq<T>)
    requires |target| > 0
    requires !Contains(s, target)
    ensures Replace(s, target, replacement) == s
  {
    SplitOnAbsent(s, target);
  }

  // ---------------------------------------------------------------------------
  // Whitespace, padding

  /** The characters Python's `str.isspace()` accepts, which `str.strip()`,
    * `str.split()` and `int(str)` treat as white space: the ASCII controls
    * 0x09-0x0D and 0x1C-0x1F, the space, and the Unicode spaces and separators. */
  predicate IsSpace(c: char)
  {
    || c == ' ' || ('\t' <= c <= '\r') || ('\U{001C}' <= c <= '\U{001F}')
    || c == '\U{0085}' || c == '\U{00A0}' || c == '\U{1680}' || ('\U{2000}' <= c <= '\U{200A}')
    || c == '\U{2028}' || c == '\U{2029}' || c == '\U{202F}' || c == '\U{205F}' || c == '\U{3000}'
  }

  function StripLeft(s: string): (r: string)
    ensures |r| <= |s|
    ensures r == s[|s| - |r|..]
    ensures |r| > 0 ==> !IsSpace(r[0])
    decreases |s|
  {
    if |s| > 0 && IsSpace(s[0]) then StripLeft(s[1..]) else s
  }

  function StripRight(s: string): (r: string)
    ensures |r| <= |s|
    ensures r == s[..|r|]
    ensures |r| > 0 ==> !IsSpace(r[|r| - 1])
    decreases |s|
  {
    if |s| > 0 && IsSpace(s[|s| - 1]) then StripRight(s[..|s| - 1]) else s
  }

  /** Python's `s.strip()`. */
  function Strip(s: string): string
  {
    StripRight(StripLeft(s))
  }

  /** A string starting and ending with non-space characters is its own strip. */
  lemma StripTrimmed(s: string)
    requires |s| > 0 ==> !IsSpace(s[0]) && !IsSpace(s[|s| - 1])
    ensures Strip(s) == s
  {
  }

  function Spaces(n: nat): (r: string)
    ensures |r| == n
    ensures forall i :: 0 <= i < n ==> r[i] == ' '
  {
    seq(n, _ => ' ')
  }

  /** Leading spaces are all removed by `StripLeft`. */
  lemma {:induction false} StripLeftSpaces(l: nat, x: string)
    requires |x| > 0 ==> !IsSpace(x[0])
    ensures StripLeft(Spaces(l) + x) == x
    decreases l
  {
    if l > 0 {
      var t := Spaces(l) + x;
      assert t[1..] == Spaces(l - 1) + x;
      StripLeftSpaces(l - 1, x);
    } else {
      assert Spaces(0) + x == x;
    }
  }

  /** Trailing spaces are all removed by `StripRight`. */
  lemma {:induction false} StripRightSpaces(x: string, r: nat)
    requires |x| > 0 ==> !IsSpace(x[|x| - 1])
    ensures StripRight(x + Spaces(r)) == x
    decreases r
  {
    if r > 0 {
      var t := x + Spaces(r);
      assert t[..|t| - 1] == x + Spaces(r - 1);
      StripRightSpaces(x, r - 1);
    } else {
      assert x + Spaces(0) == x;
    }
  }

  /** Stripping removes any padding of spaces around a trimmed string. */
  lemma StripPadded(l: nat, s: string, r: nat)
    requires |s| > 0 ==> !IsSpace(s[0]) && !IsSpace(s[|s| - 1])
    ensures Strip(Spaces(l) + s + Spaces(r)) == s
  {
    var t := Spaces(l) + s + Spaces(r);
    assert t == Spaces(l) + (s + Spaces(r));
    if |s| > 0 {
      StripLeftSpaces(l, s + Spaces(r));
      StripRightSpaces(s, r);
    } else {
      assert t == Spaces(l + r) + [];
      StripLeftSpaces(l + r, []);
    }
  }

  /** `'{:^w}'.format(s)`: a string shorter than `w` is padded with spaces,
    * the smaller half on the left; a longer one is kept whole. */
  function Center(s: string, width: nat): (r: string)
    ensures |r| == if |s| < width then width else |s|
    ensures |s| < width ==> r == Spaces((width - |s|) / 2) + s + Spaces(width - |s| - (width - |s|) / 2)
    ensures |s| >= width ==> r == s
  {
    if |s| >= width then s
    else
      var pad := width - |s|;
      Spaces(pad / 2) + s + Spaces(pad - pad / 2)
  }

  /** Centring a trimmed string and stripping it again recovers it. */
  lemma CenterStrip(s: string, width: nat)
    requires |s| > 0 ==> !IsSpace(s[0]) && !IsSpace(s[|s| - 1])
    ensures Strip(Center(s, width)) == s
  {
    if |s| >= width {
      StripTrimmed(s);
    } else {
      var pad := width - |s|;
      StripPadded(pad / 2, s, pad - pad / 2);
    }
  }

  // ---------------------------------------------------------------------------
  // Numbers and their decimal text

  predicate IsDigit(c: char)
  {
    '0' <= c <= '9'
  }

  const DIGITS: string := "0123456789"

  function DigitChar(d: nat): (c: char)
    requires d < 10
    ensures IsDigit(c) && (c as int) - ('0' as int) == d
  {
    DIGITS[d]
  }

  /** Python's `str(n)` for a natural number. */
  function NatToString(n: nat): (r: string)
    ensures |r| > 0
    ensures forall i :: 0 <= i < |r| ==> IsDigit(r[i])
  {
    if n < 10 then [DigitChar(n)] else NatToString(n / 10) + [DigitChar(n % 10)]
  }

  /** Python's `str(i)` for an integer. */
  function IntToString(i: int): (r: string)
    ensures |r| > 0
    ensures i >= 0 ==> r == NatToString(i)
    ensures i < 0 ==> r == "-" + NatToString(-i)
  {
    if i < 0 then "-" + NatToString(-i) else NatToString(i)
  }

  predicate AllDigits(s: string)
  {
    forall i :: 0 <= i < |s| ==> IsDigit(s[i])
  }

  /** The value of a string of decimal digits. */
  function DigitsValue(s: string): nat
    requires AllDigits(s)
  {
    if |s| == 0 then 0
    else DigitsValue(s[..|s| - 1]) * 10 + ((s[|s| - 1] as int) - ('0' as int))
  }

  lemma {:induction false} DigitsValueNatToString(n: nat)
    ensures DigitsValue(NatToString(n)) == n
  {
    if n >= 10 {
      var s := NatToString(n);
      assert s[..|s| - 1] == NatToString(n / 10);
      DigitsValueNatToString(n / 10);
    }
  }

  /** Python's `int(s)` on decimal text: surrounding white space, an optional
    * sign, then at least one digit. Digit-group underscores and non-ASCII digits
    * are not modelled. `None` stands for the `ValueError` Python raises. */
  function ParseInt(s: string): (r: Option<int>)
    ensures r.Some? ==> |Strip(s)| > 0
  {
    var t := Strip(s);
    if |t| > 0 && (t[0] == '-' || t[0] == '+') then
      if |t| > 1 && AllDigits(t[1..]) then
        Some(if t[0] == '-' then -(DigitsValue(t[1..]) as int) else DigitsValue(t[1..]))
      else None
    else if |t| > 0 && AllDigits(t) then Some(DigitsValue(t))
    else None
  }

  /** `int(str(i)) == i`. */
  lemma ParseIntToString(i: int)
    ensures ParseInt(IntToString(i)) == Some(i)
  {
    var s := IntToString(i);
    if i < 0 {
      var d := NatToString(-i);
      assert s == "-" + d;
      assert s[1..] == d;
      assert s[|s| - 1] == d[|d| - 1];
      assert IsDigit(d[|d| - 1]);
      StripTrimmed(s);
      DigitsValueNatToString(-i);
      assert s[0] == '-' && |s| > 1 && AllDigits(s[1..]);
    } else {
      assert IsDigit(s[0]) && IsDigit(s[|s| - 1]);
      StripTrimmed(s);
      DigitsValueNatToString(i);
      assert AllDigits(s);
    }
  }

  /** `int('+' + str(n)) == n`: Python accepts an explicit plus sign. */
  lemma ParseIntPlus(n: nat)
    ensures ParseInt("+" + NatToString(n)) == Some(n)
  {
    var d := NatToString(n);
    var s := "+" + d;
    assert s[1..] == d;
    assert s[|s| - 1] == d[|d| - 1];
    assert IsDigit(d[|d| - 1]);
    StripTrimmed(s);
    DigitsValueNatToString(n);
    assert s[0] == '+' && |s| > 1 && AllDigits(s[1..]);
  }

  /** str(n) has no sign in front: its first character is a digit. */
  lemma NatToStringFirst(n: nat)
    ensures IsDigit(NatToString(n)[0])
  {
  }

  /** Text that starts with something other than white space, a sign or a
    * digit is not a number. */
  lemma ParseIntNonNumeric(s: string)
    requires |s| > 0 && !IsSpace(s[0]) && !IsDigit(s[0]) && s[0] != '-' && s[0] != '+'
    ensures ParseInt(s) == None
  {
    assert StripLeft(s) == s;
    var t := Strip(s);
    if |t| > 0 {
      assert t[0] == s[0];
      assert !AllDigits(t);
    }
  }

  /** `str(i)` ends in a digit. */
  lemma IntToStringLastDigit(i: int)
    ensures IsDigit(IntToString(i)[|IntToString(i)| - 1])
  {
    var d := NatToString(if i < 0 then -i else i);
    assert IsDigit(d[|d| - 1]);
    if i < 0 {
      assert IntToString(i) == "-" + d;
    }
  }
}
