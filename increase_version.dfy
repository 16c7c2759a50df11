/**
 * The version bump of the build scripts (build_scripts/increase_version.py):
 * the current version is split by a pattern into its major number, its
 * dotted release numbers and its optional pre-release, post-release and
 * development tags; the parts left after the bump are joined back into the
 * new version. Reading and writing the INI file that holds the version and
 * the command line are outside the model: the version and the release flag
 * are parameters.
 */
module IncreaseVersion {
  import opened Wrappers
  import opened PyStrings

  /** The five groups of the version pattern. The dotted group always takes
    * part in a match and is empty when there are no dotted numbers; the
    * three tags are `None` when absent. */
  datatype VersionGroups = VersionGroups(major: string, dotted: string, pre: Option<string>,
                                         post: Option<string>, dev: Option<string>)

  /** Length of the run of digits that starts `s`. */
  function DigitRun(s: string): (n: nat)
    ensures n <= |s|
    ensures n < |s| ==> !IsDigit(s[n])
    decreases |s|
  {
    if |s| > 0 && IsDigit(s[0]) then 1 + DigitRun(s[1..]) else 0
  }

  /** Length of the longest prefix of `s` of the form `(\.[0-9]+)*`. */
  function DottedRun(s: string): (n: nat)
    ensures n <= |s|
    decreases |s|
  {
    if |s| > 1 && s[0] == '.' && IsDigit(s[1]) then
      var k := 1 + DigitRun(s[1..]);
      k + DottedRun(s[k..])
    else 0
  }

  /** Length of a prefix `tag[0-9]+` of `s`, or 0 when `s` does not start so. */
  function TaggedRun(s: string, tag: string): (n: nat)
    ensures n <= |s|
    ensures n > 0 ==> |tag| < n && s[..|tag|] == tag
  {
    if |tag| <= |s| && s[..|tag|] == tag && DigitRun(s[|tag|..]) > 0 then |tag| + DigitRun(s[|tag|..])
    else 0
  }

  /** Length of a pre-release tag `(a|b|rc)[0-9]+` that starts `s`, or 0. */
  function PreRun(s: string): (n: nat)
    ensures n <= |s|
  {
    if TaggedRun(s, "a") > 0 then TaggedRun(s, "a")
    else if TaggedRun(s, "b") > 0 then TaggedRun(s, "b")
    else TaggedRun(s, "rc")
  }

  /** The value of an optional group that matched `n` characters of `s`. */
  function Group(s: string, n: nat): (r: Option<string>)
    requires n <= |s|
    ensures r.Some? <==> n > 0
  {
    if n > 0 then Some(s[..n]) else None
  }

  /** The pattern after a major number of `m` characters: the optional
    * groups are tried one after the other and the version must end after
    * the last one. Each repetition is greedy; no shorter choice could be
    * followed by the next group, so these are the groups of the match. */
  function MatchAfterMajor(v: string, m: nat): Option<VersionGroups>
    requires m <= |v|
  {
    var d := DottedRun(v[m..]);
    MatchTags(v[..m], v[m..][..d], v[m..][d..])
  }

  /** The optional pre-release tag, then the rest. */
  function MatchTags(major: string, dotted: string, s: string): Option<VersionGroups>
  {
    var p := PreRun(s);
    MatchPost(major, dotted, Group(s, p), s[p..])
  }

  /** The optional post-release tag, then the rest. */
  function MatchPost(major: string, dotted: string, pre: Option<string>, s: string): Option<VersionGroups>
  {
    var q := TaggedRun(s, ".post");
    MatchDev(major, dotted, pre, Group(s, q), s[q..])
  }

  /** The optional development tag, then the end of the version. */
  function MatchDev(major: string, dotted: string, pre: Option<string>, post: Option<string>, s: string)
    : Option<VersionGroups>
  {
    if TaggedRun(s, ".dev") == |s| then Some(VersionGroups(major, dotted, pre, post, Group(s, |s|))) else None
  }

  /** `re.search(r'(^[0-9])+((?:\.[0-9]+)*)((?:a|b|rc)[0-9]+)?(\.post[0-9]+)?(\.dev[0-9]+)?$', v)`
    * as written: the repeated group holds a start anchor, so it can repeat
    * only once and the major number is a single digit. `None` is the failed
    * search. */
  function MatchAsWritten(v: string): Option<VersionGroups>
  {
    if |v| > 0 && IsDigit(v[0]) then MatchAfterMajor(v, 1) else None
  }

  /** The pattern with the repetition inside the group, `(^[0-9]+)`: a major
    * number of any length. */
  function MatchVersion(v: string): Option<VersionGroups>
  {
    var m := DigitRun(v);
    if m > 0 then MatchAfterMajor(v, m) else None
  }

  /** The text of an optional group, empty when it is absent. */
  function Text(g: Option<string>): string
  {
    if g.Some? then g.value else ""
  }

  /** The version the groups spell. */
  function Render(g: VersionGroups): string
  {
    g.major + (g.dotted + Tags(g))
  }

  /** The text of the three tags. */
  function Tags(g: VersionGroups): string
  {
    Text(g.pre) + (Text(g.post) + Text(g.dev))
  }

  /** The shape each group of a match has. */
  predicate WellFormed(g: VersionGroups)
  {
    |g.major| > 0 && DigitRun(g.major) == |g.major| && RestWellFormed(g)
  }

  /** The shape of the groups after the major number. */
  predicate RestWellFormed(g: VersionGroups)
  {
    DottedRun(g.dotted) == |g.dotted| && IsPre(g.pre) && IsTagged(g.post, ".post") && IsTagged(g.dev, ".dev")
  }

  /** An absent group, or one that is a whole pre-release tag. */
  predicate IsPre(g: Option<string>)
  {
    g.Some? ==> |g.value| > 0 && PreRun(g.value) == |g.value|
  }

  /** An absent group, or one that is a whole `tag[0-9]+`. */
  predicate IsTagged(g: Option<string>, tag: string)
  {
    g.Some? ==> |g.value| > 0 && TaggedRun(g.value, tag) == |g.value|
  }

  /** No character of a digit run is cut off by a longer prefix. */
  lemma {:induction false} DigitRunPrefix(s: string, n: nat)
    requires DigitRun(s) <= n <= |s|
    ensures DigitRun(s[..n]) == DigitRun(s)
    decreases |s|
  {
    if |s| > 0 && IsDigit(s[0]) && n > 0 {
      DigitRunPrefix(s[1..], n - 1);
      assert s[..n][1..] == s[1..][..n - 1];
    }
  }

  /** A string of digits followed by a non-digit runs up to the non-digit. */
  lemma {:induction false} DigitRunAppend(s: string, t: string)
    requires DigitRun(s) == |s|
    requires |t| > 0 ==> !IsDigit(t[0])
    ensures DigitRun(s + t) == |s|
    decreases |s|
  {
    if |s| > 0 {
      DigitRunAppend(s[1..], t);
      assert (s + t)[1..] == s[1..] + t;
    }
  }

  lemma {:induction false} DottedRunPrefix(s: string)
    ensures DottedRun(s[..DottedRun(s)]) == DottedRun(s)
    decreases |s|
  {
    var n := DottedRun(s);
    if |s| > 1 && s[0] == '.' && IsDigit(s[1]) {
      var k := 1 + DigitRun(s[1..]);
      var t := s[..n];
      DottedRunPrefix(s[k..]);
      DigitRunPrefix(s[1..], n - 1);
      assert t[1..] == s[1..][..n - 1];
      assert t[0] == '.' && IsDigit(t[1]);
      assert 1 + DigitRun(t[1..]) == k;
      assert t[k..] == s[k..][..DottedRun(s[k..])];
      assert DottedRun(t) == k + DottedRun(t[k..]);
    }
  }

  /** What follows a dotted group does not continue it. */
  predicate EndsDotted(t: string)
  {
    (|t| > 0 ==> !IsDigit(t[0])) && !(|t| > 1 && t[0] == '.' && IsDigit(t[1]))
  }

  lemma {:induction false} DottedRunAppend(s: string, t: string)
    requires DottedRun(s) == |s|
    requires EndsDotted(t)
    ensures DottedRun(s + t) == |s|
    decreases |s|
  {
    if |s| > 0 {
      var a, b := DottedSplit(s);
      DottedRunAppend(b, t);
      DottedConsAppend(a, b, t);
    } else {
      assert s + t == t;
    }
  }

  /** One dotted number in front of a dotted group and what follows it. */
  lemma DottedConsAppend(a: string, b: string, t: string)
    requires |a| > 0 && DigitRun(a) == |a| && (|b| > 0 ==> !IsDigit(b[0]))
    requires EndsDotted(t) && DottedRun(b + t) == |b|
    ensures DottedRun("." + (a + b) + t) == 1 + |a| + |b|
  {
    assert "." + (a + b) + t == "." + (a + (b + t));
    DottedRunCons(a, b + t);
  }

  /** A non-empty dotted group is a dot, a run of digits and a shorter dotted
    * group. */
  lemma DottedSplit(s: string) returns (a: string, b: string)
    requires |s| > 0 && DottedRun(s) == |s|
    ensures s == "." + (a + b) && |a| > 0 && DigitRun(a) == |a|
    ensures (|b| > 0 ==> !IsDigit(b[0])) && DottedRun(b) == |b| && |b| < |s|
  {
    var k := 1 + DigitRun(s[1..]);
    a, b := s[1..k], s[k..];
    DigitRunPrefix(s[1..], k - 1);
    assert s[1..][..k - 1] == a;
    assert s == "." + (a + b);
  }

  /** A dot and a run of digits, then what comes after. */
  lemma DottedRunCons(a: string, rest: string)
    requires |a| > 0 && DigitRun(a) == |a|
    requires |rest| > 0 ==> !IsDigit(rest[0])
    ensures DottedRun("." + (a + rest)) == 1 + |a| + DottedRun(rest)
  {
    var w := "." + (a + rest);
    assert w[1..] == a + rest;
    DigitRunAppend(a, rest);
    assert w[1 + |a|..] == rest;
  }

  lemma TaggedRunPrefix(s: string, tag: string)
    requires TaggedRun(s, tag) > 0
    ensures TaggedRun(s[..TaggedRun(s, tag)], tag) == TaggedRun(s, tag)
  {
    var n := TaggedRun(s, tag);
    DigitRunPrefix(s[|tag|..], n - |tag|);
    assert s[..n][|tag|..] == s[|tag|..][..n - |tag|];
    assert s[..n][..|tag|] == s[..|tag|];
  }

  lemma TaggedRunAppend(s: string, t: string, tag: string)
    requires |s| > 0 && TaggedRun(s, tag) == |s|
    requires |t| > 0 ==> !IsDigit(t[0])
    ensures TaggedRun(s + t, tag) == |s|
  {
    DigitRunAppend(s[|tag|..], t);
    assert (s + t)[|tag|..] == s[|tag|..] + t;
    assert (s + t)[..|tag|] == s[..|tag|];
  }

  /** The tag a pre-release starting with `c` must have. */
  function PreTag(c: char): string
  {
    if c == 'a' then "a" else if c == 'b' then "b" else "rc"
  }

  /** Only the tag named by the first character can match. */
  lemma PreRunFirst(s: string)
    requires |s| > 0
    ensures PreRun(s) == TaggedRun(s, PreTag(s[0]))
    ensures PreRun(s) > 0 ==> s[0] == 'a' || s[0] == 'b' || s[0] == 'r'
  {
    assert TaggedRun(s, "a") > 0 ==> s[0] == 'a';
    assert TaggedRun(s, "b") > 0 ==> s[0] == 'b';
    assert TaggedRun(s, "rc") > 0 ==> s[0] == 'r';
  }

  lemma PreRunPrefix(s: string)
    requires PreRun(s) > 0
    ensures PreRun(s[..PreRun(s)]) == PreRun(s)
  {
    PreRunFirst(s);
    TaggedRunPrefix(s, PreTag(s[0]));
    PreRunFirst(s[..PreRun(s)]);
  }

  lemma PreRunAppend(s: string, t: string)
    requires |s| > 0 && PreRun(s) == |s|
    requires |t| > 0 ==> !IsDigit(t[0])
    ensures PreRun(s + t) == |s|
  {
    PreRunFirst(s);
    TaggedRunAppend(s, t, PreTag(s[0]));
    PreRunFirst(s + t);
  }

  /** A string starting with a dot holds no pre-release tag. */
  lemma PreRunDot(t: string)
    requires |t| > 0 ==> t[0] == '.'
    ensures PreRun(t) == 0
  {
    if |t| > 0 {
      PreRunFirst(t);
    }
  }

  /** The tags begin with a letter of a pre-release tag or with a dot. */
  lemma TagsStart(g: VersionGroups)
    requires RestWellFormed(g)
    ensures |Tags(g)| > 0 ==> Tags(g)[0] in "abr."
    ensures |Tags(g)| > 0 ==> !IsDigit(Tags(g)[0])
    ensures EndsDotted(Tags(g))
  {
    if g.pre.Some? {
      PreRunFirst(g.pre.value);
      assert Tags(g)[0] == g.pre.value[0];
    } else if g.post.Some? {
      assert g.post.value[..5] == ".post";
      assert Tags(g)[0] == '.' && Tags(g)[1] == 'p';
    } else if g.dev.Some? {
      assert g.dev.value[..4] == ".dev";
      assert Tags(g)[0] == '.' && Tags(g)[1] == 'd';
    }
  }

  /** A match of the last group is the rest of the version. */
  lemma MatchDevSound(major: string, dotted: string, pre: Option<string>, post: Option<string>, s: string)
    requires MatchDev(major, dotted, pre, post, s).Some?
    ensures var g := MatchDev(major, dotted, pre, post, s).value;
      g.major == major && g.dotted == dotted && g.pre == pre && g.post == post
      && Text(g.dev) == s && IsTagged(g.dev, ".dev")
  {
    if |s| > 0 {
      TaggedRunPrefix(s, ".dev");
      assert s[..|s|] == s;
    }
  }

  lemma MatchDevComplete(major: string, dotted: string, pre: Option<string>, post: Option<string>,
                         dev: Option<string>)
    requires IsTagged(dev, ".dev")
    ensures MatchDev(major, dotted, pre, post, Text(dev)) == Some(VersionGroups(major, dotted, pre, post, dev))
  {
    if dev.Some? {
      assert dev.value[..|dev.value|] == dev.value;
    }
  }

  lemma MatchPostSound(major: string, dotted: string, pre: Option<string>, s: string)
    requires MatchPost(major, dotted, pre, s).Some?
    ensures var g := MatchPost(major, dotted, pre, s).value;
      g.major == major && g.dotted == dotted && g.pre == pre
      && Text(g.post) + Text(g.dev) == s && IsTagged(g.post, ".post") && IsTagged(g.dev, ".dev")
  {
    var q := TaggedRun(s, ".post");
    if q > 0 {
      TaggedRunPrefix(s, ".post");
    }
    MatchDevSound(major, dotted, pre, Group(s, q), s[q..]);
    SplitAt(s, q);
  }

  /** A present tag is a dot and letters followed by digits. */
  lemma TaggedStart(g: Option<string>, tag: string)
    requires IsTagged(g, tag) && g.Some?
    ensures g.value[..|tag|] == tag
  {
  }

  lemma MatchPostComplete(major: string, dotted: string, pre: Option<string>, post: Option<string>,
                          dev: Option<string>)
    requires IsTagged(post, ".post") && IsTagged(dev, ".dev")
    ensures MatchPost(major, dotted, pre, Text(post) + Text(dev))
      == Some(VersionGroups(major, dotted, pre, post, dev))
  {
    var s := Text(post) + Text(dev);
    if dev.Some? {
      TaggedStart(dev, ".dev");
      assert dev.value[0] == '.' && dev.value[1] == 'd';
    }
    if post.Some? {
      TaggedRunAppend(post.value, Text(dev), ".post");
      assert s[..|post.value|] == post.value;
    } else if dev.Some? {
      assert s[..5] != ".post" by { assert s[1] == 'd'; }
    }
    assert s[TaggedRun(s, ".post")..] == Text(dev);
    MatchDevComplete(major, dotted, pre, post, dev);
  }

  lemma MatchTagsSound(major: string, dotted: string, s: string)
    requires MatchTags(major, dotted, s).Some?
    ensures var g := MatchTags(major, dotted, s).value;
      g.major == major && g.dotted == dotted && Tags(g) == s
      && IsPre(g.pre) && IsTagged(g.post, ".post") && IsTagged(g.dev, ".dev")
  {
    var p := PreRun(s);
    if p > 0 {
      PreRunPrefix(s);
    }
    MatchPostSound(major, dotted, Group(s, p), s[p..]);
    SplitAt(s, p);
  }

  lemma MatchTagsComplete(major: string, dotted: string, pre: Option<string>, post: Option<string>,
                          dev: Option<string>)
    requires IsPre(pre) && IsTagged(post, ".post") && IsTagged(dev, ".dev")
    ensures MatchTags(major, dotted, Text(pre) + (Text(post) + Text(dev)))
      == Some(VersionGroups(major, dotted, pre, post, dev))
  {
    var r := Text(post) + Text(dev);
    var s := Text(pre) + r;
    if dev.Some? {
      TaggedStart(dev, ".dev");
    }
    if post.Some? {
      TaggedStart(post, ".post");
    }
    assert |r| > 0 ==> r[0] == '.';
    if pre.Some? {
      PreRunAppend(pre.value, r);
      assert s[..|pre.value|] == pre.value;
    } else {
      PreRunDot(r);
    }
    assert s[PreRun(s)..] == r;
    MatchPostComplete(major, dotted, pre, post, dev);
  }

  /** A match spells the version back from groups of the right shape. */
  lemma MatchAfterMajorSound(v: string, m: nat)
    requires m <= |v| && MatchAfterMajor(v, m).Some?
    ensures Render(MatchAfterMajor(v, m).value) == v
    ensures MatchAfterMajor(v, m).value.major == v[..m]
    ensures RestWellFormed(MatchAfterMajor(v, m).value)
  {
    var r := v[m..];
    var d := DottedRun(r);
    DottedRunPrefix(r);
    MatchTagsSound(v[..m], r[..d], r[d..]);
    SplitAt(r, d);
    SplitAt(v, m);
  }

  /** A string is its prefix followed by the rest. */
  lemma SplitAt(s: string, k: nat)
    requires k <= |s|
    ensures s == s[..k] + s[k..]
  {
  }

  /** Groups of the right shape after a major number are matched back. */
  lemma MatchAfterMajorComplete(g: VersionGroups)
    requires RestWellFormed(g)
    ensures MatchAfterMajor(Render(g), |g.major|) == Some(g)
  {
    var v := Render(g);
    var r := v[|g.major|..];
    assert r == g.dotted + Tags(g);
    TagsStart(g);
    DottedRunAppend(g.dotted, Tags(g));
    assert r[..|g.dotted|] == g.dotted;
    assert r[|g.dotted|..] == Tags(g);
    assert v[..|g.major|] == g.major;
    MatchTagsComplete(g.major, g.dotted, g.pre, g.post, g.dev);
  }

  /** The corrected pattern recognises exactly the versions its groups spell:
    * every match is well formed and spells the version, and every well-formed
    * set of groups is matched back. */
  lemma MatchVersionSound(v: string)
    requires MatchVersion(v).Some?
    ensures WellFormed(MatchVersion(v).value) && Render(MatchVersion(v).value) == v
  {
    var m := DigitRun(v);
    MatchAfterMajorSound(v, m);
    DigitRunPrefix(v, m);
  }

  lemma MatchVersionComplete(g: VersionGroups)
    requires WellFormed(g)
    ensures MatchVersion(Render(g)) == Some(g)
  {
    TagsStart(g);
    var rest := g.dotted + Tags(g);
    assert |g.dotted| > 0 ==> g.dotted[0] == '.';
    assert |rest| > 0 ==> !IsDigit(rest[0]);
    DigitRunAppend(g.major, rest);
    MatchAfterMajorComplete(g);
  }

  /** The pattern as written agrees with the corrected one on versions with a
    * one-digit major number and matches nothing else. */
  lemma MatchAsWrittenMeaning(v: string, g: VersionGroups)
    ensures MatchAsWritten(v) == Some(g) <==> MatchVersion(v) == Some(g) && |g.major| == 1
  {
    if MatchAsWritten(v) == Some(g) {
      MatchAfterMajorSound(v, 1);
      assert DigitRun(g.major) == 1;
      MatchVersionComplete(g);
    }
    if MatchVersion(v) == Some(g) && |g.major| == 1 {
      MatchVersionSound(v);
      MatchAfterMajorComplete(g);
    }
  }

  /** Version 10.0.0 is not matched as written: `.groups()` is then called on
    * `None` and the script stops with an error. The corrected pattern reads
    * its groups. */
  lemma MajorTenRejected()
    ensures MatchAsWritten("10.0.0") == None
    ensures MatchVersion("10.0.0") == Some(VersionGroups("10", ".0.0", None, None, None))
  {
    var g := VersionGroups("10", ".0.0", None, None, None);
    assert Render(g) == "10.0.0";
    MatchVersionComplete(g);
    MatchAsWrittenMeaning("10.0.0", g);
    if MatchAsWritten("10.0.0").Some? {
      MatchAsWrittenMeaning("10.0.0", MatchAsWritten("10.0.0").value);
    }
  }

  /** Length of the run of digits that ends `s`. */
  function TrailingDigits(s: string): (n: nat)
    ensures n <= |s|
    ensures forall i :: |s| - n <= i < |s| ==> IsDigit(s[i])
    ensures n < |s| ==> !IsDigit(s[|s| - n - 1])
    decreases |s|
  {
    if |s| > 0 && IsDigit(s[|s| - 1]) then TrailingDigits(s[..|s| - 1]) + 1 else 0
  }

  /** The `except ValueError` branch of the increment. `re.split(r'(\d+)', part)`
    * without its empty pieces cuts the part into alternating runs of digits
    * and of other characters, and joining them gives the part back; so
    * replacing its last piece by the successor of that number leaves every
    * other character in place. When the part does not end with a digit,
    * `int` of the last piece (or the index into an empty list) raises and
    * the script stops: `None`. */
  function IncrementLastRun(part: string): (r: Option<string>)
    ensures r.Some? <==> TrailingDigits(part) > 0
  {
    if TrailingDigits(part) == 0 then None
    else Some(Before(part) + NatToString(LastNumber(part) + 1))
  }

  /** What comes before the last run of digits. */
  function Before(s: string): string
  {
    s[..|s| - TrailingDigits(s)]
  }

  /** The number the last run of digits spells. */
  function LastNumber(s: string): nat
  {
    DigitsValue(s[|s| - TrailingDigits(s)..])
  }

  /** The increment of the last version part: `str(int(part) + 1)` when the
    * part reads as an integer, its last run of digits bumped otherwise. */
  function IncrementPart(part: string): (r: Option<string>)
    ensures r.Some? ==> |r.value| > 0
  {
    match ParseInt(part)
    case Some(i) => Some(IntToString(i + 1))
    case None => IncrementLastRun(part)
  }

  /** A string of digits is its own trailing run. */
  lemma {:induction false} TrailingDigitsAll(s: string)
    requires AllDigits(s)
    ensures TrailingDigits(s) == |s|
    decreases |s|
  {
    if |s| > 0 {
      TrailingDigitsAll(s[..|s| - 1]);
    }
  }

  /** A run of digits after a prefix that does not end with a digit is the
    * trailing run. */
  lemma {:induction false} TrailingDigitsAppend(prefix: string, digits: string)
    requires AllDigits(digits)
    requires |prefix| > 0 ==> !IsDigit(prefix[|prefix| - 1])
    ensures TrailingDigits(prefix + digits) == |digits|
    decreases |digits|
  {
    if |digits| > 0 {
      assert (prefix + digits)[..|prefix + digits| - 1] == prefix + digits[..|digits| - 1];
      TrailingDigitsAppend(prefix, digits[..|digits| - 1]);
    } else {
      assert prefix + digits == prefix;
    }
  }

  /** On any part a match can produce, the two branches of the increment
    * agree: the whole part read as a number is also its last run of digits. */
  lemma IncrementBranchesAgree(part: string)
    requires |part| > 0 && IsDigit(part[|part| - 1])
    requires !IsSpace(part[0]) && part[0] != '-' && part[0] != '+'
    ensures IncrementPart(part) == IncrementLastRun(part)
  {
    StripTrimmed(part);
    if AllDigits(part) {
      TrailingDigitsAll(part);
      assert ParseInt(part) == Some(DigitsValue(part));
      assert part[|part| - |part|..] == part;
      var next := NatToString(DigitsValue(part) + 1);
      assert Before(part) == [] && LastNumber(part) == DigitsValue(part);
      assert IncrementLastRun(part) == Some([] + next);
      assert [] + next == next;
      assert IncrementPart(part) == Some(IntToString(DigitsValue(part) + 1));
    } else if !IsDigit(part[0]) {
      ParseIntNonNumeric(part);
    }
  }

  /** The increment keeps every character before the last run of digits and
    * makes that run spell the next number. */
  lemma IncrementMeaning(part: string)
    requires TrailingDigits(part) > 0
    ensures Before(IncrementLastRun(part).value) == Before(part)
    ensures LastNumber(IncrementLastRun(part).value) == LastNumber(part) + 1
  {
    var prefix := Before(part);
    var digits := NatToString(LastNumber(part) + 1);
    TrailingDigitsAppend(prefix, digits);
    var r := prefix + digits;
    assert r[..|r| - |digits|] == prefix;
    assert r[|r| - |digits|..] == digits;
    DigitsValueNatToString(LastNumber(part) + 1);
  }

  /** Python truthiness of a group: present and not empty. */
  predicate Truthy(x: Option<string>)
  {
    x.Some? && x.value != ""
  }

  /** A group as `[part for part in parts if part]` keeps it. */
  function Keep(x: Option<string>): seq<string>
  {
    if Truthy(x) then [x.value] else []
  }

  /** `[part for part in parts if part]`. */
  function Present(xs: seq<Option<string>>): seq<string>
  {
    if |xs| == 0 then [] else Present(xs[..|xs| - 1]) + Keep(xs[|xs| - 1])
  }

  /** The parts the filter keeps, group by group. */
  function Parts(g: VersionGroups): seq<string>
  {
    Keep(Some(g.major)) + Keep(Some(g.dotted)) + Keep(g.pre) + Keep(g.post) + Keep(g.dev)
  }

  /** The second part kept, when there is one: the first non-empty group
    * after the major number. */
  function SecondPart(g: VersionGroups): Option<string>
  {
    if g.dotted != "" then Some(g.dotted)
    else if Truthy(g.pre) then g.pre
    else if Truthy(g.post) then g.post
    else if Truthy(g.dev) then g.dev
    else None
  }

  /** The last tag present after a pre-release tag. */
  function LastTag(g: VersionGroups): string
  {
    if Truthy(g.dev) then Text(g.dev) else if Truthy(g.post) then Text(g.post) else Text(g.pre)
  }

  /** The groups with their last present tag replaced by `x`. */
  function WithLastTag(g: VersionGroups, x: string): VersionGroups
  {
    if Truthy(g.dev) then g.(dev := Some(x))
    else if Truthy(g.post) then g.(post := Some(x), dev := None)
    else g.(pre := Some(x), post := None, dev := None)
  }

  /** The version `version_updater` writes for the groups of the current one:
    * releasing a pre-release keeps the first two parts; otherwise a final
    * version keeps its first two parts, bumps the last of them and, unless
    * released, becomes the first beta of that version; a pre-release that is
    * not released bumps its last tag. `None` when the increment raises. */
  function Bumped(g: VersionGroups, isRelease: bool): Option<string>
  {
    if isRelease && Truthy(g.pre) then
      Some(g.major + Text(SecondPart(g)))
    else if !Truthy(g.pre) then
      var beta := if isRelease then "" else "b0";
      if SecondPart(g).Some? then
        match IncrementPart(SecondPart(g).value)
        case None => None
        case Some(x) => Some(g.major + x + beta)
      else
        match IncrementPart(g.major)
        case None => None
        case Some(x) => Some(x + beta)
    else
      match IncrementPart(LastTag(g))
      case None => None
      case Some(x) => Some(Render(WithLastTag(g, x)))
  }

  /** The new version, or `None` when the script stops with an error. */
  function UpdatedVersion(version: string, isRelease: bool): Option<string>
  {
    match MatchVersion(version)
    case None => None
    case Some(g) => Bumped(g, isRelease)
  }

  /** `sep.join` over a concatenation with an empty separator. */
  lemma {:induction false} JoinAppend(a: seq<string>, b: seq<string>)
    ensures Join(a + b, "") == Join(a, "") + Join(b, "")
    decreases |a|
  {
    if |a| == 0 {
      assert a + b == b;
    } else if |a| == 1 {
      if |b| > 0 {
        assert (a + b)[1..] == b;
      }
    } else {
      JoinAppend(a[1..], b);
      assert (a + b)[1..] == a[1..] + b;
    }
  }

  lemma JoinKeep(x: Option<string>)
    ensures Join(Keep(x), "") == Text(x)
  {
  }

  /** Joining the kept parts gives the version back. */
  lemma JoinParts(g: VersionGroups)
    ensures Join(Parts(g), "") == Render(g)
  {
    var a, b, c, d, e := Keep(Some(g.major)), Keep(Some(g.dotted)), Keep(g.pre), Keep(g.post), Keep(g.dev);
    JoinAppend(a + b + c + d, e);
    JoinAppend(a + b + c, d);
    JoinAppend(a + b, c);
    JoinAppend(a, b);
    JoinKeep(Some(g.major));
    JoinKeep(Some(g.dotted));
    JoinKeep(g.pre);
    JoinKeep(g.post);
    JoinKeep(g.dev);
    var m, t, u, v, w := g.major, g.dotted, Text(g.pre), Text(g.post), Text(g.dev);
    assert Join(Parts(g), "") == m + t + u + v + w;
    Associate(m, t, u, v, w);
  }

  lemma Associate(m: string, t: string, u: string, v: string, w: string)
    ensures m + t + u + v + w == m + (t + (u + (v + w)))
  {
  }

  /** The filter keeps the groups of a match in order. */
  lemma PresentGroups(g: VersionGroups)
    ensures Present([Some(g.major), Some(g.dotted), g.pre, g.post, g.dev]) == Parts(g)
  {
    var xs := [Some(g.major), Some(g.dotted), g.pre, g.post, g.dev];
    assert xs[..4][..3][..2][..1][..0] == [];
    assert Present(xs[..1]) == Keep(Some(g.major));
    assert Present(xs[..2]) == Keep(Some(g.major)) + Keep(Some(g.dotted)) by {
      assert xs[..2][..1] == xs[..1];
    }
    assert Present(xs[..3]) == Present(xs[..2]) + Keep(g.pre) by {
      assert xs[..3][..2] == xs[..2];
    }
    assert Present(xs[..4]) == Present(xs[..3]) + Keep(g.post) by {
      assert xs[..4][..3] == xs[..3];
    }
    assert xs[..5] == xs;
  }

  /** `version_parts[0:2]`: the major number and the second part. */
  lemma FirstTwoParts(g: VersionGroups)
    requires g.major != ""
    ensures SliceTo(Parts(g), 2) == [g.major] + Keep(SecondPart(g))
  {
  }

  /** With a pre-release tag, the last part is the last tag present, and
    * replacing it gives the parts of the groups with that tag replaced. */
  lemma LastPart(g: VersionGroups, x: string)
    requires g.major != "" && Truthy(g.pre) && x != ""
    ensures |Parts(g)| >= 2 && Parts(g)[|Parts(g)| - 1] == LastTag(g)
    ensures Parts(g)[..|Parts(g)| - 1] + [x] == Parts(WithLastTag(g, x))
  {
    var a, b := Keep(Some(g.major)), Keep(Some(g.dotted));
    var c, d, e := Keep(g.pre), Keep(g.post), Keep(g.dev);
    var p := Parts(g);
    if Truthy(g.dev) {
      assert p == a + b + c + d + [g.dev.value];
      assert p[..|p| - 1] == a + b + c + d;
    } else if Truthy(g.post) {
      assert p == a + b + c + [g.post.value];
      assert p[..|p| - 1] == a + b + c;
    } else {
      assert p == a + b + [g.pre.value];
      assert p[..|p| - 1] == a + b;
    }
  }

  /** Releasing a pre-release joins the first two parts. */
  lemma BumpedRelease(g: VersionGroups)
    requires g.major != "" && Truthy(g.pre)
    ensures Bumped(g, true) == Some(Join(SliceTo(Parts(g), 2), ""))
  {
    FirstTwoParts(g);
    JoinAppend([g.major], Keep(SecondPart(g)));
    JoinKeep(SecondPart(g));
  }

  /** `version_parts.insert(2, 'b0')` when `addBeta` holds. */
  function WithBeta(parts: seq<string>, addBeta: bool): seq<string>
  {
    if addBeta then SliceTo(parts, 2) + ["b0"] + SliceFrom(parts, 2) else parts
  }

  /** On at most two parts the insertion appends. */
  lemma WithBetaShort(parts: seq<string>, addBeta: bool)
    requires |parts| <= 2
    ensures WithBeta(parts, addBeta) == parts + (if addBeta then ["b0"] else [])
  {
  }

  /** A final version bumps the last of its first two parts and, unless
    * released, appends the beta tag. */
  lemma BumpedFinal(g: VersionGroups, isRelease: bool)
    requires g.major != "" && !Truthy(g.pre)
    ensures var kept := SliceTo(Parts(g), 2);
      var x := IncrementPart(kept[|kept| - 1]);
      Bumped(g, isRelease) == if x.None? then None
        else Some(Join(WithBeta(kept[..|kept| - 1] + [x.value], !isRelease), ""))
  {
    FirstTwoParts(g);
    var kept := SliceTo(Parts(g), 2);
    var x := IncrementPart(kept[|kept| - 1]);
    if x.Some? {
      var bumped := kept[..|kept| - 1] + [x.value];
      assert |bumped| <= 2;
      WithBetaShort(bumped, !isRelease);
      JoinAppend(bumped, if isRelease then [] else ["b0"]);
      if SecondPart(g).Some? {
        assert bumped == [g.major] + [x.value];
        JoinAppend([g.major], [x.value]);
      } else {
        assert bumped == [x.value];
      }
    }
  }

  /** A pre-release that is not released bumps its last part. */
  lemma BumpedPreRelease(g: VersionGroups)
    requires g.major != "" && Truthy(g.pre)
    ensures var p := Parts(g);
      var x := IncrementPart(p[|p| - 1]);
      Bumped(g, false) == if x.None? then None else Some(Join(p[..|p| - 1] + [x.value], ""))
  {
    var p := Parts(g);
    var x := IncrementPart(LastTag(g));
    if x.Some? {
      LastPart(g, x.value);
      JoinParts(WithLastTag(g, x.value));
    } else {
      LastPart(g, "0");
    }
  }

  /** `version_updater`: the version's parts are filtered, cut down, bumped
    * and joined the way the script does it; the result is the version
    * `Bumped` describes, `None` where the script stops with an error. */
  method VersionUpdater(version: string, isRelease: bool) returns (r: Option<string>)
    ensures r == UpdatedVersion(version, isRelease)
  {
    var groups := MatchVersion(version);
    if groups.None? {
      return None;
    }
    var g := groups.value;
    MatchedMajor(version);
    var versionParts := [Some(g.major), Some(g.dotted), g.pre, g.post, g.dev];
    var preRelease := versionParts[2];
    var parts := Present(versionParts);
    PresentGroups(g);
    r := UpdateParts(parts, preRelease, isRelease);
    PartsBumpedMeaning(g, isRelease);
  }

  /** The rest of `version_updater` on the filtered parts, with a pre-release
    * given by the third group. */
  function PartsBumped(parts: seq<string>, preRelease: bool, isRelease: bool): Option<string>
    requires |parts| > 0
  {
    var kept := if isRelease || !preRelease then SliceTo(parts, 2) else parts;
    if isRelease && preRelease then Some(Join(kept, ""))
    else
      var x := IncrementPart(kept[|kept| - 1]);
      if x.None? then None else Some(Join(WithBeta(kept[..|kept| - 1] + [x.value], !isRelease && !preRelease), ""))
  }

  /** On the parts of a match, the list operations give the version `Bumped`
    * describes. */
  lemma PartsBumpedMeaning(g: VersionGroups, isRelease: bool)
    requires g.major != ""
    ensures PartsBumped(Parts(g), Truthy(g.pre), isRelease) == Bumped(g, isRelease)
  {
    if isRelease && Truthy(g.pre) {
      BumpedRelease(g);
    } else if !Truthy(g.pre) {
      BumpedFinal(g, isRelease);
    } else {
      BumpedPreRelease(g);
    }
  }

  /** The rest of `version_updater`, from the filtered parts to the new
    * version. */
  method UpdateParts(parts: seq<string>, preRelease: Option<string>, isRelease: bool) returns (r: Option<string>)
    requires |parts| > 0
    ensures r == PartsBumped(parts, Truthy(preRelease), isRelease)
  {
    var versionParts := parts;
    var versionIncreased := false;
    if isRelease || !Truthy(preRelease) {
      versionParts := SliceTo(versionParts, 2);
      if Truthy(preRelease) {
        versionIncreased := true;
      }
    }
    if !versionIncreased {
      var bumped := BumpLastPart(versionParts);
      if bumped.None? {
        return None;
      }
      versionParts := bumped.value;
    }
    ghost var increased := versionParts;
    if !isRelease && !Truthy(preRelease) {
      versionParts := SliceTo(versionParts, 2) + ["b0"] + SliceFrom(versionParts, 2);
    }
    assert versionParts == WithBeta(increased, !isRelease && !Truthy(preRelease));
    r := Some(Join(versionParts, ""));
  }

  /** A match has a major number. */
  lemma MatchedMajor(v: string)
    requires MatchVersion(v).Some?
    ensures MatchVersion(v).value.major != ""
  {
    MatchVersionSound(v);
  }

  /** `version_parts.pop(-1)`, its increment and `version_parts.append`. */
  method BumpLastPart(parts: seq<string>) returns (r: Option<seq<string>>)
    requires |parts| > 0
    ensures var x := IncrementPart(parts[|parts| - 1]);
      r == if x.None? then None else Some(parts[..|parts| - 1] + [x.value])
  {
    var lastVersionPart := parts[|parts| - 1];
    var front := parts[..|parts| - 1];
    var bumped := IncrementPart(lastVersionPart);
    if bumped.None? {
      return None;
    }
    r := Some(front + [bumped.value]);
  }

  /** A string of digits is a whole digit run, and the other way round. */
  lemma {:induction false} DigitRunAll(s: string)
    ensures DigitRun(s) == |s| <==> AllDigits(s)
    decreases |s|
  {
    if |s| > 0 {
      DigitRunAll(s[1..]);
      assert AllDigits(s) <==> IsDigit(s[0]) && AllDigits(s[1..]);
    }
  }

  /** A non-empty dotted group starts with a dot. */
  lemma DottedStart(d: string)
    requires |d| > 0 && DottedRun(d) == |d|
    ensures d[0] == '.'
  {
  }

  /** A dotted group followed by one more dotted number. */
  lemma {:induction false} DottedRunSnoc(d: string, digits: string)
    requires DottedRun(d) == |d| && |digits| > 0 && AllDigits(digits)
    ensures DottedRun(d + ("." + digits)) == |d| + 1 + |digits|
    decreases |d|
  {
    DigitRunAll(digits);
    if |d| == 0 {
      assert d + ("." + digits) == "." + (digits + "");
      DottedRunCons(digits, "");
    } else {
      var a, b := DottedSplit(d);
      DottedRunSnoc(b, digits);
      if |b| > 0 {
        DottedStart(b);
      }
      DottedSnocStep(a, b, "." + digits);
    }
  }

  lemma DottedSnocStep(a: string, b: string, rest: string)
    requires |a| > 0 && DigitRun(a) == |a|
    requires |b + rest| > 0 ==> (b + rest)[0] == '.'
    ensures DottedRun("." + (a + b) + rest) == 1 + |a| + DottedRun(b + rest)
  {
    assert "." + (a + b) + rest == "." + (a + (b + rest));
    DottedRunCons(a, b + rest);
  }

  /** A non-empty dotted group is a shorter one, a dot and the last number. */
  lemma {:induction false} DottedLast(d: string) returns (front: string, digits: string)
    requires |d| > 0 && DottedRun(d) == |d|
    ensures d == front + ("." + digits) && DottedRun(front) == |front|
    ensures |digits| > 0 && AllDigits(digits)
    decreases |d|
  {
    var a, b := DottedSplit(d);
    DigitRunAll(a);
    if |b| == 0 {
      front, digits := "", a;
      assert d == front + ("." + digits);
    } else {
      var f;
      f, digits := DottedLast(b);
      front := "." + (a + f);
      if |f| > 0 {
        DottedStart(f);
      }
      DottedLastStep(a, b, f, "." + digits);
    }
  }

  lemma DottedLastStep(a: string, b: string, f: string, rest: string)
    requires |a| > 0 && DigitRun(a) == |a| && b == f + rest
    requires DottedRun(f) == |f| && (|f| > 0 ==> f[0] == '.')
    ensures "." + (a + b) == ("." + (a + f)) + rest
    ensures DottedRun("." + (a + f)) == |"." + (a + f)|
  {
    Regroup(".", a, f, rest);
    DottedRunCons(a, f);
  }

  lemma Regroup(x: string, a: string, f: string, rest: string)
    ensures x + (a + (f + rest)) == (x + (a + f)) + rest
  {
  }

  /** Bumping a dotted group bumps its last number and keeps it a dotted
    * group. */
  lemma DottedIncrement(d: string)
    requires |d| > 0 && DottedRun(d) == |d|
    ensures IncrementPart(d).Some? && IncrementPart(d) == IncrementLastRun(d)
    ensures var x := IncrementPart(d).value; |x| > 0 && DottedRun(x) == |x|
  {
    var front, digits := DottedLast(d);
    assert d == (front + ".") + digits;
    TrailingDigitsAppend(front + ".", digits);
    assert Before(d) == front + ".";
    var next := NatToString(LastNumber(d) + 1);
    DottedRunSnoc(front, next);
    assert (front + ".") + next == front + ("." + next);
    DottedStart(d);
    IncrementBranchesAgree(d);
  }

  /** Bumping a tagged group bumps its number and keeps its tag. */
  lemma TaggedIncrement(t: string, tag: string)
    requires |tag| > 0 && !IsDigit(tag[|tag| - 1]) && tag[0] in ".abr"
    requires |t| > 0 && TaggedRun(t, tag) == |t|
    ensures IncrementPart(t).Some? && IncrementPart(t) == IncrementLastRun(t)
    ensures var x := IncrementPart(t).value; |x| > 0 && TaggedRun(x, tag) == |x| && x[..|tag|] == tag
  {
    var digits := t[|tag|..];
    assert t == tag + digits;
    DigitRunAll(digits);
    TrailingDigitsAppend(tag, digits);
    assert Before(t) == tag;
    var next := NatToString(LastNumber(t) + 1);
    var x := tag + next;
    DigitRunAll(next);
    assert x[|tag|..] == next && x[..|tag|] == tag;
    IncrementBranchesAgree(t);
  }

  /** Releasing a pre-release keeps the major number and the dotted numbers
    * and drops every tag; the result is a final version. */
  lemma ReleaseOfPreRelease(g: VersionGroups)
    requires WellFormed(g) && g.pre.Some? && g.dotted != ""
    ensures UpdatedVersion(Render(g), true) == Some(g.major + g.dotted)
    ensures MatchVersion(g.major + g.dotted) == Some(VersionGroups(g.major, g.dotted, None, None, None))
  {
    MatchVersionComplete(g);
    var h := VersionGroups(g.major, g.dotted, None, None, None);
    assert Render(h) == g.major + g.dotted;
    MatchVersionComplete(h);
  }

  /** A well-formed version is read back into its own groups. */
  lemma UpdatedOfRender(g: VersionGroups, isRelease: bool)
    requires WellFormed(g)
    ensures UpdatedVersion(Render(g), isRelease) == Bumped(g, isRelease)
  {
    MatchVersionComplete(g);
  }

  /** A final version with dotted numbers bumps the dotted group. */
  lemma BumpedDotted(g: VersionGroups, isRelease: bool, d: string)
    requires !Truthy(g.pre) && g.dotted != "" && IncrementPart(g.dotted) == Some(d)
    ensures Bumped(g, isRelease) == Some(g.major + d + (if isRelease then "" else "b0"))
  {
  }

  /** Bumping a final version with dotted numbers bumps the last of them and
    * adds `b0` unless it is a release. */
  lemma FinalUpdate(g: VersionGroups, isRelease: bool)
    requires WellFormed(g) && g.pre.None? && g.dotted != ""
    ensures IncrementLastRun(g.dotted).Some?
    ensures UpdatedVersion(Render(g), isRelease)
      == Some(g.major + IncrementLastRun(g.dotted).value + (if isRelease then "" else "b0"))
  {
    UpdatedOfRender(g, isRelease);
    DottedIncrement(g.dotted);
    BumpedDotted(g, isRelease, IncrementLastRun(g.dotted).value);
  }

  /** A major number, dotted numbers and an optional pre-release tag are read
    * back as the groups they were written from. */
  lemma FinalReparse(major: string, d: string, pre: Option<string>)
    requires |major| > 0 && DigitRun(major) == |major|
    requires DottedRun(d) == |d| && IsPre(pre)
    ensures MatchVersion(major + d + Text(pre)) == Some(VersionGroups(major, d, pre, None, None))
  {
    var h := VersionGroups(major, d, pre, None, None);
    assert Render(h) == major + (d + (Text(pre) + ("" + "")));
    assert major + d + Text(pre) == Render(h);
    MatchVersionComplete(h);
  }

  /** Releasing a final version bumps the last dotted number and drops the
    * post-release and development tags. */
  lemma ReleaseOfFinal(g: VersionGroups)
    requires WellFormed(g) && g.pre.None? && g.dotted != ""
    ensures IncrementLastRun(g.dotted).Some?
    ensures var d := IncrementLastRun(g.dotted).value;
      UpdatedVersion(Render(g), true) == Some(g.major + d)
      && MatchVersion(g.major + d) == Some(VersionGroups(g.major, d, None, None, None))
  {
    FinalUpdate(g, true);
    DottedIncrement(g.dotted);
    var d := IncrementLastRun(g.dotted).value;
    NoSuffix(g.major + d);
    FinalReparse(g.major, d, None);
  }

  lemma NoSuffix(s: string)
    ensures s + "" == s && s + Text(None) == s
  {
  }

  /** `b0` is a pre-release tag. */
  lemma FirstBeta()
    ensures IsPre(Some("b0"))
  {
    assert "b0"[..1] == "b";
    assert DigitRun("b0"[1..]) == 1 by { assert "b0"[1..] == "0"; }
  }

  /** Bumping a final version without releasing it gives the first beta of
    * the next version. */
  lemma BetaOfFinal(g: VersionGroups)
    requires WellFormed(g) && g.pre.None? && g.dotted != ""
    ensures IncrementLastRun(g.dotted).Some?
    ensures var d := IncrementLastRun(g.dotted).value;
      UpdatedVersion(Render(g), false) == Some(g.major + d + "b0")
      && MatchVersion(g.major + d + "b0") == Some(VersionGroups(g.major, d, Some("b0"), None, None))
  {
    FinalUpdate(g, false);
    DottedIncrement(g.dotted);
    FirstBeta();
    FinalReparse(g.major, IncrementLastRun(g.dotted).value, Some("b0"));
  }

  /** The last tag of a pre-release bumps to a tag of the same kind. */
  lemma LastTagIncrement(g: VersionGroups)
    requires WellFormed(g) && g.pre.Some?
    ensures IncrementPart(LastTag(g)).Some? && IncrementPart(LastTag(g)) == IncrementLastRun(LastTag(g))
    ensures WellFormed(WithLastTag(g, IncrementPart(LastTag(g)).value))
  {
    if Truthy(g.dev) {
      TaggedIncrement(g.dev.value, ".dev");
    } else if Truthy(g.post) {
      TaggedIncrement(g.post.value, ".post");
    } else {
      var t := g.pre.value;
      PreRunFirst(t);
      TaggedIncrement(t, PreTag(t[0]));
      var x := IncrementPart(t).value;
      PreRunFirst(x);
    }
  }

  /** Bumping a pre-release without releasing it bumps the number of its
    * last tag and keeps every other group. */
  lemma NextPreRelease(g: VersionGroups)
    requires WellFormed(g) && g.pre.Some?
    ensures IncrementLastRun(LastTag(g)).Some?
    ensures var x := IncrementLastRun(LastTag(g)).value;
      UpdatedVersion(Render(g), false) == Some(Render(WithLastTag(g, x)))
      && MatchVersion(Render(WithLastTag(g, x))) == Some(WithLastTag(g, x))
  {
    UpdatedOfRender(g, false);
    LastTagIncrement(g);
    BumpedTag(g, IncrementLastRun(LastTag(g)).value);
    MatchVersionComplete(WithLastTag(g, IncrementLastRun(LastTag(g)).value));
  }

  /** A pre-release that is not released bumps its last tag. */
  lemma BumpedTag(g: VersionGroups, x: string)
    requires Truthy(g.pre) && IncrementPart(LastTag(g)) == Some(x)
    ensures Bumped(g, false) == Some(Render(WithLastTag(g, x)))
  {
  }
}
