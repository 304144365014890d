/** The two patterns tag names are matched against (versionify/versionify_main.py:40
    and :225) and the `major.minor.patch` spelling of a version (:156). */
module VersionPattern {
  import opened Wrappers
  import opened Text

  /** The list [major, minor, patch] the engine compares and formats. */
  datatype Triple = Triple(major: nat, minor: nat, patch: nat)

  /** Python's comparison of two [major, minor, patch] lists: lexicographic. */
  predicate Less(a: Triple, b: Triple)
  {
    a.major < b.major
    || (a.major == b.major && a.minor < b.minor)
    || (a.major == b.major && a.minor == b.minor && a.patch < b.patch)
  }

  /** '.'.join([str(major), str(minor), str(patch)]). */
  function VersionString(v: Triple): string
  {
    NatToString(v.major) + "." + NatToString(v.minor) + "." + NatToString(v.patch)
  }

  /** What a successful match of the version pattern yields: groups 1-3 as numbers,
      and group 6 (the letters of the suffix) when group 4 is present. */
  datatype TagVersion = TagVersion(release: Triple, preLabel: Option<string>)

  /** How the part after group 3 matches `(-?(([a-zA-Z]+)([0-9]+)))?$`. */
  datatype SuffixMatch = NoMatch | Plain | Pre(letters: string)

  /** The characters s[a..e] are all decimal digits. */
  predicate DigitsBetween(s: string, a: nat, e: nat)
    requires e <= |s|
  {
    forall x :: a <= x < e ==> IsDigit(s[x])
  }

  /** int(s[a..b]) for the digits s[a..b]. */
  function NumberBetween(s: string, a: nat, b: nat): nat
    requires a <= b <= |s|
    decreases b
  {
    if b == a then 0 else 10 * NumberBetween(s, a, b - 1) + DigitValue(s[b - 1])
  }

  /** Where the matcher of `(-?([a-zA-Z]+)([0-9]+))?$` stands after some characters:
      nothing read, the hyphen read, letters read (kept), digits read after the letters,
      or the newline `$` may precede read (with the match it completes). */
  datatype SuffixState = Begin | AfterHyphen | InLetters(acc: string) | InDigits(letters: string) | AtNewline(m: SuffixMatch)

  /** The state after reading c; None when no match can continue. */
  function SuffixNext(st: SuffixState, c: char): Option<SuffixState>
  {
    match st
    case Begin =>
      if c == '-' then Some(AfterHyphen)
      else if IsLetter(c) then Some(InLetters([c]))
      else if c == '\n' then Some(AtNewline(Plain))
      else None
    case AfterHyphen => if IsLetter(c) then Some(InLetters([c])) else None
    case InLetters(acc) =>
      if IsLetter(c) then Some(InLetters(acc + [c]))
      else if IsDigit(c) then Some(InDigits(acc))
      else None
    case InDigits(letters) =>
      if IsDigit(c) then Some(InDigits(letters))
      else if c == '\n' then Some(AtNewline(Pre(letters)))
      else None
    case AtNewline(_) => None
  }

  /** What `$` makes of the state at the end of the name. */
  function SuffixAccept(st: SuffixState): SuffixMatch
  {
    match st
    case Begin => Plain
    case InDigits(letters) => Pre(letters)
    case AtNewline(m) => m
    case _ => NoMatch
  }

  /** Runs the matcher over s[x..] from state st. */
  function SuffixScan(s: string, x: nat, st: SuffixState): SuffixMatch
    requires x <= |s|
    decreases |s| - x
  {
    if x == |s| then SuffixAccept(st)
    else
      var next := SuffixNext(st, s[x]);
      if next.None? then NoMatch else SuffixScan(s, x + 1, next.value)
  }

  /** How the tail s[k..] matches the optional group followed by `$`. */
  function MatchSuffixAt(s: string, k: nat): SuffixMatch
    requires k <= |s|
  {
    SuffixScan(s, k, Begin)
  }

  /** The same on a whole tail. */
  function MatchSuffix(r: string): SuffixMatch
  {
    SuffixScan(r, 0, Begin)
  }

  function LabelOf(m: SuffixMatch): Option<string>
  {
    if m.Pre? then Some(m.letters) else None
  }

  /** re.search(r'^(\d+).(\d+).(\d+)(-?(([a-zA-Z]+)([0-9]+)))?$', s). The `.` is not
      escaped, so each separator is any character but a newline, a digit included.
      The search tries the splits in the order of Python's backtracking engine:
      group 1 from its longest digit run down, then group 2 likewise. */
  function ParseVersion(s: string): Option<TagVersion>
  {
    TryMajor(s, DigitRun(s, 0))
  }

  /** Group 1 is s[..i]; the first separator is s[i]. */
  function TryMajor(s: string, i: nat): Option<TagVersion>
    requires i <= DigitRun(s, 0)
    decreases i
  {
    if i == 0 then None
    else
      var r := if i < |s| && s[i] != '\n' then TryMinor(s, i, i + 1 + DigitRun(s, i + 1)) else None;
      if r.Some? then r else TryMajor(s, i - 1)
  }

  /** Group 2 is s[i + 1..j]; the second separator is s[j]. */
  function TryMinor(s: string, i: nat, j: nat): Option<TagVersion>
    requires 0 < i <= DigitRun(s, 0) && i < |s|
    requires i + 1 <= j <= i + 1 + DigitRun(s, i + 1)
    decreases j
  {
    if j < i + 2 then None
    else
      var r := if j < |s| && s[j] != '\n' then TryPatch(s, i, j) else None;
      if r.Some? then r else TryMinor(s, i, j - 1)
  }

  /** Group 3 is the whole digit run after the second separator: a shorter group 3
      would leave a digit in front of the suffix, which cannot match it. */
  function TryPatch(s: string, i: nat, j: nat): Option<TagVersion>
    requires 0 < i <= DigitRun(s, 0) && i < |s|
    requires i + 2 <= j <= i + 1 + DigitRun(s, i + 1) && j < |s|
  {
    var k := j + 1 + DigitRun(s, j + 1);
    if k < j + 2 then None
    else
      var m := MatchSuffixAt(s, k);
      if m.NoMatch? then None
      else Some(TagVersion(Triple(NumberBetween(s, 0, i), NumberBetween(s, i + 1, j), NumberBetween(s, j + 1, k)),
                           LabelOf(m)))
  }

  /** The digits s[a..b] are worth what int() makes of the slice. */
  lemma {:induction false} NumberBetweenIs(s: string, a: nat, b: nat)
    requires a <= b <= |s|
    ensures NumberBetween(s, a, b) == DigitsToNat(s[a..b])
    decreases b
  {
    if b > a {
      NumberBetweenIs(s, a, b - 1);
      assert s[a..b][..b - a - 1] == s[a..b - 1];
    }
  }

  /** The matcher does not see what comes before the position it starts from. */
  lemma {:induction false} SuffixScanShift(p: string, t: string, x: nat, st: SuffixState)
    requires x <= |t|
    ensures SuffixScan(p + t, |p| + x, st) == SuffixScan(t, x, st)
    decreases |t| - x
  {
    if x < |t| {
      assert (p + t)[|p| + x] == t[x];
      var next := SuffixNext(st, t[x]);
      if next.Some? {
        SuffixScanShift(p, t, x + 1, next.value);
      }
    }
  }

  /** Matching the suffix group on a tail does not depend on what precedes it. */
  lemma MatchSuffixShift(p: string, t: string)
    ensures MatchSuffixAt(p + t, |p|) == MatchSuffix(t)
  {
    SuffixScanShift(p, t, 0, Begin);
  }

  /** Letters s[x..y] are collected into the letters state. */
  lemma {:induction false} SuffixScanLetters(s: string, x: nat, y: nat, acc: string)
    requires x <= y <= |s|
    requires forall z :: x <= z < y ==> IsLetter(s[z])
    ensures SuffixScan(s, x, InLetters(acc)) == SuffixScan(s, y, InLetters(acc + s[x..y]))
    decreases y - x
  {
    if x < y {
      SuffixScanLetters(s, x + 1, y, acc + [s[x]]);
      assert acc + [s[x]] + s[x + 1..y] == acc + s[x..y];
    } else {
      assert acc + s[x..y] == acc;
    }
  }

  /** Digits up to the end of the name complete a pre-release suffix. */
  lemma {:induction false} SuffixScanDigits(s: string, x: nat, letters: string)
    requires x <= |s|
    requires forall z :: x <= z < |s| ==> IsDigit(s[z])
    ensures SuffixScan(s, x, InDigits(letters)) == Pre(letters)
    decreases |s| - x
  {
    if x < |s| {
      SuffixScanDigits(s, x + 1, letters);
    }
  }

  /** A tail the suffix group accepts does not start with a digit. */
  lemma SuffixStartsWithNonDigit(s: string, k: nat)
    requires k <= |s| && MatchSuffixAt(s, k) != NoMatch
    ensures k == |s| || !IsDigit(s[k])
  {
  }

  /** A name split as digits, separator, digits, separator, digits, suffix, with each
      digit group maximal, matches with those three groups. */
  lemma ParseSplit(s: string, i: nat, j: nat)
    requires 0 < i && i + 1 < j < |s|
    requires DigitRun(s, 0) == i && s[i] != '\n'
    requires DigitRun(s, i + 1) == j - i - 1 && s[j] != '\n'
    requires 0 < DigitRun(s, j + 1) && MatchSuffixAt(s, j + 1 + DigitRun(s, j + 1)) != NoMatch
    ensures ParseVersion(s)
         == Some(TagVersion(Triple(NumberBetween(s, 0, i), NumberBetween(s, i + 1, j),
                                   NumberBetween(s, j + 1, j + 1 + DigitRun(s, j + 1))),
                            LabelOf(MatchSuffixAt(s, j + 1 + DigitRun(s, j + 1)))))
  {
    PatchGroupMatches(s, i, j);
    MinorGroupMatches(s, i, j);
    MajorGroupMatches(s, i, j);
  }

  lemma PatchGroupMatches(s: string, i: nat, j: nat)
    requires 0 < i && i + 1 < j < |s|
    requires DigitRun(s, 0) == i
    requires DigitRun(s, i + 1) == j - i - 1
    requires 0 < DigitRun(s, j + 1) && MatchSuffixAt(s, j + 1 + DigitRun(s, j + 1)) != NoMatch
    ensures TryPatch(s, i, j)
         == Some(TagVersion(Triple(NumberBetween(s, 0, i), NumberBetween(s, i + 1, j),
                                   NumberBetween(s, j + 1, j + 1 + DigitRun(s, j + 1))),
                            LabelOf(MatchSuffixAt(s, j + 1 + DigitRun(s, j + 1)))))
  {
  }

  lemma MinorGroupMatches(s: string, i: nat, j: nat)
    requires 0 < i && i + 1 < j < |s|
    requires DigitRun(s, 0) == i && s[i] != '\n'
    requires DigitRun(s, i + 1) == j - i - 1 && s[j] != '\n'
    requires TryPatch(s, i, j).Some?
    ensures TryMinor(s, i, j) == TryPatch(s, i, j)
  {
  }

  lemma MajorGroupMatches(s: string, i: nat, j: nat)
    requires 0 < i && i + 1 < j < |s|
    requires DigitRun(s, 0) == i && s[i] != '\n'
    requires DigitRun(s, i + 1) == j - i - 1
    requires TryMinor(s, i, j).Some?
    ensures TryMajor(s, i) == TryMinor(s, i, j)
  {
  }

  /** A name made of three digit groups, two separators and a suffix the optional
      group accepts matches with exactly those groups. */
  lemma {:induction false} ParseGroups(s: string, i: nat, j: nat, k: nat)
    requires 0 < i && i + 1 < j && j + 1 < k <= |s|
    requires DigitsBetween(s, 0, i) && DigitsBetween(s, i + 1, j) && DigitsBetween(s, j + 1, k)
    requires !IsDigit(s[i]) && s[i] != '\n' && !IsDigit(s[j]) && s[j] != '\n'
    requires MatchSuffixAt(s, k) != NoMatch
    ensures ParseVersion(s) == Some(TagVersion(Triple(NumberBetween(s, 0, i), NumberBetween(s, i + 1, j),
                                                      NumberBetween(s, j + 1, k)), LabelOf(MatchSuffixAt(s, k))))
  {
    DigitRunIs(s, 0, i);
    DigitRunIs(s, i + 1, j - i - 1);
    SuffixStartsWithNonDigit(s, k);
    DigitRunIs(s, j + 1, k - j - 1);
    ParseSplit(s, i, j);
  }

  /** Where the three digit groups and the two dots of a version spelling lie. */
  lemma {:induction false} ThreeGroups(a: string, b: string, c: string, tail: string)
    requires AllDigits(a) && AllDigits(b) && AllDigits(c)
    ensures var s, i, j := a + "." + b + "." + c + tail, |a|, |a| + 1 + |b|;
            var k := j + 1 + |c|;
            DigitsBetween(s, 0, i) && DigitsBetween(s, i + 1, j) && DigitsBetween(s, j + 1, k)
            && s[i] == '.' && s[j] == '.' && s[0..i] == a && s[i + 1..j] == b && s[j + 1..k] == c
  {
    var s, i, j := a + "." + b + "." + c + tail, |a|, |a| + 1 + |b|;
    var k := j + 1 + |c|;
    assert s[..k] == a + "." + b + "." + c;
    forall x | 0 <= x < i
      ensures IsDigit(s[x])
    {
      assert s[x] == s[..k][x] == a[x];
    }
    forall x | i + 1 <= x < j
      ensures IsDigit(s[x])
    {
      assert s[x] == s[..k][x] == b[x - i - 1];
    }
    forall x | j + 1 <= x < k
      ensures IsDigit(s[x])
    {
      assert s[x] == s[..k][x] == c[x - j - 1];
    }
    assert s[i] == s[..k][i] && s[j] == s[..k][j];
  }

  /** Three digit strings joined by dots and followed by a tail the suffix group
      accepts match with those numbers as groups 1-3. */
  lemma {:induction false} ParseThreeGroups(a: string, b: string, c: string, tail: string)
    requires |a| > 0 && |b| > 0 && |c| > 0 && AllDigits(a) && AllDigits(b) && AllDigits(c)
    requires MatchSuffix(tail) != NoMatch
    ensures ParseVersion(a + "." + b + "." + c + tail)
         == Some(TagVersion(Triple(DigitsToNat(a), DigitsToNat(b), DigitsToNat(c)), LabelOf(MatchSuffix(tail))))
  {
    var p := a + "." + b + "." + c;
    var s := p + tail;
    var i, j, k := |a|, |a| + 1 + |b|, |p|;
    ThreeGroups(a, b, c, tail);
    MatchSuffixShift(p, tail);
    ParseGroups(s, i, j, k);
    GroupNumbers(a, b, c, tail);
  }

  lemma {:induction false} GroupNumbers(a: string, b: string, c: string, tail: string)
    requires AllDigits(a) && AllDigits(b) && AllDigits(c)
    ensures var s, i, j := a + "." + b + "." + c + tail, |a|, |a| + 1 + |b|;
            var k := j + 1 + |c|;
            NumberBetween(s, 0, i) == DigitsToNat(a) && NumberBetween(s, i + 1, j) == DigitsToNat(b)
            && NumberBetween(s, j + 1, k) == DigitsToNat(c)
  {
    var s, i, j := a + "." + b + "." + c + tail, |a|, |a| + 1 + |b|;
    var k := j + 1 + |c|;
    ThreeGroups(a, b, c, tail);
    NumberBetweenIs(s, 0, i);
    NumberBetweenIs(s, i + 1, j);
    NumberBetweenIs(s, j + 1, k);
  }

  /** A version followed by a tail the suffix group accepts parses back to that
      version, with group 6 taken from the tail. */
  lemma {:induction false} ParseVersionString(v: Triple, tail: string)
    requires MatchSuffix(tail) != NoMatch
    ensures ParseVersion(VersionString(v) + tail) == Some(TagVersion(v, LabelOf(MatchSuffix(tail))))
  {
    ParseThreeGroups(NatToString(v.major), NatToString(v.minor), NatToString(v.patch), tail);
  }

  /** A release spelled by VersionString reads back as itself, with no pre-release
      letters: the tag add_tag creates is found again by the next lookup. */
  lemma ParseRelease(v: Triple)
    ensures ParseVersion(VersionString(v)) == Some(TagVersion(v, None))
  {
    assert VersionString(v) + "" == VersionString(v);
    ParseVersionString(v, "");
  }

  /** What the pattern's `$` leaves as the last character of a matching name: a digit of
      group 3 or 7, or the final newline. */
  predicate EndsLikeVersion(s: string)
  {
    |s| > 0 && (IsDigit(s[|s| - 1]) || s[|s| - 1] == '\n')
  }

  lemma {:induction false} SuffixScanEnds(s: string, x: nat, st: SuffixState)
    requires x < |s| && SuffixScan(s, x, st) != NoMatch
    ensures EndsLikeVersion(s)
    decreases |s| - x
  {
    var next := SuffixNext(st, s[x]);
    if x + 1 < |s| {
      SuffixScanEnds(s, x + 1, next.value);
    } else {
      assert SuffixAccept(next.value) != NoMatch;
    }
  }

  lemma PatchEnds(s: string, i: nat, j: nat)
    requires 0 < i <= DigitRun(s, 0) && i < |s|
    requires i + 2 <= j <= i + 1 + DigitRun(s, i + 1) && j < |s|
    requires TryPatch(s, i, j).Some?
    ensures EndsLikeVersion(s)
  {
    var k := j + 1 + DigitRun(s, j + 1);
    if k < |s| {
      SuffixScanEnds(s, k, Begin);
    } else {
      assert IsDigit(s[k - 1]);
    }
  }

  lemma {:induction false} MinorEnds(s: string, i: nat, j: nat)
    requires 0 < i <= DigitRun(s, 0) && i < |s|
    requires i + 1 <= j <= i + 1 + DigitRun(s, i + 1)
    requires TryMinor(s, i, j).Some?
    ensures EndsLikeVersion(s)
    decreases j
  {
    if j < |s| && s[j] != '\n' && TryPatch(s, i, j).Some? {
      PatchEnds(s, i, j);
    } else {
      MinorEnds(s, i, j - 1);
    }
  }

  lemma {:induction false} MajorEnds(s: string, i: nat)
    requires i <= DigitRun(s, 0)
    requires TryMajor(s, i).Some?
    ensures EndsLikeVersion(s)
    decreases i
  {
    if i < |s| && s[i] != '\n' && TryMinor(s, i, i + 1 + DigitRun(s, i + 1)).Some? {
      MinorEnds(s, i, i + 1 + DigitRun(s, i + 1));
    } else {
      MajorEnds(s, i - 1);
    }
  }

  /** A name that matches ends in a digit or a final newline: "2.0.0-rc", say, is no
      version tag at all. */
  lemma ParsedEndsLikeVersion(s: string)
    requires ParseVersion(s).Some?
    ensures EndsLikeVersion(s)
  {
    MajorEnds(s, DigitRun(s, 0));
  }

  /** A letters-then-number suffix, with or without a hyphen, is a pre-release letters. */
  lemma {:induction false} PreReleaseSuffix(hyphen: bool, letters: string, n: nat)
    requires |letters| > 0 && AllLetters(letters)
    ensures MatchSuffix((if hyphen then "-" else "") + letters + NatToString(n)) == Pre(letters)
  {
    var digits := NatToString(n);
    var r := (if hyphen then "-" else "") + letters + digits;
    var start := if hyphen then 1 else 0;
    var q := start + |letters|;
    forall z | start <= z < q
      ensures IsLetter(r[z])
    {
      assert r[z] == letters[z - start];
    }
    forall z | q <= z < |r|
      ensures IsDigit(r[z])
    {
      assert r[z] == digits[z - q];
    }
    assert hyphen ==> SuffixScan(r, 0, Begin) == SuffixScan(r, 1, AfterHyphen);
    assert SuffixScan(r, start, if hyphen then AfterHyphen else Begin) == SuffixScan(r, start + 1, InLetters([r[start]]));
    SuffixScanLetters(r, start + 1, q, [r[start]]);
    assert [r[start]] + r[start + 1..q] == r[start..q] == letters;
    assert SuffixScan(r, q, InLetters(letters)) == SuffixScan(r, q + 1, InDigits(letters));
    SuffixScanDigits(r, q + 1, letters);
  }

  /** re.search(r'[A-Za-z]+([0-9]+)', s).group(1) as a number: the digits after the
      first run of letters, scanning from `from`, that is followed by a digit. */
  function PreNumberFrom(s: string, from: nat): Option<nat>
    requires from <= |s|
    decreases |s| - from
  {
    if from == |s| then None
    else
      var n := LetterRun(s, from);
      if n > 0 && from + n < |s| && IsDigit(s[from + n]) then
        var d := DigitRun(s, from + n);
        Some(NumberBetween(s, from + n, from + n + d))
      else PreNumberFrom(s, from + 1)
  }

  function PreNumber(s: string): Option<nat>
  {
    PreNumberFrom(s, 0)
  }

  lemma {:induction false} PreNumberSkips(s: string, from: nat, stop: nat)
    requires from <= stop <= |s|
    requires forall x :: from <= x < stop ==> !IsLetter(s[x])
    ensures PreNumberFrom(s, from) == PreNumberFrom(s, stop)
    decreases stop - from
  {
    if from < stop {
      PreNumberSkips(s, from + 1, stop);
    }
  }

  /** A name with no letter before position p, then letters, then digits to the end,
      yields the number those digits spell. */
  lemma {:induction false} PreNumberAfterLetters(s: string, p: nat, q: nat)
    requires p < q < |s|
    requires forall x :: 0 <= x < p ==> !IsLetter(s[x])
    requires forall x :: p <= x < q ==> IsLetter(s[x])
    requires DigitsBetween(s, q, |s|)
    ensures PreNumber(s) == Some(NumberBetween(s, q, |s|))
  {
    PreNumberSkips(s, 0, p);
    LetterRunIs(s, p, q - p);
    DigitRunIs(s, q, |s| - q);
  }

  /** The number after the letters of a tag spelled version + letters + number. */
  lemma {:induction false} PreNumberOfPreReleaseTag(v: Triple, letters: string, n: nat)
    requires |letters| > 0 && AllLetters(letters)
    ensures PreNumber(VersionString(v) + letters + NatToString(n)) == Some(n)
  {
    var prefix, digits := VersionString(v), NatToString(n);
    var s := prefix + letters + digits;
    var p, q := |prefix|, |prefix| + |letters|;
    forall x | 0 <= x < p
      ensures !IsLetter(s[x])
    {
      assert s[x] == prefix[x];
      VersionStringHasNoLetters(v, x);
    }
    forall x | p <= x < q
      ensures IsLetter(s[x])
    {
      assert s[x] == letters[x - p];
    }
    forall x | q <= x < |s|
      ensures IsDigit(s[x])
    {
      assert s[x] == digits[x - q];
    }
    PreNumberAfterLetters(s, p, q);
    NumberBetweenIs(s, q, |s|);
    assert s[q..|s|] == digits;
  }

  lemma VersionStringHasNoLetters(v: Triple, x: nat)
    requires x < |VersionString(v)|
    ensures !IsLetter(VersionString(v)[x])
  {
    var a, b, c := NatToString(v.major), NatToString(v.minor), NatToString(v.patch);
    assert VersionString(v) == a + "." + b + "." + c;
    if x < |a| { assert VersionString(v)[x] == a[x]; }
    else if x == |a| { }
    else if x < |a| + 1 + |b| { assert VersionString(v)[x] == b[x - |a| - 1]; }
    else if x == |a| + 1 + |b| { }
    else { assert VersionString(v)[x] == c[x - |a| - |b| - 2]; }
  }

  /** No two version triples share a spelling. */
  lemma {:induction false} VersionStringInjective(v: Triple, w: Triple)
    requires VersionString(v) == VersionString(w)
    ensures v == w
  {
    ParseVersionString(v, "");
    ParseVersionString(w, "");
    assert VersionString(v) + "" == VersionString(v);
    assert VersionString(w) + "" == VersionString(w);
  }
}
