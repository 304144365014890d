/** How `increase_version` (versionify/versionify_main.py:116-156) reads one commit: its
    type, whether its body declares a breaking change, and the one-shot bump rules; and the
    closed form of the version a whole walk over the relevant commits produces. */
module Classify {
  import opened Wrappers
  import opened Text
  import opened VersionPattern
  import opened Git

  /** The types that count as a patch without a format warning (line 121). */
  const PatchKeywords: seq<string> := ["fix", "docs", "style", "refactor", "perf", "test", "chore"]

  /** summary[0:summary.find('(')] (lines 127 and 130). */
  function CommitType(summary: string): string
  {
    PySlicePrefix(summary, Find(summary, "("))
  }

  /** The positions of the newlines of s, in increasing order. */
  function NewlineIndices(s: string): (r: seq<nat>)
    ensures forall k :: 0 <= k < |r| ==> r[k] < |s| && s[r[k]] == '\n'
    ensures forall p :: 0 <= p < |s| && s[p] == '\n' ==> p in r
    ensures forall k, l :: 0 <= k < l < |r| ==> r[k] < r[l]
  {
    if |s| == 0 then []
    else
      var front := NewlineIndices(s[..|s| - 1]);
      assert forall k :: 0 <= k < |front| ==> s[front[k]] == s[..|s| - 1][front[k]];
      front + (if s[|s| - 1] == '\n' then [|s| - 1] else [])
  }

  /** 'breaking change' in message[line:line+16].lower() (line 136). */
  predicate BreakingAt(m: string, line: nat)
    requires line <= |m|
  {
    Find(Lower(m[line..Min(line + 16, |m|)]), "breaking change") != -1
  }

  /** Some newline of the message starts a slice that passes the breaking-change test. */
  predicate IsBreaking(c: Commit)
  {
    var ends := NewlineIndices(c.message);
    exists k :: 0 <= k < |ends| && BreakingAt(c.message, ends[k])
  }

  /** The type lowered is "feat": the first operand of the `or` at line 142. */
  predicate IsFeat(c: Commit)
  {
    Lower(CommitType(c.summary)) == "feat"
  }

  /** The type lowered is "feature": the guarded second operand at line 142. */
  predicate IsFeature(c: Commit)
  {
    Lower(CommitType(c.summary)) == "feature"
  }

  /** The fields increase_version works on: the version and its three one-shot flags, and
      the number of format warnings printed. */
  datatype BumpState = BumpState(v: Triple, majorDone: bool, minorDone: bool, patchDone: bool,
                                 warnings: nat)

  function Start(v: Triple): BumpState
  {
    BumpState(v, false, false, false, 0)
  }

  /** One pass of the loop body at lines 126-155, given what the commit is: breaking, of
      type feat or feature (in any case), of a patch keyword type (exactly). */
  function Bump(s: BumpState, breaking: bool, feat: bool, feature: bool, keyword: bool): BumpState
  {
    var s1 := if breaking && !s.majorDone
              then s.(v := Triple(s.v.major + 1, 0, 0), majorDone := true) else s;
    var s2 := if feat || (feature && !s1.minorDone && !s1.majorDone)
              then s1.(v := s1.v.(minor := s1.v.minor + 1, patch := 0), minorDone := true) else s1;
    if !s2.majorDone && !s2.minorDone && !s2.patchDone
    then s2.(v := s2.v.(patch := s2.v.patch + 1), patchDone := true,
             warnings := s2.warnings + if keyword then 0 else 1)
    else s2
  }

  function Step(s: BumpState, c: Commit): BumpState
  {
    Bump(s, IsBreaking(c), IsFeat(c), IsFeature(c), CommitType(c.summary) in PatchKeywords)
  }

  /** The loop at line 125 over the relevant commits, newest first. */
  function Walk(s: BumpState, cs: seq<Commit>): BumpState
    decreases |cs|
  {
    if |cs| == 0 then s else Walk(Step(s, cs[0]), cs[1..])
  }

  /** One more commit walked: the walk of cs[i..] from s is the walk of cs[i + 1..] from the
      state after cs[i]. */
  lemma WalkAdvance(s: BumpState, cs: seq<Commit>, i: nat)
    requires i < |cs|
    ensures Walk(s, cs[i..]) == Walk(Step(s, cs[i]), cs[i + 1..])
  {
    assert cs[i..][1..] == cs[i + 1..];
  }

  /** Walking two stretches of commits one after the other. */
  lemma {:induction false} WalkAppend(s: BumpState, cs: seq<Commit>, c: Commit)
    ensures Walk(s, cs + [c]) == Step(Walk(s, cs), c)
    decreases |cs|
  {
    if |cs| == 0 {
      assert [c][1..] == [];
    } else {
      assert (cs + [c])[1..] == cs[1..] + [c];
      WalkAppend(Step(s, cs[0]), cs[1..], c);
    }
  }

  // ---------------------------------------------------------------------------------
  // The closed form of a walk

  function CountFeat(cs: seq<Commit>): nat
  {
    if |cs| == 0 then 0 else (if IsFeat(cs[0]) then 1 else 0) + CountFeat(cs[1..])
  }

  predicate HasBreaking(cs: seq<Commit>)
  {
    |cs| > 0 && (IsBreaking(cs[0]) || HasBreaking(cs[1..]))
  }

  /** The commits from the first breaking one on. */
  function FromFirstBreaking(cs: seq<Commit>): seq<Commit>
    requires HasBreaking(cs)
  {
    if IsBreaking(cs[0]) then cs else FromFirstBreaking(cs[1..])
  }

  /** How far minor rises when no commit is breaking: every `feat`, plus one if the first
      commit of type feat or feature is a `feature`. */
  function MinorBumps(cs: seq<Commit>): nat
  {
    if |cs| == 0 then 0
    else if IsFeat(cs[0]) then CountFeat(cs)
    else if IsFeature(cs[0]) then 1 + CountFeat(cs[1..])
    else MinorBumps(cs[1..])
  }

  /** The version increase_version computes from v: the first breaking change raises major
      and resets minor and patch, after which only `feat` commits move minor; without one,
      minor rises as MinorBumps says and patch is reset; failing both, patch rises by one. */
  function Increment(v: Triple, cs: seq<Commit>): Triple
  {
    if HasBreaking(cs) then Triple(v.major + 1, CountFeat(FromFirstBreaking(cs)), 0)
    else if MinorBumps(cs) > 0 then Triple(v.major, v.minor + MinorBumps(cs), 0)
    else if |cs| > 0 then Triple(v.major, v.minor, v.patch + 1)
    else v
  }

  /** The format warning is printed: the newest commit reaches the patch branch and its type
      is no patch keyword. */
  predicate WarnsFormat(cs: seq<Commit>)
  {
    |cs| > 0 && !IsBreaking(cs[0]) && !IsFeat(cs[0]) && !IsFeature(cs[0])
    && CommitType(cs[0].summary) !in PatchKeywords
  }

  /** A walk once major or minor has been bumped: only a first breaking change (if major is
      still open) and `feat` commits have an effect, and no warning is printed. */
  lemma {:induction false} WalkAfterBump(s: BumpState, cs: seq<Commit>)
    requires s.majorDone || s.minorDone
    ensures Walk(s, cs).v ==
      if !s.majorDone && HasBreaking(cs) then Triple(s.v.major + 1, CountFeat(FromFirstBreaking(cs)), 0)
      else Triple(s.v.major, s.v.minor + CountFeat(cs), if CountFeat(cs) > 0 then 0 else s.v.patch)
    ensures Walk(s, cs).warnings == s.warnings
    decreases |cs|
  {
    if |cs| > 0 {
      var s' := Step(s, cs[0]);
      WalkAfterBump(s', cs[1..]);
    }
  }

  /** A walk from a state where neither major nor minor has been bumped. */
  lemma {:induction false} WalkFresh(s: BumpState, cs: seq<Commit>)
    requires !s.majorDone && !s.minorDone
    ensures Walk(s, cs).v ==
      if HasBreaking(cs) then Triple(s.v.major + 1, CountFeat(FromFirstBreaking(cs)), 0)
      else if MinorBumps(cs) > 0 then Triple(s.v.major, s.v.minor + MinorBumps(cs), 0)
      else if |cs| > 0 && !s.patchDone then Triple(s.v.major, s.v.minor, s.v.patch + 1)
      else s.v
    ensures Walk(s, cs).warnings == s.warnings + if !s.patchDone && WarnsFormat(cs) then 1 else 0
    decreases |cs|
  {
    if |cs| > 0 {
      var c := cs[0];
      if IsBreaking(c) {
        WalkFreshBreaking(s, cs);
      } else if IsFeat(c) || IsFeature(c) {
        WalkFreshMinor(s, cs);
      } else {
        var s' := Step(s, c);
        assert s' == Bump(s, false, false, false, CommitType(c.summary) in PatchKeywords);
        WalkFresh(s', cs[1..]);
      }
    }
  }

  /** The first commit is breaking: major rises and every later `feat` moves minor. */
  lemma WalkFreshBreaking(s: BumpState, cs: seq<Commit>)
    requires !s.majorDone && !s.minorDone && |cs| > 0 && IsBreaking(cs[0])
    ensures Walk(s, cs).v == Triple(s.v.major + 1, CountFeat(cs), 0)
    ensures Walk(s, cs).warnings == s.warnings
  {
    var s' := Step(s, cs[0]);
    WalkAfterBump(s', cs[1..]);
  }

  /** The first commit is a feat or feature that is not breaking: minor rises. */
  lemma WalkFreshMinor(s: BumpState, cs: seq<Commit>)
    requires !s.majorDone && !s.minorDone && |cs| > 0 && !IsBreaking(cs[0]) && (IsFeat(cs[0]) || IsFeature(cs[0]))
    ensures Walk(s, cs).v ==
      if HasBreaking(cs) then Triple(s.v.major + 1, CountFeat(FromFirstBreaking(cs)), 0)
      else Triple(s.v.major, s.v.minor + MinorBumps(cs), 0)
    ensures Walk(s, cs).warnings == s.warnings
  {
    var s' := Step(s, cs[0]);
    WalkAfterBump(s', cs[1..]);
  }

  /** increase_version's whole walk agrees with the closed form, and warns exactly when
      WarnsFormat says so. */
  lemma WalkIsIncrement(v: Triple, cs: seq<Commit>)
    ensures Walk(Start(v), cs).v == Increment(v, cs)
    ensures Walk(Start(v), cs).warnings == if WarnsFormat(cs) then 1 else 0
  {
    WalkFresh(Start(v), cs);
  }

  // ---------------------------------------------------------------------------------
  // What the closed form promises

  /** A relevant commit always yields a strictly greater version. */
  lemma IncrementGrows(v: Triple, cs: seq<Commit>)
    requires |cs| > 0
    ensures Less(v, Increment(v, cs))
  {
  }

  /** Major rises by one exactly when some commit is breaking, and by no more. */
  lemma IncrementMajor(v: Triple, cs: seq<Commit>)
    ensures Increment(v, cs).major == v.major + (if HasBreaking(cs) then 1 else 0)
  {
  }

  /** Patch rises by at most one in a walk, and is reset by any major or minor bump. */
  lemma IncrementPatch(v: Triple, cs: seq<Commit>)
    ensures Increment(v, cs).patch <= v.patch + 1
    ensures HasBreaking(cs) || MinorBumps(cs) > 0 ==> Increment(v, cs).patch == 0
  {
  }

  /** Every `feat` commit counts, whatever was bumped before it: without a breaking change,
      minor rises by at least the number of `feat` commits. */
  lemma {:induction false} FeatAlwaysCounts(v: Triple, cs: seq<Commit>)
    requires !HasBreaking(cs)
    ensures Increment(v, cs).minor >= v.minor + CountFeat(cs)
  {
    MinorBumpsCoverFeats(cs);
  }

  lemma {:induction false} MinorBumpsCoverFeats(cs: seq<Commit>)
    ensures MinorBumps(cs) >= CountFeat(cs)
    ensures MinorBumps(cs) == 0 ==> CountFeat(cs) == 0
  {
    if |cs| > 0 && !IsFeat(cs[0]) && !IsFeature(cs[0]) {
      MinorBumpsCoverFeats(cs[1..]);
    }
  }

  /** A single `feature` commit raises minor once; a second one does not count. */
  lemma {:induction false} SecondFeatureIgnored(v: Triple, a: Commit, b: Commit)
    requires IsFeature(a) && IsFeature(b) && !IsBreaking(a) && !IsBreaking(b)
    ensures Increment(v, [a, b]) == Triple(v.major, v.minor + 1, 0)
  {
    assert [a, b][1..] == [b];
    assert [b][1..] == [];
    assert !HasBreaking([b]) && !HasBreaking([a, b]);
    assert CountFeat([b]) == 0;
  }

  /** Newest-first order matters: a `feat` commit newer than a breaking change is counted
      after the reset, one older than it is wiped out by the reset. */
  lemma {:induction false} OrderMatters(v: Triple, b: Commit, f: Commit)
    requires IsBreaking(b) && !IsFeat(b) && IsFeat(f) && !IsBreaking(f)
    ensures Increment(v, [f, b]) == Triple(v.major + 1, 0, 0)
    ensures Increment(v, [b, f]) == Triple(v.major + 1, 1, 0)
  {
    assert [f, b][1..] == [b];
    assert [b, f][1..] == [f];
    assert [b][1..] == [] && [f][1..] == [];
    assert HasBreaking([b]) && HasBreaking([f, b]) && HasBreaking([b, f]);
    assert FromFirstBreaking([f, b]) == [b];
    assert CountFeat([b]) == 0 && CountFeat([f]) == 1;
  }

  /** Exactly one breaking commit and nothing else of note: the next major version. */
  lemma {:induction false} SingleBreaking(v: Triple, c: Commit)
    requires IsBreaking(c) && !IsFeat(c)
    ensures Increment(v, [c]) == Triple(v.major + 1, 0, 0)
  {
    assert [c][1..] == [];
    assert HasBreaking([c]) && FromFirstBreaking([c]) == [c];
    assert CountFeat([c]) == 0;
  }

  // ---------------------------------------------------------------------------------
  // What the predicates mean

  /** A slice starting at a newline passes the test exactly when the next fifteen characters
      spell "breaking change" in any case. */
  lemma BreakingAtLine(m: string, line: nat)
    requires line < |m| && m[line] == '\n'
    ensures BreakingAt(m, line) <==> line + 16 <= |m| && Lower(m[line + 1..line + 16]) == "breaking change"
  {
    var w := Lower(m[line..Min(line + 16, |m|)]);
    var pat := "breaking change";
    assert w[0] == '\n';
    if Find(w, pat) != -1 {
      var r := Find(w, pat);
      assert w[r] == w[r..r + 15][0] == 'b';
      assert r == 1;
      assert |w| == 16;
      assert Lower(m[line + 1..line + 16]) == w[1..16];
    }
    if line + 16 <= |m| && Lower(m[line + 1..line + 16]) == pat {
      assert w[1..16] == Lower(m[line + 1..line + 16]);
      assert OccursAt(w, pat, 1);
    }
  }

  /** A commit is breaking exactly when some line of its body after the first begins with
      "breaking change" in any case. */
  lemma IsBreakingIff(c: Commit)
    ensures IsBreaking(c) <==>
      exists p :: 0 <= p < |c.message| && c.message[p] == '\n' && p + 16 <= |c.message|
                  && Lower(c.message[p + 1..p + 16]) == "breaking change"
  {
    var m := c.message;
    var ends := NewlineIndices(m);
    if IsBreaking(c) {
      var k :| 0 <= k < |ends| && BreakingAt(m, ends[k]);
      BreakingAtLine(m, ends[k]);
    }
    if exists p :: 0 <= p < |m| && m[p] == '\n' && p + 16 <= |m| && Lower(m[p + 1..p + 16]) == "breaking change" {
      var p :| 0 <= p < |m| && m[p] == '\n' && p + 16 <= |m| && Lower(m[p + 1..p + 16]) == "breaking change";
      BreakingAtLine(m, p);
      var k :| 0 <= k < |ends| && ends[k] == p;
      assert BreakingAt(m, ends[k]);
    }
  }

  /** A scoped summary "type(scope): ..." has the text before the parenthesis as its type. */
  lemma CommitTypeScoped(prefix: string, rest: string)
    requires '(' !in prefix
    ensures CommitType(prefix + "(" + rest) == prefix
  {
    var s := prefix + "(" + rest;
    assert OccursAt(s, "(", |prefix|);
    forall i: nat | i < |prefix|
      ensures !OccursAt(s, "(", i)
    {
      assert s[i..i + 1][0] == s[i] == prefix[i];
    }
  }

  /** Without a parenthesis, find returns -1 and the type is the summary minus its last
      character. */
  lemma CommitTypeUnscoped(summary: string)
    requires '(' !in summary
    ensures CommitType(summary) == if |summary| > 0 then summary[..|summary| - 1] else ""
  {
    forall i: nat
      ensures !OccursAt(summary, "(", i)
    {
      if i < |summary| {
        assert summary[i..i + 1][0] == summary[i];
      }
    }
  }

  // ---------------------------------------------------------------------------------
  // The inner loops of increase_version

  /** commit_message_clone.index('\n'): the first newline left in the clone. */
  method FirstNewline(clone: array<char>) returns (k: nat)
    requires exists p :: 0 <= p < clone.Length && clone[p] == '\n'
    ensures k < clone.Length && clone[k] == '\n'
    ensures forall p :: 0 <= p < k ==> clone[p] != '\n'
  {
    k := 0;
    while clone[k] != '\n'
      invariant k < clone.Length
      invariant forall p :: 0 <= p < k ==> clone[p] != '\n'
      invariant exists p :: k <= p < clone.Length && clone[p] == '\n'
      decreases clone.Length - k
    {
      k := k + 1;
    }
  }

  /** Lines 128-134: the message is copied into a list of characters; each newline met is
      looked up with index() and overwritten with 'x', so that the next lookup finds the
      next one. The positions collected are exactly the newlines of the message, in order. */
  method ScanLineEnds(message: string) returns (lineEnds: seq<nat>)
    ensures lineEnds == NewlineIndices(message)
  {
    var clone := new char[|message|](i requires 0 <= i < |message| => message[i]);
    lineEnds := [];
    var j := 0;
    while j < clone.Length
      invariant 0 <= j <= clone.Length == |message|
      invariant forall p :: j <= p < clone.Length ==> clone[p] == message[p]
      invariant forall p :: 0 <= p < j ==> clone[p] != '\n'
      invariant lineEnds == NewlineIndices(message[..j])
    {
      assert message[..j + 1][..j] == message[..j];
      if clone[j] == '\n' {
        var k := FirstNewline(clone);
        assert k == j;
        lineEnds := lineEnds + [k];
        clone[k] := 'x';
      }
      j := j + 1;
    }
    assert message[..j] == message;
  }

  /** Lines 135-141 without the update: whether some collected line end starts a slice that
      passes the breaking-change test. */
  method FindBreakingLine(message: string, lineEnds: seq<nat>) returns (found: bool)
    requires forall k :: 0 <= k < |lineEnds| ==> lineEnds[k] <= |message|
    ensures found <==> exists k :: 0 <= k < |lineEnds| && BreakingAt(message, lineEnds[k])
  {
    found := false;
    var i := 0;
    while i < |lineEnds|
      invariant 0 <= i <= |lineEnds|
      invariant forall k :: 0 <= k < i ==> !BreakingAt(message, lineEnds[k])
    {
      var line := lineEnds[i];
      if Find(Lower(message[line..Min(line + 16, |message|)]), "breaking change") != -1 {
        found := true;
        break;
      }
      i := i + 1;
    }
  }

  /** Lines 147-151: the keyword loop, which stops at the first keyword equal to the type. */
  method IsPatchKeyword(t: string) returns (b: bool)
    ensures b <==> t in PatchKeywords
  {
    b := false;
    var i := 0;
    while i < |PatchKeywords|
      invariant 0 <= i <= |PatchKeywords|
      invariant forall k :: 0 <= k < i ==> PatchKeywords[k] != t
    {
      if t == PatchKeywords[i] {
        b := true;
        break;
      }
      i := i + 1;
    }
  }

  /** Lines 126-155 for one commit: the body of the loop over the relevant commits, on the
      version, the three flags and the warning count. */
  method CommitStep(s: BumpState, c: Commit) returns (t: BumpState)
    ensures t == Step(s, c)
  {
    t := s;
    var commitType := CommitType(c.summary);
    var lineEnds := ScanLineEnds(c.message);
    var breaking := FindBreakingLine(c.message, lineEnds);
    if breaking && !t.majorDone {
      t := t.(v := Triple(t.v.major + 1, 0, 0), majorDone := true);
    }
    var lowered := Lower(commitType);
    if lowered == "feat" || (lowered == "feature" && !t.minorDone && !t.majorDone) {
      t := t.(v := t.v.(minor := t.v.minor + 1, patch := 0), minorDone := true);
    }
    if !t.majorDone && !t.minorDone && !t.patchDone {
      var isKeyword := IsPatchKeyword(commitType);
      t := t.(v := t.v.(patch := t.v.patch + 1), patchDone := true);
      if !isKeyword {
        t := t.(warnings := t.warnings + 1);
      }
    }
  }
}
