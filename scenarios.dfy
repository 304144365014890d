/** Worked examples: the repositories of tests/versionify_test.py, run through the model.
    Each lemma states the result the corresponding test expects. */
module Scenarios {
  import opened Wrappers
  import opened Text
  import opened VersionPattern
  import opened Git
  import opened Classify
  import opened TagScan
  import opened PreRelease

  /** A commit whose message is its summary line and nothing else. */
  function OneLine(id: nat, summary: string): Commit
  {
    Commit(id, summary, summary + "\n", "0123456789abcdef")
  }

  /** A commit whose body declares a breaking change on its second line. */
  function WithBreakingBody(id: nat, summary: string): Commit
  {
    Commit(id, summary, summary + "\n" + "BREAKING CHANGE: change\n", "fedcba9876543210")
  }

  /** A summary of the form type(scope)... */
  function Scoped(kind: string, rest: string): string
  {
    kind + "(" + rest
  }

  /** A one-line commit "kind(rest" declares no breaking change and has the type kind. */
  lemma ScopedOneLine(id: nat, kind: string, rest: string)
    requires '(' !in kind && '\n' !in kind && '\n' !in rest
    ensures !IsBreaking(OneLine(id, Scoped(kind, rest)))
    ensures CommitType(OneLine(id, Scoped(kind, rest)).summary) == kind
  {
    var summary := Scoped(kind, rest);
    var c := OneLine(id, summary);
    IsBreakingIff(c);
    forall p | 0 <= p < |summary|
      ensures c.message[p] != '\n'
    {
      if p < |kind| {
        assert c.message[p] == kind[p];
      } else if |kind| < p {
        assert c.message[p] == rest[p - |kind| - 1];
      }
    }
    CommitTypeScoped(kind, rest);
  }

  /** The second line of such a commit starts right after the summary's newline. */
  lemma BreakingBodyLine(id: nat, summary: string)
    ensures var m := WithBreakingBody(id, summary).message;
      |summary| + 16 <= |m| && m[|summary|] == '\n'
      && m[|summary| + 1..|summary| + 16] == "BREAKING CHANGE"
  {
    var m := WithBreakingBody(id, summary).message;
    var p, body := |summary|, "BREAKING CHANGE: change\n";
    assert m == summary + "\n" + body;
    forall i | 0 <= i < 15
      ensures m[p + 1 + i] == body[i]
    {
    }
    assert m[p + 1..p + 16] == body[..15];
  }

  /** The marker a breaking commit's second line starts with, lower-cased. */
  lemma LowerBreakingChange()
    ensures Lower("BREAKING CHANGE") == "breaking change"
  {
    var u, l := "BREAKING CHANGE", "breaking change";
    forall i | 0 <= i < 15
      ensures Lower(u)[i] == l[i]
    {
      assert Lower(u)[i] == LowerChar(u[i]);
    }
  }

  /** A commit "kind(rest" whose second line starts with "BREAKING CHANGE" is breaking and
      has the type kind. */
  lemma ScopedBreaking(id: nat, kind: string, rest: string)
    requires '(' !in kind
    ensures IsBreaking(WithBreakingBody(id, Scoped(kind, rest)))
    ensures CommitType(WithBreakingBody(id, Scoped(kind, rest)).summary) == kind
  {
    var summary := Scoped(kind, rest);
    var c := WithBreakingBody(id, summary);
    var p := |summary|;
    IsBreakingIff(c);
    BreakingBodyLine(id, summary);
    LowerBreakingChange();
    assert Lower(c.message[p + 1..p + 16]) == "breaking change";
    CommitTypeScoped(kind, rest);
  }

  /** A one-line commit without a parenthesis declares no breaking change; its type is the
      summary minus its last character. */
  lemma UnscopedOneLine(id: nat, summary: string)
    requires '(' !in summary && '\n' !in summary
    ensures !IsBreaking(OneLine(id, summary))
    ensures CommitType(OneLine(id, summary).summary) == if |summary| > 0 then summary[..|summary| - 1] else ""
  {
    var c := OneLine(id, summary);
    IsBreakingIff(c);
    forall p | 0 <= p < |summary|
      ensures c.message[p] != '\n'
    {
      assert c.message[p] == summary[p];
    }
    CommitTypeUnscoped(summary);
  }

  /** tests 50-92: after 4.6.3 a `feature` commit and then a breaking `docs` commit (newest
      first below) give 5.0.0, without a warning. ScopedBreaking and ScopedOneLine show
      the test's two commits meet the requirements. */
  lemma DefaultVersioningMajor(d: Commit, c: Commit)
    requires IsBreaking(d) && CommitType(d.summary) == "docs" && CommitType(c.summary) == "feature"
    ensures Increment(Triple(4, 6, 3), [d, c]) == Triple(5, 0, 0) && !WarnsFormat([d, c])
    ensures VersionString(Triple(5, 0, 0)) == "5.0.0"
  {
    assert !IsFeat(d) && !IsFeat(c);
    assert [d, c][1..] == [c] && [c][1..] == [];
    assert HasBreaking([d, c]) && FromFirstBreaking([d, c]) == [d, c];
    assert CountFeat([c]) == 0;
  }

  /** tests 94-131: after 1.0.0 a `style` commit and then a `feature` commit give 1.1.0;
      the tag "2.0.0-rc" beside them is no version tag at all. */
  lemma DefaultVersioningMinor(c: Commit, b: Commit)
    requires !IsBreaking(c) && CommitType(c.summary) == "feature"
    requires !IsBreaking(b) && CommitType(b.summary) == "style"
    ensures Increment(Triple(1, 0, 0), [c, b]) == Triple(1, 1, 0) && !WarnsFormat([c, b])
    ensures ParseVersion("2.0.0-rc") == None
  {
    assert Lower("feature") == "feature";
    assert !IsFeat(c) && IsFeature(c) && !IsFeat(b) && !IsFeature(b);
    assert [c, b][1..] == [b] && [b][1..] == [];
    assert !HasBreaking([b]);
    assert CountFeat([b]) == 0;
    if ParseVersion("2.0.0-rc").Some? {
      ParsedEndsLikeVersion("2.0.0-rc");
    }
  }

  /** tests 133-173: after 4.6.3 a `refactor` commit and then a `docs` commit give 4.6.4,
      without a warning. */
  lemma DefaultVersioningPatch(d: Commit, r: Commit)
    requires !IsBreaking(d) && CommitType(d.summary) == "docs"
    requires !IsBreaking(r) && CommitType(r.summary) == "refactor"
    ensures Increment(Triple(4, 6, 3), [d, r]) == Triple(4, 6, 4) && !WarnsFormat([d, r])
  {
    assert Lower("docs") == "docs" && Lower("refactor") == "refactor";
    assert !IsFeat(d) && !IsFeature(d) && !IsFeat(r) && !IsFeature(r);
    assert [d, r][1..] == [r] && [r][1..] == [];
    assert !HasBreaking([r]) && !HasBreaking([d, r]);
    assert MinorBumps([r]) == 0 && MinorBumps([d, r]) == 0;
    assert PatchKeywords[1] == "docs";
  }

  /** tests 175-215: after 21.3.12 two commits without a type give 21.3.13 and the format
      warning. Their types ("fourth commi", "third commi") are longer than any known one. */
  lemma DefaultVersioningWrongFormat(f: Commit, t: Commit)
    requires !IsBreaking(f) && |CommitType(f.summary)| > 8
    requires !IsBreaking(t) && |CommitType(t.summary)| > 8
    ensures Increment(Triple(21, 3, 12), [f, t]) == Triple(21, 3, 13) && WarnsFormat([f, t])
    ensures VersionString(Triple(21, 3, 13)) == "21.3.13"
  {
    assert !IsFeat(f) && !IsFeature(f) && !IsFeat(t) && !IsFeature(t);
    assert CommitType(f.summary) !in PatchKeywords;
    assert [f, t][1..] == [t] && [t][1..] == [];
    assert !HasBreaking([t]);
    assert MinorBumps([t]) == 0;
  }

  /** tests 520-555: the greatest "rc" tag is 4.7.0rc20, so the next one is 4.7.0rc21,
      which the version pattern reads as release 4.7.0 with the letters "rc". */
  lemma PreReleaseVersioning()
    ensures NextPreRelease(None, Stem("4.7.0rc20", "rc"), "rc", 20) == "4.7.0rc21"
    ensures ParseVersion("4.7.0rc21") == Some(TagVersion(Triple(4, 7, 0), Some("rc")))
  {
    var v := Triple(4, 7, 0);
    assert VersionString(v) == "4.7.0";
    assert NatToString(20) == "20" && NatToString(21) == "21";
    assert "4.7.0rc20" == VersionString(v) + "rc" + NatToString(20);
    assert "4.7.0rc21" == VersionString(v) + "rc" + NatToString(21);
    StemOfTrackTag(v, "rc", 20);
    NextOnTrack(v, "rc", 20);
  }

  /** tests 520-555, the names of the tags: 4.6.3 carries no "rc", 4.6.3rc1 and 4.7.0rc20
      carry it with the numbers 1 and 20. */
  lemma PreReleaseVersioningLabels()
    ensures Find("4.6.3", "rc") == -1
    ensures Find("4.6.3rc1", "rc") != -1 && PreNumber("4.6.3rc1") == Some(1)
    ensures Find("4.7.0rc20", "rc") != -1 && PreNumber("4.7.0rc20") == Some(20)
  {
    var u, v := Triple(4, 6, 3), Triple(4, 7, 0);
    assert VersionString(u) == "4.6.3" && VersionString(v) == "4.7.0";
    assert NatToString(1) == "1" && NatToString(20) == "20";
    ReleaseNameUnlabelled(u, "rc");
    assert "4.6.3rc1" == VersionString(u) + "rc" + NatToString(1);
    StemOfTrackTag(u, "rc", 1);
    PreNumberOfPreReleaseTag(u, "rc", 1);
    assert "4.7.0rc20" == VersionString(v) + "rc" + NatToString(20);
    StemOfTrackTag(v, "rc", 20);
    PreNumberOfPreReleaseTag(v, "rc", 20);
  }

  /** Three tags of which the first carries no prefix and the other two carry it with
      numbers n1 < n2: the scan picks the third, and its track continues at n2 + 1. */
  lemma ChooseOfThree(t0: Tag, t1: Tag, t2: Tag, prefix: string, n1: nat, n2: nat)
    requires !HasLabel(t0, prefix) && HasLabel(t1, prefix) && HasLabel(t2, prefix)
    requires PreNumber(t1.name) == Some(n1) && PreNumber(t2.name) == Some(n2) && n1 < n2
    ensures NumbersDefined([t0, t1, t2], prefix) && Choose([t0, t1, t2], prefix) == Some(Choice(t2, n2))
    ensures PreReleaseName([t0, t1, t2], prefix, None) == Some(NextPreRelease(None, Stem(t2.name, prefix), prefix, n2))
  {
    var tags := [t0, t1, t2];
    assert NumbersDefinedFrom(tags, prefix, 0);
    assert LabelScanFrom(tags, prefix, 2) == LabelScan([t2], [n2]);
    assert LabelScanFrom(tags, prefix, 1) == LabelScan([t2, t1], [n2, n1]);
    assert LabelScanFrom(tags, prefix, 0) == LabelScan([t2, t1], [n2, n1]);
    assert FirstMaxNat([n2, n1]) == 0;
  }

  /** tests 520-555 on the whole tag list: the scan passes over the release 4.6.3, picks
      4.7.0rc20 (20 beats 1) and names the next pre-release 4.7.0rc21. */
  lemma PreReleaseVersioningChoice(a: Commit, b: Commit, c: Commit)
    ensures var tags := [Tag("4.6.3", b, None), Tag("4.6.3rc1", a, None), Tag("4.7.0rc20", c, None)];
      NumbersDefined(tags, "rc") && Choose(tags, "rc") == Some(Choice(tags[2], 20))
      && PreReleaseName(tags, "rc", None) == Some("4.7.0rc21")
  {
    var t0, t1, t2 := Tag("4.6.3", b, None), Tag("4.6.3rc1", a, None), Tag("4.7.0rc20", c, None);
    PreReleaseVersioningLabels();
    ChooseOfThree(t0, t1, t2, "rc", 1, 20);
    PreReleaseVersioning();
  }

  /** tests 1032-1063: the next name after 0.0.2rc11 is 0.0.2rc12. */
  lemma MultiDigitPreRelease()
    ensures NextPreRelease(None, Stem("0.0.2rc11", "rc"), "rc", 11) == "0.0.2rc12"
  {
    var v := Triple(0, 0, 2);
    assert VersionString(v) == "0.0.2";
    assert NatToString(11) == "11" && NatToString(12) == "12";
    assert "0.0.2rc11" == VersionString(v) + "rc" + NatToString(11);
    StemOfTrackTag(v, "rc", 11);
    assert "0.0.2rc12" == VersionString(v) + "rc" + NatToString(12);
  }

  /** tests 1032-1063: numbers compare as numbers, so rc11 (11) is greater than rc2 (2). */
  lemma MultiDigitNumbers()
    ensures PreNumber("0.0.2rc11") == Some(11) && PreNumber("0.0.2rc2") == Some(2)
  {
    var v := Triple(0, 0, 2);
    assert VersionString(v) == "0.0.2";
    assert NatToString(11) == "11" && NatToString(2) == "2";
    assert "0.0.2rc11" == VersionString(v) + "rc" + NatToString(11);
    assert "0.0.2rc2" == VersionString(v) + "rc" + NatToString(2);
    PreNumberOfPreReleaseTag(v, "rc", 11);
    PreNumberOfPreReleaseTag(v, "rc", 2);
  }

  /** tests 449-487: a breaking change makes the new version 5.0.0, which differs from the
      stem 4.7.0 of the greatest "rc" tag, so a new track 5.0.0rc1 starts. */
  lemma PreReleaseMajor()
    ensures NextPreRelease(Some("5.0.0"), Stem("4.7.0rc8", "rc"), "rc", 8) == "5.0.0rc1"
  {
    var v := Triple(4, 7, 0);
    assert VersionString(v) == "4.7.0";
    assert NatToString(8) == "8";
    assert "4.7.0rc8" == VersionString(v) + "rc" + NatToString(8);
    StemOfTrackTag(v, "rc", 8);
  }

  /** tests 779-834, the names of the tags: 0.0.1 carries no "rc", 0.0.2rc1 and 0.0.2rc2
      carry it with the numbers 1 and 2. */
  lemma PreReleaseNotSyncedLabels()
    ensures Find("0.0.1", "rc") == -1
    ensures Find("0.0.2rc1", "rc") != -1 && PreNumber("0.0.2rc1") == Some(1)
    ensures Find("0.0.2rc2", "rc") != -1 && PreNumber("0.0.2rc2") == Some(2)
  {
    var u, v := Triple(0, 0, 1), Triple(0, 0, 2);
    assert VersionString(u) == "0.0.1" && VersionString(v) == "0.0.2";
    assert NatToString(1) == "1" && NatToString(2) == "2";
    ReleaseNameUnlabelled(u, "rc");
    assert "0.0.2rc1" == VersionString(v) + "rc" + NatToString(1);
    StemOfTrackTag(v, "rc", 1);
    PreNumberOfPreReleaseTag(v, "rc", 1);
    assert "0.0.2rc2" == VersionString(v) + "rc" + NatToString(2);
    StemOfTrackTag(v, "rc", 2);
    PreNumberOfPreReleaseTag(v, "rc", 2);
  }

  /** tests 779-834, the scan over the test's tags 0.0.1, 0.0.2rc1 and 0.0.2rc2: it picks
      0.0.2rc2, number 2. */
  lemma PreReleaseNotSyncedChoice(b: Commit, d: Commit, e: Commit)
    ensures var tags := [Tag("0.0.1", b, None), Tag("0.0.2rc1", d, None), Tag("0.0.2rc2", e, None)];
      NumbersDefined(tags, "rc") && Choose(tags, "rc") == Some(Choice(tags[2], 2))
  {
    var t0, t1, t2 := Tag("0.0.1", b, None), Tag("0.0.2rc1", d, None), Tag("0.0.2rc2", e, None);
    PreReleaseNotSyncedLabels();
    ChooseOfThree(t0, t1, t2, "rc", 1, 2);
  }

  /** tests 779-834, the sync check: HEAD is dev with F, D, C and master holds E, B, A, so a
      tag on E exits with the rebase message naming master. */
  lemma PreReleaseNotSyncedExit(a: Commit, b: Commit, c: Commit, d: Commit, e: Commit, f: Commit, r: RepoSnapshot, t: Tag)
    requires c.summary == "C" && d.summary == "D" && e.summary == "E" && f.summary == "F"
    requires r.head == [f, d, c] && r.heads == [Branch("master", [e, b, a]), Branch("dev", [f, d, c])]
    requires t.commit == e
    ensures PreReleaseSync(r, t)
            == Exit("Pre-Release-Versions not synced (" + e.summary + " missing in HEAD). Please rebase onto " + "master")
  {
    assert e !in r.head by {
      assert e.summary != f.summary && e.summary != d.summary && e.summary != c.summary;
    }
    assert FirstHeadIndex(r.heads, e) == Some(0);
  }

  /** tests 779-834 on the test's repository: tags 0.0.1 on B, 0.0.2rc1 on D and 0.0.2rc2
      on E; HEAD is dev with F, D, C; master holds E, B, A. The scan picks 0.0.2rc2
      (number 2), whose commit E is missing from HEAD, and the call exits with the rebase
      message naming master. */
  lemma PreReleaseNotSynced(a: Commit, b: Commit, c: Commit, d: Commit, e: Commit, f: Commit)
    requires c.summary == "C" && d.summary == "D" && e.summary == "E" && f.summary == "F"
    ensures var tags := [Tag("0.0.1", b, None), Tag("0.0.2rc1", d, None), Tag("0.0.2rc2", e, None)];
      var r := RepoSnapshot(tags, [f, d, c], [Branch("master", [e, b, a]), Branch("dev", [f, d, c])], "dev");
      NumbersDefined(tags, "rc") && Choose(tags, "rc") == Some(Choice(tags[2], 2))
      && PreReleaseSync(r, tags[2])
         == Exit("Pre-Release-Versions not synced (" + e.summary + " missing in HEAD). Please rebase onto " + "master")
  {
    var tags := [Tag("0.0.1", b, None), Tag("0.0.2rc1", d, None), Tag("0.0.2rc2", e, None)];
    var r := RepoSnapshot(tags, [f, d, c], [Branch("master", [e, b, a]), Branch("dev", [f, d, c])], "dev");
    PreReleaseNotSyncedChoice(b, d, e);
    PreReleaseNotSyncedExit(a, b, c, d, e, f, r, tags[2]);
  }
}
