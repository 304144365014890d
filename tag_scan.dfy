/** The scan at the heart of `tag_lookup` (versionify/versionify_main.py:34-64) and the
    checks that end it (lines 85-102): which tags are candidates for the last version, which
    one is chosen, and when the lookup stops with a message. */
module TagScan {
  import opened Wrappers
  import opened Text
  import opened VersionPattern
  import opened Git

  /** The name matches the version pattern. */
  predicate Shaped(t: Tag)
  {
    ParseVersion(t.name).Some?
  }

  /** Group 4 of the match is present: a pre-release suffix such as `rc1` or `-beta2`. */
  predicate IsPre(t: Tag)
    requires Shaped(t)
  {
    ParseVersion(t.name).value.preLabel.Some?
  }

  /** Groups 1-3 of the match. */
  function Release(t: Tag): Triple
    requires Shaped(t)
  {
    ParseVersion(t.name).value.release
  }

  /** A tag the scan appends to `versions` (lines 47-51). */
  predicate IsCandidate(t: Tag, head: seq<Commit>, includePre: bool)
  {
    Shaped(t) && (includePre || !IsPre(t)) && t.commit in head
  }

  /** A tag the scan records as `unsynced_tag` (lines 52-56). */
  predicate IsUnsynced(t: Tag, head: seq<Commit>, includePre: bool)
  {
    !includePre && Shaped(t) && !IsPre(t) && t.commit !in head
  }

  /** The loop's local state: `versions`, `split_versions`, `pre_release_version`,
      `self.not_synced` and `unsynced_tag` (unbound until first set). */
  datatype ScanState = ScanState(versions: seq<Tag>, triples: seq<Triple>, preFlag: bool,
                                 notSynced: bool, unsynced: Option<Tag>)

  /** One pass of the loop body at lines 40-58. */
  function ScanStep(st: ScanState, t: Tag, head: seq<Commit>, includePre: bool): ScanState
  {
    match ParseVersion(t.name)
    case None => st
    case Some(tv) =>
      var st1 := st.(preFlag := tv.preLabel.Some?);
      if tv.preLabel.Some? && !includePre then st1
      else if t.commit in head then st1.(versions := st1.versions + [t], triples := st1.triples + [tv.release])
      else if includePre then st1
      else st1.(notSynced := true, unsynced := Some(t))
  }

  /** The state after `for tag in reversed(tags)` has visited tags[i..], last index first. */
  function ScanFrom(tags: seq<Tag>, head: seq<Commit>, includePre: bool, i: nat): ScanState
    requires i <= |tags|
    decreases |tags| - i
  {
    if i == |tags| then ScanState([], [], false, false, None)
    else ScanStep(ScanFrom(tags, head, includePre, i + 1), tags[i], head, includePre)
  }

  /** The whole scan. */
  function Scan(tags: seq<Tag>, head: seq<Commit>, includePre: bool): ScanState
  {
    ScanFrom(tags, head, includePre, 0)
  }

  /** One pass of the loop sets `not_synced` and `unsynced_tag` exactly for an unsynced
      tag, and the pre-release flag exactly for a version-shaped name. */
  lemma ScanStepFlags(st: ScanState, t: Tag, head: seq<Commit>, includePre: bool)
    ensures ScanStep(st, t, head, includePre).notSynced == (st.notSynced || IsUnsynced(t, head, includePre))
    ensures ScanStep(st, t, head, includePre).unsynced
            == if IsUnsynced(t, head, includePre) then Some(t) else st.unsynced
    ensures Shaped(t) ==> ScanStep(st, t, head, includePre).preFlag == IsPre(t)
    ensures !Shaped(t) ==> ScanStep(st, t, head, includePre).preFlag == st.preFlag
  {
  }

  /** The candidates are exactly the tags of tags[i..] the scan accepts, each beside its
      own release triple. */
  lemma {:induction false} ScanCandidates(tags: seq<Tag>, head: seq<Commit>, includePre: bool, i: nat)
    requires i <= |tags|
    ensures var st := ScanFrom(tags, head, includePre, i);
      |st.versions| == |st.triples|
      && (forall k :: 0 <= k < |st.versions| ==>
            st.versions[k] in tags[i..] && IsCandidate(st.versions[k], head, includePre)
            && st.triples[k] == Release(st.versions[k]))
      && (forall j :: i <= j < |tags| && IsCandidate(tags[j], head, includePre) ==> tags[j] in st.versions)
    decreases |tags| - i
  {
    if i < |tags| {
      ScanCandidates(tags, head, includePre, i + 1);
      ScanStepAppends(ScanFrom(tags, head, includePre, i + 1), tags[i], head, includePre);
      assert tags[i + 1..] == tags[i..][1..];
    }
  }

  /** `not_synced` is set exactly when some tag of tags[i..] is unsynced, and
      `unsynced_tag` is the one with the lowest index: the last one visited. */
  lemma {:induction false} ScanUnsynced(tags: seq<Tag>, head: seq<Commit>, includePre: bool, i: nat)
    requires i <= |tags|
    ensures var st := ScanFrom(tags, head, includePre, i);
      (st.notSynced <==> exists j :: i <= j < |tags| && IsUnsynced(tags[j], head, includePre))
      && (st.notSynced <==> st.unsynced.Some?)
      && (st.unsynced.Some? ==>
            exists j :: i <= j < |tags| && tags[j] == st.unsynced.value
                        && IsUnsynced(tags[j], head, includePre)
                        && forall l :: i <= l < j ==> !IsUnsynced(tags[l], head, includePre))
    decreases |tags| - i
  {
    if i < |tags| {
      ScanUnsynced(tags, head, includePre, i + 1);
      ScanStepFlags(ScanFrom(tags, head, includePre, i + 1), tags[i], head, includePre);
    }
  }

  /** `pre_release_version` ends up as the flag of the version-shaped tag with the lowest
      index, the last one visited; False when there is none. */
  lemma {:induction false} ScanPreFlag(tags: seq<Tag>, head: seq<Commit>, includePre: bool, i: nat)
    requires i <= |tags|
    ensures ScanFrom(tags, head, includePre, i).preFlag <==>
      exists j :: i <= j < |tags| && Shaped(tags[j]) && IsPre(tags[j])
                  && forall l :: i <= l < j ==> !Shaped(tags[l])
    decreases |tags| - i
  {
    if i < |tags| {
      ScanPreFlag(tags, head, includePre, i + 1);
      ScanStepFlags(ScanFrom(tags, head, includePre, i + 1), tags[i], head, includePre);
      if ScanFrom(tags, head, includePre, i).preFlag && !Shaped(tags[i]) {
        var j :| i + 1 <= j < |tags| && Shaped(tags[j]) && IsPre(tags[j])
                 && forall l :: i + 1 <= l < j ==> !Shaped(tags[l]);
        assert forall l :: i <= l < j ==> !Shaped(tags[l]);
      }
    }
  }

  /** One pass of the loop appends to `versions` and `split_versions` exactly when the
      tag is a candidate. */
  lemma ScanStepAppends(st: ScanState, t: Tag, head: seq<Commit>, includePre: bool)
    ensures ScanStep(st, t, head, includePre).versions
            == st.versions + (if IsCandidate(t, head, includePre) then [t] else [])
    ensures IsCandidate(t, head, includePre) ==>
              ScanStep(st, t, head, includePre).triples == st.triples + [Release(t)]
    ensures !IsCandidate(t, head, includePre) ==> ScanStep(st, t, head, includePre).triples == st.triples
  {
  }

  /** The indices of the candidates of tags[i..], in the order the scan meets them. */
  function CandidatePositions(tags: seq<Tag>, head: seq<Commit>, includePre: bool, i: nat): seq<nat>
    requires i <= |tags|
  {
    KeptPositions(tags, t => IsCandidate(t, head, includePre), i)
  }

  /** `versions` and `split_versions` list the candidates by decreasing index: entry k is
      the tag at CandidatePositions[k] and its triple. */
  lemma {:induction false} ScanPositions(tags: seq<Tag>, head: seq<Commit>, includePre: bool, i: nat)
    requires i <= |tags|
    ensures var st, ps := ScanFrom(tags, head, includePre, i), CandidatePositions(tags, head, includePre, i);
      |st.versions| == |ps| && |st.triples| == |ps|
      && forall k :: 0 <= k < |ps| ==>
           i <= ps[k] < |tags| && IsCandidate(tags[ps[k]], head, includePre)
           && st.versions[k] == tags[ps[k]] && st.triples[k] == Release(tags[ps[k]])
    decreases |tags| - i
  {
    if i < |tags| {
      ScanPositions(tags, head, includePre, i + 1);
      var st' := ScanFrom(tags, head, includePre, i + 1);
      ScanStepAppends(st', tags[i], head, includePre);
    }
  }

  /** Python's max over the triples and `.index` of the result: the first greatest one. */
  function FirstMaxIndex(ts: seq<Triple>): (k: nat)
    requires |ts| > 0
    ensures k < |ts|
    ensures forall j :: 0 <= j < |ts| ==> !Less(ts[k], ts[j])
    ensures forall j :: 0 <= j < k ==> Less(ts[j], ts[k])
  {
    if |ts| == 1 then 0
    else
      var k := FirstMaxIndex(ts[..|ts| - 1]);
      assert forall j :: 0 <= j < |ts| - 1 ==> ts[..|ts| - 1][j] == ts[j];
      if Less(ts[k], ts[|ts| - 1]) then |ts| - 1 else k
  }

  /** The fields tag_lookup sets: `last_tag`, `major`, `minor`, `patch`, `not_synced`. */
  datatype LookupFields = LookupFields(lastTag: Option<Tag>, major: Option<nat>, minor: Option<nat>,
                                       patch: Option<nat>, notSynced: bool)

  /** Lines 35 and 59-64: with candidates, the first greatest becomes the last tag and its
      triple the version; without, the old fields stay. `not_synced` is the scan's. */
  function AfterScan(tags: seq<Tag>, head: seq<Commit>, includePre: bool, f: LookupFields): LookupFields
  {
    var st := Scan(tags, head, includePre);
    if |st.triples| > 0 && |st.versions| == |st.triples| then
      var k := FirstMaxIndex(st.triples);
      LookupFields(Some(st.versions[k]), Some(st.triples[k].major), Some(st.triples[k].minor),
                   Some(st.triples[k].patch), st.notSynced)
    else f.(notSynced := st.notSynced)
  }

  /** The first greatest of triples listed by decreasing position is the greatest with the
      highest position: every entry at a higher position is smaller. */
  lemma FirstMaxIsLast(ts: seq<Triple>, ps: seq<nat>)
    requires |ts| == |ps| > 0
    requires forall k, l :: 0 <= k < l < |ps| ==> ps[l] < ps[k]
    ensures forall l :: 0 <= l < |ps| && ps[FirstMaxIndex(ts)] < ps[l] ==> Less(ts[l], ts[FirstMaxIndex(ts)])
  {
    var k := FirstMaxIndex(ts);
    forall l | 0 <= l < |ps| && ps[k] < ps[l]
      ensures Less(ts[l], ts[k])
    {
      assert l < k;
    }
  }

  /** When a candidate exists, the entry `.index` picks is a candidate tag beside its own
      triple. */
  lemma ScanChoice(tags: seq<Tag>, head: seq<Commit>, includePre: bool)
    requires exists j :: 0 <= j < |tags| && IsCandidate(tags[j], head, includePre)
    ensures var st, ps := Scan(tags, head, includePre), CandidatePositions(tags, head, includePre, 0);
      |st.triples| > 0 && |st.versions| == |st.triples| == |ps|
      && var k := FirstMaxIndex(st.triples);
      ps[k] < |tags| && IsCandidate(tags[ps[k]], head, includePre)
      && st.versions[k] == tags[ps[k]] && st.triples[k] == Release(tags[ps[k]])
  {
    ScanPositions(tags, head, includePre, 0);
    var ps := CandidatePositions(tags, head, includePre, 0);
    var j0 :| 0 <= j0 < |tags| && IsCandidate(tags[j0], head, includePre);
    assert j0 in ps;
  }

  /** When a candidate exists, no candidate has a greater triple than the entry `.index`
      picks, and every candidate listed after it has a smaller one. */
  lemma ScanChoiceBounds(tags: seq<Tag>, head: seq<Commit>, includePre: bool)
    requires exists j :: 0 <= j < |tags| && IsCandidate(tags[j], head, includePre)
    ensures var st, ps := Scan(tags, head, includePre), CandidatePositions(tags, head, includePre, 0);
      |st.triples| > 0 && |st.triples| == |ps|
      && var k := FirstMaxIndex(st.triples);
      ps[k] < |tags| && IsCandidate(tags[ps[k]], head, includePre)
      && (forall j :: 0 <= j < |tags| && IsCandidate(tags[j], head, includePre) ==>
            !Less(Release(tags[ps[k]]), Release(tags[j])))
      && forall j :: ps[k] < j < |tags| && IsCandidate(tags[j], head, includePre) ==>
            Less(Release(tags[j]), Release(tags[ps[k]]))
  {
    ScanChoice(tags, head, includePre);
    ScanPositions(tags, head, includePre, 0);
    var st, ps := Scan(tags, head, includePre), CandidatePositions(tags, head, includePre, 0);
    var k := FirstMaxIndex(st.triples);
    FirstMaxIsLast(st.triples, ps);
    forall j | 0 <= j < |tags| && IsCandidate(tags[j], head, includePre)
      ensures !Less(st.triples[k], Release(tags[j])) && (ps[k] < j ==> Less(Release(tags[j]), st.triples[k]))
    {
      assert j in ps;
      var l :| 0 <= l < |ps| && ps[l] == j;
      assert st.triples[l] == Release(tags[j]);
    }
  }

  /** The last tag chosen is a candidate, its triple is the version, and no candidate has
      a greater one. Of equally greatest candidates the scan meets the one with the highest
      index first, and `.index` keeps it: every candidate listed after it is smaller. */
  lemma ChosenIsGreatest(tags: seq<Tag>, head: seq<Commit>, includePre: bool, f: LookupFields)
    requires exists j :: 0 <= j < |tags| && IsCandidate(tags[j], head, includePre)
    ensures var g := AfterScan(tags, head, includePre, f);
      g.lastTag.Some? && g.lastTag.value in tags && IsCandidate(g.lastTag.value, head, includePre)
      && g.major == Some(Release(g.lastTag.value).major)
      && g.minor == Some(Release(g.lastTag.value).minor)
      && g.patch == Some(Release(g.lastTag.value).patch)
      && (forall j :: 0 <= j < |tags| && IsCandidate(tags[j], head, includePre) ==>
           !Less(Release(g.lastTag.value), Release(tags[j])))
      && exists c :: 0 <= c < |tags| && tags[c] == g.lastTag.value
           && forall j :: c < j < |tags| && IsCandidate(tags[j], head, includePre) ==>
                Less(Release(tags[j]), Release(tags[c]))
  {
    ScanChoice(tags, head, includePre);
    ScanChoiceBounds(tags, head, includePre);
    var st, ps := Scan(tags, head, includePre), CandidatePositions(tags, head, includePre, 0);
    var c := ps[FirstMaxIndex(st.triples)];
    assert AfterScan(tags, head, includePre, f)
        == LookupFields(Some(tags[c]), Some(Release(tags[c]).major), Some(Release(tags[c]).minor),
                        Some(Release(tags[c]).patch), st.notSynced);
  }

  /** With no candidate the last tag, and the version, are whatever they were. */
  lemma NothingChosen(tags: seq<Tag>, head: seq<Commit>, includePre: bool, f: LookupFields)
    requires forall j :: 0 <= j < |tags| ==> !IsCandidate(tags[j], head, includePre)
    ensures AfterScan(tags, head, includePre, f) == f.(notSynced := Scan(tags, head, includePre).notSynced)
  {
    ScanCandidates(tags, head, includePre, 0);
    var st := Scan(tags, head, includePre);
    assert tags[0..] == tags;
  }

  /** The message of the sync error at line 88. */
  function NotSyncedMessage(c: Commit, branch: string): string
  {
    "Branches not synced (" + c.summary + " missing in HEAD). Please rebase onto " + branch
  }

  /** How a lookup without `initial` ends (lines 85-88 and 99-102), given the scan and
      the last tag after it. Line 102 reads group 6 of the match of the last name scanned,
      tags[0]; when that name is no version, the match is None and the read raises. */
  function NormalOutcome(r: RepoSnapshot, includePre: bool, st: ScanState, lastTag: Option<Tag>): Outcome
  {
    var syncHead := if st.notSynced && !st.preFlag && st.unsynced.Some?
                    then FirstHeadIndex(r.heads, st.unsynced.value.commit) else None;
    if syncHead.Some? then
      Exit(NotSyncedMessage(st.unsynced.value.commit, r.heads[syncHead.value].name))
    else if lastTag.None? && !st.preFlag then
      Exit("There are no Version Tags in " + r.activeBranch)
    else if st.preFlag && !includePre && st.notSynced then
      if |r.tags| > 0 && ParseVersion(r.tags[0].name).Some? then
        var letters := ParseVersion(r.tags[0].name).value.preLabel;
        Exit("Last version is a Pre-Release. Use -r \"" + (if letters.Some? then letters.value else "None")
             + "\" option to perform a pre-release-increase")
      else Raised("AttributeError")
    else Continue
  }

  /** The outcome of a lookup without `initial`, from the repository and the old fields. */
  function LookupOutcome(r: RepoSnapshot, includePre: bool, f: LookupFields): Outcome
  {
    NormalOutcome(r, includePre, Scan(r.tags, r.head, includePre), AfterScan(r.tags, r.head, includePre, f).lastTag)
  }

  /** Lines 99-100: no tag is selected, no last tag is known, the version-shaped tag with
      the lowest index (the last one scanned) is no pre-release, and no unsynced release tag
      is on a branch. Then the lookup stops, naming the branch. This covers repositories
      whose version tags are all off HEAD as well as those without version tags. */
  lemma NoCandidateExits(r: RepoSnapshot, includePre: bool, f: LookupFields)
    requires forall j :: 0 <= j < |r.tags| ==> !IsCandidate(r.tags[j], r.head, includePre)
    requires f.lastTag.None?
    requires forall j :: 0 <= j < |r.tags| && Shaped(r.tags[j]) ==>
               !IsPre(r.tags[j]) || exists m :: 0 <= m < j && Shaped(r.tags[m])
    requires forall j :: 0 <= j < |r.tags| && IsUnsynced(r.tags[j], r.head, includePre) ==>
               FirstHeadIndex(r.heads, r.tags[j].commit).None?
    ensures LookupOutcome(r, includePre, f) == Exit("There are no Version Tags in " + r.activeBranch)
  {
    ScanUnsynced(r.tags, r.head, includePre, 0);
    ScanPreFlag(r.tags, r.head, includePre, 0);
    NothingChosen(r.tags, r.head, includePre, f);
  }

  /** No name is a version and no last tag is known: the lookup stops, naming the branch. */
  lemma NoVersionTags(r: RepoSnapshot, includePre: bool, f: LookupFields)
    requires forall j :: 0 <= j < |r.tags| ==> !Shaped(r.tags[j])
    requires f.lastTag.None?
    ensures LookupOutcome(r, includePre, f) == Exit("There are no Version Tags in " + r.activeBranch)
  {
    NoCandidateExits(r, includePre, f);
  }

  /** Every release tag is off HEAD and on no branch, and no last tag is known: the lookup
      stops as if there were no version tags. */
  lemma ReleasesOffEveryBranch(r: RepoSnapshot, f: LookupFields)
    requires forall j :: 0 <= j < |r.tags| && Shaped(r.tags[j]) ==>
               !IsPre(r.tags[j]) && r.tags[j].commit !in r.head
               && FirstHeadIndex(r.heads, r.tags[j].commit).None?
    requires f.lastTag.None?
    ensures LookupOutcome(r, false, f) == Exit("There are no Version Tags in " + r.activeBranch)
  {
    NoCandidateExits(r, false, f);
  }

  /** A released version tag missing from HEAD but present on a branch stops the lookup
      with the sync error naming the first such branch; the tag reported is the unsynced
      one with the lowest index, and the version-shaped tag with the lowest index must not
      be a pre-release. */
  lemma BranchesNotSynced(r: RepoSnapshot, f: LookupFields, j: nat, b: nat)
    requires j < |r.tags| && IsUnsynced(r.tags[j], r.head, false)
    requires forall l :: 0 <= l < j ==> !IsUnsynced(r.tags[l], r.head, false)
    requires forall l :: 0 <= l < |r.tags| && Shaped(r.tags[l]) ==>
               !IsPre(r.tags[l]) || exists m :: 0 <= m < l && Shaped(r.tags[m])
    requires FirstHeadIndex(r.heads, r.tags[j].commit) == Some(b)
    ensures LookupOutcome(r, false, f) == Exit(NotSyncedMessage(r.tags[j].commit, r.heads[b].name))
  {
    ScanUnsynced(r.tags, r.head, false, 0);
    ScanPreFlag(r.tags, r.head, false, 0);
    var st := Scan(r.tags, r.head, false);
    var j' :| 0 <= j' < |r.tags| && r.tags[j'] == st.unsynced.value
              && IsUnsynced(r.tags[j'], r.head, false)
              && forall l :: 0 <= l < j' ==> !IsUnsynced(r.tags[l], r.head, false);
    assert j' == j;
  }

  /** With a candidate and no tag off HEAD (or pre-releases included), the lookup goes on. */
  lemma LookupContinues(r: RepoSnapshot, includePre: bool, f: LookupFields, j: nat)
    requires j < |r.tags| && IsCandidate(r.tags[j], r.head, includePre)
    requires includePre || forall l :: 0 <= l < |r.tags| ==> !IsUnsynced(r.tags[l], r.head, includePre)
    ensures LookupOutcome(r, includePre, f) == Continue
  {
    ScanUnsynced(r.tags, r.head, includePre, 0);
    ChosenIsGreatest(r.tags, r.head, includePre, f);
  }

  /** The newest-listed name a pre-release with letters l, and some released version tag
      off HEAD: the lookup suggests running with `-r "l"`. */
  lemma PreReleaseHint(r: RepoSnapshot, f: LookupFields, j: nat, l: string)
    requires |r.tags| > 0 && Shaped(r.tags[0]) && ParseVersion(r.tags[0].name).value.preLabel == Some(l)
    requires j < |r.tags| && IsUnsynced(r.tags[j], r.head, false)
    ensures LookupOutcome(r, false, f) ==
      Exit("Last version is a Pre-Release. Use -r \"" + l + "\" option to perform a pre-release-increase")
  {
    ScanUnsynced(r.tags, r.head, false, 0);
    ScanPreFlag(r.tags, r.head, false, 0);
  }

  /** When every version tag is in HEAD and the one with the lowest index is a pre-release,
      a lookup without pre-releases and without an earlier last tag ends normally with no
      last tag at all. */
  lemma OnlyPreReleasesContinue(r: RepoSnapshot, f: LookupFields)
    requires |r.tags| > 0 && Shaped(r.tags[0]) && IsPre(r.tags[0])
    requires forall l :: 0 <= l < |r.tags| && Shaped(r.tags[l]) ==> IsPre(r.tags[l])
    requires f.lastTag.None?
    ensures LookupOutcome(r, false, f) == Continue
    ensures AfterScan(r.tags, r.head, false, f).lastTag.None?
  {
    ScanUnsynced(r.tags, r.head, false, 0);
    ScanPreFlag(r.tags, r.head, false, 0);
    NothingChosen(r.tags, r.head, false, f);
  }
}
