/** What `increase_pre_release` (versionify/versionify_main.py:209-247) computes: the tags
    that carry the prefix, the one with the greatest number, the next pre-release name and
    the sync check on the chosen tag. */
module PreRelease {
  import opened Wrappers
  import opened Text
  import opened VersionPattern
  import opened Git

  /** str(tag).find(prefix) != -1 (line 221): the prefix occurs anywhere in the name. */
  predicate HasLabel(t: Tag, prefix: string)
  {
    Find(t.name, prefix) != -1
  }

  /** Every name of tags[i..] carrying the prefix has a letters-then-digits run, so the
      search at line 225 finds a match. */
  predicate NumbersDefinedFrom(tags: seq<Tag>, prefix: string, i: nat)
  {
    forall j :: i <= j < |tags| && HasLabel(tags[j], prefix) ==> PreNumber(tags[j].name).Some?
  }

  predicate NumbersDefined(tags: seq<Tag>, prefix: string)
  {
    NumbersDefinedFrom(tags, prefix, 0)
  }

  /** `relevant_tags` and `pre_release_versionen`. */
  datatype LabelScan = LabelScan(relevant: seq<Tag>, numbers: seq<nat>)

  /** The lists after `for tag in reversed(self.repo.tags)` has visited tags[i..]. */
  function LabelScanFrom(tags: seq<Tag>, prefix: string, i: nat): (sc: LabelScan)
    requires i <= |tags| && NumbersDefinedFrom(tags, prefix, i)
    ensures |sc.relevant| == |sc.numbers|
    decreases |tags| - i
  {
    if i == |tags| then LabelScan([], [])
    else
      var sc := LabelScanFrom(tags, prefix, i + 1);
      if !HasLabel(tags[i], prefix) then sc
      else LabelScan(sc.relevant + [tags[i]], sc.numbers + [PreNumber(tags[i].name).value])
  }

  /** The lists record exactly the labelled tags, each beside its own number. */
  lemma {:induction false} LabelScanFinds(tags: seq<Tag>, prefix: string, i: nat)
    requires i <= |tags| && NumbersDefinedFrom(tags, prefix, i)
    ensures var sc := LabelScanFrom(tags, prefix, i);
      (forall k :: 0 <= k < |sc.relevant| ==>
         sc.relevant[k] in tags[i..] && HasLabel(sc.relevant[k], prefix)
         && PreNumber(sc.relevant[k].name).Some? && PreNumber(sc.relevant[k].name).value == sc.numbers[k])
      && (forall j :: i <= j < |tags| && HasLabel(tags[j], prefix) ==> tags[j] in sc.relevant)
    decreases |tags| - i
  {
    if i < |tags| {
      LabelScanFinds(tags, prefix, i + 1);
      var sc' := LabelScanFrom(tags, prefix, i + 1);
      var sc := LabelScanFrom(tags, prefix, i);
      assert tags[i + 1..] == tags[i..][1..];
      assert forall x :: x in tags[i + 1..] ==> x in tags[i..];
      if HasLabel(tags[i], prefix) {
        assert PreNumber(tags[i].name).Some?;
        assert sc.relevant == sc'.relevant + [tags[i]];
        assert sc.numbers == sc'.numbers + [PreNumber(tags[i].name).value];
        assert tags[i] == tags[i..][0];
      } else {
        assert sc == sc';
        assert forall j :: i <= j < |tags| && HasLabel(tags[j], prefix) ==> i + 1 <= j;
      }
    }
  }

  /** The indices of the tags of tags[i..] that carry the prefix, in the order the loop
      meets them. */
  function LabelPositions(tags: seq<Tag>, prefix: string, i: nat): seq<nat>
    requires i <= |tags|
  {
    KeptPositions(tags, t => HasLabel(t, prefix), i)
  }

  /** `relevant_tags` and `pre_release_versionen` list the labelled tags by decreasing
      index: entry k is the tag at LabelPositions[k] and its number. */
  lemma {:induction false} LabelScanPositions(tags: seq<Tag>, prefix: string, i: nat)
    requires i <= |tags| && NumbersDefinedFrom(tags, prefix, i)
    ensures var sc, ps := LabelScanFrom(tags, prefix, i), LabelPositions(tags, prefix, i);
      |sc.relevant| == |ps|
      && forall k :: 0 <= k < |ps| ==>
           i <= ps[k] < |tags| && HasLabel(tags[ps[k]], prefix) && sc.relevant[k] == tags[ps[k]]
           && PreNumber(tags[ps[k]].name) == Some(sc.numbers[k])
    decreases |tags| - i
  {
    if i < |tags| {
      LabelScanPositions(tags, prefix, i + 1);
    }
  }

  /** Some tag of tags[i..] lacks the prefix: the loop has set `done` to False (line 223). */
  predicate PassedUnlabelled(tags: seq<Tag>, prefix: string, i: nat)
    decreases |tags| - i
  {
    i < |tags| && (!HasLabel(tags[i], prefix) || PassedUnlabelled(tags, prefix, i + 1))
  }

  lemma {:induction false} PassedUnlabelledIff(tags: seq<Tag>, prefix: string, i: nat)
    ensures PassedUnlabelled(tags, prefix, i) <==> exists j :: i <= j < |tags| && !HasLabel(tags[j], prefix)
    decreases |tags| - i
  {
    if i < |tags| {
      PassedUnlabelledIff(tags, prefix, i + 1);
      if !HasLabel(tags[i], prefix) {
        assert exists j :: i <= j < |tags| && !HasLabel(tags[j], prefix);
      }
    }
  }

  /** Lines 219-226: the tags whose names carry the prefix, last index first, each with its
      number. `done` becomes False at the first tag passed without the prefix and is unbound
      until then. A name with the prefix but no letters-then-digits run makes the search at
      line 225 find nothing, and reading its group raises. */
  method CollectLabelled(tags: seq<Tag>, prefix: string) returns (failed: bool, sc: LabelScan, done: Option<bool>)
    ensures failed <==> !NumbersDefined(tags, prefix)
    ensures !failed ==> sc == LabelScanFrom(tags, prefix, 0)
    ensures !failed ==>
      (done.None? <==> forall j :: 0 <= j < |tags| ==> HasLabel(tags[j], prefix)) && done != Some(true)
  {
    var preReleaseVersionen: seq<nat> := [];
    var relevantTags: seq<Tag> := [];
    done := None;
    var i := |tags|;
    while i > 0
      invariant 0 <= i <= |tags| && NumbersDefinedFrom(tags, prefix, i)
      invariant LabelScan(relevantTags, preReleaseVersionen) == LabelScanFrom(tags, prefix, i)
      invariant done == if PassedUnlabelled(tags, prefix, i) then Some(false) else None
    {
      i := i - 1;
      var tag := tags[i];
      if Find(tag.name, prefix) == -1 {
        done := Some(false);
        continue;
      }
      var number := PreNumber(tag.name);
      if number.None? {
        assert HasLabel(tags[i], prefix);
        return true, LabelScan([], []), done;
      }
      preReleaseVersionen := preReleaseVersionen + [number.value];
      relevantTags := relevantTags + [tag];
    }
    PassedUnlabelledIff(tags, prefix, 0);
    return false, LabelScan(relevantTags, preReleaseVersionen), done;
  }

  /** max(numbers) and numbers.index(max): the first greatest number. */
  function FirstMaxNat(ns: seq<nat>): (k: nat)
    requires |ns| > 0
    ensures k < |ns|
    ensures forall j :: 0 <= j < |ns| ==> ns[j] <= ns[k]
    ensures forall j :: 0 <= j < k ==> ns[j] < ns[k]
  {
    if |ns| == 1 then 0
    else
      var k := FirstMaxNat(ns[..|ns| - 1]);
      assert forall j :: 0 <= j < |ns| - 1 ==> ns[..|ns| - 1][j] == ns[j];
      if ns[k] < ns[|ns| - 1] then |ns| - 1 else k
  }

  /** str(tag)[:str(tag).find(prefix)]: the name before the first occurrence of the prefix. */
  function Stem(name: string, prefix: string): string
  {
    PySlicePrefix(name, Find(name, prefix))
  }

  /** Lines 231-234: the next name. Continuing the chosen tag's track gives stem, prefix and
      the greatest number plus one; a new_version that differs from the stem starts a new
      track at 1. */
  function NextPreRelease(newVersion: Option<string>, stem: string, prefix: string, n: nat): string
  {
    if newVersion.Some? && newVersion.value != stem then newVersion.value + prefix + "1"
    else stem + prefix + NatToString(n + 1)
  }

  /** Lines 237-242: how the call ends once a tag is chosen. */
  function PreReleaseSync(r: RepoSnapshot, chosen: Tag): Outcome
  {
    if chosen.commit in r.head then Continue
    else
      match FirstHeadIndex(r.heads, chosen.commit)
      case Some(b) =>
        Exit("Pre-Release-Versions not synced (" + chosen.commit.summary + " missing in HEAD). Please rebase onto "
             + r.heads[b].name)
      case None => Exit("Branches not synced (" + chosen.commit.summary + " missing in HEAD)")
  }

  /** The tag chosen at lines 229-230 and its number. */
  datatype Choice = Choice(tag: Tag, number: nat)

  function Choose(tags: seq<Tag>, prefix: string): Option<Choice>
    requires NumbersDefined(tags, prefix)
  {
    var sc := LabelScanFrom(tags, prefix, 0);
    if |sc.numbers| == 0 then None
    else
      var k := FirstMaxNat(sc.numbers);
      Some(Choice(sc.relevant[k], sc.numbers[k]))
  }

  /** The first greatest of numbers listed by decreasing position is the greatest with the
      highest position: every entry at a higher position is smaller. */
  lemma FirstMaxNatIsLast(ns: seq<nat>, ps: seq<nat>)
    requires |ns| == |ps| > 0
    requires forall k, l :: 0 <= k < l < |ps| ==> ps[l] < ps[k]
    ensures forall l :: 0 <= l < |ps| && ps[FirstMaxNat(ns)] < ps[l] ==> ns[l] < ns[FirstMaxNat(ns)]
  {
    var k := FirstMaxNat(ns);
    forall l | 0 <= l < |ps| && ps[k] < ps[l]
      ensures ns[l] < ns[k]
    {
      assert l < k;
    }
  }

  /** When some tag carries the prefix, the entry that max and `.index` pick is a labelled
      tag whose number no labelled tag exceeds and every labelled tag after it is below. */
  lemma LabelChoice(tags: seq<Tag>, prefix: string)
    requires NumbersDefined(tags, prefix)
    requires exists j :: 0 <= j < |tags| && HasLabel(tags[j], prefix)
    ensures var sc, ps := LabelScanFrom(tags, prefix, 0), LabelPositions(tags, prefix, 0);
      |sc.numbers| > 0 && |ps| == |sc.numbers|
      && var k := FirstMaxNat(sc.numbers);
      ps[k] < |tags| && sc.relevant[k] == tags[ps[k]] && HasLabel(tags[ps[k]], prefix)
      && PreNumber(tags[ps[k]].name) == Some(sc.numbers[k])
      && (forall j :: 0 <= j < |tags| && HasLabel(tags[j], prefix) ==> PreNumber(tags[j].name).value <= sc.numbers[k])
      && (forall j :: ps[k] < j < |tags| && HasLabel(tags[j], prefix) ==> PreNumber(tags[j].name).value < sc.numbers[k])
  {
    LabelScanPositions(tags, prefix, 0);
    var sc, ps := LabelScanFrom(tags, prefix, 0), LabelPositions(tags, prefix, 0);
    var j0 :| 0 <= j0 < |tags| && HasLabel(tags[j0], prefix);
    assert j0 in ps;
    var k := FirstMaxNat(sc.numbers);
    FirstMaxNatIsLast(sc.numbers, ps);
    forall j | 0 <= j < |tags| && HasLabel(tags[j], prefix)
      ensures PreNumber(tags[j].name).value <= sc.numbers[k]
      ensures ps[k] < j ==> PreNumber(tags[j].name).value < sc.numbers[k]
    {
      assert j in ps;
      var l :| 0 <= l < |ps| && ps[l] == j;
    }
  }

  /** A tag is chosen exactly when some tag carries the prefix; the chosen one carries it
      and has the greatest number of all of them. Of tags with equal greatest numbers the
      loop meets the one with the highest index first, and `.index` keeps it: every
      labelled tag listed after it has a smaller number. */
  lemma ChosenHasGreatestNumber(tags: seq<Tag>, prefix: string)
    requires NumbersDefined(tags, prefix)
    ensures Choose(tags, prefix).Some? <==> exists j :: 0 <= j < |tags| && HasLabel(tags[j], prefix)
    ensures Choose(tags, prefix).Some? ==>
      Choose(tags, prefix).value.tag in tags && HasLabel(Choose(tags, prefix).value.tag, prefix)
      && PreNumber(Choose(tags, prefix).value.tag.name) == Some(Choose(tags, prefix).value.number)
      && (forall j :: 0 <= j < |tags| && HasLabel(tags[j], prefix) ==>
            PreNumber(tags[j].name).value <= Choose(tags, prefix).value.number)
      && exists c :: 0 <= c < |tags| && tags[c] == Choose(tags, prefix).value.tag
           && forall j :: c < j < |tags| && HasLabel(tags[j], prefix) ==>
                PreNumber(tags[j].name).value < Choose(tags, prefix).value.number
  {
    LabelScanPositions(tags, prefix, 0);
    var sc, ps := LabelScanFrom(tags, prefix, 0), LabelPositions(tags, prefix, 0);
    if exists j :: 0 <= j < |tags| && HasLabel(tags[j], prefix) {
      LabelChoice(tags, prefix);
      var c := ps[FirstMaxNat(sc.numbers)];
      assert Choose(tags, prefix) == Some(Choice(tags[c], PreNumber(tags[c].name).value));
    }
  }

  /** Lines 228-247 without the sync check: the next name, or None when no tag carries the
      prefix and the caller goes on from new_version. */
  function PreReleaseName(tags: seq<Tag>, prefix: string, newVersion: Option<string>): Option<string>
    requires NumbersDefined(tags, prefix)
  {
    match Choose(tags, prefix)
    case Some(c) => Some(NextPreRelease(newVersion, Stem(c.tag.name, prefix), prefix, c.number))
    case None => None
  }

  /** Continuing a track: a tag spelled version + letters + n is followed by one the
      version pattern reads as the same release with the same letters, numbered n + 1. */
  lemma {:induction false} NextOnTrack(v: Triple, letters: string, n: nat)
    requires |letters| > 0 && AllLetters(letters)
    ensures var name := NextPreRelease(None, VersionString(v), letters, n);
      name == VersionString(v) + letters + NatToString(n + 1)
      && ParseVersion(name) == Some(TagVersion(v, Some(letters)))
      && PreNumber(name) == Some(n + 1)
  {
    PreReleaseSuffix(false, letters, n + 1);
    assert "" + letters + NatToString(n + 1) == letters + NatToString(n + 1);
    ParseVersionString(v, letters + NatToString(n + 1));
    assert VersionString(v) + letters + NatToString(n + 1) == VersionString(v) + (letters + NatToString(n + 1));
    PreNumberOfPreReleaseTag(v, letters, n + 1);
  }

  /** The stem of a tag spelled version + letters + n, cut at the letters, is the
      version: so the name NextPreRelease gives after it stays on the same track. */
  lemma StemOfTrackTag(v: Triple, letters: string, n: nat)
    requires |letters| > 0 && AllLetters(letters)
    ensures Find(VersionString(v) + letters + NatToString(n), letters) == |VersionString(v)|
    ensures Stem(VersionString(v) + letters + NatToString(n), letters) == VersionString(v)
  {
    var p := VersionString(v);
    var name := p + letters + NatToString(n);
    assert name[|p|..|p| + |letters|] == letters;
    assert OccursAt(name, letters, |p|);
    forall i: nat | i < |p|
      ensures !OccursAt(name, letters, i)
    {
      VersionStringHasNoLetters(v, i);
      assert name[i] == p[i];
      assert IsLetter(letters[0]);
    }
    assert name[..|p|] == p;
  }

  /** A release name never carries a prefix made of letters. */
  lemma ReleaseNameUnlabelled(v: Triple, letters: string)
    requires |letters| > 0 && AllLetters(letters)
    ensures Find(VersionString(v), letters) == -1
  {
    var p := VersionString(v);
    forall i: nat | i < |p|
      ensures !OccursAt(p, letters, i)
    {
      VersionStringHasNoLetters(v, i);
      assert IsLetter(letters[0]);
    }
  }

  /** Starting a track: a new version w different from the stem gets the letters and 1. */
  lemma {:induction false} NewTrack(w: Triple, stem: string, letters: string, n: nat)
    requires |letters| > 0 && AllLetters(letters) && VersionString(w) != stem
    ensures var name := NextPreRelease(Some(VersionString(w)), stem, letters, n);
      name == VersionString(w) + letters + "1"
      && ParseVersion(name) == Some(TagVersion(w, Some(letters)))
      && PreNumber(name) == Some(1)
  {
    assert NatToString(1) == "1";
    PreReleaseSuffix(false, letters, 1);
    assert "" + letters + NatToString(1) == letters + "1";
    ParseVersionString(w, letters + "1");
    assert VersionString(w) + letters + "1" == VersionString(w) + (letters + "1");
    PreNumberOfPreReleaseTag(w, letters, 1);
  }

  /** The chosen tag off HEAD always ends the call, naming the first branch that has it
      when there is one. */
  lemma PreReleaseSyncExits(r: RepoSnapshot, chosen: Tag)
    ensures PreReleaseSync(r, chosen) == Continue <==> chosen.commit in r.head
    ensures chosen.commit !in r.head && FirstHeadIndex(r.heads, chosen.commit).Some? ==>
      PreReleaseSync(r, chosen) ==
        Exit("Pre-Release-Versions not synced (" + chosen.commit.summary + " missing in HEAD). Please rebase onto "
             + r.heads[FirstHeadIndex(r.heads, chosen.commit).value].name)
  {
  }
}
