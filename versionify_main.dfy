/** The `Repository` class of versionify/versionify_main.py:9-247: the fields it keeps
    between calls and the methods that update them or end the run with a message. */
module Versionify {
  import opened Wrappers
  import opened Text
  import opened VersionPattern
  import opened Git
  import opened Classify
  import opened Changelog
  import opened TagScan
  import opened PreRelease

  /** Python truthiness of an optional string: None and "" are false. */
  predicate Truthy(s: Option<string>)
  {
    s.Some? && s.value != ""
  }

  /** The version increase_major sets (lines 162-164). */
  function MajorBump(v: Triple): Triple
  {
    Triple(v.major + 1, 0, 0)
  }

  /** The version increase_minor sets (lines 171-172). */
  function MinorBump(v: Triple): Triple
  {
    Triple(v.major, v.minor + 1, 0)
  }

  /** The version increase_patch sets (line 179). */
  function PatchBump(v: Triple): Triple
  {
    Triple(v.major, v.minor, v.patch + 1)
  }

  class Repository {
    /** The repository read through GitPython; only `create_tag` changes it. */
    var repo: RepoSnapshot
    var lastTag: Option<Tag>
    var newVersion: Option<string>
    var major: Option<nat>
    var minor: Option<nat>
    var patch: Option<nat>
    var relevantCommits: Option<seq<Commit>>
    var changelog: seq<string>
    var notSynced: bool
    /** How many times the format warning of line 155 has been printed. */
    var warnings: nat

    /** Lines 10-19. */
    constructor (r: RepoSnapshot)
      ensures repo == r && lastTag == None && newVersion == None
      ensures major == None && minor == None && patch == None
      ensures relevantCommits == None && changelog == [] && !notSynced && warnings == 0
    {
      repo := r;
      lastTag := None;
      newVersion := None;
      major := None;
      minor := None;
      patch := None;
      relevantCommits := None;
      changelog := [];
      notSynced := false;
      warnings := 0;
    }

    /** major, minor and patch, once all three are set. */
    predicate HasVersion()
      reads this
    {
      major.Some? && minor.Some? && patch.Some?
    }

    function Version(): Triple
      reads this
      requires HasVersion()
    {
      Triple(major.value, minor.value, patch.value)
    }

    /** The fields tag_lookup writes. */
    function Fields(): LookupFields
      reads this
    {
      LookupFields(lastTag, major, minor, patch, notSynced)
    }

    /** Lines 202-207: one entry per relevant commit, oldest first, after those already
        there. */
    method CreateChangelog()
      requires relevantCommits.Some?
      modifies this
      ensures changelog == old(changelog) + ChangelogEntries(old(relevantCommits).value)
      ensures repo == old(repo) && Fields() == old(Fields()) && newVersion == old(newVersion)
      ensures relevantCommits == old(relevantCommits) && warnings == old(warnings)
    {
      var rc := relevantCommits.value;
      var i := |rc|;
      while i > 0
        invariant 0 <= i <= |rc|
        invariant changelog == old(changelog) + ChangelogEntries(rc[i..])
        invariant repo == old(repo) && Fields() == old(Fields()) && newVersion == old(newVersion)
        invariant relevantCommits == old(relevantCommits) && warnings == old(warnings)
      {
        i := i - 1;
        assert rc[i..][1..] == rc[i + 1..];
        changelog := changelog + [Entry(rc[i])];
      }
      assert rc[0..] == rc;
    }

    /** Lines 104-114: the relevant commits are those of HEAD newer than the last tag's
        commit; none of them ends the run. */
    method FindRelevantCommits() returns (o: Outcome)
      requires lastTag.Some? && lastTag.value.commit in repo.head
      modifies this
      ensures relevantCommits == Some(old(repo.head)[..IndexOf(old(repo.head), old(lastTag).value.commit)])
      ensures o == if |relevantCommits.value| < 1 then Exit("There are no new commits") else Continue
      ensures repo == old(repo) && Fields() == old(Fields()) && newVersion == old(newVersion)
      ensures changelog == old(changelog) && warnings == old(warnings)
    {
      var allCommits := repo.head;
      var lastTaggedIndex := IndexOf(allCommits, lastTag.value.commit);
      relevantCommits := Some(repo.head[..lastTaggedIndex]);
      if |relevantCommits.value| < 1 {
        return Exit("There are no new commits");
      }
      return Continue;
    }

    /** Lines 158-165. */
    method IncreaseMajor()
      requires HasVersion()
      modifies this
      ensures HasVersion() && Version() == MajorBump(old(Version()))
      ensures newVersion == Some(VersionString(Version()))
      ensures repo == old(repo) && lastTag == old(lastTag) && notSynced == old(notSynced)
      ensures relevantCommits == old(relevantCommits) && changelog == old(changelog) && warnings == old(warnings)
    {
      major := Some(major.value + 1);
      minor := Some(0);
      patch := Some(0);
      newVersion := Some(VersionString(Triple(major.value, minor.value, patch.value)));
    }

    /** Lines 167-173. */
    method IncreaseMinor()
      requires HasVersion()
      modifies this
      ensures HasVersion() && Version() == MinorBump(old(Version()))
      ensures newVersion == Some(VersionString(Version()))
      ensures repo == old(repo) && lastTag == old(lastTag) && notSynced == old(notSynced)
      ensures relevantCommits == old(relevantCommits) && changelog == old(changelog) && warnings == old(warnings)
    {
      minor := Some(minor.value + 1);
      patch := Some(0);
      newVersion := Some(VersionString(Triple(major.value, minor.value, patch.value)));
    }

    /** Lines 175-180. */
    method IncreasePatch()
      requires HasVersion()
      modifies this
      ensures HasVersion() && Version() == PatchBump(old(Version()))
      ensures newVersion == Some(VersionString(Version()))
      ensures repo == old(repo) && lastTag == old(lastTag) && notSynced == old(notSynced)
      ensures relevantCommits == old(relevantCommits) && changelog == old(changelog) && warnings == old(warnings)
    {
      patch := Some(patch.value + 1);
      newVersion := Some(VersionString(Triple(major.value, minor.value, patch.value)));
    }

    /** Lines 125-155: walk the relevant commits newest first and bump the version fields
        with the one-shot flags; the walk agrees with the closed form Increment, and the
        format warning is printed at most once. */
    method WalkCommits()
      requires relevantCommits.Some? && HasVersion()
      modifies this`major, this`minor, this`patch, this`warnings
      ensures HasVersion() && Version() == Increment(old(Version()), relevantCommits.value)
      ensures warnings == old(warnings) + if WarnsFormat(relevantCommits.value) then 1 else 0
    {
      var rc := relevantCommits.value;
      var v0 := Version();
      var st := Start(v0);
      var w0 := warnings;
      var i := 0;
      while i < |rc|
        invariant 0 <= i <= |rc| && Walk(st, rc[i..]) == Walk(Start(v0), rc)
        invariant major == Some(st.v.major) && minor == Some(st.v.minor) && patch == Some(st.v.patch)
        invariant warnings == w0 + st.warnings
      {
        var after := CommitStep(st, rc[i]);
        WalkAdvance(st, rc, i);
        st := after;
        major, minor, patch := Some(st.v.major), Some(st.v.minor), Some(st.v.patch);
        warnings := w0 + st.warnings;
        i := i + 1;
      }
      assert rc[i..] == [];
      WalkIsIncrement(v0, rc);
    }

    /** Lines 116-156: bump the version by the relevant commits and spell the result. */
    method IncreaseVersion()
      requires relevantCommits.Some? && HasVersion()
      modifies this`major, this`minor, this`patch, this`warnings, this`newVersion
      ensures HasVersion() && Version() == Increment(old(Version()), relevantCommits.value)
      ensures newVersion == Some(VersionString(Version()))
      ensures warnings == old(warnings) + if WarnsFormat(relevantCommits.value) then 1 else 0
    {
      WalkCommits();
      newVersion := Some(VersionString(Triple(major.value, minor.value, patch.value)));
    }

    /** Lines 182-200: tag HEAD with the new version. `tagError` is what git reports, if
        anything; on success the tag is appended to the tag list. */
    method AddTag(message: Option<string>, debug: bool, tagError: Option<GitCommandError>) returns (o: Outcome)
      requires newVersion.Some? && (tagError.None? ==> |repo.head| > 0)
      modifies this
      ensures tagError.Some? ==> repo == old(repo) && o == HandleGitError(tagError.value, debug)
      ensures tagError.None? ==>
        repo == old(repo).(tags := old(repo.tags) + [Tag(old(newVersion).value, old(repo.head)[0], message)])
        && o == Continue
      ensures Fields() == old(Fields()) && newVersion == old(newVersion) && relevantCommits == old(relevantCommits)
      ensures changelog == old(changelog) && warnings == old(warnings)
    {
      if tagError.Some? {
        return HandleGitError(tagError.value, debug);
      }
      repo := repo.(tags := repo.tags + [Tag(newVersion.value, repo.head[0], message)]);
      return Continue;
    }

    /** Lines 34-58: the scan over the tags, last index first. It resets and sets
        `not_synced`, and gives back the loop's locals and the last match made, that of
        tags[0]. */
    method ScanTags(includePre: bool) returns (st: ScanState, versionMatch: Option<TagVersion>)
      modifies this`notSynced
      ensures st == Scan(repo.tags, repo.head, includePre) && notSynced == st.notSynced
      ensures versionMatch == if |repo.tags| > 0 then ParseVersion(repo.tags[0].name) else None
    {
      var tags := repo.tags;
      notSynced := false;
      var preReleaseVersion := false;
      var splitVersions: seq<Triple> := [];
      var versions: seq<Tag> := [];
      var unsyncedTag: Option<Tag> := None;
      versionMatch := None;
      var i := |tags|;
      while i > 0
        invariant 0 <= i <= |tags|
        invariant ScanState(versions, splitVersions, preReleaseVersion, notSynced, unsyncedTag)
                  == ScanFrom(tags, repo.head, includePre, i)
        invariant versionMatch == if i < |tags| then ParseVersion(tags[i].name) else None
      {
        i := i - 1;
        var tag := tags[i];
        versionMatch := ParseVersion(tag.name);
        if versionMatch.None? {
          continue;
        }
        var release := versionMatch.value.release;
        preReleaseVersion := versionMatch.value.preLabel.Some?;
        if preReleaseVersion && !includePre {
          continue;
        }
        if tag.commit in repo.head {
          versions := versions + [tag];
          splitVersions := splitVersions + [release];
        } else {
          if includePre {
            continue;
          }
          notSynced := true;
          unsyncedTag := Some(tag);
        }
      }
      st := ScanState(versions, splitVersions, preReleaseVersion, notSynced, unsyncedTag);
    }

    /** Lines 59-64: the first greatest release triple among the candidates gives the
        last tag and the version; without candidates they stay as they were. */
    method ChooseLastTag(st: ScanState, ghost includePre: bool)
      requires st == Scan(repo.tags, repo.head, includePre) && notSynced == st.notSynced
      modifies this`lastTag, this`major, this`minor, this`patch
      ensures Fields() == AfterScan(repo.tags, repo.head, includePre, old(Fields()))
    {
      ScanCandidates(repo.tags, repo.head, includePre, 0);
      if |st.triples| > 0 {
        var maxIndex := FirstMaxIndex(st.triples);
        var maxVersion := st.triples[maxIndex];
        lastTag := Some(st.versions[maxIndex]);
        major, minor, patch := Some(maxVersion.major), Some(maxVersion.minor), Some(maxVersion.patch);
      }
    }

    /** Lines 66-82, once no version tag exists: tag HEAD with `initial`, with the changelog
        of all of HEAD as message unless `noChangelog`, look the new tag up and exit with
        status 0, or with whatever stops that lookup. */
    method InitialTag(initial: string, noChangelog: bool, debug: bool, tagError: Option<GitCommandError>)
      returns (o: Outcome)
      requires tagError.None? ==> |repo.head| > 0
      modifies this
      decreases 1
      ensures newVersion == old(newVersion) && warnings == old(warnings)
      ensures relevantCommits == (if noChangelog then old(relevantCommits) else Some(old(repo).head))
      ensures changelog == old(changelog) + (if noChangelog then [] else ChangelogEntries(old(repo).head))
      ensures tagError.Some? ==> repo == old(repo) && Fields() == old(Fields()) && o == HandleGitError(tagError.value, debug)
      ensures tagError.None? ==>
        var tagged := old(repo).(tags := old(repo).tags + [Tag(initial, old(repo).head[0],
                                   if noChangelog then None else Some(Join(changelog, "\n")))]);
        var inner := LookupOutcome(tagged, false, old(Fields()));
        repo == tagged && Fields() == AfterScan(tagged.tags, tagged.head, false, old(Fields()))
        && o == if inner == Continue then ExitCode(0) else inner
    {
      var message: Option<string> := None;
      if !noChangelog {
        relevantCommits := Some(repo.head);
        CreateChangelog();
        message := Some(Join(changelog, "\n"));
      }
      if tagError.Some? {
        return HandleGitError(tagError.value, debug);
      }
      repo := repo.(tags := repo.tags + [Tag(initial, repo.head[0], message)]);
      var inner := TagLookup(None, false, false, false, None);
      if inner != Continue {
        return inner;
      }
      return ExitCode(0);
    }

    /** Lines 84-88 and 99-102: how a lookup without `initial` ends, from the scan's locals,
        the match of tags[0] and the last tag chosen. */
    method CheckLookup(st: ScanState, versionMatch: Option<TagVersion>, includePre: bool) returns (o: Outcome)
      requires st == Scan(repo.tags, repo.head, includePre) && notSynced == st.notSynced
      requires versionMatch == if |repo.tags| > 0 then ParseVersion(repo.tags[0].name) else None
      ensures o == NormalOutcome(repo, includePre, st, lastTag)
    {
      ScanUnsynced(repo.tags, repo.head, includePre, 0);
      ScanPreFlag(repo.tags, repo.head, includePre, 0);
      if notSynced && !st.preFlag {
        var b := FindHeadContaining(repo.heads, st.unsynced.value.commit);
        if b.Some? {
          return Exit(NotSyncedMessage(st.unsynced.value.commit, repo.heads[b.value].name));
        }
      }
      if lastTag.None? && !st.preFlag {
        return Exit("There are no Version Tags in " + repo.activeBranch);
      } else if st.preFlag && !includePre && notSynced {
        if versionMatch.None? {
          return Raised("AttributeError");
        }
        var letters := versionMatch.value.preLabel;
        return Exit("Last version is a Pre-Release. Use -r \"" + (if letters.Some? then letters.value else "None")
                    + "\" option to perform a pre-release-increase");
      }
      return Continue;
    }

    /** Lines 21-102. Without `initial`: choose the last version tag and stop when HEAD lacks
        a released version tag that some branch has, when there is no version tag at all, or
        when the newest-listed version tag is a pre-release and -r was not given. With
        `initial`: create the first version tag, or stop when a version tag exists already.
        `tagError` is what git reports on creating that tag, if anything. */
    method TagLookup(initial: Option<string>, noChangelog: bool, debug: bool, includePre: bool,
                     tagError: Option<GitCommandError>) returns (o: Outcome)
      requires Truthy(initial) && tagError.None? ==> |repo.head| > 0
      modifies this
      decreases if Truthy(initial) then 2 else 0
      ensures newVersion == old(newVersion) && warnings == old(warnings)
      ensures !Truthy(initial) ==>
        repo == old(repo) && relevantCommits == old(relevantCommits) && changelog == old(changelog)
        && Fields() == AfterScan(old(repo).tags, old(repo).head, includePre, old(Fields()))
        && o == LookupOutcome(old(repo), includePre, old(Fields()))
      ensures Truthy(initial) && AfterScan(old(repo).tags, old(repo).head, includePre, old(Fields())).lastTag.Some? ==>
        repo == old(repo) && relevantCommits == old(relevantCommits) && changelog == old(changelog)
        && Fields() == AfterScan(old(repo).tags, old(repo).head, includePre, old(Fields()))
        && o == Exit("There is already a version tag")
      ensures Truthy(initial) && AfterScan(old(repo).tags, old(repo).head, includePre, old(Fields())).lastTag.None? ==>
        relevantCommits == (if noChangelog then old(relevantCommits) else Some(old(repo).head))
        && changelog == old(changelog) + (if noChangelog then [] else ChangelogEntries(old(repo).head))
      ensures Truthy(initial) && AfterScan(old(repo).tags, old(repo).head, includePre, old(Fields())).lastTag.None?
              && tagError.Some? ==>
        repo == old(repo) && Fields() == AfterScan(old(repo).tags, old(repo).head, includePre, old(Fields()))
        && o == HandleGitError(tagError.value, debug)
      ensures Truthy(initial) && AfterScan(old(repo).tags, old(repo).head, includePre, old(Fields())).lastTag.None?
              && tagError.None? ==>
        var tagged := old(repo).(tags := old(repo).tags + [Tag(initial.value, old(repo).head[0],
                                   if noChangelog then None else Some(Join(changelog, "\n")))]);
        var scanned := AfterScan(old(repo).tags, old(repo).head, includePre, old(Fields()));
        var inner := LookupOutcome(tagged, false, scanned);
        repo == tagged && Fields() == AfterScan(tagged.tags, tagged.head, false, scanned)
        && o == if inner == Continue then ExitCode(0) else inner
    {
      var st, versionMatch := ScanTags(includePre);
      ChooseLastTag(st, includePre);
      if Truthy(initial) {
        if lastTag.None? {
          o := InitialTag(initial.value, noChangelog, debug, tagError);
          return;
        }
        return Exit("There is already a version tag");
      }
      o := CheckLookup(st, versionMatch, includePre);
    }

    /** Lines 231-242: name the next pre-release after the chosen tag, make it the last
        tag, and stop when its commit is missing in HEAD. */
    method FollowTrack(prefix: string, relevantTag: Tag, preReleaseVersion: nat) returns (o: Outcome)
      modifies this`newVersion, this`lastTag, this`notSynced
      ensures newVersion == Some(NextPreRelease(old(newVersion), Stem(relevantTag.name, prefix), prefix, preReleaseVersion))
      ensures lastTag == Some(relevantTag) && notSynced == (old(notSynced) || relevantTag.commit !in repo.head)
      ensures o == PreReleaseSync(repo, relevantTag)
    {
      var stem := Stem(relevantTag.name, prefix);
      if newVersion != Some(stem) && newVersion.Some? {
        newVersion := Some(newVersion.value + prefix + "1");
      } else {
        newVersion := Some(stem + prefix + NatToString(preReleaseVersion + 1));
      }
      lastTag := Some(relevantTag);
      if relevantTag.commit !in repo.head {
        notSynced := true;
        var b := FindHeadContaining(repo.heads, relevantTag.commit);
        if b.Some? {
          return Exit("Pre-Release-Versions not synced (" + relevantTag.commit.summary
                      + " missing in HEAD). Please rebase onto " + repo.heads[b.value].name);
        }
        return Exit("Branches not synced (" + relevantTag.commit.summary + " missing in HEAD)");
      }
      return Continue;
    }

    /** Lines 243-247: no tag carries the prefix; the new version, or the version increased
        by the relevant commits when there is none yet, starts a track at 1. */
    method StartTrack(prefix: string)
      requires newVersion.None? ==> relevantCommits.Some? && HasVersion()
      modifies this`newVersion, this`major, this`minor, this`patch, this`warnings
      ensures old(newVersion).Some? ==>
        newVersion == Some(old(newVersion).value + prefix + "1") && unchanged(this`major, this`minor, this`patch, this`warnings)
      ensures old(newVersion).None? ==>
        HasVersion() && Version() == Increment(old(Version()), relevantCommits.value)
        && warnings == old(warnings) + (if WarnsFormat(relevantCommits.value) then 1 else 0)
        && newVersion == Some(VersionString(Version()) + prefix + "1")
    {
      if newVersion.Some? {
        newVersion := Some(newVersion.value + prefix + "1");
      } else {
        IncreaseVersion();
        newVersion := Some(newVersion.value + prefix + "1");
      }
    }

    /** Lines 209-247: continue the track of the tag carrying the prefix with the greatest
        number, or start a new one from new_version, or from a version increased first.
        A chosen tag missing in HEAD ends the call. */
    method IncreasePreRelease(prefix: string) returns (o: Outcome)
      requires NumbersDefined(repo.tags, prefix) && |repo.tags| > 0 && Choose(repo.tags, prefix).None?
               && newVersion.None?
               ==> relevantCommits.Some? && HasVersion()
      modifies this
      ensures repo == old(repo) && relevantCommits == old(relevantCommits) && changelog == old(changelog)
      ensures !NumbersDefined(repo.tags, prefix) ==> o == Raised("AttributeError") && unchanged(this)
      ensures |repo.tags| == 0 ==> o == Raised("UnboundLocalError") && unchanged(this)
      ensures NumbersDefined(repo.tags, prefix) && Choose(repo.tags, prefix).Some? ==>
        var c := Choose(repo.tags, prefix).value;
        newVersion == Some(NextPreRelease(old(newVersion), Stem(c.tag.name, prefix), prefix, c.number))
        && lastTag == Some(c.tag) && notSynced == (old(notSynced) || c.tag.commit !in repo.head)
        && major == old(major) && minor == old(minor) && patch == old(patch) && warnings == old(warnings)
        && o == PreReleaseSync(repo, c.tag)
      ensures NumbersDefined(repo.tags, prefix) && |repo.tags| > 0 && Choose(repo.tags, prefix).None? ==>
        lastTag == old(lastTag) && notSynced == old(notSynced) && o == Continue
      ensures NumbersDefined(repo.tags, prefix) && |repo.tags| > 0 && Choose(repo.tags, prefix).None?
              && old(newVersion).Some? ==>
        newVersion == Some(old(newVersion).value + prefix + "1")
        && major == old(major) && minor == old(minor) && patch == old(patch) && warnings == old(warnings)
      ensures NumbersDefined(repo.tags, prefix) && |repo.tags| > 0 && Choose(repo.tags, prefix).None?
              && old(newVersion).None? ==>
        HasVersion() && Version() == Increment(old(Version()), relevantCommits.value)
        && warnings == old(warnings) + (if WarnsFormat(relevantCommits.value) then 1 else 0)
        && newVersion == Some(VersionString(Version()) + prefix + "1")
    {
      var failed, sc, done := CollectLabelled(repo.tags, prefix);
      if failed {
        return Raised("AttributeError");
      }
      if |sc.numbers| > 0 {
        var k := FirstMaxNat(sc.numbers);
        o := FollowTrack(prefix, sc.relevant[k], sc.numbers[k]);
        return;
      }
      LabelScanFinds(repo.tags, prefix, 0);
      if done.None? {
        return Raised("UnboundLocalError");
      }
      StartTrack(prefix);
      return Continue;
    }
  }
}
