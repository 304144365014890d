# git-versionify: the `Repository` engine in Dafny

git-versionify reads the tags and commits of a git repository and picks the next semantic
version. A tag named like `4.6.3` (optionally followed by a pre-release part such as `rc2` or
`-rc2`) is a version tag. The commits since the greatest version tag reachable from HEAD are
classified in the AngularJS style: a `BREAKING CHANGE` line raises major, a `feat`/`feature`
type raises minor, a patch keyword or an unknown type raises patch. The result can be written
back as a new annotated tag, with a changelog of the commit summaries. Pre-release tracks
(`4.7.0rc1`, `4.7.0rc2`, ...) are continued or started from the last tag with a given prefix.

This project models the `Repository` class of `versionify/versionify_main.py` and proves
properties of it:

- `wrappers.dfy`: `Option`.
- `text.dfy` (module `Text`): digits, letters, `str.find`, slicing, `str.lower` and `str(int)`.
- `version_pattern.dfy` (module `VersionPattern`): the tag pattern of line 40. The match is
  computed as Python's engine finds it: the unescaped `.` matches any character but a
  newline, and `$` also matches before one final newline. It also models the pre-release
  number search of line 225.
- `git.dfy` (module `Git`): commits, tags, branches, the repository snapshot, how a call
  ends, and the handling of `GitCommandError` (lines 89-98 and 191-200).
- `classify.dfy` (module `Classify`): the commit classification and the version walk of
  `increase_version` (lines 121-156).
- `changelog.dfy` (module `Changelog`): `create_changelog`.
- `tag_scan.dfy` (module `TagScan`): the tag scan of `tag_lookup` and how a lookup ends.
- `pre_release.dfy` (module `PreRelease`): `increase_pre_release` minus its state updates.
- `versionify_main.dfy` (module `Versionify`): the class `Repository` with its fields and
  methods. Each method is proved against the functions above.
- `scenarios.dfy` (module `Scenarios`): repositories from `tests/versionify_test.py` run
  through the model.

How the model maps the source:

- Fields that Python leaves as `None` are `Option` values.
- The git repository is a value (`RepoSnapshot`). `create_tag` appends to its tag list.
- A call ends in one of four ways:
  - it returns (`Continue`);
  - it calls `sys.exit` with a message (`Exit`);
  - it exits with a number (`ExitCode`);
  - an exception escapes (`Raised`).
- `Repository.warnings` counts the format warnings printed on stderr.

## Model

| member | source | states |
|---|---|---|
| Text.NatToString | versionify/versionify_main.py:156 | `str(n)` is a non-empty run of decimal digits without a leading zero that reads back as n |
| Text.Find | versionify/versionify_main.py:127 | `str.find` is -1 exactly when the pattern occurs nowhere; otherwise it is the first position where it occurs |
| Text.DigitRun | versionify/versionify_main.py:40 | the longest run of digits from a position: all digits, followed by a non-digit or the end |
| Text.LetterRun | versionify/versionify_main.py:225 | the longest run of ASCII letters from a position, in the same two directions |
| VersionPattern.ParseThreeGroups | versionify/versionify_main.py:40-46 | a name of three digit groups separated by one character each, followed by a suffix the optional group accepts, matches; groups 1-3 are those numbers and the suffix gives the pre-release label |
| VersionPattern.ParseGroups | versionify/versionify_main.py:40-45 | stated on positions: maximal digit groups split by non-digit non-newline characters, followed by an accepted suffix, give the three group values |
| VersionPattern.ParseVersionString | versionify/versionify_main.py:40-46 | the name `major.minor.patch` of any version, followed by an accepted suffix, parses back to that version with that suffix's label |
| VersionPattern.ParseRelease | versionify/versionify_main.py:40-46 | every release name the program writes (line 156) is recognised as that release, with no pre-release part |
| VersionPattern.PreReleaseSuffix | versionify/versionify_main.py:40 | an optional hyphen, letters and a decimal number form group 4; the letters are group 6 |
| VersionPattern.ParsedEndsLikeVersion | versionify/versionify_main.py:40 | a name the pattern accepts ends with a digit or with the one newline `$` allows, so `2.0.0-rc` is no version tag |
| VersionPattern.SuffixStartsWithNonDigit | versionify/versionify_main.py:40 | the optional group never starts with a digit, so group 3 always takes its whole digit run |
| VersionPattern.NumberBetweenIs | versionify/versionify_main.py:43-45 | `int()` of a group is the decimal value of its digits |
| VersionPattern.PreNumberAfterLetters | versionify/versionify_main.py:225 | the search for letters followed by digits finds the first letter run and returns the number after it |
| VersionPattern.PreNumberOfPreReleaseTag | versionify/versionify_main.py:225 | in `version + letters + n` the search returns n |
| VersionPattern.VersionStringHasNoLetters | versionify/versionify_main.py:156 | a release name contains no letter |
| VersionPattern.VersionStringInjective | versionify/versionify_main.py:156 | two versions with the same name are the same version |
| Git.IndexOf | versionify/versionify_main.py:111 | `list.index` finds the first position holding the commit |
| Git.KeptPositions | versionify/versionify_main.py:39 | the indices of the tags a `for tag in reversed(tags)` loop keeps, highest first: each kept, strictly falling, and every kept tag among them |
| Git.FirstHeadIndex | versionify/versionify_main.py:86-88 | the first branch whose history holds the commit; None exactly when no branch holds it |
| Git.FindHeadContaining | versionify/versionify_main.py:239-241 | the loop over `repo.heads` stops at the branch FirstHeadIndex names |
| Git.ExitForStatus | versionify/versionify_main.py:93-98 | a git error without debug always ends the process |
| Git.HandleGitError | versionify/versionify_main.py:89-98 | with debug the error is re-raised, and only then; otherwise the process exits as its status says |
| Git.StripParenthesised | versionify/versionify_main.py:93 | a status ending in `(digits)` loses the parentheses and keeps the digits |
| Git.StripWithoutParen | versionify/versionify_main.py:93 | a status that ends in neither `)` nor a newline is left as it is |
| Git.ExitForNumber | versionify/versionify_main.py:93-97 | a numeric status, bare or in parentheses, exits with that number, except that 0 exits with 1 |
| Git.ExitForText | versionify/versionify_main.py:93-98 | a status that is not a number after stripping exits with the stripped text as message |
| Classify.NewlineIndices | versionify/versionify_main.py:128-134 | the line ends are exactly the newline positions, increasing |
| Classify.FirstNewline | versionify/versionify_main.py:133 | `list.index("\n")` on the clone: the first newline still in it |
| Classify.ScanLineEnds | versionify/versionify_main.py:128-134 | the loop that finds a newline and overwrites it with `x` collects exactly NewlineIndices |
| Classify.FindBreakingLine | versionify/versionify_main.py:135-141 | the loop finds a line end whose next 16 characters, lowered, hold `breaking change` exactly when one exists |
| Classify.BreakingAtLine | versionify/versionify_main.py:136 | a 16-character window starting at a newline holds `breaking change` exactly when it is the newline followed by those 15 characters in any case |
| Classify.IsBreakingIff | versionify/versionify_main.py:128-141 | a commit is breaking exactly when some newline of its message is followed by `breaking change` in any case |
| Classify.CommitTypeScoped | versionify/versionify_main.py:127-130 | the type of `kind(...` is kind |
| Classify.CommitTypeUnscoped | versionify/versionify_main.py:127-130 | without `(`, find gives -1 and the type is the summary minus its last character |
| Classify.IsPatchKeyword | versionify/versionify_main.py:147-151 | the keyword loop succeeds exactly for the seven patch keywords |
| Classify.CommitStep | versionify/versionify_main.py:126-155 | one pass of the loop body computes Step on the version, the three flags and the warning count |
| Classify.WalkAppend | versionify/versionify_main.py:125 | walking one more commit is one more Step |
| Classify.WalkFresh | versionify/versionify_main.py:125-155 | from a state with neither major nor minor done, the walk ends in the version Increment describes and warns once when the first commit falls through to an unknown type |
| Classify.WalkAfterBump | versionify/versionify_main.py:136-145 | once major or minor is done, only a first breaking change and `feat` commits have an effect, and no warning is printed |
| Classify.WalkIsIncrement | versionify/versionify_main.py:121-155 | the whole loop from the last version gives Increment, with one format warning exactly when WarnsFormat holds |
| Classify.IncrementGrows | versionify/versionify_main.py:116-156 | with at least one relevant commit the new version is strictly greater than the last |
| Classify.IncrementMajor | versionify/versionify_main.py:136-140 | major rises by one exactly when some commit is breaking |
| Classify.IncrementPatch | versionify/versionify_main.py:138-153 | patch rises by at most one, and is reset whenever major or minor moves |
| Classify.FeatAlwaysCounts | versionify/versionify_main.py:142-145 | without a breaking change every `feat` commit raises minor, even after minor was raised |
| Classify.MinorBumpsCoverFeats | versionify/versionify_main.py:142-145 | the minor rise counts at least every `feat` commit |
| Classify.SecondFeatureIgnored | versionify/versionify_main.py:142 | a second `feature` commit is ignored once minor is done: two give minor + 1 |
| Classify.OrderMatters | versionify/versionify_main.py:136-145 | a `feat` older than a breaking change is lost when major resets minor; a newer one is counted after it |
| Classify.SingleBreaking | versionify/versionify_main.py:136-140 | one breaking non-`feat` commit gives major + 1 with minor and patch 0 |
| Changelog.ChangelogEntriesAt | versionify/versionify_main.py:206-207 | one entry per commit, oldest first: entry k is `summary (hash[:7])` of commit k counted from the oldest |
| Changelog.ChangelogEntriesOlder | versionify/versionify_main.py:206-207 | an older commit puts its entry in front |
| TagScan.ScanCandidates | versionify/versionify_main.py:39-51 | the versions collected are exactly the version tags reachable from HEAD (pre-releases only when included), each with its own three numbers |
| TagScan.ScanUnsynced | versionify/versionify_main.py:49-56 | not_synced is set exactly when some counted version tag is off HEAD; the tag remembered is the last such tag scanned |
| TagScan.ScanPreFlag | versionify/versionify_main.py:46-58 | the pre-release flag is that of the last version-shaped name scanned |
| TagScan.FirstMaxIndex | versionify/versionify_main.py:60-61 | `max` and then `.index`: a greatest version, the first of the equal greatest |
| TagScan.ScanStepFlags | versionify/versionify_main.py:46-56 | one loop step sets not_synced and unsynced_tag exactly for an unsynced release tag, and the pre-release flag exactly for a version-shaped name |
| TagScan.ScanStepAppends | versionify/versionify_main.py:47-51 | one loop step appends the tag and its three numbers exactly when it is a candidate |
| TagScan.ScanPositions | versionify/versionify_main.py:39-51 | the scanned versions and their triples are the candidates in the order the reversed loop meets them, each at a tag index |
| TagScan.FirstMaxIsLast | versionify/versionify_main.py:60-61 | in a list ordered by falling index, the first greatest entry is greater than every entry of higher index |
| TagScan.ScanChoice | versionify/versionify_main.py:59-64 | the entry `.index` picks is a candidate tag, listed beside its own triple |
| TagScan.ScanChoiceBounds | versionify/versionify_main.py:59-64 | no candidate exceeds the entry `.index` picks, and every candidate listed after it is smaller |
| TagScan.ChosenIsGreatest | versionify/versionify_main.py:59-64 | when a candidate exists, last_tag is a candidate that no candidate exceeds, and major, minor and patch are its numbers; of equally greatest candidates the one listed last is chosen, since every candidate after it is smaller |
| TagScan.NothingChosen | versionify/versionify_main.py:59-64 | without a candidate only not_synced changes |
| TagScan.NoCandidateExits | versionify/versionify_main.py:99-100 | no tag selected, no last tag, the last version-shaped name scanned no pre-release, and no unsynced release tag on a branch: exit naming the active branch, whether or not version tags exist |
| TagScan.NoVersionTags | versionify/versionify_main.py:99-100 | no version-shaped tag and no last tag: exit naming the active branch |
| TagScan.ReleasesOffEveryBranch | versionify/versionify_main.py:99-100 | release tags that are all off HEAD and on no branch, without `-r`, exit as if there were no version tags |
| TagScan.BranchesNotSynced | versionify/versionify_main.py:85-88 | an unsynced release tag on some branch exits, naming its commit and the first branch holding it |
| TagScan.LookupContinues | versionify/versionify_main.py:84-102 | a reachable version tag and no unsynced one: the lookup returns normally |
| TagScan.PreReleaseHint | versionify/versionify_main.py:101-102 | when the last name scanned is a pre-release and a tag is unsynced, the exit names that name's letters for `-r` |
| TagScan.OnlyPreReleasesContinue | versionify/versionify_main.py:99-102 | when every version tag is a pre-release and they are not included, the lookup returns normally with no last tag |
| PreRelease.LabelScanFinds | versionify/versionify_main.py:220-227 | the tags collected are exactly those whose name contains the prefix, each with the number the search finds in it |
| PreRelease.PassedUnlabelledIff | versionify/versionify_main.py:221-223 | `done = False` is set exactly when some tag lacks the prefix |
| PreRelease.CollectLabelled | versionify/versionify_main.py:218-227 | the loop fails (AttributeError) exactly when a tag with the prefix has no letters-digits run; otherwise it collects LabelScanFrom, and leaves `done` unbound exactly when every tag has the prefix |
| PreRelease.FirstMaxNat | versionify/versionify_main.py:229-230 | the first position of the greatest pre-release number |
| PreRelease.LabelScanPositions | versionify/versionify_main.py:220-227 | the tags collected are the labelled tags in the order the reversed loop meets them, each with its own number |
| PreRelease.FirstMaxNatIsLast | versionify/versionify_main.py:229-230 | in a list ordered by falling index, the first greatest number is greater than every number of higher index |
| PreRelease.ReleaseNameUnlabelled | versionify/versionify_main.py:221 | the name of a release contains no prefix made of letters |
| PreRelease.LabelChoice | versionify/versionify_main.py:228-230 | the entry max and `.index` pick is a labelled tag with its own number, no labelled tag has a greater one, and every labelled tag after it has a smaller one |
| PreRelease.ChosenHasGreatestNumber | versionify/versionify_main.py:228-230 | a tag is chosen exactly when one carries the prefix; its number is the greatest among them, and of tags with equal greatest numbers the one listed last is chosen, since every labelled tag after it has a smaller number |
| PreRelease.NextOnTrack | versionify/versionify_main.py:233-234 | continuing a track gives `version + letters + (n + 1)`, which the tag pattern reads as the same release with those letters, numbered n + 1 |
| PreRelease.StemOfTrackTag | versionify/versionify_main.py:231-234 | the part of `version + letters + n` before the letters is the version |
| PreRelease.NewTrack | versionify/versionify_main.py:231-232 | a new version that differs from the stem starts `new_version + letters + 1`, which parses as that release, numbered 1 |
| PreRelease.PreReleaseSyncExits | versionify/versionify_main.py:237-242 | the call goes on exactly when the chosen tag is reachable from HEAD; otherwise it exits, naming the first branch holding it |
| Versionify.Repository.constructor | versionify/versionify_main.py:10-19 | every field starts empty |
| Versionify.Repository.ScanTags | versionify/versionify_main.py:34-58 | the scan loop computes Scan and sets not_synced from it |
| Versionify.Repository.ChooseLastTag | versionify/versionify_main.py:59-64 | last_tag and the three numbers are set as AfterScan says |
| Versionify.Repository.InitialTag | versionify/versionify_main.py:66-83 | creates the first tag, with the changelog of all HEAD commits unless disabled, repeats the lookup and exits 0; a git error is handled as HandleGitError says |
| Versionify.Repository.CheckLookup | versionify/versionify_main.py:84-102 | how a lookup without `initial` ends, as NormalOutcome says |
| Versionify.Repository.TagLookup | versionify/versionify_main.py:21-102 | the whole of `tag_lookup`: the new fields, the tags created and the outcome on every path, including the scan's fields when creating the initial tag fails |
| Versionify.Repository.FindRelevantCommits | versionify/versionify_main.py:104-114 | the relevant commits are those newer than the last tag's commit; none left exits with "There are no new commits" |
| Versionify.Repository.WalkCommits | versionify/versionify_main.py:125-155 | the loop leaves major, minor and patch at Increment of the old version and counts the format warning |
| Versionify.Repository.IncreaseVersion | versionify/versionify_main.py:116-156 | the version becomes Increment of the old one and new_version is its name |
| Versionify.Repository.IncreaseMajor | versionify/versionify_main.py:158-165 | major + 1, minor and patch 0, and new_version is its name; nothing else changes |
| Versionify.Repository.IncreaseMinor | versionify/versionify_main.py:167-173 | minor + 1 and patch 0, and new_version is its name; nothing else changes |
| Versionify.Repository.IncreasePatch | versionify/versionify_main.py:175-180 | patch + 1, and new_version is its name; nothing else changes |
| Versionify.Repository.AddTag | versionify/versionify_main.py:182-200 | a tag named new_version is added on HEAD with the message; a git error is handled as HandleGitError says and the repository is unchanged |
| Versionify.Repository.CreateChangelog | versionify/versionify_main.py:202-207 | the changelog gains the entries of the relevant commits, oldest first |
| Versionify.Repository.FollowTrack | versionify/versionify_main.py:228-242 | new_version becomes NextPreRelease of the chosen tag's stem and number; last_tag is the chosen tag; the call ends as PreReleaseSync says |
| Versionify.Repository.StartTrack | versionify/versionify_main.py:243-247 | without a tag of the prefix, the prefix and 1 are appended to new_version, after increase_version when none was computed |
| Versionify.Repository.IncreasePreRelease | versionify/versionify_main.py:209-247 | the whole of `increase_pre_release`: an AttributeError or an unbound `done` leaves everything unchanged; otherwise the chosen tag's track is continued or a new one starts, as above |
| Scenarios.ScopedOneLine | tests/versionify_test.py:59-63 | a one-line commit `kind(...` is not breaking and has type kind |
| Scenarios.ScopedBreaking | tests/versionify_test.py:65 | a commit `kind(...` with a `BREAKING CHANGE` second line is breaking and has type kind |
| Scenarios.UnscopedOneLine | tests/versionify_test.py:187-189 | a one-line commit without `(` is not breaking and its type is the summary minus its last character |
| Scenarios.DefaultVersioningMajor | tests/versionify_test.py:50-92 | a breaking `docs` and a `feature` commit after 4.6.3 give 5.0.0 without a warning |
| Scenarios.DefaultVersioningMinor | tests/versionify_test.py:94-131 | `feature` and `style` after 1.0.0 give 1.1.0, and `2.0.0-rc` is no version tag |
| Scenarios.DefaultVersioningPatch | tests/versionify_test.py:133-173 | `docs` and `refactor` after 4.6.3 give 4.6.4 without a warning |
| Scenarios.DefaultVersioningWrongFormat | tests/versionify_test.py:175-215 | two commits of no known type after 21.3.12 give 21.3.13 and the format warning |
| Scenarios.PreReleaseMajor | tests/versionify_test.py:449-487 | new version 5.0.0 against the `rc` track of 4.7.0 starts 5.0.0rc1 |
| Scenarios.PreReleaseVersioning | tests/versionify_test.py:520-555 | after 4.7.0rc20 comes 4.7.0rc21, read as release 4.7.0 with letters `rc` |
| Scenarios.PreReleaseVersioningLabels | tests/versionify_test.py:520-555 | 4.6.3 does not contain `rc`; 4.6.3rc1 and 4.7.0rc20 contain it with the numbers 1 and 20 |
| Scenarios.ChooseOfThree | versionify/versionify_main.py:218-230 | of an unlabelled tag and two labelled ones numbered n1 < n2, the one numbered n2 is chosen and its track continues at n2 + 1 |
| Scenarios.PreReleaseVersioningChoice | tests/versionify_test.py:520-555 | on the test's whole tag list [4.6.3, 4.6.3rc1, 4.7.0rc20] the tag chosen is 4.7.0rc20 and the next name is 4.7.0rc21 |
| Scenarios.MultiDigitPreRelease | tests/versionify_test.py:1032-1063 | after 0.0.2rc11 comes 0.0.2rc12 |
| Scenarios.MultiDigitNumbers | tests/versionify_test.py:1032-1063 | the numbers of 0.0.2rc11 and 0.0.2rc2 are 11 and 2, so they compare as numbers |
| Scenarios.PreReleaseNotSyncedLabels | tests/versionify_test.py:779-834 | 0.0.1 does not contain `rc`; 0.0.2rc1 and 0.0.2rc2 contain it with the numbers 1 and 2 |
| Scenarios.PreReleaseNotSyncedChoice | tests/versionify_test.py:779-834 | on the test's tags [0.0.1, 0.0.2rc1, 0.0.2rc2] the tag chosen is 0.0.2rc2, number 2 |
| Scenarios.PreReleaseNotSyncedExit | tests/versionify_test.py:779-834 | with HEAD on dev (F, D, C) and master holding E, a tag on E exits with the rebase message naming master |
| Scenarios.PreReleaseNotSynced | tests/versionify_test.py:779-834 | on the test's whole repository (three tags, dev and master) 0.0.2rc2 is chosen and the call exits with `Pre-Release-Versions not synced (E missing in HEAD). Please rebase onto master` |

A commit of an unrecognised type falls back at versionify_main.py:152-155 and sets
`patch_done`, so such commits raise patch at most once per run (`Classify.WalkIsIncrement`,
`Classify.IncrementPatch`).

## Left out

- The command-line controller (`controller`, `main`, argparse), and every `print` except the
  counted format warning are not modelled. They are I/O around the class. The one `exit(0)`
  of the class (line 81, after the initial tag) is modelled as the outcome `ExitCode(0)`.
- The stderr line written when a git command fails (line 92, `lstrip("error: ")`) is not
  modelled, because it is output only.
- GitPython is represented by a snapshot: the tag list, the commits of `iter_commits("HEAD")`
  newest first, the branches with their histories, and the active branch's name. Tag and
  commit objects are values with an identity field; `create_tag` appends a tag on HEAD.
  GitPython's own errors other than a `GitCommandError` from `create_tag` are not modelled.
- The `GitCommandError` of `create_tag` is an input of AddTag, InitialTag and TagLookup,
  because whether git fails cannot be seen from the code.
- `\d`, `str.isdigit` and `str.lower` are modelled on ASCII only; Unicode digits and case
  mappings outside ASCII are not.
- Versionify.Repository.FindRelevantCommits: requires a last tag whose commit is reachable
  from HEAD. Without one Python raises an AttributeError or a ValueError, which is not modelled.
- Versionify.Repository.IncreaseMajor, IncreaseMinor, IncreasePatch, WalkCommits and
  IncreaseVersion: require the version fields to be set. With `None` Python raises a
  TypeError, which is not modelled.
- Versionify.Repository.StartTrack: requires relevant commits and a version when new_version
  is unset, for the same reason (it calls increase_version).
- Versionify.Repository.AddTag: requires new_version to be set, and a HEAD commit when git
  does not fail.
- Versionify.Repository.IncreasePreRelease: with an empty tag list `done` is unbound
  (UnboundLocalError); this is modelled as an outcome, as is the AttributeError of line 225.
  The case of new_version unset with no tag of the prefix needs the preconditions of
  StartTrack.
- Scenarios: the test repositories' commits are stated by their properties (breaking or not,
  their type). ScopedOneLine, ScopedBreaking and UnscopedOneLine prove that the tests'
  commits have those properties. The mocks' own behaviour is not modelled.
