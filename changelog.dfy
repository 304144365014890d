/** The changelog lines `create_changelog` writes (versionify/versionify_main.py:202-207). */
module Changelog {
  import opened Text
  import opened Git

  /** f"{commit.summary} ({commit.hexsha[:7]})". */
  function Entry(c: Commit): string
  {
    c.summary + " (" + c.hexsha[..Min(7, |c.hexsha|)] + ")"
  }

  /** The entries for commits listed newest first, written oldest first. */
  function ChangelogEntries(cs: seq<Commit>): seq<string>
  {
    if |cs| == 0 then [] else ChangelogEntries(cs[1..]) + [Entry(cs[0])]
  }

  /** One entry per commit, the k-th for the k-th oldest commit. */
  lemma {:induction false} ChangelogEntriesAt(cs: seq<Commit>)
    ensures |ChangelogEntries(cs)| == |cs|
    ensures forall k :: 0 <= k < |cs| ==> ChangelogEntries(cs)[k] == Entry(cs[|cs| - 1 - k])
  {
    if |cs| > 0 {
      ChangelogEntriesAt(cs[1..]);
    }
  }

  /** Adding an older commit at the end of a newest-first list puts its entry first. */
  lemma {:induction false} ChangelogEntriesOlder(cs: seq<Commit>, c: Commit)
    ensures ChangelogEntries(cs + [c]) == [Entry(c)] + ChangelogEntries(cs)
    decreases |cs|
  {
    if |cs| == 0 {
      assert [c][1..] == [];
    } else {
      assert (cs + [c])[1..] == cs[1..] + [c];
      ChangelogEntriesOlder(cs[1..], c);
    }
  }
}
