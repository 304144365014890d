/** The part of a git repository the engine reads (versionify/versionify_main.py uses
    GitPython's `Repo`): tags, the commits reachable from HEAD, the local branches and the
    name of the active branch; and how a process ends. */
module Git {
  import opened Wrappers
  import opened Text

  /** A commit object. `id` stands for the object's identity: two commits with the same
      summary, message and hash are still two commits. */
  datatype Commit = Commit(id: nat, summary: string, message: string, hexsha: string)

  /** A tag: its name (`str(tag)`), the commit it points at and its annotation. */
  datatype Tag = Tag(name: string, commit: Commit, message: Option<string>)

  /** A local branch (`repo.heads`): its name and the commits reachable from it. */
  datatype Branch = Branch(name: string, history: seq<Commit>)

  /** `repo.tags` in the repository's order, `iter_commits("HEAD")` newest first,
      `repo.heads` and `str(repo.active_branch)`. */
  datatype RepoSnapshot = RepoSnapshot(tags: seq<Tag>, head: seq<Commit>, heads: seq<Branch>,
                                       activeBranch: string)

  /** A `git.GitCommandError` raised by `create_tag`: what it carries that the engine reads. */
  datatype GitCommandError = GitCommandError(stderr: string, status: string)

  /** How a call ends: it returns normally, `sys.exit` with a message (exit status 1),
      `exit`/`sys.exit` with a number, or an exception escapes it. */
  datatype Outcome = Continue | Exit(message: string) | ExitCode(code: nat) | Raised(exception: string)

  /** `list.index`: the position of the first occurrence of c. */
  function IndexOf(xs: seq<Commit>, c: Commit): (k: nat)
    requires c in xs
    ensures k < |xs| && xs[k] == c && c !in xs[..k]
  {
    if xs[0] == c then 0
    else
      var k := 1 + IndexOf(xs[1..], c);
      assert xs[..k] == [xs[0]] + xs[1..][..k - 1];
      k
  }

  /** The indices of tags[i..] that `keep` accepts, last index first: the order in which a
      `for tag in reversed(tags)` loop meets them. */
  function KeptPositions(tags: seq<Tag>, keep: Tag -> bool, i: nat): (ps: seq<nat>)
    requires i <= |tags|
    ensures forall k :: 0 <= k < |ps| ==> i <= ps[k] < |tags| && keep(tags[ps[k]])
    ensures forall k, l :: 0 <= k < l < |ps| ==> ps[l] < ps[k]
    ensures forall j :: i <= j < |tags| && keep(tags[j]) ==> j in ps
    decreases |tags| - i
  {
    if i == |tags| then []
    else
      var ps := KeptPositions(tags, keep, i + 1);
      if keep(tags[i]) then ps + [i] else ps
  }

  /** The first branch of `heads` whose history contains c, as the `for head in
      self.repo.heads` loops at lines 86-88 and 239-241 find it. */
  function FirstHeadIndex(heads: seq<Branch>, c: Commit): (r: Option<nat>)
    ensures r.Some? ==> r.value < |heads| && c in heads[r.value].history
    ensures r.Some? ==> forall j :: 0 <= j < r.value ==> c !in heads[j].history
    ensures r.None? <==> forall j :: 0 <= j < |heads| ==> c !in heads[j].history
  {
    if |heads| == 0 then None
    else if c in heads[0].history then Some(0)
    else
      match FirstHeadIndex(heads[1..], c)
      case None => None
      case Some(k) => Some(k + 1)
  }

  /** The branch loop itself: the branches are tried in order and the first one that
      contains c ends the search. */
  method FindHeadContaining(heads: seq<Branch>, c: Commit) returns (r: Option<nat>)
    ensures r == FirstHeadIndex(heads, c)
  {
    var i := 0;
    while i < |heads|
      invariant 0 <= i <= |heads|
      invariant forall j :: 0 <= j < i ==> c !in heads[j].history
    {
      if c in heads[i].history {
        return Some(i);
      }
      i := i + 1;
    }
    return None;
  }

  /** The number of digits immediately before position `to`. */
  function DigitsBefore(s: string, to: nat): (n: nat)
    requires to <= |s|
    ensures n <= to && forall x :: to - n <= x < to ==> IsDigit(s[x])
    ensures n < to ==> !IsDigit(s[to - n - 1])
  {
    if to == 0 || !IsDigit(s[to - 1]) then 0 else 1 + DigitsBefore(s, to - 1)
  }

  /** Where `\((\d+)?\)$` can end: on the last character, or on the one before a final
      newline, which `$` also accepts. */
  function CloseParen(s: string): Option<nat>
  {
    if |s| > 0 && s[|s| - 1] == ')' then Some(|s| - 1)
    else if |s| > 1 && s[|s| - 1] == '\n' && s[|s| - 2] == ')' then Some(|s| - 2)
    else None
  }

  /** re.sub(r'\((\d+)?\)$', r'\1', status): a parenthesised run of digits at the end is
      replaced by the digits (by nothing for "()"); anything else is left alone. */
  function StripStatusParens(s: string): (r: string)
  {
    match CloseParen(s)
    case None => s
    case Some(p) =>
      var d := DigitsBefore(s, p);
      if d < p && s[p - d - 1] == '(' then s[..p - d - 1] + s[p - d..p] + s[p + 1..] else s
  }

  /** Lines 93-98 (and 195-200): the exit a non-debug GitCommandError turns into. "0"
      becomes status 1, a string of digits its number, anything else the exit message. */
  function ExitForStatus(status: string): (o: Outcome)
    ensures o.Exit? || o.ExitCode?
  {
    var t := StripStatusParens(status);
    if t == "0" then ExitCode(1)
    else if |t| > 0 && AllDigits(t) then ExitCode(DigitsToNat(t))
    else Exit(t)
  }

  /** The `except git.GitCommandError` handler: re-raised under debug, else an exit. */
  function HandleGitError(err: GitCommandError, debug: bool): (o: Outcome)
    ensures debug <==> o == Raised("GitCommandError")
    ensures !debug ==> o == ExitForStatus(err.status)
  {
    if debug then Raised("GitCommandError") else ExitForStatus(err.status)
  }

  /** A status ending in a parenthesised number loses the parentheses, keeps the rest. */
  lemma StripParenthesised(prefix: string, digits: string)
    requires AllDigits(digits)
    ensures StripStatusParens(prefix + "(" + digits + ")") == prefix + digits
  {
    var s := prefix + "(" + digits + ")";
    var p := |s| - 1;
    var q := |prefix| + 1;
    assert CloseParen(s) == Some(p);
    forall x | q <= x < p
      ensures IsDigit(s[x])
    {
      assert s[x] == digits[x - q];
    }
    DigitsBeforeIs(s, p, |digits|);
    assert s[..q - 1] == prefix && s[q..p] == digits && s[p + 1..] == [];
  }

  /** DigitsBefore counts exactly a digit run bounded by a non-digit. */
  lemma {:induction false} DigitsBeforeIs(s: string, to: nat, n: nat)
    requires n <= to <= |s| && forall x :: to - n <= x < to ==> IsDigit(s[x])
    requires n == to || !IsDigit(s[to - n - 1])
    ensures DigitsBefore(s, to) == n
    decreases n
  {
    if n > 0 {
      DigitsBeforeIs(s, to - 1, n - 1);
    }
  }

  /** A status without a closing parenthesis at its end is left as it is. */
  lemma StripWithoutParen(s: string)
    requires |s| == 0 || (s[|s| - 1] != ')' && s[|s| - 1] != '\n')
    ensures StripStatusParens(s) == s
  {
  }

  /** A numeric status, bare or in parentheses, exits with that number, except that 0
      exits with 1. */
  lemma {:induction false} ExitForNumber(n: nat, parenthesised: bool)
    ensures var s := NatToString(n);
            ExitForStatus(if parenthesised then "(" + s + ")" else s) == ExitCode(if n == 0 then 1 else n)
  {
    var s := NatToString(n);
    if parenthesised {
      StripParenthesised("", s);
      assert "" + "(" + s + ")" == "(" + s + ")";
    } else {
      assert IsDigit(s[|s| - 1]);
      StripWithoutParen(s);
    }
    if n == 0 {
      assert s == "0";
    } else {
      assert DigitsToNat(s) != DigitsToNat("0");
    }
  }

  /** A status that is not a string of digits once stripped becomes the exit message. */
  lemma ExitForText(status: string)
    requires !AllDigits(StripStatusParens(status)) || StripStatusParens(status) == ""
    ensures ExitForStatus(status) == Exit(StripStatusParens(status))
  {
  }
}
