/** Which rollout answers for each account (`latest_rate_limits_in`,
    src-tauri/src/codex_rollouts.rs): a newest-first pass with early exit and a bound
    on the attempts per account.

    The listing arrives newest first; what a rollout's tail holds is any function of
    its path. */
module RateLimits {
  import opened Bytes
  import opened Wrappers

  const RATE_LIMIT_ROLLOUTS: nat := 5

  type Path = nat
  type ThreadId = nat
  type AccountId = nat

  /** An account; `None` is the Default one. */
  type Account = Option<AccountId>

  datatype Meta = Meta(thread: ThreadId, parent: Option<ThreadId>)

  /** What attribution and reading need: each rollout's first line, each thread's
      account, and each rollout's last snapshot. */
  datatype Sources<L> = Sources(metas: map<Path, Meta>, bound: map<ThreadId, AccountId>, snapshot: Path -> Option<L>)
  {
    /** The thread's own account, else its parent's, else the Default one. */
    function AccountOf(path: Path): Account {
      if path !in metas then None
      else if metas[path].thread in bound then Some(bound[metas[path].thread])
      else if metas[path].parent.Some? && metas[path].parent.value in bound then Some(bound[metas[path].parent.value])
      else None
    }

    /** As computed: with nothing bound, no rollout's first line is looked at. */
    function Attributed(path: Path): (account: Account)
      ensures account == AccountOf(path)
    {
      if bound == map[] then None else AccountOf(path)
    }
  }

  /** A rollout counts for the account its thread is bound to, else, for a subagent of no
      account of its own, its parent's; one without a first line, or with neither bound,
      for the Default account. */
  lemma AccountIs<L>(src: Sources<L>, path: Path)
    ensures forall a :: src.AccountOf(path) == Some(a) <==>
      && path in src.metas
      && var meta := src.metas[path];
         || (meta.thread in src.bound && src.bound[meta.thread] == a)
         || (meta.thread !in src.bound && exists p :: meta.parent == Some(p) && p in src.bound && src.bound[p] == a)
    ensures src.AccountOf(path) == None <==>
      path in src.metas ==>
        && src.metas[path].thread !in src.bound
        && forall p :: src.metas[path].parent == Some(p) ==> p !in src.bound
  {
  }

  // ── What is asked for ─────────────────────────────────────────────────────

  /** An account's rollouts, newest first. */
  function Own<L>(src: Sources<L>, a: Account, paths: seq<Path>): seq<Path> {
    if paths == [] then []
    else
      var newer := Own(src, a, paths[..|paths| - 1]);
      if src.AccountOf(paths[|paths| - 1]) == a then newer + [paths[|paths| - 1]] else newer
  }

  function Recent<L>(src: Sources<L>, a: Account, paths: seq<Path>): seq<Path> {
    var own := Own(src, a, paths);
    own[..Min(RATE_LIMIT_ROLLOUTS, |own|)]
  }

  /** The snapshot of the first rollout that has one. */
  function Newest<L>(src: Sources<L>, paths: seq<Path>): Option<L> {
    if paths == [] then None
    else
      var newer := Newest(src, paths[..|paths| - 1]);
      if newer.Some? then newer else src.snapshot(paths[|paths| - 1])
  }

  function Answer<L>(src: Sources<L>, a: Account, paths: seq<Path>): Option<L> {
    Newest(src, Recent(src, a, paths))
  }

  /** `Newest` is the first snapshot in the list: none before it has one. */
  lemma {:induction false} NewestMeaning<L>(src: Sources<L>, paths: seq<Path>)
    ensures Newest(src, paths).None? <==> forall k :: 0 <= k < |paths| ==> src.snapshot(paths[k]).None?
    ensures Newest(src, paths).Some? ==>
      exists k :: 0 <= k < |paths| && src.snapshot(paths[k]) == Newest(src, paths)
                  && forall j :: 0 <= j < k ==> src.snapshot(paths[j]).None?
  {
    if paths != [] {
      var newer, last := paths[..|paths| - 1], |paths| - 1;
      NewestMeaning(src, newer);
      assert forall j :: 0 <= j < last ==> newer[j] == paths[j];
      if Newest(src, newer).Some? {
        var k :| 0 <= k < |newer| && src.snapshot(newer[k]) == Newest(src, newer)
                 && forall j :: 0 <= j < k ==> src.snapshot(newer[j]).None?;
        assert src.snapshot(paths[k]) == Newest(src, paths);
      }
    }
  }

  // ── One more rollout ──────────────────────────────────────────────────────

  lemma NewestStep<L>(src: Sources<L>, paths: seq<Path>, p: Path)
    ensures Newest(src, paths + [p]) == if Newest(src, paths).Some? then Newest(src, paths) else src.snapshot(p)
  {
    assert (paths + [p])[..|paths|] == paths;
  }

  lemma OwnStep<L>(src: Sources<L>, a: Account, paths: seq<Path>, p: Path)
    ensures Own(src, a, paths + [p]) == if src.AccountOf(p) == a then Own(src, a, paths) + [p] else Own(src, a, paths)
  {
    assert (paths + [p])[..|paths|] == paths;
  }

  /** A rollout changes only its own account's answer, only while that has none, and
      only within the account's newest few. */
  lemma AnswerStep<L>(src: Sources<L>, a: Account, paths: seq<Path>, p: Path)
    ensures var before := Answer(src, a, paths);
      Answer(src, a, paths + [p]) ==
        if src.AccountOf(p) == a && before.None? && |Own(src, a, paths)| < RATE_LIMIT_ROLLOUTS
        then src.snapshot(p) else before
  {
    OwnStep(src, a, paths, p);
    var own := Own(src, a, paths);
    if src.AccountOf(p) == a {
      if |own| < RATE_LIMIT_ROLLOUTS {
        assert Recent(src, a, paths + [p]) == own + [p] && Recent(src, a, paths) == own;
        NewestStep(src, own, p);
      } else {
        assert Recent(src, a, paths + [p]) == Recent(src, a, paths);
      }
    }
  }

  /** An answer once found is the answer, however many older rollouts follow. */
  lemma {:induction false} AnswerStays<L>(src: Sources<L>, a: Account, paths: seq<Path>, older: seq<Path>)
    requires Answer(src, a, paths).Some?
    ensures Answer(src, a, paths + older) == Answer(src, a, paths)
    decreases |older|
  {
    if older == [] {
      assert paths + older == paths;
    } else {
      var last := |older| - 1;
      AnswerStays(src, a, paths, older[..last]);
      AnswerStep(src, a, paths + older[..last], older[last]);
      assert paths + older == paths + older[..last] + [older[last]];
    }
  }

  // ── The pass ──────────────────────────────────────────────────────────────

  predicate Wanted(a: Account, accounts: seq<AccountId>) {
    a.None? || a.value in accounts
  }

  /** The Default account, then the given ones. */
  function Listed(accounts: seq<AccountId>): (listed: seq<Account>)
    ensures forall a :: a in listed <==> Wanted(a, accounts)
    ensures |listed| == 1 + |accounts|
  {
    var given := seq(|accounts|, i requires 0 <= i < |accounts| => Some(accounts[i]));
    assert forall id :: id in accounts ==> Some(id) in given by {
      forall id | id in accounts
        ensures Some(id) in given
      {
        var i :| 0 <= i < |accounts| && accounts[i] == id;
        assert given[i] == Some(id);
      }
    }
    assert forall a :: a in given ==> a.Some? && a.value in accounts;
    var listed := [None] + given;
    assert listed[0] == None;
    assert forall a :: Wanted(a, accounts) ==> a in listed by {
      forall a | Wanted(a, accounts)
        ensures a in listed
      {
        assert a.Some? ==> Some(a.value) in given;
      }
    }
    listed
  }

  lemma {:induction false} SizeOfMembers(found: set<Account>, listed: seq<Account>)
    requires forall x :: x in found ==> x in listed
    ensures |found| <= |listed|
  {
    if listed == [] {
      assert found == {};
    } else {
      var last, rest := listed[|listed| - 1], listed[..|listed| - 1];
      assert listed == rest + [last];
      SizeOfMembers(found - {last}, rest);
    }
  }

  /** As many distinct accounts as there are entries in a list that holds them all: all
      of them. */
  lemma FillsTheList(found: set<Account>, listed: seq<Account>, a: Account)
    requires forall x :: x in found ==> x in listed
    requires |found| >= |listed| && a in listed
    ensures a in found
  {
    if a !in found {
      SizeOfMembers(found + {a}, listed);
    }
  }

  /** What the pass knows of an account after some of the rollouts. */
  ghost predicate Knows<L>(
    src: Sources<L>, a: Account, seen: seq<Path>, found: map<Account, L>, tried: map<Account, nat>)
  {
    if a in found then Answer(src, a, seen) == Some(found[a])
    else
      && Answer(src, a, seen).None?
      && Attempts(tried, a) == Min(RATE_LIMIT_ROLLOUTS, |Own(src, a, seen)|)
  }

  function Attempts(tried: map<Account, nat>, a: Account): nat {
    if a in tried then tried[a] else 0
  }

  /** The entry an account gets: its answer, else the default. */
  function Limits<L>(src: Sources<L>, a: Account, paths: seq<Path>, default: L): L {
    var answer := Answer(src, a, paths);
    if answer.Some? then answer.value else default
  }

  /** The pass over the listing: for every wanted account, its answer over all of it. */
  method Collect<L>(src: Sources<L>, paths: seq<Path>, accounts: seq<AccountId>) returns (found: map<Account, L>)
    ensures forall a :: a in found ==> Wanted(a, accounts)
    ensures forall a :: Wanted(a, accounts) ==>
      if a in found then Answer(src, a, paths) == Some(found[a]) else Answer(src, a, paths).None?
  {
    found := map[];
    var tried: map<Account, nat> := map[];
    var i := 0;
    while i < |paths|
      invariant i <= |paths|
      invariant forall a :: a in found ==> Wanted(a, accounts)
      invariant forall a :: Wanted(a, accounts) ==> Knows(src, a, paths[..i], found, tried)
    {
      if |found| == 1 + |accounts| {
        Complete(src, paths, i, accounts, found, tried);
        return;
      }
      assert paths[..i + 1] == paths[..i] + [paths[i]];
      found, tried := Consider(src, paths[..i], paths[i], accounts, found, tried);
      i := i + 1;
    }
    assert paths[..i] == paths;
  }

  /** One rollout: skipped when its account is not wanted, already answered or out of
      attempts; otherwise an attempt, which may answer. */
  method Consider<L>(
    src: Sources<L>, ghost seen: seq<Path>, path: Path, accounts: seq<AccountId>,
    found: map<Account, L>, tried: map<Account, nat>)
    returns (nowFound: map<Account, L>, nowTried: map<Account, nat>)
    requires forall a :: a in found ==> Wanted(a, accounts)
    requires forall a :: Wanted(a, accounts) ==> Knows(src, a, seen, found, tried)
    ensures forall a :: a in nowFound ==> Wanted(a, accounts)
    ensures forall a :: Wanted(a, accounts) ==> Knows(src, a, seen + [path], nowFound, nowTried)
  {
    nowFound, nowTried := found, tried;
    var account := src.Attributed(path);
    if Wanted(account, accounts) && account !in found {
      var attempts := Attempts(tried, account);
      if attempts < RATE_LIMIT_ROLLOUTS {
        nowTried := tried[account := attempts + 1];
        var limits := src.snapshot(path);
        if limits.Some? {
          nowFound := found[account := limits.value];
        }
      }
    }
    forall a | Wanted(a, accounts)
      ensures Knows(src, a, seen + [path], nowFound, nowTried)
    {
      assert Knows(src, a, seen, found, tried);
      AnswerStep(src, a, seen, path);
      OwnStep(src, a, seen, path);
    }
  }

  /** Leaving early is safe: with as many answers as were wanted, every wanted account has its own. */
  lemma Complete<L>(
    src: Sources<L>, paths: seq<Path>, i: nat, accounts: seq<AccountId>, found: map<Account, L>, tried: map<Account, nat>)
    requires i <= |paths| && |found| == 1 + |accounts|
    requires forall a :: a in found ==> Wanted(a, accounts)
    requires forall a :: Wanted(a, accounts) ==> Knows(src, a, paths[..i], found, tried)
    ensures forall a :: Wanted(a, accounts) ==> a in found && Answer(src, a, paths) == Some(found[a])
  {
    assert paths[..i] + paths[i..] == paths;
    assert |found.Keys| == |Listed(accounts)|;
    forall a | Wanted(a, accounts)
      ensures a in found && Answer(src, a, paths) == Some(found[a])
    {
      FillsTheList(found.Keys, Listed(accounts), a);
      assert Knows(src, a, paths[..i], found, tried);
      AnswerStays(src, a, paths[..i], paths[i..]);
    }
  }

  /** One entry for the Default account, then one per listed id, in order. Each is the
      snapshot of the newest rollout that has one among the account's own few newest,
      else the default; only a repeated id, whose answer its first entry took, is left
      with the default. */
  method LatestRateLimits<L>(src: Sources<L>, paths: seq<Path>, accounts: seq<AccountId>, default: L)
    returns (out: seq<(Account, L)>)
    ensures |out| == 1 + |accounts|
    ensures forall i :: 0 <= i < |out| ==>
      var a := Listed(accounts)[i];
      out[i] == (a, if a in Listed(accounts)[..i] then default else Limits(src, a, paths, default))
  {
    var found := Collect(src, paths, accounts);
    ghost var all := found;
    var listed := Listed(accounts);
    out := [];
    for i := 0 to |listed|
      invariant |out| == i
      invariant forall a :: Wanted(a, accounts) && a !in listed[..i] ==>
        (a in found <==> a in all) && (a in found ==> found[a] == all[a])
      invariant forall a :: a in listed[..i] ==> a !in found
      invariant forall j :: 0 <= j < i ==>
        out[j] == (listed[j], if listed[j] in listed[..j] then default else Limits(src, listed[j], paths, default))
    {
      var a := listed[i];
      assert Wanted(a, accounts);
      assert listed[..i + 1] == listed[..i] + [a];
      out := out + [(a, if a in found then found[a] else default)];
      found := found - {a};
    }
  }

  /** The Default account is listed first, then the given ones in their order. */
  lemma ListedInOrder(accounts: seq<AccountId>)
    ensures Listed(accounts)[0] == None
    ensures forall i :: 0 <= i < |accounts| ==> Listed(accounts)[i + 1] == Some(accounts[i])
  {
  }

  /** For distinct ids, as the accounts on disk are, every entry is the account's own. */
  lemma DistinctAccountsAllAnswered(accounts: seq<AccountId>, i: nat)
    requires forall j, k :: 0 <= j < k < |accounts| ==> accounts[j] != accounts[k]
    requires i < |Listed(accounts)|
    ensures Listed(accounts)[i] !in Listed(accounts)[..i]
  {
    if i > 0 {
      forall j | 0 <= j < i
        ensures Listed(accounts)[j] != Listed(accounts)[i]
      {
        if j > 0 {
          assert accounts[j - 1] != accounts[i - 1];
        }
      }
    }
  }
}
