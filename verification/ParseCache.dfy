/** The length-tagged FIFO cache of full parses (`ParseCache`,
    src-tauri/src/codex_rollouts.rs). */
module ParseCache {
  import opened Wrappers

  /** A rollout's path; the cache only ever compares two for equality. */
  type Path = nat

  /** Entry cap; the oldest entry goes first. */
  const MAX_PARSES: nat := 4096

  /** A parse, tagged with the file length it was looked up at. */
  datatype Entry<V> = Entry(len: nat, parsed: V)

  datatype Contents<V> = Contents(entries: map<Path, Entry<V>>, order: seq<Path>)

  /** `order` lists exactly `keys`, none twice. */
  ghost predicate QueueOf(order: seq<Path>, keys: set<Path>) {
    && (forall i, j :: 0 <= i < j < |order| ==> order[i] != order[j])
    && (forall k :: k in order <==> k in keys)
  }

  /** The queue has no repeats and holds exactly the map's keys, of which there are
      at most the cap. */
  ghost predicate Consistent<V>(c: Contents<V>) {
    QueueOf(c.order, c.entries.Keys) && |c.entries| <= MAX_PARSES
  }

  function Found<V>(c: Contents<V>, k: Path, len: nat): Option<V> {
    if k in c.entries && c.entries[k].len == len then Some(c.entries[k].parsed) else None
  }

  /** The entry set, and the key queued when it is new. */
  function Added<V>(c: Contents<V>, k: Path, entry: Entry<V>): Contents<V> {
    Contents(c.entries[k := entry], if k in c.entries then c.order else c.order + [k])
  }

  /** The head of the queue dropped. */
  function Evicted<V>(c: Contents<V>): Contents<V>
    requires c.order != []
  {
    Contents(c.entries - {c.order[0]}, c.order[1..])
  }

  /** The cache after an insertion: one eviction when it went over the cap. */
  ghost function Inserted<V>(c: Contents<V>, k: Path, entry: Entry<V>): Contents<V>
    requires Consistent(c)
  {
    var added := Added(c, k, entry);
    if |added.entries| <= MAX_PARSES then added
    else
      assert added.order != [];
      Evicted(added)
  }

  function Kept(s: seq<Path>, live: set<Path>): seq<Path> {
    if s == [] then []
    else
      var before := Kept(s[..|s| - 1], live);
      if s[|s| - 1] in live then before + [s[|s| - 1]] else before
  }

  /** The cache after dropping every key not in `live`. */
  ghost function Retained<V>(c: Contents<V>, live: set<Path>): Contents<V> {
    Contents(map k | k in c.entries && k in live :: c.entries[k], Kept(c.order, live))
  }

  lemma {:induction false} KeptMembers(s: seq<Path>, live: set<Path>)
    ensures forall k :: k in Kept(s, live) <==> k in s && k in live
  {
    if s != [] {
      KeptMembers(s[..|s| - 1], live);
      assert s == s[..|s| - 1] + [s[|s| - 1]];
    }
  }

  lemma {:induction false} KeptQueue(order: seq<Path>, keys: set<Path>, live: set<Path>)
    requires QueueOf(order, keys)
    ensures QueueOf(Kept(order, live), keys * live)
  {
    KeptMembers(order, live);
    if order != [] {
      var last, before := order[|order| - 1], order[..|order| - 1];
      assert order == before + [last];
      assert last !in before;
      assert QueueOf(before, keys - {last});
      KeptQueue(before, keys - {last}, live);
      KeptMembers(before, live);
    }
  }

  lemma QueuePush(order: seq<Path>, keys: set<Path>, k: Path)
    requires QueueOf(order, keys) && k !in keys
    ensures QueueOf(order + [k], keys + {k})
  {
    assert k !in order;
  }

  lemma QueuePop(order: seq<Path>, keys: set<Path>)
    requires QueueOf(order, keys) && keys != {}
    ensures order != [] && order[0] in keys && QueueOf(order[1..], keys - {order[0]})
  {
    var k :| k in keys;
    assert k in order;
    assert order == [order[0]] + order[1..];
    assert order[0] !in order[1..];
  }

  lemma SubsetSize(a: set<Path>, b: set<Path>)
    requires a <= b
    ensures |a| <= |b|
  {
    assert b == a + (b - a);
  }

  lemma RetainedConsistent<V>(c: Contents<V>, live: set<Path>)
    requires Consistent(c)
    ensures Consistent(Retained(c, live))
  {
    KeptQueue(c.order, c.entries.Keys, live);
    assert Retained(c, live).entries.Keys == c.entries.Keys * live;
    SubsetSize(c.entries.Keys * live, c.entries.Keys);
  }

  /** `k` is ahead of `m` in the queue. */
  ghost predicate Ahead(order: seq<Path>, k: Path, m: Path) {
    exists i, j :: 0 <= i < j < |order| && order[i] == k && order[j] == m
  }

  lemma {:induction false} KeptInOrder(s: seq<Path>, live: set<Path>, k: Path, m: Path)
    ensures Ahead(Kept(s, live), k, m) <==> k in live && m in live && Ahead(s, k, m)
  {
    if s != [] {
      var before, last := s[..|s| - 1], s[|s| - 1];
      KeptInOrder(before, live, k, m);
      KeptMembers(before, live);
      AheadOfLast(before, last, k, m);
      AheadOfLast(Kept(before, live), last, k, m);
      assert s == before + [last];
    }
  }

  lemma AheadOfLast(before: seq<Path>, last: Path, k: Path, m: Path)
    ensures Ahead(before + [last], k, m) <==> Ahead(before, k, m) || (k in before && m == last)
  {
    var s := before + [last];
    if Ahead(s, k, m) {
      var i, j :| 0 <= i < j < |s| && s[i] == k && s[j] == m;
      assert before[i] == k && (j < |before| ==> before[j] == m);
    }
    if Ahead(before, k, m) {
      var i, j :| 0 <= i < j < |before| && before[i] == k && before[j] == m;
      assert s[i] == k && s[j] == m;
    }
    if k in before && m == last {
      var i :| 0 <= i < |before| && before[i] == k;
      assert s[i] == k && s[|before|] == m;
    }
  }

  /** Dropping dead files: a key stays exactly when it was there and its file is live,
      with the entry it had, and the keys that stay keep their order in the queue. */
  lemma RetainedFrame<V>(c: Contents<V>, live: set<Path>)
    requires Consistent(c)
    ensures var after := Retained(c, live);
      && (forall k :: k in after.entries <==> k in c.entries && k in live)
      && (forall k :: k in after.entries ==> after.entries[k] == c.entries[k])
      && (forall k :: k in after.order <==> k in c.entries && k in live)
      && (forall k, m :: k in live && m in live ==> (Ahead(after.order, k, m) <==> Ahead(c.order, k, m)))
  {
    KeptMembers(c.order, live);
    forall k, m
      ensures Ahead(Kept(c.order, live), k, m) <==> k in live && m in live && Ahead(c.order, k, m)
    {
      KeptInOrder(c.order, live, k, m);
    }
  }

  /** What an insertion does to the keys and the queue: it evicts only for a new key
      in a full cache, and then the head of the queue, which is another key. */
  lemma InsertedKeys<V>(c: Contents<V>, k: Path, entry: Entry<V>)
    requires Consistent(c)
    ensures Consistent(Inserted(c, k, entry))
    ensures k in c.entries || |c.entries| < MAX_PARSES ==> Inserted(c, k, entry) == Added(c, k, entry)
    ensures k !in c.entries && |c.entries| == MAX_PARSES ==>
      c.order != [] && c.order[0] in c.entries && Inserted(c, k, entry) == Evicted(Added(c, k, entry))
  {
    if k in c.entries {
      assert Added(c, k, entry).entries.Keys == c.entries.Keys;
    } else {
      assert Added(c, k, entry).entries.Keys == c.entries.Keys + {k};
      QueuePush(c.order, c.entries.Keys, k);
      if |c.entries| == MAX_PARSES {
        EvictedKeys(c, k, entry);
      }
    }
  }

  lemma EvictedKeys<V>(c: Contents<V>, k: Path, entry: Entry<V>)
    requires Consistent(c) && k !in c.entries && |c.entries| == MAX_PARSES
    ensures c.order != [] && c.order[0] in c.entries
    ensures Added(c, k, entry).order[0] == c.order[0]
    ensures Consistent(Evicted(Added(c, k, entry)))
  {
    var added := Added(c, k, entry);
    assert added.entries.Keys == c.entries.Keys + {k};
    QueuePop(c.order, c.entries.Keys);
    QueuePush(c.order, c.entries.Keys, k);
    QueuePop(added.order, added.entries.Keys);
    assert Evicted(added).entries.Keys == added.entries.Keys - {added.order[0]};
  }

  /** What an insertion leaves alone: every other entry still there is as it was. */
  lemma InsertedFrame<V>(c: Contents<V>, k: Path, entry: Entry<V>)
    requires Consistent(c)
    ensures var after := Inserted(c, k, entry).entries;
      && k in after && after[k] == entry
      && forall p :: p in after && p != k ==> p in c.entries && after[p] == c.entries[p]
  {
    InsertedKeys(c, k, entry);
    if k !in c.entries && |c.entries| == MAX_PARSES {
      EvictedKeys(c, k, entry);
    }
  }

  // ── The cache object ──────────────────────────────────────────────────────

  class Cache<V> {
    var entries: map<Path, Entry<V>>
    var order: seq<Path>

    constructor ()
      ensures Value() == Contents(map[], [])
    {
      entries, order := map[], [];
    }

    function Value(): Contents<V>
      reads this
    {
      Contents(entries, order)
    }

    method Get(k: Path, len: nat) returns (parsed: Option<V>)
      ensures parsed == Found(Value(), k, len)
    {
      parsed := None;
      if k in entries && entries[k].len == len {
        parsed := Some(entries[k].parsed);
      }
    }

    method Insert(k: Path, len: nat, parsed: V)
      requires Consistent(Value())
      modifies this
      ensures Consistent(Value()) && Value() == Inserted(old(Value()), k, Entry(len, parsed))
    {
      InsertedKeys(Value(), k, Entry(len, parsed));
      ghost var added := Added(Value(), k, Entry(len, parsed));
      ghost var after := Inserted(Value(), k, Entry(len, parsed));
      if k !in entries {
        order := order + [k];
      }
      entries := entries[k := Entry(len, parsed)];
      while |entries| > MAX_PARSES
        invariant Value() == after || (Value() == added && |entries| > MAX_PARSES)
        decreases |entries|
      {
        if order == [] {
          break;
        }
        var oldest := order[0];
        order := order[1..];
        entries := entries - {oldest};
        assert Value() == Evicted(added);
      }
    }

    /** Keep only what is listed as `live`, in the map and in the queue. */
    method RetainExisting(live: set<Path>)
      requires Consistent(Value())
      modifies this
      ensures Consistent(Value()) && Value() == Retained(old(Value()), live)
    {
      RetainedConsistent(Value(), live);
      entries := map k | k in entries && k in live :: entries[k];
      var kept: seq<Path> := [];
      var i := 0;
      while i < |order|
        invariant i <= |order| && kept == Kept(order[..i], live)
      {
        assert order[..i + 1][..i] == order[..i];
        if order[i] in entries {
          kept := kept + [order[i]];
        }
        i := i + 1;
      }
      assert order[..i] == order;
      order := kept;
    }
  }

  // ── Every run of the cache ────────────────────────────────────────────────

  datatype Op<V> = Insert(key: Path, entry: Entry<V>) | RetainExisting(live: set<Path>)

  /** The cache after a sequence of operations from empty. */
  ghost function Run<V>(ops: seq<Op<V>>): (c: Contents<V>)
    ensures Consistent(c)
  {
    if ops == [] then
      Contents(map[], [])
    else
      var before := Run(ops[..|ops| - 1]);
      match ops[|ops| - 1]
      case Insert(k, entry) =>
        InsertedKeys(before, k, entry);
        Inserted(before, k, entry)
      case RetainExisting(live) =>
        RetainedConsistent(before, live);
        Retained(before, live)
  }

  /** For each key present, the operation that made it present: it has been there
      ever since, however often it was inserted again. */
  ghost function Since<V>(ops: seq<Op<V>>): (since: map<Path, nat>)
    ensures since.Keys == Run(ops).entries.Keys
    ensures forall k :: k in since ==> since[k] <= |ops|
  {
    if ops == [] then map[]
    else Aged(Since(ops[..|ops| - 1]), Run(ops).entries.Keys, |ops|)
  }

  function Aged(was: map<Path, nat>, keys: set<Path>, stamp: nat): map<Path, nat> {
    map k | k in keys :: if k in was then was[k] else stamp
  }

  ghost predicate Ascending(s: seq<Path>, rank: map<Path, nat>)
  {
    && (forall k :: k in s ==> k in rank)
    && (forall i, j :: 0 <= i < j < |s| ==> rank[s[i]] < rank[s[j]])
  }

  lemma AscendingLast(before: seq<Path>, last: Path, rank: map<Path, nat>)
    ensures Ascending(before + [last], rank) <==>
            Ascending(before, rank) && last in rank && forall k :: k in before ==> rank[k] < rank[last]
  {
    var s := before + [last];
    assert s[|before|] == last && forall i :: 0 <= i < |before| ==> s[i] == before[i] && before[i] in before;
    assert forall k :: k in s <==> k in before || k == last;
    if Ascending(s, rank) {
      forall k | k in before
        ensures rank[k] < rank[last]
      {
        var i :| 0 <= i < |before| && before[i] == k;
        assert s[i] == k && s[|before|] == last;
      }
    }
  }

  lemma {:induction false} KeptAscending(s: seq<Path>, live: set<Path>, rank: map<Path, nat>)
    requires Ascending(s, rank)
    ensures Ascending(Kept(s, live), rank)
  {
    if s != [] {
      hide Ascending;
      var before, last := s[..|s| - 1], s[|s| - 1];
      assert s == before + [last];
      AscendingLast(before, last, rank);
      KeptAscending(before, live, rank);
      KeptMembers(before, live);
      AscendingLast(Kept(before, live), last, rank);
    } else {
      assert Kept(s, live) == [];
    }
  }

  lemma PushAscending(s: seq<Path>, rank: map<Path, nat>, more: map<Path, nat>, k: Path)
    requires Ascending(s, rank) && k !in s && k in more
    requires forall p :: p in s ==> p in more && more[p] == rank[p] < more[k]
    ensures Ascending(s + [k], more)
  {
    assert forall i :: 0 <= i < |s| ==> s[i] in s;
  }

  lemma PopAscending(s: seq<Path>, rank: map<Path, nat>, fewer: map<Path, nat>)
    requires s != [] && Ascending(s, rank)
    requires forall p :: p in s[1..] ==> p in fewer && fewer[p] == rank[p]
    ensures Ascending(s[1..], fewer)
  {
    assert forall i :: 0 <= i < |s| - 1 ==> s[1..][i] == s[i + 1] && s[1..][i] in s[1..];
  }

  lemma QueueAfterRetain<V>(c: Contents<V>, was: map<Path, nat>, live: set<Path>, stamp: nat)
    requires Consistent(c) && was.Keys == c.entries.Keys && Ascending(c.order, was)
    ensures Ascending(Retained(c, live).order, Aged(was, Retained(c, live).entries.Keys, stamp))
  {
    KeptAscending(c.order, live, was);
    KeptMembers(c.order, live);
  }

  lemma AgedPush(order: seq<Path>, was: map<Path, nat>, k: Path, stamp: nat)
    requires QueueOf(order, was.Keys) && Ascending(order, was) && k !in was
    requires forall p :: p in was ==> was[p] < stamp
    ensures Ascending(order + [k], Aged(was, was.Keys + {k}, stamp))
  {
    PushAscending(order, was, Aged(was, was.Keys + {k}, stamp), k);
  }

  lemma AgedPushPop(order: seq<Path>, was: map<Path, nat>, k: Path, stamp: nat)
    requires order != [] && QueueOf(order, was.Keys) && Ascending(order, was) && k !in was
    requires forall p :: p in was ==> was[p] < stamp
    ensures Ascending((order + [k])[1..], Aged(was, was.Keys + {k} - {order[0]}, stamp))
  {
    AgedPush(order, was, k, stamp);
    QueuePush(order, was.Keys, k);
    QueuePop(order + [k], was.Keys + {k});
    PopAscending(order + [k], Aged(was, was.Keys + {k}, stamp), Aged(was, was.Keys + {k} - {order[0]}, stamp));
  }

  lemma QueueAfterReplace<V>(c: Contents<V>, was: map<Path, nat>, k: Path, entry: Entry<V>, stamp: nat)
    requires Consistent(c) && was.Keys == c.entries.Keys && Ascending(c.order, was)
    requires forall p :: p in was ==> was[p] < stamp
    requires k in c.entries
    ensures Ascending(Inserted(c, k, entry).order, Aged(was, Inserted(c, k, entry).entries.Keys, stamp))
  {
    InsertedKeys(c, k, entry);
    var keys, after := was.Keys, Inserted(c, k, entry);
    assert after.entries.Keys == keys && after.order == c.order;
    assert Aged(was, keys, stamp) == was;
  }

  lemma QueueAfterAdd<V>(c: Contents<V>, was: map<Path, nat>, k: Path, entry: Entry<V>, stamp: nat)
    requires Consistent(c) && was.Keys == c.entries.Keys && Ascending(c.order, was)
    requires forall p :: p in was ==> was[p] < stamp
    requires k !in c.entries && |c.entries| < MAX_PARSES
    ensures Ascending(Inserted(c, k, entry).order, Aged(was, Inserted(c, k, entry).entries.Keys, stamp))
  {
    InsertedKeys(c, k, entry);
    var keys, after := was.Keys, Inserted(c, k, entry);
    AgedPush(c.order, was, k, stamp);
    assert after.entries.Keys == keys + {k};
    assert after.order == c.order + [k];
  }

  lemma QueueIs<V>(c: Contents<V>)
    requires Consistent(c)
    ensures QueueOf(c.order, c.entries.Keys)
  {
  }

  lemma QueueAfterEvict<V>(c: Contents<V>, was: map<Path, nat>, k: Path, entry: Entry<V>, stamp: nat)
    requires Consistent(c) && was.Keys == c.entries.Keys && Ascending(c.order, was)
    requires forall p :: p in was ==> was[p] < stamp
    requires k !in c.entries && |c.entries| == MAX_PARSES
    ensures Ascending(Inserted(c, k, entry).order, Aged(was, Inserted(c, k, entry).entries.Keys, stamp))
  {
    hide Ascending, Inserted, QueueOf;
    InsertedKeys(c, k, entry);
    var keys, after := was.Keys, Inserted(c, k, entry);
    QueueIs(c);
    AgedPushPop(c.order, was, k, stamp);
    assert after.order == (c.order + [k])[1..];
    assert after.entries.Keys == keys + {k} - {c.order[0]};
  }

  /** After every sequence of operations the queue lists the present keys from the
      longest present to the newest; inserting a key again never moves it. */
  lemma {:induction false} QueueIsByAge<V>(ops: seq<Op<V>>)
    ensures Ascending(Run(ops).order, Since(ops))
  {
    if ops != [] {
      var earlier := ops[..|ops| - 1];
      QueueIsByAge(earlier);
      match ops[|ops| - 1]
      case RetainExisting(live) =>
        QueueAfterRetain(Run(earlier), Since(earlier), live, |ops|);
      case Insert(k, entry) =>
        if k in Run(earlier).entries {
          QueueAfterReplace(Run(earlier), Since(earlier), k, entry, |ops|);
        } else if |Run(earlier).entries| < MAX_PARSES {
          QueueAfterAdd(Run(earlier), Since(earlier), k, entry, |ops|);
        } else {
          QueueAfterEvict(Run(earlier), Since(earlier), k, entry, |ops|);
        }
    }
  }

  /** A new key over the cap: exactly one key is dropped, and it is the one that has
      been present longest; every other entry is untouched. Any other insertion drops
      nothing, and an insertion of a present key leaves the queue as it was. */
  lemma EvictionIsOldest<V>(ops: seq<Op<V>>, key: Path, entry: Entry<V>)
    ensures var before, after := Run(ops), Run(ops + [Insert(key, entry)]);
      && key in after.entries && after.entries[key] == entry
      && (forall k :: k in after.entries && k != key ==> k in before.entries && after.entries[k] == before.entries[k])
      && (key in before.entries ==> after.order == before.order)
      && (key in before.entries || |before.entries| < MAX_PARSES ==> before.entries.Keys <= after.entries.Keys)
      && (key !in before.entries && |before.entries| == MAX_PARSES ==>
            exists oldest :: before.entries.Keys - after.entries.Keys == {oldest} && LongestPresent(ops, oldest))
  {
    var all := ops + [Insert(key, entry)];
    assert all[..|all| - 1] == ops;
    var before, after := Run(ops), Run(all);
    InsertedKeys(before, key, entry);
    InsertedFrame(before, key, entry);
    if key !in before.entries && |before.entries| == MAX_PARSES {
      HeadIsLongestPresent(ops);
      EvictedKeys(before, key, entry);
      assert before.entries.Keys - after.entries.Keys == {before.order[0]};
    }
  }

  ghost predicate LongestPresent<V>(ops: seq<Op<V>>, oldest: Path) {
    && oldest in Run(ops).entries
    && forall k :: k in Run(ops).entries && k != oldest ==> Since(ops)[oldest] < Since(ops)[k]
  }

  lemma HeadIsLongestPresent<V>(ops: seq<Op<V>>)
    requires Run(ops).order != []
    ensures LongestPresent(ops, Run(ops).order[0])
  {
    QueueIsByAge(ops);
    var c := Run(ops);
    assert c.order[0] in c.order;
    forall k | k in c.entries && k != c.order[0]
      ensures Since(ops)[c.order[0]] < Since(ops)[k]
    {
      assert k in c.order;
      var i :| 0 <= i < |c.order| && c.order[i] == k;
    }
  }
}
