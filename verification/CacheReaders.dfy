/** Any number of threads reading rollouts through the shared parse cache while
    Codex appends to them (`parse_cached`, src-tauri/src/codex_rollouts.rs).

    Every step another thread can run between is a step here: the length is read,
    the cache is looked up under its lock, the file is read piece by piece with no
    lock held, and the parse is inserted under the lock again. `parse` is any
    function of a file's bytes. The history of the files is part of the state, so
    that "at some moment" can be said. */
module CacheReaders {
  import opened Bytes
  import opened Wrappers
  import opened ParseCache

  type Files = map<Path, seq<Byte>>

  type Thread = nat

  /** Where one call of `parse_cached` is. `at` is the moment its length was read. */
  datatype Phase<V> =
    | Statted(path: Path, len: nat, at: nat)
    | Reading(path: Path, len: nat, at: nat, got: seq<Byte>)
    | Parsed(path: Path, len: nat, at: nat, value: V)
    | Returned(path: Path, at: nat, until: nat, value: V)

  /** `history[t]` is what the files held at moment `t`; the last is now. */
  datatype State<V> = State(history: seq<Files>, cache: Contents<V>, calls: map<Thread, Phase<V>>)
  {
    function Now(): nat
      requires history != []
    {
      |history| - 1
    }
  }

  datatype Event =
    | Append(path: Path, bytes: seq<Byte>)
    | Stat(thread: Thread, path: Path)
    | Lookup(thread: Thread)
    | Read(thread: Thread, count: nat)
    | EndOfFile(thread: Thread)
    | ReadError(thread: Thread)
    | Insert(thread: Thread)
    | Retain(live: set<Path>)

  ghost predicate Enabled<V>(s: State<V>, e: Event)
    requires s.history != []
  {
    var files := s.history[s.Now()];
    match e
    case Append(_, _) => true
    case Stat(thread, path) =>
      path in files && (thread in s.calls ==> s.calls[thread].Returned?)
    case Lookup(thread) =>
      thread in s.calls && s.calls[thread].Statted?
    case Read(thread, count) =>
      && thread in s.calls && s.calls[thread].Reading? && s.calls[thread].path in files
      && 0 < count <= |files[s.calls[thread].path]| - |s.calls[thread].got|
    case EndOfFile(thread) =>
      && thread in s.calls && s.calls[thread].Reading? && s.calls[thread].path in files
      && |s.calls[thread].got| == |files[s.calls[thread].path]|
    case ReadError(thread) =>
      thread in s.calls && s.calls[thread].Reading?
    case Insert(thread) =>
      thread in s.calls && s.calls[thread].Parsed?
    case Retain(_) => true
  }

  /** One call moved to a new phase; a moment passes and no file changes. */
  function Moved<V>(s: State<V>, thread: Thread, phase: Phase<V>): State<V>
    requires s.history != []
  {
    State(s.history + [s.history[s.Now()]], s.cache, s.calls[thread := phase])
  }

  function AfterLookup<V>(s: State<V>, c: Phase<V>): Phase<V>
    requires s.history != [] && c.Statted?
  {
    var hit := Found(s.cache, c.path, c.len);
    if hit.Some? then Returned(c.path, c.at, s.Now(), hit.value) else Reading(c.path, c.len, c.at, [])
  }

  function AfterRead<V>(files: Files, c: Phase<V>, count: nat): Phase<V>
    requires c.Reading? && c.path in files && |c.got| + count <= |files[c.path]|
  {
    Reading(c.path, c.len, c.at, files[c.path][..|c.got| + count])
  }

  function AfterParse<V>(parse: seq<Byte> -> V, c: Phase<V>): Phase<V>
    requires c.Reading?
  {
    Parsed(c.path, c.len, c.at, parse(c.got))
  }

  /** The next state. The files change only by an append; every step is one moment.
      `parse_reader` ends on a read error as it does at the end of the file. */
  ghost function Next<V>(parse: seq<Byte> -> V, s: State<V>, e: Event): State<V>
    requires s.history != [] && Consistent(s.cache) && Enabled(s, e)
  {
    var files := s.history[s.Now()];
    match e
    case Append(path, bytes) =>
      var was := if path in files then files[path] else [];
      State(s.history + [files[path := was + bytes]], s.cache, s.calls)
    case Stat(thread, path) =>
      Moved(s, thread, Statted(path, |files[path]|, s.Now()))
    case Lookup(thread) =>
      Moved(s, thread, AfterLookup(s, s.calls[thread]))
    case Read(thread, count) =>
      Moved(s, thread, AfterRead(files, s.calls[thread], count))
    case EndOfFile(thread) =>
      Moved(s, thread, AfterParse(parse, s.calls[thread]))
    case ReadError(thread) =>
      Moved(s, thread, AfterParse(parse, s.calls[thread]))
    case Insert(thread) =>
      var c := s.calls[thread];
      Moved(s.(cache := Inserted(s.cache, c.path, Entry(c.len, c.value))), thread,
            Returned(c.path, c.at, s.Now(), c.value))
    case Retain(live) =>
      State(s.history + [files], Retained(s.cache, live), s.calls)
  }

  function Initial<V>(files: Files): State<V> {
    State([files], Contents(map[], []), map[])
  }

  ghost predicate Legal<V>(s: State<V>, e: Event) {
    s.history != [] && Consistent(s.cache) && Enabled(s, e)
  }

  /** A run: every event enabled when it happens, every state the next of the one before. */
  ghost predicate IsRun<V>(parse: seq<Byte> -> V, events: seq<Event>, states: seq<State<V>>) {
    && |states| == |events| + 1
    && (exists files :: states[0] == Initial(files))
    && forall i :: 0 <= i < |events| ==> Legal(states[i], events[i]) && states[i + 1] == Next(parse, states[i], events[i])
  }

  // ── What the history says ─────────────────────────────────────────────────

  /** Files are append-only: what a file held is a prefix of what it holds later. */
  ghost predicate Grows(h: seq<Files>) {
    forall i, j, p :: 0 <= i <= j < |h| && p in h[i] ==> p in h[j] && h[i][p] <= h[j][p]
  }

  /** `value` is the parse of what the file held at some moment from `from` to `to`. */
  ghost predicate ParseOfMoment<V>(
    parse: seq<Byte> -> V, h: seq<Files>, p: Path, from: nat, to: nat, value: V)
  {
    exists t :: from <= t <= to && HeldAt(parse, h, p, t, value)
  }

  ghost predicate HeldAt<V>(parse: seq<Byte> -> V, h: seq<Files>, p: Path, t: nat, value: V) {
    t < |h| && p in h[t] && value == parse(h[t][p])
  }

  /** A cached parse is of some moment at which the file was at least as long as the
      entry's tag. */
  ghost predicate EntryOk<V>(parse: seq<Byte> -> V, h: seq<Files>, p: Path, e: Entry<V>) {
    exists t: nat :: HeldAt(parse, h, p, t, e.parsed) && e.len <= |h[t][p]|
  }

  ghost predicate LengthReadAt(h: seq<Files>, p: Path, at: nat, len: nat) {
    at < |h| && p in h[at] && |h[at][p]| == len
  }

  /** What is known of a call; its value too while read errors are `sound`. */
  ghost predicate CallOk<V>(sound: bool, parse: seq<Byte> -> V, h: seq<Files>, c: Phase<V>)
    requires h != []
  {
    match c
    case Statted(p, len, at) => LengthReadAt(h, p, at, len)
    case Reading(p, len, at, got) =>
      LengthReadAt(h, p, at, len) && p in h[|h| - 1] && got <= h[|h| - 1][p]
    case Parsed(p, len, at, value) =>
      LengthReadAt(h, p, at, len) && (sound ==> ParseOfMoment(parse, h, p, at, |h| - 1, value))
    case Returned(p, at, until, value) =>
      until < |h| && (sound ==> ParseOfMoment(parse, h, p, at, until, value))
  }

  ghost predicate CacheOk<V>(parse: seq<Byte> -> V, h: seq<Files>, cache: Contents<V>) {
    forall p :: p in cache.entries ==> EntryOk(parse, h, p, cache.entries[p])
  }

  ghost predicate Inv<V>(sound: bool, parse: seq<Byte> -> V, s: State<V>) {
    && s.history != [] && Grows(s.history) && Consistent(s.cache)
    && (sound ==> CacheOk(parse, s.history, s.cache))
    && (forall c :: c in s.calls ==> CallOk(sound, parse, s.history, s.calls[c]))
  }

  /** A read error loses nothing when what was read parses as the file did at some moment
      of the call. */
  ghost predicate Lossless<V>(parse: seq<Byte> -> V, s: State<V>, thread: Thread)
    requires s.history != [] && thread in s.calls && s.calls[thread].Reading?
  {
    var c := s.calls[thread];
    ParseOfMoment(parse, s.history, c.path, c.at, s.Now(), parse(c.got))
  }

  ghost predicate Sound<V>(parse: seq<Byte> -> V, s: State<V>, e: Event)
    requires s.history != [] && Enabled(s, e)
  {
    e.ReadError? ==> Lossless(parse, s, e.thread)
  }

  // ── Time passing keeps everything true ────────────────────────────────────

  /** The files at the next moment: unchanged, or one of them longer. */
  ghost predicate Extends(before: Files, after: Files) {
    forall p :: p in before ==> p in after && before[p] <= after[p]
  }

  lemma GrowsOn(h: seq<Files>, files: Files)
    requires h != [] && Grows(h) && Extends(h[|h| - 1], files)
    ensures Grows(h + [files])
  {
    var more := h + [files];
    forall i, j, p | 0 <= i <= j < |more| && p in more[i]
      ensures p in more[j] && more[i][p] <= more[j][p]
    {
      if j == |h| && i < |h| {
        assert h[i][p] <= h[|h| - 1][p] <= files[p];
      }
    }
  }

  lemma MomentStays<V>(parse: seq<Byte> -> V, h: seq<Files>, files: Files, p: Path, from: nat, to: nat, value: V)
    requires ParseOfMoment(parse, h, p, from, to, value)
    ensures ParseOfMoment(parse, h + [files], p, from, to, value)
  {
    var t :| from <= t <= to && HeldAt(parse, h, p, t, value);
    assert HeldAt(parse, h + [files], p, t, value);
  }

  lemma EntryStays<V>(parse: seq<Byte> -> V, h: seq<Files>, files: Files, p: Path, e: Entry<V>)
    requires EntryOk(parse, h, p, e)
    ensures EntryOk(parse, h + [files], p, e)
  {
    var t: nat :| HeldAt(parse, h, p, t, e.parsed) && e.len <= |h[t][p]|;
    assert HeldAt(parse, h + [files], p, t, e.parsed);
  }

  lemma CallStays<V>(sound: bool, parse: seq<Byte> -> V, h: seq<Files>, files: Files, c: Phase<V>)
    requires h != [] && Extends(h[|h| - 1], files) && CallOk(sound, parse, h, c)
    ensures CallOk(sound, parse, h + [files], c)
  {
    match c
    case Statted(p, len, at) =>
    case Reading(p, len, at, got) =>
    case Parsed(p, len, at, value) =>
      if sound {
        MomentStays(parse, h, files, p, at, |h| - 1, value);
      }
    case Returned(p, at, until, value) =>
      if sound {
        MomentStays(parse, h, files, p, at, until, value);
      }
  }

  lemma TimePasses<V>(sound: bool, parse: seq<Byte> -> V, s: State<V>, files: Files)
    requires Inv(sound, parse, s) && Extends(s.history[s.Now()], files)
    ensures Inv(sound, parse, s.(history := s.history + [files]))
  {
    GrowsOn(s.history, files);
    forall p | sound && p in s.cache.entries
      ensures EntryOk(parse, s.history + [files], p, s.cache.entries[p])
    {
      EntryStays(parse, s.history, files, p, s.cache.entries[p]);
    }
    forall c | c in s.calls
      ensures CallOk(sound, parse, s.history + [files], s.calls[c])
    {
      CallStays(sound, parse, s.history, files, s.calls[c]);
    }
  }

  // ── Each step keeps the invariant ─────────────────────────────────────────

  /** A hit is a moment of this call: either the entry was parsed after the call read
      the length, or the file has not grown since, so it is what was there then. */
  lemma HitIsAMoment<V>(parse: seq<Byte> -> V, s: State<V>, c: Phase<V>)
    requires Inv(true, parse, s) && c.Statted? && CallOk(true, parse, s.history, c)
    requires Found(s.cache, c.path, c.len).Some?
    ensures ParseOfMoment(parse, s.history, c.path, c.at, s.Now(), Found(s.cache, c.path, c.len).value)
  {
    var e := s.cache.entries[c.path];
    assert EntryOk(parse, s.history, c.path, e);
    var t: nat :| HeldAt(parse, s.history, c.path, t, e.parsed) && e.len <= |s.history[t][c.path]|;
    if t < c.at {
      assert s.history[t][c.path] <= s.history[c.at][c.path];
      assert s.history[t][c.path] == s.history[c.at][c.path];
      assert HeldAt(parse, s.history, c.path, c.at, e.parsed);
    }
  }

  /** A call that has parsed holds a valid entry: the file had at least the bytes
      whose length was read, and has not shrunk. */
  lemma ParsedIsAnEntry<V>(parse: seq<Byte> -> V, h: seq<Files>, c: Phase<V>)
    requires h != [] && Grows(h) && c.Parsed? && CallOk(true, parse, h, c)
    ensures EntryOk(parse, h, c.path, Entry(c.len, c.value))
  {
    var t :| c.at <= t <= |h| - 1 && HeldAt(parse, h, c.path, t, c.value);
    assert h[c.at][c.path] <= h[t][c.path];
  }

  lemma InsertKeepsEntries<V>(parse: seq<Byte> -> V, h: seq<Files>, cache: Contents<V>, p: Path, e: Entry<V>)
    requires Consistent(cache) && CacheOk(parse, h, cache) && EntryOk(parse, h, p, e)
    ensures Consistent(Inserted(cache, p, e)) && CacheOk(parse, h, Inserted(cache, p, e))
  {
    InsertedKeys(cache, p, e);
    InsertedFrame(cache, p, e);
  }

  /** One call's phase replaced by one that fits. */
  lemma CallMoves<V>(sound: bool, parse: seq<Byte> -> V, s: State<V>, thread: Thread, phase: Phase<V>)
    requires Inv(sound, parse, s) && CallOk(sound, parse, s.history, phase)
    ensures Inv(sound, parse, s.(calls := s.calls[thread := phase]))
  {
  }

  /** A step that moves one call and leaves the files alone. */
  lemma CallStepKeepsInv<V>(sound: bool, parse: seq<Byte> -> V, s: State<V>, thread: Thread, phase: Phase<V>)
    requires Inv(sound, parse, s) && CallOk(sound, parse, s.history, phase)
    ensures Inv(sound, parse, Moved(s, thread, phase))
  {
    CallMoves(sound, parse, s, thread, phase);
    TimePasses(sound, parse, s.(calls := s.calls[thread := phase]), s.history[s.Now()]);
  }

  lemma LookupKeepsInv<V>(sound: bool, parse: seq<Byte> -> V, s: State<V>, thread: Thread)
    requires Inv(sound, parse, s) && Enabled(s, Lookup(thread))
    ensures Inv(sound, parse, Next(parse, s, Lookup(thread)))
  {
    var c := s.calls[thread];
    assert CallOk(sound, parse, s.history, c);
    if Found(s.cache, c.path, c.len).Some? {
      if sound {
        HitIsAMoment(parse, s, c);
      }
    } else {
      assert s.history[c.at][c.path] <= s.history[s.Now()][c.path];
    }
    CallStepKeepsInv(sound, parse, s, thread, AfterLookup(s, c));
  }

  lemma InsertKeepsInv<V>(sound: bool, parse: seq<Byte> -> V, s: State<V>, thread: Thread)
    requires Inv(sound, parse, s) && Enabled(s, Event.Insert(thread))
    ensures Inv(sound, parse, Next(parse, s, Event.Insert(thread)))
  {
    var c := s.calls[thread];
    assert CallOk(sound, parse, s.history, c);
    InsertedKeys(s.cache, c.path, Entry(c.len, c.value));
    if sound {
      ParsedIsAnEntry(parse, s.history, c);
      InsertKeepsEntries(parse, s.history, s.cache, c.path, Entry(c.len, c.value));
    }
    var held := s.(cache := Inserted(s.cache, c.path, Entry(c.len, c.value)));
    CallStepKeepsInv(sound, parse, held, thread, Returned(c.path, c.at, s.Now(), c.value));
  }

  lemma EndOfFileKeepsInv<V>(sound: bool, parse: seq<Byte> -> V, s: State<V>, thread: Thread)
    requires Inv(sound, parse, s) && Enabled(s, EndOfFile(thread))
    ensures Inv(sound, parse, Next(parse, s, EndOfFile(thread)))
  {
    var c := s.calls[thread];
    assert CallOk(sound, parse, s.history, c);
    assert c.got == s.history[s.Now()][c.path];
    assert HeldAt(parse, s.history, c.path, s.Now(), parse(c.got));
    CallStepKeepsInv(sound, parse, s, thread, AfterParse(parse, c));
  }

  lemma RetainKeepsInv<V>(sound: bool, parse: seq<Byte> -> V, s: State<V>, live: set<Path>)
    requires Inv(sound, parse, s)
    ensures Inv(sound, parse, Next(parse, s, Retain(live)))
  {
    RetainedConsistent(s.cache, live);
    TimePasses(sound, parse, s.(cache := Retained(s.cache, live)), s.history[s.Now()]);
  }

  lemma AppendKeepsInv<V>(sound: bool, parse: seq<Byte> -> V, s: State<V>, path: Path, bytes: seq<Byte>)
    requires Inv(sound, parse, s)
    ensures Inv(sound, parse, Next(parse, s, Append(path, bytes)))
  {
    var files := s.history[s.Now()];
    TimePasses(sound, parse, s, files[path := (if path in files then files[path] else []) + bytes]);
  }

  lemma StatKeepsInv<V>(sound: bool, parse: seq<Byte> -> V, s: State<V>, thread: Thread, path: Path)
    requires Inv(sound, parse, s) && Enabled(s, Stat(thread, path))
    ensures Inv(sound, parse, Next(parse, s, Stat(thread, path)))
  {
    CallStepKeepsInv(sound, parse, s, thread, Statted(path, |s.history[s.Now()][path]|, s.Now()));
  }

  lemma LongerRead<V>(sound: bool, parse: seq<Byte> -> V, h: seq<Files>, c: Phase<V>, count: nat)
    requires h != [] && c.Reading? && CallOk(sound, parse, h, c)
    requires |c.got| + count <= |h[|h| - 1][c.path]|
    ensures CallOk(sound, parse, h, AfterRead(h[|h| - 1], c, count))
  {
  }

  lemma ReadKeepsInv<V>(sound: bool, parse: seq<Byte> -> V, s: State<V>, thread: Thread, count: nat)
    requires Inv(sound, parse, s) && Enabled(s, Read(thread, count))
    ensures Inv(sound, parse, Next(parse, s, Read(thread, count)))
  {
    assert CallOk(sound, parse, s.history, s.calls[thread]);
    LongerRead(sound, parse, s.history, s.calls[thread], count);
    CallStepKeepsInv(sound, parse, s, thread, AfterRead(s.history[s.Now()], s.calls[thread], count));
  }

  lemma ReadErrorKeepsInv<V>(sound: bool, parse: seq<Byte> -> V, s: State<V>, thread: Thread)
    requires Inv(sound, parse, s) && Enabled(s, ReadError(thread))
    requires sound ==> Lossless(parse, s, thread)
    ensures Inv(sound, parse, Next(parse, s, ReadError(thread)))
  {
    var c := s.calls[thread];
    assert CallOk(sound, parse, s.history, c);
    CallStepKeepsInv(sound, parse, s, thread, AfterParse(parse, c));
  }

  lemma StepKeepsInv<V>(sound: bool, parse: seq<Byte> -> V, s: State<V>, e: Event)
    requires Inv(sound, parse, s) && Enabled(s, e) && (sound ==> Sound(parse, s, e))
    ensures Inv(sound, parse, Next(parse, s, e))
  {
    match e
    case Append(path, bytes) => AppendKeepsInv(sound, parse, s, path, bytes);
    case Stat(thread, path) => StatKeepsInv(sound, parse, s, thread, path);
    case Lookup(thread) => LookupKeepsInv(sound, parse, s, thread);
    case Read(thread, count) => ReadKeepsInv(sound, parse, s, thread, count);
    case EndOfFile(thread) => EndOfFileKeepsInv(sound, parse, s, thread);
    case ReadError(thread) => ReadErrorKeepsInv(sound, parse, s, thread);
    case Insert(thread) => InsertKeepsInv(sound, parse, s, thread);
    case Retain(live) => RetainKeepsInv(sound, parse, s, live);
  }

  /** Every read error among the first `n` events loses nothing. */
  ghost predicate AllSound<V>(parse: seq<Byte> -> V, events: seq<Event>, states: seq<State<V>>, n: nat)
    requires n <= |events| && |states| == |events| + 1
  {
    forall i :: 0 <= i < n ==> Legal(states[i], events[i]) && Sound(parse, states[i], events[i])
  }

  // ── The theorem ───────────────────────────────────────────────────────────

  lemma AStep<V>(parse: seq<Byte> -> V, events: seq<Event>, states: seq<State<V>>, i: nat)
    requires IsRun(parse, events, states) && i < |events|
    ensures |states| == |events| + 1 && Legal(states[i], events[i])
    ensures states[i + 1] == Next(parse, states[i], events[i])
  {
  }

  /** In every run files only grow, and every call's length and bytes are those of their
      moments; its value is too as long as read errors lose nothing. */
  lemma {:induction false} RunKeepsInv<V>(
    sound: bool, parse: seq<Byte> -> V, events: seq<Event>, states: seq<State<V>>, n: nat)
    requires IsRun(parse, events, states) && n <= |events|
    requires sound ==> AllSound(parse, events, states, n)
    ensures Inv(sound, parse, states[n])
  {
    if n == 0 {
      var files :| states[0] == Initial(files);
    } else {
      RunKeepsInv(sound, parse, events, states, n - 1);
      assert Legal(states[n - 1], events[n - 1]);
      StepKeepsInv(sound, parse, states[n - 1], events[n - 1]);
    }
  }

  /** However the threads interleave, and whatever is appended, evicted or dropped
      meanwhile: every value a call returned is the parse of what the file held at
      some moment between that call's reading of the length and its return. */
  lemma EveryReturnIsAMoment<V>(
    parse: seq<Byte> -> V, events: seq<Event>, states: seq<State<V>>, thread: Thread)
    requires IsRun(parse, events, states) && AllSound(parse, events, states, |events|)
    requires thread in states[|events|].calls && states[|events|].calls[thread].Returned?
    ensures var s := states[|events|];
      var c := s.calls[thread];
      c.until < |s.history| && ParseOfMoment(parse, s.history, c.path, c.at, c.until, c.value)
  {
    RunKeepsInv(true, parse, events, states, |events|);
    assert CallOk(true, parse, states[|events|].history, states[|events|].calls[thread]);
  }

  /** A read that fails where the file's end was at some moment of the call loses nothing,
      whatever the parser; being where the end was is having read all there was. */
  lemma ErrorAtAnEnd<V>(parse: seq<Byte> -> V, s: State<V>, thread: Thread, t: nat)
    requires Inv(false, parse, s) && Enabled(s, ReadError(thread))
    requires var c := s.calls[thread]; c.at <= t <= s.Now() && c.path in s.history[t]
    ensures var c := s.calls[thread];
      |s.history[t][c.path]| == |c.got| <==> s.history[t][c.path] == c.got
    ensures var c := s.calls[thread];
      |s.history[t][c.path]| == |c.got| ==> Lossless(parse, s, thread)
  {
    var c := s.calls[thread];
    assert CallOk(false, parse, s.history, c);
    assert s.history[t][c.path] <= s.history[s.Now()][c.path];
    if |s.history[t][c.path]| == |c.got| {
      assert s.history[t][c.path] == s.history[s.Now()][c.path][..|c.got|] == c.got;
      assert HeldAt(parse, s.history, c.path, t, parse(c.got));
    }
  }

  // ── How long an inserted parse is served ──────────────────────────────────

  predicate Inserts<V>(s: State<V>, e: Event, p: Path) {
    e.Insert? && e.thread in s.calls && s.calls[e.thread].Parsed? && s.calls[e.thread].path == p
  }

  /** A step that does not insert a path leaves its entry as it is, if it leaves it. */
  lemma EntryIsKept<V>(parse: seq<Byte> -> V, s: State<V>, e: Event, p: Path)
    requires Legal(s, e) && !Inserts(s, e, p) && p in Next(parse, s, e).cache.entries
    ensures p in s.cache.entries && s.cache.entries[p] == Next(parse, s, e).cache.entries[p]
  {
    if e.Insert? {
      var c := s.calls[e.thread];
      InsertedFrame(s.cache, c.path, Entry(c.len, c.value));
    }
  }

  /** An entry is the one it was, for as long as its path is not inserted again and has
      not been evicted or dropped. */
  lemma {:induction false} EntryStaysPut<V>(
    parse: seq<Byte> -> V, events: seq<Event>, states: seq<State<V>>, start: nat, end: nat, p: Path)
    requires IsRun(parse, events, states) && start <= end <= |events|
    requires forall i :: start <= i < end ==> !Inserts(states[i], events[i], p)
    requires p in states[end].cache.entries
    ensures p in states[start].cache.entries && states[start].cache.entries[p] == states[end].cache.entries[p]
    decreases end
  {
    if start < end {
      assert Legal(states[end - 1], events[end - 1]);
      EntryIsKept(parse, states[end - 1], events[end - 1], p);
      EntryStaysPut(parse, events, states, start, end - 1, p);
    }
  }

  /** A parse inserted at step `i` is what every later lookup at its length is served,
      until its path is inserted again, evicted or dropped. */
  lemma InsertedParseIsServed<V>(
    parse: seq<Byte> -> V, events: seq<Event>, states: seq<State<V>>, i: nat, k: nat)
    requires IsRun(parse, events, states) && i < k < |events|
    requires events[i].Insert? && events[k].Lookup?
    requires events[i].thread in states[i].calls && states[i].calls[events[i].thread].Parsed?
    requires events[k].thread in states[k].calls && states[k].calls[events[k].thread].Statted?
    requires var c, later := states[i].calls[events[i].thread], states[k].calls[events[k].thread];
      && later.path == c.path && later.len == c.len
      && c.path in states[k].cache.entries
      && forall j :: i < j < k ==> !Inserts(states[j], events[j], c.path)
    ensures var c, later := states[i].calls[events[i].thread], states[k].calls[events[k].thread];
      states[k + 1].calls[events[k].thread] == Returned(c.path, later.at, |states[k].history| - 1, c.value)
  {
    var c := states[i].calls[events[i].thread];
    assert Legal(states[i], events[i]) && Legal(states[k], events[k]);
    EntryStaysPut(parse, events, states, i + 1, k, c.path);
    InsertedFrame(states[i].cache, c.path, Entry(c.len, c.value));
  }

  lemma OnlyItsInsert<V>(parse: seq<Byte> -> V, s: State<V>, e: Event, thread: Thread)
    requires Legal(s, e) && thread in s.calls && s.calls[thread].Parsed? && e != Event.Insert(thread)
    ensures thread in Next(parse, s, e).calls && Next(parse, s, e).calls[thread] == s.calls[thread]
  {
  }

  /** A parse, once made, waits unchanged for its own call to insert it. */
  lemma {:induction false} ParseWaits<V>(
    parse: seq<Byte> -> V, events: seq<Event>, states: seq<State<V>>, start: nat, end: nat, thread: Thread)
    requires IsRun(parse, events, states) && start <= end <= |events|
    requires thread in states[start].calls && states[start].calls[thread].Parsed?
    requires forall i :: start <= i < end ==> events[i] != Event.Insert(thread)
    ensures thread in states[end].calls && states[end].calls[thread] == states[start].calls[thread]
    decreases end
  {
    if start < end {
      ParseWaits(parse, events, states, start, end - 1, thread);
      AStep(parse, events, states, end - 1);
      OnlyItsInsert(parse, states[end - 1], events[end - 1], thread);
    }
  }
}
