/** What a read error costs the readers of the parse cache, for the parse it holds: the
    records of a rollout and the summary they fold into (`parse_cached` over
    `parse_reader`, src-tauri/src/codex_rollouts.rs). */
module RolloutCache {
  import opened Bytes
  import opened Wrappers
  import opened RolloutFold
  import opened RolloutFraming
  import opened RemoteSummary
  import opened ParseCache
  import C = CacheReaders

  type Decoder = seq<Byte> -> Option<Record>

  /** The parse that keeps everything a summary can depend on. */
  ghost function RecordsParse(decode: Decoder): seq<Byte> -> seq<Record> {
    (bytes: seq<Byte>) => Records(decode, bytes)
  }

  ghost function SummaryParse(prose: Prose, decode: Decoder): seq<Byte> -> Parsed {
    (bytes: seq<Byte>) => Fold(prose, Records(decode, bytes))
  }

  lemma PrefixRecords(decode: Decoder, a: seq<Byte>, b: seq<Byte>)
    requires a <= b
    ensures Records(decode, a) <= Records(decode, b)
  {
    assert b == a + b[|a|..];
    var added := RecordsOfPrefix(decode, a, b[|a|..]);
  }

  // ── Which read errors lose a record ───────────────────────────────────────

  /** Bytes short of the length a call read hold the records of a moment of the call, up
      to any later moment, exactly when the bytes missing up to that length complete no
      line that is kept and decodes. */
  lemma NoRecordLost(
    decode: Decoder, h: seq<C.Files>, p: Path, at: nat, len: nat, now: nat, until: nat, got: seq<Byte>)
    requires C.Grows(h) && at <= now < |h| && at <= until < |h|
    requires C.LengthReadAt(h, p, at, len) && p in h[now] && got <= h[now][p] && |got| < len
    ensures C.ParseOfMoment(RecordsParse(decode), h, p, at, until, Records(decode, got)) <==>
            Records(decode, got) == Records(decode, h[at][p])
  {
    hide Records;
    assert h[at][p] <= h[now][p];
    assert got <= h[at][p];
    PrefixRecords(decode, got, h[at][p]);
    if C.ParseOfMoment(RecordsParse(decode), h, p, at, until, Records(decode, got)) {
      var t :| at <= t <= until && C.HeldAt(RecordsParse(decode), h, p, t, Records(decode, got));
      assert h[at][p] <= h[t][p];
      PrefixRecords(decode, h[at][p], h[t][p]);
    }
    if Records(decode, got) == Records(decode, h[at][p]) {
      assert C.HeldAt(RecordsParse(decode), h, p, at, Records(decode, got));
    }
  }

  /** A read that fails before the length the call read loses nothing exactly when no
      record is lost up to that length. */
  lemma ReadErrorIsLossless(decode: Decoder, s: C.State<seq<Record>>, thread: C.Thread)
    requires C.Inv(false, RecordsParse(decode), s) && C.Enabled(s, C.ReadError(thread))
    requires |s.calls[thread].got| < s.calls[thread].len
    ensures var c := s.calls[thread];
      C.Lossless(RecordsParse(decode), s, thread) <==>
        Records(decode, c.got) == Records(decode, s.history[c.at][c.path])
  {
    hide Records;
    var c := s.calls[thread];
    assert C.CallOk(false, RecordsParse(decode), s.history, c);
    NoRecordLost(decode, s.history, c.path, c.at, c.len, s.Now(), s.Now(), c.got);
  }

  /** What was read lies between the file at moment `last` and the file at the next. */
  ghost predicate EndsAfter(s: C.State<seq<Record>>, c: C.Phase<seq<Record>>, last: nat)
    requires s.history != [] && c.Reading?
  {
    && c.at <= last <= s.Now() && c.path in s.history[last] && |s.history[last][c.path]| <= |c.got|
    && (last < s.Now() ==> c.path in s.history[last + 1] && |c.got| < |s.history[last + 1][c.path]|)
  }

  lemma RecordsBetween(decode: Decoder, s: C.State<seq<Record>>, c: C.Phase<seq<Record>>, last: nat, t: nat)
    requires C.Inv(false, RecordsParse(decode), s) && c.Reading? && C.CallOk(false, RecordsParse(decode), s.history, c)
    requires EndsAfter(s, c, last) && c.at <= t <= s.Now() && c.path in s.history[t]
    ensures t <= last ==>
      Records(decode, s.history[t][c.path]) <= Records(decode, s.history[last][c.path]) <= Records(decode, c.got)
    ensures t > last ==>
      Records(decode, c.got) <= Records(decode, s.history[last + 1][c.path]) <= Records(decode, s.history[t][c.path])
  {
    hide Records, RecordsParse;
    var h := s.history;
    assert h[last][c.path] <= h[s.Now()][c.path];
    if t <= last {
      assert h[t][c.path] <= h[last][c.path];
      PrefixRecords(decode, h[t][c.path], h[last][c.path]);
      PrefixRecords(decode, h[last][c.path], c.got);
    } else {
      assert h[last + 1][c.path] <= h[t][c.path] && h[last + 1][c.path] <= h[s.Now()][c.path];
      PrefixRecords(decode, c.got, h[last + 1][c.path]);
      PrefixRecords(decode, h[last + 1][c.path], h[t][c.path]);
    }
  }

  /** One that fails further on loses nothing exactly when what was read holds the records
      of one of two moments: the last at which the file was no longer than that, or the
      next. */
  lemma LaterReadErrorIsLossless(decode: Decoder, s: C.State<seq<Record>>, thread: C.Thread, last: nat)
    requires C.Inv(false, RecordsParse(decode), s) && C.Enabled(s, C.ReadError(thread))
    requires EndsAfter(s, s.calls[thread], last)
    ensures var c := s.calls[thread];
      C.Lossless(RecordsParse(decode), s, thread) <==>
        || Records(decode, c.got) == Records(decode, s.history[last][c.path])
        || (last < s.Now() && Records(decode, c.got) == Records(decode, s.history[last + 1][c.path]))
  {
    hide Records;
    var c, h, parse := s.calls[thread], s.history, RecordsParse(decode);
    assert C.CallOk(false, parse, h, c);
    if C.Lossless(parse, s, thread) {
      var t :| c.at <= t <= s.Now() && C.HeldAt(parse, h, c.path, t, Records(decode, c.got));
      RecordsBetween(decode, s, c, last, t);
    }
    if Records(decode, c.got) == Records(decode, h[last][c.path]) {
      assert C.HeldAt(parse, h, c.path, last, Records(decode, c.got));
    }
    if last < s.Now() && Records(decode, c.got) == Records(decode, h[last + 1][c.path]) {
      assert C.HeldAt(parse, h, c.path, last + 1, Records(decode, c.got));
    }
  }

  // ── And what becomes of it ────────────────────────────────────────────────

  lemma StillAPrefix<T>(a: seq<T>, b: seq<T>, c: seq<T>)
    requires a <= b <= c
    ensures a <= c
  {
  }

  lemma HistoryStep<V>(parse: seq<Byte> -> V, s: C.State<V>, e: C.Event)
    requires C.Legal(s, e)
    ensures s.history <= C.Next(parse, s, e).history
  {
  }

  lemma {:induction false} HistoryStays<V>(
    parse: seq<Byte> -> V, events: seq<C.Event>, states: seq<C.State<V>>, start: nat, end: nat)
    requires C.IsRun(parse, events, states) && start <= end <= |events|
    ensures states[start].history <= states[end].history
    decreases end
  {
    hide C.Legal, C.Next, C.IsRun;
    if start < end {
      HistoryStays(parse, events, states, start, end - 1);
      C.AStep(parse, events, states, end - 1);
      HistoryStep(parse, states[end - 1], events[end - 1]);
      StillAPrefix(states[start].history, states[end - 1].history, states[end].history);
    }
  }

  /** The call whose read fails at step `i` and which inserts what it parsed at step `j`. */
  ghost predicate InsertsAfterError<V>(
    parse: seq<Byte> -> V, events: seq<C.Event>, states: seq<C.State<V>>, i: nat, j: nat, thread: C.Thread)
  {
    && C.IsRun(parse, events, states) && i < j < |events|
    && thread in states[i].calls && states[i].calls[thread].Reading?
    && events[i] == C.ReadError(thread) && events[j] == C.Event.Insert(thread)
    && forall k :: i < k < j ==> events[k] != C.Event.Insert(thread)
  }

  lemma ErrorIsReturned<V>(
    parse: seq<Byte> -> V, events: seq<C.Event>, states: seq<C.State<V>>, i: nat, j: nat, thread: C.Thread)
    requires InsertsAfterError(parse, events, states, i, j, thread)
    ensures var c := states[i].calls[thread];
      && thread in states[j].calls && states[j].calls[thread] == C.Parsed(c.path, c.len, c.at, parse(c.got))
      && thread in states[j + 1].calls
      && states[j + 1].calls[thread] == C.Returned(c.path, c.at, |states[j].history| - 1, parse(c.got))
  {
    assert C.Legal(states[i], events[i]) && C.Legal(states[j], events[j]);
    C.ParseWaits(parse, events, states, i + 1, j, thread);
  }

  /** In every run, whatever else fails in it: a call whose read fails short of the length
      it read returns the records of a moment of its own if and only if no record was lost
      up to that length. */
  lemma ShortCallReturns(
    decode: Decoder, events: seq<C.Event>, states: seq<C.State<seq<Record>>>, i: nat, j: nat, thread: C.Thread)
    requires InsertsAfterError(RecordsParse(decode), events, states, i, j, thread)
    requires |states[i].calls[thread].got| < states[i].calls[thread].len
    ensures var c := states[i].calls[thread];
      && thread in states[j + 1].calls && states[j + 1].calls[thread].Returned?
      && c.at < |states[i].history| && c.path in states[i].history[c.at]
      && var r := states[j + 1].calls[thread];
      && r.path == c.path && r.at == c.at
      && (C.ParseOfMoment(RecordsParse(decode), states[j + 1].history, r.path, r.at, r.until, r.value) <==>
            Records(decode, c.got) == Records(decode, states[i].history[c.at][c.path]))
  {
    hide Records;
    var parse, c := RecordsParse(decode), states[i].calls[thread];
    C.RunKeepsInv(false, parse, events, states, i);
    C.RunKeepsInv(false, parse, events, states, j + 1);
    assert C.CallOk(false, parse, states[i].history, c);
    ErrorIsReturned(parse, events, states, i, j, thread);
    HistoryStays(parse, events, states, i, j);
    HistoryStays(parse, events, states, j, j + 1);
    NoRecordLost(decode, states[j + 1].history, c.path, c.at, c.len, |states[i].history| - 1,
                 |states[j].history| - 1, c.got);
  }

  /** And what was lost stays lost: until the path is inserted again, evicted or dropped,
      every later call at the same length is served the same records, which are those of no
      moment of that call either. */
  lemma LossIsServed(
    decode: Decoder, events: seq<C.Event>, states: seq<C.State<seq<Record>>>, i: nat, j: nat, k: nat, thread: C.Thread)
    requires InsertsAfterError(RecordsParse(decode), events, states, i, j, thread)
    requires |states[i].calls[thread].got| < states[i].calls[thread].len
    requires j < k < |events| && events[k].Lookup?
    requires events[k].thread in states[k].calls && states[k].calls[events[k].thread].Statted?
    requires var c, later := states[i].calls[thread], states[k].calls[events[k].thread];
      && later.path == c.path && later.len == c.len && c.path in states[k].cache.entries
      && (forall m :: j < m < k ==> !C.Inserts(states[m], events[m], c.path))
      && c.at < |states[i].history| && c.path in states[i].history[c.at]
      && Records(decode, c.got) != Records(decode, states[i].history[c.at][c.path])
    ensures events[k].thread in states[k + 1].calls && states[k + 1].calls[events[k].thread].Returned?
    ensures var r := states[k + 1].calls[events[k].thread];
      && r.value == Records(decode, states[i].calls[thread].got)
      && !C.ParseOfMoment(RecordsParse(decode), states[k + 1].history, r.path, r.at, r.until, r.value)
  {
    hide Records;
    var parse, c, later := RecordsParse(decode), states[i].calls[thread], states[k].calls[events[k].thread];
    ErrorIsReturned(parse, events, states, i, j, thread);
    C.InsertedParseIsServed(parse, events, states, j, k);
    SameLengthSameFile(decode, events, states, i, k, thread);
    NoRecordLost(decode, states[k + 1].history, c.path, later.at, c.len, |states[k].history| - 1,
                 |states[k].history| - 1, c.got);
  }

  /** Two calls that read one length of one path read one file. */
  lemma SameLengthSameFile(
    decode: Decoder, events: seq<C.Event>, states: seq<C.State<seq<Record>>>, i: nat, k: nat, thread: C.Thread)
    requires C.IsRun(RecordsParse(decode), events, states) && i < k < |events| && events[k].Lookup?
    requires thread in states[i].calls && states[i].calls[thread].Reading?
    requires events[k].thread in states[k].calls && states[k].calls[events[k].thread].Statted?
    requires var c, later := states[i].calls[thread], states[k].calls[events[k].thread];
      later.path == c.path && later.len == c.len
    ensures var c, later, h := states[i].calls[thread], states[k].calls[events[k].thread], states[k + 1].history;
      && C.Grows(h) && |states[k].history| <= |h| && states[k].history != []
      && C.LengthReadAt(h, c.path, later.at, c.len) && later.at < |states[k].history|
      && c.at < |states[i].history| && c.path in states[i].history[c.at]
      && h[later.at][c.path] == states[i].history[c.at][c.path]
      && c.path in h[|states[k].history| - 1] && c.got <= h[|states[k].history| - 1][c.path]
  {
    var parse, c, later := RecordsParse(decode), states[i].calls[thread], states[k].calls[events[k].thread];
    hide RecordsParse;
    C.RunKeepsInv(false, parse, events, states, i);
    C.RunKeepsInv(false, parse, events, states, k);
    C.RunKeepsInv(false, parse, events, states, k + 1);
    assert C.CallOk(false, parse, states[i].history, c);
    assert C.CallOk(false, parse, states[k].history, later);
    HistoryStays(parse, events, states, i, k);
    HistoryStays(parse, events, states, k, k + 1);
    var h := states[k + 1].history;
    var now := |states[i].history| - 1;
    assert h[c.at] == states[i].history[c.at] && h[now] == states[i].history[now];
    if later.at <= c.at {
      assert h[later.at][c.path] <= h[c.at][c.path];
    } else {
      assert h[c.at][c.path] <= h[later.at][c.path];
    }
    assert h[now][c.path] <= h[|states[k].history| - 1][c.path];
  }

  // ── The summary itself ────────────────────────────────────────────────────

  /** A read error that loses no record loses nothing of the summary. */
  lemma SummaryIsLossless(prose: Prose, decode: Decoder, s: C.State<Parsed>, thread: C.Thread)
    requires C.Inv(false, SummaryParse(prose, decode), s) && C.Enabled(s, C.ReadError(thread))
    requires var c := s.calls[thread];
      && c.at < |s.history| && c.path in s.history[c.at]
      && Records(decode, c.got) == Records(decode, s.history[c.at][c.path])
    ensures C.Lossless(SummaryParse(prose, decode), s, thread)
  {
    hide Records, Fold;
    var c, parse := s.calls[thread], SummaryParse(prose, decode);
    assert C.CallOk(false, parse, s.history, c);
    assert C.HeldAt(parse, s.history, c.path, c.at, parse(c.got));
  }

  /** What a summary counts. */
  function Counted(p: Parsed): nat {
    p.events.messageCount + p.items.messageCount + p.handoffs
  }

  lemma CountedGrows(prose: Prose, decode: Decoder, a: seq<Byte>, b: seq<Byte>)
    requires a <= b
    ensures Counted(Fold(prose, Records(decode, a))) <= Counted(Fold(prose, Records(decode, b)))
  {
    hide Records, Fold;
    PrefixRecords(decode, a, b);
    var first, all := Records(decode, a), Records(decode, b);
    assert all == first + all[|first|..];
    FoldOfConcatenation(prose, first, all[|first|..]);
  }

  /** One that loses a counted record, a prompt, a reply or a hand-off, leaves a summary of
      no moment of the call. */
  lemma LostCountIsNoMoment(prose: Prose, decode: Decoder, s: C.State<Parsed>, thread: C.Thread)
    requires C.Inv(false, SummaryParse(prose, decode), s) && C.Enabled(s, C.ReadError(thread))
    requires var c := s.calls[thread];
      && c.at < |s.history| && c.path in s.history[c.at]
      && Counted(Fold(prose, Records(decode, c.got))) < Counted(Fold(prose, Records(decode, s.history[c.at][c.path])))
    ensures !C.Lossless(SummaryParse(prose, decode), s, thread)
  {
    hide Records, Fold, Counted;
    var c, parse := s.calls[thread], SummaryParse(prose, decode);
    if C.Lossless(parse, s, thread) {
      var t :| c.at <= t <= s.Now() && C.HeldAt(parse, s.history, c.path, t, parse(c.got));
      assert s.history[c.at][c.path] <= s.history[t][c.path];
      CountedGrows(prose, decode, s.history[c.at][c.path], s.history[t][c.path]);
    }
  }

  lemma OneTimedRecord(prose: Prose, decode: Decoder, line: seq<Byte>)
    requires IsLine(line) && |line| <= MAX_LINE && decode(line).Some? && decode(line).value.timestamp.Some?
    ensures SummaryParse(prose, decode)([]) != SummaryParse(prose, decode)(line)
  {
    NoRecords(decode, []);
    FirstLineRecords(decode, line, []);
    assert line + [] == line;
    var r := decode(line).value;
    FoldStep(prose, [], r);
    assert [] + [r] == [r];
    assert Fold(prose, [r]).firstMs.Some?;
  }

  /** A lone call on a lone file that does not change. */
  ghost function Lone<V>(file: seq<Byte>, moments: nat, cache: Contents<V>, phase: C.Phase<V>): C.State<V> {
    C.State(seq(moments, _ => map[0 := file]), cache, map[0 := phase])
  }

  ghost function Empty<V>(): Contents<V> {
    Contents(map[], [])
  }

  lemma StatStep<V>(parse: seq<Byte> -> V, file: seq<Byte>)
    ensures var s: C.State<V> := C.Initial(map[0 := file]);
      C.Legal(s, C.Stat(0, 0)) && C.Next(parse, s, C.Stat(0, 0)) == Lone(file, 2, Empty(), C.Statted(0, |file|, 0))
  {
  }

  lemma LookupStep<V>(parse: seq<Byte> -> V, file: seq<Byte>)
    ensures var s: C.State<V> := Lone(file, 2, Empty(), C.Statted(0, |file|, 0));
      C.Legal(s, C.Lookup(0)) && C.Next(parse, s, C.Lookup(0)) == Lone(file, 3, Empty(), C.Reading(0, |file|, 0, []))
  {
  }

  lemma ErrorStep<V>(parse: seq<Byte> -> V, file: seq<Byte>)
    ensures var s: C.State<V> := Lone(file, 3, Empty(), C.Reading(0, |file|, 0, []));
      && C.Legal(s, C.ReadError(0))
      && C.Next(parse, s, C.ReadError(0)) == Lone(file, 4, Empty(), C.Parsed(0, |file|, 0, parse([])))
  {
  }

  lemma InsertStep<V>(parse: seq<Byte> -> V, file: seq<Byte>, value: V)
    ensures var s: C.State<V> := Lone(file, 4, Empty(), C.Parsed(0, |file|, 0, value));
      && C.Legal(s, C.Event.Insert(0))
      && var after := C.Next(parse, s, C.Event.Insert(0));
      && after == Lone(file, 5, after.cache, C.Returned(0, 0, 3, value))
      && 0 in after.cache.entries && after.cache.entries[0] == Entry(|file|, value)
  {
    InsertedFrame(Empty<V>(), 0, Entry(|file|, value));
  }

  lemma NoMomentButOne<V>(parse: seq<Byte> -> V, file: seq<Byte>, moments: nat, cache: Contents<V>, value: V, until: nat)
    requires value != parse(file)
    ensures var s := Lone(file, moments, cache, C.Returned(0, 0, until, value));
      !C.ParseOfMoment(parse, s.history, 0, 0, until, value)
  {
  }

  lemma FourSteps<V>(parse: seq<Byte> -> V, events: seq<C.Event>, states: seq<C.State<V>>, files: C.Files)
    requires |events| == 4 && |states| == 5 && states[0] == C.Initial(files)
    requires C.Legal(states[0], events[0]) && states[1] == C.Next(parse, states[0], events[0])
    requires C.Legal(states[1], events[1]) && states[2] == C.Next(parse, states[1], events[1])
    requires C.Legal(states[2], events[2]) && states[3] == C.Next(parse, states[2], events[2])
    requires C.Legal(states[3], events[3]) && states[4] == C.Next(parse, states[3], events[3])
    ensures C.IsRun(parse, events, states)
  {
    hide C.Legal, C.Next;
  }

  lemma LoneFields<V>(file: seq<Byte>, moments: nat, cache: Contents<V>, phase: C.Phase<V>)
    ensures var s := Lone(file, moments, cache, phase);
      s.calls == map[0 := phase] && s.cache == cache
  {
  }

  /** One call on a file whose only read fails at once. */
  lemma FailedAtOnce<V>(parse: seq<Byte> -> V, file: seq<Byte>)
    returns (events: seq<C.Event>, states: seq<C.State<V>>)
    ensures C.IsRun(parse, events, states)
    ensures events == [C.Stat(0, 0), C.Lookup(0), C.ReadError(0), C.Event.Insert(0)]
    ensures |states| == 5 && states[0] == C.Initial(map[0 := file])
    ensures states[4] == Lone(file, 5, states[4].cache, C.Returned(0, 0, 3, parse([])))
    ensures 0 in states[4].cache.entries && states[4].cache.entries[0] == Entry(|file|, parse([]))
  {
    hide C.Next, C.Legal, C.ParseOfMoment, C.IsRun, Lone;
    StatStep(parse, file);
    LookupStep(parse, file);
    ErrorStep(parse, file);
    InsertStep(parse, file, parse([]));
    var s3: C.State<V> := Lone(file, 4, Empty(), C.Parsed(0, |file|, 0, parse([])));
    events := [C.Stat(0, 0), C.Lookup(0), C.ReadError(0), C.Event.Insert(0)];
    states := [C.Initial(map[0 := file]), Lone(file, 2, Empty(), C.Statted(0, |file|, 0)),
               Lone(file, 3, Empty(), C.Reading(0, |file|, 0, [])), s3, C.Next(parse, s3, events[3])];
    FourSteps(parse, events, states, map[0 := file]);
  }

  /** A run that fails: a file of one timed record, whose only read fails at once. The call
      returns, and the cache keeps under the whole file's length, a summary that is the
      parse of no moment of the call. */
  lemma FailingRun(prose: Prose, decode: Decoder, line: seq<Byte>)
    returns (events: seq<C.Event>, states: seq<C.State<Parsed>>)
    requires IsLine(line) && |line| <= MAX_LINE && decode(line).Some? && decode(line).value.timestamp.Some?
    ensures C.IsRun(SummaryParse(prose, decode), events, states)
    ensures events == [C.Stat(0, 0), C.Lookup(0), C.ReadError(0), C.Event.Insert(0)]
    ensures |states| == 5 && states[0] == C.Initial(map[0 := line])
    ensures var s := states[4];
      && 0 in s.calls && s.calls[0].Returned? && 0 in s.cache.entries
      && s.cache.entries[0] == Entry(|line|, s.calls[0].value)
      && !C.ParseOfMoment(SummaryParse(prose, decode), s.history, 0, s.calls[0].at, s.calls[0].until, s.calls[0].value)
  {
    var parse := SummaryParse(prose, decode);
    OneTimedRecord(prose, decode, line);
    hide SummaryParse, C.IsRun, C.ParseOfMoment, Lone;
    events, states := FailedAtOnce(parse, line);
    LoneFields(line, 5, states[4].cache, C.Returned(0, 0, 3, parse([])));
    NoMomentButOne(parse, line, 5, states[4].cache, parse([]), 3);
  }
}
