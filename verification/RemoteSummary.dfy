/** A rollout summarised from its first and last bytes only (`remote_summary`,
    src-tauri/src/codex_rollouts.rs): what the sample can and cannot say about the
    file it was cut from. */
module RemoteSummary {
  import opened Bytes
  import opened Wrappers
  import opened RolloutFold
  import opened RolloutFraming
  import opened RecordMeaning

  // ── The first line ────────────────────────────────────────────────────────

  /** What a rollout's opening record says: its thread, where it ran and when. */
  datatype Meta = Meta(thread: string, cwd: string, startedMs: Option<I64>)

  function MetaOfRecord(r: Record): Option<Meta> {
    if r.kind != SessionMeta || r.payload.None? then None
    else if r.payload.value.id.None? || r.payload.value.cwd.None? then None
    else Some(Meta(r.payload.value.id.value, r.payload.value.cwd.value, Or(r.payload.value.timestamp, r.timestamp)))
  }

  /** The opening record of a stream: its first terminated line, within the cap. */
  ghost function MetaOf(decode: seq<Byte> -> Option<Record>, s: seq<Byte>): Option<Meta> {
    if Lines(s) == [] || |Lines(s)[0]| > MAX_LINE || decode(Lines(s)[0]).None? then None
    else MetaOfRecord(decode(Lines(s)[0]).value)
  }

  lemma FirstLineIsLonger(start: seq<Byte>, rest: seq<Byte>)
    requires NEWLINE !in start
    ensures Lines(start + rest) == [] || |Lines(start + rest)[0]| > |start|
  {
    CutOfConcat(start, rest);
    CutOfNewlineFree(start);
    LinesPartition(rest);
    if Lines(rest) != [] {
      assert Lines(rest)[0] in Lines(rest);
      assert Lines(start + rest)[0] == start + Lines(rest)[0];
    }
  }

  /** `meta_from`, however the reader cuts the stream. */
  method MetaFrom(decode: seq<Byte> -> Option<Record>, reader: Reader) returns (meta: Option<Meta>)
    requires reader.Valid()
    modifies reader
    ensures meta == MetaOf(decode, old(reader.Rest()))
  {
    ghost var start := reader.Rest();
    var line := reader.ReadLine(MAX_LINE);
    if line.Err? {
      CutOfNewlineFree(start);
      return None;
    }
    if line.value == [] || line.value[|line.value| - 1] != NEWLINE {
      FirstLineIsLonger(line.value, reader.Rest());
      if reader.Rest() == [] {
        assert line.value + [] == line.value;
        CutOfNewlineFree(line.value);
      }
      return None;
    }
    FirstLineSplit(line.value, reader.Rest());
    var r := decode(line.value);
    return if r.Some? then MetaOfRecord(r.value) else None;
  }

  /** A rollout that has grown keeps its opening record. */
  lemma MetaOfPrefix(decode: seq<Byte> -> Option<Record>, s: seq<Byte>, more: seq<Byte>)
    requires MetaOf(decode, s).Some?
    ensures MetaOf(decode, s + more) == MetaOf(decode, s)
  {
    var added := PrefixLines(s, more);
  }

  /** A rollout opens a thread exactly when its first line is a session record with an
      id and a directory; the start is the payload's own time, else the record's. */
  lemma OpeningRecord(decode: seq<Byte> -> Option<Record>, line: seq<Byte>, r: Record, more: seq<Byte>)
    requires 0 < |line| <= MAX_LINE && line[|line| - 1] == NEWLINE && NEWLINE !in line[..|line| - 1]
    requires decode(line) == Some(r)
    ensures var meta := MetaOf(decode, line + more);
      && (meta.Some? <==>
            r.kind == SessionMeta && r.payload.Some? && r.payload.value.id.Some? && r.payload.value.cwd.Some?)
      && (meta.Some? ==>
            && r.payload.value.id == Some(meta.value.thread)
            && r.payload.value.cwd == Some(meta.value.cwd)
            && meta.value.startedMs ==
                 if r.payload.value.timestamp.Some? then r.payload.value.timestamp else r.timestamp)
  {
    FirstLineSplit(line, more);
  }

  // ── The summary ───────────────────────────────────────────────────────────

  /** What follows the first newline; nothing when there is none. */
  function AfterFirstNewline(s: seq<Byte>): (rest: seq<Byte>)
    ensures NEWLINE !in s ==> rest == []
    ensures NEWLINE in s ==>
      && |rest| < |s| && rest == s[|s| - |rest|..] && s[|s| - |rest| - 1] == NEWLINE
      && NEWLINE !in s[..|s| - |rest| - 1]
  {
    if s == [] then []
    else if s[0] == NEWLINE then s[1..]
    else AfterFirstNewline(s[1..])
  }

  /** The summary of a whole rollout, or of its head joined with its tail, whose
      first line is cut. */
  ghost function Summarised(
    prose: Prose, decode: seq<Byte> -> Option<Record>, bytes: seq<Byte>, tail: Option<seq<Byte>>): Parsed
  {
    match tail
    case None => Fold(prose, Records(decode, bytes))
    case Some(tail) =>
      Joined(Fold(prose, Records(decode, bytes)), Fold(prose, Records(decode, AfterFirstNewline(tail))))
  }

  /** The same, computed: each page parsed through its own reader. */
  method Summarise(
    prose: Prose, decode: seq<Byte> -> Option<Record>, bytes: seq<Byte>, tail: Option<seq<Byte>>)
    returns (out: Parsed)
    ensures out == Summarised(prose, decode, bytes, tail)
  {
    out := ParsePage(prose, decode, bytes);
    if tail.Some? {
      var end := ParsePage(prose, decode, AfterFirstNewline(tail.value));
      out := Joined(out, end);
    }
  }

  /** Who a history row says spoke last. */
  datatype LastFrom = You | Agent

  datatype Row = Row(
    title: Option<string>, lastMessage: Option<string>, lastFrom: Option<LastFrom>, messageCount: nat,
    subagents: nat, model: Option<string>, startedAt: Option<I64>, lastActivity: Option<I64>, sampled: bool)

  /** `summary_of`; `spawned` is how many rollouts name this one as their parent. */
  function RowOf(meta: Meta, parsed: Parsed, spawned: nat, sampled: bool): Row {
    var thread := parsed.Shown();
    Row(
      thread.title,
      if thread.last.Some? then Some(thread.last.value.text) else None,
      if thread.last.Some? then Some(if thread.last.value.source == UserPrompt then You else Agent) else None,
      thread.messageCount,
      if spawned > 0 then spawned else Subagents(parsed),
      Or(parsed.settingsModel, parsed.turnModel),
      Or(meta.startedMs, Or(parsed.startedMs, parsed.firstMs)),
      parsed.lastMs,
      sampled)
  }

  /** `time` is that of the first record that has one. */
  ghost predicate FirstTimed(records: seq<Record>, time: Option<I64>) {
    match time
    case None => forall j :: 0 <= j < |records| ==> records[j].timestamp.None?
    case Some(ms) =>
      exists k :: 0 <= k < |records| && records[k].timestamp == Some(ms)
                  && forall j :: 0 <= j < k ==> records[j].timestamp.None?
  }

  /** `time` is the greatest of any record. */
  ghost predicate LastTimed(records: seq<Record>, time: Option<I64>) {
    match time
    case None => forall j :: 0 <= j < |records| ==> records[j].timestamp.None?
    case Some(ms) =>
      && (exists k :: 0 <= k < |records| && records[k].timestamp == Some(ms))
      && forall k :: 0 <= k < |records| && records[k].timestamp.Some? ==> records[k].timestamp.value <= ms
  }

  /** What a row shows of its conversation: the first prompt's text, the latest message's
      text and speaker, and how many records say a prompt or a reply. */
  ghost predicate ShowsThread(row: Row, channel: Channel, prose: Prose, records: seq<Record>) {
    && (row.title.None? <==> forall j :: 0 <= j < |records| ==> !Prompts(channel, prose, records[j]))
    && (row.title.Some? ==> exists k :: 0 <= k < |records| && FirstPrompt(channel, prose, records, k, row.title.value))
    && (row.lastMessage.None? <==> row.lastFrom.None?)
    && (row.lastMessage.None? <==> forall j :: 0 <= j < |records| ==> !Speaks(channel, prose, records[j]))
    && (row.lastMessage.Some? ==>
          exists m :: IsLatest(channel, prose, records, Some(m)) && row.lastMessage.value == m.text
                      && (row.lastFrom == Some(You) <==> m.source == UserPrompt))
    && row.messageCount == |CountedRecords(channel, prose, records)|
  }

  lemma RowShowsThread(meta: Meta, prose: Prose, records: seq<Record>, spawned: nat, sampled: bool)
    ensures var eventful := exists k :: 0 <= k < |records| && Speaks(Events, prose, records[k]);
      ShowsThread(RowOf(meta, Fold(prose, records), spawned, sampled), if eventful then Events else Items, prose, records)
  {
    hide Fold, Speaks, Prompts, LatestSaid, FirstPrompt, CountedRecords;
    var eventful := exists k :: 0 <= k < |records| && Speaks(Events, prose, records[k]);
    var channel := if eventful then Events else Items;
    ShownIsTheEvents(prose, records);
    TitleIsTheFirstPrompt(channel, prose, records);
    LastIsTheLatest(channel, prose, records);
    CountIsOfRecords(channel, prose, records);
    assert Fold(prose, records).Shown() == ThreadOn(channel, Fold(prose, records));
  }

  /** The model of a row is the last applied in the settings, else the last a turn names. */
  lemma RowShowsModel(meta: Meta, prose: Prose, records: seq<Record>, spawned: nat, sampled: bool)
    ensures var model := RowOf(meta, Fold(prose, records), spawned, sampled).model;
      if exists j, m :: 0 <= j < |records| && AppliesModel(records[j], m)
      then model.Some? && exists k :: 0 <= k < |records| && AppliesModel(records[k], model.value)
                                      && forall j, m :: k < j < |records| ==> !AppliesModel(records[j], m)
      else if exists j, m :: 0 <= j < |records| && TurnsWithModel(records[j], m)
      then model.Some? && exists k :: 0 <= k < |records| && TurnsWithModel(records[k], model.value)
                                      && forall j, m :: k < j < |records| ==> !TurnsWithModel(records[j], m)
      else model.None?
  {
    hide Fold, AppliesModel, TurnsWithModel;
    SettingsModelIsTheLast(prose, records);
    TurnModelIsTheLast(prose, records);
  }

  /** A row starts when its opening record says, else when its first session record with
      a start does, else at the first time of any record; its last activity is the
      greatest time of any. */
  lemma RowShowsTimes(meta: Meta, prose: Prose, records: seq<Record>, spawned: nat, sampled: bool)
    ensures var row := RowOf(meta, Fold(prose, records), spawned, sampled);
      && (meta.startedMs.Some? ==> row.startedAt == meta.startedMs)
      && (meta.startedMs.None? && (exists j, ms :: 0 <= j < |records| && StartsAt(records[j], ms)) ==>
            row.startedAt.Some? && exists k :: 0 <= k < |records| && StartsAt(records[k], row.startedAt.value)
                                               && forall j, ms :: 0 <= j < k ==> !StartsAt(records[j], ms))
      && (meta.startedMs.None? && (forall j, ms :: 0 <= j < |records| ==> !StartsAt(records[j], ms)) ==>
            FirstTimed(records, row.startedAt))
      && LastTimed(records, row.lastActivity)
  {
    hide Fold, StartsAt;
    StartIsTheFirst(prose, records);
    TimesMeaning(prose, records);
  }

  /** A row's subagents are the rollouts that name it, else the agents of its mail, else
      its hand-offs. */
  lemma RowShowsSubagents(meta: Meta, prose: Prose, records: seq<Record>, spawned: nat, sampled: bool)
    returns (agents: set<string>)
    ensures forall a :: a in agents <==> a != "/root" && exists k :: 0 <= k < |records| && Mails(records[k], a)
    ensures RowOf(meta, Fold(prose, records), spawned, sampled).subagents ==
            if spawned > 0 then spawned
            else if exists k, a :: 0 <= k < |records| && a != "/root" && Mails(records[k], a) then |agents|
            else |HandoffRecords(records)|
  {
    hide Fold, Mails, HandoffRecords;
    agents := Fold(prose, records).agents;
    forall a
      ensures a in agents <==> a != "/root" && exists k :: 0 <= k < |records| && Mails(records[k], a)
    {
      AgentsAreTheMailed(prose, records, a);
    }
    HandoffsAreCounted(prose, records);
    if k, a :| 0 <= k < |records| && a != "/root" && Mails(records[k], a) {
      assert a in agents;
    } else {
      assert agents == {};
    }
  }

  /** The thread and the row of a rollout read far away, or nothing when it does not open
      with a session record. */
  method RemoteRow(
    prose: Prose, decode: seq<Byte> -> Option<Record>, bytes: seq<Byte>, tail: Option<seq<Byte>>)
    returns (row: Option<(string, Row)>)
    ensures row == match MetaOf(decode, bytes)
      case None => None
      case Some(meta) => Some((meta.thread, RowOf(meta, Summarised(prose, decode, bytes, tail), 0, tail.Some?)))
  {
    var reader := NewReader(bytes);
    var meta := MetaFrom(decode, reader);
    if meta.None? {
      return None;
    }
    var parsed := Summarise(prose, decode, bytes, tail);
    return Some((meta.value.thread, RowOf(meta.value, parsed, 0, tail.Some?)));
  }

  method NewReader(bytes: seq<Byte>) returns (reader: Reader)
    ensures fresh(reader) && reader.Valid() && reader.Rest() == bytes
  {
    var buffers := if bytes == [] then [] else [bytes];
    reader := new Reader(buffers, false);
    if bytes != [] {
      assert Flatten(buffers) == bytes + Flatten(buffers[1..]);
    }
  }

  method ParsePage(prose: Prose, decode: seq<Byte> -> Option<Record>, bytes: seq<Byte>) returns (out: Parsed)
    ensures out == Fold(prose, Records(decode, bytes))
  {
    var reader := NewReader(bytes);
    out := ParseReader(prose, decode, reader);
  }

  lemma RecordsOfPrefix(decode: seq<Byte> -> Option<Record>, s: seq<Byte>, more: seq<Byte>)
    returns (added: seq<Record>)
    ensures Records(decode, s + more) == Records(decode, s) + added
  {
    var lines := PrefixLines(s, more);
    KeptOfConcat(Lines(s), lines);
    DecodedOfConcat(decode, Kept(Lines(s)), Kept(lines));
    added := Decoded(decode, Kept(lines));
  }

  lemma RecordsAfterNewline(decode: seq<Byte> -> Option<Record>, s: seq<Byte>, more: seq<Byte>)
    requires s != [] && s[|s| - 1] == NEWLINE
    ensures Records(decode, s + more) == Records(decode, s) + Records(decode, more)
  {
    LinesAfterNewline(s, more);
    KeptOfConcat(Lines(s), Lines(more));
    DecodedOfConcat(decode, Kept(Lines(s)), Kept(Lines(more)));
  }

  lemma SampledBytes(file: seq<Byte>, headEnd: nat, tailStart: nat) returns (middle: seq<Byte>)
    requires headEnd <= tailStart <= |file|
    ensures var rest := AfterFirstNewline(file[tailStart..]);
      && file == file[..headEnd] + middle + rest
      && (rest == [] || (middle != [] && middle[|middle| - 1] == NEWLINE))
  {
    var rest := AfterFirstNewline(file[tailStart..]);
    middle := file[headEnd..|file| - |rest|];
  }

  /** A head and a tail that do not overlap hold the first and the last of the
      file's records, none twice, none cut. */
  lemma SampledRecords(decode: seq<Byte> -> Option<Record>, file: seq<Byte>, headEnd: nat, tailStart: nat)
    returns (middle: seq<Record>)
    requires headEnd <= tailStart <= |file|
    ensures Records(decode, file) ==
            Records(decode, file[..headEnd]) + middle + Records(decode, AfterFirstNewline(file[tailStart..]))
  {
    var between := SampledBytes(file, headEnd, tailStart);
    middle := RecordsOfPrefix(decode, file[..headEnd], between);
    var upTo, rest := file[..headEnd] + between, AfterFirstNewline(file[tailStart..]);
    if rest == [] {
      NoRecords(decode, rest);
      assert upTo + rest == upTo;
    } else {
      RecordsAfterNewline(decode, upTo, rest);
    }
  }

  /** Whatever the file, and wherever its head ends and its tail starts, each
      conversation's count in the sampled summary, its hand-offs and its agents are
      a lower bound of the whole file's; a start and a title found in the head are
      the file's own. */
  lemma SampledSummaryIsALowerBound(
    prose: Prose, decode: seq<Byte> -> Option<Record>, file: seq<Byte>, headEnd: nat, tailStart: nat)
    requires headEnd <= tailStart <= |file|
    ensures var head := Fold(prose, Records(decode, file[..headEnd]));
      var sample := Summarised(prose, decode, file[..headEnd], Some(file[tailStart..]));
      var whole := Summarised(prose, decode, file, None);
      && AtMost(sample, whole)
      && (head.startedMs.Some? ==> sample.startedMs == whole.startedMs)
      && (head.events.title.Some? ==> sample.events.title == whole.events.title)
  {
    var middle := SampledRecords(decode, file, headEnd, tailStart);
    SampleIsALowerBound(prose, Records(decode, file[..headEnd]), middle,
                        Records(decode, AfterFirstNewline(file[tailStart..])));
  }

  /** The row of a sampled rollout beside the row of the whole: the same thread, a start
      its opening record gives, a message count that is a lower bound if the sample has
      an event message or at most one item message, and a subagent count that is one if
      the sample names an agent or counts at most one hand-off. */
  lemma SampledRow(
    prose: Prose, decode: seq<Byte> -> Option<Record>, file: seq<Byte>, headEnd: nat, tailStart: nat)
    requires headEnd <= tailStart <= |file| && MetaOf(decode, file[..headEnd]).Some?
    ensures var meta := MetaOf(decode, file[..headEnd]);
      var parsed := Summarised(prose, decode, file[..headEnd], Some(file[tailStart..]));
      var sample := RowOf(meta.value, parsed, 0, true);
      var whole := RowOf(meta.value, Summarised(prose, decode, file, None), 0, false);
      && MetaOf(decode, file) == meta
      && (meta.value.startedMs.Some? ==> sample.startedAt == whole.startedAt)
      && (parsed.events.messageCount > 0 || parsed.items.messageCount <= 1 ==> sample.messageCount <= whole.messageCount)
      && (parsed.agents != {} || parsed.handoffs <= 1 ==> sample.subagents <= whole.subagents)
  {
    hide Fold, Records, MetaOf, Joined;
    assert file == file[..headEnd] + file[headEnd..];
    MetaOfPrefix(decode, file[..headEnd], file[headEnd..]);
    var middle := SampledRecords(decode, file, headEnd, tailStart);
    var head, tail := Records(decode, file[..headEnd]), Records(decode, AfterFirstNewline(file[tailStart..]));
    ShownCountBound(prose, head, middle, tail);
    SampleIsALowerBound(prose, head, middle, tail);
    Smaller(Joined(Fold(prose, head), Fold(prose, tail)).agents, Fold(prose, head + middle + tail).agents);
  }
}
