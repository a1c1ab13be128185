/** The session summary a Codex rollout folds into, and the merge of two partial
    summaries (src-tauri/src/codex_rollouts.rs).

    The JSON decoder, RFC 3339 parsing and the display-line helpers are outside
    the model: a record arrives decoded, its tags as enumerations (every tag the
    code never names is the `Other` of its kind, and so is a missing one), its
    timestamps already milliseconds, and `one_line` / `is_injected` are the two
    functions of a `Prose` value. */
module RolloutFold {
  import opened Wrappers

  const I64_MAX: int := 0x7FFF_FFFF_FFFF_FFFF

  type I64 = i: int | -I64_MAX - 1 <= i <= I64_MAX

  const ROOT_AGENT := "/root"

  datatype RecordKind =
    | SessionMeta | EventMsg | ResponseItem | TurnContext | InterAgentMetadata | OtherRecord

  datatype PayloadKind =
    | UserMessagePayload | AgentMessagePayload | MessagePayload | ThreadSettingsApplied | OtherPayload

  datatype Role = User | Assistant | OtherRole

  datatype Record = Record(timestamp: Option<I64>, kind: RecordKind, payload: Option<Payload>)

  datatype Payload = Payload(
    kind: PayloadKind,
    timestamp: Option<I64>,
    message: Option<string>,
    role: Role,
    content: seq<string>,
    settingsModel: Option<string>,
    model: Option<string>,
    author: Option<string>,
    recipient: Option<string>,
    id: Option<string>,
    cwd: Option<string>)

  /** The text helpers the fold calls without looking inside. */
  datatype Prose = Prose(oneLine: string -> Option<string>, injected: string -> bool) {
    /** The display line of a text; of a user's text, none when Codex injected it. */
    function Line(asUser: bool, text: string): Option<string> {
      if asUser && injected(text) then None else oneLine(text)
    }

    /** The first block that has one (`blocks.iter().find_map(..)`). */
    function FirstLine(asUser: bool, blocks: seq<string>): Option<string> {
      if blocks == [] then None
      else if Line(asUser, blocks[0]).Some? then Line(asUser, blocks[0])
      else FirstLine(asUser, blocks[1..])
    }
  }

  datatype LastSource = UserPrompt | AssistantMessage | AgentMail

  datatype Message = Message(key: I64, text: string, source: LastSource)

  datatype Thread = Thread(title: Option<string>, last: Option<Message>, messageCount: nat)

  datatype Parsed = Parsed(
    events: Thread,
    items: Thread,
    settingsModel: Option<string>,
    turnModel: Option<string>,
    startedMs: Option<I64>,
    firstMs: Option<I64>,
    lastMs: Option<I64>,
    agents: set<string>,
    handoffs: nat)
  {
    /** `Parsed::thread`: the event prompts when there are any, else the items. */
    function Shown(): Thread {
      if events.messageCount > 0 then events else items
    }
  }

  const NO_THREAD := Thread(None, None, 0)
  const NOTHING := Parsed(NO_THREAD, NO_THREAD, None, None, None, None, None, {}, 0)

  // ── What one record contributes ───────────────────────────────────────────

  /** The sort key of a message: a missing timestamp is "at least as late". */
  function Key(timestamp: Option<I64>): I64 {
    if timestamp.Some? then timestamp.value else I64_MAX
  }

  function AsMessage(r: Record, text: Option<string>, source: LastSource): Option<Message> {
    if text.Some? then Some(Message(Key(r.timestamp), text.value, source)) else None
  }

  predicate Tagged(r: Record, kind: RecordKind, payloadKind: PayloadKind) {
    r.kind == kind && r.payload.Some? && r.payload.value.kind == payloadKind
  }

  /** What a record says in the `event_msg` conversation. */
  function EventMessage(prose: Prose, r: Record): Option<Message> {
    if Tagged(r, EventMsg, UserMessagePayload) && r.payload.value.message.Some? then
      AsMessage(r, prose.Line(true, r.payload.value.message.value), UserPrompt)
    else if Tagged(r, EventMsg, AgentMessagePayload) && r.payload.value.message.Some? then
      AsMessage(r, prose.Line(false, r.payload.value.message.value), AssistantMessage)
    else None
  }

  /** What a record says in the `response_item` conversation, mail to the root included. */
  function ItemMessage(prose: Prose, r: Record): Option<Message> {
    if Tagged(r, ResponseItem, MessagePayload) && r.payload.value.role == User then
      AsMessage(r, prose.FirstLine(true, r.payload.value.content), UserPrompt)
    else if Tagged(r, ResponseItem, MessagePayload) && r.payload.value.role == Assistant then
      AsMessage(r, prose.FirstLine(false, r.payload.value.content), AssistantMessage)
    else if Tagged(r, ResponseItem, AgentMessagePayload) && r.payload.value.recipient == Some(ROOT_AGENT) then
      AsMessage(r, prose.FirstLine(false, r.payload.value.content), AgentMail)
    else None
  }

  function SettingsModelOf(r: Record): Option<string> {
    if Tagged(r, EventMsg, ThreadSettingsApplied) then r.payload.value.settingsModel else None
  }

  function TurnModelOf(r: Record): Option<string> {
    if r.kind == TurnContext && r.payload.Some? then r.payload.value.model else None
  }

  function StartOf(r: Record): Option<I64> {
    if r.kind == SessionMeta && r.payload.Some? then r.payload.value.timestamp else None
  }

  function NamedAgent(agent: Option<string>): set<string> {
    if agent.Some? && agent.value != ROOT_AGENT then {agent.value} else {}
  }

  function AgentsOf(r: Record): set<string> {
    if Tagged(r, ResponseItem, AgentMessagePayload)
    then NamedAgent(r.payload.value.author) + NamedAgent(r.payload.value.recipient)
    else {}
  }

  function HandoffsOf(r: Record): nat {
    if r.kind == InterAgentMetadata then 1 else 0
  }

  // ── The fold ──────────────────────────────────────────────────────────────

  /** Of two messages, the second unless it is strictly earlier. */
  function Later(before: Option<Message>, next: Option<Message>): Option<Message> {
    if before.None? then next
    else if next.None? then before
    else if next.value.key >= before.value.key then next
    else before
  }

  function Latest(before: Option<I64>, next: Option<I64>): Option<I64> {
    if before.None? then next
    else if next.None? then before
    else if next.value > before.value then next
    else before
  }

  function Heard(thread: Thread, message: Option<Message>): Thread {
    match message
    case None => thread
    case Some(m) =>
      Thread(
        Or(thread.title, if m.source == UserPrompt then Some(m.text) else None),
        Later(thread.last, message),
        thread.messageCount + if m.source == AgentMail then 0 else 1)
  }

  function Step(prose: Prose, out: Parsed, r: Record): Parsed {
    Parsed(
      Heard(out.events, EventMessage(prose, r)),
      Heard(out.items, ItemMessage(prose, r)),
      Or(SettingsModelOf(r), out.settingsModel),
      Or(TurnModelOf(r), out.turnModel),
      Or(out.startedMs, StartOf(r)),
      Or(out.firstMs, r.timestamp),
      Latest(out.lastMs, r.timestamp),
      out.agents + AgentsOf(r),
      out.handoffs + HandoffsOf(r))
  }

  /** The summary of a list of records: what `parse_reader` has built after them. */
  function Fold(prose: Prose, records: seq<Record>): Parsed {
    if records == [] then NOTHING
    else Step(prose, Fold(prose, records[..|records| - 1]), records[|records| - 1])
  }

  // ── The in-place parser ───────────────────────────────────────────────────

  /** One conversation, updated as records arrive. */
  class ThreadCell {
    var title: Option<string>
    var last: Option<Message>
    var messageCount: nat

    constructor ()
      ensures Value() == NO_THREAD
    {
      title, last, messageCount := None, None, 0;
    }

    function Value(): Thread
      reads this
    {
      Thread(title, last, messageCount)
    }

    method Reply(ts: Option<I64>, text: string, source: LastSource)
      modifies this`last
      ensures last == Later(old(last), Some(Message(Key(ts), text, source)))
    {
      var key: I64 := if ts.Some? then ts.value else I64_MAX;
      if last.None? || key >= last.value.key {
        last := Some(Message(key, text, source));
      }
    }

    method Prompt(ts: Option<I64>, text: string)
      modifies this
      ensures Value() == Heard(old(Value()), Some(Message(Key(ts), text, UserPrompt)))
    {
      messageCount := messageCount + 1;
      if title.None? {
        title := Some(text);
      }
      Reply(ts, text, UserPrompt);
    }

    method Answer(ts: Option<I64>, text: string)
      modifies this
      ensures Value() == Heard(old(Value()), Some(Message(Key(ts), text, AssistantMessage)))
    {
      messageCount := messageCount + 1;
      Reply(ts, text, AssistantMessage);
    }
  }

  /** The summary being built; `Take` is the body of the parse loop. */
  class SummaryBuilder {
    const prose: Prose
    const events: ThreadCell
    const items: ThreadCell
    var settingsModel: Option<string>
    var turnModel: Option<string>
    var startedMs: Option<I64>
    var firstMs: Option<I64>
    var lastMs: Option<I64>
    var agents: set<string>
    var handoffs: nat

    constructor (prose: Prose)
      ensures Valid() && fresh(events) && fresh(items)
      ensures this.prose == prose && Value() == NOTHING
    {
      this.prose := prose;
      events := new ThreadCell();
      items := new ThreadCell();
      settingsModel, turnModel, startedMs, firstMs, lastMs := None, None, None, None, None;
      agents, handoffs := {}, 0;
    }

    predicate Valid() {
      events != items
    }

    function Value(): Parsed
      reads this, events, items
    {
      Parsed(events.Value(), items.Value(), settingsModel, turnModel, startedMs, firstMs, lastMs, agents, handoffs)
    }

    method Take(r: Record)
      requires Valid()
      modifies this, events, items
      ensures Value() == Step(prose, old(Value()), r)
    {
      if r.timestamp.Some? {
        if firstMs.None? {
          firstMs := r.timestamp;
        }
        lastMs := if lastMs.Some? && lastMs.value >= r.timestamp.value then lastMs else r.timestamp;
      }
      if r.payload.None? {
        if r.kind == InterAgentMetadata {
          handoffs := handoffs + 1;
        }
        return;
      }
      match r.kind
      case SessionMeta =>
        if startedMs.None? {
          startedMs := r.payload.value.timestamp;
        }
      case EventMsg =>
        TakeEvent(r, r.payload.value);
      case ResponseItem =>
        TakeItem(r, r.payload.value);
      case TurnContext =>
        if r.payload.value.model.Some? {
          turnModel := r.payload.value.model;
        }
      case InterAgentMetadata =>
        handoffs := handoffs + 1;
      case OtherRecord =>
    }

    method TakeEvent(r: Record, p: Payload)
      requires Valid() && r.kind == EventMsg && r.payload == Some(p)
      modifies events, this`settingsModel
      ensures events.Value() == Heard(old(events.Value()), EventMessage(prose, r))
      ensures settingsModel == Or(SettingsModelOf(r), old(settingsModel))
    {
      if p.kind == UserMessagePayload {
        if p.message.Some? && prose.Line(true, p.message.value).Some? {
          events.Prompt(r.timestamp, prose.Line(true, p.message.value).value);
        }
      } else if p.kind == AgentMessagePayload {
        if p.message.Some? && prose.Line(false, p.message.value).Some? {
          events.Answer(r.timestamp, prose.Line(false, p.message.value).value);
        }
      } else if p.kind == ThreadSettingsApplied {
        if p.settingsModel.Some? {
          settingsModel := p.settingsModel;
        }
      }
    }

    method TakeItem(r: Record, p: Payload)
      requires Valid() && r.kind == ResponseItem && r.payload == Some(p)
      modifies items, this`agents
      ensures items.Value() == Heard(old(items.Value()), ItemMessage(prose, r))
      ensures agents == old(agents) + AgentsOf(r)
    {
      if p.kind == MessagePayload {
        if p.role == User {
          var line := prose.FirstLine(true, p.content);
          if line.Some? {
            items.Prompt(r.timestamp, line.value);
          }
        } else if p.role == Assistant {
          var line := prose.FirstLine(false, p.content);
          if line.Some? {
            items.Answer(r.timestamp, line.value);
          }
        }
      } else if p.kind == AgentMessagePayload {
        TakeMail(r);
      }
    }

    /** Inter-agent mail: a report to the root is a candidate last message, and
        both ends other than the root are counted as agents. */
    method TakeMail(r: Record)
      requires Valid() && Tagged(r, ResponseItem, AgentMessagePayload)
      modifies items`last, this`agents
      ensures items.Value() == Heard(old(items.Value()), ItemMessage(prose, r))
      ensures agents == old(agents) + AgentsOf(r)
    {
      var p := r.payload.value;
      if p.recipient == Some(ROOT_AGENT) {
        var line := prose.FirstLine(false, p.content);
        if line.Some? {
          items.Reply(r.timestamp, line.value, AgentMail);
        }
      }
      if p.author.Some? && p.author.value != ROOT_AGENT {
        agents := agents + {p.author.value};
      }
      if p.recipient.Some? && p.recipient.value != ROOT_AGENT {
        agents := agents + {p.recipient.value};
      }
    }
  }

  // ── What the fold means ───────────────────────────────────────────────────

  /** The two conversations of a rollout. */
  datatype Channel = Events | Items

  function MessageOn(channel: Channel, prose: Prose, r: Record): Option<Message> {
    if channel.Events? then EventMessage(prose, r) else ItemMessage(prose, r)
  }

  function ThreadOn(channel: Channel, p: Parsed): Thread {
    if channel.Events? then p.events else p.items
  }

  /** The messages a conversation heard, in order. */
  function Messages(channel: Channel, prose: Prose, records: seq<Record>): seq<Message> {
    if records == [] then []
    else
      var earlier := Messages(channel, prose, records[..|records| - 1]);
      var m := MessageOn(channel, prose, records[|records| - 1]);
      if m.Some? then earlier + [m.value] else earlier
  }

  /** `m` is the message with the greatest key and, among equals, the latest position. */
  ghost predicate IsLast(m: Option<Message>, messages: seq<Message>) {
    match m
    case None => messages == []
    case Some(m) =>
      exists k :: 0 <= k < |messages| && messages[k] == m && IsLastAt(k, messages)
  }

  ghost predicate IsLastAt(k: nat, messages: seq<Message>)
    requires k < |messages|
  {
    forall j :: 0 <= j < |messages| ==>
      if j <= k then messages[j].key <= messages[k].key else messages[j].key < messages[k].key
  }

  /** `title` is the first prompt's line. */
  ghost predicate IsTitle(title: Option<string>, messages: seq<Message>) {
    match title
    case None => forall j :: 0 <= j < |messages| ==> messages[j].source != UserPrompt
    case Some(text) =>
      exists k :: 0 <= k < |messages| && messages[k].source == UserPrompt && messages[k].text == text
                  && forall j :: 0 <= j < k ==> messages[j].source != UserPrompt
  }

  /** How many positions of `messages` hold a prompt or a reply; agent mail is not counted. */
  ghost predicate IsCount(count: nat, messages: seq<Message>) {
    count == |Counted(messages)|
  }

  ghost function Counted(messages: seq<Message>): set<nat> {
    set k: nat | k < |messages| && messages[k].source != AgentMail
  }

  ghost predicate Describes(thread: Thread, messages: seq<Message>) {
    IsTitle(thread.title, messages) && IsLast(thread.last, messages) && IsCount(thread.messageCount, messages)
  }

  lemma HeardDescribes(thread: Thread, messages: seq<Message>, m: Message)
    requires Describes(thread, messages)
    ensures Describes(Heard(thread, Some(m)), messages + [m])
  {
    var more := messages + [m];
    var after := Heard(thread, Some(m));
    assert more[|messages|] == m;
    assert forall j :: 0 <= j < |messages| ==> more[j] == messages[j];
    assert IsTitle(after.title, more) by {
      if thread.title.Some? {
        var k :| 0 <= k < |messages| && messages[k].source == UserPrompt && messages[k].text == thread.title.value
                 && forall j :: 0 <= j < k ==> messages[j].source != UserPrompt;
        assert more[k] == messages[k];
      }
    }
    assert IsLast(after.last, more) by {
      if thread.last.Some? {
        var k :| 0 <= k < |messages| && messages[k] == thread.last.value && IsLastAt(k, messages);
        if m.key >= thread.last.value.key {
          assert IsLastAt(|messages|, more);
        } else {
          assert more[k] == messages[k] && IsLastAt(k, more);
        }
      } else {
        assert IsLastAt(|messages|, more);
      }
    }
    assert IsCount(after.messageCount, more) by {
      assert Counted(more) == Counted(messages) + if m.source != AgentMail then {|messages|} else {};
    }
  }

  /** Over every record sequence, a thread's title, last message and count are the
      first prompt, the greatest-key latest message, and the prompts and replies of
      its own conversation. */
  lemma {:induction false} FoldMeaning(channel: Channel, prose: Prose, records: seq<Record>)
    ensures Describes(ThreadOn(channel, Fold(prose, records)), Messages(channel, prose, records))
  {
    if records == [] {
      assert Counted([]) == {};
    } else {
      var before, r := records[..|records| - 1], records[|records| - 1];
      FoldMeaning(channel, prose, before);
      var m := MessageOn(channel, prose, r);
      if m.Some? {
        HeardDescribes(ThreadOn(channel, Fold(prose, before)), Messages(channel, prose, before), m.value);
      }
    }
  }

  /** `Describes` leaves no freedom: it is a definition of the thread. */
  lemma DescriptionIsUnique(a: Thread, b: Thread, messages: seq<Message>)
    requires Describes(a, messages) && Describes(b, messages)
    ensures a == b
  {
    if a.last.Some? {
      var i :| 0 <= i < |messages| && messages[i] == a.last.value && IsLastAt(i, messages);
      var j :| 0 <= j < |messages| && messages[j] == b.last.value && IsLastAt(j, messages);
      assert i == j;
    }
    if a.title.Some? {
      var i :| 0 <= i < |messages| && messages[i].source == UserPrompt && messages[i].text == a.title.value
               && forall j :: 0 <= j < i ==> messages[j].source != UserPrompt;
      assert b.title.Some?;
    }
  }

  /** The record-level fields: the times bracket every timestamp seen, and the
      last model named wins. */
  lemma {:induction false} TimesMeaning(prose: Prose, records: seq<Record>)
    ensures var p := Fold(prose, records);
      && (p.firstMs.None? <==> p.lastMs.None?)
      && (p.lastMs.None? <==> forall i :: 0 <= i < |records| ==> records[i].timestamp.None?)
      && (p.lastMs.Some? ==>
            && (exists i :: 0 <= i < |records| && records[i].timestamp == p.lastMs)
            && (forall i :: 0 <= i < |records| && records[i].timestamp.Some? ==>
                  records[i].timestamp.value <= p.lastMs.value)
            && (exists i :: 0 <= i < |records| && records[i].timestamp == p.firstMs
                  && forall j :: 0 <= j < i ==> records[j].timestamp.None?))
  {
    if records != [] {
      var before, r := records[..|records| - 1], records[|records| - 1];
      TimesMeaning(prose, before);
      var p, q := Fold(prose, before), Fold(prose, records);
      assert forall i :: 0 <= i < |before| ==> before[i] == records[i];
      if p.firstMs.Some? {
        var i :| 0 <= i < |before| && before[i].timestamp == p.lastMs;
        assert records[i].timestamp == p.lastMs;
        var j :| 0 <= j < |before| && before[j].timestamp == p.firstMs && forall k :: 0 <= k < j ==> before[k].timestamp.None?;
        assert records[j].timestamp == p.firstMs;
      }
      assert records[|records| - 1].timestamp == r.timestamp;
    }
  }

  // ── Joining a head and a tail ─────────────────────────────────────────────

  function ThreadJoined(head: Thread, tail: Thread): Thread {
    Thread(Or(head.title, tail.title), Or(tail.last, head.last), head.messageCount + tail.messageCount)
  }

  function Joined(head: Parsed, tail: Parsed): Parsed {
    Parsed(
      ThreadJoined(head.events, tail.events),
      ThreadJoined(head.items, tail.items),
      Or(tail.settingsModel, head.settingsModel),
      Or(tail.turnModel, head.turnModel),
      Or(head.startedMs, tail.startedMs),
      Or(head.firstMs, tail.firstMs),
      Or(tail.lastMs, head.lastMs),
      head.agents + tail.agents,
      head.handoffs + tail.handoffs)
  }

  /** The order-respecting join: `Joined`, but with the later of the two last
      messages and of the two last times. */
  function JoinedInOrder(head: Parsed, tail: Parsed): Parsed {
    var both := Joined(head, tail);
    both.(events := both.events.(last := Later(head.events.last, tail.events.last)),
          items := both.items.(last := Later(head.items.last, tail.items.last)),
          lastMs := Latest(head.lastMs, tail.lastMs))
  }

  lemma HeardInOrder(head: Thread, tail: Thread, m: Option<Message>)
    ensures var joined := ThreadJoined(head, tail).(last := Later(head.last, tail.last));
      Heard(joined, m) == ThreadJoined(head, Heard(tail, m)).(last := Later(head.last, Heard(tail, m).last))
  {
  }

  lemma StepInOrder(prose: Prose, head: Parsed, tail: Parsed, r: Record)
    ensures Step(prose, JoinedInOrder(head, tail), r) == JoinedInOrder(head, Step(prose, tail, r))
  {
    HeardInOrder(head.events, tail.events, EventMessage(prose, r));
    HeardInOrder(head.items, tail.items, ItemMessage(prose, r));
  }

  lemma FoldStep(prose: Prose, before: seq<Record>, r: Record)
    ensures Fold(prose, before + [r]) == Step(prose, Fold(prose, before), r)
  {
    assert (before + [r])[..|before|] == before;
  }

  /** For every split of every record list, the whole fold is the order-respecting
      join of the two folds. */
  lemma {:induction false} FoldOfConcatenation(prose: Prose, head: seq<Record>, tail: seq<Record>)
    ensures Fold(prose, head + tail) == JoinedInOrder(Fold(prose, head), Fold(prose, tail))
    decreases |tail|
  {
    if tail == [] {
      assert head + tail == head;
    } else {
      var before, r := tail[..|tail| - 1], tail[|tail| - 1];
      FoldOfConcatenation(prose, head, before);
      assert before + [r] == tail && (head + before) + [r] == head + tail;
      FoldStep(prose, before, r);
      FoldStep(prose, head + before, r);
      StepInOrder(prose, Fold(prose, head), Fold(prose, before), r);
    }
  }

  /** Neither thread's last message, nor the last time, is older in the tail than
      in the head. A caller can check it on the two partial summaries. */
  predicate TailIsNotOlder(head: Parsed, tail: Parsed) {
    && (head.events.last.Some? && tail.events.last.Some? ==> head.events.last.value.key <= tail.events.last.value.key)
    && (head.items.last.Some? && tail.items.last.Some? ==> head.items.last.value.key <= tail.items.last.value.key)
    && (head.lastMs.Some? && tail.lastMs.Some? ==> head.lastMs.value <= tail.lastMs.value)
  }

  /** `Parsed::joined` of two folds is the fold of the whole exactly when the tail
      is not older than the head; every field but the last messages and the last
      time agrees regardless. */
  lemma JoinedIsTheWholeFold(prose: Prose, head: seq<Record>, tail: seq<Record>)
    ensures var joined, whole := Joined(Fold(prose, head), Fold(prose, tail)), Fold(prose, head + tail);
      && (joined == whole <==> TailIsNotOlder(Fold(prose, head), Fold(prose, tail)))
      && joined.events.(last := None) == whole.events.(last := None)
      && joined.items.(last := None) == whole.items.(last := None)
      && joined.settingsModel == whole.settingsModel && joined.turnModel == whole.turnModel
      && joined.startedMs == whole.startedMs && joined.firstMs == whole.firstMs
      && joined.agents == whole.agents && joined.handoffs == whole.handoffs
  {
    FoldOfConcatenation(prose, head, tail);
  }

  /** A reply event at a given time. */
  function ReplyAt(time: I64, text: string): Record {
    Record(Some(time), EventMsg,
           Some(Payload(AgentMessagePayload, None, Some(text), OtherRole, [], None, None, None, None, None, None)))
  }

  /** The record every rollout opens with: its thread and where it ran. */
  const SESSION := Record(None, SessionMeta,
    Some(Payload(OtherPayload, None, None, OtherRole, [], None, None, None, None, Some("thread"), Some("/work"))))

  lemma SessionSaysNothing(prose: Prose)
    ensures Fold(prose, [SESSION]) == NOTHING
  {
    FoldStep(prose, [], SESSION);
    assert [] + [SESSION] == [SESSION];
  }

  lemma OneReply(prose: Prose, before: seq<Record>, time: I64, text: string)
    requires prose.oneLine(text).Some? && Fold(prose, before) == NOTHING
    ensures Fold(prose, before + [ReplyAt(time, text)]).events.last ==
            Some(Message(time, prose.oneLine(text).value, AssistantMessage))
  {
    FoldStep(prose, before, ReplyAt(time, text));
  }

  /** A head whose clock ran ahead: the join reports the tail's older reply. */
  lemma JoinedCanBeOlder(prose: Prose, text: string) returns (head: seq<Record>, tail: seq<Record>)
    requires prose.oneLine(text).Some?
    ensures head == [SESSION] + [ReplyAt(2, text)] && tail == [] + [ReplyAt(1, text)]
    ensures Joined(Fold(prose, head), Fold(prose, tail)).events.last.Some?
    ensures Joined(Fold(prose, head), Fold(prose, tail)).events.last.value.key == 1
    ensures Fold(prose, head + tail).events.last.Some?
    ensures Fold(prose, head + tail).events.last.value.key == 2
  {
    SessionSaysNothing(prose);
    head, tail := [SESSION] + [ReplyAt(2, text)], [] + [ReplyAt(1, text)];
    OneReply(prose, [SESSION], 2, text);
    OneReply(prose, [], 1, text);
    hide Fold, Step;
    FoldOfConcatenation(prose, head, tail);
  }

  // ── A sampled rollout: head and tail with the middle dropped ──────────────

  ghost predicate AtMost(sample: Parsed, whole: Parsed) {
    && sample.events.messageCount <= whole.events.messageCount
    && sample.items.messageCount <= whole.items.messageCount
    && sample.handoffs <= whole.handoffs
    && sample.agents <= whole.agents
  }

  /** Whatever records are dropped from the middle, each conversation's count, the
      hand-offs and the agents of the sample are a lower bound of the whole. */
  lemma SampleIsALowerBound(prose: Prose, head: seq<Record>, middle: seq<Record>, tail: seq<Record>)
    ensures AtMost(Joined(Fold(prose, head), Fold(prose, tail)), Fold(prose, head + middle + tail))
    ensures Fold(prose, head).startedMs.Some? ==>
      Joined(Fold(prose, head), Fold(prose, tail)).startedMs == Fold(prose, head + middle + tail).startedMs
    ensures Fold(prose, head).events.title.Some? ==>
      Joined(Fold(prose, head), Fold(prose, tail)).events.title == Fold(prose, head + middle + tail).events.title
  {
    FoldOfConcatenation(prose, head, middle);
    FoldOfConcatenation(prose, head + middle, tail);
  }

  /** The count a history row shows is a lower bound exactly when the sample still
      shows the conversation the whole shows, or shows no more than it: losing every
      event prompt switches the row to the item conversation. */
  lemma ShownCountBound(prose: Prose, head: seq<Record>, middle: seq<Record>, tail: seq<Record>)
    ensures var sample, whole := Joined(Fold(prose, head), Fold(prose, tail)), Fold(prose, head + middle + tail);
      sample.Shown().messageCount <= whole.Shown().messageCount <==>
        (sample.events.messageCount > 0 || Fold(prose, middle).events.messageCount == 0
         || sample.items.messageCount <= Fold(prose, middle).events.messageCount)
  {
    FoldOfConcatenation(prose, head, middle);
    FoldOfConcatenation(prose, head + middle, tail);
  }

  lemma EventReplyCounts(prose: Prose, text: string)
    requires prose.oneLine(text).Some?
    ensures Fold(prose, [ReplyAt(0, text)]).events.messageCount == 1
  {
    FoldStep(prose, [], ReplyAt(0, text));
    assert [] + [ReplyAt(0, text)] == [ReplyAt(0, text)];
  }

  ghost predicate ShownIsALowerBound(prose: Prose, head: seq<Record>, middle: seq<Record>, tail: seq<Record>) {
    Joined(Fold(prose, head), Fold(prose, tail)).Shown().messageCount
      <= Fold(prose, head + middle + tail).Shown().messageCount
  }

  /** What the sample alone can tell: the shown count is a lower bound of every rollout
      with that head and tail, whatever its middle, exactly when the sample has an event
      message or at most one item message. `text` is any text with a display line. */
  lemma SampleBoundsEveryMiddle(prose: Prose, head: seq<Record>, tail: seq<Record>, text: string)
    requires prose.oneLine(text).Some?
    ensures var sample := Joined(Fold(prose, head), Fold(prose, tail));
      (forall middle :: ShownIsALowerBound(prose, head, middle, tail)) <==>
        sample.events.messageCount > 0 || sample.items.messageCount <= 1
  {
    hide Fold;
    forall middle
      ensures ShownIsALowerBound(prose, head, middle, tail) <==>
        var sample := Joined(Fold(prose, head), Fold(prose, tail));
        (sample.events.messageCount > 0 || Fold(prose, middle).events.messageCount == 0
         || sample.items.messageCount <= Fold(prose, middle).events.messageCount)
    {
      ShownCountBound(prose, head, middle, tail);
    }
    EventReplyCounts(prose, text);
    var one := [ReplyAt(0, text)];
    assert ShownIsALowerBound(prose, head, one, tail) <==>
      var sample := Joined(Fold(prose, head), Fold(prose, tail));
      sample.events.messageCount > 0 || sample.items.messageCount <= 1;
  }

  // The other count of a row: the agents named in the mail, else the hand-offs.

  function Subagents(p: Parsed): nat {
    if p.agents != {} then |p.agents| else p.handoffs
  }

  ghost predicate SubagentsAreALowerBound(prose: Prose, head: seq<Record>, middle: seq<Record>, tail: seq<Record>) {
    Subagents(Joined(Fold(prose, head), Fold(prose, tail))) <= Subagents(Fold(prose, head + middle + tail))
  }

  /** Mail from one agent, to nobody. */
  const MAIL := Record(None, ResponseItem,
    Some(Payload(AgentMessagePayload, None, None, OtherRole, [], None, None, Some("agent"), None, None, None)))

  lemma MailNamesItsAgent(prose: Prose)
    ensures Fold(prose, [MAIL]).agents == {"agent"} && Fold(prose, [MAIL]).handoffs == 0
  {
    FoldStep(prose, [], MAIL);
    assert [] + [MAIL] == [MAIL];
    assert "agent" != ROOT_AGENT;
  }

  lemma Smaller(a: set<string>, b: set<string>)
    requires a <= b
    ensures |a| <= |b|
  {
    assert b == a + (b - a);
  }

  /** The subagent count of a row is a lower bound of every rollout with that head and
      tail exactly when the sample names an agent or counts at most one hand-off: one
      agent named in the middle replaces a count of hand-offs. */
  lemma SampleBoundsEverySubagent(prose: Prose, head: seq<Record>, tail: seq<Record>)
    ensures var sample := Joined(Fold(prose, head), Fold(prose, tail));
      (forall middle :: SubagentsAreALowerBound(prose, head, middle, tail)) <==>
        sample.agents != {} || sample.handoffs <= 1
  {
    hide Fold;
    var sample := Joined(Fold(prose, head), Fold(prose, tail));
    if sample.agents != {} || sample.handoffs <= 1 {
      forall middle
        ensures SubagentsAreALowerBound(prose, head, middle, tail)
      {
        SampleIsALowerBound(prose, head, middle, tail);
        Smaller(sample.agents, Fold(prose, head + middle + tail).agents);
      }
    } else {
      FoldOfConcatenation(prose, head, [MAIL]);
      FoldOfConcatenation(prose, head + [MAIL], tail);
      MailNamesItsAgent(prose);
      assert Fold(prose, head + [MAIL] + tail).agents == {"agent"};
      assert !SubagentsAreALowerBound(prose, head, [MAIL], tail);
    }
  }

  lemma ReplyCounts(prose: Prose, records: seq<Record>, r: Record)
    requires prose.oneLine("a") == Some("a") && r.payload.Some?
    requires r.payload.value.message == Some("a") && r.payload.value.content == ["a"] && r.payload.value.role == Assistant
    requires (r.kind == ResponseItem && r.payload.value.kind == MessagePayload)
             || (r.kind == EventMsg && r.payload.value.kind == AgentMessagePayload)
    ensures var before, after := Fold(prose, records), Fold(prose, records + [r]);
      && after.items.messageCount == before.items.messageCount + (if r.kind == ResponseItem then 1 else 0)
      && after.events.messageCount == before.events.messageCount + (if r.kind == EventMsg then 1 else 0)
  {
    assert (records + [r])[..|records|] == records;
    assert prose.FirstLine(false, ["a"]) == Some("a") && prose.Line(false, "a") == Some("a");
    if r.kind == ResponseItem {
      assert EventMessage(prose, r) == None && ItemMessage(prose, r).Some?;
    } else {
      assert EventMessage(prose, r).Some? && ItemMessage(prose, r) == None;
    }
  }

  lemma LosingThePrompts(prose: Prose, head: seq<Record>, middle: seq<Record>)
    requires Fold(prose, head).events.messageCount == 0
    requires Fold(prose, head).items.messageCount > Fold(prose, middle).events.messageCount > 0
    ensures Joined(Fold(prose, head), Fold(prose, [])).Shown().messageCount
            > Fold(prose, head + middle + []).Shown().messageCount
  {
    assert Fold(prose, []) == NOTHING;
    hide Fold, Step;
    ShownCountBound(prose, head, middle, []);
  }

  /** A sample that shows more messages than the whole rollout has to show. */
  lemma ShownCountCanExceed(prose: Prose) returns (head: seq<Record>, middle: seq<Record>, tail: seq<Record>)
    requires prose.oneLine("a") == Some("a")
    ensures head != [] && head[0] == SESSION
    ensures !ShownIsALowerBound(prose, head, middle, tail)
  {
    var blank := Payload(MessagePayload, None, Some("a"), Assistant, ["a"], None, None, None, None, None, None);
    var item := Record(None, ResponseItem, Some(blank));
    var event := Record(None, EventMsg, Some(blank.(kind := AgentMessagePayload)));
    head, middle, tail := [SESSION] + [item] + [item], [] + [event], [];
    assert Fold(prose, []) == NOTHING;
    SessionSaysNothing(prose);
    hide Fold, Step, Joined, Parsed.Shown;
    ReplyCounts(prose, [SESSION], item);
    ReplyCounts(prose, [SESSION] + [item], item);
    ReplyCounts(prose, [], event);
    LosingThePrompts(prose, head, middle);
  }
}
