/** What a summary says of its records, field by field (`parse_reader`,
    src-tauri/src/codex_rollouts.rs): which records are heard and with what text,
    and whose model, start, agents and hand-offs the whole fold holds. A record is
    described here by its own fields only, never by the fold's helpers. */
module RecordMeaning {
  import opened Wrappers
  import opened RolloutFold

  // ── Which records are heard ───────────────────────────────────────────────

  /** `text` is what is shown of the written text `raw`; of a user's own text, only
      when Codex did not inject it. */
  ghost predicate Shows(prose: Prose, user: bool, raw: string, text: string) {
    prose.oneLine(raw) == Some(text) && (user ==> !prose.injected(raw))
  }

  ghost predicate ShowsNothing(prose: Prose, user: bool, raw: string) {
    prose.oneLine(raw) == None || (user && prose.injected(raw))
  }

  /** The first block that shows anything shows `text`. */
  ghost predicate BlockShows(prose: Prose, user: bool, blocks: seq<string>, text: string) {
    exists k :: 0 <= k < |blocks| && Shows(prose, user, blocks[k], text)
                && forall j :: 0 <= j < k ==> ShowsNothing(prose, user, blocks[j])
  }

  /** The record is an `event_msg` that says `text` as a prompt or as a reply. */
  ghost predicate SaysEvent(prose: Prose, r: Record, text: string, source: LastSource) {
    && r.kind == EventMsg && r.payload.Some? && r.payload.value.message.Some?
    && match source
       case UserPrompt =>
         r.payload.value.kind == UserMessagePayload && Shows(prose, true, r.payload.value.message.value, text)
       case AssistantMessage =>
         r.payload.value.kind == AgentMessagePayload && Shows(prose, false, r.payload.value.message.value, text)
       case AgentMail => false
  }

  /** The record is a `response_item` that says `text`: a message by its role, mail
      when it is addressed to the root. */
  ghost predicate SaysItem(prose: Prose, r: Record, text: string, source: LastSource) {
    && r.kind == ResponseItem && r.payload.Some?
    && match source
       case UserPrompt =>
         && r.payload.value.kind == MessagePayload && r.payload.value.role == User
         && BlockShows(prose, true, r.payload.value.content, text)
       case AssistantMessage =>
         && r.payload.value.kind == MessagePayload && r.payload.value.role == Assistant
         && BlockShows(prose, false, r.payload.value.content, text)
       case AgentMail =>
         && r.payload.value.kind == AgentMessagePayload && r.payload.value.recipient == Some("/root")
         && BlockShows(prose, false, r.payload.value.content, text)
  }

  ghost predicate Says(channel: Channel, prose: Prose, r: Record, text: string, source: LastSource) {
    match channel
    case Events => SaysEvent(prose, r, text, source)
    case Items => SaysItem(prose, r, text, source)
  }

  /** A thread after hearing one more text: a first prompt is the title, mail is not
      counted, and the last message gives way unless it is strictly later. A record
      without a time is as late as any. */
  ghost predicate Hears(before: Thread, after: Thread, timestamp: Option<I64>, text: string, source: LastSource) {
    && after.title == (if source == UserPrompt && before.title == None then Some(text) else before.title)
    && after.messageCount == (if source == AgentMail then before.messageCount else before.messageCount + 1)
    && after.last == (if before.last.Some? && timestamp.Some? && timestamp.value < before.last.value.key
                      then before.last
                      else Some(Message(if timestamp.Some? then timestamp.value else I64_MAX, text, source)))
  }

  lemma {:induction false} FirstLineIsShown(prose: Prose, user: bool, blocks: seq<string>, text: string)
    ensures prose.FirstLine(user, blocks) == Some(text) <==> BlockShows(prose, user, blocks, text)
  {
    if blocks != [] {
      FirstLineIsShown(prose, user, blocks[1..], text);
      var rest := blocks[1..];
      if BlockShows(prose, user, blocks, text) && ShowsNothing(prose, user, blocks[0]) {
        var k :| 0 <= k < |blocks| && Shows(prose, user, blocks[k], text)
                 && forall j :: 0 <= j < k ==> ShowsNothing(prose, user, blocks[j]);
        assert rest[k - 1] == blocks[k];
        assert forall j :: 0 <= j < k - 1 ==> rest[j] == blocks[j + 1];
        assert BlockShows(prose, user, rest, text);
      }
      if BlockShows(prose, user, rest, text) && ShowsNothing(prose, user, blocks[0]) {
        var k :| 0 <= k < |rest| && Shows(prose, user, rest[k], text)
                 && forall j :: 0 <= j < k ==> ShowsNothing(prose, user, rest[j]);
        assert blocks[k + 1] == rest[k];
        assert forall j :: 0 < j < k + 1 ==> blocks[j] == rest[j - 1];
      }
    }
  }

  lemma MessageIsSaid(channel: Channel, prose: Prose, r: Record, text: string, source: LastSource)
    ensures Says(channel, prose, r, text, source) <==>
            MessageOn(channel, prose, r) == Some(Message(Key(r.timestamp), text, source))
  {
    if r.payload.Some? {
      FirstLineIsShown(prose, true, r.payload.value.content, text);
      FirstLineIsShown(prose, false, r.payload.value.content, text);
    }
  }

  lemma OneMore(prose: Prose, before: seq<Record>, r: Record)
    ensures Fold(prose, before + [r]) == Step(prose, Fold(prose, before), r)
  {
    var all := before + [r];
    assert all[..|all| - 1] == before && all[|all| - 1] == r;
  }

  /** One more record is heard in a conversation with the text and source it says, and
      leaves a conversation it says nothing in as it was. */
  lemma RecordHeard(channel: Channel, prose: Prose, before: seq<Record>, r: Record)
    ensures var was, now := ThreadOn(channel, Fold(prose, before)), ThreadOn(channel, Fold(prose, before + [r]));
      && (forall text, source :: Says(channel, prose, r, text, source) ==> Hears(was, now, r.timestamp, text, source))
      && ((forall text, source :: !Says(channel, prose, r, text, source)) ==> now == was)
  {
    OneMore(prose, before, r);
    forall text, source | Says(channel, prose, r, text, source)
      ensures MessageOn(channel, prose, r) == Some(Message(Key(r.timestamp), text, source))
    {
      MessageIsSaid(channel, prose, r, text, source);
    }
    var m := MessageOn(channel, prose, r);
    if m.Some? {
      MessageIsSaid(channel, prose, r, m.value.text, m.value.source);
    }
  }

  /** The `event_msg` count grows by a record exactly when it is a user's message that
      was not injected, or an agent's, with a display line. */
  lemma EventsCounted(prose: Prose, before: seq<Record>, r: Record)
    ensures var was, now := Fold(prose, before).events.messageCount, Fold(prose, before + [r]).events.messageCount;
      && (now == was + 1 <==>
            && r.kind == EventMsg && r.payload.Some? && r.payload.value.message.Some?
            && prose.oneLine(r.payload.value.message.value).Some?
            && ((r.payload.value.kind == UserMessagePayload && !prose.injected(r.payload.value.message.value))
                || r.payload.value.kind == AgentMessagePayload))
      && (now != was + 1 ==> now == was)
  {
    OneMore(prose, before, r);
  }

  /** The `response_item` count grows by a record exactly when it is a user's message
      with a block that has a display line and was not injected, or an assistant's with
      a block that has a display line; mail never counts. */
  lemma ItemsCounted(prose: Prose, before: seq<Record>, r: Record)
    ensures var was, now := Fold(prose, before).items.messageCount, Fold(prose, before + [r]).items.messageCount;
      && (now == was + 1 <==>
            && r.kind == ResponseItem && r.payload.Some? && r.payload.value.kind == MessagePayload
            && ((r.payload.value.role == User && SomeBlock(prose, true, r.payload.value.content))
                || (r.payload.value.role == Assistant && SomeBlock(prose, false, r.payload.value.content))))
      && (now != was + 1 ==> now == was)
  {
    OneMore(prose, before, r);
    if r.payload.Some? {
      FirstLineExists(prose, true, r.payload.value.content);
      FirstLineExists(prose, false, r.payload.value.content);
    }
  }

  ghost predicate SomeBlock(prose: Prose, user: bool, blocks: seq<string>) {
    exists k :: 0 <= k < |blocks| && prose.oneLine(blocks[k]).Some? && (user ==> !prose.injected(blocks[k]))
  }

  lemma {:induction false} FirstLineExists(prose: Prose, user: bool, blocks: seq<string>)
    ensures prose.FirstLine(user, blocks).Some? <==> SomeBlock(prose, user, blocks)
  {
    if blocks != [] {
      var rest := blocks[1..];
      FirstLineExists(prose, user, rest);
      assert forall k :: 0 < k < |blocks| ==> blocks[k] == rest[k - 1];
      assert forall k :: 0 <= k < |rest| ==> rest[k] == blocks[k + 1];
    }
  }

  // ── What a whole thread says ──────────────────────────────────────────────

  ghost predicate Prompts(channel: Channel, prose: Prose, r: Record) {
    exists text :: Says(channel, prose, r, text, UserPrompt)
  }

  /** The record at `k` says `text` as a prompt, and no record before it says any. */
  ghost predicate FirstPrompt(channel: Channel, prose: Prose, records: seq<Record>, k: nat, text: string)
    requires k < |records|
  {
    && Says(channel, prose, records[k], text, UserPrompt)
    && forall j :: 0 <= j < k ==> !Prompts(channel, prose, records[j])
  }

  lemma TitleStep(channel: Channel, prose: Prose, before: seq<Record>, r: Record)
    ensures var was, now := ThreadOn(channel, Fold(prose, before)).title, ThreadOn(channel, Fold(prose, before + [r])).title;
      && ((was.Some? || !Prompts(channel, prose, r)) ==> now == was)
      && (was.None? && Prompts(channel, prose, r) ==> now.Some? && Says(channel, prose, r, now.value, UserPrompt))
  {
    hide Fold, Says, ThreadOn;
    RecordHeard(channel, prose, before, r);
    if Prompts(channel, prose, r) {
      var text :| Says(channel, prose, r, text, UserPrompt);
    } else {
      assert forall text, source :: Says(channel, prose, r, text, source) ==> source != UserPrompt;
    }
  }

  /** The title is the text of the first record that says a prompt; with none, none. */
  lemma {:induction false} TitleIsTheFirstPrompt(channel: Channel, prose: Prose, records: seq<Record>)
    ensures var title := ThreadOn(channel, Fold(prose, records)).title;
      && (title.None? <==> forall j :: 0 <= j < |records| ==> !Prompts(channel, prose, records[j]))
      && (title.Some? ==> exists k :: 0 <= k < |records| && FirstPrompt(channel, prose, records, k, title.value))
  {
    hide Fold, Says, ThreadOn, Prompts;
    if records == [] {
      Nothing(channel, prose);
      return;
    }
    var before, r := records[..|records| - 1], records[|records| - 1];
    assert records == before + [r];
    TitleIsTheFirstPrompt(channel, prose, before);
    TitleStep(channel, prose, before, r);
    var was := ThreadOn(channel, Fold(prose, before)).title;
    if was.Some? {
      var k :| 0 <= k < |before| && FirstPrompt(channel, prose, before, k, was.value);
      assert FirstPrompt(channel, prose, records, k, was.value);
      APromptIs(channel, prose, records[k], was.value);
    } else if Prompts(channel, prose, r) {
      var text := ThreadOn(channel, Fold(prose, records)).title.value;
      assert FirstPrompt(channel, prose, records, |before|, text);
    }
  }

  lemma APromptIs(channel: Channel, prose: Prose, r: Record, text: string)
    requires Says(channel, prose, r, text, UserPrompt)
    ensures Prompts(channel, prose, r)
  {
  }

  ghost predicate Speaks(channel: Channel, prose: Prose, r: Record) {
    exists text, source :: Says(channel, prose, r, text, source)
  }

  /** The record at `k` says `m`; every other that speaks is no later, and strictly
      earlier if it comes after. */
  ghost predicate LatestSaid(channel: Channel, prose: Prose, records: seq<Record>, k: nat, m: Message)
    requires k < |records|
  {
    && Says(channel, prose, records[k], m.text, m.source) && m.key == Key(records[k].timestamp)
    && forall j :: 0 <= j < |records| && Speaks(channel, prose, records[j]) ==>
         if j <= k then Key(records[j].timestamp) <= m.key else Key(records[j].timestamp) < m.key
  }

  ghost predicate IsLatest(channel: Channel, prose: Prose, records: seq<Record>, last: Option<Message>) {
    match last
    case None => forall j :: 0 <= j < |records| ==> !Speaks(channel, prose, records[j])
    case Some(m) => exists k :: 0 <= k < |records| && LatestSaid(channel, prose, records, k, m)
  }

  lemma LastStep(channel: Channel, prose: Prose, before: seq<Record>, r: Record)
    ensures var was, now := ThreadOn(channel, Fold(prose, before)).last, ThreadOn(channel, Fold(prose, before + [r])).last;
      && (!Speaks(channel, prose, r) || (was.Some? && Key(r.timestamp) < was.value.key) ==> now == was)
      && (Speaks(channel, prose, r) && (was.None? || was.value.key <= Key(r.timestamp)) ==>
            now.Some? && now.value.key == Key(r.timestamp) && Says(channel, prose, r, now.value.text, now.value.source))
  {
    hide Fold, Says, ThreadOn;
    RecordHeard(channel, prose, before, r);
    if Speaks(channel, prose, r) {
      var text, source :| Says(channel, prose, r, text, source);
    }
  }

  /** The last message is said by the record with the greatest time, of equals the one
      furthest on; there is none exactly when no record speaks. */
  lemma {:induction false} LastIsTheLatest(channel: Channel, prose: Prose, records: seq<Record>)
    ensures var last := ThreadOn(channel, Fold(prose, records)).last;
      && IsLatest(channel, prose, records, last)
      && (last.Some? ==> exists j :: 0 <= j < |records| && Speaks(channel, prose, records[j]))
  {
    hide Fold, Says, ThreadOn, Speaks, Key, LatestSaid;
    if records == [] {
      Nothing(channel, prose);
      return;
    }
    var before, r := records[..|records| - 1], records[|records| - 1];
    assert records == before + [r];
    LastIsTheLatest(channel, prose, before);
    LastStep(channel, prose, before, r);
    var was, now := ThreadOn(channel, Fold(prose, before)).last, ThreadOn(channel, Fold(prose, records)).last;
    if Speaks(channel, prose, r) && (was.None? || was.value.key <= Key(r.timestamp)) {
      LatestIsNew(channel, prose, before, r, was, now.value);
    } else if was.Some? {
      LatestIsKept(channel, prose, before, r, was.value);
    }
  }

  lemma LatestIsNew(channel: Channel, prose: Prose, before: seq<Record>, r: Record, was: Option<Message>, m: Message)
    requires IsLatest(channel, prose, before, was)
    requires was.None? || was.value.key <= Key(r.timestamp)
    requires Says(channel, prose, r, m.text, m.source) && m.key == Key(r.timestamp)
    ensures IsLatest(channel, prose, before + [r], Some(m))
    ensures exists j :: 0 <= j < |before + [r]| && Speaks(channel, prose, (before + [r])[j])
  {
    hide Says, Speaks, Key;
    ASpeakerIs(channel, prose, r, m.text, m.source);
    assert (before + [r])[|before|] == r;
    assert LatestSaid(channel, prose, before + [r], |before|, m);
  }

  lemma LatestIsKept(channel: Channel, prose: Prose, before: seq<Record>, r: Record, m: Message)
    requires IsLatest(channel, prose, before, Some(m))
    requires Speaks(channel, prose, r) ==> Key(r.timestamp) < m.key
    ensures IsLatest(channel, prose, before + [r], Some(m))
    ensures exists j :: 0 <= j < |before + [r]| && Speaks(channel, prose, (before + [r])[j])
  {
    hide Says, Speaks, Key;
    var k :| 0 <= k < |before| && LatestSaid(channel, prose, before, k, m);
    assert (before + [r])[k] == before[k];
    ASpeakerIs(channel, prose, before[k], m.text, m.source);
    assert LatestSaid(channel, prose, before + [r], k, m);
  }

  lemma ASpeakerIs(channel: Channel, prose: Prose, r: Record, text: string, source: LastSource)
    requires Says(channel, prose, r, text, source)
    ensures Speaks(channel, prose, r)
  {
  }

  /** The record says a prompt or a reply. */
  ghost predicate Counts(channel: Channel, prose: Prose, r: Record) {
    exists text, source :: source != AgentMail && Says(channel, prose, r, text, source)
  }

  ghost function CountedRecords(channel: Channel, prose: Prose, records: seq<Record>): set<nat> {
    set k: nat | k < |records| && Counts(channel, prose, records[k])
  }

  lemma CountStep(channel: Channel, prose: Prose, before: seq<Record>, r: Record)
    ensures ThreadOn(channel, Fold(prose, before + [r])).messageCount ==
            ThreadOn(channel, Fold(prose, before)).messageCount + if Counts(channel, prose, r) then 1 else 0
  {
    hide Fold, Says, ThreadOn;
    RecordHeard(channel, prose, before, r);
    if text, source :| Says(channel, prose, r, text, source) {
      if Counts(channel, prose, r) {
        var other, from :| from != AgentMail && Says(channel, prose, r, other, from);
      }
    }
  }

  /** The message count is the number of records that say a prompt or a reply. */
  lemma {:induction false} CountIsOfRecords(channel: Channel, prose: Prose, records: seq<Record>)
    ensures ThreadOn(channel, Fold(prose, records)).messageCount == |CountedRecords(channel, prose, records)|
  {
    hide Fold, ThreadOn, Counts;
    if records == [] {
      Nothing(channel, prose);
      assert CountedRecords(channel, prose, records) == {};
    } else {
      var before, r := records[..|records| - 1], records[|records| - 1];
      assert records == before + [r];
      CountIsOfRecords(channel, prose, before);
      CountStep(channel, prose, before, r);
      assert CountedRecords(channel, prose, records) ==
             CountedRecords(channel, prose, before) + if Counts(channel, prose, r) then {|before|} else {};
    }
  }

  lemma Nothing(channel: Channel, prose: Prose)
    ensures Fold(prose, []) == NOTHING && ThreadOn(channel, Fold(prose, [])) == NO_THREAD
  {
  }

  /** The conversation shown is the `event_msg` one exactly when some record says
      anything in it. */
  lemma {:induction false} ShownIsTheEvents(prose: Prose, records: seq<Record>)
    ensures var p := Fold(prose, records);
      if exists k :: 0 <= k < |records| && Speaks(Events, prose, records[k])
      then p.events.messageCount > 0 && p.Shown() == p.events
      else p.events == NO_THREAD && p.Shown() == p.items
  {
    hide Fold, SaysEvent;
    if records == [] {
      Nothing(Events, prose);
      return;
    }
    var before, r := records[..|records| - 1], records[|records| - 1];
    assert records == before + [r];
    ShownIsTheEvents(prose, before);
    RecordHeard(Events, prose, before, r);
    if k :| 0 <= k < |before| && Speaks(Events, prose, before[k]) {
      assert records[k] == before[k];
    } else {
      assert forall k :: 0 <= k < |before| ==> records[k] == before[k];
      assert records[|before|] == r;
      forall text ensures !SaysEvent(prose, r, text, AgentMail) {
        NoMailEvents(prose, r, text);
      }
    }
  }

  lemma NoMailEvents(prose: Prose, r: Record, text: string)
    ensures !SaysEvent(prose, r, text, AgentMail)
  {
  }

  // ── The other fields ──────────────────────────────────────────────────────

  ghost predicate AppliesModel(r: Record, model: string) {
    r.kind == EventMsg && r.payload.Some? && r.payload.value.kind == ThreadSettingsApplied
    && r.payload.value.settingsModel == Some(model)
  }

  ghost predicate TurnsWithModel(r: Record, model: string) {
    r.kind == TurnContext && r.payload.Some? && r.payload.value.model == Some(model)
  }

  ghost predicate StartsAt(r: Record, ms: I64) {
    r.kind == SessionMeta && r.payload.Some? && r.payload.value.timestamp == Some(ms)
  }

  lemma SettingsStep(prose: Prose, before: seq<Record>, r: Record)
    ensures var was, now := Fold(prose, before).settingsModel, Fold(prose, before + [r]).settingsModel;
      && ((forall m :: !AppliesModel(r, m)) ==> now == was)
      && (forall m :: AppliesModel(r, m) ==> now == Some(m))
  {
    OneMore(prose, before, r);
    assert SettingsModelOf(r).Some? ==> AppliesModel(r, SettingsModelOf(r).value);
  }

  /** The applied model is that of the last record that applies one. */
  lemma {:induction false} SettingsModelIsTheLast(prose: Prose, records: seq<Record>)
    ensures var model := Fold(prose, records).settingsModel;
      && (model.None? <==> forall j, m :: 0 <= j < |records| ==> !AppliesModel(records[j], m))
      && (model.Some? ==>
            exists k :: 0 <= k < |records| && AppliesModel(records[k], model.value)
                        && forall j, m :: k < j < |records| ==> !AppliesModel(records[j], m))
  {
    hide Fold, AppliesModel;
    if records == [] {
      Nothing(Events, prose);
      return;
    }
    var before, r := records[..|records| - 1], records[|records| - 1];
    assert records == before + [r];
    SettingsModelIsTheLast(prose, before);
    SettingsStep(prose, before, r);
    var was, now := Fold(prose, before).settingsModel, Fold(prose, records).settingsModel;
    if m :| AppliesModel(r, m) {
      assert AppliesModel(records[|before|], now.value);
    } else if was.Some? {
      var k :| 0 <= k < |before| && AppliesModel(before[k], was.value)
               && forall j, m :: k < j < |before| ==> !AppliesModel(before[j], m);
      assert AppliesModel(records[k], was.value);
    }
  }

  lemma TurnStep(prose: Prose, before: seq<Record>, r: Record)
    ensures var was, now := Fold(prose, before).turnModel, Fold(prose, before + [r]).turnModel;
      && ((forall m :: !TurnsWithModel(r, m)) ==> now == was)
      && (forall m :: TurnsWithModel(r, m) ==> now == Some(m))
  {
    OneMore(prose, before, r);
    assert TurnModelOf(r).Some? ==> TurnsWithModel(r, TurnModelOf(r).value);
  }

  /** The turn model is that of the last turn context that names one. */
  lemma {:induction false} TurnModelIsTheLast(prose: Prose, records: seq<Record>)
    ensures var model := Fold(prose, records).turnModel;
      && (model.None? <==> forall j, m :: 0 <= j < |records| ==> !TurnsWithModel(records[j], m))
      && (model.Some? ==>
            exists k :: 0 <= k < |records| && TurnsWithModel(records[k], model.value)
                        && forall j, m :: k < j < |records| ==> !TurnsWithModel(records[j], m))
  {
    hide Fold, TurnsWithModel;
    if records == [] {
      Nothing(Events, prose);
      return;
    }
    var before, r := records[..|records| - 1], records[|records| - 1];
    assert records == before + [r];
    TurnModelIsTheLast(prose, before);
    TurnStep(prose, before, r);
    var was, now := Fold(prose, before).turnModel, Fold(prose, records).turnModel;
    if m :| TurnsWithModel(r, m) {
      assert TurnsWithModel(records[|before|], now.value);
    } else if was.Some? {
      var k :| 0 <= k < |before| && TurnsWithModel(before[k], was.value)
               && forall j, m :: k < j < |before| ==> !TurnsWithModel(before[j], m);
      assert TurnsWithModel(records[k], was.value);
    }
  }

  /** The start is that of the first session record that carries one. */
  lemma {:induction false} StartIsTheFirst(prose: Prose, records: seq<Record>)
    ensures var started := Fold(prose, records).startedMs;
      && (started.None? <==> forall j, ms :: 0 <= j < |records| ==> !StartsAt(records[j], ms))
      && (started.Some? ==>
            exists k :: 0 <= k < |records| && StartsAt(records[k], started.value)
                        && forall j, ms :: 0 <= j < k ==> !StartsAt(records[j], ms))
  {
    if records != [] {
      var before, r := records[..|records| - 1], records[|records| - 1];
      StartIsTheFirst(prose, before);
      assert forall j :: 0 <= j < |before| ==> records[j] == before[j];
      var was, now := Fold(prose, before).startedMs, Fold(prose, records).startedMs;
      if was.Some? {
        var k :| 0 <= k < |before| && StartsAt(before[k], was.value)
                 && forall j, ms :: 0 <= j < k ==> !StartsAt(before[j], ms);
        assert StartsAt(records[k], was.value);
      } else if now.Some? {
        assert StartsAt(records[|before|], now.value);
      }
    }
  }

  /** Mail between agents has `agent` at one of its ends. */
  ghost predicate Mails(r: Record, agent: string) {
    r.kind == ResponseItem && r.payload.Some? && r.payload.value.kind == AgentMessagePayload
    && (r.payload.value.author == Some(agent) || r.payload.value.recipient == Some(agent))
  }

  /** The agents are the ends of all mail, the root apart. */
  lemma {:induction false} AgentsAreTheMailed(prose: Prose, records: seq<Record>, agent: string)
    ensures agent in Fold(prose, records).agents <==>
            agent != "/root" && exists k :: 0 <= k < |records| && Mails(records[k], agent)
  {
    if records != [] {
      var before, r := records[..|records| - 1], records[|records| - 1];
      AgentsAreTheMailed(prose, before, agent);
      assert forall j :: 0 <= j < |before| ==> records[j] == before[j];
      assert records[|before|] == r;
      if exists k :: 0 <= k < |before| && Mails(before[k], agent) {
        var k :| 0 <= k < |before| && Mails(before[k], agent);
        assert Mails(records[k], agent);
      }
      assert agent in AgentsOf(r) <==> agent != "/root" && Mails(r, agent);
    }
  }

  ghost function HandoffRecords(records: seq<Record>): set<nat> {
    set k: nat | k < |records| && records[k].kind == InterAgentMetadata
  }

  lemma HandoffStep(prose: Prose, before: seq<Record>, r: Record)
    ensures Fold(prose, before + [r]).handoffs ==
            Fold(prose, before).handoffs + if r.kind == InterAgentMetadata then 1 else 0
  {
    OneMore(prose, before, r);
  }

  /** The hand-offs are the inter-agent metadata records, with or without a payload. */
  lemma {:induction false} HandoffsAreCounted(prose: Prose, records: seq<Record>)
    ensures Fold(prose, records).handoffs == |HandoffRecords(records)|
  {
    hide Fold;
    if records == [] {
      Nothing(Events, prose);
      assert HandoffRecords(records) == {};
    } else {
      var before, r := records[..|records| - 1], records[|records| - 1];
      assert records == before + [r];
      HandoffsAreCounted(prose, before);
      HandoffStep(prose, before, r);
      assert HandoffRecords(records) ==
             HandoffRecords(before) + if r.kind == InterAgentMetadata then {|before|} else {};
    }
  }
}
