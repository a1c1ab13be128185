/** The override that gives a review its tools (`review_server_override`,
    src-tauri/src/codex_config.rs), and what a TOML reader makes of it. */
module ReviewOverride {
  import opened Wrappers
  import opened Toml

  /** The tools of the review server (crates/core/src/review_tools.rs). */
  const REVIEW_TOOL_NAMES: seq<string> := [
    "set_review_brief",
    "add_review_comment",
    "list_review_comments",
    "update_review_comment",
    "delete_review_comment",
    "list_review_work_items",
    "complete_review_work_item"
  ]

  const AGENT_KIND: seq<string> := ["--agent-kind", "Codex"]

  const APPROVAL := "={approval_mode=\"approve\"}"

  /** `join(",")` */
  function Joined(parts: seq<string>): string {
    if |parts| == 0 then "" else if |parts| == 1 then parts[0] else parts[0] + ("," + Joined(parts[1..]))
  }

  function QuotedEach(names: seq<string>): (q: seq<string>)
    ensures |q| == |names|
  {
    if names == [] then [] else [TomlString(names[0])] + QuotedEach(names[1..])
  }

  function Approvals(names: seq<string>): (a: seq<string>)
    ensures |a| == |names|
  {
    if names == [] then []
    else [TomlString(names[0]) + APPROVAL] + Approvals(names[1..])
  }

  const HEAD := "mcp_servers.santree-review={command="
  const ARGS := ",args=["
  const ENABLED := "],enabled=true," + "required=true,enabled_tools=["
  const MODE := "],default_tools_approval_mode=" + "\"prompt\",tools={"

  /** The text of the override. */
  function ServerOverride(command: string, args: seq<string>, tools: seq<string>): string {
    HEAD + (TomlString(command) + (ARGS + (Joined(QuotedEach(args + AGENT_KIND)) + (ENABLED
      + (Joined(QuotedEach(tools)) + (MODE + (Joined(Approvals(tools)) + "}}")))))))
  }

  // ── What it says ──────────────────────────────────────────────────────────

  function Strings(texts: seq<string>): Items {
    if texts == [] then NoItems else Item(Str(texts[0]), Strings(texts[1..]))
  }

  const APPROVE := Table(Entry(false, "approval_mode", Str("approve"), NoEntries))

  function Approved(names: seq<string>): Entries {
    if names == [] then NoEntries else Entry(true, names[0], APPROVE, Approved(names[1..]))
  }

  /** One server: its command and its arguments with the agent's kind added, enabled,
      required, every tool allowed and approved, anything else prompted for. */
  function Server(command: string, args: seq<string>, tools: seq<string>): Value {
    Table(Entry(false, "command", Str(command),
          Entry(false, "args", Array(Strings(args + AGENT_KIND)), Settings(tools))))
  }

  function Settings(tools: seq<string>): Entries {
    Entry(false, "enabled", Bool(true),
    Entry(false, "required", Bool(true),
    Entry(false, "enabled_tools", Array(Strings(tools)), Approving(tools))))
  }

  function Approving(tools: seq<string>): Entries {
    Entry(false, "default_tools_approval_mode", Str("prompt"),
    Entry(false, "tools", Table(Approved(tools)), NoEntries))
  }

  // ── Assignments ───────────────────────────────────────────────────────────

  /** A dotted key of bare parts, up to its equals sign. */
  function ReadPath(s: string): Option<Read<seq<string>>>
    decreases |s|
  {
    var n := BareLen(s);
    if n == 0 || n == |s| then None
    else if s[n] == '=' then Some(Read([s[..n]], s[n + 1..]))
    else if s[n] == '.' then
      match ReadPath(s[n + 1..])
      case Some(Read(path, rest)) => Some(Read([s[..n]] + path, rest))
      case None => None
    else None
  }

  /** A whole `key=value` text. */
  function ReadAssignment(s: string): Option<(seq<string>, Value)> {
    match ReadPath(s)
    case None => None
    case Some(Read(path, text)) =>
      match ReadValue(text)
      case Some(Read(value, rest)) => if rest == "" then Some((path, value)) else None
      case None => None
  }

  lemma ReadLastPart(key: string, text: string)
    requires BareKey(key)
    ensures ReadPath(key + ("=" + text)) == Some(Read([key], text))
  {
    var s := key + ("=" + text);
    BareLenOf(key, "=" + text);
    assert s[|key|] == '=' && s[..|key|] == key && s[|key| + 1..] == text;
  }

  lemma ReadPart(key: string, more: string, path: seq<string>, rest: string)
    requires BareKey(key) && ReadPath(more) == Some(Read(path, rest))
    ensures ReadPath(key + ("." + more)) == Some(Read([key] + path, rest))
  {
    var s := key + ("." + more);
    BareLenOf(key, "." + more);
    assert s[|key|] == '.' && s[..|key|] == key && s[|key| + 1..] == more;
  }

  /** A dotted assignment reads back exactly when its strings can be written. */
  lemma AssignmentReadsBack(table: string, key: string, value: Value)
    requires BareKey(table) && BareKey(key) && Legal(value)
    ensures ReadAssignment(table + ("." + (key + ("=" + Written(value, ""))))) ==
            if AllWritable(value) then Some(([table, key], value)) else None
  {
    ReadLastPart(key, Written(value, ""));
    ReadPart(table, key + ("=" + Written(value, "")), [key], Written(value, ""));
    assert [table] + [key] == [table, key];
    ReadsBack(value, "");
  }

  lemma PlainAssignmentReadsBack(key: string, value: Value)
    requires BareKey(key) && Legal(value)
    ensures ReadAssignment(key + ("=" + Written(value, ""))) ==
            if AllWritable(value) then Some(([key], value)) else None
  {
    ReadLastPart(key, Written(value, ""));
    ReadsBack(value, "");
  }

  // ── The override read back ────────────────────────────────────────────────

  lemma {:induction false} JoinedItems(texts: seq<string>, rest: string)
    requires texts != []
    ensures WrittenItems(Strings(texts), rest) == Joined(QuotedEach(texts)) + ("]" + rest)
  {
    if |texts| > 1 {
      JoinedItems(texts[1..], rest);
      assert QuotedEach(texts)[1..] == QuotedEach(texts[1..]);
    }
  }

  lemma {:induction false} AllBare(v: string)
    requires forall i :: 0 <= i < |v| ==> BareChar(v[i])
    ensures BareLen(v) == |v|
  {
    if v != "" {
      AllBare(v[1..]);
    }
  }

  /** Letters, digits, `-` and `_` are written as they are. */
  lemma {:induction false} PlainEscape(v: string)
    requires BareLen(v) == |v|
    ensures EscapedBody(v) == v && Writable(v)
  {
    if v != "" {
      PlainEscape(v[1..]);
    }
  }

  lemma Flat6(a: string, b: string, c: string, d: string, e: string, f: string, rest: string)
    ensures a + (b + (c + (d + (e + (f + rest))))) == (a + b + c + d + e + f) + rest
  {
    assert e + (f + rest) == (e + f) + rest;
    assert d + (e + f + rest) == (d + (e + f)) + rest;
    assert c + (d + (e + f) + rest) == (c + (d + (e + f))) + rest;
    assert b + (c + (d + (e + f)) + rest) == (b + (c + (d + (e + f)))) + rest;
    assert a + (b + (c + (d + (e + f))) + rest) == (a + (b + (c + (d + (e + f))))) + rest;
    assert a + (b + (c + (d + (e + f)))) == a + b + c + d + e + f;
  }

  lemma ApprovalIs()
    ensures "=" + "{" + "approval_mode" + "=" + "\"approve\"" + "}" == APPROVAL
  {
  }

  lemma ApproveIs()
    ensures TomlString("approve") == "\"approve\""
  {
    AllBare("approve");
    PlainEscape("approve");
  }

  lemma ApprovalText(name: string, rest: string)
    ensures WrittenKey(true, name, "=" + Written(APPROVE, rest)) == (TomlString(name) + APPROVAL) + rest
  {
    ApproveIs();
    ApprovalIs();
    Flat6("=", "{", "approval_mode", "=", "\"approve\"", "}", rest);
    assert Written(APPROVE, rest) == "{" + ("approval_mode" + ("=" + ("\"approve\"" + ("}" + rest))));
    assert TomlString(name) + (APPROVAL + rest) == (TomlString(name) + APPROVAL) + rest;
  }

  lemma OneApproval(name: string, more: Entries, rest: string)
    ensures WrittenEntries(Entry(true, name, APPROVE, more), rest) ==
            (TomlString(name) + APPROVAL) + if more.NoEntries? then "}" + rest else "," + WrittenEntries(more, rest)
  {
    ApprovalText(name, if more.NoEntries? then "}" + rest else "," + WrittenEntries(more, rest));
  }

  lemma JoinedOn(first: string, parts: seq<string>, rest: string)
    requires parts != []
    ensures first + ("," + (Joined(parts) + rest)) == Joined([first] + parts) + rest
  {
    assert ([first] + parts)[1..] == parts;
    assert first + ("," + Joined(parts)) + rest == first + ("," + (Joined(parts) + rest));
  }

  lemma {:induction false} JoinedApprovals(names: seq<string>, rest: string)
    requires names != []
    ensures WrittenEntries(Approved(names), rest) == Joined(Approvals(names)) + ("}" + rest)
  {
    OneApproval(names[0], Approved(names[1..]), rest);
    if |names| > 1 {
      JoinedApprovals(names[1..], rest);
      JoinedOn(TomlString(names[0]) + APPROVAL, Approvals(names[1..]), "}" + rest);
    }
  }

  // The text of the override, piece by piece, is its table written out.

  lemma Unnested(a: string, b: string, rest: string)
    ensures a + (b + rest) == (a + b) + rest
  {
  }

  lemma HeadIs()
    ensures "mcp_servers" + "." + "santree-review" + "=" + "{" + ("command" + "=") == HEAD
  {
  }

  lemma ArgsIs()
    ensures "," + "args" + "=" + "[" == ARGS
  {
  }

  lemma EnabledIs()
    ensures "]" + "," + "enabled" + "=" + "true" + "," == "],enabled=true,"
  {
  }

  lemma RequiredIs()
    ensures "required" + "=" + "true" + "," + "enabled_tools" + ("=" + "[") == "required=true,enabled_tools=["
  {
  }

  lemma ModeIs()
    ensures "]" + "," + "default_tools_approval_mode" + "=" == "],default_tools_approval_mode="
  {
  }

  lemma ToolsIs()
    ensures "\"prompt\"" + "," + "tools" + "=" + "{" == "\"prompt\",tools={"
  {
  }

  lemma PromptIs()
    ensures TomlString("prompt") == "\"prompt\""
  {
    AllBare("prompt");
    PlainEscape("prompt");
  }

  lemma Flat4(a: string, b: string, c: string, d: string, rest: string)
    ensures a + (b + (c + (d + rest))) == (a + b + c + d) + rest
  {
    assert c + (d + rest) == (c + d) + rest;
    assert b + (c + d + rest) == (b + (c + d)) + rest;
    assert a + (b + (c + d)) == a + b + c + d;
  }

  lemma EnabledText(rest: string)
    ensures "]" + ("," + ("enabled" + ("=" + ("true" + ("," + ("required" + ("=" + ("true" + ("," + ("enabled_tools" + ("=" + ("[" + rest))))))))))))
            == ENABLED + rest
  {
    EnabledIs();
    RequiredIs();
    var tail := "required" + ("=" + ("true" + ("," + ("enabled_tools" + ("=" + ("[" + rest))))));
    Flat6("]", ",", "enabled", "=", "true", ",", tail);
    Unnested("=", "[", rest);
    Flat6("required", "=", "true", ",", "enabled_tools", "=" + "[", rest);
    Unnested("],enabled=true,", "required=true,enabled_tools=[", rest);
  }

  lemma ModeText(rest: string)
    ensures "]" + ("," + ("default_tools_approval_mode" + ("=" + ("\"prompt\"" + ("," + ("tools" + ("=" + ("{" + rest))))))))
            == MODE + rest
  {
    ModeIs();
    ToolsIs();
    Flat4("]", ",", "default_tools_approval_mode", "=", "\"prompt\"" + ("," + ("tools" + ("=" + ("{" + rest)))));
    Unnested("=", "{", rest);
    Flat4("\"prompt\"", ",", "tools", "=" + "{", rest);
    assert "\"prompt\"" + "," + "tools" + ("=" + "{") == "\"prompt\"" + "," + "tools" + "=" + "{";
    Unnested("],default_tools_approval_mode=", "\"prompt\",tools={", rest);
  }

  lemma EntryText(key: string, value: Value, more: Entries, rest: string)
    ensures WrittenEntries(Entry(false, key, value, more), rest) ==
            key + ("=" + Written(value, if more.NoEntries? then "}" + rest else "," + WrittenEntries(more, rest)))
  {
  }

  lemma LastTwo(mode: string, text: string, tools: string, entries: Entries)
    requires entries.Entry?
    ensures WrittenEntries(Entry(false, mode, Str(text), Entry(false, tools, Table(entries), NoEntries)), "") ==
            mode + ("=" + (TomlString(text) + ("," + (tools + ("=" + ("{" + WrittenEntries(entries, "}")))))))
  {
    EntryText(tools, Table(entries), NoEntries, "");
    assert "}" + "" == "}";
    assert Written(Table(entries), "}") == "{" + WrittenEntries(entries, "}");
    EntryText(mode, Str(text), Entry(false, tools, Table(entries), NoEntries), "");
  }

  lemma ApprovingText(tools: seq<string>)
    requires tools != []
    ensures "]" + ("," + WrittenEntries(Approving(tools), "")) == MODE + (Joined(Approvals(tools)) + "}}")
  {
    hide Written, WrittenEntries, TomlString, Approvals, Joined;
    LastTwo("default_tools_approval_mode", "prompt", "tools", Approved(tools));
    PromptIs();
    JoinedApprovals(tools, "}");
    assert "}" + "}" == "}}";
    ModeText(Joined(Approvals(tools)) + "}}");
  }

  lemma SettingsText(tools: seq<string>)
    requires tools != []
    ensures "]" + ("," + WrittenEntries(Settings(tools), "")) ==
            ENABLED + (Joined(QuotedEach(tools)) + (MODE + (Joined(Approvals(tools)) + "}}")))
  {
    var allowed := Entry(false, "enabled_tools", Array(Strings(tools)), Approving(tools));
    var required := Entry(false, "required", Bool(true), allowed);
    EntryText("enabled_tools", Array(Strings(tools)), Approving(tools), "");
    EntryText("required", Bool(true), allowed, "");
    EntryText("enabled", Bool(true), required, "");
    ApprovingText(tools);
    JoinedItems(tools, "," + WrittenEntries(Approving(tools), ""));
    EnabledText(Joined(QuotedEach(tools)) + (MODE + (Joined(Approvals(tools)) + "}}")));
  }

  lemma ServerText(command: string, args: seq<string>, settings: Entries, rest: string)
    requires args != [] && settings.Entry?
    requires "]" + ("," + WrittenEntries(settings, "")) == rest
    ensures Written(Table(Entry(false, "command", Str(command), Entry(false, "args", Array(Strings(args)), settings))), "")
            == "{" + (("command" + "=") + (TomlString(command) + (ARGS + (Joined(QuotedEach(args)) + rest))))
  {
    EntryText("args", Array(Strings(args)), settings, "");
    EntryText("command", Str(command), Entry(false, "args", Array(Strings(args)), settings), "");
    JoinedItems(args, "," + WrittenEntries(settings, ""));
    var given := Joined(QuotedEach(args)) + rest;
    ArgsIs();
    Flat4(",", "args", "=", "[", given);
    Unnested("command", "=", TomlString(command) + (ARGS + given));
  }

  /** What is written is the server's table, assigned to its dotted key. */
  lemma OverrideIsWritten(command: string, args: seq<string>, tools: seq<string>)
    requires tools != []
    ensures ServerOverride(command, args, tools) ==
            "mcp_servers" + ("." + ("santree-review" + ("=" + Written(Server(command, args, tools), ""))))
  {
    var settings := ENABLED + (Joined(QuotedEach(tools)) + (MODE + (Joined(Approvals(tools)) + "}}")));
    SettingsText(tools);
    ServerText(command, args + AGENT_KIND, Settings(tools), settings);
    HeadIs();
    Flat6("mcp_servers", ".", "santree-review", "=", "{", "command" + "=",
          TomlString(command) + (ARGS + (Joined(QuotedEach(args + AGENT_KIND)) + settings)));
  }

  predicate EachWritable(texts: seq<string>) {
    texts == [] || (Writable(texts[0]) && EachWritable(texts[1..]))
  }

  lemma {:induction false} StringsLegal(texts: seq<string>)
    ensures LegalItems(Strings(texts)) && (ItemsWritable(Strings(texts)) <==> EachWritable(texts))
  {
    if texts != [] {
      StringsLegal(texts[1..]);
    }
  }

  lemma EntryLegal(key: string, value: Value, more: Entries)
    requires BareKey(key) && Legal(value) && LegalEntries(more)
    ensures LegalEntries(Entry(false, key, value, more))
    ensures EntriesWritable(Entry(false, key, value, more)) <==> AllWritable(value) && EntriesWritable(more)
  {
  }

  lemma PlainLegal(text: string)
    requires BareLen(text) == |text|
    ensures Legal(Str(text)) && AllWritable(Str(text))
  {
    PlainEscape(text);
  }

  lemma ApproveLegal()
    ensures Legal(APPROVE) && AllWritable(APPROVE)
  {
    hide BareLen, Writable, LegalEntries, EntriesWritable;
    AllBare("approval_mode");
    AllBare("approve");
    PlainLegal("approve");
    NoneLegal();
    EntryLegal("approval_mode", Str("approve"), NoEntries);
  }

  lemma NoneLegal()
    ensures LegalEntries(NoEntries) && EntriesWritable(NoEntries)
  {
  }

  lemma {:induction false} ApprovedLegal(names: seq<string>)
    ensures LegalEntries(Approved(names)) && (EntriesWritable(Approved(names)) <==> EachWritable(names))
  {
    if names != [] {
      ApproveLegal();
      ApprovedLegal(names[1..]);
    }
  }

  lemma ApprovingLegal(tools: seq<string>)
    ensures LegalEntries(Approving(tools)) && (EntriesWritable(Approving(tools)) <==> EachWritable(tools))
  {
    hide BareLen, Writable, LegalEntries, EntriesWritable, Approved, EachWritable;
    AllBare("default_tools_approval_mode");
    AllBare("tools");
    AllBare("prompt");
    PlainLegal("prompt");
    NoneLegal();
    ApprovedLegal(tools);
    EntryLegal("tools", Table(Approved(tools)), NoEntries);
    EntryLegal("default_tools_approval_mode", Str("prompt"), Entry(false, "tools", Table(Approved(tools)), NoEntries));
  }

  lemma SettingsLegal(tools: seq<string>)
    ensures LegalEntries(Settings(tools)) && (EntriesWritable(Settings(tools)) <==> EachWritable(tools))
  {
    hide BareLen, Writable, LegalEntries, EntriesWritable, Approving, EachWritable, Strings;
    AllBare("enabled");
    AllBare("required");
    AllBare("enabled_tools");
    StringsLegal(tools);
    ApprovingLegal(tools);
    var allowed := Entry(false, "enabled_tools", Array(Strings(tools)), Approving(tools));
    EntryLegal("enabled_tools", Array(Strings(tools)), Approving(tools));
    EntryLegal("required", Bool(true), allowed);
    EntryLegal("enabled", Bool(true), Entry(false, "required", Bool(true), allowed));
  }

  lemma ServerLegal(command: string, args: seq<string>, tools: seq<string>)
    ensures Legal(Server(command, args, tools))
    ensures AllWritable(Server(command, args, tools)) <==>
            Writable(command) && EachWritable(args + AGENT_KIND) && EachWritable(tools)
  {
    hide BareLen, Writable, LegalEntries, EntriesWritable, Settings, EachWritable, Strings;
    AllBare("command");
    AllBare("args");
    StringsLegal(args + AGENT_KIND);
    SettingsLegal(tools);
    EntryLegal("args", Array(Strings(args + AGENT_KIND)), Settings(tools));
    EntryLegal("command", Str(command), Entry(false, "args", Array(Strings(args + AGENT_KIND)), Settings(tools)));
  }

  lemma PlainWritable(v: string)
    requires forall i :: 0 <= i < |v| ==> BareChar(v[i])
    ensures Writable(v)
  {
    AllBare(v);
    PlainEscape(v);
  }

  lemma {:induction false} EachOfBoth(a: seq<string>, b: seq<string>)
    ensures EachWritable(a + b) <==> EachWritable(a) && EachWritable(b)
  {
    if a == [] {
      assert a + b == b;
    } else {
      EachOfBoth(a[1..], b);
      assert (a + b)[1..] == a[1..] + b;
    }
  }

  lemma AgentKindWritable(args: seq<string>)
    ensures EachWritable(args + AGENT_KIND) <==> EachWritable(args)
  {
    hide Writable, EachWritable;
    PlainWritable("--agent-kind");
    PlainWritable("Codex");
    AllWritableEach(AGENT_KIND);
    EachOfBoth(args, AGENT_KIND);
  }

  /** A reader gets exactly the configured server out of the override, its arguments in
      order and each tool approved, unless the command, an argument or a tool name holds
      a control character a basic string may not hold; then it refuses the override. */
  lemma OverrideReadsBack(command: string, args: seq<string>, tools: seq<string>)
    requires tools != []
    ensures ReadAssignment(ServerOverride(command, args, tools)) ==
            if Writable(command) && EachWritable(args) && EachWritable(tools)
            then Some((["mcp_servers", "santree-review"], Server(command, args, tools)))
            else None
  {
    hide BareLen, Writable, Server, ServerOverride, EachWritable, ReadAssignment;
    OverrideIsWritten(command, args, tools);
    ServerLegal(command, args, tools);
    AgentKindWritable(args);
    AllBare("mcp_servers");
    AllBare("santree-review");
    AssignmentReadsBack("mcp_servers", "santree-review", Server(command, args, tools));
  }

  /** santree's own tool names can all be written. */
  lemma ToolNamesWritable()
    ensures EachWritable(REVIEW_TOOL_NAMES)
  {
    hide Writable;
    forall i | 0 <= i < |REVIEW_TOOL_NAMES|
      ensures Writable(REVIEW_TOOL_NAMES[i])
    {
      PlainWritable(REVIEW_TOOL_NAMES[i]);
    }
    AllWritableEach(REVIEW_TOOL_NAMES);
  }

  lemma {:induction false} AllWritableEach(texts: seq<string>)
    requires forall i :: 0 <= i < |texts| ==> Writable(texts[i])
    ensures EachWritable(texts)
  {
    if texts != [] {
      AllWritableEach(texts[1..]);
    }
  }
}
