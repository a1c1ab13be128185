/** What the strict validator is shown of a launch, and what the overrides say once a
    shell and a TOML reader have read them (`validation_args` and the functions it rests
    on, src-tauri/src/codex_config.rs). */
module LaunchValidation {
  import opened Wrappers
  import opened ShellWords
  import opened LaunchFlags
  import opened LaunchMeaning
  import opened Overrides
  import opened OverrideRoundTrip
  import opened ReviewOverride
  import Toml

  /** The arguments that follow a `-c`, of arguments in pairs. */
  function OverrideWords(words: seq<string>): seq<string> {
    if |words| < 2 then [] else (if words[0] == "-c" then [words[1]] else []) + OverrideWords(words[2..])
  }

  lemma {:induction false} ValuesAreWords(flags: seq<Flag>)
    ensures OverrideWords(Arguments(flags)) == Values(flags)
  {
    if flags != [] {
      ValuesAreWords(flags[1..]);
      assert Arguments(flags)[2..] == Arguments(flags[1..]);
    }
  }

  // ── The reader sees the launch ────────────────────────────────────────────

  /** The flags written after the directory. */
  function AfterDirectory(config: LaunchConfig): seq<Flag>
    requires Flags(config).Ok?
  {
    NetworkFlags(config) + ModelFlags(config).value + EffortFlags(config).value + ReviewFlags(config).value
  }

  lemma InThreeParts(config: LaunchConfig)
    requires Flags(config).Ok?
    ensures Flags(config).value ==
            Restrictions(CodexProfile.ForSurface(config.surface)) + (DirectoryFlags(config) + AfterDirectory(config))
  {
    hide NetworkFlags, ModelFlags, EffortFlags, ReviewFlags, Restrictions, DirectoryFlags;
  }

  lemma {:induction false} RestrictionsFirst(before: seq<Flag>, after: seq<Flag>)
    requires forall i :: 0 <= i < |before| ==> before[i].name != "--add-dir"
    ensures Ordered(before + after) <==> Ordered(after)
    ensures Readable(before + after) <==> Readable(after)
  {
    if before == [] {
      assert before + after == after;
    } else {
      RestrictionsFirst(before[1..], after);
      assert (before + after)[0] == before[0] && (before + after)[1..] == before[1..] + after;
    }
  }

  lemma QuotedAfter(config: LaunchConfig)
    requires Flags(config).Ok?
    ensures forall flag :: flag in AfterDirectory(config) ==> flag.Quoted? && flag.name != "--add-dir"
  {
    hide ModelFlags, EffortFlags, ReviewFlags;
    ModelShellable(config);
    EffortShellable(config);
    ReviewShellable(config);
  }

  lemma DirectoryOrdered(directory: seq<Flag>, after: seq<Flag>)
    requires forall flag :: flag in after ==> flag.Quoted? && flag.name != "--add-dir"
    requires AllExpected(after) && |directory| <= 1
    requires forall flag :: flag in directory ==> flag.name == "--add-dir"
    ensures Ordered(directory + after)
    ensures Readable(directory + after) <==>
            directory == [] || DirectoryReadable(directory[0], after == [])
  {
    WithoutDirectory(after);
    if directory == [] {
      assert directory + after == after;
    } else {
      assert directory[0] in directory && (directory + after)[1..] == after;
    }
  }

  /** The directory's text is not taken for an override: it has no `-c '` in it, and does
      not end in `-c ` with a flag to follow. */
  predicate DirectoryIsPlain(config: LaunchConfig)
    requires Flags(config).Ok?
  {
    DirectoryFlags(config) == [] || DirectoryReadable(DirectoryFlags(config)[0], AfterDirectory(config) == [])
  }

  lemma AcceptedIsOrdered(config: LaunchConfig)
    requires Flags(config).Ok?
    ensures AllExpected(Flags(config).value) && Ordered(Flags(config).value)
    ensures Readable(Flags(config).value) <==> DirectoryIsPlain(config)
  {
    hide Expected, DirectoryReadable, Restrictions, DirectoryFlags, AfterDirectory, Flags, Ordered, Readable;
    var first := Restrictions(CodexProfile.ForSurface(config.surface));
    var directory, after := DirectoryFlags(config), AfterDirectory(config);
    ExpectedFlags(config);
    InThreeParts(config);
    QuotedAfter(config);
    WorkRestrictions(CodexProfile.ForSurface(config.surface));
    ExpectedLater(first, directory, after);
    AtMostOneDirectory(config);
    DirectoryOrdered(directory, after);
    RestrictionsFirst(first, directory + after);
  }

  lemma ExpectedLater(first: seq<Flag>, directory: seq<Flag>, after: seq<Flag>)
    requires AllExpected(first + (directory + after))
    ensures AllExpected(after)
  {
    hide Expected;
    assert forall i :: 0 <= i < |after| ==> after[i] == (first + (directory + after))[|first| + |directory| + i];
  }

  lemma AtMostOneDirectory(config: LaunchConfig)
    ensures |DirectoryFlags(config)| <= 1
    ensures forall flag :: flag in DirectoryFlags(config) ==> flag.name == "--add-dir"
  {
  }

  /** For every accepted launch, the overrides shown to the validator are precisely those
      the shell hands to Codex, in order and verbatim, if and only if the git directory
      is not taken for an override. */
  lemma ValidatorSeesTheLaunch(config: LaunchConfig)
    requires Flags(config).Ok?
    ensures var line := Line(Flags(config).value);
      && Words(line).Some?
      && (OverridesOf(line) == OverrideWords(Words(line).value) <==> DirectoryIsPlain(config))
  {
    hide Flags, Line, Words, OverridesOf, DirectoryIsPlain;
    var fs := Flags(config).value;
    LaunchIsTheArguments(config);
    ValuesAreWords(fs);
    AcceptedIsOrdered(config);
    RoundTrip(fs);
  }

  lemma MarkedPath()
    ensures HasMark("/w/-c '/.git")
  {
    var d := "/w/-c '/.git";
    assert d[1..][1..] == d[2..] && d[2..][1..] == d[3..];
    assert StartsMark(d[3..]);
    assert HasMark(d[2..]) && HasMark(d[1..]);
  }

  /** A launch whose directory breaks it: the validator is shown an override that is not
      launched, and not the one that is. */
  lemma DirectoryCanHideAnOverride() returns (config: LaunchConfig)
    ensures Flags(config).Ok?
    ensures var line := Line(Flags(config).value);
      Words(line).Some? && OverridesOf(line) != OverrideWords(Words(line).value)
    ensures Flags(config).value == [Quoted("--add-dir", "/w/-c '/.git"), Override(NETWORK)]
  {
    hide Words, Line, OverridesOf, OverrideWords;
    config := LaunchConfig(Surface.Work, false, None, None, None, Some(Some("/w/-c '/.git")), true);
    MarkedPath();
    ValidatorSeesTheLaunch(config);
  }

  function Pairs(values: seq<string>): seq<string> {
    if values == [] then [] else ["-c", values[0]] + Pairs(values[1..])
  }

  lemma {:induction false} PairsOn(values: seq<string>, value: string)
    ensures Pairs(values + [value]) == Pairs(values) + ["-c", value]
  {
    if values == [] {
      assert values + [value] == [value] && [value][1..] == [];
    } else {
      PairsOn(values[1..], value);
      assert (values + [value])[1..] == values[1..] + [value];
    }
  }

  /** The validator's arguments: every override found, each after its own `-c`, or no
      check when there are none. */
  method ValidationArgs(flags: string) returns (args: Option<seq<string>>)
    ensures args == if OverridesOf(flags) == [] then None
                    else Some(["exec", "--strict-config", "--ephemeral", "--ignore-user-config"]
                              + Pairs(OverridesOf(flags)) + ["-"])
  {
    hide OverridesOf;
    var overrides := ConfigOverridesOf(flags);
    if overrides == [] {
      return None;
    }
    var all := ["exec", "--strict-config", "--ephemeral", "--ignore-user-config"];
    ghost var first := all;
    for i := 0 to |overrides|
      invariant all == first + Pairs(overrides[..i])
    {
      PairsOn(overrides[..i], overrides[i]);
      assert overrides[..i + 1] == overrides[..i] + [overrides[i]];
      all := all + ["-c", overrides[i]];
    }
    assert overrides[..|overrides|] == overrides;
    return Some(all + ["-"]);
  }

  // ── What Codex reads ──────────────────────────────────────────────────────

  function Read(values: seq<string>): seq<Option<(seq<string>, Toml.Value)>> {
    if values == [] then [] else [ReadAssignment(values[0])] + Read(values[1..])
  }

  function Present(assignments: seq<(seq<string>, Toml.Value)>): seq<Option<(seq<string>, Toml.Value)>> {
    if assignments == [] then [] else [Some(assignments[0])] + Present(assignments[1..])
  }

  lemma Assembled<T>(first: seq<T>, rest: seq<T>, more: seq<T>)
    ensures first + (rest + more) == (first + rest) + more
  {
  }

  lemma {:induction false} ReadOfConcat(a: seq<string>, b: seq<string>)
    ensures Read(a + b) == Read(a) + Read(b)
  {
    hide ReadAssignment;
    if a == [] {
      assert a + b == b;
    } else {
      ReadOfConcat(a[1..], b);
      assert (a + b)[0] == a[0] && (a + b)[1..] == a[1..] + b;
      Assembled([ReadAssignment(a[0])], Read(a[1..]), Read(b));
    }
  }

  lemma {:induction false} PresentOfConcat(a: seq<(seq<string>, Toml.Value)>, b: seq<(seq<string>, Toml.Value)>)
    ensures Present(a + b) == Present(a) + Present(b)
  {
    if a == [] {
      assert a + b == b;
    } else {
      PresentOfConcat(a[1..], b);
      assert (a + b)[0] == a[0] && (a + b)[1..] == a[1..] + b;
      Assembled([Some(a[0])], Present(a[1..]), Present(b));
    }
  }

  lemma {:induction false} ValuesOfConcat(a: seq<Flag>, b: seq<Flag>)
    ensures Values(a + b) == Values(a) + Values(b)
  {
    hide Value;
    if a == [] {
      assert a + b == b;
    } else {
      ValuesOfConcat(a[1..], b);
      assert (a + b)[0] == a[0] && (a + b)[1..] == a[1..] + b;
      Assembled(Value(a[0]), Values(a[1..]), Values(b));
    }
  }

  lemma NetworkReads()
    ensures ReadAssignment(NETWORK) == Some((["sandbox_workspace_write", "network_access"], Toml.Bool(true)))
  {
    hide ReadAssignment, Toml.BareLen;
    AllBare("sandbox_workspace_write");
    AllBare("network_access");
    AssignmentReadsBack("sandbox_workspace_write", "network_access", Toml.Bool(true));
    assert Toml.Written(Toml.Bool(true), "") == "true";
    assert "sandbox_workspace_write" + ("." + ("network_access" + ("=" + "true"))) == NETWORK;
  }

  lemma {:induction false} TokenWritable(v: string)
    requires forall i :: 0 <= i < |v| ==> TokenChar(v[i])
    ensures Toml.Writable(v)
  {
    if v != "" {
      TokenWritable(v[1..]);
    }
  }

  lemma EffortReads(effort: string)
    requires SafeToken(effort)
    ensures ReadAssignment(EFFORT + Toml.TomlString(effort)) == Some((["model_reasoning_effort"], Toml.Str(effort)))
  {
    hide ReadAssignment, Toml.BareLen, Toml.TomlString;
    AllBare("model_reasoning_effort");
    TokenWritable(effort);
    PlainAssignmentReadsBack("model_reasoning_effort", Toml.Str(effort));
    assert Toml.Written(Toml.Str(effort), "") == Toml.TomlString(effort);
    assert "model_reasoning_effort" + "=" == EFFORT;
    assert "model_reasoning_effort" + ("=" + Toml.TomlString(effort)) == "model_reasoning_effort" + "=" + Toml.TomlString(effort);
  }

  lemma ServerReads(server: ServerConfig)
    ensures ReadAssignment(ServerOverride(server.command, server.args, REVIEW_TOOL_NAMES)) ==
            if Toml.Writable(server.command) && EachWritable(server.args)
            then Some((["mcp_servers", "santree-review"], Server(server.command, server.args, REVIEW_TOOL_NAMES)))
            else None
  {
    hide ReadAssignment, ServerOverride, Server;
    ToolNamesWritable();
    OverrideReadsBack(server.command, server.args, REVIEW_TOOL_NAMES);
  }

  lemma {:induction false} NoValues(flags: seq<Flag>)
    requires forall i :: 0 <= i < |flags| ==> flags[i].name != "-c"
    ensures Values(flags) == []
  {
    if flags != [] {
      NoValues(flags[1..]);
    }
  }

  lemma OneValue(assignment: string)
    ensures Values([Override(assignment)]) == [assignment]
    ensures Read([assignment]) == [ReadAssignment(assignment)]
  {
    hide ReadAssignment;
    assert [Override(assignment)][1..] == [] && [assignment][1..] == [];
  }

  lemma OnePresent(assignment: (seq<string>, Toml.Value))
    ensures Present([assignment]) == [Some(assignment)]
  {
    assert [assignment][1..] == [];
  }

  /** The three parts of a launch that assign, and what each means. */
  function NetworkMeant(config: LaunchConfig): seq<(seq<string>, Toml.Value)> {
    if config.surface.Work? && config.networkAccess
    then [(["sandbox_workspace_write", "network_access"], Toml.Bool(true))]
    else []
  }

  /** The effort the launch asks for, if it asks for one. */
  ghost predicate AsksEffort(config: LaunchConfig, effort: Option<string>) {
    match effort
    case None => !(config.freshLaunch && config.effort.Some? && HasText(config.effort.value))
    case Some(value) => Asks(config.freshLaunch, config.effort, value)
  }

  lemma EffortIsChosen(config: LaunchConfig, effort: Option<string>)
    ensures AsksEffort(config, effort) <==> effort == Chosen(config.freshLaunch, config.effort)
  {
    hide Asks, Chosen, HasText;
    ChosenIsAsked(config.freshLaunch, config.effort);
    var chosen := Chosen(config.freshLaunch, config.effort);
    if chosen.Some? {
      assert Asks(config.freshLaunch, config.effort, chosen.value);
    }
  }

  function EffortMeant(effort: Option<string>): seq<(seq<string>, Toml.Value)> {
    match effort
    case None => []
    case Some(value) => [(["model_reasoning_effort"], Toml.Str(value))]
  }

  function ReviewMeant(config: LaunchConfig): seq<(seq<string>, Toml.Value)>
    requires ReviewFlags(config).Ok?
  {
    match config.reviewServer
    case None => []
    case Some(server) =>
      [(["mcp_servers", "santree-review"], Server(server.value.command, server.value.args, REVIEW_TOOL_NAMES))]
  }

  lemma NetworkPart(config: LaunchConfig)
    ensures Read(Values(NetworkFlags(config))) == Present(NetworkMeant(config))
  {
    hide ReadAssignment;
    if NetworkFlags(config) != [] {
      assert NetworkFlags(config) == [Override(NETWORK)];
      OneValue(NETWORK);
      NetworkReads();
      OnePresent((["sandbox_workspace_write", "network_access"], Toml.Bool(true)));
    }
  }

  lemma EffortPart(config: LaunchConfig, effort: Option<string>)
    requires EffortFlags(config).Ok? && AsksEffort(config, effort)
    ensures Read(Values(EffortFlags(config).value)) == Present(EffortMeant(effort))
  {
    hide ReadAssignment, Chosen, SafeToken, AsksEffort, Toml.TomlString;
    EffortIsChosen(config, effort);
    var chosen := Chosen(config.freshLaunch, config.effort);
    if chosen.Some? {
      OneValue(EFFORT + Toml.TomlString(chosen.value));
      EffortReads(chosen.value);
      OnePresent((["model_reasoning_effort"], Toml.Str(chosen.value)));
    }
  }

  /** The server's command and arguments hold no control character but tab, newline and
      return. */
  predicate ServerWritable(config: LaunchConfig) {
    config.reviewServer.Some? && config.reviewServer.value.Ok? ==>
      var server := config.reviewServer.value.value;
      Toml.Writable(server.command) && EachWritable(server.args)
  }

  lemma ReviewPart(config: LaunchConfig)
    requires ReviewFlags(config).Ok?
    ensures Read(Values(ReviewFlags(config).value)) == Present(ReviewMeant(config)) <==> ServerWritable(config)
  {
    hide ReadAssignment, ServerOverride, Server, Toml.Writable, EachWritable;
    if config.reviewServer.Some? {
      var server := config.reviewServer.value.value;
      OneValue(ServerOverride(server.command, server.args, REVIEW_TOOL_NAMES));
      ServerReads(server);
      OnePresent((["mcp_servers", "santree-review"], Server(server.command, server.args, REVIEW_TOOL_NAMES)));
    }
  }

  lemma ValuesInParts(config: LaunchConfig)
    requires Flags(config).Ok?
    ensures Values(Flags(config).value) ==
            Values(NetworkFlags(config)) + Values(EffortFlags(config).value) + Values(ReviewFlags(config).value)
  {
    hide NetworkFlags, ModelFlags, EffortFlags, ReviewFlags, Restrictions, DirectoryFlags, Values;
    var first, directory := Restrictions(CodexProfile.ForSurface(config.surface)), DirectoryFlags(config);
    var network, model := NetworkFlags(config), ModelFlags(config).value;
    ValuesOfConcat(first + directory + network + model + EffortFlags(config).value, ReviewFlags(config).value);
    ValuesOfConcat(first + directory + network + model, EffortFlags(config).value);
    ValuesOfConcat(first + directory + network, model);
    ValuesOfConcat(first + directory, network);
    ValuesOfConcat(first, directory);
    AssignsNothing(config);
  }

  lemma AssignsNothing(config: LaunchConfig)
    requires ModelFlags(config).Ok?
    ensures Values(Restrictions(CodexProfile.ForSurface(config.surface))) == []
    ensures Values(DirectoryFlags(config)) == [] && Values(ModelFlags(config).value) == []
  {
    hide Values, ModelFlags;
    WorkRestrictions(CodexProfile.ForSurface(config.surface));
    NoValues(Restrictions(CodexProfile.ForSurface(config.surface)));
    AtMostOneDirectory(config);
    NoValues(DirectoryFlags(config));
    ModelShellable(config);
    NoValues(ModelFlags(config).value);
  }

  lemma EqualAfter<T>(before: seq<T>, a: seq<T>, b: seq<T>)
    ensures before + a == before + b <==> a == b
  {
    assert (before + a)[|before|..] == a && (before + b)[|before|..] == b;
  }

  /** Codex reads out of an accepted launch exactly the assignments meant if and only if
      the review server's strings can be written: the shell's words after each `-c`, read
      as TOML, are the network switch, the effort and the review server with its
      arguments, each present when and only when it was asked for. */
  lemma CodexReadsWhatWasMeant(config: LaunchConfig, effort: Option<string>)
    requires Flags(config).Ok? && AsksEffort(config, effort)
    ensures Words(Line(Flags(config).value)).Some? && ReviewFlags(config).Ok?
    ensures (Read(OverrideWords(Words(Line(Flags(config).value)).value)) ==
             Present(NetworkMeant(config) + EffortMeant(effort) + ReviewMeant(config)))
            <==> ServerWritable(config)
  {
    hide Flags, Line, Words, NetworkMeant, EffortMeant, ReviewMeant, NetworkFlags, EffortFlags, ReviewFlags, ModelFlags;
    hide Values, Read, Present, ServerWritable, AsksEffort;
    PartsAccepted(config);
    LaunchIsTheArguments(config);
    ValuesAreWords(Flags(config).value);
    ValuesInParts(config);
    NetworkPart(config);
    EffortPart(config, effort);
    ReviewPart(config);
    var network, value, review := Values(NetworkFlags(config)), Values(EffortFlags(config).value), Values(ReviewFlags(config).value);
    ReadOfConcat(network + value, review);
    ReadOfConcat(network, value);
    PresentOfConcat(NetworkMeant(config) + EffortMeant(effort), ReviewMeant(config));
    PresentOfConcat(NetworkMeant(config), EffortMeant(effort));
    EqualAfter(Read(network) + Read(value), Read(review), Present(ReviewMeant(config)));
  }

  lemma PartsAccepted(config: LaunchConfig)
    requires Flags(config).Ok?
    ensures ModelFlags(config).Ok? && EffortFlags(config).Ok? && ReviewFlags(config).Ok?
  {
    hide ModelFlags, EffortFlags, ReviewFlags;
  }
}
