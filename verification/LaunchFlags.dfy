/** The flags a Codex session launches with (`launch_flags`,
    src-tauri/src/codex_config.rs). */
module LaunchFlags {
  import opened Wrappers
  import opened Whitespace
  import opened ShellWords
  import opened ReviewOverride
  import Toml

  datatype Surface = Work | Review | Investigate | AskAi | FixCi

  datatype CodexProfile = Work | ReadOnly | Review | FixCi {
    static function ForSurface(surface: Surface): CodexProfile {
      match surface
      case Work => CodexProfile.Work
      case Review => CodexProfile.Review
      case Investigate => ReadOnly
      case AskAi => ReadOnly
      case FixCi => CodexProfile.FixCi
    }

    function Sandbox(): Option<string> {
      match this
      case ReadOnly => Some("read-only")
      case Review => Some("read-only")
      case _ => None
    }

    function Approval(): Option<string> {
      match this
      case Work => None
      case _ => Some("never")
    }

    predicate WantsReviewTools() {
      Review? || FixCi?
    }

    predicate WritesTheCheckout() {
      Work? || FixCi?
    }

    predicate MayReachTheNetwork() {
      Work?
    }
  }

  /** What the review configuration file says, once read and parsed. */
  datatype ServerConfig = ServerConfig(command: string, args: seq<string>)

  datatype ServerError = Unreadable | NotJson | NoServer | NoCommand | NoArguments | NonStringArgument

  datatype LaunchError = InvalidModel | InvalidEffort | NoReviewTools | NotAReview | BadServer(error: ServerError)

  /** `gitDir` is a path, `Some(None)` one that is not UTF-8; `reviewServer` is what
      reading the configuration of the review's tools gives, when there is one. */
  datatype LaunchConfig = LaunchConfig(
    surface: Surface,
    freshLaunch: bool,
    model: Option<string>,
    effort: Option<string>,
    reviewServer: Option<Result<ServerConfig, ServerError>>,
    gitDir: Option<Option<string>>,
    networkAccess: bool)

  predicate TokenChar(ch: char) {
    'a' <= ch <= 'z' || 'A' <= ch <= 'Z' || '0' <= ch <= '9' || ch in {'-', '_', '.'}
  }

  /** At most 64 bytes, which are characters here, each being ASCII. */
  predicate SafeToken(v: string) {
    v != "" && |v| <= 64 && v[0] != '-' && forall i :: 0 <= i < |v| ==> TokenChar(v[i])
  }

  // ── The flags meant ───────────────────────────────────────────────────────

  /** One flag and its argument, the argument quoted for the shell or a plain word. */
  datatype Flag = Bare(name: string, value: string) | Quoted(name: string, value: string)

  const NETWORK := "sandbox_workspace_write.network_access=true"
  const EFFORT := "model_reasoning_effort="

  function Override(assignment: string): Flag {
    Quoted("-c", assignment)
  }

  /** A setting that counts: fresh launches only, trimmed, not empty. */
  function Chosen(freshLaunch: bool, setting: Option<string>): Option<string> {
    if freshLaunch && setting.Some? && TrimmedEnd(Trimmed(setting.value)) != ""
    then Some(TrimmedEnd(Trimmed(setting.value)))
    else None
  }

  function Restrictions(profile: CodexProfile): seq<Flag> {
    (if profile.Sandbox().Some? then [Bare("--sandbox", profile.Sandbox().value)] else [])
    + (if profile.Approval().Some? then [Bare("--ask-for-approval", profile.Approval().value)] else [])
  }

  function DirectoryFlags(config: LaunchConfig): seq<Flag> {
    if CodexProfile.ForSurface(config.surface).WritesTheCheckout() && config.gitDir.Some? && config.gitDir.value.Some?
    then [Quoted("--add-dir", config.gitDir.value.value)]
    else []
  }

  function NetworkFlags(config: LaunchConfig): seq<Flag> {
    if config.networkAccess && CodexProfile.ForSurface(config.surface).MayReachTheNetwork()
    then [Override(NETWORK)]
    else []
  }

  function ModelFlags(config: LaunchConfig): Result<seq<Flag>, LaunchError> {
    match Chosen(config.freshLaunch, config.model)
    case None => Ok([])
    case Some(model) => if SafeToken(model) then Ok([Quoted("--model", model)]) else Err(InvalidModel)
  }

  function EffortFlags(config: LaunchConfig): Result<seq<Flag>, LaunchError> {
    match Chosen(config.freshLaunch, config.effort)
    case None => Ok([])
    case Some(effort) =>
      if SafeToken(effort) then Ok([Override(EFFORT + Toml.TomlString(effort))]) else Err(InvalidEffort)
  }

  function ReviewFlags(config: LaunchConfig): Result<seq<Flag>, LaunchError> {
    match (CodexProfile.ForSurface(config.surface).WantsReviewTools(), config.reviewServer)
    case (true, Some(Ok(server))) => Ok([Override(ServerOverride(server.command, server.args, REVIEW_TOOL_NAMES))])
    case (true, Some(Err(error))) => Err(BadServer(error))
    case (true, None) => Err(NoReviewTools)
    case (false, Some(_)) => Err(NotAReview)
    case (false, None) => Ok([])
  }

  /** The flags of a launch, in order, or the first thing wrong with it. */
  function Flags(config: LaunchConfig): Result<seq<Flag>, LaunchError> {
    var model :- ModelFlags(config);
    var effort :- EffortFlags(config);
    var review :- ReviewFlags(config);
    Ok(Restrictions(CodexProfile.ForSurface(config.surface)) + DirectoryFlags(config) + NetworkFlags(config)
       + model + effort + review)
  }

  // ── The line written ──────────────────────────────────────────────────────

  function FlagText(flag: Flag): string {
    flag.name + (" " + if flag.Quoted? then Quote(flag.value) else flag.value)
  }

  /** `join(" ")` over the flags' texts. */
  function Line(flags: seq<Flag>): string {
    if |flags| == 0 then "" else FlagText(flags[0]) + (if |flags| == 1 then "" else " " + Line(flags[1..]))
  }

  /** The arguments the flags stand for. */
  function Arguments(flags: seq<Flag>): seq<string> {
    if flags == [] then [] else [flags[0].name, flags[0].value] + Arguments(flags[1..])
  }

  predicate PlainText(v: string) {
    v != "" && forall i :: 0 <= i < |v| ==> Plain(v[i])
  }

  predicate Shellable(flag: Flag) {
    PlainText(flag.name) && (flag.Bare? ==> PlainText(flag.value))
  }

  lemma BlankEndsWord(word: string, rest: string)
    ensures Split(" " + rest, Some(word), false) == After([word], Split(rest, None, false))
  {
    assert (" " + rest)[1..] == rest;
  }

  /** A flag is two words, whatever its argument holds. */
  lemma FlagIsTwoWords(flag: Flag, rest: string)
    requires Shellable(flag)
    ensures Split(FlagText(flag) + rest, None, false) == After([flag.name], Split(rest, Some(flag.value), false))
  {
    var value := if flag.Quoted? then Quote(flag.value) else flag.value;
    assert FlagText(flag) + rest == flag.name + (" " + (value + rest));
    PlainWord(flag.name, " " + (value + rest));
    BlankEndsWord(flag.name, value + rest);
    if flag.Quoted? {
      QuotedIsVerbatim(flag.value, rest);
    } else {
      PlainWord(flag.value, rest);
    }
  }

  lemma {:induction false} LineSplits(flags: seq<Flag>)
    requires forall i :: 0 <= i < |flags| ==> Shellable(flags[i])
    ensures Words(Line(flags)) == Some(Arguments(flags))
  {
    if |flags| == 1 {
      assert Line(flags) == FlagText(flags[0]) + "";
      FlagIsTwoWords(flags[0], "");
      assert Arguments(flags) == [flags[0].name] + [flags[0].value] by {
        assert flags[1..] == [];
      }
    } else if |flags| > 1 {
      LineSplits(flags[1..]);
      FlagIsTwoWords(flags[0], " " + Line(flags[1..]));
      BlankEndsWord(flags[0].value, Line(flags[1..]));
      var rest := Arguments(flags[1..]);
      assert [flags[0].name] + ([flags[0].value] + rest) == [flags[0].name, flags[0].value] + rest;
    }
  }

  // ── What a launch may and may not be ──────────────────────────────────────

  lemma WorkRestrictions(profile: CodexProfile)
    ensures var fs := Restrictions(profile);
      forall i :: 0 <= i < |fs| ==> Shellable(fs[i]) && fs[i].Bare? && fs[i].name != "--add-dir"
  {
  }

  lemma ModelShellable(config: LaunchConfig)
    requires ModelFlags(config).Ok?
    ensures var fs := ModelFlags(config).value;
      forall i :: 0 <= i < |fs| ==> fs[i].Quoted? && fs[i].name == "--model" && SafeToken(fs[i].value)
  {
  }

  /** An override of a key that is one of santree's own, all of which start with `m`
      but the network switch. */
  predicate Assigns(flag: Flag) {
    flag.Quoted? && flag.name == "-c" && flag.value != "" && flag.value[0] == 'm'
  }

  lemma EffortShellable(config: LaunchConfig)
    requires EffortFlags(config).Ok?
    ensures var fs := EffortFlags(config).value; forall i :: 0 <= i < |fs| ==> Assigns(fs[i])
  {
    hide Toml.TomlString;
  }

  lemma OverrideHead(command: string, args: seq<string>, tools: seq<string>)
    ensures ServerOverride(command, args, tools) != "" && ServerOverride(command, args, tools)[0] == 'm'
  {
    hide Joined, Approvals, QuotedEach, Toml.TomlString;
  }

  lemma ReviewShellable(config: LaunchConfig)
    requires ReviewFlags(config).Ok?
    ensures var fs := ReviewFlags(config).value; forall i :: 0 <= i < |fs| ==> Assigns(fs[i])
  {
    hide ServerOverride;
    if config.reviewServer.Some? && config.reviewServer.value.Ok? {
      var server := config.reviewServer.value.value;
      OverrideHead(server.command, server.args, REVIEW_TOOL_NAMES);
    }
  }

  /** The names a flag can have, each with what its argument can be. */
  predicate Expected(flag: Flag) {
    match flag
    case Bare(name, value) => (name == "--sandbox" && value == "read-only") || (name == "--ask-for-approval" && value == "never")
    case Quoted(name, value) =>
      || (name == "--model" && SafeToken(value))
      || (name == "-c" && value != "" && (value[0] == 'm' || value == NETWORK))
      || name == "--add-dir"
  }

  lemma ExpectedFlags(config: LaunchConfig)
    requires Flags(config).Ok?
    ensures forall i :: 0 <= i < |Flags(config).value| ==> Expected(Flags(config).value[i])
  {
    hide ServerOverride, ReviewFlags, EffortFlags, ModelFlags, Toml.TomlString;
    ModelShellable(config);
    EffortShellable(config);
    ReviewShellable(config);
  }

  lemma ExpectedIsShellable(flag: Flag)
    requires Expected(flag)
    ensures Shellable(flag)
  {
  }

  /** The shell reads an accepted launch as exactly the arguments meant, two words a
      flag: no configured path, model, effort or override can add a word or a flag. */
  lemma LaunchIsTheArguments(config: LaunchConfig)
    requires Flags(config).Ok?
    ensures Words(Line(Flags(config).value)) == Some(Arguments(Flags(config).value))
    ensures |Arguments(Flags(config).value)| == 2 * |Flags(config).value|
  {
    var fs := Flags(config).value;
    ExpectedFlags(config);
    forall i | 0 <= i < |fs|
      ensures Shellable(fs[i])
    {
      ExpectedIsShellable(fs[i]);
    }
    LineSplits(fs);
    ArgumentsOf(fs);
  }

  lemma {:induction false} ArgumentsOf(flags: seq<Flag>)
    ensures |Arguments(flags)| == 2 * |flags|
    ensures forall i :: 0 <= i < |flags| ==>
              Arguments(flags)[2 * i] == flags[i].name && Arguments(flags)[2 * i + 1] == flags[i].value
  {
    if flags != [] {
      ArgumentsOf(flags[1..]);
      forall i | 0 < i < |flags|
        ensures Arguments(flags)[2 * i] == flags[i].name && Arguments(flags)[2 * i + 1] == flags[i].value
      {
        assert flags[i] == flags[1..][i - 1];
      }
    }
  }

  // santree only tightens.

  /** A read-only surface is sandboxed and never asks for more; addressing a review never
      asks either. */
  lemma RestrictedFirst(config: LaunchConfig)
    requires Flags(config).Ok?
    ensures Restrictions(CodexProfile.ForSurface(config.surface)) <= Flags(config).value
    ensures config.surface in {Surface.Review, Surface.Investigate, Surface.AskAi} ==>
              Flags(config).value[..2] == [Bare("--sandbox", "read-only"), Bare("--ask-for-approval", "never")]
    ensures config.surface.FixCi? ==> Flags(config).value[..1] == [Bare("--ask-for-approval", "never")]
  {
    hide ReviewFlags, EffortFlags, ModelFlags, NetworkFlags, DirectoryFlags;
    var first := Restrictions(CodexProfile.ForSurface(config.surface));
    assert Flags(config).value[..|first|] == first;
  }

  lemma RestrictionIs(profile: CodexProfile, flag: Flag)
    ensures flag in Restrictions(profile) <==>
      || (flag == Bare("--sandbox", "read-only") && (profile.ReadOnly? || profile.Review?))
      || (flag == Bare("--ask-for-approval", "never") && !profile.Work?)
  {
    var sandbox := if profile.Sandbox().Some? then [Bare("--sandbox", profile.Sandbox().value)] else [];
    var approval := if profile.Approval().Some? then [Bare("--ask-for-approval", profile.Approval().value)] else [];
    assert Restrictions(profile) == sandbox + approval;
    assert flag in Restrictions(profile) <==> flag in sandbox || flag in approval;
  }

  /** The user's own session carries neither restriction, and no session carries any
      other sandbox or approval than the tight one of its surface. */
  lemma RestrictedExactly(config: LaunchConfig, flag: Flag)
    requires Flags(config).Ok? && flag.name in {"--sandbox", "--ask-for-approval"}
    ensures flag in Flags(config).value <==>
      || (flag == Bare("--sandbox", "read-only")
          && config.surface in {Surface.Review, Surface.Investigate, Surface.AskAi})
      || (flag == Bare("--ask-for-approval", "never") && !config.surface.Work?)
  {
    hide ReviewFlags, EffortFlags, ModelFlags, DirectoryFlags, Flags, Restrictions;
    FromParts(config, flag);
    RestrictionIs(CodexProfile.ForSurface(config.surface), flag);
    ModelShellable(config);
    EffortShellable(config);
    ReviewShellable(config);
    DirectoryIsGit(config, flag);
  }

  /** A flag of a launch comes from one of its parts. */
  lemma FromParts(config: LaunchConfig, flag: Flag)
    requires Flags(config).Ok?
    ensures ModelFlags(config).Ok? && EffortFlags(config).Ok? && ReviewFlags(config).Ok?
    ensures flag in Flags(config).value <==>
      || flag in Restrictions(CodexProfile.ForSurface(config.surface)) || flag in DirectoryFlags(config)
      || flag in NetworkFlags(config) || flag in ModelFlags(config).value
      || flag in EffortFlags(config).value || flag in ReviewFlags(config).value
  {
    hide ReviewFlags, EffortFlags, ModelFlags, NetworkFlags, DirectoryFlags, Restrictions;
  }

  /** Outbound network is opened on the user's own session alone, and only when the
      setting is on. */
  lemma NetworkOnlyOnWork(config: LaunchConfig)
    requires Flags(config).Ok?
    ensures Override(NETWORK) in Flags(config).value <==> config.surface.Work? && config.networkAccess
  {
    hide ReviewFlags, EffortFlags, ModelFlags, DirectoryFlags, Flags;
    var network := Override(NETWORK);
    FromParts(config, network);
    WorkRestrictions(CodexProfile.ForSurface(config.surface));
    ModelShellable(config);
    EffortShellable(config);
    ReviewShellable(config);
    DirectoryIsGit(config, network);
    assert NETWORK[0] == 's' && network.value == NETWORK;
    if config.surface.Work? && config.networkAccess {
      assert NetworkFlags(config) == [network];
    }
  }

  lemma DirectoryIsGit(config: LaunchConfig, flag: Flag)
    ensures flag in DirectoryFlags(config) <==>
              flag.Quoted? && flag.name == "--add-dir"
              && config.surface in {Surface.Work, Surface.FixCi} && config.gitDir == Some(Some(flag.value))
  {
  }

  /** The one directory granted is the git directory, on the surfaces that write the
      checkout and nowhere else, whenever its path is text. */
  lemma OnlyGitIsGranted(config: LaunchConfig, flag: Flag)
    requires Flags(config).Ok? && flag.name == "--add-dir"
    ensures flag in Flags(config).value <==>
              flag.Quoted? && config.surface in {Surface.Work, Surface.FixCi} && config.gitDir == Some(Some(flag.value))
  {
    hide ReviewFlags, EffortFlags, ModelFlags, DirectoryFlags, Flags;
    FromParts(config, flag);
    WorkRestrictions(CodexProfile.ForSurface(config.surface));
    ModelShellable(config);
    EffortShellable(config);
    ReviewShellable(config);
    DirectoryIsGit(config, flag);
  }

  // ── The builder ───────────────────────────────────────────────────────────

  function Texts(flags: seq<Flag>): seq<string> {
    if flags == [] then [] else [FlagText(flags[0])] + Texts(flags[1..])
  }

  function Spaced(texts: seq<string>): string {
    if |texts| == 0 then "" else texts[0] + (if |texts| == 1 then "" else " " + Spaced(texts[1..]))
  }

  lemma {:induction false} LineIsSpaced(flags: seq<Flag>)
    ensures Line(flags) == Spaced(Texts(flags)) && |Texts(flags)| == |flags|
  {
    if flags != [] {
      LineIsSpaced(flags[1..]);
    }
  }

  lemma {:induction false} Pushed(done: seq<Flag>, flag: Flag)
    ensures Texts(done + [flag]) == Texts(done) + [flag.name + (" " + if flag.Quoted? then Quote(flag.value) else flag.value)]
  {
    if done == [] {
      assert done + [flag] == [flag] && [flag][1..] == [];
    } else {
      var first, rest := FlagText(done[0]), Texts(done[1..]);
      hide FlagText;
      Pushed(done[1..], flag);
      assert (done + [flag])[0] == done[0] && (done + [flag])[1..] == done[1..] + [flag];
      Assembled(first, rest, flag.name + (" " + if flag.Quoted? then Quote(flag.value) else flag.value));
    }
  }

  lemma Assembled(first: string, rest: seq<string>, last: string)
    ensures [first] + (rest + [last]) == ([first] + rest) + [last]
  {
  }

  /** `config_flag` */
  function ConfigFlag(assignment: string): string {
    "-c" + (" " + Quote(assignment))
  }

  method RestrictionTexts(profile: CodexProfile) returns (flags: seq<string>)
    ensures flags == Texts(Restrictions(profile))
  {
    flags := [];
    ghost var meant := [];
    if profile.Sandbox().Some? {
      Pushed(meant, Bare("--sandbox", profile.Sandbox().value));
      meant := meant + [Bare("--sandbox", profile.Sandbox().value)];
      flags := flags + ["--sandbox" + (" " + profile.Sandbox().value)];
    }
    if profile.Approval().Some? {
      Pushed(meant, Bare("--ask-for-approval", profile.Approval().value));
      meant := meant + [Bare("--ask-for-approval", profile.Approval().value)];
      flags := flags + ["--ask-for-approval" + (" " + profile.Approval().value)];
    }
    assert meant == Restrictions(profile);
  }

  method PushDirectory(config: LaunchConfig, pushed: seq<string>, ghost meant: seq<Flag>) returns (flags: seq<string>)
    requires pushed == Texts(meant) && CodexProfile.ForSurface(config.surface).WritesTheCheckout()
    ensures flags == Texts(meant + DirectoryFlags(config))
  {
    hide Texts, Quote;
    if config.gitDir.Some? && config.gitDir.value.Some? {
      Pushed(meant, Quoted("--add-dir", config.gitDir.value.value));
      return pushed + ["--add-dir" + (" " + Quote(config.gitDir.value.value))];
    }
    assert meant + [] == meant;
    return pushed;
  }

  method PushNetwork(config: LaunchConfig, pushed: seq<string>, ghost meant: seq<Flag>) returns (flags: seq<string>)
    requires pushed == Texts(meant)
    ensures flags == Texts(meant + NetworkFlags(config))
  {
    hide Texts, Quote;
    if config.networkAccess && CodexProfile.ForSurface(config.surface).MayReachTheNetwork() {
      Pushed(meant, Override(NETWORK));
      return pushed + [ConfigFlag(NETWORK)];
    }
    assert meant + [] == meant;
    return pushed;
  }

  /** The flags so far with those of a part added, or the part's error. */
  function Extended(meant: seq<Flag>, part: Result<seq<Flag>, LaunchError>): Result<seq<string>, LaunchError> {
    match part
    case Ok(more) => Ok(Texts(meant + more))
    case Err(error) => Err(error)
  }

  method PushModel(config: LaunchConfig, pushed: seq<string>, ghost meant: seq<Flag>)
    returns (r: Result<seq<string>, LaunchError>)
    requires pushed == Texts(meant)
    ensures r == Extended(meant, ModelFlags(config))
  {
    hide Texts;
    var model := Chosen(config.freshLaunch, config.model);
    if model.None? {
      assert meant + [] == meant;
      return Ok(pushed);
    }
    if !SafeToken(model.value) {
      return Err(InvalidModel);
    }
    Pushed(meant, Quoted("--model", model.value));
    return Ok(pushed + ["--model" + (" " + Quote(model.value))]);
  }

  method PushEffort(config: LaunchConfig, pushed: seq<string>, ghost meant: seq<Flag>)
    returns (r: Result<seq<string>, LaunchError>)
    requires pushed == Texts(meant)
    ensures r == Extended(meant, EffortFlags(config))
  {
    hide Texts, Toml.TomlString;
    var effort := Chosen(config.freshLaunch, config.effort);
    if effort.None? {
      assert meant + [] == meant;
      return Ok(pushed);
    }
    if !SafeToken(effort.value) {
      return Err(InvalidEffort);
    }
    var written := Toml.WriteTomlString(effort.value);
    Pushed(meant, Override(EFFORT + written));
    return Ok(pushed + [ConfigFlag(EFFORT + written)]);
  }

  method PushReview(config: LaunchConfig, pushed: seq<string>, ghost meant: seq<Flag>)
    returns (r: Result<seq<string>, LaunchError>)
    requires pushed == Texts(meant)
    ensures r == Extended(meant, ReviewFlags(config))
  {
    hide Texts, ServerOverride;
    match (CodexProfile.ForSurface(config.surface).WantsReviewTools(), config.reviewServer) {
      case (true, Some(Ok(server))) =>
        var text := ServerOverride(server.command, server.args, REVIEW_TOOL_NAMES);
        Pushed(meant, Override(text));
        return Ok(pushed + [ConfigFlag(text)]);
      case (true, Some(Err(error))) => return Err(BadServer(error));
      case (true, None) => return Err(NoReviewTools);
      case (false, Some(_)) => return Err(NotAReview);
      case (false, None) =>
        assert meant + [] == meant;
        return Ok(pushed);
    }
  }

  lemma NothingWritten(config: LaunchConfig, meant: seq<Flag>)
    requires !CodexProfile.ForSurface(config.surface).WritesTheCheckout()
    ensures meant + DirectoryFlags(config) + NetworkFlags(config) == meant
  {
  }

  /** The flags one by one, and the first error as soon as it is met. */
  method LaunchFlags(config: LaunchConfig) returns (r: Result<string, LaunchError>)
    ensures r == match Flags(config)
      case Ok(meant) => Ok(Line(meant))
      case Err(error) => Err(error)
  {
    hide Texts, Line, Spaced, ReviewFlags, EffortFlags, ModelFlags, NetworkFlags, DirectoryFlags, Restrictions;
    ghost var meant := Restrictions(CodexProfile.ForSurface(config.surface));
    var flags := RestrictionTexts(CodexProfile.ForSurface(config.surface));
    if CodexProfile.ForSurface(config.surface).WritesTheCheckout() {
      flags := PushDirectory(config, flags, meant);
      flags := PushNetwork(config, flags, meant + DirectoryFlags(config));
    } else {
      NothingWritten(config, meant);
    }
    meant := meant + DirectoryFlags(config) + NetworkFlags(config);
    flags :- PushModel(config, flags, meant);
    meant := meant + ModelFlags(config).value;
    flags :- PushEffort(config, flags, meant);
    meant := meant + EffortFlags(config).value;
    flags :- PushReview(config, flags, meant);
    meant := meant + ReviewFlags(config).value;
    LineIsSpaced(meant);
    return Ok(Spaced(flags));
  }
}
