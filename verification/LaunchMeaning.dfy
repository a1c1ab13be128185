/** What a launch says of its settings, said of the settings' own characters
    (`launch_flags`, `safe_token`, src-tauri/src/codex_config.rs): when a model and an
    effort are passed on and with what value, and when a launch is refused. */
module LaunchMeaning {
  import opened Wrappers
  import opened Whitespace
  import opened LaunchFlags
  import Toml
  import ReviewOverride

  /** `value` is `setting` without the white characters at its two ends; a setting of
      white characters alone has no such value. */
  ghost predicate Inside(setting: string, value: string) {
    exists i, j :: 0 <= i < j <= |setting| && Ends(setting, i, j) && value == setting[i..j]
  }

  /** The characters up to `i` and from `j` on are white, the first and last between are not. */
  ghost predicate Ends(setting: string, i: nat, j: nat)
    requires i < j <= |setting|
  {
    && !White(setting[i]) && !White(setting[j - 1])
    && (forall k :: 0 <= k < i ==> White(setting[k]))
    && (forall k :: j <= k < |setting| ==> White(setting[k]))
  }

  /** A launch passes `value` on: it is a first launch, and the setting says that. */
  ghost predicate Asks(freshLaunch: bool, setting: Option<string>, value: string) {
    freshLaunch && setting.Some? && Inside(setting.value, value)
  }

  ghost predicate HasText(setting: string) {
    exists k :: 0 <= k < |setting| && !White(setting[k])
  }

  /** Empty, over 64 characters, an option by its first, or with one that is no ASCII
      letter, digit, hyphen, underscore or dot. */
  ghost predicate Unfit(value: string) {
    || value == "" || |value| > 64 || value[0] == '-'
    || exists i :: 0 <= i < |value|
         && !('a' <= value[i] <= 'z') && !('A' <= value[i] <= 'Z') && !('0' <= value[i] <= '9')
         && value[i] != '-' && value[i] != '_' && value[i] != '.'
  }

  ghost predicate AsksUnfit(freshLaunch: bool, setting: Option<string>) {
    exists value :: Asks(freshLaunch, setting, value) && Unfit(value)
  }

  lemma UnfitIsUnsafe(value: string)
    ensures Unfit(value) <==> !SafeToken(value)
  {
  }

  // ── Trimming, by indexes ──────────────────────────────────────────────────

  lemma {:induction false} LastNotWhite(s: string, n: nat) returns (j: nat)
    requires n <= |s| && forall k :: n <= k < |s| ==> White(s[k])
    ensures j <= n && (forall k :: j <= k < |s| ==> White(s[k])) && (j > 0 ==> !White(s[j - 1]))
    decreases n
  {
    j := n;
    if n > 0 && White(s[n - 1]) {
      j := LastNotWhite(s, n - 1);
    }
  }

  lemma TrimmedInside(s: string, i: nat, j: nat)
    requires i < j <= |s| && Ends(s, i, j)
    ensures TrimmedEnd(Trimmed(s)) == s[i..j]
  {
    hide White, Trimmed, TrimmedEnd;
    assert s[0..] == s;
    TrimmedIs(s, 0, i);
    var t := s[i..];
    assert forall k :: j - i <= k < |t| ==> t[k] == s[i + k];
    assert t[j - i - 1] == s[j - 1];
    TrimmedEndIs(t, j - i);
    assert t[..j - i] == s[i..j];
  }

  lemma TrimmedAway(s: string)
    requires forall k :: 0 <= k < |s| ==> White(s[k])
    ensures Trimmed(s) == "" && TrimmedEnd(Trimmed(s)) == ""
  {
    assert s[0..] == s && s[|s|..] == "";
    TrimmedIs(s, 0, |s|);
  }

  lemma InsideExists(s: string) returns (i: nat, j: nat)
    requires HasText(s)
    ensures i < j <= |s| && Ends(s, i, j)
  {
    hide White;
    i := FirstNotWhite(s, 0);
    j := LastNotWhite(s, |s|);
  }

  lemma TrimmedSays(s: string)
    ensures HasText(s) <==> TrimmedEnd(Trimmed(s)) != ""
    ensures forall value :: Inside(s, value) <==> HasText(s) && value == TrimmedEnd(Trimmed(s))
  {
    hide White, Trimmed, TrimmedEnd, Ends;
    if HasText(s) {
      var i, j := InsideExists(s);
      TrimmedInside(s, i, j);
    } else {
      TrimmedAway(s);
    }
    forall value | Inside(s, value)
      ensures HasText(s) && value == TrimmedEnd(Trimmed(s))
    {
      var i, j :| 0 <= i < j <= |s| && Ends(s, i, j) && value == s[i..j];
      TrimmedInside(s, i, j);
      EndsHaveText(s, i, j);
    }
  }

  lemma EndsHaveText(s: string, i: nat, j: nat)
    requires i < j <= |s| && Ends(s, i, j)
    ensures HasText(s)
  {
  }

  /** What is passed on is what is asked. */
  lemma ChosenIsAsked(freshLaunch: bool, setting: Option<string>)
    ensures forall value :: Chosen(freshLaunch, setting) == Some(value) <==> Asks(freshLaunch, setting, value)
    ensures (exists value :: Asks(freshLaunch, setting, value)) <==> freshLaunch && setting.Some? && HasText(setting.value)
  {
    hide Trimmed, TrimmedEnd, Inside, HasText;
    if setting.Some? {
      TrimmedSays(setting.value);
      if freshLaunch && HasText(setting.value) {
        assert Asks(freshLaunch, setting, TrimmedEnd(Trimmed(setting.value)));
      }
    }
  }

  // ── What is passed on ─────────────────────────────────────────────────────

  /** A model is named exactly on a first launch whose setting has a character that is
      not white, and it is the setting between its white ends; a resumed thread keeps
      its own. */
  lemma ModelIsAsked(config: LaunchConfig)
    requires Flags(config).Ok?
    ensures forall flag :: flag in Flags(config).value && flag.name == "--model" <==>
              flag.Quoted? && flag.name == "--model" && Asks(config.freshLaunch, config.model, flag.value)
    ensures (exists flag :: flag in Flags(config).value && flag.name == "--model") <==>
              config.freshLaunch && config.model.Some? && HasText(config.model.value)
  {
    hide Flags, Chosen, Asks, HasText, Restrictions, DirectoryFlags, NetworkFlags, EffortFlags, ReviewFlags;
    ChosenIsAsked(config.freshLaunch, config.model);
    forall flag: Flag | flag.name == "--model"
      ensures flag in Flags(config).value <==> flag.Quoted? && Asks(config.freshLaunch, config.model, flag.value)
    {
      ModelFlagIs(config, flag);
    }
    if value :| Asks(config.freshLaunch, config.model, value) {
      var flag := Quoted("--model", value);
      assert flag.name == "--model" && flag in Flags(config).value;
    }
  }

  lemma ModelFlagIs(config: LaunchConfig, flag: Flag)
    requires Flags(config).Ok? && flag.name == "--model"
    ensures flag in Flags(config).value <==> flag.Quoted? && Chosen(config.freshLaunch, config.model) == Some(flag.value)
  {
    hide Flags, Chosen, Restrictions, DirectoryFlags, EffortFlags, ReviewFlags, SafeToken;
    FromParts(config, flag);
    RestrictionIs(CodexProfile.ForSurface(config.surface), flag);
    DirectoryIsGit(config, flag);
    EffortShellable(config);
    ReviewShellable(config);
  }

  /** An override sets the reasoning effort. */
  ghost predicate SetsEffort(flag: Flag) {
    flag.Quoted? && flag.name == "-c" && "model_reasoning_effort=" <= flag.value
  }

  /** An effort is set exactly on a first launch whose setting has a character that is
      not white, and to the setting between its white ends, as a TOML string. */
  lemma EffortIsAsked(config: LaunchConfig)
    requires Flags(config).Ok?
    ensures forall flag :: flag in Flags(config).value && SetsEffort(flag) ==>
              exists value :: Asks(config.freshLaunch, config.effort, value)
                              && flag == Quoted("-c", "model_reasoning_effort=" + Toml.TomlString(value))
    ensures forall value :: Asks(config.freshLaunch, config.effort, value) ==>
              Quoted("-c", "model_reasoning_effort=" + Toml.TomlString(value)) in Flags(config).value
    ensures (exists flag :: flag in Flags(config).value && SetsEffort(flag)) <==>
              config.freshLaunch && config.effort.Some? && HasText(config.effort.value)
  {
    hide Flags, Chosen, Asks, HasText, SetsEffort, Toml.TomlString;
    ChosenIsAsked(config.freshLaunch, config.effort);
    forall flag | flag in Flags(config).value && SetsEffort(flag)
      ensures exists value :: Asks(config.freshLaunch, config.effort, value)
                              && flag == Quoted("-c", "model_reasoning_effort=" + Toml.TomlString(value))
    {
      EffortFlagIs(config, flag);
      assert Asks(config.freshLaunch, config.effort, Chosen(config.freshLaunch, config.effort).value);
    }
    forall value | Asks(config.freshLaunch, config.effort, value)
      ensures Quoted("-c", "model_reasoning_effort=" + Toml.TomlString(value)) in Flags(config).value
      ensures SetsEffort(Quoted("-c", "model_reasoning_effort=" + Toml.TomlString(value)))
    {
      EffortFlagSet(config, value);
    }
  }

  lemma EffortFlagSet(config: LaunchConfig, value: string)
    requires Flags(config).Ok? && Chosen(config.freshLaunch, config.effort) == Some(value)
    ensures Quoted("-c", "model_reasoning_effort=" + Toml.TomlString(value)) in Flags(config).value
    ensures SetsEffort(Quoted("-c", "model_reasoning_effort=" + Toml.TomlString(value)))
  {
    hide Flags, Chosen, Restrictions, DirectoryFlags, NetworkFlags, ModelFlags, ReviewFlags, SafeToken, Toml.TomlString;
    FromParts(config, Override(EFFORT + Toml.TomlString(value)));
  }

  lemma EffortFlagIs(config: LaunchConfig, flag: Flag)
    requires Flags(config).Ok? && flag in Flags(config).value && SetsEffort(flag)
    ensures Chosen(config.freshLaunch, config.effort).Some?
    ensures flag == Quoted("-c", "model_reasoning_effort=" + Toml.TomlString(Chosen(config.freshLaunch, config.effort).value))
  {
    hide Flags, Chosen, Restrictions, DirectoryFlags, ReviewFlags, ModelFlags, SafeToken, Toml.TomlString;
    FromParts(config, flag);
    RestrictionIs(CodexProfile.ForSurface(config.surface), flag);
    DirectoryIsGit(config, flag);
    ModelShellable(config);
    ReviewOverrideSetsServers(config, flag);
    assert NETWORK[0] == 's' && "model_reasoning_effort="[0] == 'm' && flag.value[0] == 'm';
  }

  lemma ReviewOverrideSetsServers(config: LaunchConfig, flag: Flag)
    requires ReviewFlags(config).Ok?
    ensures flag in ReviewFlags(config).value ==> !SetsEffort(flag)
  {
    hide ReviewOverride.ServerOverride;
    if flag in ReviewFlags(config).value {
      var server := config.reviewServer.value.value;
      ServerHead(server.command, server.args, ReviewOverride.REVIEW_TOOL_NAMES);
      assert "model_reasoning_effort="[1] == 'o';
    }
  }

  lemma ServerHead(command: string, args: seq<string>, tools: seq<string>)
    ensures |ReviewOverride.ServerOverride(command, args, tools)| > 1
    ensures ReviewOverride.ServerOverride(command, args, tools)[1] == 'c'
  {
    hide ReviewOverride.Joined, ReviewOverride.Approvals, ReviewOverride.QuotedEach, Toml.TomlString;
  }

  // ── When a launch is refused ──────────────────────────────────────────────

  /** The first thing wrong with a launch is what it is refused for: a first launch's
      model or effort that is unfit, then a review without its tools, tools on any
      other surface, or tools whose configuration cannot be read. Nothing else is refused. */
  lemma RefusedExactly(config: LaunchConfig)
    ensures var badModel, badEffort :=
        AsksUnfit(config.freshLaunch, config.model), AsksUnfit(config.freshLaunch, config.effort);
      var reviews := config.surface in {Surface.Review, Surface.FixCi};
      && (Flags(config) == Err(InvalidModel) <==> badModel)
      && (Flags(config) == Err(InvalidEffort) <==> !badModel && badEffort)
      && (Flags(config) == Err(NoReviewTools) <==> !badModel && !badEffort && reviews && config.reviewServer == None)
      && (Flags(config) == Err(NotAReview) <==> !badModel && !badEffort && !reviews && config.reviewServer != None)
      && (forall error :: Flags(config) == Err(BadServer(error)) <==>
            !badModel && !badEffort && reviews && config.reviewServer == Some(Err(error)))
  {
    hide ReviewOverride.ServerOverride, Toml.TomlString, AsksUnfit, Restrictions, DirectoryFlags, NetworkFlags, Chosen, SafeToken;
    UnfitIsRefused(config.freshLaunch, config.model);
    UnfitIsRefused(config.freshLaunch, config.effort);
  }

  lemma UnfitIsRefused(freshLaunch: bool, setting: Option<string>)
    ensures AsksUnfit(freshLaunch, setting) <==>
              Chosen(freshLaunch, setting).Some? && !SafeToken(Chosen(freshLaunch, setting).value)
  {
    hide Asks, Chosen, Unfit, SafeToken;
    ChosenIsAsked(freshLaunch, setting);
    if Chosen(freshLaunch, setting).Some? {
      UnfitIsUnsafe(Chosen(freshLaunch, setting).value);
    }
    forall value | Asks(freshLaunch, setting, value)
      ensures Unfit(value) <==> !SafeToken(value)
    {
      UnfitIsUnsafe(value);
    }
  }
}
