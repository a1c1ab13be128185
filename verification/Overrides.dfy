/** The `-c` values read back out of a flag line (`config_overrides_of`, `closing_quote`,
    src-tauri/src/codex_config.rs), for the strict validator. */
module Overrides {
  import opened Wrappers
  import opened ShellWords
  import opened LaunchFlags

  const MARK := "-c '"

  predicate StartsMark(s: string) {
    |s| >= 4 && s[0] == '-' && s[1] == 'c' && s[2] == ' ' && s[3] == '\''
  }

  predicate StartsEscape(s: string) {
    |s| >= 4 && s[0] == '\'' && s[1] == '\\' && s[2] == '\'' && s[3] == '\''
  }

  /** Where a quoted word's closing quote is. */
  function Close(s: string): (end: Option<nat>)
    ensures end.Some? ==> end.value < |s|
    decreases |s|
  {
    if s == "" then None
    else if s[0] == '\'' && !StartsEscape(s) then Some(0)
    else
      var n := if s[0] == '\'' then 4 else 1;
      match Close(s[n..])
      case Some(end) => Some(n + end)
      case None => None
  }

  /** Each escape replaced by the quote it stands for. */
  function Unescaped(s: string): string
    decreases |s|
  {
    if s == "" then ""
    else if StartsEscape(s) then "'" + Unescaped(s[4..])
    else [s[0]] + Unescaped(s[1..])
  }

  function OverridesOf(s: string): seq<string>
    decreases |s|
  {
    if s == "" then []
    else if StartsMark(s) then
      var after := s[4..];
      match Close(after)
      case None => []
      case Some(end) => [Unescaped(after[..end])] + OverridesOf(after[end + 1..])
    else OverridesOf(s[1..])
  }

  // ── The reader ────────────────────────────────────────────────────────────

  method ClosingQuote(s: string) returns (end: Option<nat>)
    ensures end == Close(s)
  {
    var i := 0;
    while i < |s|
      invariant i <= |s|
      invariant Close(s) == match Close(s[i..]) case Some(k) => Some(i + k) case None => None
      decreases |s| - i
    {
      if s[i] == '\'' {
        if StartsEscape(s[i..]) {
          assert s[i..][4..] == s[i + 4..];
          i := i + 4;
          continue;
        }
        return Some(i);
      }
      assert s[i..][1..] == s[i + 1..];
      i := i + 1;
    }
    return None;
  }

  method FindMark(s: string) returns (at: Option<nat>)
    ensures at.None? ==> OverridesOf(s) == []
    ensures at.Some? ==> at.value + 4 <= |s| && StartsMark(s[at.value..]) && OverridesOf(s) == OverridesOf(s[at.value..])
  {
    var i := 0;
    while i + 4 <= |s|
      invariant i <= |s| && OverridesOf(s) == OverridesOf(s[i..])
    {
      if s[i] == '-' && s[i + 1] == 'c' && s[i + 2] == ' ' && s[i + 3] == '\'' {
        return Some(i);
      }
      assert s[i..][1..] == s[i + 1..];
      i := i + 1;
    }
    TooShort(s[i..]);
    return None;
  }

  lemma {:induction false} TooShort(s: string)
    requires |s| < 4
    ensures OverridesOf(s) == []
  {
    if s != "" {
      TooShort(s[1..]);
    }
  }

  lemma Kept(done: seq<string>, value: string, rest: seq<string>)
    ensures done + ([value] + rest) == (done + [value]) + rest
  {
  }

  method ConfigOverridesOf(flags: string) returns (out: seq<string>)
    ensures out == OverridesOf(flags)
  {
    out := [];
    var rest := flags;
    while true
      invariant out + OverridesOf(rest) == OverridesOf(flags)
      decreases |rest|
    {
      var at := FindMark(rest);
      if at.None? {
        break;
      }
      var after := rest[at.value..][4..];
      var end := ClosingQuote(after);
      if end.None? {
        break;
      }
      Kept(out, Unescaped(after[..end.value]), OverridesOf(after[end.value + 1..]));
      out, rest := out + [Unescaped(after[..end.value])], after[end.value + 1..];
    }
    assert out + [] == out;
  }

  // ── A quoted value read back ──────────────────────────────────────────────

  lemma EscapeOn(rest: string)
    ensures StartsEscape(QUOTE_ESCAPE + rest) && (QUOTE_ESCAPE + rest)[4..] == rest
  {
  }

  lemma CloseOver(ch: char, rest: string)
    requires ch != '\''
    ensures Close([ch] + rest) == match Close(rest) case Some(end) => Some(1 + end) case None => None
  {
    assert ([ch] + rest)[1..] == rest;
  }

  lemma CloseOverEscape(rest: string)
    ensures Close(QUOTE_ESCAPE + rest) == match Close(rest) case Some(end) => Some(4 + end) case None => None
  {
    EscapeOn(rest);
  }

  /** The closing quote of a quoted value is found where it is, whatever the value. */
  lemma {:induction false} CloseOfQuoted(v: string, rest: string)
    requires rest == "" || rest[0] == ' '
    ensures Close(Escaped(v) + ("'" + rest)) == Some(|Escaped(v)|)
  {
    if v == "" {
      assert Escaped(v) + ("'" + rest) == "'" + rest;
      assert !StartsEscape("'" + rest);
    } else {
      var tail := Escaped(v[1..]) + ("'" + rest);
      EscapedFront(v, "'" + rest);
      CloseOfQuoted(v[1..], rest);
      if v[0] == '\'' {
        CloseOverEscape(tail);
      } else {
        CloseOver(v[0], tail);
      }
    }
  }

  lemma {:induction false} UnescapedEscaped(v: string)
    ensures Unescaped(Escaped(v)) == v
  {
    if v != "" {
      UnescapedEscaped(v[1..]);
      if v[0] == '\'' {
        EscapeOn(Escaped(v[1..]));
      } else {
        assert ([v[0]] + Escaped(v[1..]))[1..] == Escaped(v[1..]);
      }
    }
  }

  lemma OverrideShape(v: string, rest: string)
    ensures var s := "-c" + (" " + Quote(v)) + rest;
      StartsMark(s) && s[4..] == Escaped(v) + ("'" + rest)
  {
    var s := "-c" + (" " + Quote(v)) + rest;
    assert s == "-c '" + (Escaped(v) + ("'" + rest));
  }

  lemma AfterClose(v: string, rest: string)
    ensures var s := Escaped(v) + ("'" + rest);
      s[..|Escaped(v)|] == Escaped(v) && s[|Escaped(v)| + 1..] == rest
  {
  }

  /** An override is read back verbatim, with any mix of quotes and backslashes. */
  lemma OverrideTaken(v: string, rest: string)
    requires rest == "" || rest[0] == ' '
    ensures OverridesOf(FlagText(Override(v)) + rest) == [v] + OverridesOf(rest)
  {
    var s := FlagText(Override(v)) + rest;
    OverrideShape(v, rest);
    CloseOfQuoted(v, rest);
    AfterClose(v, rest);
    MarkTaken(s, |Escaped(v)|);
    UnescapedEscaped(v);
  }

  lemma MarkTaken(s: string, end: nat)
    requires StartsMark(s) && Close(s[4..]) == Some(end)
    ensures OverridesOf(s) == [Unescaped(s[4..][..end])] + OverridesOf(s[4..][end + 1..])
  {
  }
}
