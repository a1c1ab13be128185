/** How a shell splits a command line into words (sections 2.2.1 and 2.2.2 of the Shell
    Command Language, IEEE Std 1003.1, XCU chapter 2), and the quoting that keeps a value
    one word of it (`sh_quote`, used by src-tauri/src/codex_config.rs). */
module ShellWords {
  import opened Wrappers

  /** The characters that mean only themselves outside quotes. Every other one is either
      an operator, an expansion, a quote or a blank. */
  predicate Plain(ch: char) {
    'a' <= ch <= 'z' || 'A' <= ch <= 'Z' || '0' <= ch <= '9' || ch in {'-', '_', '.', '/'}
  }

  function Extended(word: Option<string>, ch: char): Option<string> {
    if word.Some? then Some(word.value + [ch]) else Some([ch])
  }

  /** A word that has begun, if only with an empty pair of quotes. */
  function Opened(word: Option<string>): (w: Option<string>)
    ensures w.Some?
  {
    if word.Some? then word else Some("")
  }

  function Ended(word: Option<string>): seq<string> {
    match word
    case Some(w) => [w]
    case None => []
  }

  /** The words of a text, after `word` if one has begun, read inside single quotes when
      `quoted`. `None` for a text that leaves quotes open or has a character outside them
      that a shell would not read as itself. */
  function Split(s: string, word: Option<string>, quoted: bool): Option<seq<string>>
    decreases |s|
  {
    if s == "" then (if quoted then None else Some(Ended(word)))
    else if quoted then
      if s[0] == '\'' then Split(s[1..], word, false) else Split(s[1..], Extended(word, s[0]), true)
    else if s[0] == ' ' then After(Ended(word), Split(s[1..], None, false))
    else if s[0] == '\'' then Split(s[1..], Opened(word), true)
    else if s[0] == '\\' then
      if |s| > 1 && s[1] != '\n' then Split(s[2..], Extended(word, s[1]), false) else None
    else if Plain(s[0]) then Split(s[1..], Extended(word, s[0]), false)
    else None
  }

  function After(before: seq<string>, words: Option<seq<string>>): Option<seq<string>> {
    match words
    case Some(ws) => Some(before + ws)
    case None => None
  }

  function Words(s: string): Option<seq<string>> {
    Split(s, None, false)
  }

  // ── Quoting ───────────────────────────────────────────────────────────────

  const QUOTE_ESCAPE := "'\\''"

  /** Each quote closes the quotes, stands escaped, and opens them again. */
  function Escaped(v: string): string {
    if v == "" then "" else (if v[0] == '\'' then QUOTE_ESCAPE else [v[0]]) + Escaped(v[1..])
  }

  function Quote(v: string): string {
    "'" + (Escaped(v) + "'")
  }

  lemma EscapedFront(v: string, rest: string)
    requires v != ""
    ensures Escaped(v) + rest ==
            if v[0] == '\'' then QUOTE_ESCAPE + (Escaped(v[1..]) + rest) else [v[0]] + (Escaped(v[1..]) + rest)
  {
  }

  lemma InsideQuotes(ch: char, rest: string, word: Option<string>)
    requires ch != '\''
    ensures Split([ch] + rest, word, true) == Split(rest, Extended(word, ch), true)
  {
    assert ([ch] + rest)[1..] == rest;
  }

  lemma QuoteInsideQuotes(rest: string, word: string)
    ensures Split(QUOTE_ESCAPE + rest, Some(word), true) == Split(rest, Some(word + "'"), true)
  {
    var s := QUOTE_ESCAPE + rest;
    var a, b := s[1..], s[3..];
    assert s[0] == '\'' && a[0] == '\\' && a[1] == '\'' && a[2..] == b;
    assert b[0] == '\'' && b[1..] == rest;
    assert Split(s, Some(word), true) == Split(a, Some(word), false);
    assert Split(a, Some(word), false) == Split(b, Some(word + "'"), false);
  }

  lemma Longer(word: string, v: string)
    requires v != ""
    ensures word + [v[0]] + v[1..] == word + v
  {
  }

  lemma ClosingQuote(word: string, rest: string)
    ensures Split("'" + rest, Some(word), true) == Split(rest, Some(word), false)
  {
    assert ("'" + rest)[1..] == rest;
  }

  lemma {:induction false} QuotedInside(v: string, word: string, rest: string)
    ensures Split(Escaped(v) + ("'" + rest), Some(word), true) == Split(rest, Some(word + v), false)
  {
    if v == "" {
      ClosingQuote(word, rest);
      assert Escaped(v) + ("'" + rest) == "'" + rest && word + v == word;
    } else {
      var tail := Escaped(v[1..]) + ("'" + rest);
      EscapedFront(v, "'" + rest);
      if v[0] == '\'' {
        QuoteInsideQuotes(tail, word);
      } else {
        InsideQuotes(v[0], tail, Some(word));
      }
      QuotedInside(v[1..], word + [v[0]], rest);
      Longer(word, v);
    }
  }

  /** A quoted value is read verbatim into the word under way, whatever it holds and
      whatever follows. */
  lemma QuotedIsVerbatim(v: string, rest: string)
    ensures Split(Quote(v) + rest, None, false) == Split(rest, Some(v), false)
  {
    var s := Quote(v) + rest;
    assert s[0] == '\'' && s[1..] == Escaped(v) + ("'" + rest);
    QuotedInside(v, "", rest);
    assert "" + v == v;
  }

  /** Text of plain characters is read as it stands. */
  lemma {:induction false} PlainIsVerbatim(v: string, word: string, rest: string)
    requires forall i :: 0 <= i < |v| ==> Plain(v[i])
    ensures Split(v + rest, Some(word), false) == Split(rest, Some(word + v), false)
  {
    if v == "" {
      assert v + rest == rest && word + v == word;
    } else {
      var s := v + rest;
      assert s[0] == v[0] && Plain(v[0]) && s[1..] == v[1..] + rest;
      PlainIsVerbatim(v[1..], word + [v[0]], rest);
      Longer(word, v);
    }
  }

  lemma PlainWord(v: string, rest: string)
    requires v != "" && forall i :: 0 <= i < |v| ==> Plain(v[i])
    ensures Split(v + rest, None, false) == Split(rest, Some(v), false)
  {
    var s := v + rest;
    assert s[0] == v[0] && Plain(v[0]) && s[1..] == v[1..] + rest;
    assert Extended(None, v[0]) == Some([v[0]]);
    assert Split(s, None, false) == Split(s[1..], Extended(None, v[0]), false);
    PlainIsVerbatim(v[1..], [v[0]], rest);
    assert [v[0]] + v[1..] == v;
  }
}
