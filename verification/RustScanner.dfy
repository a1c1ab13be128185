/** The comment stripper and the literals it steps over (`strip_rust_comments`,
    `copy_quoted`, `copy_raw_string`, src-tauri/src/compliance.rs).

    The functions say what the scanner finds at the head of a text; the methods walk
    an index over the characters as the source does. */
module RustScanner {
  import opened Wrappers

  // ── What opens at the head of a text ──────────────────────────────────────

  predicate StartsLineComment(s: string) {
    |s| >= 2 && s[0] == '/' && s[1] == '/'
  }

  predicate StartsBlockComment(s: string) {
    |s| >= 2 && s[0] == '/' && s[1] == '*'
  }

  predicate EndsBlockComment(s: string) {
    |s| >= 2 && s[0] == '*' && s[1] == '/'
  }

  /** How many `#` a text starts with. */
  function Hashes(s: string): (n: nat)
    ensures n <= |s|
  {
    if s != "" && s[0] == '#' then 1 + Hashes(s[1..]) else 0
  }

  /** An `r`, any number of hashes, and a quote. */
  predicate StartsRaw(s: string) {
    s != "" && s[0] == 'r' && var h := Hashes(s[1..]); 1 + h < |s| && s[1 + h] == '"'
  }

  predicate StartsString(s: string) {
    s != "" && s[0] == '"'
  }

  /** A single quote that closes like a char literal; otherwise it is a lifetime. */
  predicate StartsChar(s: string) {
    s != "" && s[0] == '\'' && ((|s| > 1 && s[1] == '\\') || (|s| > 2 && s[2] == '\''))
  }

  // ── How far each reaches ──────────────────────────────────────────────────

  function LineLen(s: string): (n: nat)
    ensures n <= |s|
    ensures n < |s| ==> s[n] == '\n'
  {
    if s == "" || s[0] == '\n' then 0 else 1 + LineLen(s[1..])
  }

  /** Up to where `depth` open block comments are all closed, or the end. */
  function BlockLen(s: string, depth: nat): (n: nat)
    ensures n <= |s|
    decreases |s|
  {
    if s == "" || depth == 0 then 0
    else if StartsBlockComment(s) then 2 + BlockLen(s[2..], depth + 1)
    else if EndsBlockComment(s) then 2 + BlockLen(s[2..], depth - 1)
    else 1 + BlockLen(s[1..], depth)
  }

  /** After an opening quote: up to and with the closing one, escapes skipped, or the end. */
  function QuotedLen(s: string, delim: char): (n: nat)
    ensures n <= |s|
    decreases |s|
  {
    if s == "" then 0
    else if s[0] == '\\' then (if |s| == 1 then 1 else 2 + QuotedLen(s[2..], delim))
    else if s[0] == delim then 1
    else 1 + QuotedLen(s[1..], delim)
  }

  predicate ClosesRaw(s: string, hashes: nat) {
    s != "" && s[0] == '"' && Hashes(s[1..]) >= hashes
  }

  /** After a raw string's opening quote: up to and with a quote and its hashes, or the end. */
  function RawLen(s: string, hashes: nat): (n: nat)
    ensures n <= |s|
  {
    if s == "" then 0
    else if ClosesRaw(s, hashes) then 1 + hashes
    else 1 + RawLen(s[1..], hashes)
  }

  /** The length of the literal a text starts with; 0 when it starts with none. */
  function LiteralLen(s: string): (n: nat)
    ensures n <= |s|
    ensures n > 0 <==> StartsRaw(s) || StartsString(s) || StartsChar(s)
  {
    if StartsRaw(s) then
      var h := Hashes(s[1..]);
      2 + h + RawLen(s[2 + h..], h)
    else if StartsString(s) then 1 + QuotedLen(s[1..], '"')
    else if StartsChar(s) then 1 + QuotedLen(s[1..], '\'')
    else 0
  }

  function CommentLen(s: string): (n: nat)
    ensures n <= |s|
    ensures n > 0 <==> StartsLineComment(s) || StartsBlockComment(s)
  {
    if StartsLineComment(s) then LineLen(s)
    else if StartsBlockComment(s) then 2 + BlockLen(s[2..], 1)
    else 0
  }

  function Newlines(s: string): string {
    if s == "" then ""
    else if s[0] == '\n' then "\n" + Newlines(s[1..])
    else Newlines(s[1..])
  }

  /** A source with its comments reduced to their newlines, everything else as it was. */
  function Strip(s: string): string
    decreases |s|
  {
    if s == "" then ""
    else if CommentLen(s) > 0 then Newlines(s[..CommentLen(s)]) + Strip(s[CommentLen(s)..])
    else if LiteralLen(s) > 0 then s[..LiteralLen(s)] + Strip(s[LiteralLen(s)..])
    else [s[0]] + Strip(s[1..])
  }

  // ── For every input ───────────────────────────────────────────────────────

  lemma {:induction false} NewlinesOfConcat(a: string, b: string)
    ensures Newlines(a + b) == Newlines(a) + Newlines(b)
  {
    if a == "" {
      assert a + b == b;
    } else {
      NewlinesOfConcat(a[1..], b);
      assert (a + b)[1..] == a[1..] + b;
    }
  }

  lemma {:induction false} NewlinesAreFixed(s: string)
    ensures Newlines(Newlines(s)) == Newlines(s)
  {
    if s != "" {
      NewlinesAreFixed(s[1..]);
      if s[0] == '\n' {
        assert Newlines(s)[1..] == Newlines(s[1..]);
      }
    }
  }

  /** The newlines of a text are as many as its line breaks, and nothing else. */
  lemma {:induction false} NewlinesAre(s: string)
    ensures multiset(Newlines(s)) == multiset{}['\n' := multiset(s)['\n']]
  {
    if s != "" {
      assert s == [s[0]] + s[1..];
      NewlinesAre(s[1..]);
      if s[0] == '\n' {
        assert Newlines(s) == ['\n'] + Newlines(s[1..]);
      }
    }
  }

  /** Line-scoped assertions see the right lines: stripping keeps every newline, and
      adds none. */
  lemma {:induction false} StripKeepsLines(s: string)
    ensures Newlines(Strip(s)) == Newlines(s)
    decreases |s|
  {
    if s != "" {
      var n := if CommentLen(s) > 0 then CommentLen(s) else if LiteralLen(s) > 0 then LiteralLen(s) else 1;
      StripKeepsLines(s[n..]);
      assert s == s[..n] + s[n..];
      NewlinesOfConcat(s[..n], s[n..]);
      var kept := if CommentLen(s) > 0 then Newlines(s[..n]) else s[..n];
      NewlinesAreFixed(s[..n]);
      NewlinesOfConcat(kept, Strip(s[n..]));
    }
  }

  /** The characters of `s` where `keep` is true. */
  function Picked(s: string, keep: seq<bool>): string
    requires |keep| == |s|
  {
    if s == "" then "" else (if keep[0] then [s[0]] else []) + Picked(s[1..], keep[1..])
  }

  ghost predicate Subsequence(a: string, s: string) {
    exists keep: seq<bool> :: |keep| == |s| && Picked(s, keep) == a
  }

  lemma {:induction false} PickedOfConcat(a: string, ka: seq<bool>, b: string, kb: seq<bool>)
    requires |a| == |ka| && |b| == |kb|
    ensures Picked(a + b, ka + kb) == Picked(a, ka) + Picked(b, kb)
  {
    if a == "" {
      assert a + b == b && ka + kb == kb;
    } else {
      PickedOfConcat(a[1..], ka[1..], b, kb);
      var first := if ka[0] then [a[0]] else [];
      assert (a + b)[1..] == a[1..] + b && (ka + kb)[1..] == ka[1..] + kb;
      assert Picked(a + b, ka + kb) == first + (Picked(a[1..], ka[1..]) + Picked(b, kb));
    }
  }

  lemma {:induction false} PickAll(s: string) returns (keep: seq<bool>)
    ensures |keep| == |s| && Picked(s, keep) == s
  {
    if s == "" {
      keep := [];
    } else {
      var rest := PickAll(s[1..]);
      keep := [true] + rest;
    }
  }

  lemma {:induction false} PickNewlines(s: string) returns (keep: seq<bool>)
    ensures |keep| == |s| && Picked(s, keep) == Newlines(s)
  {
    if s == "" {
      keep := [];
    } else {
      var rest := PickNewlines(s[1..]);
      keep := [s[0] == '\n'] + rest;
    }
  }

  lemma {:induction false} StripPicks(s: string) returns (keep: seq<bool>)
    ensures |keep| == |s| && Picked(s, keep) == Strip(s)
    decreases |s|
  {
    if s == "" {
      keep := [];
    } else {
      var n := if CommentLen(s) > 0 then CommentLen(s) else if LiteralLen(s) > 0 then LiteralLen(s) else 1;
      var first;
      if CommentLen(s) > 0 {
        first := PickNewlines(s[..n]);
      } else {
        first := PickAll(s[..n]);
      }
      var rest := StripPicks(s[n..]);
      PickedOfConcat(s[..n], first, s[n..], rest);
      assert s == s[..n] + s[n..];
      keep := first + rest;
    }
  }

  /** Nothing is ever invented or moved: the output is a subsequence of any input. */
  lemma StripIsASubsequence(s: string)
    ensures Subsequence(Strip(s), s)
  {
    var keep := StripPicks(s);
  }

  // ── The scanner ───────────────────────────────────────────────────────────

  /** What is left of a text from an index that may be past its end. */
  function From(c: string, i: nat): string {
    if i <= |c| then c[i..] else ""
  }

  function Upto(c: string, i: nat): nat {
    if i <= |c| then i else |c|
  }

  lemma Slide(c: string, i: nat, n: nat)
    requires i + n <= |c|
    ensures c[i..][n..] == c[i + n..] && (n < |c[i..]| ==> c[i..][n] == c[i + n])
  {
  }

  /** Where the scan of a quoted literal stops: past the closing quote, or at the end,
      or one past it when the text ends in a backslash. */
  function QuotedEnd(c: string, i: nat, delim: char): (end: nat)
    ensures i <= end && (i <= |c| + 1 ==> end <= |c| + 1)
    decreases |c| - i
  {
    if i >= |c| then i
    else if c[i] == '\\' then QuotedEnd(c, i + 2, delim)
    else if c[i] == delim then i + 1
    else QuotedEnd(c, i + 1, delim)
  }

  lemma {:induction false} QuotedEndIs(c: string, i: nat, delim: char)
    requires i <= |c|
    ensures Upto(c, QuotedEnd(c, i, delim)) == i + QuotedLen(c[i..], delim)
    decreases |c| - i
  {
    if i < |c| {
      Slide(c, i, 1);
      if c[i] == '\\' {
        if i + 1 < |c| {
          Slide(c, i, 2);
          QuotedEndIs(c, i + 2, delim);
        }
      } else if c[i] != delim {
        QuotedEndIs(c, i + 1, delim);
      }
    }
  }

  /** One more character copied. */
  lemma CopyOne(c: string, start: nat, i: nat, out: string)
    requires start <= i < |c|
    ensures out + c[start..i] + [c[i]] == out + c[start..i + 1]
  {
  }

  /** Copy a quoted literal verbatim, honouring escapes. */
  method CopyQuoted(c: string, start: nat, delim: char, out: string) returns (next: nat, copied: string)
    requires start < |c|
    ensures next == QuotedEnd(c, start + 1, delim)
    ensures copied == out + c[start..Upto(c, next)]
  {
    copied := out + [c[start]];
    CopyOne(c, start, start, out);
    var i := start + 1;
    while i < |c|
      invariant start < i <= |c| + 1
      invariant copied == out + c[start..Upto(c, i)]
      invariant QuotedEnd(c, i, delim) == QuotedEnd(c, start + 1, delim)
      decreases |c| + 1 - i
    {
      CopyOne(c, start, i, out);
      if c[i] == '\\' {
        copied := copied + [c[i]];
        if i + 1 < |c| {
          CopyOne(c, start, i + 1, out);
          copied := copied + [c[i + 1]];
        }
        i := i + 2;
        continue;
      }
      copied := copied + [c[i]];
      i := i + 1;
      if c[i - 1] == delim {
        break;
      }
    }
    next := i;
  }

  /** How many hashes follow the `r` at `start` and where the quote after them is, if
      there is one. */
  method RawStringOpen(c: string, start: nat) returns (open: Option<(nat, nat)>)
    requires start < |c|
    ensures var h := Hashes(c[start + 1..]);
      open == if start + 1 + h < |c| && c[start + 1 + h] == '"' then Some((h, start + 1 + h)) else None
  {
    var j, hashes := start + 1, 0;
    while j < |c| && c[j] == '#'
      invariant start + 1 + hashes == j <= |c|
      invariant hashes + Hashes(c[j..]) == Hashes(c[start + 1..])
    {
      Slide(c, j, 1);
      hashes := hashes + 1;
      j := j + 1;
    }
    return if j < |c| && c[j] == '"' then Some((hashes, j)) else None;
  }

  /** Where the text goes on if the quote at `quote` has hashes enough to end a raw string. */
  method RawStringClose(c: string, quote: nat, hashes: nat) returns (end: Option<nat>)
    requires quote < |c| && c[quote] == '"'
    ensures end == if ClosesRaw(c[quote..], hashes) then Some(quote + 1 + hashes) else None
  {
    Slide(c, quote, 1);
    var k, seen := quote + 1, 0;
    while seen < hashes && k < |c| && c[k] == '#'
      invariant quote + 1 + seen == k <= |c| && seen <= hashes
      invariant seen + Hashes(c[k..]) == Hashes(c[quote + 1..])
    {
      Slide(c, k, 1);
      seen := seen + 1;
      k := k + 1;
    }
    return if seen == hashes then Some(k) else None;
  }

  function RawEnd(c: string, i: nat, hashes: nat): (end: nat)
    requires i <= |c|
    ensures i <= end <= |c|
    decreases |c| - i
  {
    if i == |c| then i
    else if ClosesRaw(c[i..], hashes) then i + 1 + hashes
    else RawEnd(c, i + 1, hashes)
  }

  lemma {:induction false} RawEndIs(c: string, i: nat, hashes: nat)
    requires i <= |c|
    ensures RawEnd(c, i, hashes) == i + RawLen(c[i..], hashes)
    decreases |c| - i
  {
    if i < |c| && !ClosesRaw(c[i..], hashes) {
      Slide(c, i, 1);
      RawEndIs(c, i + 1, hashes);
    }
  }

  lemma RawLiteral(c: string, start: nat)
    requires start < |c| && StartsRaw(c[start..])
    ensures var h := Hashes(c[start + 1..]);
      start + 2 + h <= |c| && start + LiteralLen(c[start..]) == RawEnd(c, start + 2 + h, h)
  {
    var h := Hashes(c[start + 1..]);
    Slide(c, start, 1);
    Slide(c, start, 2 + h);
    RawEndIs(c, start + 2 + h, h);
  }

  /** The rest of a raw string whose opening quote has been copied. */
  method CopyRawBody(c: string, start: nat, body: nat, hashes: nat, out: string) returns (next: nat, copied: string)
    requires start < body <= |c|
    ensures next == RawEnd(c, body, hashes) && copied == out + c[start..next]
  {
    copied := out + c[start..body];
    var i := body;
    while i < |c|
      invariant body <= i <= |c| && copied == out + c[start..i]
      invariant RawEnd(c, i, hashes) == RawEnd(c, body, hashes)
      decreases |c| - i
    {
      if c[i] == '"' {
        var end := RawStringClose(c, i, hashes);
        if end.Some? {
          assert c[start..i] + c[i..end.value] == c[start..end.value];
          return end.value, copied + c[i..end.value];
        }
      }
      CopyOne(c, start, i, out);
      copied := copied + [c[i]];
      i := i + 1;
    }
    return i, copied;
  }

  /** The raw string whose `r` is at `start`, appended whole; if there is none, nothing is
      appended. */
  method CopyRawString(c: string, start: nat, out: string) returns (next: Option<nat>, copied: string)
    requires start < |c| && c[start] == 'r'
    ensures next.None? <==> !StartsRaw(c[start..])
    ensures next.None? ==> copied == out
    ensures next.Some? ==> next.value == start + LiteralLen(c[start..]) && copied == out + c[start..next.value]
  {
    Slide(c, start, 1);
    var open := RawStringOpen(c, start);
    if open.None? {
      return None, out;
    }
    RawLiteral(c, start);
    var end;
    end, copied := CopyRawBody(c, start, open.value.1 + 1, open.value.0, out);
    next := Some(end);
  }

  lemma {:induction false} NoNewlineBefore(s: string)
    ensures Newlines(s[..LineLen(s)]) == ""
  {
    if s != "" && s[0] != '\n' {
      NoNewlineBefore(s[1..]);
      assert s[..LineLen(s)][1..] == s[1..][..LineLen(s[1..])];
    }
  }

  /** To the newline that ends a line comment, which is kept. */
  method SkipLineComment(c: string, start: nat) returns (next: nat)
    requires start <= |c|
    ensures next == start + LineLen(c[start..]) && Newlines(c[start..next]) == ""
  {
    next := start;
    while next < |c| && c[next] != '\n'
      invariant start <= next <= |c|
      invariant next + LineLen(c[next..]) == start + LineLen(c[start..])
    {
      Slide(c, next, 1);
      next := next + 1;
    }
    NoNewlineBefore(c[start..]);
    assert c[start..next] == c[start..][..LineLen(c[start..])];
  }

  lemma NewlinesOn(c: string, start: nat, i: nat, n: nat)
    requires start <= i <= i + n <= |c|
    ensures Newlines(c[start..i + n]) == Newlines(c[start..i]) + Newlines(c[i..i + n])
  {
    assert c[start..i + n] == c[start..i] + c[i..i + n];
    NewlinesOfConcat(c[start..i], c[i..i + n]);
  }

  lemma NewlinesOfOne(ch: char)
    ensures Newlines([ch]) == if ch == '\n' then "\n" else ""
  {
    assert [ch][1..] == "";
  }

  lemma NewlinesOfMark(a: char, b: char)
    requires a != '\n' && b != '\n'
    ensures Newlines([a, b]) == ""
  {
    NewlinesOfOne(b);
    assert [a, b][1..] == [b];
  }

  predicate MarkAt(c: string, i: nat, first: char, second: char) {
    i + 1 < |c| && c[i] == first && c[i + 1] == second
  }

  function BlockEnd(c: string, i: nat, depth: nat): (end: nat)
    requires i <= |c|
    ensures i <= end <= |c|
    decreases |c| - i
  {
    if i == |c| || depth == 0 then i
    else if MarkAt(c, i, '/', '*') then BlockEnd(c, i + 2, depth + 1)
    else if MarkAt(c, i, '*', '/') then BlockEnd(c, i + 2, depth - 1)
    else BlockEnd(c, i + 1, depth)
  }

  lemma {:induction false} BlockEndIs(c: string, i: nat, depth: nat)
    requires i <= |c|
    ensures BlockEnd(c, i, depth) == i + BlockLen(c[i..], depth)
    decreases |c| - i
  {
    if i < |c| && depth > 0 {
      if MarkAt(c, i, '/', '*') {
        Slide(c, i, 2);
        BlockEndIs(c, i + 2, depth + 1);
      } else if MarkAt(c, i, '*', '/') {
        Slide(c, i, 2);
        BlockEndIs(c, i + 2, depth - 1);
      } else {
        Slide(c, i, 1);
        BlockEndIs(c, i + 1, depth);
      }
    }
  }

  /** Past a block comment, nested as deep as it goes, keeping its newlines. */
  method SkipBlockComment(c: string, start: nat, out: string) returns (next: nat, copied: string)
    requires MarkAt(c, start, '/', '*')
    ensures next == start + CommentLen(c[start..])
    ensures copied == out + Newlines(c[start..next])
  {
    var depth, i := 1, start + 2;
    copied := out;
    Slide(c, start, 2);
    BlockEndIs(c, i, 1);
    assert c[start..start + 2] == ['/', '*'];
    NewlinesOfMark('/', '*');
    while i < |c| && depth > 0
      invariant start + 2 <= i <= |c|
      invariant BlockEnd(c, i, depth) == BlockEnd(c, start + 2, 1)
      invariant copied == out + Newlines(c[start..i])
      decreases |c| - i
    {
      if c[i] == '/' && i + 1 < |c| && c[i + 1] == '*' {
        SkipMark(c, start, i);
        depth := depth + 1;
        i := i + 2;
      } else if c[i] == '*' && i + 1 < |c| && c[i + 1] == '/' {
        SkipMark(c, start, i);
        depth := depth - 1;
        i := i + 2;
      } else {
        NewlinesOn(c, start, i, 1);
        NewlinesOfOne(c[i]);
        assert c[i..i + 1] == [c[i]];
        if c[i] == '\n' {
          copied := copied + "\n";
        }
        i := i + 1;
      }
    }
    next := i;
  }

  lemma SkipMark(c: string, start: nat, i: nat)
    requires start <= i && i + 2 <= |c| && c[i] != '\n' && c[i + 1] != '\n'
    ensures Newlines(c[start..i + 2]) == Newlines(c[start..i])
  {
    NewlinesOn(c, start, i, 2);
    assert c[i..i + 2] == [c[i], c[i + 1]];
    NewlinesOfMark(c[i], c[i + 1]);
  }

  lemma CommentHead(s: string)
    requires CommentLen(s) > 0
    ensures Strip(s) == Newlines(s[..CommentLen(s)]) + Strip(s[CommentLen(s)..])
  {
  }

  lemma LiteralHead(s: string)
    requires CommentLen(s) == 0 && LiteralLen(s) > 0
    ensures Strip(s) == s[..LiteralLen(s)] + Strip(s[LiteralLen(s)..])
  {
  }

  lemma Regroup(out: string, kept: string, rest: string, whole: string)
    requires out + (kept + rest) == whole
    ensures (out + kept) + rest == whole
  {
    assert (out + kept) + rest == out + (kept + rest);
  }

  lemma CommentStripped(c: string, i: nat, next: nat, out: string, whole: string)
    requires i < |c| && out + Strip(c[i..]) == whole
    requires CommentLen(c[i..]) > 0 && next == i + CommentLen(c[i..])
    ensures (out + Newlines(c[i..next])) + Strip(c[next..]) == whole
  {
    CommentHead(c[i..]);
    Slide(c, i, next - i);
    assert c[i..][..next - i] == c[i..next];
    Regroup(out, Newlines(c[i..next]), Strip(c[next..]), whole);
  }

  lemma CodeStripped(c: string, i: nat, out: string, whole: string)
    requires i < |c| && out + Strip(c[i..]) == whole
    requires CommentLen(c[i..]) == 0 && LiteralLen(c[i..]) == 0
    ensures (out + [c[i]]) + Strip(c[i + 1..]) == whole
  {
    Slide(c, i, 1);
    assert Strip(c[i..]) == [c[i]] + Strip(c[i + 1..]);
    Regroup(out, [c[i]], Strip(c[i + 1..]), whole);
  }

  lemma LiteralStripped(c: string, i: nat, next: nat, out: string, whole: string)
    requires i < |c| && CommentLen(c[i..]) == 0 && out + Strip(c[i..]) == whole
    requires next <= |c| + 1 && LiteralLen(c[i..]) > 0 && Upto(c, next) == i + LiteralLen(c[i..])
    ensures (out + c[i..Upto(c, next)]) + Strip(From(c, next)) == whole
  {
    var end := Upto(c, next);
    LiteralHead(c[i..]);
    Slide(c, i, end - i);
    assert c[i..][..end - i] == c[i..end];
    assert From(c, next) == c[end..];
    Regroup(out, c[i..end], Strip(c[end..]), whole);
  }

  lemma MarksAt(c: string, i: nat)
    requires i < |c|
    ensures MarkAt(c, i, '/', '/') <==> StartsLineComment(c[i..])
    ensures MarkAt(c, i, '/', '*') <==> StartsBlockComment(c[i..])
  {
  }

  /** The scanner copies exactly what `Strip` says, and always ends, also when a
      trailing escape carries the index past the end. */
  method StripRustComments(c: string) returns (out: string)
    ensures out == Strip(c)
  {
    out := "";
    ghost var whole := Strip(c);
    var i := 0;
    while i < |c|
      invariant i <= |c| + 1 && out + Strip(From(c, i)) == whole
      decreases |c| + 1 - i
    {
      i, out := StripNext(c, i, out, whole);
    }
  }

  /** One turn of the scan. */
  method StripNext(c: string, i: nat, out: string, ghost whole: string) returns (next: nat, copied: string)
    requires i < |c| && out + Strip(c[i..]) == whole
    ensures i < next <= |c| + 1 && copied + Strip(From(c, next)) == whole
  {
    MarksAt(c, i);
    if c[i] == '/' && i + 1 < |c| && c[i + 1] == '/' {
      next := SkipLineComment(c, i);
      CommentStripped(c, i, next, out, whole);
      assert out + "" == out;
      return next, out;
    }
    if c[i] == '/' && i + 1 < |c| && c[i + 1] == '*' {
      next, copied := SkipBlockComment(c, i, out);
      CommentStripped(c, i, next, out, whole);
      return;
    }
    next, copied := CopyLiteral(c, i, out);
    if next > i {
      LiteralStripped(c, i, next, out, whole);
      return;
    }
    CodeStripped(c, i, out, whole);
    return i + 1, out + [c[i]];
  }

  /** A raw string, string or char literal at `i`, copied; `next == i` when there is none. */
  method CopyLiteral(c: string, i: nat, out: string) returns (next: nat, copied: string)
    requires i < |c|
    ensures i <= next <= |c| + 1 && (next > i <==> LiteralLen(c[i..]) > 0)
    ensures next > i ==> Upto(c, next) == i + LiteralLen(c[i..])
    ensures copied == if next > i then out + c[i..Upto(c, next)] else out
  {
    Slide(c, i, 1);
    if c[i] == 'r' && i + 1 < |c| && (c[i + 1] == '"' || c[i + 1] == '#') {
      var end, raw := CopyRawString(c, i, out);
      if end.Some? {
        return end.value, raw;
      }
    }
    if c[i] == '"' {
      QuotedEndIs(c, i + 1, '"');
      next, copied := CopyQuoted(c, i, '"', out);
      return;
    }
    if c[i] == '\'' && ((i + 1 < |c| && c[i + 1] == '\\') || (i + 2 < |c| && c[i + 2] == '\'')) {
      QuotedEndIs(c, i + 1, '\'');
      next, copied := CopyQuoted(c, i, '\'', out);
      return;
    }
    return i, out;
  }
}
