/** Which overrides the reader of a flag line finds, for every line `launch_flags` can
    build: exactly those launched, unless the git directory's own text looks like one. */
module OverrideRoundTrip {
  import opened Wrappers
  import opened ShellWords
  import opened LaunchFlags
  import opened Overrides

  /** The text holds the mark the reader looks for. */
  predicate HasMark(s: string) {
    s != "" && (StartsMark(s) || HasMark(s[1..]))
  }

  /** The text ends in the mark but for its quote. */
  predicate EndsOpen(s: string) {
    s != "" && (s == "-c " || EndsOpen(s[1..]))
  }

  // ── Text the reader passes over ───────────────────────────────────────────

  lemma PassOne(ch: char, rest: string)
    requires !StartsMark([ch] + rest)
    ensures OverridesOf([ch] + rest) == OverridesOf(rest)
  {
    assert ([ch] + rest)[1..] == rest;
  }

  /** No `-` of it is followed by a `c`, nor ends it. */
  predicate Inert(p: string) {
    forall i :: 0 <= i < |p| && p[i] == '-' ==> i + 1 < |p| && p[i + 1] != 'c'
  }

  lemma {:induction false} PassInert(p: string, rest: string)
    requires Inert(p)
    ensures OverridesOf(p + rest) == OverridesOf(rest)
  {
    if p == "" {
      assert p + rest == rest;
    } else {
      var tail := p[1..] + rest;
      assert p + rest == [p[0]] + tail;
      if p[0] == '-' {
        assert tail[0] == p[1];
      }
      PassOne(p[0], tail);
      PassInert(p[1..], rest);
    }
  }

  /** A safe token in quotes: with no blank in it, it cannot hold the mark. */
  lemma {:induction false} PassToken(v: string, tail: string)
    requires ' ' !in v
    ensures OverridesOf(v + ("'" + tail)) == OverridesOf("'" + tail)
  {
    if v == "" {
      assert v + ("'" + tail) == "'" + tail;
    } else {
      var s := v[1..] + ("'" + tail);
      assert v + ("'" + tail) == [v[0]] + s;
      if |v| >= 3 {
        assert s[1] == v[2];
      } else if |v| == 2 {
        assert s[1] == '\'';
      } else {
        assert s[0] == '\'';
      }
      PassOne(v[0], s);
      PassToken(v[1..], tail);
    }
  }

  lemma {:induction false} NothingEscaped(v: string)
    requires '\'' !in v
    ensures Escaped(v) == v
  {
    if v != "" {
      NothingEscaped(v[1..]);
    }
  }

  lemma QuotedText(flag: Flag, rest: string)
    requires flag.Quoted?
    ensures FlagText(flag) + rest == (flag.name + " '") + (Escaped(flag.value) + ("'" + rest))
  {
    assert " " + Quote(flag.value) == " '" + (Escaped(flag.value) + "'");
  }

  lemma BareText(flag: Flag, rest: string)
    requires flag.Bare?
    ensures FlagText(flag) + rest == (flag.name + " " + flag.value) + rest
  {
  }

  lemma BareIsInert(flag: Flag)
    requires Expected(flag) && flag.Bare?
    ensures Inert(flag.name + " " + flag.value)
  {
    if flag.name == "--sandbox" {
      assert Inert("--sandbox" + " " + "read-only");
    } else {
      assert Inert("--ask-for-approval" + " " + "never");
    }
  }

  lemma TokenHasNoBlank(v: string)
    requires SafeToken(v)
    ensures ' ' !in v && '\'' !in v
  {
  }

  lemma ModelPassed(flag: Flag, rest: string)
    requires Expected(flag) && flag.name == "--model"
    ensures OverridesOf(FlagText(flag) + rest) == OverridesOf(rest)
  {
    hide Escaped, OverridesOf, SafeToken;
    TokenHasNoBlank(flag.value);
    NothingEscaped(flag.value);
    QuotedText(flag, rest);
    assert Inert("--model" + " '");
    PassInert("--model" + " '", flag.value + ("'" + rest));
    PassToken(flag.value, rest);
    PassInert("'", rest);
  }

  /** The value of an override, nothing of any other flag. */
  function Value(flag: Flag): seq<string> {
    if flag.name == "-c" then [flag.value] else []
  }

  /** The overrides a launch is given, in order. */
  function Values(flags: seq<Flag>): seq<string> {
    if flags == [] then [] else Value(flags[0]) + Values(flags[1..])
  }

  lemma FlagRead(flag: Flag, rest: string)
    requires Expected(flag) && flag.name != "--add-dir" && (rest == "" || rest[0] == ' ')
    ensures OverridesOf(FlagText(flag) + rest) == Value(flag) + OverridesOf(rest)
  {
    if flag.Bare? {
      BareIsInert(flag);
      BareText(flag, rest);
      PassInert(flag.name + " " + flag.value, rest);
    } else if flag.name == "--model" {
      ModelPassed(flag, rest);
    } else {
      OverrideTaken(flag.value, rest);
    }
  }

  // ── The directory ─────────────────────────────────────────────────────────

  function Closed(d: string, tail: string): string {
    Escaped(d) + ("'" + tail)
  }

  lemma ClosedFront(d: string, tail: string)
    requires d != ""
    ensures Closed(d, tail) ==
            if d[0] == '\'' then QUOTE_ESCAPE + Closed(d[1..], tail) else [d[0]] + Closed(d[1..], tail)
  {
    EscapedFront(d, "'" + tail);
  }

  lemma ClosedHead(d: string, tail: string)
    ensures Closed(d, tail) != ""
    ensures Closed(d, tail)[0] == if d == "" then '\'' else d[0]
  {
    if d != "" {
      ClosedFront(d, tail);
    }
  }

  /** In quotes, a directory starts with the mark when it does itself, or is the mark but
      for the quote, which closing it supplies. */
  lemma ClosedMark(d: string, tail: string)
    ensures StartsMark(Closed(d, tail)) <==> StartsMark(d) || d == "-c "
  {
    if d != "" && d[0] == '-' {
      ClosedFront(d, tail);
      ClosedHead(d[1..], tail);
      if |d| > 1 && d[1] == 'c' {
        ClosedFront(d[1..], tail);
        ClosedHead(d[2..], tail);
        if |d| > 2 && d[2] == ' ' {
          ClosedFront(d[2..], tail);
          ClosedHead(d[3..], tail);
          assert d[1..][1..] == d[2..] && d[2..][1..] == d[3..];
          assert d[..3] == "-c ";
          assert d == "-c " <==> d[3..] == "";
        }
      }
    } else {
      ClosedHead(d, tail);
    }
  }

  lemma {:induction false} CleanDirectory(d: string, tail: string)
    requires !HasMark(d) && !EndsOpen(d)
    ensures OverridesOf(Closed(d, tail)) == OverridesOf(tail)
  {
    if d == "" {
      assert Closed(d, tail) == "'" + tail;
      PassInert("'", tail);
    } else {
      var rest := Closed(d[1..], tail);
      ClosedFront(d, tail);
      ClosedMark(d, tail);
      if d[0] == '\'' {
        PassInert(QUOTE_ESCAPE, rest);
      } else {
        PassOne(d[0], rest);
      }
      CleanDirectory(d[1..], tail);
    }
  }

  /** The closing quote of a directory ending in `-c ` is taken for an opening one. */
  lemma {:induction false} OpenDirectory(d: string, tail: string)
    requires !HasMark(d) && EndsOpen(d)
    ensures OverridesOf(Closed(d, tail)) == OverridesOf(MARK + tail)
  {
    if d == "-c " {
      NothingEscaped(d);
      assert Closed(d, tail) == MARK + tail;
    } else {
      var rest := Closed(d[1..], tail);
      ClosedFront(d, tail);
      ClosedMark(d, tail);
      if d[0] == '\'' {
        PassInert(QUOTE_ESCAPE, rest);
      } else {
        PassOne(d[0], rest);
      }
      OpenDirectory(d[1..], tail);
    }
  }

  /** A marked directory is read as an override of a lone backslash. */
  lemma {:induction false} MarkedDirectory(d: string, tail: string)
    requires HasMark(d)
    ensures OverridesOf(Closed(d, tail)) != [] && OverridesOf(Closed(d, tail))[0] == "\\"
  {
    var s := Closed(d, tail);
    if StartsMark(d) {
      MarkedHead(d, tail);
      MarkTaken(s, 1);
      assert s[4..][..1] == "\\";
      assert Unescaped("\\") == "\\";
    } else {
      var rest := Closed(d[1..], tail);
      ClosedFront(d, tail);
      ClosedMark(d, tail);
      MarkLength(d);
      if d[0] == '\'' {
        PassInert(QUOTE_ESCAPE, rest);
      } else {
        PassOne(d[0], rest);
      }
      MarkedDirectory(d[1..], tail);
    }
  }

  lemma {:induction false} MarkLength(d: string)
    requires HasMark(d)
    ensures |d| >= |MARK|
  {
    if !StartsMark(d) {
      MarkLength(d[1..]);
    }
  }

  lemma ClosedCons(ch: char, rest: string, tail: string)
    ensures Closed([ch] + rest, tail) == (if ch == '\'' then QUOTE_ESCAPE else [ch]) + Closed(rest, tail)
  {
    ClosedFront([ch] + rest, tail);
    assert ([ch] + rest)[1..] == rest;
  }

  lemma MarkedHead(d: string, tail: string)
    requires StartsMark(d)
    ensures var s := Closed(d, tail);
      StartsMark(s) && Close(s[4..]) == Some(1) && s[4] == '\\'
  {
    var d3 := ['\''] + d[4..];
    var d2 := [' '] + d3;
    var d1 := ['c'] + d2;
    assert d == ['-'] + d1;
    ClosedCons('-', d1, tail);
    ClosedCons('c', d2, tail);
    ClosedCons(' ', d3, tail);
    ClosedCons('\'', d[4..], tail);
    Backslash(Closed(d[4..], tail));
  }

  lemma Backslash(rest: string)
    ensures var s := ['-'] + (['c'] + ([' '] + (QUOTE_ESCAPE + rest)));
      StartsMark(s) && Close(s[4..]) == Some(1) && s[4] == '\\'
  {
    var s := ['-'] + (['c'] + ([' '] + (QUOTE_ESCAPE + rest)));
    var after := "''" + rest;
    assert s[4..] == ['\\'] + after;
    CloseOver('\\', after);
    assert !StartsEscape(after);
  }

  // ── Whole lines ───────────────────────────────────────────────────────────

  /** After the directory there is no other, and only quoted arguments. */
  predicate Ordered(flags: seq<Flag>) {
    flags == [] ||
    ((flags[0].name == "--add-dir" ==> forall flag :: flag in flags[1..] ==> flag.Quoted? && flag.name != "--add-dir")
     && Ordered(flags[1..]))
  }

  predicate DirectoryReadable(flag: Flag, last: bool) {
    flag.name == "--add-dir" ==> !HasMark(flag.value) && (EndsOpen(flag.value) ==> last)
  }

  /** No directory holds the mark, nor ends in the mark but for its quote unless it is
      the last thing on the line. */
  predicate Readable(flags: seq<Flag>) {
    flags == [] || (DirectoryReadable(flags[0], |flags| == 1) && Readable(flags[1..]))
  }

  predicate AllExpected(flags: seq<Flag>) {
    forall i :: 0 <= i < |flags| ==> Expected(flags[i])
  }

  function Rest(flags: seq<Flag>): string
    requires flags != []
  {
    if |flags| == 1 then "" else " " + Line(flags[1..])
  }

  lemma LineFront(flags: seq<Flag>)
    requires flags != []
    ensures Line(flags) == FlagText(flags[0]) + Rest(flags)
    ensures OverridesOf(Rest(flags)) == OverridesOf(Line(flags[1..]))
  {
    if |flags| > 1 {
      PassInert(" ", Line(flags[1..]));
    }
  }

  lemma DirectoryText(flag: Flag, rest: string)
    requires Expected(flag) && flag.name == "--add-dir"
    ensures OverridesOf(FlagText(flag) + rest) == OverridesOf(Closed(flag.value, rest))
  {
    hide Escaped, OverridesOf, SafeToken;
    QuotedText(flag, rest);
    assert Inert("--add-dir" + " '");
    PassInert("--add-dir" + " '", Closed(flag.value, rest));
  }

  /** No override starts like text taken for one. */
  lemma {:induction false} HeadOfValues(flags: seq<Flag>)
    requires AllExpected(flags) && Values(flags) != []
    ensures Values(flags)[0] != "" && Values(flags)[0][0] != ' ' && Values(flags)[0][0] != '\\'
  {
    if Value(flags[0]) == [] {
      assert forall i :: 0 <= i < |flags[1..]| ==> flags[1..][i] == flags[i + 1];
      HeadOfValues(flags[1..]);
    } else {
      assert NETWORK[0] == 's';
    }
  }

  lemma {:induction false} CloseOverText(p: string, rest: string)
    requires '\'' !in p && Close(rest) == Some(0)
    ensures Close(p + rest) == Some(|p|)
  {
    if p == "" {
      assert p + rest == rest;
    } else {
      assert p + rest == [p[0]] + (p[1..] + rest);
      CloseOverText(p[1..], rest);
      CloseOver(p[0], p[1..] + rest);
    }
  }

  lemma FirstNotBackslash(flag: Flag)
    requires Expected(flag) && flag.Quoted? && flag.name != "--add-dir"
    ensures flag.value != "" && flag.value[0] != '\\' && '\'' !in flag.name
  {
    assert NETWORK[0] == 's';
  }

  lemma OpeningQuoteCloses(v: string, rest: string)
    requires v != "" && v[0] != '\\'
    ensures Close("'" + (Escaped(v) + rest)) == Some(0)
  {
    EscapedFront(v, rest);
    var s := "'" + (Escaped(v) + rest);
    assert s[1] == (Escaped(v) + rest)[0];
    assert s[1] != '\\';
  }

  /** After a directory left open, the next flag's name is read as an override. */
  lemma OpenReadsTheNextName(flags: seq<Flag>)
    requires AllExpected(flags) && flags != [] && flags[0].Quoted? && flags[0].name != "--add-dir"
    ensures var found := OverridesOf(MARK + (" " + Line(flags)));
      found != [] && found[0] != "" && found[0][0] == ' '
  {
    hide OverridesOf, Escaped, Expected, Line, FlagText;
    var flag := flags[0];
    var tail := " " + Line(flags);
    var quoted := "'" + (Escaped(flag.value) + ("'" + Rest(flags)));
    FirstNotBackslash(flag);
    LineFront(flags);
    QuotedText(flag, Rest(flags));
    assert tail == (" " + flag.name + " ") + quoted;
    OpeningQuoteCloses(flag.value, "'" + Rest(flags));
    CloseOverText(" " + flag.name + " ", quoted);
    SpacedOverride(" " + flag.name + " ", tail);
  }

  lemma SpacedOverride(p: string, tail: string)
    requires |p| <= |tail| && p == tail[..|p|] && p != "" && p[0] == ' ' && Close(tail) == Some(|p|)
    ensures var found := OverridesOf(MARK + tail);
      found != [] && found[0] != "" && found[0][0] == ' '
  {
    var s := MARK + tail;
    assert s[4..] == tail && s[4..][..|p|] == p;
    MarkTaken(s, |p|);
  }

  lemma OpenAtTheEnd()
    ensures OverridesOf(MARK + "") == []
  {
    assert StartsMark(MARK + "") && (MARK + "")[4..] == "";
  }

  /** What no override starts with. */
  predicate Foreign(values: seq<string>) {
    values != [] && values[0] != "" && values[0][0] in {' ', '\\'}
  }

  lemma ForeignDiffers(found: seq<string>, flags: seq<Flag>)
    requires Foreign(found) && AllExpected(flags)
    ensures found != Values(flags)
  {
    if Values(flags) != [] {
      HeadOfValues(flags);
    }
  }

  lemma OpenFound(rest: seq<Flag>, tail: string)
    requires AllExpected(rest) && forall flag :: flag in rest ==> flag.Quoted? && flag.name != "--add-dir"
    requires tail == if rest == [] then "" else " " + Line(rest)
    ensures if rest == [] then OverridesOf(MARK + tail) == [] else Foreign(OverridesOf(MARK + tail))
  {
    if rest == [] {
      OpenAtTheEnd();
    } else {
      assert rest[0] in rest;
      OpenReadsTheNextName(rest);
    }
  }

  /** A directory and the flags after it: what is read is right exactly when the
      directory is readable. */
  lemma DirectoryThen(d: string, rest: seq<Flag>, tail: string)
    requires AllExpected(rest) && forall flag :: flag in rest ==> flag.Quoted? && flag.name != "--add-dir"
    requires tail == if rest == [] then "" else " " + Line(rest)
    requires OverridesOf(tail) == Values(rest)
    ensures OverridesOf(Closed(d, tail)) == Values(rest) <==> !HasMark(d) && (EndsOpen(d) ==> rest == [])
  {
    hide Line, Expected, OverridesOf, HasMark, EndsOpen, Closed;
    if HasMark(d) {
      MarkedDirectory(d, tail);
      ForeignDiffers(OverridesOf(Closed(d, tail)), rest);
    } else if !EndsOpen(d) {
      CleanDirectory(d, tail);
    } else {
      OpenDirectory(d, tail);
      OpenFound(rest, tail);
      if rest != [] {
        ForeignDiffers(OverridesOf(Closed(d, tail)), rest);
      }
    }
  }

  lemma DirectoryFirst(flags: seq<Flag>)
    requires AllExpected(flags) && flags != [] && flags[0].name == "--add-dir" && Ordered(flags)
    requires OverridesOf(Line(flags[1..])) == Values(flags[1..])
    ensures OverridesOf(Line(flags)) == Values(flags) <==> DirectoryReadable(flags[0], |flags| == 1)
  {
    hide OverridesOf, HasMark, EndsOpen, Closed, Line, Expected, FlagText;
    assert forall i :: 0 <= i < |flags[1..]| ==> flags[1..][i] == flags[i + 1];
    LineFront(flags);
    DirectoryText(flags[0], Rest(flags));
    assert Values(flags) == Values(flags[1..]);
    DirectoryThen(flags[0].value, flags[1..], Rest(flags));
  }

  /** Nothing after the directory can hide anything. */
  lemma {:induction false} WithoutDirectory(flags: seq<Flag>)
    requires AllExpected(flags) && forall flag :: flag in flags ==> flag.name != "--add-dir"
    ensures OverridesOf(Line(flags)) == Values(flags) && Readable(flags) && Ordered(flags)
  {
    if flags != [] {
      assert forall i :: 0 <= i < |flags[1..]| ==> flags[1..][i] == flags[i + 1];
      assert flags[0] in flags;
      WithoutDirectory(flags[1..]);
      LineFront(flags);
      FlagRead(flags[0], Rest(flags));
    }
  }

  /** The overrides read back out of a line are exactly those written into it, in order
      and verbatim, if and only if its directory is readable. */
  lemma {:induction false} RoundTrip(flags: seq<Flag>)
    requires AllExpected(flags) && Ordered(flags)
    ensures OverridesOf(Line(flags)) == Values(flags) <==> Readable(flags)
  {
    if flags != [] {
      assert forall i :: 0 <= i < |flags[1..]| ==> flags[1..][i] == flags[i + 1];
      if flags[0].name == "--add-dir" {
        WithoutDirectory(flags[1..]);
        DirectoryFirst(flags);
      } else {
        RoundTrip(flags[1..]);
        LineFront(flags);
        FlagRead(flags[0], Rest(flags));
        SameAfter(Value(flags[0]), OverridesOf(Line(flags[1..])), Values(flags[1..]));
      }
    }
  }

  lemma SameAfter(before: seq<string>, a: seq<string>, b: seq<string>)
    ensures before + a == before + b <==> a == b
  {
    assert (before + a)[|before|..] == a && (before + b)[|before|..] == b;
  }
}
