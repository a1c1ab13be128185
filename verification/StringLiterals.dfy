/** Every string literal of a comment-stripped source (`string_literals`,
    src-tauri/src/compliance.rs): raw strings without their fence, escapes resolved to
    the escaped character. */
module StringLiterals {
  import opened Wrappers
  import opened RustScanner
  import opened ScannerRendering

  function RawBody(s: string, hashes: nat): string {
    if s == "" || ClosesRaw(s, hashes) then "" else [s[0]] + RawBody(s[1..], hashes)
  }

  function StringBody(s: string): string
    decreases |s|
  {
    if s == "" || s[0] == '"' then ""
    else if s[0] == '\\' then (if |s| == 1 then "" else [s[1]] + StringBody(s[2..]))
    else [s[0]] + StringBody(s[1..])
  }

  predicate StartsText(s: string) {
    StartsRaw(s) || StartsString(s)
  }

  /** What the literal a text starts with says. */
  function HeadBody(s: string): string
    requires StartsText(s)
  {
    if StartsRaw(s) then
      var h := Hashes(s[1..]);
      RawBody(s[2 + h..], h)
    else StringBody(s[1..])
  }

  function Literals(s: string): seq<string>
    decreases |s|
  {
    if s == "" then []
    else if StartsText(s) then [HeadBody(s)] + Literals(s[LiteralLen(s)..])
    else Literals(s[1..])
  }

  // ── The scan ──────────────────────────────────────────────────────────────

  // The two bodies over an index into the characters, which is how the source walks.

  function RawBodyAt(c: string, i: nat, hashes: nat): string
    requires i <= |c|
    decreases |c| - i
  {
    if i == |c| || ClosesRaw(c[i..], hashes) then "" else [c[i]] + RawBodyAt(c, i + 1, hashes)
  }

  function StringBodyAt(c: string, i: nat): string
    decreases |c| - i
  {
    if i >= |c| || c[i] == '"' then ""
    else if c[i] == '\\' then (if i + 1 == |c| then "" else [c[i + 1]] + StringBodyAt(c, i + 2))
    else [c[i]] + StringBodyAt(c, i + 1)
  }

  lemma {:induction false} RawBodyAtIs(c: string, i: nat, hashes: nat)
    requires i <= |c|
    ensures RawBodyAt(c, i, hashes) == RawBody(c[i..], hashes)
    decreases |c| - i
  {
    if i < |c| && !ClosesRaw(c[i..], hashes) {
      Slide(c, i, 1);
      RawBodyAtIs(c, i + 1, hashes);
    }
  }

  lemma {:induction false} StringBodyAtIs(c: string, i: nat)
    requires i <= |c|
    ensures StringBodyAt(c, i) == StringBody(c[i..])
    decreases |c| - i
  {
    if i < |c| && c[i] != '"' {
      Slide(c, i, 1);
      if c[i] != '\\' {
        StringBodyAtIs(c, i + 1);
      } else if i + 1 < |c| {
        Slide(c, i, 2);
        StringBodyAtIs(c, i + 2);
      }
    }
  }

  lemma Pushed<T>(done: seq<T>, next: T, rest: seq<T>, whole: seq<T>)
    requires done + ([next] + rest) == whole
    ensures (done + [next]) + rest == whole
  {
    assert (done + [next]) + rest == done + ([next] + rest);
  }

  method ReadRaw(c: string, start: nat, hashes: nat) returns (next: nat, body: string)
    requires start <= |c|
    ensures next == RawEnd(c, start, hashes) && body == RawBodyAt(c, start, hashes)
  {
    body := "";
    var i := start;
    while i < |c|
      invariant start <= i <= |c| && RawEnd(c, i, hashes) == RawEnd(c, start, hashes)
      invariant body + RawBodyAt(c, i, hashes) == RawBodyAt(c, start, hashes)
      decreases |c| - i
    {
      if c[i] == '"' {
        var end := RawStringClose(c, i, hashes);
        if end.Some? {
          return end.value, body;
        }
      }
      Pushed(body, c[i], RawBodyAt(c, i + 1, hashes), RawBodyAt(c, start, hashes));
      body := body + [c[i]];
      i := i + 1;
    }
    next := i;
  }

  method ReadString(c: string, start: nat) returns (next: nat, body: string)
    requires start <= |c|
    ensures next == QuotedEnd(c, start, '"') && body == StringBodyAt(c, start)
  {
    body := "";
    var i := start;
    while i < |c|
      invariant start <= i <= |c| + 1 && QuotedEnd(c, i, '"') == QuotedEnd(c, start, '"')
      invariant body + StringBodyAt(c, i) == StringBodyAt(c, start)
      decreases |c| + 1 - i
    {
      if c[i] == '\\' {
        if i + 1 < |c| {
          Pushed(body, c[i + 1], StringBodyAt(c, i + 2), StringBodyAt(c, start));
          body := body + [c[i + 1]];
        }
        i := i + 2;
        continue;
      }
      if c[i] == '"' {
        return i + 1, body;
      }
      Pushed(body, c[i], StringBodyAt(c, i + 1), StringBodyAt(c, start));
      body := body + [c[i]];
      i := i + 1;
    }
    next := i;
  }

  lemma RawTaken(s: string)
    requires StartsRaw(s)
    ensures var h := Hashes(s[1..]); 2 + h <= |s| && HeadBody(s) == RawBody(s[2 + h..], h)
  {
  }

  lemma RawBodyIs(c: string, i: nat)
    requires i < |c| && StartsRaw(c[i..])
    ensures var h := Hashes(c[i + 1..]);
      i + 2 + h <= |c| && HeadBody(c[i..]) == RawBodyAt(c, i + 2 + h, h)
  {
    RawTaken(c[i..]);
    Slide(c, i, 1);
    var h := Hashes(c[i + 1..]);
    Slide(c, i, 2 + h);
    RawBodyAtIs(c, i + 2 + h, h);
  }

  lemma StringIs(c: string, i: nat)
    requires i < |c| && c[i] == '"'
    ensures HeadBody(c[i..]) == StringBodyAt(c, i + 1)
    ensures Upto(c, QuotedEnd(c, i + 1, '"')) == i + LiteralLen(c[i..])
  {
    Slide(c, i, 1);
    StringBodyAtIs(c, i + 1);
    QuotedEndIs(c, i + 1, '"');
  }

  lemma LiteralTaken(s: string)
    requires StartsText(s)
    ensures Literals(s) == [HeadBody(s)] + Literals(s[LiteralLen(s)..])
  {
  }

  /** A string literal or raw string at `i`; `next == i` when there is none. */
  method ReadLiteral(c: string, i: nat) returns (next: nat, body: string)
    requires i < |c|
    ensures i <= next <= |c| + 1 && (next > i <==> StartsText(c[i..]))
    ensures next > i ==> Upto(c, next) == i + LiteralLen(c[i..]) && body == HeadBody(c[i..])
  {
    Slide(c, i, 1);
    if c[i] == 'r' {
      var open := RawStringOpen(c, i);
      if open.Some? {
        RawLiteral(c, i);
        RawBodyIs(c, i);
        next, body := ReadRaw(c, open.value.1 + 1, open.value.0);
        return;
      }
    }
    if c[i] == '"' {
      StringIs(c, i);
      next, body := ReadString(c, i + 1);
      return;
    }
    return i, "";
  }

  lemma Collected(c: string, i: nat, next: nat, out: seq<string>, whole: seq<string>)
    requires i < |c| && i < next && out + Literals(c[i..]) == whole
    requires StartsText(c[i..]) && Upto(c, next) == i + LiteralLen(c[i..])
    ensures (out + [HeadBody(c[i..])]) + Literals(From(c, next)) == whole
  {
    LiteralTaken(c[i..]);
    var n := LiteralLen(c[i..]);
    Slide(c, i, n);
    assert From(c, next) == c[i + n..];
    Pushed(out, HeadBody(c[i..]), Literals(c[i + n..]), whole);
  }

  lemma NotALiteral(c: string, i: nat)
    requires i < |c| && !StartsText(c[i..])
    ensures Literals(c[i..]) == Literals(From(c, i + 1))
  {
    Slide(c, i, 1);
  }

  /** The scan collects exactly the literals of the text, and always ends. */
  method StringLiteralsOf(c: string) returns (out: seq<string>)
    ensures out == Literals(c)
  {
    out := [];
    ghost var whole := Literals(c);
    var i := 0;
    while i < |c|
      invariant i <= |c| + 1 && out + Literals(From(c, i)) == whole
      decreases |c| + 1 - i
    {
      var next, body := ReadLiteral(c, i);
      if next > i {
        Collected(c, i, next, out, whole);
        out := out + [body];
        i := next;
        continue;
      }
      NotALiteral(c, i);
      i := i + 1;
    }
  }

  // ── Read back from rendered sources ───────────────────────────────────────

  /** What a string literal says: its escapes resolved to the escaped character. */
  function Value(q: Quoted): string {
    match q
    case Done => ""
    case Char(c, rest) => [c] + Value(rest)
    case Escape(c, rest) => [c] + Value(rest)
  }

  function Values(segments: seq<Segment>): seq<string> {
    if segments == [] then []
    else
      (match segments[0]
       case Str(text) => [Value(text)]
       case Raw(_, body) => [body]
       case _ => [])
      + Values(segments[1..])
  }

  /** The texts `string_literals` is given: comments stripped, and no quote inside a char
      literal, which it does not know. */
  predicate Readable(segments: seq<Segment>) {
    forall i :: 0 <= i < |segments| ==>
      !IsComment(segments[i]) && (segments[i].CharLit? ==> '"' !in SegmentText(segments[i]))
  }

  lemma {:induction false} StringBodyOf(q: Quoted, tail: string)
    requires QuotedOk(q, '"')
    ensures StringBody(QuotedText(q) + (['"'] + tail)) == Value(q)
    decreases q
  {
    var s := QuotedText(q) + (['"'] + tail);
    match q
    case Done => assert s[0] == '"';
    case Char(c, rest) =>
      assert s[0] == c && s[1..] == QuotedText(rest) + (['"'] + tail);
      StringBodyOf(rest, tail);
    case Escape(c, rest) =>
      assert s[0] == '\\' && s[1] == c && s[2..] == QuotedText(rest) + (['"'] + tail);
      StringBodyOf(rest, tail);
  }

  lemma {:induction false} RawBodyOpenOf(body: string, hashes: nat, tail: string)
    requires RawStaysOpen(body, hashes)
    ensures RawBody(body + ("\"" + (HashText(hashes) + tail)), hashes) == body
  {
    var close := HashText(hashes) + tail;
    var s := body + ("\"" + close);
    if body == "" {
      HashesOf(hashes, tail);
      assert s[0] == '"' && s[1..] == close;
    } else {
      assert s[1..] == body[1..] + ("\"" + close) && (body + "\"")[1..] == body[1..] + "\"";
      HashesStop(body[1..], close);
      assert ClosesRaw(s, hashes) == ClosesRaw(body + "\"", hashes);
      RawBodyOpenOf(body[1..], hashes, tail);
    }
  }

  lemma RawBodyOf(body: string, hashes: nat, tail: string)
    requires RawOk(body, hashes)
    ensures RawBody(body + ("\"" + (HashText(hashes) + tail)), hashes) == body
  {
    RawOkStaysOpen(body, hashes);
    RawBodyOpenOf(body, hashes, tail);
  }

  lemma {:induction false} HashesWithin(s: string, rest: string)
    requires s != "" && s[|s| - 1] != '#'
    ensures Hashes(s + rest) < |s|
  {
    assert (s + rest)[0] == s[0];
    if s[0] == '#' {
      assert (s + rest)[1..] == s[1..] + rest;
      HashesWithin(s[1..], rest);
    }
  }

  /** A stretch without a quote, not ending in a hash, holds no string literal. */
  lemma {:induction false} QuoteFree(s: string, rest: string)
    requires '"' !in s && (s == "" || (s[|s| - 1] != '#' && s[|s| - 1] != 'r'))
    ensures Literals(s + rest) == Literals(rest)
  {
    if s == "" {
      assert s + rest == rest;
    } else {
      assert (s + rest)[0] == s[0] && (s + rest)[1..] == s[1..] + rest;
      if s[0] == 'r' {
        HashesWithin(s[1..], rest);
        assert (s + rest)[1 + Hashes(s[1..] + rest)] == s[1 + Hashes(s[1..] + rest)];
      }
      QuoteFree(s[1..], rest);
    }
  }

  lemma SegmentLiterals(segment: Segment, rest: string)
    requires SegmentOk(segment, rest) && !IsComment(segment)
    requires segment.CharLit? ==> '"' !in SegmentText(segment)
    ensures Literals(SegmentText(segment) + rest) ==
            (match segment
             case Str(text) => [Value(text)]
             case Raw(_, body) => [body]
             case _ => []) + Literals(rest)
  {
    var s := SegmentText(segment) + rest;
    PieceSplit(SegmentText(segment), rest);
    match segment
    case Code(ch) =>
      PlainCodeOpensNothing(ch, rest);
      assert Literals(s) == Literals(rest);
    case Str(text) =>
      StringFound(text, rest);
      assert s[0] == '"' && s[1..] == QuotedText(text) + (['"'] + rest);
      StringBodyOf(text, rest);
      LiteralTaken(s);
    case Raw(hashes, body) =>
      RawLiterals(hashes, body, rest);
    case CharLit(text) =>
      QuoteFree(SegmentText(segment), rest);
  }

  lemma RawHeadBody(hashes: nat, close: string)
    ensures var s := "r" + (HashText(hashes) + ("\"" + close));
      StartsRaw(s) && HeadBody(s) == RawBody(close, hashes)
  {
    var s := "r" + (HashText(hashes) + ("\"" + close));
    assert s[1..] == HashText(hashes) + ("\"" + close);
    HashesOf(hashes, "\"" + close);
    assert s[1 + hashes] == '"' && s[2 + hashes..] == close;
  }

  lemma RawLiterals(hashes: nat, body: string, rest: string)
    requires RawOk(body, hashes)
    ensures Literals(SegmentText(Raw(hashes, body)) + rest) == [body] + Literals(rest)
  {
    hide RawOk, RawLen, RawBody, HeadBody, Literals, LiteralLen, StartsRaw, HashText;
    var close := body + ("\"" + (HashText(hashes) + rest));
    RawShape(HashText(hashes), body, rest);
    assert SegmentText(Raw(hashes, body)) + rest == "r" + (HashText(hashes) + ("\"" + close));
    RawHeadBody(hashes, close);
    RawBodyOf(body, hashes, rest);
    RawFound(hashes, body, rest);
    LiteralTaken(SegmentText(Raw(hashes, body)) + rest);
    PieceSplit(SegmentText(Raw(hashes, body)), rest);
  }

  /** Of every readable source the scan returns exactly the values of its string
      literals, in order. */
  lemma {:induction false} LiteralsInvertRendering(segments: seq<Segment>)
    requires WellFormed(segments) && Readable(segments)
    ensures Literals(Text(segments)) == Values(segments)
  {
    if segments != [] {
      assert forall i :: 0 <= i < |segments| - 1 ==> segments[1..][i] == segments[i + 1];
      SegmentLiterals(segments[0], Text(segments[1..]));
      LiteralsInvertRendering(segments[1..]);
    }
  }

  // ── Where the literals are taken ──────────────────────────────────────────

  /** The indexes at which the scan takes a literal, in a text that starts at `at`. */
  function Starts(s: string, at: nat): seq<nat>
    decreases |s|
  {
    if s == "" then []
    else if StartsText(s) then [at] + Starts(s[LiteralLen(s)..], at + LiteralLen(s))
    else Starts(s[1..], at + 1)
  }

  /** The indexes at which the literals are. */
  function Places(segments: seq<Segment>, at: nat): seq<nat> {
    if segments == [] then []
    else
      (if segments[0].Str? || segments[0].Raw? then [at] else [])
      + Places(segments[1..], at + |SegmentText(segments[0])|)
  }

  predicate CommentFree(segments: seq<Segment>) {
    forall i :: 0 <= i < |segments| ==> !IsComment(segments[i])
  }

  lemma {:induction false} PlacesComeLater(segments: seq<Segment>, at: nat)
    ensures forall i :: 0 <= i < |Places(segments, at)| ==> Places(segments, at)[i] >= at
  {
    if segments != [] {
      PlacesComeLater(segments[1..], at + |SegmentText(segments[0])|);
    }
  }

  /** A quote is a literal's, or inside one: the first literal starts no later. */
  lemma {:induction false} FirstStart(s: string, at: nat, k: nat)
    requires k < |s| && s[k] == '"'
    ensures Starts(s, at) != [] && at <= Starts(s, at)[0] <= at + k
    decreases |s|
  {
    if !StartsText(s) {
      hide LiteralLen, Literals;
      FirstStart(s[1..], at + 1, k - 1);
    }
  }

  lemma {:induction false} QuoteFreeStarts(s: string, rest: string, at: nat)
    requires '"' !in s && (s == "" || (s[|s| - 1] != '#' && s[|s| - 1] != 'r'))
    ensures Starts(s + rest, at) == Starts(rest, at + |s|)
  {
    if s == "" {
      assert s + rest == rest;
    } else {
      assert (s + rest)[0] == s[0] && (s + rest)[1..] == s[1..] + rest;
      if s[0] == 'r' {
        HashesWithin(s[1..], rest);
        assert (s + rest)[1 + Hashes(s[1..] + rest)] == s[1 + Hashes(s[1..] + rest)];
      }
      QuoteFreeStarts(s[1..], rest, at + 1);
    }
  }

  lemma StartTaken(s: string, at: nat)
    requires StartsText(s)
    ensures Starts(s, at) == [at] + Starts(s[LiteralLen(s)..], at + LiteralLen(s))
  {
  }

  lemma SegmentStart(segment: Segment, rest: string, at: nat)
    requires SegmentOk(segment, rest) && !IsComment(segment)
    requires segment.CharLit? ==> '"' !in SegmentText(segment)
    ensures Starts(SegmentText(segment) + rest, at) ==
            (if segment.Str? || segment.Raw? then [at] else []) + Starts(rest, at + |SegmentText(segment)|)
  {
    var s := SegmentText(segment) + rest;
    PieceSplit(SegmentText(segment), rest);
    match segment
    case Code(ch) =>
      PlainCodeOpensNothing(ch, rest);
      assert Starts(s, at) == Starts(rest, at + 1);
    case Str(text) =>
      hide QuotedLen, RawLen, Literals;
      StringFound(text, rest);
      assert s[0] == '"';
      StartTaken(s, at);
    case Raw(hashes, body) =>
      hide QuotedLen, RawLen, Literals;
      RawFound(hashes, body, rest);
      RawStarts(hashes, body, rest);
      StartTaken(s, at);
    case CharLit(text) =>
      QuoteFreeStarts(SegmentText(segment), rest, at);
  }

  lemma RawStarts(hashes: nat, body: string, rest: string)
    requires RawOk(body, hashes)
    ensures StartsRaw(SegmentText(Raw(hashes, body)) + rest)
  {
    RawShape(HashText(hashes), body, rest);
    RawHead(hashes, body + ("\"" + (HashText(hashes) + rest)));
  }

  lemma MisplacedStart(text: Quoted, rest: string, at: nat)
    requires '"' in SegmentText(CharLit(text))
    ensures var s := SegmentText(CharLit(text)) + rest;
      Starts(s, at) != [] && Starts(s, at)[0] < at + |SegmentText(CharLit(text))|
  {
    var piece := SegmentText(CharLit(text));
    var k :| 0 <= k < |piece| && piece[k] == '"';
    assert (piece + rest)[k] == piece[k];
    FirstStart(piece + rest, at, k);
  }

  lemma NothingTaken(at: nat)
    ensures Starts("", at) == []
  {
  }

  lemma EmptyInPlace(at: nat)
    ensures Starts(Text([]), at) == Places([], at) && Readable([])
  {
    NothingTaken(at);
  }

  lemma NotTaken(s: string, at: nat)
    requires s != "" && !StartsText(s)
    ensures Starts(s, at) == Starts(s[1..], at + 1) && Literals(s) == Literals(s[1..])
  {
  }

  lemma SameAfter(before: seq<nat>, a: seq<nat>, b: seq<nat>)
    ensures before + a == before + b <==> a == b
  {
    assert (before + a)[|before|..] == a && (before + b)[|before|..] == b;
  }

  predicate ReadablePiece(segment: Segment) {
    !IsComment(segment) && (segment.CharLit? ==> '"' !in SegmentText(segment))
  }

  lemma ReadableOn(segments: seq<Segment>)
    requires segments != []
    ensures Readable(segments) <==> ReadablePiece(segments[0]) && Readable(segments[1..])
    ensures CommentFree(segments) ==> !IsComment(segments[0]) && CommentFree(segments[1..])
  {
    hide SegmentText;
    assert forall i :: 0 <= i < |segments[1..]| ==> segments[1..][i] == segments[i + 1];
    assert forall i :: 0 < i < |segments| ==> segments[i] == segments[1..][i - 1];
  }

  lemma WellFormedOn(segments: seq<Segment>)
    requires segments != [] && WellFormed(segments)
    ensures SegmentOk(segments[0], Text(segments[1..])) && WellFormed(segments[1..])
  {
    hide SegmentOk, Text;
  }

  lemma PieceInPlace(segments: seq<Segment>, at: nat)
    requires segments != [] && WellFormed(segments) && ReadablePiece(segments[0])
    ensures var rest, next := segments[1..], at + |SegmentText(segments[0])|;
      Starts(Text(segments), at) == Places(segments, at) <==> Starts(Text(rest), next) == Places(rest, next)
  {
    hide Starts, Literals, SegmentText;
    var first, rest, next := segments[0], segments[1..], at + |SegmentText(segments[0])|;
    SegmentStart(first, Text(rest), at);
    SameAfter(if first.Str? || first.Raw? then [at] else [], Starts(Text(rest), next), Places(rest, next));
  }

  lemma PieceOutOfPlace(segments: seq<Segment>, at: nat)
    requires segments != [] && segments[0].CharLit? && '"' in SegmentText(segments[0])
    ensures Starts(Text(segments), at) != Places(segments, at)
  {
    hide Starts, Literals, SegmentText;
    var first, rest := segments[0], segments[1..];
    MisplacedStart(first.text, Text(rest), at);
    PlacesComeLater(rest, at + |SegmentText(first)|);
  }

  /** Of every source of well-formed pieces without comments the scan takes its literals
      where they are if and only if no char literal holds a quote. */
  lemma {:induction false} TakenInPlace(segments: seq<Segment>, at: nat)
    requires WellFormed(segments) && CommentFree(segments)
    ensures Starts(Text(segments), at) == Places(segments, at) <==> Readable(segments)
  {
    hide Starts, Literals, SegmentText, Places, Text, Readable, CommentFree, WellFormed, SegmentOk;
    if segments == [] {
      EmptyInPlace(at);
    } else {
      ReadableOn(segments);
      WellFormedOn(segments);
      if ReadablePiece(segments[0]) {
        TakenInPlace(segments[1..], at + |SegmentText(segments[0])|);
        PieceInPlace(segments, at);
      } else {
        PieceOutOfPlace(segments, at);
      }
    }
  }

  lemma Dropped(s: string, n: nat, k: nat)
    requires n <= k <= |s|
    ensures s[n..][k - n..] == s[k..]
  {
  }

  /** The `i`-th literal is the one that stands at the `i`-th start. */
  ghost predicate StandsAt(s: string, at: nat, i: nat)
    requires i < |Starts(s, at)| && i < |Literals(s)|
  {
    var k := Starts(s, at)[i] - at;
    0 <= k < |s| && StartsText(s[k..]) && Literals(s)[i] == HeadBody(s[k..])
  }

  lemma StandsLater(s: string, n: nat, at: nat, i: nat, j: nat)
    requires 0 < n <= |s| && j < |Starts(s[n..], at + n)| && j < |Literals(s[n..])| && StandsAt(s[n..], at + n, j)
    requires i < |Starts(s, at)| && i < |Literals(s)|
    requires Starts(s, at)[i] == Starts(s[n..], at + n)[j] && Literals(s)[i] == Literals(s[n..])[j]
    ensures StandsAt(s, at, i)
  {
    hide Starts, Literals, HeadBody, StartsText;
    Dropped(s, n, Starts(s, at)[i] - at);
  }

  lemma StandsFirst(s: string, at: nat)
    requires StartsText(s)
    ensures |Starts(s, at)| > 0 && |Literals(s)| > 0 && StandsAt(s, at, 0)
  {
    hide Literals, Starts, HeadBody;
    LiteralTaken(s);
    StartTaken(s, at);
    assert s[0..] == s;
  }

  /** As many literals are collected as starts are found, and each is what stands there. */
  lemma {:induction false} CollectedWhereTaken(s: string, at: nat)
    ensures |Starts(s, at)| == |Literals(s)|
    ensures forall i :: 0 <= i < |Starts(s, at)| ==> StandsAt(s, at, i)
    decreases |s|
  {
    hide Starts, Literals, HeadBody, StartsText, StandsAt, LiteralLen;
    if s == "" {
      NothingTaken(at);
      NoLiterals(s);
    } else {
      var n, taken := 1, 0;
      if StartsText(s) {
        n, taken := LiteralLen(s), 1;
        LiteralIsLong(s);
        LiteralTaken(s);
        StartTaken(s, at);
        StandsFirst(s, at);
      } else {
        NotTaken(s, at);
      }
      CollectedWhereTaken(s[n..], at + n);
      forall i | taken <= i < |Starts(s, at)|
        ensures StandsAt(s, at, i)
      {
        StandsLater(s, n, at, i, i - taken);
      }
    }
  }

  lemma LiteralIsLong(s: string)
    requires StartsText(s)
    ensures 0 < LiteralLen(s) <= |s|
  {
  }

  lemma OneTick(s: string)
    requires |s| == 1 && s[0] == '\''
    ensures StringBody(s) == s && QuotedLen(s, '"') == 1
  {
    assert s[1..] == "";
  }

  lemma StringTaken(s: string)
    requires StartsString(s)
    ensures StartsText(s) && HeadBody(s) == StringBody(s[1..])
  {
  }

  lemma NoLiterals(s: string)
    requires s == ""
    ensures Literals(s) == []
  {
  }

  lemma Misread(s: string)
    requires |s| == 3 && s[0] == '\'' && s[1] == '"' && s[2] == '\''
    ensures Literals(s) == [s[2..]]
  {
    assert !StartsText(s);
    hide Literals, HeadBody, LiteralLen, StringBody, QuotedLen, StartsRaw;
    var t := s[1..];
    NotTaken(s, 0);
    OneTick(t[1..]);
    QuotedHead(t);
    StringTaken(t);
    LiteralTaken(t);
    NoLiterals(t[2..]);
    assert t[1..] == s[2..];
  }

  /** A quote in a char literal opens a string: a source with no string literal at all
      that is read as holding one. */
  lemma QuoteCharIsMisread()
    ensures var segments := [CharLit(Char('"', Done))];
      && WellFormed(segments) && Values(segments) == []
      && Text(segments) == ['\'', '"', '\''] && Literals(Text(segments)) == [['\'']]
  {
    hide Literals;
    var segments := [CharLit(Char('"', Done))];
    assert segments[1..] == [];
    assert QuotedText(Char('"', Done)) == ['"'] + "";
    assert Text(segments) == SegmentText(segments[0]) + "";
    assert Text(segments) == ['\'', '"', '\''];
    Misread(Text(segments));
    assert Text(segments)[2..] == ['\''];
  }
}
