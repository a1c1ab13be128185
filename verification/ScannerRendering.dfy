/** The scanner read backwards: sources written out from well-formed pieces, and what
    `strip_rust_comments` and `string_literals` (src-tauri/src/compliance.rs) make of
    them. The pieces are an independent description of the texts the scanner is for. */
module ScannerRendering {
  import opened RustScanner

  // ── Block comments ────────────────────────────────────────────────────────

  /** The inside of a block comment: characters and nested comments. */
  datatype Comment = End | Plain(c: char, rest: Comment) | Nested(inner: Comment, rest: Comment)

  function CommentText(b: Comment): string {
    match b
    case End => ""
    case Plain(c, rest) => [c] + CommentText(rest)
    case Nested(inner, rest) => "/*" + (CommentText(inner) + ("*/" + CommentText(rest)))
  }

  /** No plain character forms a mark with what follows it, the closing mark included. */
  predicate CommentOk(b: Comment) {
    match b
    case End => true
    case Plain(c, rest) =>
      var next := (CommentText(rest) + "*/")[0];
      !(c == '/' && next == '*') && !(c == '*' && next == '/') && CommentOk(rest)
    case Nested(inner, rest) => CommentOk(inner) && CommentOk(rest)
  }

  lemma BlockMarks(tail: string, depth: nat)
    requires depth > 0
    ensures BlockLen("/*" + tail, depth) == 2 + BlockLen(tail, depth + 1)
    ensures BlockLen("*/" + tail, depth) == 2 + BlockLen(tail, depth - 1)
  {
    assert ("/*" + tail)[2..] == tail && ("*/" + tail)[2..] == tail;
  }

  lemma BlockPlain(c: char, tail: string, depth: nat)
    requires depth > 0 && tail != "" && !(c == '/' && tail[0] == '*') && !(c == '*' && tail[0] == '/')
    ensures BlockLen([c] + tail, depth) == 1 + BlockLen(tail, depth)
  {
    assert ([c] + tail)[1..] == tail;
  }

  lemma {:induction false} BlockOfComment(b: Comment, depth: nat, tail: string)
    requires CommentOk(b) && depth > 0 && EndsBlockComment(tail)
    ensures BlockLen(CommentText(b) + tail, depth) == |CommentText(b)| + BlockLen(tail, depth)
    decreases b
  {
    match b
    case End =>
      assert "" + tail == tail;
    case Plain(c, rest) =>
      var after := CommentText(rest) + tail;
      assert after[0] == (CommentText(rest) + "*/")[0];
      BlockPlain(c, after, depth);
      assert CommentText(b) + tail == [c] + after;
      BlockOfComment(rest, depth, tail);
    case Nested(inner, rest) =>
      var after := CommentText(rest) + tail;
      assert CommentText(b) + tail == "/*" + (CommentText(inner) + ("*/" + after));
      BlockMarks(CommentText(inner) + ("*/" + after), depth);
      BlockOfComment(inner, depth + 1, "*/" + after);
      BlockMarks(after, depth + 1);
      BlockOfComment(rest, depth, tail);
  }

  // ── Quoted literals ───────────────────────────────────────────────────────

  /** The inside of a string or char literal: characters and escaped characters. */
  datatype Quoted = Done | Char(c: char, rest: Quoted) | Escape(c: char, rest: Quoted)

  function QuotedText(q: Quoted): string {
    match q
    case Done => ""
    case Char(c, rest) => [c] + QuotedText(rest)
    case Escape(c, rest) => ['\\', c] + QuotedText(rest)
  }

  predicate QuotedOk(q: Quoted, delim: char) {
    match q
    case Done => true
    case Char(c, rest) => c != delim && c != '\\' && QuotedOk(rest, delim)
    case Escape(_, rest) => QuotedOk(rest, delim)
  }

  lemma {:induction false} QuotedOf(q: Quoted, delim: char, tail: string)
    requires QuotedOk(q, delim) && delim != '\\'
    ensures QuotedLen(QuotedText(q) + ([delim] + tail), delim) == |QuotedText(q)| + 1
    decreases q
  {
    var s := QuotedText(q) + ([delim] + tail);
    match q
    case Done =>
      assert s[0] == delim;
    case Char(c, rest) =>
      assert s[0] == c && s[1..] == QuotedText(rest) + ([delim] + tail);
      QuotedOf(rest, delim, tail);
    case Escape(c, rest) =>
      assert s[0] == '\\' && s[2..] == QuotedText(rest) + ([delim] + tail);
      QuotedOf(rest, delim, tail);
  }

  // ── Raw strings ───────────────────────────────────────────────────────────

  function HashText(n: nat): (s: string)
    ensures |s| == n
  {
    if n == 0 then "" else "#" + HashText(n - 1)
  }

  /** No quote inside is followed by enough hashes to close: one of the characters after
      it, of which the closing quote may be one, is no hash. */
  ghost predicate RawOk(body: string, hashes: nat) {
    forall k :: 0 <= k < |body| && body[k] == '"' ==>
      exists j :: k < j <= k + hashes && NoHashAt(body, j)
  }

  predicate NoHashAt(body: string, j: nat) {
    j == |body| || (j < |body| && body[j] != '#')
  }

  /** The same, as the scanner meets it. */
  predicate RawStaysOpen(body: string, hashes: nat) {
    body == "" || (!ClosesRaw(body + "\"", hashes) && RawStaysOpen(body[1..], hashes))
  }

  /** What the scanner counts as hashes are hashes, and all of them. */
  lemma {:induction false} HashesAre(s: string)
    ensures forall k :: 0 <= k < Hashes(s) ==> s[k] == '#'
    ensures Hashes(s) < |s| ==> s[Hashes(s)] != '#'
  {
    if s != "" && s[0] == '#' {
      HashesAre(s[1..]);
      assert forall k :: 0 < k < |s| ==> s[k] == s[1..][k - 1];
    }
  }

  lemma {:induction false} RawOkStaysOpen(body: string, hashes: nat)
    requires RawOk(body, hashes)
    ensures RawStaysOpen(body, hashes)
  {
    if body != "" {
      var rest, closed := body[1..], body + "\"";
      HashesAre(closed[1..]);
      if body[0] == '"' {
        var j :| 0 < j <= 0 + hashes && NoHashAt(body, j);
        assert closed[1..][j - 1] == closed[j];
      }
      forall k | 0 <= k < |rest| && rest[k] == '"'
        ensures exists j :: k < j <= k + hashes && NoHashAt(rest, j)
      {
        assert body[k + 1] == rest[k];
        var j :| k + 1 < j <= k + 1 + hashes && NoHashAt(body, j);
        assert NoHashAt(rest, j - 1);
      }
      RawOkStaysOpen(rest, hashes);
    }
  }

  lemma OneHash(tail: string)
    ensures Hashes("#" + tail) == 1 + Hashes(tail)
  {
    assert ("#" + tail)[1..] == tail;
  }

  lemma {:induction false} HashesOf(n: nat, tail: string)
    ensures Hashes(HashText(n) + tail) == n + Hashes(tail)
  {
    if n == 0 {
      assert HashText(n) + tail == tail;
    } else {
      HashesOf(n - 1, tail);
      OneHash(HashText(n - 1) + tail);
      assert HashText(n) + tail == "#" + (HashText(n - 1) + tail);
    }
  }

  /** A run of hashes is over before the next quote. */
  lemma {:induction false} HashesStop(s: string, tail: string)
    ensures Hashes(s + ("\"" + tail)) == Hashes(s + "\"")
  {
    if s == "" {
      assert s + ("\"" + tail) == "\"" + tail && s + "\"" == "\"";
    } else {
      assert (s + ("\"" + tail))[1..] == s[1..] + ("\"" + tail);
      assert (s + "\"")[1..] == s[1..] + "\"";
      HashesStop(s[1..], tail);
    }
  }

  lemma {:induction false} RawOpenOf(body: string, hashes: nat, tail: string)
    requires RawStaysOpen(body, hashes)
    ensures RawLen(body + ("\"" + (HashText(hashes) + tail)), hashes) == |body| + 1 + hashes
  {
    var close := HashText(hashes) + tail;
    var s := body + ("\"" + close);
    if body == "" {
      HashesOf(hashes, tail);
      assert s[0] == '"' && s[1..] == close;
    } else {
      assert s[1..] == body[1..] + ("\"" + close) && (body + "\"")[1..] == body[1..] + "\"";
      HashesStop(body[1..], close);
      assert ClosesRaw(s, hashes) == ClosesRaw(body + "\"", hashes);
      RawOpenOf(body[1..], hashes, tail);
    }
  }

  lemma RawOf(body: string, hashes: nat, tail: string)
    requires RawOk(body, hashes)
    ensures RawLen(body + ("\"" + (HashText(hashes) + tail)), hashes) == |body| + 1 + hashes
  {
    RawOkStaysOpen(body, hashes);
    RawOpenOf(body, hashes, tail);
  }

  // ── Sources ───────────────────────────────────────────────────────────────

  datatype Segment =
    | Code(ch: char)
    | LineComment(line: string)
    | BlockComment(comment: Comment)
    | Str(text: Quoted)
    | Raw(hashes: nat, body: string)
    | CharLit(text: Quoted)

  function SegmentText(segment: Segment): string {
    match segment
    case Code(ch) => [ch]
    case LineComment(line) => "//" + line
    case BlockComment(comment) => "/*" + (CommentText(comment) + "*/")
    case Str(text) => "\"" + (QuotedText(text) + "\"")
    case Raw(hashes, body) => "r" + (HashText(hashes) + ("\"" + (body + ("\"" + HashText(hashes)))))
    case CharLit(text) => "'" + (QuotedText(text) + "'")
  }

  /** The text opens a comment or a literal. */
  predicate Opens(s: string) {
    StartsLineComment(s) || StartsBlockComment(s) || StartsRaw(s) || StartsString(s) || StartsChar(s)
  }

  /** The character is code before the text that follows it. A `/` is, unless another or
      a star follows; a single quote, unless a backslash follows or the next but one closes
      it, so it is a lifetime's; an `r`, unless hashes and a quote follow, or a quote; a
      double quote never. */
  ghost predicate PlainCode(ch: char, rest: string) {
    && ch != '"'
    && (ch == '/' && rest != "" ==> rest[0] != '/' && rest[0] != '*')
    && (ch == '\'' && |rest| > 0 ==> rest[0] != '\\')
    && (ch == '\'' && |rest| > 1 ==> rest[1] != '\'')
    && (ch == 'r' ==> !Fenced(rest))
  }

  /** A quote, with hashes alone before it. */
  ghost predicate Fenced(s: string) {
    exists n :: 0 <= n < |s| && s[n] == '"' && forall k :: 0 <= k < n ==> s[k] == '#'
  }

  lemma FencedIsRaw(s: string)
    ensures Fenced(s) <==> StartsRaw("r" + s)
  {
    HashesAre(s);
    assert ("r" + s)[1..] == s;
    if Fenced(s) {
      var n :| 0 <= n < |s| && s[n] == '"' && forall k :: 0 <= k < n ==> s[k] == '#';
      assert Hashes(s) == n;
    } else if Hashes(s) < |s| {
      assert s[Hashes(s)] != '"';
    }
  }

  /** Code is exactly what opens no comment and no literal. */
  lemma PlainCodeOpensNothing(ch: char, rest: string)
    ensures PlainCode(ch, rest) <==> !Opens([ch] + rest)
  {
    var s := [ch] + rest;
    assert s[1..] == rest && (rest != "" ==> s[1] == rest[0]) && (|rest| > 1 ==> s[2] == rest[1]);
    if ch == 'r' {
      FencedIsRaw(rest);
      assert s == "r" + rest;
    }
  }

  /** A piece is well formed before the text that follows it: code by its characters, and
      a line comment runs to the end of its line. */
  ghost predicate SegmentOk(segment: Segment, rest: string) {
    match segment
    case Code(ch) => PlainCode(ch, rest)
    case LineComment(line) => '\n' !in line && (rest == "" || rest[0] == '\n')
    case BlockComment(comment) => CommentOk(comment)
    case Str(text) => QuotedOk(text, '"')
    case Raw(hashes, body) => RawOk(body, hashes)
    case CharLit(text) => QuotedOk(text, '\'') && CharShaped(text, rest)
  }

  /** What the scanner takes for a char literal: an escape, one character, or nothing
      when a third quote follows. */
  predicate CharShaped(text: Quoted, rest: string) {
    match text
    case Escape(_, _) => true
    case Char(_, more) => more.Done?
    case Done => rest != "" && rest[0] == '\''
  }

  function Text(segments: seq<Segment>): string {
    if segments == [] then "" else SegmentText(segments[0]) + Text(segments[1..])
  }

  ghost predicate WellFormed(segments: seq<Segment>) {
    segments == [] || (SegmentOk(segments[0], Text(segments[1..])) && WellFormed(segments[1..]))
  }

  predicate IsComment(segment: Segment) {
    segment.LineComment? || segment.BlockComment?
  }

  /** The pieces in order, each comment replaced by its newlines. */
  function WithoutComments(segments: seq<Segment>): string {
    if segments == [] then ""
    else
      (if IsComment(segments[0]) then Newlines(SegmentText(segments[0])) else SegmentText(segments[0]))
      + WithoutComments(segments[1..])
  }

  // ── The scanner finds each piece ──────────────────────────────────────────

  lemma {:induction false} LineLenOf(line: string, rest: string)
    requires '\n' !in line && (rest == "" || rest[0] == '\n')
    ensures LineLen(line + rest) == |line|
  {
    if line == "" {
      assert line + rest == rest;
    } else {
      assert (line + rest)[1..] == line[1..] + rest && (line + rest)[0] == line[0];
      LineLenOf(line[1..], rest);
    }
  }

  // How the written pieces read from the front, as plain texts.

  lemma DelimitedShape(open: char, body: string, close: char, rest: string)
    ensures var s := [open] + (body + [close]) + rest;
      s[0] == open && s[1..] == body + ([close] + rest) && |s| == |body| + 2 + |rest|
  {
    var s := [open] + (body + [close]) + rest;
    assert s == [open] + (body + ([close] + rest));
  }

  lemma BlockShape(body: string, rest: string)
    ensures var s := "/*" + (body + "*/") + rest;
      StartsBlockComment(s) && s[2..] == body + ("*/" + rest)
  {
    var s := "/*" + (body + "*/") + rest;
    assert s == "/*" + (body + ("*/" + rest));
    assert s[0] == '/' && s[1] == '*';
  }

  lemma RawShape(fence: string, body: string, rest: string)
    ensures "r" + (fence + ("\"" + (body + ("\"" + fence)))) + rest ==
            "r" + (fence + ("\"" + (body + ("\"" + (fence + rest)))))
  {
    var inner := body + ("\"" + fence);
    assert inner + rest == body + ("\"" + (fence + rest));
    assert "\"" + inner + rest == "\"" + (inner + rest);
    assert fence + ("\"" + inner) + rest == fence + ("\"" + (inner + rest));
  }

  // What the scanner reads off the head.

  lemma LineHead(s: string)
    requires StartsLineComment(s)
    ensures CommentLen(s) == LineLen(s)
  {
  }

  lemma BlockHead(s: string)
    requires StartsBlockComment(s)
    ensures CommentLen(s) == 2 + BlockLen(s[2..], 1)
  {
  }

  lemma QuotedHead(s: string)
    requires StartsString(s) || StartsChar(s)
    ensures CommentLen(s) == 0 && LiteralLen(s) == 1 + QuotedLen(s[1..], s[0])
  {
  }

  // So each written piece is found whole.

  lemma LineFound(line: string, rest: string)
    requires '\n' !in line && (rest == "" || rest[0] == '\n')
    ensures CommentLen(SegmentText(LineComment(line)) + rest) == |SegmentText(LineComment(line))|
  {
    var text := "//" + line;
    assert '\n' !in text && (text + rest)[0] == '/' && (text + rest)[1] == '/';
    LineHead(text + rest);
    LineLenOf(text, rest);
  }

  lemma BlockFound(comment: Comment, rest: string)
    requires CommentOk(comment)
    ensures CommentLen(SegmentText(BlockComment(comment)) + rest) == |SegmentText(BlockComment(comment))|
  {
    BlockShape(CommentText(comment), rest);
    BlockHead(SegmentText(BlockComment(comment)) + rest);
    BlockOfComment(comment, 1, "*/" + rest);
    BlockMarks(rest, 1);
  }

  lemma CommentFound(segment: Segment, rest: string)
    requires IsComment(segment) && SegmentOk(segment, rest)
    ensures CommentLen(SegmentText(segment) + rest) == |SegmentText(segment)|
  {
    match segment
    case LineComment(line) => LineFound(line, rest);
    case BlockComment(comment) => BlockFound(comment, rest);
  }

  lemma StringFound(text: Quoted, rest: string)
    requires QuotedOk(text, '"')
    ensures var s := SegmentText(Str(text)) + rest;
      CommentLen(s) == 0 && LiteralLen(s) == |SegmentText(Str(text))|
  {
    DelimitedShape('"', QuotedText(text), '"', rest);
    QuotedHead(SegmentText(Str(text)) + rest);
    QuotedOf(text, '"', rest);
  }

  lemma StartsCharLit(text: Quoted, rest: string)
    requires CharShaped(text, rest)
    ensures StartsChar(SegmentText(CharLit(text)) + rest)
  {
    DelimitedShape('\'', QuotedText(text), '\'', rest);
    var s := SegmentText(CharLit(text)) + rest;
    match text
    case Escape(_, _) =>
      assert s[1] == s[1..][0] == '\\';
    case Char(c, _) =>
      assert QuotedText(text) == [c];
      assert s[2] == s[1..][1] == '\'';
    case Done =>
      assert s[2] == s[1..][1] == rest[0];
  }

  lemma CharFound(text: Quoted, rest: string)
    requires SegmentOk(CharLit(text), rest)
    ensures var s := SegmentText(CharLit(text)) + rest;
      CommentLen(s) == 0 && LiteralLen(s) == |SegmentText(CharLit(text))|
  {
    DelimitedShape('\'', QuotedText(text), '\'', rest);
    StartsCharLit(text, rest);
    QuotedHead(SegmentText(CharLit(text)) + rest);
    QuotedOf(text, '\'', rest);
  }

  lemma RawHead(hashes: nat, close: string)
    ensures var s := "r" + (HashText(hashes) + ("\"" + close));
      StartsRaw(s) && CommentLen(s) == 0 && LiteralLen(s) == 2 + hashes + RawLen(close, hashes)
  {
    var s := "r" + (HashText(hashes) + ("\"" + close));
    assert s[1..] == HashText(hashes) + ("\"" + close);
    HashesOf(hashes, "\"" + close);
    assert s[1 + hashes] == '"' && s[2 + hashes..] == close;
  }

  lemma RawFound(hashes: nat, body: string, rest: string)
    requires RawOk(body, hashes)
    ensures var s := SegmentText(Raw(hashes, body)) + rest;
      CommentLen(s) == 0 && LiteralLen(s) == |SegmentText(Raw(hashes, body))|
  {
    RawShape(HashText(hashes), body, rest);
    RawHead(hashes, body + ("\"" + (HashText(hashes) + rest)));
    RawOf(body, hashes, rest);
  }

  lemma PieceSplit(piece: string, rest: string)
    ensures (piece + rest)[..|piece|] == piece && (piece + rest)[|piece|..] == rest
  {
  }

  lemma SegmentStripped(segment: Segment, rest: string)
    requires SegmentOk(segment, rest)
    ensures Strip(SegmentText(segment) + rest) ==
            (if IsComment(segment) then Newlines(SegmentText(segment)) else SegmentText(segment)) + Strip(rest)
  {
    var s := SegmentText(segment) + rest;
    PieceSplit(SegmentText(segment), rest);
    match segment
    case Code(ch) =>
      PlainCodeOpensNothing(ch, rest);
      assert CommentLen(s) == 0 && LiteralLen(s) == 0;
    case LineComment(_) =>
      CommentFound(segment, rest);
      CommentHead(s);
    case BlockComment(_) =>
      CommentFound(segment, rest);
      CommentHead(s);
    case Str(text) =>
      StringFound(text, rest);
      LiteralHead(s);
    case Raw(hashes, body) =>
      RawFound(hashes, body, rest);
      LiteralHead(s);
    case CharLit(text) =>
      CharFound(text, rest);
      LiteralHead(s);
  }

  /** Of every source written from well-formed pieces the stripper returns exactly the
      pieces that are not comments, in order and untouched, and the comments' newlines. */
  lemma {:induction false} StripInvertsRendering(segments: seq<Segment>)
    requires WellFormed(segments)
    ensures Strip(Text(segments)) == WithoutComments(segments)
  {
    if segments != [] {
      SegmentStripped(segments[0], Text(segments[1..]));
      StripInvertsRendering(segments[1..]);
    }
  }
}
