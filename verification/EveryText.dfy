/** Every text, well formed or not, is well-formed pieces and then a rest that no piece
    starts: a literal or a block comment left open. So what `strip_rust_comments`
    (src-tauri/src/compliance.rs) makes of it is said for every input. */
module EveryText {
  import opened RustScanner
  import opened ScannerRendering

  /** The pieces are well formed before the text `tail`. */
  ghost predicate WellFormedBefore(segments: seq<Segment>, tail: string) {
    segments == [] ||
    (SegmentOk(segments[0], Text(segments[1..]) + tail) && WellFormedBefore(segments[1..], tail))
  }

  /** No well-formed piece starts the text. */
  ghost predicate Open(s: string) {
    forall segment, rest :: s == SegmentText(segment) + rest ==> !SegmentOk(segment, rest)
  }

  ghost predicate StartsAPiece(s: string) {
    exists segment, rest :: s == SegmentText(segment) + rest && SegmentOk(segment, rest)
  }

  // ── A block comment, read ─────────────────────────────────────────────────

  datatype Parsed<T> = Closed(inside: T, rest: string) | LeftOpen

  /** The inside of a block comment and what follows it, unless it is left open. */
  function ReadComment(s: string): (r: Parsed<Comment>)
    ensures r.Closed? ==> |r.rest| < |s|
    decreases |s|
  {
    if s == "" then LeftOpen
    else if EndsBlockComment(s) then Closed(End, s[2..])
    else if StartsBlockComment(s) then
      match ReadComment(s[2..])
      case LeftOpen => LeftOpen
      case Closed(inner, after) =>
        (match ReadComment(after)
         case LeftOpen => LeftOpen
         case Closed(more, rest) => Closed(Nested(inner, more), rest))
    else
      match ReadComment(s[1..])
      case LeftOpen => LeftOpen
      case Closed(more, rest) => Closed(Plain(s[0], more), rest)
  }

  lemma {:induction false} CommentIsRead(s: string)
    requires ReadComment(s).Closed?
    ensures var r := ReadComment(s); CommentOk(r.inside) && s == CommentText(r.inside) + ("*/" + r.rest)
    decreases |s|
  {
    if EndsBlockComment(s) {
      assert s == "" + ("*/" + s[2..]);
    } else if StartsBlockComment(s) {
      var inner := ReadComment(s[2..]);
      CommentIsRead(s[2..]);
      CommentIsRead(inner.rest);
      var more := ReadComment(inner.rest);
      Nests(s, CommentText(inner.inside), inner.rest, CommentText(more.inside), more.rest);
    } else {
      CommentIsRead(s[1..]);
      var more := ReadComment(s[1..]);
      Follows(s, 1, CommentText(more.inside), "*/" + more.rest);
      assert s[..1] == [s[0]];
      assert (CommentText(more.inside) + "*/")[0] == s[1..][0];
    }
  }

  lemma Nests(s: string, inner: string, after: string, more: string, rest: string)
    requires StartsBlockComment(s) && s[2..] == inner + ("*/" + after) && after == more + ("*/" + rest)
    ensures s == "/*" + (inner + ("*/" + more)) + ("*/" + rest)
  {
    assert s == "/*" + s[2..];
    assert s[2..] == (inner + ("*/" + more)) + ("*/" + rest);
  }

  /** A comment left open runs to the end, however deep in comments it already is. */
  lemma {:induction false} OpenCommentRuns(s: string, depth: nat)
    requires ReadComment(s).LeftOpen? && depth > 0
    ensures BlockLen(s, depth) == |s|
    decreases |s|
  {
    if s != "" {
      if StartsBlockComment(s) {
        var inner := ReadComment(s[2..]);
        if inner.LeftOpen? {
          OpenCommentRuns(s[2..], depth + 1);
        } else {
          CommentIsRead(s[2..]);
          BlockOfComment(inner.inside, depth + 1, "*/" + inner.rest);
          BlockMarks(inner.rest, depth + 1);
          OpenCommentRuns(inner.rest, depth);
        }
      } else {
        OpenCommentRuns(s[1..], depth);
      }
    }
  }

  // ── A quoted literal, read ────────────────────────────────────────────────

  function ReadQuoted(s: string, delim: char): (r: Parsed<Quoted>)
    ensures r.Closed? ==> |r.rest| < |s|
    decreases |s|
  {
    if s == "" then LeftOpen
    else if s[0] == '\\' then
      if |s| == 1 then LeftOpen
      else
        match ReadQuoted(s[2..], delim)
        case LeftOpen => LeftOpen
        case Closed(more, rest) => Closed(Escape(s[1], more), rest)
    else if s[0] == delim then Closed(Done, s[1..])
    else
      match ReadQuoted(s[1..], delim)
      case LeftOpen => LeftOpen
      case Closed(more, rest) => Closed(Char(s[0], more), rest)
  }

  lemma {:induction false} QuotedIsRead(s: string, delim: char)
    requires ReadQuoted(s, delim).Closed? && delim != '\\'
    ensures var r := ReadQuoted(s, delim); QuotedOk(r.inside, delim) && s == QuotedText(r.inside) + ([delim] + r.rest)
    decreases |s|
  {
    hide QuotedLen;
    if s[0] == '\\' {
      var more := ReadQuoted(s[2..], delim);
      QuotedIsRead(s[2..], delim);
      Follows(s, 2, QuotedText(more.inside), [delim] + more.rest);
      assert s[..2] == ['\\', s[1]];
    } else if s[0] == delim {
      assert s == "" + ([delim] + s[1..]);
    } else {
      var more := ReadQuoted(s[1..], delim);
      QuotedIsRead(s[1..], delim);
      Follows(s, 1, QuotedText(more.inside), [delim] + more.rest);
      assert s[..1] == [s[0]];
    }
  }

  lemma Follows(s: string, n: nat, inside: string, after: string)
    requires n <= |s| && s[n..] == inside + after
    ensures s == (s[..n] + inside) + after
  {
    assert s == s[..n] + s[n..];
  }

  lemma {:induction false} OpenQuotedRuns(s: string, delim: char)
    requires ReadQuoted(s, delim).LeftOpen?
    ensures QuotedLen(s, delim) == |s|
    decreases |s|
  {
    if s != "" {
      if s[0] != '\\' {
        OpenQuotedRuns(s[1..], delim);
      } else if |s| > 1 {
        OpenQuotedRuns(s[2..], delim);
      }
    }
  }

  // ── A raw string, read ────────────────────────────────────────────────────

  /** Enough hashes follow the quote at `k` to close a raw string there. */
  predicate ClosesAtHashes(s: string, k: nat, hashes: nat) {
    k + hashes < |s| && s[k] == '"' && forall j :: k < j <= k + hashes ==> s[j] == '#'
  }

  lemma ClosesRawIs(s: string, k: nat, hashes: nat)
    requires k < |s|
    ensures ClosesRaw(s[k..], hashes) <==> ClosesAtHashes(s, k, hashes)
  {
    var t := s[k..][1..];
    assert t == s[k + 1..];
    HashesAre(t);
    if ClosesAtHashes(s, k, hashes) && Hashes(t) < hashes {
      assert s[k + 1 + Hashes(t)] == '#';
    }
  }

  /** Where a raw string's closing quote is, after its opening one. */
  function RawClose(s: string, k: nat, hashes: nat): (close: nat)
    requires k <= |s|
    ensures k <= close <= |s| && (close < |s| ==> ClosesAtHashes(s, close, hashes))
    ensures forall j :: k <= j < close ==> !ClosesAtHashes(s, j, hashes)
    decreases |s| - k
  {
    if k == |s| || ClosesAtHashes(s, k, hashes) then k else RawClose(s, k + 1, hashes)
  }

  lemma {:induction false} RawRuns(s: string, k: nat, hashes: nat)
    requires k <= |s|
    ensures var close := RawClose(s, k, hashes);
      RawLen(s[k..], hashes) == (if close < |s| then close + 1 + hashes else |s|) - k
    decreases |s| - k
  {
    if k < |s| {
      ClosesRawIs(s, k, hashes);
      if !ClosesAtHashes(s, k, hashes) {
        assert s[k..][1..] == s[k + 1..];
        RawRuns(s, k + 1, hashes);
      }
    }
  }

  lemma {:induction false} HashTextIs(n: nat, s: string)
    requires |s| == n && forall k :: 0 <= k < n ==> s[k] == '#'
    ensures HashText(n) == s
  {
    if n > 0 {
      HashTextIs(n - 1, s[1..]);
    }
  }

  /** The body up to the first quote that closes is well formed. */
  lemma BodyIsOk(s: string, hashes: nat)
    requires RawClose(s, 0, hashes) < |s|
    ensures RawOk(s[..RawClose(s, 0, hashes)], hashes)
  {
    var close := RawClose(s, 0, hashes);
    var body := s[..close];
    forall k | 0 <= k < |body| && body[k] == '"'
      ensures exists j :: k < j <= k + hashes && NoHashAt(body, j)
    {
      assert !ClosesAtHashes(s, k, hashes);
      if k + hashes < close {
        var j :| k < j <= k + hashes && s[j] != '#';
        assert NoHashAt(body, j);
      } else {
        assert NoHashAt(body, close);
      }
    }
  }

  // ── The piece a text starts with ──────────────────────────────────────────

  lemma APiece(s: string, segment: Segment, rest: string)
    requires s == SegmentText(segment) + rest && SegmentOk(segment, rest)
    ensures StartsAPiece(s)
  {
  }

  lemma LinePiece(s: string)
    requires StartsLineComment(s)
    ensures StartsAPiece(s)
  {
    var line := s[2..LineLen(s)];
    NoNewlineInLine(s);
    assert SegmentText(LineComment(line)) == s[..LineLen(s)];
    assert s == s[..LineLen(s)] + s[LineLen(s)..];
    APiece(s, LineComment(line), s[LineLen(s)..]);
  }

  lemma {:induction false} NoNewlineInLine(s: string)
    ensures forall k :: 0 <= k < LineLen(s) ==> s[k] != '\n'
    ensures StartsLineComment(s) ==> LineLen(s) >= 2
  {
    if s != "" && s[0] != '\n' {
      NoNewlineInLine(s[1..]);
      assert forall k :: 0 < k < |s| ==> s[k] == s[1..][k - 1];
    }
  }

  lemma BlockIsWritten(s: string, comment: Comment, rest: string)
    requires StartsBlockComment(s) && s[2..] == CommentText(comment) + ("*/" + rest)
    ensures s == SegmentText(BlockComment(comment)) + rest
  {
    hide CommentText;
    assert s == "/*" + s[2..];
  }

  /** A block comment is a piece, or left open and then it runs to the end. */
  lemma BlockPiece(s: string)
    requires StartsBlockComment(s)
    ensures StartsAPiece(s) || CommentLen(s) == |s|
  {
    hide ReadComment, CommentText, CommentOk, BlockLen, LineLen, SegmentText;
    var r := ReadComment(s[2..]);
    if r.Closed? {
      CommentIsRead(s[2..]);
      BlockIsWritten(s, r.inside, r.rest);
      APiece(s, BlockComment(r.inside), r.rest);
    } else {
      OpenCommentRuns(s[2..], 1);
      BlockHead(s);
    }
  }

  lemma StringPiece(s: string)
    requires StartsString(s)
    ensures StartsAPiece(s) || LiteralLen(s) == |s|
  {
    var r := ReadQuoted(s[1..], '"');
    if r.Closed? {
      QuotedIsRead(s[1..], '"');
      assert s == "\"" + s[1..];
      assert s == SegmentText(Str(r.inside)) + r.rest;
      APiece(s, Str(r.inside), r.rest);
    } else {
      OpenQuotedRuns(s[1..], '"');
      QuotedHead(s);
    }
  }

  lemma CharPiece(s: string)
    requires StartsChar(s)
    ensures StartsAPiece(s) || LiteralLen(s) == |s|
  {
    var r := ReadQuoted(s[1..], '\'');
    if r.Closed? {
      QuotedIsRead(s[1..], '\'');
      CharReadIsShaped(s);
      assert s == "'" + s[1..];
      assert s == SegmentText(CharLit(r.inside)) + r.rest;
      APiece(s, CharLit(r.inside), r.rest);
    } else {
      OpenQuotedRuns(s[1..], '\'');
      QuotedHead(s);
    }
  }

  lemma CharReadIsShaped(s: string)
    requires StartsChar(s) && ReadQuoted(s[1..], '\'').Closed?
    ensures var r := ReadQuoted(s[1..], '\''); CharShaped(r.inside, r.rest)
  {
    var t := s[1..];
    if t[0] != '\\' {
      assert t[1] == s[2] == '\'';
      if t[0] != '\'' {
        assert ReadQuoted(t[1..], '\'') == Closed(Done, t[1..][1..]);
      }
    }
  }

  lemma RawPiece(s: string)
    requires StartsRaw(s)
    ensures StartsAPiece(s) || LiteralLen(s) == |s|
  {
    var hashes := Hashes(s[1..]);
    var t := s[2 + hashes..];
    var close := RawClose(t, 0, hashes);
    RawRuns(t, 0, hashes);
    assert t[0..] == t;
    RawReaches(s);
    if close < |t| {
      var body, rest := t[..close], t[close + 1 + hashes..];
      BodyIsOk(t, hashes);
      RawIsWritten(s, hashes, close);
      APiece(s, Raw(hashes, body), rest);
    }
  }

  lemma RawReaches(s: string)
    requires StartsRaw(s)
    ensures var h := Hashes(s[1..]); CommentLen(s) == 0 && LiteralLen(s) == 2 + h + RawLen(s[2 + h..], h)
  {
  }

  lemma RawIsWritten(s: string, hashes: nat, close: nat)
    requires StartsRaw(s) && hashes == Hashes(s[1..])
    requires close < |s[2 + hashes..]| && ClosesAtHashes(s[2 + hashes..], close, hashes)
    ensures var t := s[2 + hashes..];
      s == SegmentText(Raw(hashes, t[..close])) + t[close + 1 + hashes..]
  {
    var t := s[2 + hashes..];
    var fence := HashText(hashes);
    FencesAreHashes(s, hashes, close);
    hide Hashes, HashText, ClosesAtHashes;
    Fences(s, hashes, fence);
    QuoteInside(t, close, fence);
    RawSpelled(hashes, t, t[..close], t[close + 1 + hashes..]);
  }

  lemma RawSpelled(hashes: nat, t: string, body: string, rest: string)
    requires t == body + ("\"" + (HashText(hashes) + rest))
    ensures SegmentText(Raw(hashes, body)) + rest == "r" + (HashText(hashes) + ("\"" + t))
  {
    RawShape(HashText(hashes), body, rest);
  }

  lemma FencesAreHashes(s: string, hashes: nat, close: nat)
    requires StartsRaw(s) && hashes == Hashes(s[1..])
    requires close < |s[2 + hashes..]| && ClosesAtHashes(s[2 + hashes..], close, hashes)
    ensures s[1..1 + hashes] == HashText(hashes)
    ensures s[2 + hashes..][close + 1..close + 1 + hashes] == HashText(hashes)
  {
    var open, fence := s[1..1 + hashes], s[2 + hashes..][close + 1..close + 1 + hashes];
    HashesAre(s[1..]);
    assert forall k :: 0 <= k < hashes ==> open[k] == s[1..][k];
    HashTextIs(hashes, open);
    HashTextIs(hashes, fence);
  }

  lemma Fences(s: string, hashes: nat, open: string)
    requires 2 + hashes <= |s| && s[0] == 'r' && s[1 + hashes] == '"' && open == s[1..1 + hashes]
    ensures s == "r" + (open + ("\"" + s[2 + hashes..]))
  {
    assert s[1 + hashes..] == "\"" + s[2 + hashes..];
    assert s == "r" + (open + s[1 + hashes..]);
  }

  lemma QuoteInside(t: string, close: nat, fence: string)
    requires close < |t| && t[close] == '"' && close + 1 + |fence| <= |t|
    requires fence == t[close + 1..close + 1 + |fence|]
    ensures t == t[..close] + ("\"" + (fence + t[close + 1 + |fence|..]))
  {
    assert t[close + 1..] == fence + t[close + 1 + |fence|..];
    assert t[close..] == "\"" + t[close + 1..];
  }

  lemma CodePiece(s: string)
    requires s != "" && !Opens(s)
    ensures StartsAPiece(s)
  {
    assert s == [s[0]] + s[1..];
    PlainCodeOpensNothing(s[0], s[1..]);
    APiece(s, Code(s[0]), s[1..]);
  }

  // ── What is left open ─────────────────────────────────────────────────────

  lemma OpenStartsNoPiece(s: string)
    ensures Open(s) <==> !StartsAPiece(s)
  {
  }

  /** A text no piece starts is a block comment or a literal left open, and the stripper
      keeps of the one its newlines and of the other all. */
  lemma OpenIsStripped(open: string)
    requires Open(open)
    ensures Strip(open) == if "/*" <= open then Newlines(open) else open
  {
    hide Open, StartsAPiece, Strip, LiteralLen, CommentLen, StartsRaw;
    OpenStartsNoPiece(open);
    if open == "" {
      StripNothing();
    } else if StartsLineComment(open) {
      LinePiece(open);
      assert false;
    } else if StartsBlockComment(open) {
      BlockPiece(open);
      StripAllComment(open);
    } else {
      if StartsRaw(open) {
        RawPiece(open);
      } else if StartsString(open) {
        StringPiece(open);
      } else if StartsChar(open) {
        CharPiece(open);
      } else {
        CodePiece(open);
      }
      StripAllLiteral(open);
    }
  }

  lemma StripNothing()
    ensures Strip("") == "" && !("/*" <= "")
  {
  }

  lemma StripAllComment(s: string)
    requires s != "" && CommentLen(s) == |s|
    ensures Strip(s) == Newlines(s)
  {
    assert s[..|s|] == s && s[|s|..] == "";
    CommentHead(s);
    StripNothing();
    assert Newlines(s) + "" == Newlines(s);
  }

  lemma StripAllLiteral(s: string)
    requires s != "" && CommentLen(s) == 0 && LiteralLen(s) == |s|
    ensures Strip(s) == s
  {
    assert s[..|s|] == s && s[|s|..] == "";
    LiteralHead(s);
    StripNothing();
    assert s + "" == s;
  }

  // ── Every text ────────────────────────────────────────────────────────────

  lemma {:induction false} TextBefore(segments: seq<Segment>, tail: string)
    requires segments != []
    ensures Text(segments) + tail == SegmentText(segments[0]) + (Text(segments[1..]) + tail)
  {
  }

  /** Whatever the pieces and whatever is left open after them, the stripper returns the
      pieces that are not comments, the comments' newlines, and of what is left open a
      literal as it stands or a comment's newlines. */
  lemma {:induction false} StripOfEveryText(segments: seq<Segment>, open: string)
    requires WellFormedBefore(segments, open) && Open(open)
    ensures Strip(Text(segments) + open) ==
            WithoutComments(segments) + if "/*" <= open then Newlines(open) else open
  {
    hide Strip, SegmentOk, Open, SegmentText;
    if segments == [] {
      OpenIsStripped(open);
      assert Text(segments) + open == open;
    } else {
      var first, rest := segments[0], segments[1..];
      TextBefore(segments, open);
      SegmentStripped(first, Text(rest) + open);
      StripOfEveryText(rest, open);
    }
  }

  /** And every text is one of those. */
  lemma {:induction false} EveryTextIsPieces(s: string) returns (segments: seq<Segment>, open: string)
    ensures s == Text(segments) + open && WellFormedBefore(segments, open) && Open(open)
    decreases |s|
  {
    hide SegmentOk, SegmentText;
    OpenStartsNoPiece(s);
    if Open(s) {
      segments, open := [], s;
      assert s == Text(segments) + s;
    } else {
      var first, rest :| s == SegmentText(first) + rest && SegmentOk(first, rest);
      PieceIsSomething(first);
      var more;
      more, open := EveryTextIsPieces(rest);
      segments := [first] + more;
      assert segments[0] == first && segments[1..] == more;
      TextBefore(segments, open);
    }
  }

  lemma PieceIsSomething(segment: Segment)
    ensures |SegmentText(segment)| > 0
  {
  }
}
