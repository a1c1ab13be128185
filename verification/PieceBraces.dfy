/** The brace scan over sources written out from well-formed pieces
    (`matching_brace`, src-tauri/src/compliance.rs): braces in literals are not seen, and
    the brace found is the one that the code's own braces close. */
module PieceBraces {
  import opened Wrappers
  import opened RustScanner
  import opened ScannerRendering
  import opened StringLiterals
  import opened BraceScan

  function Spaces(n: nat): (s: string)
    ensures |s| == n && forall i :: 0 <= i < n ==> s[i] == ' '
  {
    if n == 0 then "" else [' '] + Spaces(n - 1)
  }

  lemma {:induction false} BlankIsSpaces(n: nat)
    ensures Blank(n) == Spaces(n)
  {
    if n > 0 {
      BlankIsSpaces(n - 1);
    }
  }

  /** The pieces with every literal blanked out, code as it stands. */
  function CodeAlone(segments: seq<Segment>): string {
    if segments == [] then ""
    else
      (if segments[0].Code? then [segments[0].ch] else Spaces(|SegmentText(segments[0])|))
      + CodeAlone(segments[1..])
  }

  lemma LiteralFound(segment: Segment, rest: string)
    requires SegmentOk(segment, rest) && !IsComment(segment) && !segment.Code?
    ensures LiteralLen(SegmentText(segment) + rest) == |SegmentText(segment)| > 0
  {
    match segment
    case Str(text) => StringFound(text, rest);
    case Raw(hashes, body) => RawFound(hashes, body, rest);
    case CharLit(text) => CharFound(text, rest);
  }

  lemma CodeIsNoLiteral(ch: char, rest: string)
    requires PlainCode(ch, rest)
    ensures LiteralLen([ch] + rest) == 0
  {
    PlainCodeOpensNothing(ch, rest);
  }

  lemma MaskedLiteral(s: string, n: nat)
    requires 0 < n == LiteralLen(s)
    ensures Masked(s) == Blank(n) + Masked(s[n..])
  {
  }

  lemma MaskedCode(ch: char, rest: string)
    requires LiteralLen([ch] + rest) == 0
    ensures Masked([ch] + rest) == [ch] + Masked(rest)
  {
    assert ([ch] + rest)[1..] == rest;
  }

  lemma FirstIsNoComment(segments: seq<Segment>)
    requires segments != [] && CommentFree(segments)
    ensures !IsComment(segments[0]) && CommentFree(segments[1..])
  {
    assert forall i :: 0 <= i < |segments[1..]| ==> segments[1..][i] == segments[i + 1];
  }

  /** Of every source of well-formed pieces without comments the scan sees the code and
      nothing in a literal. */
  lemma {:induction false} MaskedIsTheCode(segments: seq<Segment>)
    requires WellFormed(segments) && CommentFree(segments)
    ensures Masked(Text(segments)) == CodeAlone(segments)
  {
    hide Masked, LiteralLen, CommentFree, SegmentOk, SegmentText;
    if segments == [] {
      NothingMasked();
      return;
    }
    var first, rest := segments[0], Text(segments[1..]);
    FirstIsNoComment(segments);
    WellFormedOn(segments);
    MaskedIsTheCode(segments[1..]);
    if first.Code? {
      CodePiece(first.ch, rest);
    } else {
      LiteralPiece(first, rest);
    }
  }

  lemma NothingMasked()
    ensures Masked("") == ""
  {
  }

  lemma CodePiece(ch: char, rest: string)
    requires SegmentOk(Code(ch), rest)
    ensures SegmentText(Code(ch)) == [ch] && Masked([ch] + rest) == [ch] + Masked(rest)
  {
    hide Masked, LiteralLen, PlainCode;
    CodeIsNoLiteral(ch, rest);
    MaskedCode(ch, rest);
  }

  lemma LiteralPiece(segment: Segment, rest: string)
    requires SegmentOk(segment, rest) && !IsComment(segment) && !segment.Code?
    ensures Masked(SegmentText(segment) + rest) == Spaces(|SegmentText(segment)|) + Masked(rest)
  {
    hide Masked, LiteralLen, SegmentText, SegmentOk;
    var s := SegmentText(segment) + rest;
    LiteralFound(segment, rest);
    MaskedLiteral(s, |SegmentText(segment)|);
    PieceSplit(SegmentText(segment), rest);
    BlankIsSpaces(|SegmentText(segment)|);
  }

  // ── The brace that closes ─────────────────────────────────────────────────

  /** What a piece adds to the depth: a brace of the code, and nothing else. */
  function Weight(segment: Segment): int {
    if segment == Code('{') then 1 else if segment == Code('}') then -1 else 0
  }

  function Balance(segments: seq<Segment>): int {
    if segments == [] then 0 else Weight(segments[0]) + Balance(segments[1..])
  }

  /** The braces open less those closed, after the piece at `p`. */
  function DepthAt(segments: seq<Segment>, p: nat): int
    requires p < |segments|
  {
    Balance(segments[..p + 1])
  }

  lemma DepthOn(segments: seq<Segment>, p: nat)
    requires p < |segments|
    ensures DepthAt(segments, p) == Weight(segments[0]) + if p == 0 then 0 else DepthAt(segments[1..], p - 1)
  {
    var upTo := segments[..p + 1];
    assert upTo[0] == segments[0] && upTo[1..] == segments[1..][..p];
    if p > 0 {
      assert segments[1..][..p] == segments[1..][..p - 1 + 1];
    } else {
      assert Balance(upTo) == Weight(segments[0]) + Balance([]);
    }
  }

  /** The pieces before `q` leave a brace open. */
  ghost predicate OpenUpTo(segments: seq<Segment>, depth: nat, q: nat)
    requires q <= |segments|
  {
    forall p :: 0 <= p < q ==> depth + DepthAt(segments, p) > 0
  }

  lemma OpenOn(segments: seq<Segment>, depth: nat, q: nat)
    requires 0 < q <= |segments| && OpenUpTo(segments, depth, q)
    ensures depth + Weight(segments[0]) > 0
    ensures OpenUpTo(segments[1..], depth + Weight(segments[0]), q - 1)
  {
    hide DepthAt, Weight;
    assert depth + DepthAt(segments, 0) > 0;
    DepthOn(segments, 0);
    forall p | 0 <= p < q - 1
      ensures depth + Weight(segments[0]) + DepthAt(segments[1..], p) > 0
    {
      assert depth + DepthAt(segments, p + 1) > 0;
      DepthOn(segments, p + 1);
    }
  }

  /** One piece scanned. */
  lemma PieceScanned(c: string, i: nat, segment: Segment, rest: string, depth: nat)
    requires i <= |c| && c[i..] == SegmentText(segment) + rest && Scanning(c, i, depth)
    requires SegmentOk(segment, rest) && !IsComment(segment)
    ensures var n := |SegmentText(segment)|;
      && i < i + n <= |c| && c[i + n..] == rest
      && Closing(c, i, depth) == if depth + Weight(segment) == 0 then Some(i) else Closing(c, i + n, depth + Weight(segment))
  {
    hide LiteralLen, SegmentOk;
    PieceSplit(SegmentText(segment), rest);
    if segment.Code? {
      CodePieceFound(segment.ch, rest);
      Slide(c, i, 1);
      assert c[i] == c[i..][0] == segment.ch;
    } else {
      hide SegmentText;
      LiteralFound(segment, rest);
      Slide(c, i, |SegmentText(segment)|);
      LiteralIsNotOnABrace(c, i);
    }
  }

  lemma CodePieceFound(ch: char, rest: string)
    requires SegmentOk(Code(ch), rest)
    ensures LiteralLen([ch] + rest) == 0
  {
    CodeIsNoLiteral(ch, rest);
  }

  lemma LiteralIsNotOnABrace(c: string, i: nat)
    requires i < |c| && LiteralLen(c[i..]) > 0
    ensures c[i] != '{'
  {
  }

  /** From an opening brace on, or from inside one, the brace found is the piece of code at
      which the code's braces are first all closed, whatever the literals between hold;
      none is found exactly when they never are. */
  lemma {:induction false} BraceFoundIsTheCodes(c: string, i: nat, segments: seq<Segment>, depth: nat, q: nat)
    requires i <= |c| && c[i..] == Text(segments) && WellFormed(segments) && CommentFree(segments)
    requires Scanning(c, i, depth) && q <= |segments| && OpenUpTo(segments, depth, q)
    requires q < |segments| ==> depth + DepthAt(segments, q) == 0
    ensures Closing(c, i, depth) == if q < |segments| then Some(i + |Text(segments[..q])|) else None
    decreases |segments|
  {
    hide LiteralLen, CommentFree, SegmentOk, SegmentText, Closing, DepthAt, Weight, OpenUpTo;
    if segments == [] {
      NothingFound(c, i, depth);
      return;
    }
    var first, rest := segments[0], segments[1..];
    FirstIsNoComment(segments);
    WellFormedOn(segments);
    PieceScanned(c, i, first, Text(rest), depth);
    if q == 0 {
      DepthOn(segments, 0);
      assert Text(segments[..0]) == "";
    } else {
      OpenOn(segments, depth, q);
      if q < |segments| {
        DepthOn(segments, q);
      }
      var n := |SegmentText(first)|;
      BraceFoundIsTheCodes(c, i + n, rest, depth + Weight(first), q - 1);
      assert segments[..q][0] == first && segments[..q][1..] == rest[..q - 1];
    }
  }

  lemma NothingFound(c: string, i: nat, depth: nat)
    requires i == |c| && Scanning(c, i, depth)
    ensures Closing(c, i, depth) == None
  {
  }

  // ── A quote that is no literal's ──────────────────────────────────────────

  /** A lifetime's quote is kept and hides nothing that follows it. */
  lemma LifetimeQuoteIsCode(rest: string)
    requires rest != "" ==> rest[0] != '\\'
    requires |rest| > 1 ==> rest[1] != '\''
    ensures Strip("'" + rest) == "'" + Strip(rest)
    ensures Masked("'" + rest) == "'" + Masked(rest)
  {
    hide Masked, LiteralLen, Strip;
    SegmentStripped(Code('\''), rest);
    CodePiece('\'', rest);
    assert "'" == ['\''];
  }

  /** No character of a name opens anything. */
  predicate NameOnly(name: string) {
    forall i :: 0 <= i < |name| ==> name[i] !in {'/', '\'', '"', '\\', '#'}
  }

  lemma {:induction false} NameIsKept(name: string, rest: string)
    requires NameOnly(name) && rest != "" && rest[0] == ' '
    ensures Strip(name + rest) == name + Strip(rest)
  {
    hide Strip;
    if name == "" {
      assert name + rest == rest;
    } else {
      var after := name[1..] + rest;
      assert after[0] == if |name| > 1 then name[1] else ' ';
      assert PlainCode(name[0], after);
      SegmentStripped(Code(name[0]), after);
      assert name + rest == [name[0]] + after;
      NameIsKept(name[1..], rest);
      assert [name[0]] + (name[1..] + Strip(rest)) == name + Strip(rest);
    }
  }

  /** A comment after a lifetime is a comment. */
  lemma CommentAfterLifetime(name: string, line: string)
    requires name != "" && NameOnly(name) && '\n' !in line
    ensures Strip("'" + (name + (" " + ("//" + line)))) == "'" + (name + " ")
  {
    hide Strip;
    var comment := "//" + line;
    var rest := name + (" " + comment);
    assert rest[0] == name[0] && rest[1] == if |name| > 1 then name[1] else ' ';
    LifetimeQuoteIsCode(rest);
    NameIsKept(name, " " + comment);
    SegmentStripped(Code(' '), comment);
    assert [' '] + comment == " " + comment;
    SegmentStripped(LineComment(line), "");
    assert comment + "" == comment;
    NoNewlines(comment);
    NothingStripped();
  }

  lemma {:induction false} NoNewlines(s: string)
    requires '\n' !in s
    ensures Newlines(s) == ""
  {
    if s != "" {
      NoNewlines(s[1..]);
    }
  }

  lemma NothingStripped()
    ensures Strip("") == ""
  {
  }
}
