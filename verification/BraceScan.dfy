/** The literal-aware brace matcher (`matching_brace`, src-tauri/src/compliance.rs). */
module BraceScan {
  import opened Wrappers
  import opened RustScanner

  function Blank(n: nat): (s: string)
    ensures |s| == n
  {
    if n == 0 then "" else " " + Blank(n - 1)
  }

  /** The text with every string and char literal blanked out, at its own length. */
  function Masked(s: string): (m: string)
    ensures |m| == |s|
    decreases |s|
  {
    if s == "" then ""
    else if LiteralLen(s) > 0 then Blank(LiteralLen(s)) + Masked(s[LiteralLen(s)..])
    else [s[0]] + Masked(s[1..])
  }

  /** Opening braces less closing ones. */
  function Level(m: string): int {
    if m == "" then 0 else (if m[0] == '{' then 1 else if m[0] == '}' then -1 else 0) + Level(m[1..])
  }

  /** The brace depth just after index `k`, literals not counted. */
  function DepthAfter(s: string, k: nat): int
    requires k < |s|
  {
    Level(Masked(s)[..k + 1])
  }

  /** `k` is the first index after which the depth, `depth` before the text, is zero. */
  ghost predicate ClosesAt(s: string, depth: nat, k: nat) {
    k < |s| && depth + DepthAfter(s, k) == 0 && StaysOpen(s, depth, k)
  }

  ghost predicate StaysOpen(s: string, depth: nat, end: nat)
    requires end <= |s|
  {
    forall j :: 0 <= j < end ==> depth + DepthAfter(s, j) > 0
  }

  // ── What the scan finds ───────────────────────────────────────────────────

  lemma {:induction false} LevelOfBlank(n: nat, m: string)
    ensures Level(Blank(n) + m) == Level(m)
  {
    if n == 0 {
      assert Blank(n) + m == m;
    } else {
      LevelOfBlank(n - 1, m);
      assert Blank(n) + m == [' '] + (Blank(n - 1) + m);
    }
  }

  lemma {:induction false} BlankPrefix(n: nat, j: nat)
    requires j <= n
    ensures Blank(n)[..j] == Blank(j)
  {
    if j > 0 {
      BlankPrefix(n - 1, j - 1);
      assert Blank(n)[..j] == [Blank(n)[0]] + Blank(n)[1..][..j - 1];
    }
  }

  /** Within a literal the depth stands still; after it, the rest counts. */
  lemma DepthOverLiteral(s: string, k: nat)
    requires k < |s| && LiteralLen(s) > 0
    ensures DepthAfter(s, k) == if k < LiteralLen(s) then 0 else DepthAfter(s[LiteralLen(s)..], k - LiteralLen(s))
  {
    var n := LiteralLen(s);
    var rest := Masked(s[n..]);
    if k < n {
      assert (Blank(n) + rest)[..k + 1] == Blank(n)[..k + 1];
      BlankPrefix(n, k + 1);
      assert Blank(k + 1) == Blank(k + 1) + "";
      LevelOfBlank(k + 1, "");
    } else {
      assert (Blank(n) + rest)[..k + 1] == Blank(n) + rest[..k - n + 1];
      LevelOfBlank(n, rest[..k - n + 1]);
    }
  }

  /** What one character of code adds to the depth. */
  function Step(ch: char): int {
    if ch == '{' then 1 else if ch == '}' then -1 else 0
  }

  lemma DepthOverCode(s: string, k: nat)
    requires k < |s| && LiteralLen(s) == 0
    ensures DepthAfter(s, k) == Step(s[0]) + if k == 0 then 0 else DepthAfter(s[1..], k - 1)
  {
    var m := Masked(s)[..k + 1];
    assert m[0] == s[0] && m[1..] == Masked(s[1..])[..k];
    if k > 0 {
      assert Masked(s[1..])[..k] == Masked(s[1..])[..k - 1 + 1];
    } else {
      assert m[1..] == "" && Level(m[1..]) == 0;
    }
  }

  /** The scan is inside a brace, or on one. */
  predicate Scanning(c: string, i: nat, depth: nat) {
    depth > 0 || (i < |c| && c[i] == '{')
  }

  /** Where the scan, at index `i` and `depth` braces deep, finds the last one closed. */
  function Closing(c: string, i: nat, depth: nat): (close: Option<nat>)
    requires Scanning(c, i, depth)
    ensures close.Some? ==> i <= close.value < |c|
    decreases |c| - i
  {
    if i >= |c| then None
    else if LiteralLen(c[i..]) > 0 then Closing(c, i + LiteralLen(c[i..]), depth)
    else if depth + Step(c[i]) == 0 then Some(i)
    else Closing(c, i + 1, depth + Step(c[i]))
  }

  /** What a scan of `s`, `depth` braces deep, should answer. */
  ghost predicate Answers(s: string, depth: nat, i: nat, close: Option<nat>) {
    match close
    case Some(k) => i <= k && ClosesAt(s, depth, k - i)
    case None => StaysOpen(s, depth, |s|)
  }

  lemma AnswersOverLiteral(s: string, depth: nat, i: nat, close: Option<nat>)
    requires depth > 0 && LiteralLen(s) > 0
    requires Answers(s[LiteralLen(s)..], depth, i + LiteralLen(s), close)
    ensures Answers(s, depth, i, close)
  {
    forall j | 0 <= j < |s|
      ensures DepthAfter(s, j) == if j < LiteralLen(s) then 0 else DepthAfter(s[LiteralLen(s)..], j - LiteralLen(s))
    {
      DepthOverLiteral(s, j);
    }
  }

  lemma AnswersOverCode(s: string, depth: nat, i: nat, close: Option<nat>)
    requires s != "" && LiteralLen(s) == 0 && depth + Step(s[0]) > 0
    requires Answers(s[1..], depth + Step(s[0]), i + 1, close)
    ensures Answers(s, depth, i, close)
  {
    forall j | 0 <= j < |s|
      ensures DepthAfter(s, j) == Step(s[0]) + if j == 0 then 0 else DepthAfter(s[1..], j - 1)
    {
      DepthOverCode(s, j);
    }
  }

  lemma AnswersAtOnce(s: string, i: nat)
    requires s != "" && s[0] == '}' && LiteralLen(s) == 0
    ensures Answers(s, 1, i, Some(i))
  {
    DepthOverCode(s, 0);
  }

  lemma PastLiteral(c: string, i: nat, depth: nat)
    requires i < |c| && depth > 0 && LiteralLen(c[i..]) > 0
    ensures Answers(c[i..], depth, i, Closing(c, i, depth))
    decreases |c| - i, 0
  {
    hide LiteralLen, StartsRaw, StartsString, StartsChar, Answers;
    var n := LiteralLen(c[i..]);
    Slide(c, i, n);
    ClosingMeaning(c, i + n, depth);
    AnswersOverLiteral(c[i..], depth, i, Closing(c, i + n, depth));
  }

  lemma PastCode(c: string, i: nat, depth: nat)
    requires i < |c| && Scanning(c, i, depth) && LiteralLen(c[i..]) == 0 && depth + Step(c[i]) > 0
    ensures Answers(c[i..], depth, i, Closing(c, i, depth))
    decreases |c| - i, 0
  {
    hide LiteralLen, StartsRaw, StartsString, StartsChar, Answers;
    Slide(c, i, 1);
    ClosingMeaning(c, i + 1, depth + Step(c[i]));
    AnswersOverCode(c[i..], depth, i, Closing(c, i + 1, depth + Step(c[i])));
  }

  /** The scan stops at the first index where the depth, counted outside literals, is
      back to zero, and finds none only when the depth never is. */
  lemma {:induction false} ClosingMeaning(c: string, i: nat, depth: nat)
    requires i <= |c| && Scanning(c, i, depth)
    ensures Answers(c[i..], depth, i, Closing(c, i, depth))
    decreases |c| - i, 1
  {
    if i < |c| {
      if LiteralLen(c[i..]) > 0 {
        PastLiteral(c, i, depth);
      } else if depth + Step(c[i]) > 0 {
        PastCode(c, i, depth);
      } else {
        AnswersAtOnce(c[i..], i);
      }
    }
  }

  // ── The scan ──────────────────────────────────────────────────────────────

  /** One turn past a literal, when there is one at `i`. */
  method SkipLiteral(c: string, i: nat, ghost depth: nat) returns (next: nat)
    requires i < |c| && Scanning(c, i, depth)
    ensures i <= next <= |c| + 1
    ensures next > i ==> depth > 0 && Closing(c, i, depth) == Closing(c, next, depth)
    ensures next == i ==>
              Closing(c, i, depth) == if depth + Step(c[i]) == 0 then Some(i) else Closing(c, i + 1, depth + Step(c[i]))
  {
    var scratch;
    next, scratch := CopyLiteral(c, i, "");
  }

  /** One turn of the scan; `after` is zero when it has found the closing brace. */
  method Turn(c: string, i: nat, depth: nat, ghost answer: Option<nat>) returns (next: nat, after: nat)
    requires i < |c| && Scanning(c, i, depth) && Closing(c, i, depth) == answer
    ensures i < next <= |c| + 1
    ensures if after == 0 then answer == Some(i) else Closing(c, next, after) == answer
  {
    hide Closing, LiteralLen, StartsRaw, StartsString, StartsChar;
    after := depth;
    next := SkipLiteral(c, i, depth);
    if next > i {
      return;
    }
    if c[i] == '{' {
      after := depth + 1;
    } else if c[i] == '}' {
      after := depth - 1;
    }
    next := i + 1;
  }

  /** Where the braces opened from `open` on are all closed. The depth never goes below
      zero, and the scan ends even when an escape carries it past the end. */
  method MatchingBrace(c: string, open: nat) returns (close: Option<nat>)
    requires open < |c| && c[open] == '{'
    ensures close == Closing(c, open, 0)
  {
    ghost var answer := Closing(c, open, 0);
    var depth, i := 0, open;
    while i < |c|
      invariant i <= |c| + 1 && Scanning(c, i, depth) && Closing(c, i, depth) == answer
      decreases |c| + 1 - i
    {
      var next, after := Turn(c, i, depth, answer);
      if after == 0 {
        return Some(i);
      }
      i, depth := next, after;
    }
    close := None;
  }
}
