/** The newest lines of a log that fit a budget (`tail_within`,
    src-tauri/src/diagnostics.rs), over UTF-8 text. */
module LogTail {
  import opened Bytes

  // ── UTF-8 (section 3 of RFC 3629) ─────────────────────────────────────────

  predicate Continuation(b: Byte) {
    0x80 <= b < 0xC0
  }

  /** One character's bytes: a lead byte, which is never a continuation, and its
      continuations. */
  function Utf8(c: char): (bytes: seq<Byte>)
    ensures 1 <= |bytes| <= 4 && !Continuation(bytes[0])
    ensures forall i :: 1 <= i < |bytes| ==> Continuation(bytes[i])
    ensures bytes[0] == NEWLINE <==> c == '\n'
  {
    var n := c as int;
    if n < 0x80 then [n]
    else if n < 0x800 then [0xC0 + n / 0x40, 0x80 + n % 0x40]
    else if n < 0x10000 then [0xE0 + n / 0x1000, 0x80 + n / 0x40 % 0x40, 0x80 + n % 0x40]
    else [0xF0 + n / 0x40000, 0x80 + n / 0x1000 % 0x40, 0x80 + n / 0x40 % 0x40, 0x80 + n % 0x40]
  }

  function Encode(text: seq<char>): seq<Byte> {
    if text == [] then [] else Utf8(text[0]) + Encode(text[1..])
  }

  predicate IsCharBoundary(s: seq<Byte>, i: nat)
    requires i <= |s|
  {
    i == |s| || !Continuation(s[i])
  }

  /** The boundaries of valid text are the offsets of its characters. */
  lemma {:induction false} BoundaryIsACharacter(text: seq<char>, i: nat) returns (k: nat)
    requires i <= |Encode(text)| && IsCharBoundary(Encode(text), i)
    ensures k <= |text| && Encode(text)[i..] == Encode(text[k..])
  {
    if i == 0 {
      k := 0;
      assert text[0..] == text;
    } else {
      var first := Utf8(text[0]);
      assert forall j :: 0 <= j < |first| ==> Encode(text)[j] == first[j];
      k := BoundaryIsACharacter(text[1..], i - |first|);
      assert Encode(text)[i..] == Encode(text[1..])[i - |first|..];
      assert text[1..][k..] == text[k + 1..];
      k := k + 1;
    }
  }

  /** After a newline comes a character, or the end. */
  lemma {:induction false} BoundaryAfterNewline(text: seq<char>, i: nat)
    requires i < |Encode(text)| && Encode(text)[i] == NEWLINE
    ensures IsCharBoundary(Encode(text), i + 1)
  {
    var first := Utf8(text[0]);
    if i < |first| {
      assert Encode(text)[i] == first[i];
      assert i == 0 && text[0] == '\n' && |first| == 1;
      if text[1..] != [] {
        assert Encode(text)[1] == Utf8(text[1..][0])[0];
      }
    } else {
      assert Encode(text)[i] == Encode(text[1..])[i - |first|];
      BoundaryAfterNewline(text[1..], i - |first|);
      assert i + 1 < |Encode(text)| ==> Encode(text)[i + 1] == Encode(text[1..])[i + 1 - |first|];
    }
  }

  // ── The function ──────────────────────────────────────────────────────────

  /** The first character boundary at or after `i`. */
  function NextBoundary(s: seq<Byte>, i: nat): (b: nat)
    requires i <= |s|
    ensures i <= b <= |s| && IsCharBoundary(s, b)
    ensures forall j :: i <= j < b ==> !IsCharBoundary(s, j)
    decreases |s| - i
  {
    if i == |s| || !Continuation(s[i]) then i else NextBoundary(s, i + 1)
  }

  /** The start of the line after the first newline at or after `i`, or `i` when there is none. */
  function NextLine(s: seq<Byte>, i: nat): (start: nat)
    requires i <= |s|
    ensures i <= start <= |s|
    ensures NEWLINE in s[i..] ==>
      start > i && s[start - 1] == NEWLINE && forall j :: i <= j < start - 1 ==> s[j] != NEWLINE
    ensures NEWLINE !in s[i..] ==> start == i
  {
    if NEWLINE !in s[i..] then i else AfterNewline(s, i)
  }

  function AfterNewline(s: seq<Byte>, i: nat): (start: nat)
    requires i <= |s| && NEWLINE in s[i..]
    ensures i < start <= |s| && s[start - 1] == NEWLINE
    ensures forall j :: i <= j < start - 1 ==> s[j] != NEWLINE
    decreases |s| - i
  {
    assert i < |s| && s[i..] == [s[i]] + s[i + 1..];
    if s[i] == NEWLINE then i + 1 else AfterNewline(s, i + 1)
  }

  /** Where the kept text starts. */
  function TailStart(s: seq<Byte>, budget: nat): (start: nat)
    ensures start <= |s|
  {
    if |s| <= budget then 0 else NextLine(s, NextBoundary(s, |s| - budget))
  }

  function TailWithin(s: seq<Byte>, budget: nat): seq<Byte> {
    s[TailStart(s, budget)..]
  }

  // ── What it keeps ─────────────────────────────────────────────────────────

  /** The result is always whole characters: a suffix of the text, within the budget,
      and all of it when it fits. */
  lemma TailIsText(text: seq<char>, budget: nat) returns (k: nat)
    ensures k <= |text| && TailWithin(Encode(text), budget) == Encode(text[k..])
    ensures |TailWithin(Encode(text), budget)| <= budget
    ensures |Encode(text)| <= budget ==> TailWithin(Encode(text), budget) == Encode(text)
  {
    var s := Encode(text);
    var start := TailStart(s, budget);
    if |s| > budget && NEWLINE in s[NextBoundary(s, |s| - budget)..] {
      BoundaryAfterNewline(text, start - 1);
    }
    k := BoundaryIsACharacter(text, start);
  }

  predicate StartsALine(s: seq<Byte>, i: nat)
    requires i <= |s|
  {
    i == 0 || s[i - 1] == NEWLINE
  }

  /** When text is cut and the window holds a newline, the result is the longest
      line-aligned suffix strictly shorter than the budget. */
  lemma TailIsLongestShorterThan(s: seq<Byte>, budget: nat, other: nat)
    requires |s| > budget && NEWLINE in s[|s| - budget..]
    ensures var start := TailStart(s, budget);
      && StartsALine(s, start) && |s| - start < budget
      && (other <= |s| && StartsALine(s, other) && |s| - other < budget ==> start <= other)
  {
    var window := |s| - budget;
    var at: nat :| window <= at < |s| && s[at] == NEWLINE;
    assert IsCharBoundary(s, at);
    var b := NextBoundary(s, window);
    assert b <= at && s[b..][at - b] == NEWLINE;
    if other <= |s| && StartsALine(s, other) && |s| - other < budget {
      assert IsCharBoundary(s, other - 1);
    }
  }

  /** When text is cut and the window holds no newline, the result is the longest suffix
      of whole characters within the budget, though it starts inside a line. */
  lemma TailOfALongLine(s: seq<Byte>, budget: nat, other: nat)
    requires |s| > budget && NEWLINE !in s[|s| - budget..]
    ensures var start := TailStart(s, budget);
      && IsCharBoundary(s, start) && |s| - start <= budget
      && (other <= |s| && IsCharBoundary(s, other) && |s| - other <= budget ==> start <= other)
  {
    var window := |s| - budget;
    var b := NextBoundary(s, window);
    assert forall j :: b <= j < |s| ==> s[j] == s[window..][j - window];
    assert NEWLINE !in s[b..];
  }

  /** `start` begins the longest suffix that fits the budget and starts on a line. */
  ghost predicate LongestFittingLines(s: seq<Byte>, budget: nat, start: nat) {
    && start <= |s| && StartsALine(s, start) && |s| - start <= budget
    && forall i :: 0 <= i < start ==> !(StartsALine(s, i) && |s| - i <= budget)
  }

  /** The documented result, the longest suffix that fits and starts on a line, is what
      comes back exactly when either the byte before the window is a newline or the
      window holds one, and not both. With both, a suffix that fits exactly loses its
      first line; with neither, no line starts in the window and the result is the
      middle of one. */
  lemma TailKeepsItsPromise(text: seq<char>, budget: nat)
    requires |Encode(text)| > budget
    ensures var s := Encode(text);
      LongestFittingLines(s, budget, TailStart(s, budget)) <==>
        ((s[|s| - budget - 1] == NEWLINE) != (NEWLINE in s[|s| - budget..]))
  {
    hide Encode;
    var s := Encode(text);
    var window := |s| - budget;
    if s[window - 1] == NEWLINE {
      BoundaryAfterNewline(text, window - 1);
    }
    KeepsItsPromise(s, budget);
  }

  lemma KeepsItsPromise(s: seq<Byte>, budget: nat)
    requires |s| > budget && (s[|s| - budget - 1] == NEWLINE ==> IsCharBoundary(s, |s| - budget))
    ensures LongestFittingLines(s, budget, TailStart(s, budget)) <==>
            ((s[|s| - budget - 1] == NEWLINE) != (NEWLINE in s[|s| - budget..]))
  {
    var window := |s| - budget;
    var start := TailStart(s, budget);
    if s[window - 1] == NEWLINE {
      assert StartsALine(s, window);
    }
    if NEWLINE in s[window..] {
      TailIsLongestShorterThan(s, budget, start);
      forall i | 0 <= i < start && i != window
        ensures !(StartsALine(s, i) && |s| - i <= budget)
      {
        TailIsLongestShorterThan(s, budget, i);
      }
    } else {
      NoLineStarts(s, window, start);
    }
  }

  lemma NoLineStarts(s: seq<Byte>, window: nat, i: nat)
    requires 0 < window <= i <= |s| && NEWLINE !in s[window..]
    ensures StartsALine(s, i) <==> i == window && s[window - 1] == NEWLINE
    ensures NEWLINE !in s[i..]
  {
    assert forall j :: window <= j < |s| ==> s[j] == s[window..][j - window];
  }

  /** One full line too few: whatever the budget, a text whose last line fits it exactly
      is emptied, although that line is a suffix that fits and starts on a line. */
  lemma ExactFitIsCut(s: seq<Byte>, budget: nat)
    requires 0 < budget < |s| && s[|s| - 1] == NEWLINE && NEWLINE !in s[|s| - budget..|s| - 1]
    ensures TailWithin(s, budget) == []
    ensures s[|s| - budget - 1] == NEWLINE ==> LongestFittingLines(s, budget, |s| - budget)
  {
    var window := |s| - budget;
    assert s[window..][budget - 1] == NEWLINE;
    assert forall i :: window <= i < |s| - 1 ==> s[i] == s[window..|s| - 1][i - window];
    TailIsLongestShorterThan(s, budget, |s|);
  }

  /** The export's own budget (`PER_FILE_BUDGET`): such a text for it, one line of one byte
      and one that fills the budget. */
  const PER_FILE_BUDGET: nat := 4 * 1024 * 1024

  lemma AFullLogIsEmptied() returns (s: seq<Byte>)
    ensures |s| == PER_FILE_BUDGET + 2 && TailWithin(s, PER_FILE_BUDGET) == []
    ensures forall i :: 0 <= i < |s| ==> s[i] == 'a' as int || s[i] == NEWLINE
    ensures LongestFittingLines(s, PER_FILE_BUDGET, 2)
  {
    s := seq(PER_FILE_BUDGET + 2, i => if i == 1 || i == PER_FILE_BUDGET + 1 then NEWLINE else 97);
    ExactFitIsCut(s, PER_FILE_BUDGET);
  }
}
