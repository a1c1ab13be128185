/** A source without its inline test modules (`shipped_part`,
    src-tauri/src/compliance.rs). The search speaks bytes, the brace scan characters. */
module ShippedPart {
  import opened Wrappers
  import opened BraceScan
  import opened Whitespace

  const GATE := "#[cfg(test)]"

  // ── What is a gated inline module ─────────────────────────────────────────

  /** How many characters of a name a text starts with. */
  function NameLen(s: string, word: char -> bool): (n: nat)
    ensures n <= |s|
  {
    if s != "" && word(s[0]) then 1 + NameLen(s[1..], word) else 0
  }

  /** What follows a gate when it names an inline module: its body, brace first. */
  function Body(rest: string, word: char -> bool): string {
    var item := Trimmed(rest);
    if |item| >= 4 && item[..4] == "mod " then
      Trimmed(item[4..][NameLen(item[4..], word)..])
    else ""
  }

  predicate GateAt(c: string, k: nat) {
    k + |GATE| <= |c| && c[k..k + |GATE|] == GATE
  }

  predicate ModuleAt(c: string, k: nat, word: char -> bool) {
    GateAt(c, k) && var body := Body(c[k + |GATE|..], word); body != "" && body[0] == '{'
  }

  /** The first brace of a text, or its length. */
  function FirstBrace(s: string): (n: nat)
    ensures n <= |s| && (n < |s| ==> s[n] == '{')
  {
    if s == "" || s[0] == '{' then 0 else 1 + FirstBrace(s[1..])
  }

  lemma {:induction false} FirstBraceOf(before: string, rest: string)
    requires '{' !in before
    ensures FirstBrace(before + rest) == |before| + FirstBrace(rest)
  {
    if before == "" {
      assert before + rest == rest;
    } else {
      assert (before + rest)[0] == before[0] && (before + rest)[1..] == before[1..] + rest;
      FirstBraceOf(before[1..], rest);
    }
  }

  lemma {:induction false} TrimmedBrace(s: string)
    ensures |Trimmed(s)| <= |s| && FirstBrace(s) == |s| - |Trimmed(s)| + FirstBrace(Trimmed(s))
  {
    if s != "" && White(s[0]) {
      TrimmedBrace(s[1..]);
    }
  }

  lemma {:induction false} NameBrace(s: string, word: char -> bool)
    requires !word('{')
    ensures FirstBrace(s) == NameLen(s, word) + FirstBrace(s[NameLen(s, word)..])
  {
    if s != "" && word(s[0]) {
      NameBrace(s[1..], word);
      assert s[1..][NameLen(s[1..], word)..] == s[NameLen(s, word)..];
    }
  }

  lemma BodyBrace(rest: string, word: char -> bool)
    requires !word('{') && Body(rest, word) != "" && Body(rest, word)[0] == '{'
    ensures |Body(rest, word)| <= |rest| && FirstBrace(rest) == |rest| - |Body(rest, word)|
  {
    var item := Trimmed(rest);
    var named := item[4..][NameLen(item[4..], word)..];
    TrimmedBrace(rest);
    assert item == "mod " + item[4..];
    FirstBraceOf("mod ", item[4..]);
    NameBrace(item[4..], word);
    TrimmedBrace(named);
  }

  /** The first brace after a module's gate is the one that opens its body, so the brace
      scan starts where the header's grammar says the body does. */
  lemma FirstBraceOpensTheBody(c: string, k: nat, word: char -> bool)
    requires !word('{') && ModuleAt(c, k, word)
    ensures FirstBrace(c[k..]) == |c| - k - |Body(c[k + |GATE|..], word)|
    ensures k + |GATE| <= k + FirstBrace(c[k..]) < |c|
  {
    var rest := c[k + |GATE|..];
    BodyBrace(rest, word);
    assert c[k..] == GATE + rest;
    FirstBraceOf(GATE, rest);
  }

  // ── What ships ────────────────────────────────────────────────────────────

  /** The index of the first brace from `k` on, or the length. */
  function BraceFrom(c: string, k: nat): (open: nat)
    requires k <= |c|
    ensures k <= open <= |c| && (open < |c| ==> c[open] == '{')
  {
    k + FirstBrace(c[k..])
  }

  /** Past the module's closing brace; the end of the text when it is never closed. */
  function ModuleEnd(c: string, k: nat): (end: nat)
    requires k <= |c|
    ensures k < |c| ==> k < end <= |c|
  {
    var open := BraceFrom(c, k);
    if open == |c| then |c|
    else
      match Closing(c, open, 0)
      case Some(close) => close + 1
      case None => |c|
  }

  /** A module ends at the first point where its braces, counted outside literals, are
      all closed, and runs to the end of the text only when they never are. */
  lemma ModuleEndMeaning(c: string, k: nat)
    requires k <= |c| && BraceFrom(c, k) < |c|
    ensures var open := BraceFrom(c, k);
      var close := Closing(c, open, 0);
      Answers(c[open..], 0, open, close) && ModuleEnd(c, k) == if close.Some? then close.value + 1 else |c|
  {
    hide Answers, Closing, BraceFrom;
    ClosingMeaning(c, BraceFrom(c, k), 0);
  }

  function NextModule(c: string, k: nat, word: char -> bool): (j: nat)
    requires k <= |c|
    ensures k <= j <= |c|
    ensures j < |c| ==> ModuleAt(c, j, word)
    ensures forall m :: k <= m < j ==> !ModuleAt(c, m, word)
    decreases |c| - k
  {
    if k == |c| || ModuleAt(c, k, word) then k else NextModule(c, k + 1, word)
  }

  function Shipped(c: string, k: nat, word: char -> bool): string
    requires k <= |c|
    decreases |c| - k
  {
    var j := NextModule(c, k, word);
    if j == |c| then c[k..] else c[k..j] + Shipped(c, ModuleEnd(c, j), word)
  }

  // ── As spans ──────────────────────────────────────────────────────────────

  datatype Span = Span(start: nat, end: nat)

  function Spans(c: string, k: nat, word: char -> bool): seq<Span>
    requires k <= |c|
    decreases |c| - k
  {
    var j := NextModule(c, k, word);
    if j == |c| then [] else [Span(j, ModuleEnd(c, j))] + Spans(c, ModuleEnd(c, j), word)
  }

  predicate Covered(spans: seq<Span>, i: nat) {
    exists n :: 0 <= n < |spans| && spans[n].start <= i < spans[n].end
  }

  /** The spans are gated inline modules from gate to closing brace, in order, disjoint,
      and no gated inline module starts outside them. */
  ghost predicate AreTheModules(c: string, k: nat, word: char -> bool, spans: seq<Span>)
  {
    && (forall n :: 0 <= n < |spans| ==>
          k <= spans[n].start < spans[n].end <= |c| && ModuleAt(c, spans[n].start, word)
          && spans[n].end == ModuleEnd(c, spans[n].start))
    && (forall m, n :: 0 <= m < n < |spans| ==> spans[m].end <= spans[n].start)
    && (forall i :: k <= i < |c| && ModuleAt(c, i, word) ==> Covered(spans, i))
  }

  lemma {:induction false} SpansAreTheModules(c: string, k: nat, word: char -> bool)
    requires k <= |c|
    ensures AreTheModules(c, k, word, Spans(c, k, word))
    decreases |c| - k
  {
    var j := NextModule(c, k, word);
    if j < |c| {
      var first, rest := Span(j, ModuleEnd(c, j)), Spans(c, ModuleEnd(c, j), word);
      SpansAreTheModules(c, first.end, word);
      Prepended(c, k, word, first, rest);
    }
  }

  lemma Prepended(c: string, k: nat, word: char -> bool, first: Span, rest: seq<Span>)
    requires k <= |c| && first.start == NextModule(c, k, word) < |c| && first.end == ModuleEnd(c, first.start)
    requires AreTheModules(c, first.end, word, rest)
    ensures AreTheModules(c, k, word, [first] + rest)
  {
    var spans := [first] + rest;
    assert spans[0] == first && forall n :: 0 < n < |spans| ==> spans[n] == rest[n - 1];
    forall i | k <= i < |c| && ModuleAt(c, i, word)
      ensures Covered(spans, i)
    {
      CoveredLater(first, rest, i);
    }
  }

  lemma CoveredLater(first: Span, rest: seq<Span>, i: nat)
    ensures Covered([first] + rest, i) <==> first.start <= i < first.end || Covered(rest, i)
  {
    var spans := [first] + rest;
    if Covered(rest, i) {
      var n :| 0 <= n < |rest| && rest[n].start <= i < rest[n].end;
      assert spans[n + 1] == rest[n];
    }
    if first.start <= i < first.end {
      assert spans[0] == first;
    }
    if Covered(spans, i) {
      var n :| 0 <= n < |spans| && spans[n].start <= i < spans[n].end;
      if n > 0 {
        assert rest[n - 1] == spans[n];
      }
    }
  }

  /** The characters from `k` on that no span covers. */
  function Outside(c: string, k: nat, spans: seq<Span>): string
    requires k <= |c|
    decreases |c| - k
  {
    if k == |c| then "" else (if Covered(spans, k) then "" else [c[k]]) + Outside(c, k + 1, spans)
  }

  lemma {:induction false} OutsideBefore(c: string, k: nat, j: nat, spans: seq<Span>)
    requires k <= j <= |c| && forall i :: k <= i < j ==> !Covered(spans, i)
    ensures Outside(c, k, spans) == c[k..j] + Outside(c, j, spans)
    decreases j - k
  {
    if k == j {
      assert c[k..j] == "";
    } else {
      OutsideBefore(c, k + 1, j, spans);
      var rest := Outside(c, j, spans);
      assert !Covered(spans, k);
      assert [c[k]] + (c[k + 1..j] + rest) == c[k..j] + rest;
    }
  }

  lemma {:induction false} OutsideWithin(c: string, k: nat, end: nat, spans: seq<Span>)
    requires k <= end <= |c| && forall i :: k <= i < end ==> Covered(spans, i)
    ensures Outside(c, k, spans) == Outside(c, end, spans)
    decreases end - k
  {
    if k < end {
      OutsideWithin(c, k + 1, end, spans);
    }
  }

  lemma {:induction false} OutsideAfter(c: string, k: nat, first: Span, rest: seq<Span>)
    requires first.end <= k <= |c|
    ensures Outside(c, k, [first] + rest) == Outside(c, k, rest)
    decreases |c| - k
  {
    if k < |c| {
      CoveredLater(first, rest, k);
      OutsideAfter(c, k + 1, first, rest);
    }
  }

  lemma SpansStartLater(c: string, k: nat, word: char -> bool, spans: seq<Span>, i: nat)
    requires AreTheModules(c, k, word, spans) && i < k
    ensures !Covered(spans, i)
  {
  }

  /** What ships is the source less those spans, every other character kept in order. */
  lemma {:induction false} ShippedIsOutside(c: string, k: nat, word: char -> bool)
    requires k <= |c|
    ensures Shipped(c, k, word) == Outside(c, k, Spans(c, k, word))
    decreases |c| - k
  {
    var j, spans := NextModule(c, k, word), Spans(c, k, word);
    if j == |c| {
      OutsideBefore(c, k, j, spans);
      assert c[k..j] + "" == c[k..];
    } else {
      var first, rest := Span(j, ModuleEnd(c, j)), Spans(c, ModuleEnd(c, j), word);
      ShippedIsOutside(c, first.end, word);
      SpansAreTheModules(c, first.end, word);
      forall i | k <= i < first.end
        ensures Covered(spans, i) <==> j <= i
      {
        CoveredLater(first, rest, i);
        SpansStartLater(c, first.end, word, rest, i);
      }
      OutsideBefore(c, k, j, spans);
      OutsideWithin(c, j, first.end, spans);
      OutsideAfter(c, first.end, first, rest);
    }
  }

  // ── Bytes and characters ──────────────────────────────────────────────────

  /** A character's length in UTF-8. */
  function ByteLen(ch: char): (n: nat)
    ensures 1 <= n <= 4
  {
    var u := ch as int;
    if u < 0x80 then 1 else if u < 0x800 then 2 else if u < 0x10000 then 3 else 4
  }

  /** The byte at which character `k` starts. */
  function ByteOf(c: string, k: nat): nat
    requires k <= |c|
  {
    if k == 0 then 0 else ByteOf(c, k - 1) + ByteLen(c[k - 1])
  }

  lemma {:induction false} ByteOfGrows(c: string, j: nat, k: nat)
    requires j < k <= |c|
    ensures ByteOf(c, j) < ByteOf(c, k)
  {
    if j < k - 1 {
      ByteOfGrows(c, j, k - 1);
    }
  }

  /** How many characters precede a byte offset, which must be on a boundary: the
      source's slice panics anywhere else. */
  method CharsBefore(c: string, byte: nat, ghost at: nat) returns (k: nat)
    requires at <= |c| && ByteOf(c, at) == byte
    ensures k == at
  {
    k := 0;
    var bytes := 0;
    while bytes < byte
      invariant k <= at && bytes == ByteOf(c, k)
      decreases at - k
    {
      if k == at {
        assert false;
      }
      bytes := bytes + ByteLen(c[k]);
      k := k + 1;
    }
    if k < at {
      ByteOfGrows(c, k, at);
      assert false;
    }
  }

  method ByteOffset(c: string, k: nat) returns (byte: nat)
    requires k <= |c|
    ensures byte == ByteOf(c, k)
  {
    byte := 0;
    for i := 0 to k
      invariant byte == ByteOf(c, i)
    {
      byte := byte + ByteLen(c[i]);
    }
  }

  /** The next gate from character `k` on, or the length. */
  function NextGate(c: string, k: nat): (j: nat)
    requires k <= |c|
    ensures k <= j <= |c| && (j < |c| ==> GateAt(c, j))
    ensures forall m :: k <= m < j ==> !GateAt(c, m)
    decreases |c| - k
  {
    if k == |c| || GateAt(c, k) then k else NextGate(c, k + 1)
  }

  /** The next gate from a boundary on: its distance in bytes. */
  method FindGate(c: string, from: nat, ghost k: nat) returns (at: Option<nat>)
    requires k <= |c| && ByteOf(c, k) == from
    ensures at.None? <==> NextGate(c, k) == |c|
    ensures at.Some? ==> from + at.value == ByteOf(c, NextGate(c, k))
  {
    var i := CharsBefore(c, from, k);
    var bytes: nat := 0;
    while i < |c|
      invariant k <= i <= |c| && from + bytes == ByteOf(c, i)
      invariant NextGate(c, k) == NextGate(c, i)
    {
      if i + |GATE| <= |c| && c[i..i + |GATE|] == GATE {
        return Some(bytes);
      }
      bytes := bytes + ByteLen(c[i]);
      i := i + 1;
    }
    return None;
  }

  method FindBrace(c: string, from: nat) returns (open: Option<nat>)
    requires from <= |c|
    ensures open == if FirstBrace(c[from..]) < |c| - from then Some(from + FirstBrace(c[from..])) else None
  {
    var k := from;
    while k < |c|
      invariant from <= k <= |c|
      invariant k + FirstBrace(c[k..]) == from + FirstBrace(c[from..])
    {
      if c[k] == '{' {
        return Some(k);
      }
      assert c[k..][1..] == c[k + 1..];
      k := k + 1;
    }
    return None;
  }

  lemma SameNextModule(c: string, k: nat, j: nat, word: char -> bool)
    requires k <= j <= |c| && forall m :: k <= m < j ==> !ModuleAt(c, m, word)
    ensures NextModule(c, k, word) == NextModule(c, j, word)
    decreases j - k
  {
    if k < j {
      SameNextModule(c, k + 1, j, word);
    }
  }

  /** Whether the gate at `k` names an inline module, and where that ends. */
  method ModuleOf(c: string, k: nat, word: char -> bool) returns (end: Option<nat>)
    requires !word('{') && GateAt(c, k)
    ensures end == if ModuleAt(c, k, word) then Some(ModuleEnd(c, k)) else None
  {
    var body := Body(c[k + |GATE|..], word);
    if body == "" || body[0] != '{' {
      return None;
    }
    FirstBraceOpensTheBody(c, k, word);
    var last := ModuleClose(c, k);
    return Some(last);
  }

  /** Past the brace that closes the first one after the gate, or the end. */
  method ModuleClose(c: string, k: nat) returns (end: nat)
    requires k <= |c| && k + FirstBrace(c[k..]) < |c|
    ensures end == ModuleEnd(c, k)
  {
    var open := FindBrace(c, k);
    var close := MatchingBrace(c, open.value);
    return match close case Some(last) => last + 1 case None => |c|;
  }

  lemma ShippedAtModule(c: string, k: nat, word: char -> bool)
    requires k <= |c| && NextModule(c, k, word) < |c|
    ensures var j := NextModule(c, k, word); Shipped(c, k, word) == c[k..j] + Shipped(c, ModuleEnd(c, j), word)
  {
  }

  lemma Regrouped(out: string, piece: string, rest: string)
    ensures (out + piece) + rest == out + (piece + rest)
  {
  }

  lemma NoModuleLeft(c: string, k: nat, word: char -> bool)
    requires k <= |c| && NextModule(c, k, word) == |c|
    ensures Shipped(c, k, word) == c[k..]
  {
  }

  lemma GateIsOneByteWide(c: string, j: nat)
    requires GateAt(c, j)
    ensures j < |c| && ByteOf(c, j + 1) == ByteOf(c, j) + 1
  {
    assert c[j] == c[j..j + |GATE|][0] == '#';
  }

  /** The copy so far: `from` is the byte of character `k`, nothing to remove starts
      between `copied` and `k`, and what is left completes the whole. */
  ghost predicate InStep(c: string, word: char -> bool, copied: nat, from: nat, k: nat, out: string, whole: string) {
    && copied <= k <= |c| && from == ByteOf(c, k)
    && NextModule(c, copied, word) == NextModule(c, k, word)
    && out + Shipped(c, copied, word) == whole
  }

  /** How far the search has come after the gate at `j`. */
  ghost function Reached(copied: nat, copiedTo: nat, j: nat): nat {
    if copiedTo > copied then copiedTo else j + 1
  }

  /** The gate found at `from + at` is handled: its module, if it names one, is removed.
      It never starts before what has been copied, so none is skipped as already seen. */
  method AtGate(c: string, word: char -> bool, copied: nat, from: nat, at: nat, out: string,
                ghost k: nat, ghost whole: string)
    returns (copiedTo: nat, next: nat, text: string)
    requires !word('{') && InStep(c, word, copied, from, k, out, whole)
    requires NextGate(c, k) < |c| && from + at == ByteOf(c, NextGate(c, k))
    requires NextModule(c, k, word) == NextModule(c, NextGate(c, k), word)
    ensures k < Reached(copied, copiedTo, NextGate(c, k))
    ensures InStep(c, word, copiedTo, next, Reached(copied, copiedTo, NextGate(c, k)), text, whole)
  {
    hide ModuleEnd, ModuleAt;
    ghost var j := NextGate(c, k);
    var start := from + at;
    var charStart := CharsBefore(c, start, j);
    assert copied <= charStart;
    GateIsOneByteWide(c, j);
    var end := ModuleOf(c, charStart, word);
    if end.None? {
      SameNextModule(c, j, j + 1, word);
      return copied, start + 1, out;
    }
    ShippedAtModule(c, copied, word);
    Regrouped(out, c[copied..charStart], Shipped(c, end.value, word));
    next := ByteOffset(c, end.value);
    return end.value, next, out + c[copied..charStart];
  }

  /** The cursors stay in step over the whole run, and it ends. */
  method ShippedPartOf(c: string, word: char -> bool) returns (out: string)
    requires !word('{')
    ensures out == Shipped(c, 0, word)
  {
    out := "";
    ghost var whole := Shipped(c, 0, word);
    var copied: nat, from: nat := 0, 0;
    ghost var k := 0;
    while true
      invariant InStep(c, word, copied, from, k, out, whole)
      decreases |c| - k
    {
      hide ModuleEnd, ModuleAt;
      var at := FindGate(c, from, k);
      ghost var j, before := NextGate(c, k), copied;
      SameNextModule(c, k, j, word);
      if at.None? {
        NoModuleLeft(c, copied, word);
        break;
      }
      copied, from, out := AtGate(c, word, copied, from, at.value, out, k, whole);
      k := Reached(before, copied, j);
    }
    out := out + c[copied..];
  }
}
