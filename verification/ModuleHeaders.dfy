/** What an inline test module looks like, character by character, and that it does not
    ship (`shipped_part`, src-tauri/src/compliance.rs). */
module ModuleHeaders {
  import opened Wrappers
  import opened Whitespace
  import opened BraceScan
  import opened ShippedPart
  import LogTail

  /** The header of an inline test module starts at `k`: the gate, blanks up to `item`,
      `mod` and a space, a name up to `name`, and blanks up to a brace at `open`. */
  ghost predicate Header(c: string, k: nat, word: char -> bool, item: nat, name: nat, open: nat) {
    && k + 12 <= item && item + 4 <= name <= open < |c|
    && c[k..k + 12] == "#[cfg(test)]"
    && (forall i :: k + 12 <= i < item ==> White(c[i]))
    && c[item..item + 4] == "mod "
    && (forall i :: item + 4 <= i < name ==> word(c[i])) && !word(c[name])
    && (forall i :: name <= i < open ==> White(c[i]))
    && c[open] == '{'
  }

  ghost predicate HeaderAt(c: string, k: nat, word: char -> bool) {
    exists item, name, open :: Header(c, k, word, item, name, open)
  }

  lemma {:induction false} NameIs(s: string, i: nat, n: nat, word: char -> bool)
    requires i <= n <= |s| && (forall k :: i <= k < n ==> word(s[k])) && (n < |s| ==> !word(s[n]))
    ensures NameLen(s[i..], word) == n - i
    decreases n - i
  {
    if i < n {
      assert s[i..][1..] == s[i + 1..];
      NameIs(s, i + 1, n, word);
    }
  }

  lemma {:induction false} NameEnds(s: string, i: nat, word: char -> bool) returns (n: nat)
    requires i <= |s|
    ensures i <= n <= |s| && (forall k :: i <= k < n ==> word(s[k])) && (n < |s| ==> !word(s[n]))
    decreases |s| - i
  {
    n := i;
    if i < |s| && word(s[i]) {
      n := NameEnds(s, i + 1, word);
    }
  }

  lemma Dropped(c: string, k: nat, n: nat)
    requires k <= n <= |c|
    ensures c[k..][n - k..] == c[n..]
  {
  }

  /** The body, read through the indexes the header's parts end at. */
  lemma BodyIs(c: string, after: nat, item: nat, name: nat, open: nat, word: char -> bool)
    requires after <= item && item + 4 <= name <= open <= |c|
    requires (forall i :: after <= i < item ==> White(c[i])) && c[item..item + 4] == "mod "
    requires (forall i :: item + 4 <= i < name ==> word(c[i])) && (name < |c| ==> !word(c[name]))
    requires (forall i :: name <= i < open ==> White(c[i])) && (open < |c| ==> !White(c[open]))
    ensures Body(c[after..], word) == c[open..]
  {
    hide White, Trimmed, NameLen;
    assert !White(c[item]) by {
      assert c[item] == c[item..item + 4][0] == 'm';
      LettersAreNotWhite();
    }
    TrimmedIs(c, after, item);
    assert c[item..][..4] == c[item..item + 4];
    Dropped(c, item, item + 4);
    NameIs(c, item + 4, name, word);
    Dropped(c, item + 4, name);
    TrimmedIs(c, name, open);
  }

  lemma LettersAreNotWhite()
    ensures !White('m') && !White('{')
  {
  }

  lemma BodyNeedsAnItem(c: string, after: nat, item: nat, word: char -> bool)
    requires after <= item <= |c| && (forall i :: after <= i < item ==> White(c[i])) && (item < |c| ==> !White(c[item]))
    requires Body(c[after..], word) != ""
    ensures item + 4 <= |c| && c[item..item + 4] == "mod "
  {
    hide White, Trimmed, NameLen;
    TrimmedIs(c, after, item);
    assert c[item..][..4] == c[item..item + 4];
  }

  lemma ModuleHasAHeader(c: string, k: nat, word: char -> bool)
    requires ModuleAt(c, k, word)
    ensures HeaderAt(c, k, word)
  {
    hide White, Trimmed, NameLen, Body;
    var item := FirstNotWhite(c, k + 12);
    BodyNeedsAnItem(c, k + 12, item, word);
    var name := NameEnds(c, item + 4, word);
    var open := FirstNotWhite(c, name);
    BodyIs(c, k + 12, item, name, open, word);
    assert Header(c, k, word, item, name, open);
  }

  lemma HeaderIsAModule(c: string, k: nat, word: char -> bool, item: nat, name: nat, open: nat)
    requires !word('{') && Header(c, k, word, item, name, open)
    ensures ModuleAt(c, k, word) && BraceFrom(c, k) == open
  {
    hide White, Trimmed, NameLen, Body;
    LettersAreNotWhite();
    BodyIs(c, k + 12, item, name, open, word);
    FirstBraceOpensTheBody(c, k, word);
  }

  /** A gated inline module starts where its header does, and nowhere else. */
  lemma ModuleIsAHeader(c: string, k: nat, word: char -> bool)
    requires !word('{')
    ensures ModuleAt(c, k, word) <==> HeaderAt(c, k, word)
  {
    if ModuleAt(c, k, word) {
      ModuleHasAHeader(c, k, word);
    }
    if item, name, open :| Header(c, k, word, item, name, open) {
      HeaderIsAModule(c, k, word, item, name, open);
    }
  }

  /** A header written out: after the gate, blanks, `mod `, a name and blanks, it is a
      module if and only if a brace comes next. */
  lemma WrittenHeader(blanks: string, name: string, gap: string, rest: string, word: char -> bool)
    requires (forall i :: 0 <= i < |blanks| ==> White(blanks[i])) && (forall i :: 0 <= i < |gap| ==> White(gap[i]))
    requires forall i :: 0 <= i < |name| ==> word(name[i])
    requires (gap != "" ==> !word(gap[0])) && (rest != "" ==> !White(rest[0])) && (gap == "" && rest != "" ==> !word(rest[0]))
    ensures ModuleAt("#[cfg(test)]" + blanks + "mod " + name + gap + rest, 0, word) <==> rest != "" && rest[0] == '{'
  {
    hide White, Trimmed, NameLen, Body;
    var c := "#[cfg(test)]" + blanks + "mod " + name + gap + rest;
    var item := 12 + |blanks|;
    var end := item + 4 + |name|;
    assert c[0..12] == "#[cfg(test)]" && c[item..item + 4] == "mod " && c[end + |gap|..] == rest;
    assert forall i :: 12 <= i < item ==> c[i] == blanks[i - 12];
    assert forall i :: item + 4 <= i < end ==> c[i] == name[i - item - 4];
    assert forall i :: end <= i < end + |gap| ==> c[i] == gap[i - end];
    assert forall i :: 0 <= i < |rest| ==> c[end + |gap| + i] == rest[i];
    BodyIs(c, 12, item, end, end + |gap|, word);
  }

  lemma MarkInRest(c: string, item: nat)
    requires item + 4 <= |c| && c[item..item + 4] == "mod "
    ensures "mod " <= c[item..]
  {
    assert c[item..][..4] == c[item..item + 4];
  }

  /** A gate followed, after blanks, by anything but `mod` and a space opens no module. */
  lemma OtherItemsShip(blanks: string, rest: string, word: char -> bool)
    requires forall i :: 0 <= i < |blanks| ==> White(blanks[i])
    requires (rest != "" ==> !White(rest[0])) && !("mod " <= rest)
    ensures !ModuleAt("#[cfg(test)]" + blanks + rest, 0, word)
  {
    hide White, Trimmed, NameLen, Body;
    var c := "#[cfg(test)]" + blanks + rest;
    var item := 12 + |blanks|;
    assert c[item..] == rest;
    assert forall i :: 12 <= i < item ==> c[i] == blanks[i - 12];
    if Body(c[12..], word) != "" {
      BodyNeedsAnItem(c, 12, item, word);
      MarkInRest(c, item);
      assert false;
    }
  }

  /** What is cut out starts at headers, one for each, and every header lies in it: what
      ships is the source less that. */
  lemma SpansAreTheHeaders(c: string, word: char -> bool)
    requires !word('{')
    ensures var spans := Spans(c, 0, word);
      && (forall n :: 0 <= n < |spans| ==> HeaderAt(c, spans[n].start, word))
      && (forall k :: 0 <= k < |c| && HeaderAt(c, k, word) ==> Covered(spans, k))
      && Shipped(c, 0, word) == Outside(c, 0, spans)
  {
    hide ModuleAt, HeaderAt, Shipped, Spans;
    forall k: nat
      ensures ModuleAt(c, k, word) <==> HeaderAt(c, k, word)
    {
      ModuleIsAHeader(c, k, word);
    }
    SpansAreTheModules(c, 0, word);
    ShippedIsOutside(c, 0, word);
  }

  lemma ClosingIs(c: string, open: nat, close: nat)
    requires open <= close < |c| && c[open] == '{' && ClosesAt(c[open..], 0, close - open)
    ensures Closing(c, open, 0) == Some(close)
  {
    hide DepthAfter, Closing;
    ClosingMeaning(c, open, 0);
  }

  lemma NextModuleIs(c: string, j: nat, k: nat, word: char -> bool)
    requires j <= k < |c| && ModuleAt(c, k, word) && forall i :: j <= i < k ==> !ModuleAt(c, i, word)
    ensures NextModule(c, j, word) == k
  {
    hide ModuleAt;
  }

  /** The first module of a text is cut out from its gate to the brace that closes its
      body, and what follows is searched on. */
  lemma FirstModuleIsCut(c: string, k: nat, word: char -> bool, item: nat, name: nat, open: nat, close: nat)
    requires !word('{') && Header(c, k, word, item, name, open)
    requires forall j :: 0 <= j < k ==> !HeaderAt(c, j, word)
    requires open <= close < |c| && ClosesAt(c[open..], 0, close - open)
    ensures Shipped(c, 0, word) == c[..k] + Shipped(c, close + 1, word)
  {
    hide ModuleAt, Header, ClosesAt, Closing, Body, ModuleEnd;
    forall j | 0 <= j < k
      ensures !ModuleAt(c, j, word)
    {
      ModuleIsAHeader(c, j, word);
    }
    HeaderIsAModule(c, k, word, item, name, open);
    NextModuleIs(c, 0, k, word);
    ClosingIs(c, open, close);
    EndOfModule(c, k, close);
    ShippedAtModule(c, 0, word);
    assert c[0..k] == c[..k];
  }

  lemma EndOfModule(c: string, k: nat, close: nat)
    requires k <= |c| && BraceFrom(c, k) <= close < |c| && Closing(c, BraceFrom(c, k), 0) == Some(close)
    ensures ModuleEnd(c, k) == close + 1
  {
    hide Closing, BraceFrom;
  }

  // ── The byte cursor ───────────────────────────────────────────────────────

  lemma {:induction false} EncodedSnoc(text: string, ch: char)
    ensures |LogTail.Encode(text + [ch])| == |LogTail.Encode(text)| + |LogTail.Utf8(ch)|
  {
    if text == [] {
      assert text + [ch] == [ch] && [ch][1..] == [];
    } else {
      EncodedSnoc(text[1..], ch);
      assert (text + [ch])[1..] == text[1..] + [ch];
    }
  }

  /** A character's byte offset is the length of what precedes it in UTF-8. */
  lemma {:induction false} ByteOfIsUtf8(c: string, k: nat)
    requires k <= |c|
    ensures ByteOf(c, k) == |LogTail.Encode(c[..k])|
  {
    if k > 0 {
      ByteOfIsUtf8(c, k - 1);
      EncodedSnoc(c[..k - 1], c[k - 1]);
      assert c[..k] == c[..k - 1] + [c[k - 1]];
    }
  }
}
