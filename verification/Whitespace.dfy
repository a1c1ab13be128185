/** Rust's notion of whitespace, and trimming by it. */
module Whitespace {
  /** Unicode's White_Space property. */
  predicate White(ch: char) {
    var u := ch as int;
    || 9 <= u <= 13 || u == 0x20 || u == 0x85 || u == 0xA0 || u == 0x1680 || 0x2000 <= u <= 0x200A
    || u == 0x2028 || u == 0x2029 || u == 0x202F || u == 0x205F || u == 0x3000
  }

  function Trimmed(s: string): string {
    if s != "" && White(s[0]) then Trimmed(s[1..]) else s
  }

  function TrimmedEnd(s: string): string {
    if s != "" && White(s[|s| - 1]) then TrimmedEnd(s[..|s| - 1]) else s
  }

  /** Trimming a text from index `i` on stops at the first character that is not white. */
  lemma {:induction false} TrimmedIs(s: string, i: nat, n: nat)
    requires i <= n <= |s| && (forall k :: i <= k < n ==> White(s[k])) && (n < |s| ==> !White(s[n]))
    ensures Trimmed(s[i..]) == s[n..]
    decreases n - i
  {
    if i < n {
      assert s[i..][1..] == s[i + 1..];
      TrimmedIs(s, i + 1, n);
    }
  }

  lemma {:induction false} FirstNotWhite(s: string, i: nat) returns (n: nat)
    requires i <= |s|
    ensures i <= n <= |s| && (forall k :: i <= k < n ==> White(s[k])) && (n < |s| ==> !White(s[n]))
    decreases |s| - i
  {
    n := i;
    if i < |s| && White(s[i]) {
      n := FirstNotWhite(s, i + 1);
    }
  }

  /** Trimming at the end stops after the last character that is not white. */
  lemma {:induction false} TrimmedEndIs(s: string, n: nat)
    requires n <= |s| && (forall k :: n <= k < |s| ==> White(s[k])) && (n > 0 ==> !White(s[n - 1]))
    ensures TrimmedEnd(s) == s[..n]
  {
    if n < |s| {
      TrimmedEndIs(s[..|s| - 1], n);
      assert s[..|s| - 1][..n] == s[..n];
    } else {
      assert s[..n] == s;
    }
  }
}
