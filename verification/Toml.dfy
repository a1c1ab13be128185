/** The TOML that santree writes into an override (`toml_string`, `review_server_override`,
    src-tauri/src/codex_config.rs), and a reader of it by TOML v1.0.0. The reader takes
    values with no blanks, no trailing commas and no `\u` escapes, which is all that is
    written here, and refuses everything else. */
module Toml {
  import opened Wrappers

  // ── Strings, as written ───────────────────────────────────────────────────

  function Escape(ch: char): string {
    match ch
    case '"' => "\\\""
    case '\\' => "\\\\"
    case '\n' => "\\n"
    case '\r' => "\\r"
    case '\t' => "\\t"
    case _ => [ch]
  }

  function EscapedBody(v: string): string {
    if v == "" then "" else Escape(v[0]) + EscapedBody(v[1..])
  }

  function TomlString(v: string): string {
    "\"" + (EscapedBody(v) + "\"")
  }

  lemma {:induction false} EscapedSnoc(v: string, ch: char)
    ensures EscapedBody(v + [ch]) == EscapedBody(v) + Escape(ch)
  {
    if v == "" {
      assert v + [ch] == [ch] && [ch][1..] == "";
    } else {
      EscapedSnoc(v[1..], ch);
      assert (v + [ch])[1..] == v[1..] + [ch];
      assert Escape(v[0]) + (EscapedBody(v[1..]) + Escape(ch)) == EscapedBody(v) + Escape(ch);
    }
  }

  /** `toml_string`, character by character. */
  method WriteTomlString(value: string) returns (out: string)
    ensures out == TomlString(value)
  {
    out := "\"";
    for i := 0 to |value|
      invariant out == "\"" + EscapedBody(value[..i])
    {
      EscapedSnoc(value[..i], value[i]);
      assert value[..i + 1] == value[..i] + [value[i]];
      assert "\"" + (EscapedBody(value[..i]) + Escape(value[i])) == "\"" + EscapedBody(value[..i]) + Escape(value[i]);
      match value[i] {
        case '"' => out := out + "\\\"";
        case '\\' => out := out + "\\\\";
        case '\n' => out := out + "\\n";
        case '\r' => out := out + "\\r";
        case '\t' => out := out + "\\t";
        case c => out := out + [c];
      }
    }
    assert value[..|value|] == value;
    out := out + "\"";
  }

  // ── Strings, as read ──────────────────────────────────────────────────────

  /** What a reader has got, and the text after it. */
  datatype Read<T> = Read(value: T, rest: string)

  /** The characters a basic string may not hold: the control characters other than tab. */
  predicate Control(ch: char) {
    var u := ch as int;
    (u < 0x20 && u != 9) || u == 0x7F
  }

  function Unescaped(ch: char): Option<char> {
    match ch
    case 'b' => Some(8 as char)
    case 't' => Some('\t')
    case 'n' => Some('\n')
    case 'f' => Some(12 as char)
    case 'r' => Some('\r')
    case '"' => Some('"')
    case '\\' => Some('\\')
    case _ => None
  }

  function Prepended(ch: char, r: Option<Read<string>>): Option<Read<string>> {
    match r
    case Some(Read(v, rest)) => Some(Read([ch] + v, rest))
    case None => None
  }

  /** A basic string after its opening quote, up to the first quote not escaped. */
  function ReadBasic(s: string): (r: Option<Read<string>>)
    ensures r.Some? ==> |r.value.rest| < |s|
    decreases |s|
  {
    if s == "" then None
    else if s[0] == '"' then Some(Read("", s[1..]))
    else if s[0] == '\\' then
      if |s| == 1 || Unescaped(s[1]).None? then None
      else Prepended(Unescaped(s[1]).value, ReadBasic(s[2..]))
    else if Control(s[0]) then None
    else Prepended(s[0], ReadBasic(s[1..]))
  }

  /** No control character but tab, newline and return. */
  predicate Writable(v: string) {
    v == "" || ((!Control(v[0]) || v[0] == '\n' || v[0] == '\r') && Writable(v[1..]))
  }

  /** Which strings that is, character by character: no control character below the space
      but tab, newline and return, and no delete. */
  lemma {:induction false} WritableExactly(v: string)
    ensures Writable(v) <==> forall i :: 0 <= i < |v| ==>
              (v[i] >= ' ' && v[i] as int != 0x7F) || v[i] == '\t' || v[i] == '\n' || v[i] == '\r'
  {
    if v != "" {
      WritableExactly(v[1..]);
      assert forall i :: 0 < i < |v| ==> v[i] == v[1..][i - 1];
      assert forall i :: 0 <= i < |v[1..]| ==> v[1..][i] == v[i + 1];
    }
  }

  lemma ReadOne(ch: char, s: string)
    ensures ReadBasic(Escape(ch) + s) ==
            if !Control(ch) || ch == '\n' || ch == '\r' then Prepended(ch, ReadBasic(s)) else None
  {
    var t := Escape(ch) + s;
    if |Escape(ch)| == 2 {
      assert t[0] == '\\' && t[1] == Escape(ch)[1] && t[2..] == s;
    } else {
      assert t[0] == ch && t[1..] == s;
    }
  }

  lemma {:induction false} ReadBody(v: string, rest: string)
    ensures ReadBasic(EscapedBody(v) + ("\"" + rest)) == if Writable(v) then Some(Read(v, rest)) else None
  {
    if v == "" {
      assert EscapedBody(v) + ("\"" + rest) == "\"" + rest && ("\"" + rest)[1..] == rest;
    } else {
      var tail := EscapedBody(v[1..]) + ("\"" + rest);
      assert EscapedBody(v) + ("\"" + rest) == Escape(v[0]) + tail;
      ReadOne(v[0], tail);
      ReadBody(v[1..], rest);
      assert [v[0]] + v[1..] == v;
    }
  }

  // ── Values ────────────────────────────────────────────────────────────────

  datatype Value = Str(text: string) | Bool(flag: bool) | Array(items: Items) | Table(entries: Entries)
  datatype Items = NoItems | Item(value: Value, more: Items)
  datatype Entries = NoEntries | Entry(quoted: bool, key: string, value: Value, more: Entries)

  predicate BareChar(ch: char) {
    'a' <= ch <= 'z' || 'A' <= ch <= 'Z' || '0' <= ch <= '9' || ch == '-' || ch == '_'
  }

  /** How many bare-key characters a text starts with. */
  function BareLen(s: string): (n: nat)
    ensures n <= |s|
  {
    if s != "" && BareChar(s[0]) then 1 + BareLen(s[1..]) else 0
  }

  predicate BareKey(key: string) {
    key != "" && BareLen(key) == |key|
  }

  // A value as written, followed by `rest`.

  function Written(v: Value, rest: string): string
    decreases v
  {
    match v
    case Str(text) => TomlString(text) + rest
    case Bool(flag) => (if flag then "true" else "false") + rest
    case Array(items) => "[" + (if items.NoItems? then "]" + rest else WrittenItems(items, rest))
    case Table(entries) => "{" + (if entries.NoEntries? then "}" + rest else WrittenEntries(entries, rest))
  }

  function WrittenItems(items: Items, rest: string): string
    requires items.Item?
    decreases items
  {
    Written(items.value, if items.more.NoItems? then "]" + rest else "," + WrittenItems(items.more, rest))
  }

  function WrittenKey(quoted: bool, key: string, rest: string): string {
    (if quoted then TomlString(key) else key) + rest
  }

  function WrittenEntries(entries: Entries, rest: string): string
    requires entries.Entry?
    decreases entries
  {
    WrittenKey(entries.quoted, entries.key,
      "=" + Written(entries.value, if entries.more.NoEntries? then "}" + rest else "," + WrittenEntries(entries.more, rest)))
  }

  // A value as read.

  function ReadKey(s: string): (r: Option<Read<(bool, string)>>)
    ensures r.Some? ==> |r.value.rest| < |s|
  {
    if s != "" && s[0] == '"' then
      match ReadBasic(s[1..])
      case Some(Read(key, rest)) => Some(Read((true, key), rest))
      case None => None
    else if BareLen(s) == 0 then None
    else Some(Read((false, s[..BareLen(s)]), s[BareLen(s)..]))
  }

  function ReadWord(s: string, word: string, flag: bool): (r: Option<Read<Value>>)
    requires word != ""
    ensures r.Some? ==> |r.value.rest| < |s|
  {
    if |word| <= |s| && s[..|word|] == word then Some(Read(Bool(flag), s[|word|..])) else None
  }

  function ReadValue(s: string): (r: Option<Read<Value>>)
    ensures r.Some? ==> |r.value.rest| < |s|
    decreases |s|, 0
  {
    if s == "" then None
    else if s[0] == '"' then
      match ReadBasic(s[1..])
      case Some(Read(text, rest)) => Some(Read(Str(text), rest))
      case None => None
    else if s[0] == '[' then
      if |s| > 1 && s[1] == ']' then Some(Read(Array(NoItems), s[2..]))
      else
        match ReadItems(s[1..])
        case Some(Read(items, rest)) => Some(Read(Array(items), rest))
        case None => None
    else if s[0] == '{' then
      if |s| > 1 && s[1] == '}' then Some(Read(Table(NoEntries), s[2..]))
      else
        match ReadEntries(s[1..])
        case Some(Read(entries, rest)) => Some(Read(Table(entries), rest))
        case None => None
    else if s[0] == 't' then ReadWord(s, "true", true)
    else ReadWord(s, "false", false)
  }

  /** Values separated by commas, up to the closing bracket. */
  function ReadItems(s: string): (r: Option<Read<Items>>)
    ensures r.Some? ==> |r.value.rest| < |s|
    decreases |s|, 1
  {
    match ReadValue(s)
    case None => None
    case Some(Read(value, rest)) =>
      if rest == "" then None
      else if rest[0] == ']' then Some(Read(Item(value, NoItems), rest[1..]))
      else if rest[0] == ',' then
        match ReadItems(rest[1..])
        case Some(Read(more, after)) => Some(Read(Item(value, more), after))
        case None => None
      else None
  }

  function ReadEntries(s: string): (r: Option<Read<Entries>>)
    ensures r.Some? ==> |r.value.rest| < |s|
    decreases |s|, 1
  {
    match ReadKey(s)
    case None => None
    case Some(Read((quoted, key), afterKey)) =>
      if afterKey == "" || afterKey[0] != '=' then None
      else
        match ReadValue(afterKey[1..])
        case None => None
        case Some(Read(value, rest)) =>
          if rest == "" then None
          else if rest[0] == '}' then Some(Read(Entry(quoted, key, value, NoEntries), rest[1..]))
          else if rest[0] == ',' then
            match ReadEntries(rest[1..])
            case Some(Read(more, after)) => Some(Read(Entry(quoted, key, value, more), after))
            case None => None
          else None
  }

  // ── Written values read back ──────────────────────────────────────────────

  /** Keys written bare are bare keys. */
  predicate Legal(v: Value) {
    match v
    case Array(items) => LegalItems(items)
    case Table(entries) => LegalEntries(entries)
    case _ => true
  }

  predicate LegalItems(items: Items) {
    items.Item? ==> Legal(items.value) && LegalItems(items.more)
  }

  predicate LegalEntries(entries: Entries) {
    entries.Entry? ==> (entries.quoted || BareKey(entries.key)) && Legal(entries.value) && LegalEntries(entries.more)
  }

  /** Every string in it can be written. */
  predicate AllWritable(v: Value) {
    match v
    case Str(text) => Writable(text)
    case Bool(_) => true
    case Array(items) => ItemsWritable(items)
    case Table(entries) => EntriesWritable(entries)
  }

  predicate ItemsWritable(items: Items) {
    items.Item? ==> AllWritable(items.value) && ItemsWritable(items.more)
  }

  predicate EntriesWritable(entries: Entries) {
    entries.Entry? ==>
      (entries.quoted ==> Writable(entries.key)) && AllWritable(entries.value) && EntriesWritable(entries.more)
  }

  lemma {:induction false} BareLenOf(key: string, rest: string)
    requires BareLen(key) == |key| && (rest == "" || !BareChar(rest[0]))
    ensures BareLen(key + rest) == |key|
  {
    if key == "" {
      assert key + rest == rest;
    } else {
      assert (key + rest)[0] == key[0] && (key + rest)[1..] == key[1..] + rest;
      BareLenOf(key[1..], rest);
    }
  }

  lemma QuotedKeyReadsBack(key: string, rest: string)
    ensures ReadKey(TomlString(key) + rest) == if Writable(key) then Some(Read((true, key), rest)) else None
  {
    var s := TomlString(key) + rest;
    assert s[0] == '"' && s[1..] == EscapedBody(key) + ("\"" + rest);
    ReadBody(key, rest);
  }

  lemma BareKeyReadsBack(key: string, rest: string)
    requires BareKey(key) && (rest == "" || !BareChar(rest[0]))
    ensures ReadKey(key + rest) == Some(Read((false, key), rest))
  {
    var s := key + rest;
    BareLenOf(key, rest);
    assert s[0] == key[0] && BareChar(key[0]);
    assert s[..|key|] == key && s[|key|..] == rest;
  }

  lemma KeyReadsBack(quoted: bool, key: string, rest: string)
    requires quoted || BareKey(key)
    requires rest != "" && rest[0] == '='
    ensures ReadKey(WrittenKey(quoted, key, rest)) ==
            if quoted && !Writable(key) then None else Some(Read((quoted, key), rest))
  {
    if quoted {
      QuotedKeyReadsBack(key, rest);
    } else {
      BareKeyReadsBack(key, rest);
    }
  }

  lemma StringReadsBack(text: string, rest: string)
    ensures ReadValue(Written(Str(text), rest)) == if Writable(text) then Some(Read(Str(text), rest)) else None
  {
    var s := Written(Str(text), rest);
    assert s[0] == '"' && s[1..] == EscapedBody(text) + ("\"" + rest);
    ReadBody(text, rest);
  }

  lemma WordReadsBack(flag: bool, rest: string)
    ensures ReadValue(Written(Bool(flag), rest)) == Some(Read(Bool(flag), rest))
  {
    var word := if flag then "true" else "false";
    var s := Written(Bool(flag), rest);
    assert s == word + rest && s[0] == word[0] && s[..|word|] == word && s[|word|..] == rest;
  }

  /** Written values start no closing mark. */
  lemma Starts(v: Value, rest: string)
    ensures Written(v, rest) != "" && Written(v, rest)[0] != ']' && Written(v, rest)[0] != '}'
  {
  }

  lemma KeyStarts(entries: Entries, rest: string)
    requires entries.Entry? && LegalEntries(entries)
    ensures WrittenEntries(entries, rest) != "" && WrittenEntries(entries, rest)[0] != '}'
  {
    if !entries.quoted {
      assert BareChar(entries.key[0]);
    }
  }

  /** A value is read back as it was written, with what follows left over, if every
      string in it can be written; and it is refused if one cannot. */
  lemma {:induction false} ReadsBack(v: Value, rest: string)
    requires Legal(v)
    ensures ReadValue(Written(v, rest)) == if AllWritable(v) then Some(Read(v, rest)) else None
    decreases v
  {
    match v
    case Str(text) => StringReadsBack(text, rest);
    case Bool(flag) => WordReadsBack(flag, rest);
    case Array(items) => ArrayReadsBack(items, rest);
    case Table(entries) => TableReadsBack(entries, rest);
  }

  lemma {:induction false} ArrayReadsBack(items: Items, rest: string)
    requires LegalItems(items)
    ensures ReadValue(Written(Array(items), rest)) ==
            if ItemsWritable(items) then Some(Read(Array(items), rest)) else None
    decreases items, 1
  {
    var s := Written(Array(items), rest);
    if items.NoItems? {
      assert s[1] == ']' && s[2..] == rest;
    } else {
      assert s[1..] == WrittenItems(items, rest);
      Starts(items.value, if items.more.NoItems? then "]" + rest else "," + WrittenItems(items.more, rest));
      ItemsReadBack(items, rest);
    }
  }

  lemma {:induction false} ItemsReadBack(items: Items, rest: string)
    requires items.Item? && LegalItems(items)
    ensures ReadItems(WrittenItems(items, rest)) ==
            if ItemsWritable(items) then Some(Read(items, rest)) else None
    decreases items, 0
  {
    if items.more.NoItems? {
      ReadsBack(items.value, "]" + rest);
      assert ("]" + rest)[1..] == rest;
    } else {
      var tail := WrittenItems(items.more, rest);
      ReadsBack(items.value, "," + tail);
      assert ("," + tail)[1..] == tail;
      ItemsReadBack(items.more, rest);
    }
  }

  lemma {:induction false} TableReadsBack(entries: Entries, rest: string)
    requires LegalEntries(entries)
    ensures ReadValue(Written(Table(entries), rest)) ==
            if EntriesWritable(entries) then Some(Read(Table(entries), rest)) else None
    decreases entries, 1
  {
    var s := Written(Table(entries), rest);
    if entries.NoEntries? {
      assert s[1] == '}' && s[2..] == rest;
    } else {
      assert s[1..] == WrittenEntries(entries, rest);
      KeyStarts(entries, rest);
      EntriesReadBack(entries, rest);
    }
  }

  lemma {:induction false} EntriesReadBack(entries: Entries, rest: string)
    requires entries.Entry? && LegalEntries(entries)
    ensures ReadEntries(WrittenEntries(entries, rest)) ==
            if EntriesWritable(entries) then Some(Read(entries, rest)) else None
    decreases entries, 0
  {
    var after := if entries.more.NoEntries? then "}" + rest else "," + WrittenEntries(entries.more, rest);
    var value := Written(entries.value, after);
    KeyReadsBack(entries.quoted, entries.key, "=" + value);
    assert ("=" + value)[1..] == value;
    ReadsBack(entries.value, after);
    if entries.more.NoEntries? {
      assert after[1..] == rest;
    } else {
      assert after[1..] == WrittenEntries(entries.more, rest);
      EntriesReadBack(entries.more, rest);
    }
  }
}
