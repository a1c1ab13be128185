/** Reading a rollout line by line under a cap (src-tauri/src/codex_rollouts.rs):
    what `parse_reader` and `skip_line` make of a byte stream, however the reader
    cuts it into buffers. */
module RolloutFraming {
  import opened Bytes
  import opened Wrappers
  import opened RolloutFold

  /** Cap on one record line, its newline included. */
  const MAX_LINE: nat := 4 * 1024 * 1024

  /** A stream cut at its newlines: the terminated lines, each with its newline, and
      whatever follows the last newline. */
  datatype Cut = Cut(lines: seq<seq<Byte>>, partial: seq<Byte>)

  ghost function CutOf(s: seq<Byte>): Cut {
    if s == [] then Cut([], [])
    else
      var before, b := CutOf(s[..|s| - 1]), s[|s| - 1];
      if b == NEWLINE then Cut(before.lines + [before.partial + [b]], [])
      else before.(partial := before.partial + [b])
  }

  /** The newline-terminated lines of a stream; what follows the last newline is not one. */
  ghost function Lines(s: seq<Byte>): seq<seq<Byte>> {
    CutOf(s).lines
  }

  /** The lines that are parsed: those within the cap. */
  ghost function Kept(lines: seq<seq<Byte>>): seq<seq<Byte>> {
    if lines == [] then []
    else
      var earlier, line := Kept(lines[..|lines| - 1]), lines[|lines| - 1];
      if |line| <= MAX_LINE then earlier + [line] else earlier
  }

  /** The records of the lines that decode; a line that does not contributes nothing. */
  ghost function Decoded(decode: seq<Byte> -> Option<Record>, lines: seq<seq<Byte>>): seq<Record> {
    if lines == [] then []
    else
      var earlier, r := Decoded(decode, lines[..|lines| - 1]), decode(lines[|lines| - 1]);
      if r.Some? then earlier + [r.value] else earlier
  }

  /** The records a stream holds. */
  ghost function Records(decode: seq<Byte> -> Option<Record>, s: seq<Byte>): seq<Record> {
    Decoded(decode, Kept(Lines(s)))
  }

  // ── The lines of a stream ─────────────────────────────────────────────────

  /** One newline, and it is the last byte. */
  ghost predicate IsLine(line: seq<Byte>) {
    line != [] && line[|line| - 1] == NEWLINE && NEWLINE !in line[..|line| - 1]
  }

  ghost function Concat(lines: seq<seq<Byte>>): seq<Byte> {
    if lines == [] then [] else Concat(lines[..|lines| - 1]) + lines[|lines| - 1]
  }

  lemma ConcatStep(lines: seq<seq<Byte>>, line: seq<Byte>)
    ensures Concat(lines + [line]) == Concat(lines) + line
  {
    assert (lines + [line])[..|lines|] == lines;
  }

  /** The lines and the remainder are the stream, nothing lost or reordered; every
      line holds exactly one newline, at its end, and the remainder none. */
  lemma {:induction false} LinesPartition(s: seq<Byte>)
    ensures s == Concat(Lines(s)) + CutOf(s).partial
    ensures NEWLINE !in CutOf(s).partial
    ensures forall line :: line in Lines(s) ==> IsLine(line)
  {
    if s != [] {
      var before, b := CutOf(s[..|s| - 1]), s[|s| - 1];
      LinesPartition(s[..|s| - 1]);
      assert s == s[..|s| - 1] + [b];
      if b == NEWLINE {
        ConcatStep(before.lines, before.partial + [b]);
        LineExtends(before.partial, [b]);
      }
    }
  }

  lemma LineExtends(start: seq<Byte>, end: seq<Byte>)
    requires NEWLINE !in start && IsLine(end)
    ensures IsLine(start + end)
  {
    assert (start + end)[..|start| + |end| - 1] == start + end[..|end| - 1];
  }

  /** The cut of a concatenation: the second part's first line continues what the
      first part left unterminated. */
  ghost function Continued(a: Cut, b: Cut): Cut {
    if b.lines == [] then a.(partial := a.partial + b.partial)
    else Cut(a.lines + [a.partial + b.lines[0]] + b.lines[1..], b.partial)
  }

  lemma {:induction false} CutOfConcat(a: seq<Byte>, b: seq<Byte>)
    ensures CutOf(a + b) == Continued(CutOf(a), CutOf(b))
  {
    if b == [] {
      assert a + b == a;
    } else {
      CutOfConcat(a, b[..|b| - 1]);
      assert (a + b)[..|a + b| - 1] == a + b[..|b| - 1];
      ContinuedByte(CutOf(a), CutOf(b[..|b| - 1]), b[|b| - 1]);
    }
  }

  lemma ContinuedByte(a: Cut, b: Cut, byte: Byte)
    ensures Continued(a, b.(partial := b.partial + [byte])) ==
            Continued(a, b).(partial := Continued(a, b).partial + [byte])
    ensures Continued(a, Cut(b.lines + [b.partial + [byte]], [])) ==
            Cut(Continued(a, b).lines + [Continued(a, b).partial + [byte]], [])
  {
    if b.lines == [] {
      assert b.lines + [b.partial + [byte]] == [b.partial + [byte]];
      assert a.partial + (b.partial + [byte]) == (a.partial + b.partial) + [byte];
    } else {
      var more := b.lines + [b.partial + [byte]];
      assert more[1..] == b.lines[1..] + [b.partial + [byte]] && more[0] == b.lines[0];
    }
  }

  lemma {:induction false} CutOfNewlineFree(s: seq<Byte>)
    requires NEWLINE !in s
    ensures CutOf(s) == Cut([], s)
  {
    if s != [] {
      CutOfNewlineFree(s[..|s| - 1]);
      assert s == s[..|s| - 1] + [s[|s| - 1]];
    }
  }

  lemma FirstLineSplit(line: seq<Byte>, rest: seq<Byte>)
    requires IsLine(line)
    ensures Lines(line + rest) == [line] + Lines(rest)
  {
    CutOfNewlineFree(line[..|line| - 1]);
    assert line == line[..|line| - 1] + [NEWLINE];
    assert CutOf(line) == Cut([line], []);
    CutOfConcat(line, rest);
    if Lines(rest) != [] {
      assert [] + Lines(rest)[0] == Lines(rest)[0];
      assert Lines(rest) == [Lines(rest)[0]] + Lines(rest)[1..];
    }
  }

  /** A stream that has grown keeps every line it had. */
  lemma PrefixLines(s: seq<Byte>, more: seq<Byte>) returns (added: seq<seq<Byte>>)
    ensures Lines(s + more) == Lines(s) + added
  {
    CutOfConcat(s, more);
    added := Lines(s + more)[|Lines(s)|..];
  }

  /** A stream cut after a newline: the lines are those of the two parts. */
  lemma LinesAfterNewline(s: seq<Byte>, more: seq<Byte>)
    requires s != [] && s[|s| - 1] == NEWLINE
    ensures Lines(s + more) == Lines(s) + Lines(more)
  {
    CutOfConcat(s, more);
    if Lines(more) != [] {
      assert [] + Lines(more)[0] == Lines(more)[0];
      assert Lines(more) == [Lines(more)[0]] + Lines(more)[1..];
    }
  }

  lemma {:induction false} KeptOfConcat(a: seq<seq<Byte>>, b: seq<seq<Byte>>)
    ensures Kept(a + b) == Kept(a) + Kept(b)
  {
    if b == [] {
      assert a + b == a;
    } else {
      KeptOfConcat(a, b[..|b| - 1]);
      assert (a + b)[..|a + b| - 1] == a + b[..|b| - 1];
    }
  }

  lemma {:induction false} DecodedOfConcat(decode: seq<Byte> -> Option<Record>, a: seq<seq<Byte>>, b: seq<seq<Byte>>)
    ensures Decoded(decode, a + b) == Decoded(decode, a) + Decoded(decode, b)
  {
    if b == [] {
      assert a + b == a;
    } else {
      DecodedOfConcat(decode, a, b[..|b| - 1]);
      assert (a + b)[..|a + b| - 1] == a + b[..|b| - 1];
    }
  }

  // ── The buffered reader ───────────────────────────────────────────────────

  /** `iter().position(|b| *b == b'\n')`. */
  method Position(buffer: seq<Byte>) returns (i: nat)
    ensures i <= |buffer|
    ensures i < |buffer| ==> IsLine(buffer[..i + 1])
    ensures i == |buffer| ==> NEWLINE !in buffer
  {
    i := 0;
    while i < |buffer| && buffer[i] != NEWLINE
      invariant i <= |buffer| && NEWLINE !in buffer[..i]
    {
      assert buffer[..i + 1] == buffer[..i] + [buffer[i]];
      i := i + 1;
    }
    if i < |buffer| {
      assert buffer[..i + 1][..i] == buffer[..i];
    } else {
      assert buffer[..i] == buffer;
    }
  }

  function Flatten(buffers: seq<seq<Byte>>): seq<Byte> {
    if buffers == [] then [] else buffers[0] + Flatten(buffers[1..])
  }

  lemma Rejoined(got: seq<Byte>, buffer: seq<Byte>, rest: seq<Byte>, n: nat)
    requires buffer <= rest
    ensures (got + buffer) + rest[|buffer|..] == got + rest
    ensures n <= |buffer| ==> (got + buffer[..n]) + rest[n..] == got + rest
  {
    assert rest == buffer + rest[|buffer|..];
    if n <= |buffer| {
      assert rest == buffer[..n] + rest[n..];
    }
  }

  /** A `BufRead`: the buffers it will hand out, each non-empty, and whether the
      stream then ends or fails. */
  class Reader {
    var buffers: seq<seq<Byte>>
    const fails: bool

    constructor (buffers: seq<seq<Byte>>, fails: bool)
      requires forall i :: 0 <= i < |buffers| ==> buffers[i] != []
      ensures Valid() && this.buffers == buffers && this.fails == fails
    {
      this.buffers := buffers;
      this.fails := fails;
    }

    ghost predicate Valid()
      reads this
    {
      forall i :: 0 <= i < |buffers| ==> buffers[i] != []
    }

    /** The bytes still to come. */
    function Rest(): seq<Byte>
      reads this
    {
      Flatten(buffers)
    }

    method FillBuf() returns (buffer: Result<seq<Byte>, ()>)
      requires Valid()
      ensures buffer.Err? ==> Rest() == []
      ensures buffer.Ok? ==> buffer.value <= Rest() && (buffer.value == [] <==> Rest() == [])
      ensures buffer.Ok? && buffers != [] ==> buffer.value == buffers[0]
    {
      if buffers != [] {
        return Ok(buffers[0]);
      }
      return if fails then Err(()) else Ok([]);
    }

    method Consume(n: nat)
      requires Valid() && buffers != [] && n <= |buffers[0]|
      modifies this
      ensures Valid() && Rest() == old(Rest())[n..]
    {
      var left := buffers[0][n..];
      assert Flatten(buffers)[n..] == left + Flatten(buffers[1..]);
      buffers := (if left == [] then [] else [left]) + buffers[1..];
      if left == [] {
        assert buffers == old(buffers)[1..];
      } else {
        assert buffers[1..] == old(buffers)[1..];
      }
    }

    /** `take(limit).read_until(b'\n', ..)`: bytes up to and including the first
        newline, at most `limit` of them, fewer only at the end of the stream. */
    method ReadLine(limit: nat) returns (line: Result<seq<Byte>, ()>)
      requires Valid()
      modifies this
      ensures Valid()
      ensures line.Err? ==> Rest() == [] && NEWLINE !in old(Rest())
      ensures line.Ok? ==> line.value + Rest() == old(Rest()) && |line.value| <= limit
      ensures line.Ok? ==>
        || IsLine(line.value)
        || (NEWLINE !in line.value && (|line.value| == limit || Rest() == []))
    {
      var got: seq<Byte> := [];
      ghost var start := Rest();
      while |got| < limit
        invariant Valid() && |got| <= limit
        invariant got + Rest() == start
        invariant NEWLINE !in got
        decreases limit - |got|
      {
        var buffer := FillBuf();
        if buffer.Err? {
          return Err(());
        }
        if buffer.value == [] {
          return Ok(got);
        }
        var n := if limit - |got| < |buffer.value| then limit - |got| else |buffer.value|;
        var window := buffer.value[..n];
        var i := Position(window);
        Rejoined(got, window, Rest(), i + 1);
        if i < n {
          window := window[..i + 1];
          assert window == buffer.value[..i + 1];
          Consume(i + 1);
          LineExtends(got, window);
          return Ok(got + window);
        }
        Consume(n);
        got := got + window;
      }
      return Ok(got);
    }

    /** Pass over bytes to the next newline, holding one buffer at a time; the answer
        is whether there was one. */
    method SkipLine() returns (more: bool, ghost skipped: seq<Byte>)
      requires Valid()
      modifies this
      ensures Valid() && skipped + Rest() == old(Rest())
      ensures if more then IsLine(skipped) else NEWLINE !in skipped && Rest() == []
    {
      skipped := [];
      ghost var start := Rest();
      while true
        invariant Valid()
        invariant skipped + Rest() == start
        invariant NEWLINE !in skipped
        decreases |Rest()|
      {
        var buffer := FillBuf();
        if buffer.Err? || buffer.value == [] {
          return false, skipped;
        }
        var i := Position(buffer.value);
        Rejoined(skipped, buffer.value, Rest(), i + 1);
        if i < |buffer.value| {
          Consume(i + 1);
          LineExtends(skipped, buffer.value[..i + 1]);
          return true, skipped + buffer.value[..i + 1];
        }
        Consume(|buffer.value|);
        skipped := skipped + buffer.value;
      }
    }
  }

  // ── The parse ─────────────────────────────────────────────────────────────

  /** One line read: its record, if it is within the cap and decodes, comes first. */
  lemma FirstLineRecords(decode: seq<Byte> -> Option<Record>, line: seq<Byte>, rest: seq<Byte>)
    requires IsLine(line)
    ensures Records(decode, line + rest) ==
            (if |line| <= MAX_LINE && decode(line).Some? then [decode(line).value] else []) + Records(decode, rest)
  {
    FirstLineSplit(line, rest);
    KeptOfConcat([line], Lines(rest));
    DecodedOfConcat(decode, Kept([line]), Kept(Lines(rest)));
    assert [line][..0] == [];
  }

  lemma NoRecords(decode: seq<Byte> -> Option<Record>, s: seq<Byte>)
    requires NEWLINE !in s
    ensures Records(decode, s) == []
  {
    CutOfNewlineFree(s);
  }

  /** What one turn of the parse loop finds: the end, a line dropped whole because
      it is over the cap, or a line to decode. */
  datatype Turn = End | Dropped | Line(bytes: seq<Byte>)

  ghost function TurnRecords(decode: seq<Byte> -> Option<Record>, turn: Turn): seq<Record> {
    if turn.Line? && decode(turn.bytes).Some? then [decode(turn.bytes).value] else []
  }

  method NextLine(ghost decode: seq<Byte> -> Option<Record>, reader: Reader) returns (turn: Turn)
    requires reader.Valid()
    modifies reader
    ensures reader.Valid()
    ensures turn.End? ==> Records(decode, old(reader.Rest())) == []
    ensures !turn.End? ==>
      && |reader.Rest()| < |old(reader.Rest())|
      && Records(decode, old(reader.Rest())) == TurnRecords(decode, turn) + Records(decode, reader.Rest())
  {
    ghost var start := reader.Rest();
    var line := reader.ReadLine(MAX_LINE);
    if line.Err? || line.value == [] {
      NoRecords(decode, start);
      return End;
    }
    if line.value[|line.value| - 1] != NEWLINE {
      if |line.value| < MAX_LINE {
        NoRecords(decode, start);
        return End;
      }
      var more, skipped := reader.SkipLine();
      assert start == (line.value + skipped) + reader.Rest();
      if !more {
        NoRecords(decode, start);
        return End;
      }
      LineExtends(line.value, skipped);
      FirstLineRecords(decode, line.value + skipped, reader.Rest());
      return Dropped;
    }
    FirstLineRecords(decode, line.value, reader.Rest());
    return Line(line.value);
  }

  method TakeNext(builder: SummaryBuilder, ghost taken: seq<Record>, r: Record)
    requires builder.Valid() && builder.Value() == Fold(builder.prose, taken)
    modifies builder, builder.events, builder.items
    ensures builder.Value() == Fold(builder.prose, taken + [r])
  {
    FoldStep(builder.prose, taken, r);
    builder.Take(r);
  }

  /** However the stream is cut into buffers, and whether it ends or fails, the
      summary is the fold of exactly the records on its newline-terminated lines of
      at most `MAX_LINE` bytes, in order. */
  method ParseReader(prose: Prose, decode: seq<Byte> -> Option<Record>, reader: Reader) returns (out: Parsed)
    requires reader.Valid()
    modifies reader
    ensures out == Fold(prose, Records(decode, old(reader.Rest())))
  {
    var builder := new SummaryBuilder(prose);
    ghost var all := Records(decode, reader.Rest());
    ghost var taken: seq<Record> := [];
    while true
      invariant reader.Valid() && builder.Valid() && builder.prose == prose
      invariant fresh(builder) && fresh(builder.events) && fresh(builder.items)
      invariant builder.Value() == Fold(prose, taken)
      invariant all == taken + Records(decode, reader.Rest())
      decreases |reader.Rest()|
    {
      var turn := NextLine(decode, reader);
      if turn.End? {
        assert all == taken;
        break;
      }
      ghost var found := TurnRecords(decode, turn);
      assert all == (taken + found) + Records(decode, reader.Rest());
      if turn.Line? {
        var r := decode(turn.bytes);
        if r.Some? {
          TakeNext(builder, taken, r.value);
        }
      }
      assert found == [] ==> taken + found == taken;
      taken := taken + found;
    }
    out := builder.Value();
  }
}
