/** Whether the installed copy already holds the source's bytes (`is_installed` and
    `read_full`, src-tauri/src/bundled_bin.rs), once its metadata has passed. */
module FileCompare {
  import opened Bytes
  import opened Wrappers

  const CHUNK: nat := 64 * 1024

  /** An open file whose contents do not change while it is read. */
  class Handle {
    const bytes: seq<Byte>
    var pos: nat
    /** Whether a read of it has failed. */
    var failed: bool

    constructor (bytes: seq<Byte>)
      ensures this.bytes == bytes && pos == 0 && !failed
    {
      this.bytes := bytes;
      pos, failed := 0, false;
    }

    /** Bytes between here and the end of the file. */
    function Left(): nat
      reads this
    {
      if pos <= |bytes| then |bytes| - pos else 0
    }

    method Rewind()
      modifies this`pos
      ensures pos == 0
    {
      pos := 0;
    }

    /** One `read` into `buf[from..to]`: it may fail, and it may be short; it is empty
        only for an empty buffer or at the end of the file. */
    method Read(buf: array<Byte>, from: nat, to: nat) returns (count: Result<nat, ()>)
      requires from <= to <= buf.Length && pos <= |bytes|
      modifies this, buf
      ensures count.Err? ==> pos == old(pos) && failed
      ensures count.Ok? ==> failed == old(failed)
      ensures count.Ok? ==>
        && count.value <= Min(to - from, old(Left()))
        && (count.value == 0 ==> from == to || old(Left()) == 0)
        && pos == old(pos) + count.value
        && buf[from..from + count.value] == bytes[old(pos)..pos]
      ensures forall i :: 0 <= i < from ==> buf[i] == old(buf[i])
    {
      if * {
        failed := true;
        return Err(());
      }
      var most := Min(to - from, |bytes| - pos);
      var n: nat := 0;
      if most > 0 {
        n :| 0 < n <= most;
      }
      forall k | 0 <= k < n {
        buf[from + k] := bytes[pos + k];
      }
      pos := pos + n;
      return Ok(n);
    }
  }

  /** `read` until the first `want` bytes of `buf` are full or the file ends. */
  method ReadFull(file: Handle, buf: array<Byte>, want: nat) returns (filled: Result<nat, ()>)
    requires want <= buf.Length && file.pos <= |file.bytes|
    modifies file, buf
    ensures filled.Err? ==> file.failed
    ensures filled.Ok? ==> file.failed == old(file.failed)
    ensures filled.Ok? ==>
      && filled.value == Min(want, old(file.Left()))
      && file.pos == old(file.pos) + filled.value
      && buf[..filled.value] == file.bytes[old(file.pos)..file.pos]
  {
    var got := 0;
    ghost var start := file.pos;
    while got < want
      invariant file.failed == old(file.failed)
      invariant got <= want && file.pos == start + got <= |file.bytes|
      invariant buf[..got] == file.bytes[start..file.pos]
      decreases want - got
    {
      ghost var before := buf[..got];
      var count := file.Read(buf, got, want);
      if count.Err? {
        return Err(());
      }
      assert buf[..got] == before;
      if count.value == 0 {
        break;
      }
      assert buf[..got + count.value] == buf[..got] + buf[got..got + count.value];
      assert file.bytes[start..file.pos] ==
             file.bytes[start..start + got] + file.bytes[start + got..file.pos];
      got := got + count.value;
    }
    return Ok(got);
  }

  /** For every pattern of short reads, and whatever the two lengths are, an answer is
      true exactly when the two files hold the same bytes. Only a failed read is no
      answer. */
  method SameBytes(source: Handle, dest: Handle) returns (same: Result<bool, ()>)
    requires source != dest && dest.pos == 0 && !source.failed && !dest.failed
    modifies source, dest
    ensures same.Err? <==> source.failed || dest.failed
    ensures same.Ok? ==> (same.value <==> source.bytes == dest.bytes)
  {
    source.Rewind();
    var a := new Byte[CHUNK](_ => 0);
    var b := new Byte[CHUNK](_ => 0);
    while true
      invariant source.pos == dest.pos <= |source.bytes| && !source.failed && !dest.failed
      invariant source.pos <= |dest.bytes|
      invariant source.bytes[..source.pos] == dest.bytes[..source.pos]
      decreases |source.bytes| - source.pos
    {
      ghost var i := source.pos;
      var n := ReadFull(source, a, CHUNK);
      if n.Err? {
        return Err(());
      }
      // At the source's end one byte more is asked of the target.
      var m := ReadFull(dest, b, if n.value == 0 then 1 else n.value);
      if m.Err? {
        return Err(());
      }
      if n.value != m.value || a[..n.value] != b[..m.value] {
        Differ(source.bytes, dest.bytes, i, n.value, m.value);
        return Ok(false);
      }
      if n.value == 0 {
        assert source.bytes[..i] == source.bytes && dest.bytes[..i] == dest.bytes;
        return Ok(true);
      }
      assert source.bytes[..source.pos] == source.bytes[..i] + source.bytes[i..source.pos];
      assert dest.bytes[..source.pos] == dest.bytes[..i] + dest.bytes[i..source.pos];
    }
  }

  /** Two files that agree up to `i` and whose next stretches differ are different. */
  lemma Differ(a: seq<Byte>, b: seq<Byte>, i: nat, n: nat, m: nat)
    requires i <= |a| && i <= |b|
    requires n == Min(CHUNK, |a| - i) && m == Min(if n == 0 then 1 else n, |b| - i)
    requires n != m || a[i..i + n] != b[i..i + m]
    ensures a != b
  {
  }
}
