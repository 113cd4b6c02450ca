/** The seekable read cursor over an in-memory firmware image
    (`js/lib/BufferStream.js`). */
module BufferStreams {
  import opened Prelude

  /** The outcome of `read(size)` on buffer `buf` at cursor `idx`: the chunk
      returned (if any) and the new cursor.  A chunk is the slice from the
      cursor, at most `size` long and never past the end; when no byte
      remains, or the buffer was released, nothing is returned and the
      cursor stays put. */
  function ReadAt(buf: Option<seq<byte>>, idx: nat, size: nat): (res: (Option<seq<byte>>, nat))
    ensures res.0.None? <==> buf.None? || idx >= |buf.value| || size == 0
    ensures res.0.None? ==> res.1 == idx
    ensures res.0.Some? ==>
      idx < res.1 <= |buf.value| && res.1 <= idx + size &&
      res.0.value == buf.value[idx..res.1] &&
      (res.1 == idx + size || res.1 == |buf.value|)
  {
    match buf
    case None => (None, idx)
    case Some(b) =>
      var endIdx := if idx + size >= |b| then |b| else idx + size;
      if endIdx - idx > 0 then (Some(b[idx..endIdx]), endIdx) else (None, idx)
  }

  class BufferStream {
    /** The image, or `None` once `end` released it. */
    var buf: Option<seq<byte>>
    /** The read cursor. */
    var idx: nat

    constructor (buffer: seq<byte>)
      ensures buf == Some(buffer) && idx == 0
    {
      buf := Some(buffer);
      idx := 0;
    }

    method Seek(i: nat)
      modifies this`idx
      ensures idx == i
    {
      idx := i;
    }

    method Read(size: nat) returns (r: Option<seq<byte>>)
      modifies this`idx
      ensures (r, idx) == ReadAt(buf, old(idx), size)
    {
      if buf.None? {
        return None;
      }
      var b := buf.value;
      var endIdx := idx + size;
      if endIdx >= |b| {
        endIdx := |b|;
      }
      r := None;
      if endIdx - idx > 0 {
        r := Some(b[idx..endIdx]);
        idx := endIdx;
      }
    }

    method End()
      modifies this`buf
      ensures buf.None?
    {
      buf := None;
    }
  }

  /** The chunks that successive `read(size)` calls return from cursor `idx`
      until the first one that returns nothing. */
  function ReadAll(b: seq<byte>, idx: nat, size: nat): (chunks: seq<seq<byte>>)
    requires size > 0
    decreases |b| - idx
  {
    var (r, next) := ReadAt(Some(b), idx, size);
    if r.None? then [] else [r.value] + ReadAll(b, next, size)
  }

  /** Reading a fixed size from the cursor to the end returns consecutive
      slices that together make up the rest of the buffer; every slice but
      the last has exactly `size` bytes, and the last is not empty. */
  lemma {:induction false} ReadAllCoversBuffer(b: seq<byte>, idx: nat, size: nat)
    requires size > 0 && idx <= |b|
    ensures Flatten(ReadAll(b, idx, size)) == b[idx..]
    ensures forall i :: 0 <= i < |ReadAll(b, idx, size)| - 1 ==> |ReadAll(b, idx, size)[i]| == size
    ensures forall i :: 0 <= i < |ReadAll(b, idx, size)| ==> 0 < |ReadAll(b, idx, size)[i]| <= size
    decreases |b| - idx
  {
    var (r, next) := ReadAt(Some(b), idx, size);
    if r.Some? {
      ReadAllCoversBuffer(b, next, size);
      var rest := ReadAll(b, next, size);
      assert ReadAll(b, idx, size) == [r.value] + rest;
      assert b[idx..] == b[idx..next] + b[next..];
      if rest != [] {
        assert next < |b|;
        assert |r.value| == size;
      }
    }
  }

  /** Consequently reading from index 0 returns the whole image. */
  lemma ReadFromStart(b: seq<byte>, size: nat)
    requires size > 0
    ensures Flatten(ReadAll(b, 0, size)) == b
  {
    ReadAllCoversBuffer(b, 0, size);
    assert b[0..] == b;
  }
}
