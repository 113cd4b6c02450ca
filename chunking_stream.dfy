/** Length-prefix framing of the encrypted message stream
    (`js/lib/ChunkingStream.js`): outgoing messages get a 2-byte big-endian
    length in front; incoming bytes are reassembled into messages. */
module Chunking {
  import opened Prelude

  const MSG_LENGTH_BYTES: nat := 2

  /** `msgLengthBytes`: the two header bytes `len >>> 8` and `len & 255`,
      each stored modulo 256 as a Buffer stores it. */
  function MsgLengthBytes(msg: Option<seq<byte>>): (r: Option<seq<byte>>)
    ensures r.None? <==> msg.None?
    ensures r.Some? ==> (|r.value| == MSG_LENGTH_BYTES &&
      r.value[0] as int * 256 + r.value[1] as int == |msg.value| % 65536)
  {
    match msg
    case None => None
    case Some(m) =>
      var len := |m|;
      LowOctets(len);
      Some([((len / 256) % 256) as byte, (len % 256) as byte])
  }

  /** The two low octets of `n`, high one first, make up `n` modulo 2^16. */
  lemma LowOctets(n: nat)
    ensures ((n / 256) % 256) * 256 + n % 256 == n % 65536
  {
    var q := n / 256;
    assert n == q * 256 + n % 256;
    assert q == (q / 256) * 256 + q % 256;
    DivModOfSum(n, q / 256, (q % 256) * 256 + n % 256, 65536);
  }

  /** The bytes the outgoing direction pushes for one message. */
  function Frame(m: seq<byte>): (f: seq<byte>)
    ensures |f| == |m| + 2 && f[2..] == m
    ensures |m| < 65536 ==> f[0] as int * 256 + f[1] as int == |m|
  {
    MsgLengthBytes(Some(m)).value + m
  }

  /** The concatenated frames of a sequence of messages. */
  function Stream(msgs: seq<seq<byte>>): (s: seq<byte>)
  {
    if msgs == [] then [] else Frame(msgs[0]) + Stream(msgs[1..])
  }

  // -----------------------------------------------------------------------
  // The incoming reassembler as a function of its abstract state

  /** Between messages; collecting a message of `expected` bytes of which
      `got` have arrived; or stuck: a new message began with fewer than two
      bytes, so the expected length became NaN and every later byte is
      dropped. */
  datatype Reassembly = Idle | Partial(expected: nat, got: seq<byte>) | Wedged

  predicate WellFormed(st: Reassembly)
  {
    st.Partial? ==> |st.got| < st.expected
  }

  /** A `process` call can make progress: the reassembler is not stuck
      and a new message does not start with fewer than two bytes. */
  predicate Live(st: Reassembly, chunk: seq<byte>)
  {
    WellFormed(st) && !st.Wedged? && !(st.Idle? && |chunk| < 2)
  }

  /** Where the current message's bytes begin in a chunk: after the two
      header bytes when the chunk starts a message. */
  function StartIdx(st: Reassembly): nat
  {
    if st.Idle? then MSG_LENGTH_BYTES else 0
  }

  /** What one `process` call takes from a chunk for the current message:
      its declared length, the bytes collected so far, and the index in the
      chunk where the copied part ends. */
  datatype Progress = Progress(expected: nat, got: seq<byte>, endIdx: nat)

  function Take(st: Reassembly, chunk: seq<byte>): (p: Progress)
    requires Live(st, chunk)
    ensures StartIdx(st) <= p.endIdx <= |chunk|
    ensures |p.got| <= p.expected
    ensures |p.got| < p.expected ==> p.endIdx == |chunk|
    ensures |chunk| > 0 ==> p.endIdx > 0
    ensures p.expected == if st.Idle? then chunk[0] as nat * 256 + chunk[1] as nat else st.expected
    ensures p.got == (if st.Idle? then [] else st.got) + chunk[StartIdx(st)..p.endIdx]
  {
    var expected: nat := if st.Idle? then chunk[0] as nat * 256 + chunk[1] as nat else st.expected;
    var got := if st.Idle? then [] else st.got;
    var start := StartIdx(st);
    var endIdx := Min(start + (expected - |got|), |chunk|);
    Progress(expected, got + chunk[start..endIdx], endIdx)
  }

  /** `process(chunk)`: the new state and the messages emitted, in order. */
  function Process(st: Reassembly, chunk: seq<byte>): (res: (Reassembly, seq<seq<byte>>))
    requires WellFormed(st)
    ensures WellFormed(res.0)
    ensures st.Wedged? ==> res == (Wedged, [])
    decreases |chunk|
  {
    if !Live(st, chunk) then (Wedged, [])
    else
      var p := Take(st, chunk);
      if |p.got| == p.expected then
        if p.endIdx < |chunk| then
          var next := Process(Idle, chunk[p.endIdx..]);
          (next.0, [p.got] + next.1)
        else (Idle, [p.got])
      else (Partial(p.expected, p.got), [])
  }

  /** Feeding a sequence of chunks one `process` call at a time. */
  function Feed(st: Reassembly, chunks: seq<seq<byte>>): (res: (Reassembly, seq<seq<byte>>))
    requires WellFormed(st)
    ensures WellFormed(res.0)
    decreases |chunks|
  {
    if chunks == [] then (st, [])
    else
      var first := Process(st, chunks[0]);
      var rest := Feed(first.0, chunks[1..]);
      (rest.0, first.1 + rest.1)
  }

  // -----------------------------------------------------------------------
  // The reassembler as the stream object of the source

  class ChunkingStream {
    const outgoing: bool
    var incomingBuffer: array?<byte>
    var incomingIdx: int
    var expectedLength: int
    /** The NaN state: the counters no longer compare with anything. */
    var wedged: bool
    /** What the stream has pushed to its readers, in order. */
    var pushed: seq<seq<byte>>

    ghost predicate Valid()
      reads this, incomingBuffer
    {
      wedged ||
      (incomingIdx == -1 && incomingBuffer == null) ||
      (incomingBuffer != null && incomingBuffer.Length == expectedLength &&
       0 <= incomingIdx < expectedLength)
    }

    ghost function State(): (st: Reassembly)
      reads this, incomingBuffer
      requires Valid()
      ensures WellFormed(st)
    {
      if wedged then Wedged
      else if incomingIdx == -1 then Idle
      else Partial(expectedLength, incomingBuffer[..incomingIdx])
    }

    constructor (outgoing: bool)
      ensures this.outgoing == outgoing
      ensures Valid() && State() == Idle && pushed == []
    {
      this.outgoing := outgoing;
      incomingBuffer := null;
      incomingIdx := -1;
      expectedLength := -1;
      wedged := false;
      pushed := [];
    }

    /** `_transform`: frame an outgoing message, or hand incoming bytes to
        the reassembler. */
    method Transform(chunk: seq<byte>)
      requires Valid()
      modifies this, incomingBuffer
      ensures Valid()
      ensures outgoing ==> (pushed == old(pushed) + [Frame(chunk)] &&
        incomingBuffer == old(incomingBuffer) && State() == old(State()))
      ensures !outgoing ==>
        State() == Process(old(State()), chunk).0 &&
        pushed == old(pushed) + Process(old(State()), chunk).1
    {
      if outgoing {
        var header := MsgLengthBytes(Some(chunk));
        pushed := pushed + [header.value + chunk];
      } else {
        ProcessChunk(Some(chunk));
      }
    }

    /** `process`: copy as much of the current message as the chunk holds,
        emit it when complete and start over on the remainder. */
    method ProcessChunk(chunk: Option<seq<byte>>)
      requires Valid()
      modifies this, incomingBuffer
      ensures Valid()
      ensures chunk.None? ==> State() == old(State()) && pushed == old(pushed)
      ensures chunk.Some? ==>
        State() == Process(old(State()), chunk.value).0 &&
        pushed == old(pushed) + Process(old(State()), chunk.value).1
      decreases if chunk.None? then 0 else |chunk.value| + 1, 1
    {
      if chunk.None? {
        return;
      }
      var c := chunk.value;
      if wedged {
        return;
      }
      ghost var st := State();
      if incomingIdx == -1 && |c| < 2 {
        wedged := true;
        return;
      }
      var endIdx := Absorb(c);
      if incomingIdx == expectedLength {
        Emit(st, c, endIdx);
      } else {
        assert Process(st, c) == (Partial(expectedLength, incomingBuffer[..incomingIdx]), []) by {
          ProcessPending(st, c);
        }
      }
    }

    /** The last part of `process` once the message is complete: push it,
        reset the counters and process the rest of the chunk. */
    method Emit(ghost st: Reassembly, c: seq<byte>, endIdx: nat)
      requires Live(st, c) && !wedged
      requires incomingBuffer != null && incomingBuffer.Length == expectedLength == incomingIdx
      requires Take(st, c) == Progress(expectedLength, incomingBuffer[..incomingIdx], endIdx)
      modifies this, incomingBuffer
      ensures Valid()
      ensures State() == Process(st, c).0 && pushed == old(pushed) + Process(st, c).1
      decreases |c| + 1, 0
    {
      var remainder: Option<seq<byte>> := None;
      if endIdx < |c| {
        remainder := Some(c[endIdx..]);
      }
      ghost var msg := incomingBuffer[..];
      assert msg == Take(st, c).got by {
        assert incomingBuffer[..] == incomingBuffer[..incomingIdx];
      }
      pushed := pushed + [incomingBuffer[..]];
      incomingBuffer := null;
      incomingIdx := -1;
      expectedLength := -1;
      ProcessChunk(remainder);
      if endIdx < |c| {
        ghost var next := Process(Idle, c[endIdx..]);
        assert Process(st, c) == (next.0, [msg] + next.1) by {
          CompletesThen(st, c, c[endIdx..]);
        }
        assert pushed == old(pushed) + ([msg] + next.1) by {
          assert pushed == old(pushed) + [msg] + next.1;
        }
      } else {
        assert Process(st, c) == (Idle, [msg]) by {
          ProcessCompletes(st, c);
        }
      }
    }

    /** The first part of `process`: read the length header when the
        chunk starts a message, then copy the chunk's bytes of the current
        message. */
    method Absorb(c: seq<byte>) returns (endIdx: nat)
      requires Valid() && !wedged && !(incomingIdx == -1 && |c| < 2)
      modifies this`incomingBuffer, this`incomingIdx, this`expectedLength, incomingBuffer
      ensures Live(old(State()), c)
      ensures incomingBuffer != null && incomingBuffer.Length == expectedLength
      ensures incomingBuffer == old(incomingBuffer) || fresh(incomingBuffer)
      ensures 0 <= incomingIdx <= expectedLength
      ensures Take(old(State()), c) == Progress(expectedLength, incomingBuffer[..incomingIdx], endIdx)
    {
      ghost var st := State();
      var startIdx := 0;
      if incomingIdx == -1 {
        expectedLength := c[0] as int * 256 + c[1] as int;
        incomingBuffer := new byte[expectedLength];
        incomingIdx := 0;
        startIdx := 2;
      }
      assert incomingBuffer[..incomingIdx] == (if st.Idle? then [] else st.got);
      endIdx := CopyChunk(c, startIdx);
    }

    /** The copying part of `process`: the current message's bytes of `c`
        from `startIdx` on go into the buffer at `incomingIdx`, which
        advances by their number. */
    method CopyChunk(c: seq<byte>, startIdx: nat) returns (endIdx: nat)
      requires incomingBuffer != null && incomingBuffer.Length == expectedLength
      requires 0 <= incomingIdx <= expectedLength && startIdx <= |c|
      modifies this`incomingIdx, incomingBuffer
      ensures endIdx == Min(startIdx + (expectedLength - old(incomingIdx)), |c|)
      ensures incomingIdx == old(incomingIdx) + (endIdx - startIdx) <= expectedLength
      ensures incomingBuffer[..incomingIdx] == old(incomingBuffer[..incomingIdx]) + c[startIdx..endIdx]
    {
      var buffer := incomingBuffer;
      var bytesLeft := expectedLength - incomingIdx;
      var end := startIdx + bytesLeft;
      if end > |c| {
        end := |c|;
      }
      endIdx := end;
      if startIdx < endIdx {
        CopyInto(buffer, incomingIdx, c, startIdx, endIdx);
      }
      incomingIdx := incomingIdx + (endIdx - startIdx);
      assert buffer[..incomingIdx] == old(buffer[..incomingIdx]) + c[startIdx..endIdx] by {
        assert buffer[..incomingIdx] == buffer[..old(incomingIdx)] + buffer[old(incomingIdx)..incomingIdx];
      }
    }
  }

  /** `chunk.copy(dst, at, from, to)`: only `dst[at .. at + to - from)`
      changes, and it receives `src[from..to]`. */
  method CopyInto(dst: array<byte>, at: nat, src: seq<byte>, from: nat, to: nat)
    requires from <= to <= |src| && at + (to - from) <= dst.Length
    modifies dst
    ensures dst[..at] == old(dst[..at])
    ensures dst[at..at + (to - from)] == src[from..to]
    ensures dst[at + (to - from)..] == old(dst[at + (to - from)..])
  {
    var k := 0;
    while k < to - from
      invariant 0 <= k <= to - from
      invariant forall j :: 0 <= j < at ==> dst[j] == old(dst[j])
      invariant forall j :: at <= j < at + k ==> dst[j] == src[from + (j - at)]
      invariant forall j :: at + k <= j < dst.Length ==> dst[j] == old(dst[j])
    {
      dst[at + k] := src[from + k];
      k := k + 1;
    }
    assert dst[at..at + (to - from)] == src[from..to] by {
      forall j | 0 <= j < to - from
        ensures dst[at..at + (to - from)][j] == src[from..to][j]
      {
        assert dst[at + j] == src[from + j];
      }
    }
  }

  // -----------------------------------------------------------------------
  // Round trip

  /** Taking from `a + b` takes the same as from `a` when `a` completes the
      message, and otherwise continues with `b` from where `a` stopped. */
  lemma TakeExtends(st: Reassembly, a: seq<byte>, b: seq<byte>)
    requires Live(st, a)
    ensures Live(st, a + b)
    ensures |Take(st, a).got| == Take(st, a).expected ==> Take(st, a + b) == Take(st, a)
    ensures |Take(st, a).got| < Take(st, a).expected ==>
      var pa := Take(st, a);
      var pb := Take(Partial(pa.expected, pa.got), b);
      Take(st, a + b) == Progress(pa.expected, pb.got, |a| + pb.endIdx)
  {
    var ab := a + b;
    assert Live(st, ab);
    var pa := Take(st, a);
    if |pa.got| == pa.expected {
      TakeExtendsComplete(st, a, b);
    } else {
      TakeExtendsPending(st, a, b);
    }
  }

  lemma TakeExtendsComplete(st: Reassembly, a: seq<byte>, b: seq<byte>)
    requires Live(st, a) && Live(st, a + b)
    requires |Take(st, a).got| == Take(st, a).expected
    ensures Take(st, a + b) == Take(st, a)
  {
    var ab := a + b;
    var pa := Take(st, a);
    var pab := Take(st, ab);
    var start := StartIdx(st);
    assert pab.expected == pa.expected by {
      assert st.Idle? ==> ab[0] == a[0] && ab[1] == a[1];
    }
    assert pab.endIdx == pa.endIdx;
    assert ab[start..pa.endIdx] == a[start..pa.endIdx];
  }

  lemma TakeExtendsPending(st: Reassembly, a: seq<byte>, b: seq<byte>)
    requires Live(st, a) && Live(st, a + b)
    requires |Take(st, a).got| < Take(st, a).expected
    ensures
      var pa := Take(st, a);
      var pb := Take(Partial(pa.expected, pa.got), b);
      Take(st, a + b) == Progress(pa.expected, pb.got, |a| + pb.endIdx)
  {
    var pa := Take(st, a);
    var pab := Take(st, a + b);
    var start := StartIdx(st);
    var got := if st.Idle? then [] else st.got;
    var pb := Take(Partial(pa.expected, pa.got), b);
    var k := pb.endIdx;
    assert pab.expected == pa.expected by {
      assert st.Idle? ==> (a + b)[0] == a[0] && (a + b)[1] == a[1];
    }
    assert pab.endIdx == |a| + k by {
      assert pa.endIdx == |a|;
      assert |pa.got| == |got| + |a| - start;
    }
    assert pab.got == pb.got by {
      assert pa.got == got + a[start..];
      ConcatAcross(got, a, b, start, k);
    }
  }

  lemma ConcatAcross(got: seq<byte>, a: seq<byte>, b: seq<byte>, i: nat, k: nat)
    requires i <= |a| && k <= |b|
    ensures got + (a + b)[i..|a| + k] == (got + a[i..]) + b[..k]
  {
    assert (a + b)[i..|a| + k] == a[i..] + b[..k];
  }

  /** Processing `a` and then `b` is processing `a + b`, as long as `a`
      leaves the reassembler in a live state. */
  lemma {:induction false} ProcessSplit(st: Reassembly, a: seq<byte>, b: seq<byte>)
    requires WellFormed(st) && |b| > 0 && !Process(st, a).0.Wedged?
    ensures Process(st, a + b) ==
      (Process(Process(st, a).0, b).0, Process(st, a).1 + Process(Process(st, a).0, b).1)
    decreases |a|, 2
  {
    var pa := Take(st, a);
    TakeExtends(st, a, b);
    if |pa.got| == pa.expected {
      ProcessSplitCompleted(st, a, b);
    } else {
      ProcessSplitPending(st, a, b);
    }
  }

  /** One unfolding of `Process` when the chunk completes the message. */
  lemma ProcessCompletes(st: Reassembly, c: seq<byte>)
    requires Live(st, c) && |Take(st, c).got| == Take(st, c).expected
    ensures Take(st, c).endIdx < |c| ==>
      Process(st, c) == (Process(Idle, c[Take(st, c).endIdx..]).0,
                         [Take(st, c).got] + Process(Idle, c[Take(st, c).endIdx..]).1)
    ensures Take(st, c).endIdx == |c| ==> Process(st, c) == (Idle, [Take(st, c).got])
  {
  }

  /** `ProcessCompletes` with the bytes left after the message named. */
  lemma CompletesThen(st: Reassembly, c: seq<byte>, rest: seq<byte>)
    requires Live(st, c) && |Take(st, c).got| == Take(st, c).expected
    requires Take(st, c).endIdx < |c| && c[Take(st, c).endIdx..] == rest
    ensures Process(st, c) == (Process(Idle, rest).0, [Take(st, c).got] + Process(Idle, rest).1)
  {
    ProcessCompletes(st, c);
  }

  /** One unfolding of `Process` when the message is still incomplete. */
  lemma ProcessPending(st: Reassembly, c: seq<byte>)
    requires Live(st, c) && |Take(st, c).got| < Take(st, c).expected
    ensures Process(st, c) == (Partial(Take(st, c).expected, Take(st, c).got), [])
  {
  }

  /** `ProcessSplit` when `a` completes the current message. */
  lemma {:induction false} ProcessSplitCompleted(st: Reassembly, a: seq<byte>, b: seq<byte>)
    requires WellFormed(st) && |b| > 0 && !Process(st, a).0.Wedged?
    requires |Take(st, a).got| == Take(st, a).expected
    ensures Process(st, a + b) ==
      (Process(Process(st, a).0, b).0, Process(st, a).1 + Process(Process(st, a).0, b).1)
    decreases |a|, 1
  {
    var pa := Take(st, a);
    assert Live(st, a + b) && Take(st, a + b) == pa by {
      TakeExtends(st, a, b);
    }
    if pa.endIdx < |a| {
      CompletedWithRest(st, a, b);
    } else {
      assert Process(st, a) == (Idle, [pa.got]) by {
        ProcessCompletes(st, a);
      }
      assert Process(st, a + b) == (Process(Idle, b).0, [pa.got] + Process(Idle, b).1) by {
        ProcessCompletes(st, a + b);
        assert (a + b)[pa.endIdx..] == b;
      }
    }
  }

  /** `ProcessSplitCompleted` when bytes of `a` are left after the message. */
  lemma {:induction false} CompletedWithRest(st: Reassembly, a: seq<byte>, b: seq<byte>)
    requires WellFormed(st) && |b| > 0 && !Process(st, a).0.Wedged?
    requires |Take(st, a).got| == Take(st, a).expected && Take(st, a).endIdx < |a|
    requires Live(st, a + b) && Take(st, a + b) == Take(st, a)
    ensures Process(st, a + b) ==
      (Process(Process(st, a).0, b).0, Process(st, a).1 + Process(Process(st, a).0, b).1)
    decreases |a|, 0
  {
    var pa := Take(st, a);
    var rest := a[pa.endIdx..];
    var next := Process(Idle, rest);
    var last := Process(next.0, b);
    assert Process(st, a) == (next.0, [pa.got] + next.1) by {
      CompletesThen(st, a, rest);
    }
    assert Process(st, a + b) == (Process(Idle, rest + b).0, [pa.got] + Process(Idle, rest + b).1) by {
      assert (a + b)[pa.endIdx..] == rest + b;
      CompletesThen(st, a + b, rest + b);
    }
    assert Process(Idle, rest + b) == (last.0, next.1 + last.1) by {
      ProcessSplit(Idle, rest, b);
    }
    assert [pa.got] + next.1 + last.1 == [pa.got] + (next.1 + last.1);
  }

  /** `ProcessSplit` when the current message is still incomplete after `a`:
      processing `a + b` is processing `b` from the partial state. */
  lemma ProcessSplitPending(st: Reassembly, a: seq<byte>, b: seq<byte>)
    requires WellFormed(st) && |b| > 0 && !Process(st, a).0.Wedged?
    requires |Take(st, a).got| < Take(st, a).expected
    ensures Process(st, a + b) ==
      (Process(Process(st, a).0, b).0, Process(st, a).1 + Process(Process(st, a).0, b).1)
  {
    var pa := Take(st, a);
    var q := Partial(pa.expected, pa.got);
    ProcessPending(st, a);
    assert Process(st, a) == (q, []);
    ContinuePartial(st, a, b);
    assert [] + Process(q, b).1 == Process(q, b).1;
  }

  /** Processing `a + b` when `a` leaves the message incomplete is
      processing `b` from the partial state `a` leaves. */
  lemma ContinuePartial(st: Reassembly, a: seq<byte>, b: seq<byte>)
    requires Live(st, a) && |b| > 0
    requires |Take(st, a).got| < Take(st, a).expected
    ensures Process(st, a + b) == Process(Partial(Take(st, a).expected, Take(st, a).got), b)
  {
    var ab := a + b;
    var pa := Take(st, a);
    var q := Partial(pa.expected, pa.got);
    var pb := Take(q, b);
    assert Live(st, ab) && Take(st, ab) == Progress(pa.expected, pb.got, |a| + pb.endIdx) by {
      TakeExtends(st, a, b);
    }
    assert ab[|a| + pb.endIdx..] == b[pb.endIdx..];
    SameTakeSameProcess(st, ab, q, b);
  }

  /** What `process` does depends only on what it takes and on the bytes
      left after that. */
  lemma SameTakeSameProcess(s1: Reassembly, c1: seq<byte>, s2: Reassembly, c2: seq<byte>)
    requires Live(s1, c1) && Live(s2, c2)
    requires Take(s1, c1).expected == Take(s2, c2).expected && Take(s1, c1).got == Take(s2, c2).got
    requires c1[Take(s1, c1).endIdx..] == c2[Take(s2, c2).endIdx..]
    ensures Process(s1, c1) == Process(s2, c2)
  {
  }

  lemma {:induction false} FeedAppend(st: Reassembly, chunks: seq<seq<byte>>, c: seq<byte>)
    requires WellFormed(st)
    ensures Feed(st, chunks + [c]) ==
      (Process(Feed(st, chunks).0, c).0, Feed(st, chunks).1 + Process(Feed(st, chunks).0, c).1)
    decreases |chunks|
  {
    if chunks == [] {
      assert [] + [c] == [c];
      var first := Process(st, c);
      assert Feed(st, [c]) == (first.0, first.1 + []);
      assert first.1 + [] == first.1 == [] + first.1;
    } else {
      var first := Process(st, chunks[0]);
      assert (chunks + [c])[0] == chunks[0];
      assert (chunks + [c])[1..] == chunks[1..] + [c];
      FeedAppend(first.0, chunks[1..], c);
      var f := Feed(first.0, chunks[1..]);
      assert Feed(st, chunks) == (f.0, first.1 + f.1);
      var last := Process(f.0, c);
      assert Feed(first.0, chunks[1..] + [c]) == (last.0, f.1 + last.1);
      assert first.1 + (f.1 + last.1) == (first.1 + f.1) + last.1;
    }
  }

  /** A whole frame followed by more bytes: the message is emitted and the
      reassembler carries on from `Idle` with the rest. */
  lemma FrameThen(m: seq<byte>, rest: seq<byte>)
    requires |m| < 65536
    ensures rest == [] ==> Process(Idle, Frame(m) + rest) == (Idle, [m])
    ensures rest != [] ==>
      Process(Idle, Frame(m) + rest) == (Process(Idle, rest).0, [m] + Process(Idle, rest).1)
  {
    var f := Frame(m) + rest;
    assert f[0] == Frame(m)[0] && f[1] == Frame(m)[1];
    var p := Take(Idle, f);
    assert p.expected == |m|;
    assert p.endIdx == |m| + 2;
    assert p.got == m;
    assert f[|m| + 2..] == rest;
  }

  /** Position `p` of `Stream(msgs)` falls between the two length bytes of
      one of the frames. */
  predicate InsideHeader(msgs: seq<seq<byte>>, p: int)
  {
    msgs != [] &&
    (p == 1 || (p > |Frame(msgs[0])| && InsideHeader(msgs[1..], p - |Frame(msgs[0])|)))
  }

  predicate AllFit(msgs: seq<seq<byte>>)
  {
    forall i :: 0 <= i < |msgs| ==> |msgs[i]| < 65536
  }

  /** Every prefix of a framed stream that does not end inside a header
      leaves the reassembler live. */
  lemma {:induction false} StreamPrefixIsLive(msgs: seq<seq<byte>>, p: nat)
    requires AllFit(msgs) && 0 < p <= |Stream(msgs)| && !InsideHeader(msgs, p)
    ensures !Process(Idle, Stream(msgs)[..p]).0.Wedged?
    decreases |msgs|
  {
    var m := msgs[0];
    var f := Frame(m);
    var s := Stream(msgs);
    assert s == f + Stream(msgs[1..]);
    if p <= |f| {
      var pre := s[..p];
      assert pre == f[..p];
      assert p >= 2;
      assert pre[0] == f[0] && pre[1] == f[1];
      assert Take(Idle, pre).endIdx == p;
    } else {
      var tail := Stream(msgs[1..])[..p - |f|];
      assert s[..p] == f + tail;
      assert AllFit(msgs[1..]) by {
        forall i | 0 <= i < |msgs[1..]| ensures |msgs[1..][i]| < 65536 {
          assert msgs[1..][i] == msgs[i + 1];
        }
      }
      FrameThen(m, tail);
      StreamPrefixIsLive(msgs[1..], p - |f|);
    }
  }

  /** The whole stream of a non-empty message list decodes to that list. */
  lemma {:induction false} StreamDecodes(msgs: seq<seq<byte>>)
    requires AllFit(msgs) && msgs != []
    ensures Process(Idle, Stream(msgs)) == (Idle, msgs)
    decreases |msgs|
  {
    var rest := Stream(msgs[1..]);
    assert Stream(msgs) == Frame(msgs[0]) + rest;
    FrameThen(msgs[0], rest);
    if msgs[1..] == [] {
      assert rest == [];
      assert msgs == [msgs[0]];
    } else {
      assert AllFit(msgs[1..]) by {
        forall i | 0 <= i < |msgs[1..]| ensures |msgs[1..][i]| < 65536 {
          assert msgs[1..][i] == msgs[i + 1];
        }
      }
      StreamDecodes(msgs[1..]);
      FrameNotEmpty(msgs[1..]);
      assert msgs == [msgs[0]] + msgs[1..];
    }
  }

  lemma FrameNotEmpty(msgs: seq<seq<byte>>)
    requires msgs != []
    ensures |Stream(msgs)| >= 2
  {
  }

  /** The offset in the input where chunk `n` begins. */
  function CutPoint(chunks: seq<seq<byte>>, n: nat): nat
    requires n <= |chunks|
  {
    |Flatten(chunks[..n])|
  }

  lemma {:induction false} FeedPrefix(msgs: seq<seq<byte>>, chunks: seq<seq<byte>>, n: nat)
    requires AllFit(msgs)
    requires forall i :: 0 <= i < |chunks| ==> |chunks[i]| > 0
    requires Flatten(chunks) == Stream(msgs)
    requires forall k :: 0 < k < |chunks| ==> !InsideHeader(msgs, CutPoint(chunks, k))
    requires 1 <= n <= |chunks|
    ensures Feed(Idle, chunks[..n]) == Process(Idle, Flatten(chunks[..n]))
  {
    if n == 1 {
      var c := chunks[0];
      assert chunks[..1] == [c];
      assert Flatten([c]) == c by {
        FlattenOne(c);
      }
      assert Feed(Idle, [c]) == (Process(Idle, c).0, Process(Idle, c).1 + []);
      assert Process(Idle, c).1 + [] == Process(Idle, c).1;
    } else {
      var init := chunks[..n - 1];
      var c := chunks[n - 1];
      var p := CutPoint(chunks, n - 1);
      assert Feed(Idle, init) == Process(Idle, Flatten(init)) by {
        FeedPrefix(msgs, chunks, n - 1);
      }
      assert chunks[..n] == init + [c];
      assert Flatten(init + [c]) == Flatten(init) + c by {
        FlattenAppend(init, [c]);
        FlattenOne(c);
      }
      assert !Process(Idle, Flatten(init)).0.Wedged? by {
        FlattenSplit(chunks, n - 1);
        assert Flatten(init) == Stream(msgs)[..p];
        assert p > 0 by {
          FlattenSplit(init, 1);
          assert init[..1] == [chunks[0]];
          FlattenOne(chunks[0]);
        }
        StreamPrefixIsLive(msgs, p);
      }
      FeedAppend(Idle, init, c);
      ProcessSplit(Idle, Flatten(init), c);
    }
  }

  lemma FlattenOne(c: seq<byte>)
    ensures Flatten([c]) == c
  {
    assert Flatten([c]) == c + Flatten([c][1..]);
    assert [c][1..] == [];
  }

  /** Round trip: the frames of several messages, cut into non-empty chunks
      at any points that do not separate the two bytes of a header, are
      reassembled into exactly those messages, in order, and the reassembler
      ends between messages. */
  lemma ReassemblyRoundTrip(msgs: seq<seq<byte>>, chunks: seq<seq<byte>>)
    requires AllFit(msgs)
    requires forall i :: 0 <= i < |chunks| ==> |chunks[i]| > 0
    requires Flatten(chunks) == Stream(msgs)
    requires forall k :: 0 < k < |chunks| ==> !InsideHeader(msgs, CutPoint(chunks, k))
    ensures Feed(Idle, chunks) == (Idle, msgs)
  {
    if chunks == [] {
      if msgs != [] {
        FrameNotEmpty(msgs);
      }
    } else {
      FeedPrefix(msgs, chunks, |chunks|);
      assert chunks[..|chunks|] == chunks;
      assert msgs != [] by {
        assert |Flatten(chunks)| >= |chunks[0]|;
      }
      StreamDecodes(msgs);
    }
  }

  // -----------------------------------------------------------------------
  // A length header split across two reads

  /** Counterexample: the one-byte message `[7]` framed as `[0, 1, 7]` and
      delivered as `[0]` then `[1, 7]` is never emitted, and the stream
      stays stuck. */
  lemma HeaderSplitWedges()
    ensures Stream([[7]]) == [0, 1, 7]
    ensures Flatten([[0], [1, 7]]) == Stream([[7]])
    ensures Feed(Idle, [[0], [1, 7]]) == (Wedged, [])
  {
    assert Frame([7]) == [0, 1, 7];
    assert Stream([[7]]) == Frame([7]) + Stream([]);
    var chunks: seq<seq<byte>> := [[0], [1, 7]];
    assert Flatten(chunks) == [0] + Flatten([[1, 7]]);
    assert Flatten([[1, 7]]) == [1, 7] + Flatten([]);
    assert Process(Idle, chunks[0]) == (Wedged, []);
    FeedWedged(chunks[1..]);
    assert Feed(Idle, chunks) == (Feed(Wedged, chunks[1..]).0, [] + Feed(Wedged, chunks[1..]).1);
  }

  /** Once wedged, the reassembler stays wedged and emits nothing. */
  lemma {:induction false} FeedWedged(chunks: seq<seq<byte>>)
    ensures Feed(Wedged, chunks) == (Wedged, [])
    decreases |chunks|
  {
    if chunks != [] {
      var first := Process(Wedged, chunks[0]);
      assert first == (Wedged, []);
      FeedWedged(chunks[1..]);
      var rest := Feed(first.0, chunks[1..]);
      assert rest == (Wedged, []);
      assert Feed(Wedged, chunks) == (rest.0, first.1 + rest.1);
      assert first.1 + rest.1 == [];
    }
  }

  /** The reassembler as intended: header bytes are collected until both
      have arrived, so a header may be split across reads. */
  datatype Reader = Header(bytes: seq<byte>) | Body(expected: nat, got: seq<byte>)

  predicate ReaderOk(st: Reader)
  {
    match st
    case Header(h) => |h| < MSG_LENGTH_BYTES
    case Body(e, g) => |g| < e
  }

  function ReaderRank(st: Reader): nat
  {
    if st.Body? then 1 else 0
  }

  function ReadFrames(st: Reader, chunk: seq<byte>): (res: (Reader, seq<seq<byte>>))
    requires ReaderOk(st)
    ensures ReaderOk(res.0)
    decreases |chunk|, ReaderRank(st)
  {
    match st
    case Header(h) =>
      var need := MSG_LENGTH_BYTES - |h|;
      if |chunk| < need then (Header(h + chunk), [])
      else
        var hdr := h + chunk[..need];
        var e := hdr[0] as nat * 256 + hdr[1] as nat;
        if e == 0 then
          var next := ReadFrames(Header([]), chunk[need..]);
          (next.0, [[]] + next.1)
        else ReadFrames(Body(e, []), chunk[need..])
    case Body(e, g) =>
      var n := Min(e - |g|, |chunk|);
      var g' := g + chunk[..n];
      if |g'| == e then
        var next := ReadFrames(Header([]), chunk[n..]);
        (next.0, [g'] + next.1)
      else (Body(e, g'), [])
  }

  function ReadAllFrames(st: Reader, chunks: seq<seq<byte>>): (res: (Reader, seq<seq<byte>>))
    requires ReaderOk(st)
    ensures ReaderOk(res.0)
    decreases |chunks|
  {
    if chunks == [] then (st, [])
    else
      var first := ReadFrames(st, chunks[0]);
      var rest := ReadAllFrames(first.0, chunks[1..]);
      (rest.0, first.1 + rest.1)
  }

  /** Reading `a` and then `b` gives what reading `a + b` gives. */
  ghost predicate SplitHolds(st: Reader, a: seq<byte>, b: seq<byte>)
    requires ReaderOk(st)
  {
    var first := ReadFrames(st, a);
    var second := ReadFrames(first.0, b);
    ReadFrames(st, a + b) == (second.0, first.1 + second.1)
  }

  /** Reading `a` and then `b` is reading `a + b`, with no side condition. */
  lemma {:induction false} ReadFramesSplit(st: Reader, a: seq<byte>, b: seq<byte>)
    requires ReaderOk(st)
    ensures SplitHolds(st, a, b)
    decreases |a|, ReaderRank(st), 1
  {
    match st
    case Header(h) =>
      var need := MSG_LENGTH_BYTES - |h|;
      if |a| < need {
        SplitHeaderShort(h, a, b);
      } else if (h + a[..need])[0] as nat * 256 + (h + a[..need])[1] as nat == 0 {
        SplitHeaderEmpty(h, a, b);
      } else {
        SplitHeaderBody(h, a, b);
      }
    case Body(e, g) =>
      if |g| + |a| >= e {
        SplitBodyCompletes(e, g, a, b);
      } else {
        SplitBodyPending(e, g, a, b);
      }
  }

  /** `a` does not finish the header. */
  lemma SplitHeaderShort(h: seq<byte>, a: seq<byte>, b: seq<byte>)
    requires |h| < MSG_LENGTH_BYTES && |a| < MSG_LENGTH_BYTES - |h|
    ensures SplitHolds(Header(h), a, b)
  {
    var ab := a + b;
    var need := MSG_LENGTH_BYTES - |h|;
    assert ReadFrames(Header(h), a) == (Header(h + a), []);
    var need' := MSG_LENGTH_BYTES - |h + a|;
    if |ab| >= need {
      assert h + ab[..need] == (h + a) + b[..need'];
      assert ab[need..] == b[need'..];
    } else {
      assert h + ab == (h + a) + b;
    }
    assert [] + ReadFrames(Header(h + a), b).1 == ReadFrames(Header(h + a), b).1;
  }

  /** `a` finishes a header announcing an empty message. */
  lemma {:induction false} SplitHeaderEmpty(h: seq<byte>, a: seq<byte>, b: seq<byte>)
    requires |h| < MSG_LENGTH_BYTES && |a| >= MSG_LENGTH_BYTES - |h|
    requires var hdr := h + a[..MSG_LENGTH_BYTES - |h|]; hdr[0] as nat * 256 + hdr[1] as nat == 0
    ensures SplitHolds(Header(h), a, b)
    decreases |a|, 0, 0
  {
    var ab := a + b;
    var need := MSG_LENGTH_BYTES - |h|;
    assert ab[..need] == a[..need];
    assert ab[need..] == a[need..] + b;
    ReadFramesSplit(Header([]), a[need..], b);
    var next := ReadFrames(Header([]), a[need..]);
    var last := ReadFrames(next.0, b);
    assert ReadFrames(Header(h), a) == (next.0, [[]] + next.1);
    assert ReadFrames(Header(h), ab) == (last.0, [[]] + (next.1 + last.1));
    assert [[]] + next.1 + last.1 == [[]] + (next.1 + last.1);
  }

  /** `a` finishes a header announcing a non-empty message. */
  lemma {:induction false} SplitHeaderBody(h: seq<byte>, a: seq<byte>, b: seq<byte>)
    requires |h| < MSG_LENGTH_BYTES && |a| >= MSG_LENGTH_BYTES - |h|
    requires var hdr := h + a[..MSG_LENGTH_BYTES - |h|]; hdr[0] as nat * 256 + hdr[1] as nat != 0
    ensures SplitHolds(Header(h), a, b)
    decreases |a|, 0, 0
  {
    var ab := a + b;
    var need := MSG_LENGTH_BYTES - |h|;
    assert ab[..need] == a[..need];
    assert ab[need..] == a[need..] + b;
    var hdr := h + a[..need];
    var e := hdr[0] as nat * 256 + hdr[1] as nat;
    ReadFramesSplit(Body(e, []), a[need..], b);
    assert ReadFrames(Header(h), a) == ReadFrames(Body(e, []), a[need..]);
    assert ReadFrames(Header(h), ab) == ReadFrames(Body(e, []), a[need..] + b);
  }

  /** `a` completes the message being collected. */
  lemma {:induction false} SplitBodyCompletes(e: nat, g: seq<byte>, a: seq<byte>, b: seq<byte>)
    requires |g| < e <= |g| + |a|
    ensures SplitHolds(Body(e, g), a, b)
    decreases |a|, 1, 0
  {
    var ab := a + b;
    var n := e - |g|;
    var g' := g + a[..n];
    assert Min(e - |g|, |a|) == n && Min(e - |g|, |ab|) == n;
    assert ab[..n] == a[..n];
    assert ab[n..] == a[n..] + b;
    var next := ReadFrames(Header([]), a[n..]);
    assert ReadFrames(Body(e, g), a) == (next.0, [g'] + next.1);
    assert ReadFrames(Body(e, g), ab) ==
      (ReadFrames(Header([]), a[n..] + b).0, [g'] + ReadFrames(Header([]), a[n..] + b).1);
    ReadFramesSplit(Header([]), a[n..], b);
    var last := ReadFrames(next.0, b);
    assert [g'] + next.1 + last.1 == [g'] + (next.1 + last.1);
  }

  /** `a` does not complete the message being collected. */
  lemma SplitBodyPending(e: nat, g: seq<byte>, a: seq<byte>, b: seq<byte>)
    requires |g| + |a| < e
    ensures SplitHolds(Body(e, g), a, b)
  {
    var ab := a + b;
    assert Min(e - |g|, |a|) == |a| && a[..|a|] == a;
    assert ReadFrames(Body(e, g), a) == (Body(e, g + a), []);
    var m := Min(e - |g + a|, |b|);
    assert Min(e - |g|, |ab|) == |a| + m;
    assert g + ab[..|a| + m] == (g + a) + b[..m];
    assert ab[|a| + m..] == b[m..];
    assert ReadFrames(Body(e, g), ab) == ReadFrames(Body(e, g + a), b);
    assert [] + ReadFrames(Body(e, g + a), b).1 == ReadFrames(Body(e, g + a), b).1;
  }

  lemma {:induction false} ReadAllFramesIsReadFrames(st: Reader, chunks: seq<seq<byte>>)
    requires ReaderOk(st)
    ensures ReadAllFrames(st, chunks) == ReadFrames(st, Flatten(chunks))
    decreases |chunks|
  {
    if chunks == [] {
      match st
      case Header(h) =>
        assert h + [] == h;
      case Body(e, g) =>
        assert g + [][..0] == g;
        assert ReadFrames(st, []) == (Body(e, g), []);
    } else {
      var first := ReadFrames(st, chunks[0]);
      ReadAllFramesIsReadFrames(first.0, chunks[1..]);
      ReadFramesSplit(st, chunks[0], Flatten(chunks[1..]));
    }
  }

  /** The whole stream of framed messages reads back as those messages. */
  lemma {:induction false} ReadFramesStream(msgs: seq<seq<byte>>)
    requires AllFit(msgs)
    ensures ReadFrames(Header([]), Stream(msgs)) == (Header([]), msgs)
    decreases |msgs|
  {
    if msgs != [] {
      var m := msgs[0];
      var f := Frame(m);
      var rest := Stream(msgs[1..]);
      var s := f + rest;
      assert Stream(msgs) == s;
      assert [] + s[..2] == f[..2];
      assert s[2..] == m + rest;
      if |m| == 0 {
        assert m + rest == rest;
        assert ReadFrames(Header([]), s) ==
          (ReadFrames(Header([]), rest).0, [[]] + ReadFrames(Header([]), rest).1);
      } else {
        var body := Body(|m|, []);
        assert ReadFrames(Header([]), s) == ReadFrames(body, m + rest);
        assert Min(|m| - 0, |m + rest|) == |m|;
        assert [] + (m + rest)[..|m|] == m;
        assert (m + rest)[|m|..] == rest;
      }
      assert AllFit(msgs[1..]) by {
        forall i | 0 <= i < |msgs[1..]| ensures |msgs[1..][i]| < 65536 {
          assert msgs[1..][i] == msgs[i + 1];
        }
      }
      ReadFramesStream(msgs[1..]);
      assert msgs == [m] + msgs[1..];
    }
  }

  /** Round trip of the intended reassembler: the frames of several
      messages, cut at ANY points into chunks (empty ones included), read
      back as exactly those messages, in order. */
  lemma ReadAllFramesRoundTrip(msgs: seq<seq<byte>>, chunks: seq<seq<byte>>)
    requires AllFit(msgs)
    requires Flatten(chunks) == Stream(msgs)
    ensures ReadAllFrames(Header([]), chunks) == (Header([]), msgs)
  {
    ReadAllFramesIsReadFrames(Header([]), chunks);
    ReadFramesStream(msgs);
  }
}
