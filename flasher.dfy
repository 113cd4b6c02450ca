/** The over-the-air update of a device in lockstep (`js/lib/Flasher.js`):
    the flasher takes the session's exclusive lock, asks the device to
    begin the update (retrying within a budget), sends the image in
    zero-padded 256-byte chunks each carrying its CRC, reads the next chunk
    only when the device confirms the last one, seeks back for a chunk the
    device reports missing, announces the end, and releases everything.

    `process.nextTick` deferrals are the queue `ticks`; `RunNextTick`
    performs the oldest one.  The named timers of `failWatch` are the map
    `timers`, and `FireWatch` is a timer expiring.  The session's events
    reach the flasher through `OnUpdateReadyEvent`, `OnChunkReceivedEvent`
    and `OnChunkMissedEvent`.  The calls made on the session are logged in
    `requests`; the CRC-32 function is a parameter. */
module Flashers {
  import opened Prelude
  import opened Messages
  import opened BufferStreams
  import Session

  /** `Flasher.stages`. */
  const PREPARE: nat := 0
  const BEGIN_UPDATE: nat := 1
  const SEND_FILE: nat := 2
  const TEARDOWN: nat := 3
  const DONE: nat := 4

  const CHUNK_SIZE: nat := 256

  /** `begin_update`: UpdateBegin is retried `MAX_TRIES` times with a
      short watch, and then once more with a long one. */
  const MAX_TRIES: int := 3
  const RESEND_DELAY: nat := 6
  const FINAL_DELAY: nat := 90
  /** Seconds the whole transfer may take. */
  const TRANSFER_TIMEOUT: nat := 600

  const UPDATE_READY: string := "UpdateReady"
  const COMPLETE_TRANSFER: string := "CompleteTransfer"

  const UNABLE_TO_OWN: string := "Flasher: Unable to take ownership"
  const EMPTY_BUFFER: string := "Flasher: this.fileBuffer was empty."
  const OUT_OF_RETRIES: string := "Failed waiting on UpdateReady - out of retries "

  // -----------------------------------------------------------------------
  // Chunks

  /** The workaround of `readNextChunk`: a chunk shorter than CHUNK_SIZE is
      copied into a zero-filled buffer of CHUNK_SIZE bytes.  (A read never
      returns more than CHUNK_SIZE bytes; a longer chunk would be cut.) */
  function Pad(c: seq<byte>): (r: seq<byte>)
    ensures |r| == CHUNK_SIZE
    ensures |c| <= CHUNK_SIZE ==> r[..|c|] == c
    ensures forall i :: |c| <= i < CHUNK_SIZE ==> r[i] == 0
    ensures |c| == CHUNK_SIZE ==> r == c
  {
    if |c| >= CHUNK_SIZE then c[..CHUNK_SIZE] else c + seq(CHUNK_SIZE - |c|, _ => 0 as byte)
  }

  /** The chunk `readNextChunk` keeps for what the read returned. */
  function Padded(r: Option<seq<byte>>): (c: Option<seq<byte>>)
    ensures c.Some? <==> r.Some?
    ensures c.Some? ==> c.value == Pad(r.value)
  {
    if r.Some? then Some(Pad(r.value)) else None
  }

  function PadAll(chunks: seq<seq<byte>>): (r: seq<seq<byte>>)
    ensures |r| == |chunks|
    ensures forall i :: 0 <= i < |r| ==> r[i] == Pad(chunks[i])
  {
    if chunks == [] then [] else [Pad(chunks[0])] + PadAll(chunks[1..])
  }

  /** The chunks of a transfer that is never interrupted: the image read
      CHUNK_SIZE bytes at a time from the start, each chunk padded. */
  function Transfer(image: seq<byte>): (r: seq<seq<byte>>)
  {
    PadAll(ReadAll(image, 0, CHUNK_SIZE))
  }

  /** Padded chunks read from cursor `idx` are CHUNK_SIZE bytes each, there
      are just enough of them to cover the rest of the image, and their
      concatenation starts with the rest of the image (the padding comes
      after it). */
  lemma {:induction false} PaddedChunksCover(b: seq<byte>, idx: nat)
    requires idx <= |b|
    ensures var cs := PadAll(ReadAll(b, idx, CHUNK_SIZE));
      |Flatten(cs)| == CHUNK_SIZE * |cs| &&
      |b| - idx <= CHUNK_SIZE * |cs| < |b| - idx + CHUNK_SIZE &&
      Flatten(cs)[..|b| - idx] == b[idx..]
    decreases |b| - idx
  {
    var (r, next) := ReadAt(Some(b), idx, CHUNK_SIZE);
    var cs := PadAll(ReadAll(b, idx, CHUNK_SIZE));
    if r.None? {
      assert ReadAll(b, idx, CHUNK_SIZE) == [];
      assert cs == [];
    } else {
      PaddedChunksCover(b, next);
      var rest := ReadAll(b, next, CHUNK_SIZE);
      var prest := PadAll(rest);
      assert ReadAll(b, idx, CHUNK_SIZE) == [r.value] + rest;
      assert cs == [Pad(r.value)] + prest;
      assert Flatten(cs) == Pad(r.value) + Flatten(prest) by {
        assert cs[0] == Pad(r.value) && cs[1..] == prest;
      }
      if next == idx + CHUNK_SIZE {
        assert Pad(r.value) == r.value;
        assert b[idx..] == b[idx..next] + b[next..];
        assert Flatten(cs)[..|b| - idx] == r.value + Flatten(prest)[..|b| - next];
      } else {
        assert next == |b|;
        assert rest == [] by {
          assert ReadAt(Some(b), next, CHUNK_SIZE).0.None?;
        }
        assert Flatten(cs)[..|b| - idx] == Pad(r.value)[..|r.value|];
      }
    }
  }

  /** Hence the whole image is the start of the concatenated transfer. */
  lemma TransferCoversImage(image: seq<byte>)
    ensures forall i :: 0 <= i < |Transfer(image)| ==> |Transfer(image)[i]| == CHUNK_SIZE
    ensures |image| <= CHUNK_SIZE * |Transfer(image)| < |image| + CHUNK_SIZE
    ensures |Flatten(Transfer(image))| == CHUNK_SIZE * |Transfer(image)|
    ensures Flatten(Transfer(image))[..|image|] == image
  {
    PaddedChunksCover(image, 0);
    assert image[0..] == image;
  }

  /** The k-th chunk read from cursor `idx` is what a single read at
      `idx + k * CHUNK_SIZE` returns. */
  lemma {:induction false} ReadAllIndexed(b: seq<byte>, idx: nat, k: nat)
    requires k < |ReadAll(b, idx, CHUNK_SIZE)|
    ensures ReadAt(Some(b), idx + CHUNK_SIZE * k, CHUNK_SIZE).0 == Some(ReadAll(b, idx, CHUNK_SIZE)[k])
    decreases k
  {
    var (r, next) := ReadAt(Some(b), idx, CHUNK_SIZE);
    assert r.Some?;
    var rest := ReadAll(b, next, CHUNK_SIZE);
    assert ReadAll(b, idx, CHUNK_SIZE) == [r.value] + rest;
    if k > 0 {
      assert rest != [];
      assert next < |b|;
      assert next == idx + CHUNK_SIZE;
      ReadAllIndexed(b, next, k - 1);
      assert next + CHUNK_SIZE * (k - 1) == idx + CHUNK_SIZE * k;
    }
  }

  /** Seeking to `k * CHUNK_SIZE` and reading, as `onChunkMissed` does for
      index k, yields the k-th chunk of the transfer again. */
  lemma MissedChunkIsResent(image: seq<byte>, k: nat)
    requires k < |Transfer(image)|
    ensures Padded(ReadAt(Some(image), k * CHUNK_SIZE, CHUNK_SIZE).0) == Some(Transfer(image)[k])
  {
    ReadAllIndexed(image, 0, k);
  }

  /** The message `sendChunk` sends: path "c" with the CRC, four bytes
      big-endian, as query, and the chunk as payload. */
  function ChunkRequest(c: seq<byte>, crc: nat): (o: Outbound)
    ensures o.SendOf? && o.name == "Chunk" && o.data == Some(c)
    ensures o.params.CoapUri? && o.params.path == "c" && |o.params.query| == 4
  {
    SendOf("Chunk", CoapUri("c", ToBinary(Int(crc), "crc").value), Some(c))
  }

  /** The device reads back the CRC the chunk carries (reduced to 32 bits). */
  lemma ChunkCrcRoundTrip(c: seq<byte>, crc: nat)
    ensures FromBinary(ChunkRequest(c, crc).params.query, "crc") == Ok(Int(crc % TWO_32))
  {
    Unsigned32OfBigEndian(crc);
  }

  const BEGIN_REQUEST: Outbound := SendOf("UpdateBegin", NoParams, None)
  const DONE_REQUEST: Outbound := SendOf("UpdateDone", NoParams, None)

  // -----------------------------------------------------------------------
  // The flasher

  /** A call made on the session: `sendMessage(name, params, data)` or
      `sendReply(name, id)`. */
  datatype Outbound = SendOf(name: string, params: Params, data: Option<seq<byte>>) | ReplyOf(name: string, id: nat)

  /** What an expiring watch calls: `tryBeginUpdate`, `failed`, or nothing
      (the null callback of `clearWatch`). */
  datatype WatchAction = RetryBeginUpdate | FailTransfer | NoCallback

  datatype Watch = Watch(seconds: nat, action: WatchAction)

  /** A deferred call: `_nextStep`, the UpdateReady callback, the
      ChunkReceived callback with the response code, `onSuccess` or
      `onStarted`. */
  datatype Tick = NextStepTick | UpdateReadyTick | ChunkResponseTick(code: nat) | SuccessTick | StartedTick

  class Flasher {
    const client: Session.SparkCore
    /** The identity the flasher holds the session's lock under. */
    const id: Session.ClientId
    const crc32: seq<byte> -> nat
    const fileBuffer: seq<byte>
    var stage: nat
    var fileStream: BufferStream?
    var chunk: Option<seq<byte>>
    var lastCrc: Option<nat>
    /** The retry counter of `begin_update`'s `tryBeginUpdate`. */
    var maxTries: int
    /** UpdateBegin messages sent by the current `begin_update`. */
    ghost var beginSends: nat
    /** `_timers`: the armed watches by name. */
    var timers: map<string, Watch>
    /** `_chunkReceivedHandler` is set. */
    var chunkHandler: bool
    /** The session listeners the flasher attached: ChunkReceived (by
        `send_file`), ChunkMissed (by `prepare`) and the one-shot
        UpdateReady (by `begin_update`). */
    var chunkListening: bool
    var missedListening: bool
    var readyListening: bool
    var ticks: seq<Tick>
    var requests: seq<Outbound>
    /** Messages passed to `onError`, and whether `teardown` replaced it by
        a logger. */
    var errors: seq<string>
    var silenced: bool
    /** Calls of `onSuccess` and `onStarted`. */
    var successes: nat
    var starts: nat

    /** The retry budget is consistent with the sends made, a kept chunk
        is always CHUNK_SIZE bytes with its CRC beside it, and the open
        stream reads the image. */
    ghost predicate Valid()
      reads this, fileStream
    {
      -1 <= maxTries <= MAX_TRIES && beginSends == MAX_TRIES - maxTries &&
      (chunk.Some? ==> |chunk.value| == CHUNK_SIZE && lastCrc == Some(crc32(chunk.value))) &&
      (chunk.None? ==> lastCrc.None?) &&
      (fileStream != null ==> fileStream.buf == Some(fileBuffer))
    }

    /** `new Flasher()` given the session, the CRC function and the image
        `startFlashBuffer` stores. */
    constructor (client: Session.SparkCore, id: Session.ClientId, crc32: seq<byte> -> nat, buffer: seq<byte>)
      ensures Valid()
      ensures this.client == client && this.id == id && this.crc32 == crc32 && fileBuffer == buffer
      ensures stage == PREPARE && fileStream == null && chunk.None? && timers == map[]
      ensures !chunkHandler && !chunkListening && !missedListening && !readyListening && !silenced
      ensures ticks == [] && requests == [] && errors == [] && successes == 0 && starts == 0
    {
      this.client := client;
      this.id := id;
      this.crc32 := crc32;
      fileBuffer := buffer;
      stage := PREPARE;
      fileStream := null;
      chunk, lastCrc := None, None;
      maxTries := MAX_TRIES;
      beginSends := 0;
      timers := map[];
      chunkHandler, chunkListening, missedListening, readyListening := false, false, false, false;
      ticks, requests, errors, silenced := [], [], [], false;
      successes, starts := 0, 0;
    }

    /** What `cleanup` leaves: the lock released if the flasher held it,
        no stream, no chunk handler, and both watches cleared. */
    twostate predicate CleanedUp()
      reads this, client
    {
      (old(client.owner) == Some(id) ==> client.owner.None?) &&
      (old(client.owner) != Some(id) ==> client.owner == old(client.owner)) &&
      fileStream == null && !chunkHandler &&
      timers == old(timers) - {UPDATE_READY, COMPLETE_TRANSFER}
    }

    /** What `onAllChunksDone` leaves besides its UpdateDone message. */
    twostate predicate Finished()
      reads this
    {
      !chunkHandler && timers == old(timers) - {COMPLETE_TRANSFER} &&
      stage == TEARDOWN && ticks == old(ticks) + [NextStepTick]
    }

    // --- helpers

    method NextStep()
      modifies this`ticks
      ensures ticks == old(ticks) + [NextStepTick]
    {
      ticks := ticks + [NextStepTick];
    }

    /** `client.sendMessage(name, params, data, onError, this)`: the
        request is recorded, and the session sends it as `SendMessage`
        does for this flasher as requester. */
    method Send(name: string, params: Params, data: Option<seq<byte>>, hasOnError: bool)
      modifies this`requests, client`sendCounter, client`sendToken, client`tokens, client`written, client`lockErrors
      ensures requests == old(requests) + [SendOf(name, params, data)]
      ensures !client.Permits(Some(id)) ==>
        client.sendCounter == old(client.sendCounter) && client.sendToken == old(client.sendToken) &&
        client.tokens == old(client.tokens) && client.written == old(client.written) &&
        client.lockErrors == (if hasOnError then old(client.lockErrors) + [Session.LOCK_ERROR] else old(client.lockErrors))
      ensures client.Permits(Some(id)) ==>
        var t := Session.Step(old(client.sendToken), Session.TOKEN_MAX);
        client.sendCounter == Session.Step(old(client.sendCounter), Session.COUNTER_MAX) && client.sendToken == t &&
        client.tokens == old(client.tokens)[Session.TokenKey(t) := name] && client.lockErrors == old(client.lockErrors) &&
        client.written == old(client.written) + client.Outgoing(name, client.sendCounter, params, data, NumberToken(t))
    {
      requests := requests + [SendOf(name, params, data)];
      var _ := client.SendMessage(name, params, data, Some(id), hasOnError);
    }

    /** `failWatch(name, seconds, callback)`: no seconds clears the watch,
        otherwise it is (re)armed. */
    method FailWatch(name: string, seconds: nat, action: WatchAction)
      modifies this`timers
      ensures seconds == 0 ==> timers == old(timers) - {name}
      ensures seconds > 0 ==> timers == old(timers)[name := Watch(seconds, action)] && name in timers
    {
      if seconds == 0 {
        timers := timers - {name};
      } else {
        timers := timers[name := Watch(seconds, action)];
      }
    }

    method ClearWatch(name: string)
      modifies this`timers
      ensures timers == old(timers) - {name} && name !in timers
    {
      FailWatch(name, 0, NoCallback);
    }

    /** `cleanup`.  Its `removeListener` names the event "ChunkReceived"
        with the callback, while `listenFor` attached a wrapper to
        "msg_chunkreceived", so the session keeps delivering
        ChunkReceived. */
    method Cleanup()
      requires Valid()
      modifies client`owner, this`fileStream, this`chunkHandler, this`timers, fileStream
      ensures Valid() && CleanedUp()
      ensures old(fileStream) != null ==> old(fileStream).buf.None?
    {
      client.ReleaseOwnership(id);
      if fileStream != null {
        fileStream.End();
        fileStream := null;
      }
      if chunkHandler {
        chunkHandler := false;
      }
      ClearWatch(UPDATE_READY);
      ClearWatch(COMPLETE_TRANSFER);
    }

    /** `failed(msg)`: clean up, then report to `onError` unless
        `teardown` silenced it. */
    method Failed(msg: string)
      requires Valid()
      modifies client`owner, this`fileStream, this`chunkHandler, this`timers, fileStream, this`errors
      ensures Valid() && CleanedUp()
      ensures errors == if silenced then old(errors) else old(errors) + [msg]
    {
      Cleanup();
      if !silenced {
        errors := errors + [msg];
      }
    }

    // --- starting

    /** `claimConnection`: take the session's lock, or fail. */
    method ClaimConnection() returns (ok: bool)
      requires Valid()
      modifies client`owner, this`fileStream, this`chunkHandler, this`timers, fileStream, this`errors
      ensures Valid()
      ensures ok <==> old(client.owner).None?
      ensures ok ==>
        client.owner == Some(id) && errors == old(errors) && timers == old(timers) &&
        fileStream == old(fileStream) && chunkHandler == old(chunkHandler)
      ensures !ok ==> CleanedUp() && errors == (if silenced then old(errors) else old(errors) + [UNABLE_TO_OWN])
    {
      ok := client.TakeOwnership(id);
      if !ok {
        Failed(UNABLE_TO_OWN);
      }
    }

    /** `startFlashBuffer`: with the lock held the stages start from
        PREPARE on the next tick; without it nothing starts. */
    method StartFlashBuffer()
      requires Valid()
      modifies client`owner, this`fileStream, this`chunkHandler, this`timers, fileStream, this`errors
      modifies this`stage, this`ticks
      ensures Valid()
      ensures old(client.owner).None? ==>
        client.owner == Some(id) && stage == PREPARE && ticks == old(ticks) + [NextStepTick] && errors == old(errors)
      ensures old(client.owner).Some? ==>
        CleanedUp() && stage == old(stage) && ticks == old(ticks) &&
        errors == (if silenced then old(errors) else old(errors) + [UNABLE_TO_OWN])
    {
      var ok := ClaimConnection();
      if ok {
        stage := PREPARE;
        NextStep();
      }
    }

    // --- the stages

    /** `prepare`: an empty image fails; otherwise a stream is opened on
        it and the stage advances.  Either way the ChunkMissed listener is
        attached and no chunk is kept. */
    method Prepare()
      requires Valid()
      modifies client`owner, this`fileStream, this`chunkHandler, this`timers, fileStream, this`errors
      modifies this`stage, this`ticks, this`chunk, this`lastCrc, this`missedListening
      ensures Valid()
      ensures chunk.None? && lastCrc.None? && missedListening
      ensures |fileBuffer| == 0 ==>
        CleanedUp() && stage == old(stage) && ticks == old(ticks) &&
        errors == (if silenced then old(errors) else old(errors) + [EMPTY_BUFFER])
      ensures |fileBuffer| > 0 ==>
        fileStream != null && fresh(fileStream) && fileStream.buf == Some(fileBuffer) && fileStream.idx == 0 &&
        stage == old(stage) + 1 && ticks == old(ticks) + [NextStepTick] &&
        errors == old(errors) && timers == old(timers) && client.owner == old(client.owner) &&
        chunkHandler == old(chunkHandler)
    {
      if |fileBuffer| == 0 {
        Failed(EMPTY_BUFFER);
      } else {
        fileStream := new BufferStream(fileBuffer);
        stage := stage + 1;
        NextStep();
      }
      chunk := None;
      lastCrc := None;
      missedListening := true;
    }

    /** `tryBeginUpdate`: while tries are left, arm the UpdateReady watch
        (short, or long for the last try) and send UpdateBegin; after the
        fourth send it fails. */
    method TryBeginUpdate()
      requires Valid()
      modifies client`owner, this`fileStream, this`chunkHandler, this`timers, fileStream, this`errors
      modifies this`requests, this`maxTries, this`beginSends
      modifies client`sendCounter, client`sendToken, client`tokens, client`written, client`lockErrors
      ensures Valid() && beginSends <= MAX_TRIES + 1
      ensures old(maxTries) >= 0 ==>
        maxTries == old(maxTries) - 1 && beginSends == old(beginSends) + 1 &&
        timers == old(timers)[UPDATE_READY := Watch(if old(maxTries) > 0 then RESEND_DELAY else FINAL_DELAY, RetryBeginUpdate)] &&
        requests == old(requests) + [BEGIN_REQUEST] &&
        errors == old(errors) && fileStream == old(fileStream) && client.owner == old(client.owner) &&
        chunkHandler == old(chunkHandler)
      ensures old(maxTries) < 0 ==>
        old(beginSends) == MAX_TRIES + 1 && CleanedUp() && requests == old(requests) && maxTries == old(maxTries) &&
        errors == (if silenced then old(errors) else old(errors) + [OUT_OF_RETRIES])
    {
      if maxTries > 0 {
        FailWatch(UPDATE_READY, RESEND_DELAY, RetryBeginUpdate);
        Send("UpdateBegin", NoParams, None, true);
        maxTries := maxTries - 1;
        beginSends := beginSends + 1;
      } else if maxTries == 0 {
        FailWatch(UPDATE_READY, FINAL_DELAY, RetryBeginUpdate);
        Send("UpdateBegin", NoParams, None, true);
        maxTries := maxTries - 1;
        beginSends := beginSends + 1;
      } else {
        Failed(OUT_OF_RETRIES);
      }
    }

    /** `begin_update`: attach the one-shot UpdateReady listener and make
        the first try with a fresh budget. */
    method BeginUpdate()
      requires Valid()
      modifies client`owner, this`fileStream, this`chunkHandler, this`timers, fileStream, this`errors
      modifies this`requests, this`maxTries, this`beginSends, this`readyListening
      modifies client`sendCounter, client`sendToken, client`tokens, client`written, client`lockErrors
      ensures Valid() && readyListening
      ensures maxTries == MAX_TRIES - 1 && beginSends == 1
      ensures timers == old(timers)[UPDATE_READY := Watch(RESEND_DELAY, RetryBeginUpdate)]
      ensures requests == old(requests) + [BEGIN_REQUEST]
      ensures errors == old(errors) && fileStream == old(fileStream) && client.owner == old(client.owner)
    {
      readyListening := true;
      maxTries := MAX_TRIES;
      beginSends := 0;
      TryBeginUpdate();
    }

    /** The UpdateReady callback: clear the watch, advance, and tell
        `onStarted` on a later tick. */
    method UpdateReadyNow()
      modifies this`timers, this`stage, this`ticks
      ensures timers == old(timers) - {UPDATE_READY} && stage == old(stage) + 1
      ensures ticks == old(ticks) + [NextStepTick, StartedTick]
    {
      ClearWatch(UPDATE_READY);
      stage := stage + 1;
      NextStep();
      ticks := ticks + [StartedTick];
    }

    /** `readNextChunk`: read up to CHUNK_SIZE bytes from the stream (none
        without a stream), pad a short chunk, and keep its CRC. */
    method ReadNextChunk()
      requires Valid()
      modifies this`chunk, this`lastCrc, fileStream
      ensures Valid()
      ensures fileStream == null ==> chunk.None?
      ensures fileStream != null ==>
        var (r, next) := ReadAt(Some(fileBuffer), old(fileStream.idx), CHUNK_SIZE);
        chunk == Padded(r) && fileStream.idx == next
    {
      var c: Option<seq<byte>> := None;
      if fileStream != null {
        c := fileStream.Read(CHUNK_SIZE);
      }
      if c.Some? && |c.value| != CHUNK_SIZE {
        c := Some(Pad(c.value));
      }
      chunk := c;
      lastCrc := if c.Some? then Some(crc32(c.value)) else None;
    }

    /** `onAllChunksDone`: drop the handler, clear the transfer watch,
        send UpdateDone and move to TEARDOWN. */
    method OnAllChunksDone()
      modifies this`chunkHandler, this`timers, this`requests, this`stage, this`ticks
      modifies client`sendCounter, client`sendToken, client`tokens, client`written, client`lockErrors
      ensures Finished() && requests == old(requests) + [DONE_REQUEST]
    {
      chunkHandler := false;
      ClearWatch(COMPLETE_TRANSFER);
      Send("UpdateDone", NoParams, None, false);
      stage := TEARDOWN;
      NextStep();
    }

    /** `sendChunk`: send the kept chunk with its CRC, or finish when
        there is none. */
    method SendChunk()
      requires Valid()
      modifies this`chunkHandler, this`timers, this`requests, this`stage, this`ticks
      modifies client`sendCounter, client`sendToken, client`tokens, client`written, client`lockErrors
      ensures Valid()
      ensures chunk.Some? ==>
        requests == old(requests) + [ChunkRequest(chunk.value, crc32(chunk.value))] &&
        chunkHandler == old(chunkHandler) && timers == old(timers) && stage == old(stage) && ticks == old(ticks)
      ensures chunk.None? ==> Finished() && requests == old(requests) + [DONE_REQUEST]
    {
      if chunk.Some? {
        var encodedCrc := ToBinary(Int(lastCrc.value), "crc");
        Send("Chunk", CoapUri("c", encodedCrc.value), chunk, false);
      } else {
        OnAllChunksDone();
      }
    }

    /** `send_file`: attach the ChunkReceived handler, arm the transfer
        watch, and send the first chunk. */
    method SendFile()
      requires Valid()
      modifies this`chunk, this`lastCrc, this`chunkHandler, this`chunkListening, fileStream
      modifies this`timers, this`requests, this`stage, this`ticks
      modifies client`sendCounter, client`sendToken, client`tokens, client`written, client`lockErrors
      ensures Valid() && chunkListening
      ensures fileStream == null ==> chunk.None?
      ensures fileStream != null ==>
        var (r, next) := ReadAt(Some(fileBuffer), old(fileStream.idx), CHUNK_SIZE);
        chunk == Padded(r) && fileStream.idx == next
      ensures chunk.Some? ==>
        chunkHandler && timers == old(timers)[COMPLETE_TRANSFER := Watch(TRANSFER_TIMEOUT, FailTransfer)] &&
        requests == old(requests) + [ChunkRequest(chunk.value, crc32(chunk.value))] &&
        stage == old(stage) && ticks == old(ticks)
      ensures chunk.None? ==> Finished() && requests == old(requests) + [DONE_REQUEST]
    {
      chunk := None;
      lastCrc := None;
      chunkHandler := true;
      chunkListening := true;
      FailWatch(COMPLETE_TRANSFER, TRANSFER_TIMEOUT, FailTransfer);
      ReadNextChunk();
      SendChunk();
    }

    /** `onChunkResponse`: an okay status moves to the next chunk, any
        other status keeps the chunk; then the kept chunk is sent, or the
        transfer finishes when none is left. */
    method OnChunkResponse(code: nat)
      requires Valid()
      modifies this`chunk, this`lastCrc, fileStream
      modifies this`chunkHandler, this`timers, this`requests, this`stage, this`ticks
      modifies client`sendCounter, client`sendToken, client`tokens, client`written, client`lockErrors
      ensures Valid()
      ensures !StatusIsOkay(code) ==> chunk == old(chunk) && (fileStream != null ==> fileStream.idx == old(fileStream.idx))
      ensures StatusIsOkay(code) && fileStream == null ==> chunk.None?
      ensures StatusIsOkay(code) && fileStream != null ==>
        var (r, next) := ReadAt(Some(fileBuffer), old(fileStream.idx), CHUNK_SIZE);
        chunk == Padded(r) && fileStream.idx == next
      ensures chunk.Some? ==>
        requests == old(requests) + [ChunkRequest(chunk.value, crc32(chunk.value))] &&
        chunkHandler == old(chunkHandler) && timers == old(timers) && stage == old(stage) && ticks == old(ticks)
      ensures chunk.None? ==> Finished() && requests == old(requests) + [DONE_REQUEST]
    {
      if StatusIsOkay(code) {
        ReadNextChunk();
      }
      if chunk.None? {
        OnAllChunksDone();
      } else {
        SendChunk();
      }
    }

    /** `onChunkMissed`: the first two payload bytes (big-endian) index the
        missing chunk; a shorter payload makes the read throw.  The
        message is acknowledged with its own id, and the chunk at that
        index is read and sent again.  Once `cleanup` dropped the stream
        the seek throws after the acknowledgement. */
    method OnChunkMissed(m: CoapMessage)
      requires Valid()
      modifies this`chunk, this`lastCrc, fileStream
      modifies this`chunkHandler, this`timers, this`requests, this`stage, this`ticks
      modifies client`sendCounter, client`sendToken, client`tokens, client`written, client`lockErrors
      ensures Valid()
      ensures |m.payload| < 2 || fileStream == null ==>
        chunk == old(chunk) && timers == old(timers) && stage == old(stage) && ticks == old(ticks) &&
        requests == old(requests) + (if |m.payload| < 2 then [] else [ReplyOf("ChunkMissedAck", m.id)])
      ensures |m.payload| >= 2 && fileStream != null ==>
        var (r, next) := ReadAt(Some(fileBuffer), Unsigned16(m.payload) * CHUNK_SIZE, CHUNK_SIZE);
        chunk == Padded(r) && fileStream.idx == next &&
        (chunk.Some? ==>
          requests == old(requests) + [ReplyOf("ChunkMissedAck", m.id), ChunkRequest(chunk.value, crc32(chunk.value))] &&
          timers == old(timers) && stage == old(stage) && ticks == old(ticks)) &&
        (chunk.None? ==> Finished() && requests == old(requests) + [ReplyOf("ChunkMissedAck", m.id), DONE_REQUEST])
    {
      var idx := FromBinary(m.payload, "uint16");
      if !idx.Ok? || !idx.value.Int? {
        return;
      }
      requests := requests + [ReplyOf("ChunkMissedAck", m.id)];
      client.SendReply("ChunkMissedAck", m.id, None, NullToken, Some(id), false);
      if fileStream == null {
        return;
      }
      assert Unsigned16(m.payload) == idx.value.i;
      Resend(idx.value.i);
    }

    /** The resending part of `onChunkMissed`: seek to chunk `k`, read it
        and send it, or finish when the image has no chunk `k`. */
    method Resend(k: nat)
      requires Valid() && fileStream != null
      modifies this`chunk, this`lastCrc, fileStream
      modifies this`chunkHandler, this`timers, this`requests, this`stage, this`ticks
      modifies client`sendCounter, client`sendToken, client`tokens, client`written, client`lockErrors
      ensures Valid()
      ensures
        var (r, next) := ReadAt(Some(fileBuffer), k * CHUNK_SIZE, CHUNK_SIZE);
        chunk == Padded(r) && fileStream.idx == next &&
        (chunk.Some? ==>
          requests == old(requests) + [ChunkRequest(chunk.value, crc32(chunk.value))] &&
          timers == old(timers) && stage == old(stage) && ticks == old(ticks)) &&
        (chunk.None? ==> Finished() && requests == old(requests) + [DONE_REQUEST])
    {
      fileStream.Seek(k * CHUNK_SIZE);
      ReadNextChunk();
      SendChunk();
    }

    /** `teardown`: clean up, make later errors only logged, and tell
        `onSuccess` on the next tick. */
    method Teardown()
      requires Valid()
      modifies client`owner, this`fileStream, this`chunkHandler, this`timers, fileStream
      modifies this`silenced, this`ticks
      ensures Valid() && CleanedUp() && silenced
      ensures ticks == old(ticks) + [SuccessTick]
    {
      Cleanup();
      silenced := true;
      ticks := ticks + [SuccessTick];
    }

    // --- dispatch

    /** `_nextStep`: the step of the current stage; DONE and unknown
        stages do nothing. */
    method NextStepNow()
      requires Valid()
      modifies client`owner, this`fileStream, this`chunkHandler, this`timers, fileStream, this`errors
      modifies this`stage, this`ticks, this`chunk, this`lastCrc, this`missedListening, this`chunkListening
      modifies this`requests, this`maxTries, this`beginSends, this`readyListening, this`silenced
      modifies client`sendCounter, client`sendToken, client`tokens, client`written, client`lockErrors
      ensures Valid()
      ensures old(stage) == PREPARE ==>
        missedListening && chunk.None? && (stage == BEGIN_UPDATE <==> |fileBuffer| > 0) &&
        (|fileBuffer| == 0 ==> stage == PREPARE && CleanedUp())
      ensures old(stage) == BEGIN_UPDATE ==>
        stage == BEGIN_UPDATE && readyListening && beginSends == 1 && requests == old(requests) + [BEGIN_REQUEST] &&
        timers == old(timers)[UPDATE_READY := Watch(RESEND_DELAY, RetryBeginUpdate)]
      ensures old(stage) == SEND_FILE ==>
        chunkListening && (fileStream == null ==> chunk.None?) &&
        (chunk.Some? ==> stage == SEND_FILE && requests == old(requests) + [ChunkRequest(chunk.value, crc32(chunk.value))]) &&
        (chunk.None? ==> Finished() && requests == old(requests) + [DONE_REQUEST])
      ensures old(stage) == TEARDOWN ==> CleanedUp() && silenced && ticks == old(ticks) + [SuccessTick] && stage == TEARDOWN
      ensures old(stage) > TEARDOWN ==>
        stage == old(stage) && ticks == old(ticks) && requests == old(requests) && errors == old(errors) &&
        timers == old(timers) && chunk == old(chunk)
    {
      if stage == PREPARE {
        Prepare();
      } else if stage == BEGIN_UPDATE {
        BeginUpdate();
      } else if stage == SEND_FILE {
        SendFile();
      } else if stage == TEARDOWN {
        Teardown();
      }
    }

    /** The session emits UpdateReady: the one-shot listener detaches
        itself and defers its callback. */
    method OnUpdateReadyEvent()
      modifies this`readyListening, this`ticks
      ensures !readyListening
      ensures ticks == if old(readyListening) then old(ticks) + [UpdateReadyTick] else old(ticks)
    {
      if readyListening {
        readyListening := false;
        ticks := ticks + [UpdateReadyTick];
      }
    }

    /** The session emits ChunkReceived: the attached listener, which is
        never detached, defers `onChunkResponse`. */
    method OnChunkReceivedEvent(m: CoapMessage)
      modifies this`ticks
      ensures ticks == if chunkListening then old(ticks) + [ChunkResponseTick(m.code)] else old(ticks)
    {
      if chunkListening {
        ticks := ticks + [ChunkResponseTick(m.code)];
      }
    }

    /** The session emits ChunkMissed: the listener `prepare` attached
        runs `onChunkMissed` at once. */
    method OnChunkMissedEvent(m: CoapMessage)
      requires Valid()
      modifies client`owner, this`fileStream, this`chunkHandler, this`timers, fileStream, this`errors
      modifies this`stage, this`ticks, this`chunk, this`lastCrc, this`missedListening, this`chunkListening
      modifies this`requests, this`maxTries, this`beginSends, this`readyListening, this`silenced
      modifies client`sendCounter, client`sendToken, client`tokens, client`written, client`lockErrors
      ensures Valid()
      ensures !missedListening ==>
        requests == old(requests) && chunk == old(chunk) && ticks == old(ticks) && stage == old(stage)
      ensures missedListening && |m.payload| >= 2 ==>
        |requests| > |old(requests)| && requests[..|old(requests)| + 1] == old(requests) + [ReplyOf("ChunkMissedAck", m.id)]
      ensures missedListening && |m.payload| >= 2 && fileStream != null ==>
        chunk == Padded(ReadAt(Some(fileBuffer), Unsigned16(m.payload) * CHUNK_SIZE, CHUNK_SIZE).0)
    {
      if missedListening {
        OnChunkMissed(m);
      }
    }

    /** A watch expires and calls its callback with "failed waiting on "
        and the watch's name. */
    method FireWatch(name: string)
      requires Valid()
      modifies client`owner, this`fileStream, this`chunkHandler, this`timers, fileStream, this`errors
      modifies this`stage, this`ticks, this`chunk, this`lastCrc, this`missedListening, this`chunkListening
      modifies this`requests, this`maxTries, this`beginSends, this`readyListening, this`silenced
      modifies client`sendCounter, client`sendToken, client`tokens, client`written, client`lockErrors
      ensures Valid()
      ensures name !in old(timers) ==>
        timers == old(timers) && requests == old(requests) && errors == old(errors) && stage == old(stage)
      ensures name in old(timers) && old(timers)[name].action == NoCallback ==>
        timers == old(timers) - {name} && requests == old(requests) && errors == old(errors)
      ensures name in old(timers) && old(timers)[name].action == RetryBeginUpdate && old(maxTries) >= 0 ==>
        requests == old(requests) + [BEGIN_REQUEST] && errors == old(errors) &&
        timers == (old(timers) - {name})[UPDATE_READY := Watch(if old(maxTries) > 0 then RESEND_DELAY else FINAL_DELAY, RetryBeginUpdate)]
      ensures name in old(timers) && old(timers)[name].action == RetryBeginUpdate && old(maxTries) < 0 ==>
        old(beginSends) == MAX_TRIES + 1 && requests == old(requests) && fileStream == null &&
        UPDATE_READY !in timers && COMPLETE_TRANSFER !in timers &&
        errors == (if silenced then old(errors) else old(errors) + [OUT_OF_RETRIES])
      ensures name in old(timers) && old(timers)[name].action == FailTransfer ==>
        requests == old(requests) && fileStream == null && name !in timers &&
        UPDATE_READY !in timers && COMPLETE_TRANSFER !in timers &&
        errors == (if silenced then old(errors) else old(errors) + ["failed waiting on " + name])
    {
      if name !in timers {
        return;
      }
      var w := timers[name];
      timers := timers - {name};
      match w.action
      case RetryBeginUpdate =>
        TryBeginUpdate();
      case FailTransfer =>
        Failed("failed waiting on " + name);
      case NoCallback =>
    }

    /** The tick queue runs its oldest entry. */
    method RunNextTick()
      requires Valid()
      modifies client`owner, this`fileStream, this`chunkHandler, this`timers, fileStream, this`errors
      modifies this`stage, this`ticks, this`chunk, this`lastCrc, this`missedListening, this`chunkListening
      modifies this`requests, this`maxTries, this`beginSends, this`readyListening, this`silenced
      modifies client`sendCounter, client`sendToken, client`tokens, client`written, client`lockErrors
      modifies this`successes, this`starts
      ensures Valid()
      ensures old(ticks) == [] ==> ticks == [] && stage == old(stage) && requests == old(requests)
      ensures old(ticks) != [] && old(ticks)[0] == SuccessTick ==>
        successes == old(successes) + 1 && ticks == old(ticks)[1..] && stage == old(stage)
      ensures old(ticks) != [] && old(ticks)[0] == StartedTick ==>
        starts == old(starts) + 1 && ticks == old(ticks)[1..] && stage == old(stage)
      ensures old(ticks) != [] && old(ticks)[0] == UpdateReadyTick ==>
        stage == old(stage) + 1 && UPDATE_READY !in timers && ticks == old(ticks)[1..] + [NextStepTick, StartedTick]
      ensures old(ticks) != [] && old(ticks)[0].ChunkResponseTick? && !StatusIsOkay(old(ticks)[0].code) ==>
        chunk == old(chunk)
      ensures old(ticks) != [] && old(ticks)[0].ChunkResponseTick? ==>
        successes == old(successes) && starts == old(starts) &&
        (chunk.Some? ==> |requests| > 0 && requests[|requests| - 1] == ChunkRequest(chunk.value, crc32(chunk.value)))
    {
      if ticks == [] {
        return;
      }
      var t := ticks[0];
      ticks := ticks[1..];
      match t
      case NextStepTick =>
        NextStepNow();
      case UpdateReadyTick =>
        UpdateReadyNow();
      case ChunkResponseTick(code) =>
        OnChunkResponse(code);
      case SuccessTick =>
        successes := successes + 1;
      case StartedTick =>
        starts := starts + 1;
    }
  }
}
