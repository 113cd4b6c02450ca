/** The server side of the device handshake (`js/lib/Handshake.js`): a
    stage counter that moves forward one step at a time from sending the
    nonce to DONE, the checks on the device's decrypted reply, the session
    key message, and the routing of decrypted data by stage with a queue
    for data that arrives early.

    `process.nextTick` deferrals are the queue `ticks`; `RunNextTick`
    performs the oldest one.  `getRandomBytes` calls whose callback has not
    run yet are the queue `randomWaits`; `OnRandomBytes` runs the oldest
    callback with the bytes, so data can arrive between a step's request
    and its callback.  The 30-second read timer and the global timer are
    flags that `FireSocketTimer`/`FireGlobalTimer` consume.  Randomness,
    RSA decryption, the key lookup and hello parsing are inputs. */
module Handshakes {
  import opened Prelude
  import opened Messages
  import Utilities
  import Session

  /** `Handshake.stages`. */
  const SEND_NONCE: nat := 0
  const READ_COREID: nat := 1
  const GET_COREKEY: nat := 2
  const SEND_SESSIONKEY: nat := 3
  const GET_HELLO: nat := 4
  const SEND_HELLO: nat := 5
  const DONE: nat := 6

  const NONCE_BYTES: nat := 40
  const ID_BYTES: nat := 12
  const SESSION_BYTES: nat := 40
  /** Seconds before an unfinished handshake fails. */
  const GLOBAL_TIMEOUT: nat := 120

  const GLOBAL_TIMEOUT_ERROR: string := "Handshake did not complete in 120 seconds"

  /** The public-key operations of the handshake, left abstract: RSA
      encryption under the device key, HMAC-SHA1 keyed with the session
      key, and the server's RSA signature. */
  datatype PublicKeyOps = PublicKeyOps(
    encrypt: (seq<byte>, seq<byte>) -> seq<byte>,
    hmac: (seq<byte>, seq<byte>) -> seq<byte>,
    sign: seq<byte> -> seq<byte>)

  /** The message `send_sessionkey` writes: the encrypted session key
      followed by the signature of its HMAC. */
  function SessionKeyMessage(ops: PublicKeyOps, corePublicKey: seq<byte>, sessionKey: seq<byte>): (msg: seq<byte>)
    ensures var ct := ops.encrypt(corePublicKey, sessionKey);
      var sig := ops.sign(ops.hmac(ct, sessionKey));
      |msg| == |ct| + |sig| && msg[..|ct|] == ct && msg[|ct|..] == sig
  {
    var ciphertext := ops.encrypt(corePublicKey, sessionKey);
    var signed := ops.sign(ops.hmac(ciphertext, sessionKey));
    ciphertext + signed
  }

  /** The checks of `read_coreid` on the decrypted reply: it must exist and
      not be empty, have 40 + 12 bytes, and start with the nonce sent; the
      device id is the hex of the last 12 bytes. */
  function CheckCoreId(plaintext: Option<seq<byte>>, nonce: Option<seq<byte>>): (r: Result<string, string>)
    ensures r.Ok? <==>
      plaintext.Some? && |plaintext.value| == NONCE_BYTES + ID_BYTES &&
      nonce == Some(plaintext.value[..NONCE_BYTES])
    ensures r.Ok? ==> r.value == BufferHex(plaintext.value[NONCE_BYTES..]) && |r.value| == 2 * ID_BYTES
    ensures plaintext.None? || plaintext.value == [] ==> r == Err("decryption failed")
    ensures plaintext.Some? && plaintext.value != [] && |plaintext.value| != NONCE_BYTES + ID_BYTES ==>
      r == Err("plaintext was the wrong size: " + NatToDecimal(|plaintext.value|))
  {
    if plaintext.None? || plaintext.value == [] then Err("decryption failed")
    else
      var pt := plaintext.value;
      if |pt| != NONCE_BYTES + ID_BYTES then Err("plaintext was the wrong size: " + NatToDecimal(|pt|))
      else if nonce != Some(pt[..NONCE_BYTES]) then Err("nonces didn't match")
      else Ok(BufferHex(pt[NONCE_BYTES..]))
  }

  /** A reply read before the nonce callback has run, while no nonce is
      set, is rejected as a nonce mismatch whatever its contents, once it
      has the right size. */
  lemma EarlyReplyRejected(pt: seq<byte>)
    requires |pt| == NONCE_BYTES + ID_BYTES
    ensures CheckCoreId(Some(pt), None) == Err("nonces didn't match")
  {
  }

  /** Accepted replies with the same device id carry the same id bytes. */
  lemma CoreIdDeterminesIdBytes(p: seq<byte>, q: seq<byte>, nonce: seq<byte>)
    requires CheckCoreId(Some(p), Some(nonce)).Ok? && CheckCoreId(Some(q), Some(nonce)).Ok?
    requires CheckCoreId(Some(p), Some(nonce)).value == CheckCoreId(Some(q), Some(nonce)).value
    ensures p == q
  {
    BufferHexInjective(p[NONCE_BYTES..], q[NONCE_BYTES..]);
    assert p == p[..NONCE_BYTES] + p[NONCE_BYTES..];
    assert q == q[..NONCE_BYTES] + q[NONCE_BYTES..];
  }

  /** A deferred call: `_nextStep(data)` or `client.routeMessage(data)`. */
  datatype Tick = NextStepTick(data: Option<seq<byte>>) | RouteTick(data: Option<seq<byte>>)

  /** The route ticks for queued items, in order. */
  function RouteTicks(items: seq<seq<byte>>): (r: seq<Tick>)
    ensures |r| == |items|
    ensures forall i :: 0 <= i < |items| ==> r[i] == RouteTick(Some(items[i]))
  {
    if items == [] then [] else [RouteTick(Some(items[0]))] + RouteTicks(items[1..])
  }

  lemma {:induction false} RouteTicksSnoc(items: seq<seq<byte>>, x: seq<byte>)
    ensures RouteTicks(items + [x]) == RouteTicks(items) + [RouteTick(Some(x))]
  {
    assert RouteTicks(items + [x]) == RouteTicks(items) + [RouteTick(Some(x))];
  }

  /** `_pending` after `queueEarlyData(data)`: null data is ignored. */
  function Queued(pending: Option<seq<seq<byte>>>, data: Option<seq<byte>>): (r: Option<seq<seq<byte>>>)
    ensures data.None? ==> r == pending
    ensures data.Some? ==> r.Some? && r.value == (if pending.Some? then pending.value else []) + [data.value]
  {
    if data.None? then pending
    else Some((if pending.Some? then pending.value else []) + [data.value])
  }

  /** What the environment supplies to one `_nextStep`: the RSA
      decryption of the device's reply (`None` when it throws), the device
      key found for the id, the parsed hello, and the random 16-bit send
      counter. */
  datatype StepInputs = StepInputs(
    plaintext: Option<seq<byte>>,
    publicKey: Option<seq<byte>>,
    hello: Option<CoapMessage>,
    counter: nat)

  /** The step whose `getRandomBytes` callback is still to run. */
  datatype RandomWait = NonceWait | SessionKeyWait

  class Handshake {
    const client: Session.SparkCore
    const ops: PublicKeyOps
    var stage: nat
    var nonce: Option<seq<byte>>
    var sessionKey: Option<seq<byte>>
    var coreID: Option<string>
    var corePublicKey: Option<seq<byte>>
    /** Whether the AES streams exist. */
    var secureIn: bool
    var secureOut: bool
    /** `_pending`: decrypted data that came before the handshake was done. */
    var pending: Option<seq<seq<byte>>>
    var ticks: seq<Tick>
    /** Pending `getRandomBytes` callbacks, oldest first. */
    var randomWaits: seq<RandomWait>
    /** Data handed to `client.routeMessage`, oldest first. */
    var delivered: seq<Option<seq<byte>>>
    /** Buffers written to the socket in the clear. */
    var socketWrites: seq<seq<byte>>
    var globalTimer: bool
    /** The armed 30-second read timer and the failure it reports. */
    var socketTimer: Option<string>
    /** Reasons passed to `onFail`. */
    var failures: seq<string>
    /** Calls of `onSuccess`. */
    var successes: nat

    /** What every stage has established: each completed step leaves its
        result behind, and a session key is only asked for once the
        device key is known. */
    ghost predicate Valid()
      reads this
    {
      (SessionKeyWait in randomWaits ==> stage >= SEND_SESSIONKEY) &&
      (stage >= GET_COREKEY ==> coreID.Some?) &&
      (stage >= SEND_SESSIONKEY ==> corePublicKey.Some?) &&
      (stage >= GET_HELLO ==> sessionKey.Some? && secureIn && secureOut)
    }

    /** `new Handshake()` followed by `handshake(client, onSuccess,
        onFail)`: the first step is queued and the global timer armed. */
    constructor (client: Session.SparkCore, ops: PublicKeyOps)
      ensures Valid()
      ensures this.client == client && this.ops == ops
      ensures stage == SEND_NONCE && ticks == [NextStepTick(None)] && globalTimer
      ensures nonce.None? && sessionKey.None? && coreID.None? && corePublicKey.None?
      ensures !secureIn && !secureOut && pending.None? && socketTimer.None? && randomWaits == []
      ensures delivered == [] && socketWrites == [] && failures == [] && successes == 0
    {
      this.client := client;
      this.ops := ops;
      stage := SEND_NONCE;
      nonce, sessionKey, coreID, corePublicKey := None, None, None, None;
      secureIn, secureOut, pending := false, false, None;
      ticks, delivered, socketWrites := [NextStepTick(None)], [], [];
      randomWaits := [];
      globalTimer, socketTimer := true, None;
      failures, successes := [], 0;
    }

    method HandshakeFail(msg: string)
      modifies this`failures, this`globalTimer
      ensures failures == old(failures) + [msg] && !globalTimer
    {
      failures := failures + [msg];
      globalTimer := false;
    }

    method NextStep(data: Option<seq<byte>>)
      modifies this`ticks
      ensures ticks == old(ticks) + [NextStepTick(data)]
    {
      ticks := ticks + [NextStepTick(data)];
    }

    method RouteToClient(data: Option<seq<byte>>)
      modifies this`ticks
      ensures ticks == old(ticks) + [RouteTick(data)]
    {
      ticks := ticks + [RouteTick(data)];
    }

    method QueueEarlyData(data: Option<seq<byte>>)
      modifies this`pending
      ensures pending == Queued(old(pending), data)
    {
      if data.None? {
        return;
      }
      var items := if pending.Some? then pending.value else [];
      pending := Some(items + [data.value]);
    }

    /** Routes every queued item, in arrival order, then drops the queue. */
    method FlushEarlyData()
      modifies this`ticks, this`pending
      ensures pending.None?
      ensures ticks == old(ticks) + RouteTicks(if old(pending).Some? then old(pending).value else [])
    {
      if pending.None? {
        return;
      }
      var items := pending.value;
      for i := 0 to |items|
        invariant ticks == old(ticks) + RouteTicks(items[..i])
      {
        RouteToClient(Some(items[i]));
        RouteTicksSnoc(items[..i], items[i]);
        assert items[..i + 1] == items[..i] + [items[i]];
      }
      assert items[..|items|] == items;
      pending := None;
    }

    // --- the steps

    /** `send_nonce`: the stage moves on at once, and the nonce is asked
        for; it is set and sent only when the callback runs. */
    method SendNonce()
      requires Valid() && stage == SEND_NONCE
      modifies this`stage, this`randomWaits
      ensures Valid() && stage == old(stage) + 1
      ensures randomWaits == old(randomWaits) + [NonceWait]
    {
      stage := stage + 1;
      randomWaits := randomWaits + [NonceWait];
    }

    /** The callback of `send_nonce`'s `getRandomBytes`: the bytes become
        the nonce, are written in the clear, and the next step is queued. */
    method NonceReady(buf: seq<byte>)
      requires Valid()
      modifies this`nonce, this`socketWrites, this`ticks
      ensures Valid()
      ensures nonce == Some(buf) && socketWrites == old(socketWrites) + [buf]
      ensures ticks == old(ticks) + [NextStepTick(None)]
    {
      nonce := Some(buf);
      socketWrites := socketWrites + [buf];
      NextStep(None);
    }

    /** `read_coreid(data)` where the RSA decryption of `data` gave
        `plaintext`.  Without data the read timer is armed. */
    method ReadCoreId(data: Option<seq<byte>>, plaintext: Option<seq<byte>>)
      requires Valid() && stage == READ_COREID
      modifies this`socketTimer, this`failures, this`globalTimer, this`coreID, this`stage, this`ticks
      ensures Valid()
      ensures data.None? ==>
        socketTimer == Some("read_coreid timed out") && stage == old(stage) && coreID == old(coreID) &&
        ticks == old(ticks) && failures == old(failures) && globalTimer == old(globalTimer)
      ensures data.Some? ==> socketTimer.None?
      ensures data.Some? && CheckCoreId(plaintext, nonce).Ok? ==>
        coreID == Some(CheckCoreId(plaintext, nonce).value) && stage == old(stage) + 1 &&
        ticks == old(ticks) + [NextStepTick(None)] && failures == old(failures) && globalTimer == old(globalTimer)
      ensures data.Some? && CheckCoreId(plaintext, nonce).Err? ==>
        coreID == old(coreID) && stage == old(stage) && ticks == old(ticks) && !globalTimer &&
        failures == old(failures) + [CheckCoreId(plaintext, nonce).error]
    {
      if data.None? {
        socketTimer := Some("read_coreid timed out");
        return;
      }
      socketTimer := None;
      if plaintext.None? || |plaintext.value| == 0 {
        HandshakeFail("decryption failed");
        return;
      }
      var pt := plaintext.value;
      if |pt| != NONCE_BYTES + ID_BYTES {
        HandshakeFail("plaintext was the wrong size: " + NatToDecimal(|pt|));
        return;
      }
      var vNonce := pt[..NONCE_BYTES];
      var vCoreId := pt[NONCE_BYTES..];
      var same, _ := Utilities.BufferCompare(Some(vNonce), nonce);
      if !same {
        HandshakeFail("nonces didn't match");
        return;
      }
      coreID := Some(BufferHex(vCoreId));
      stage := stage + 1;
      NextStep(None);
    }

    /** `get_corekey` with the key the lookup found.  A missing key makes
        the callback use an undefined variable, so the failure reported is
        the one of its exception handler. */
    method GetCoreKey(publicKey: Option<seq<byte>>)
      requires Valid() && stage == GET_COREKEY
      modifies this`corePublicKey, this`stage, this`ticks, this`failures, this`globalTimer
      ensures Valid()
      ensures publicKey.None? ==>
        stage == old(stage) && corePublicKey == old(corePublicKey) && ticks == old(ticks) && !globalTimer &&
        failures == old(failures) + ["Failed handling find key for core: " + coreID.value]
      ensures publicKey.Some? ==>
        corePublicKey == publicKey && stage == old(stage) + 1 && ticks == old(ticks) + [NextStepTick(None)] &&
        failures == old(failures) && globalTimer == old(globalTimer)
    {
      if publicKey.None? {
        HandshakeFail("Failed handling find key for core: " + coreID.value);
        return;
      }
      corePublicKey := publicKey;
      stage := stage + 1;
      NextStep(None);
    }

    /** `send_sessionkey`: only asks for the 40 random bytes; the stage
        stays until the callback runs, so data arriving meanwhile runs
        this step again. */
    method SendSessionKey()
      requires Valid() && stage == SEND_SESSIONKEY
      modifies this`randomWaits
      ensures Valid()
      ensures randomWaits == old(randomWaits) + [SessionKeyWait]
    {
      randomWaits := randomWaits + [SessionKeyWait];
    }

    /** The callback of `send_sessionkey`'s `getRandomBytes`: the key
        message goes out in the clear, the AES streams are created from
        the key, and the stage moves on.  Each pending request advances the
        stage once more. */
    method SessionKeyReady(buf: seq<byte>)
      requires Valid() && stage >= SEND_SESSIONKEY
      modifies this`sessionKey, this`socketWrites, this`secureIn, this`secureOut, this`stage, this`ticks
      ensures Valid() && stage == old(stage) + 1
      ensures sessionKey == Some(buf) && secureIn && secureOut
      ensures socketWrites == old(socketWrites) + [SessionKeyMessage(ops, corePublicKey.value, buf)]
      ensures ticks == old(ticks) + [NextStepTick(None)]
    {
      sessionKey := Some(buf);
      var msg := SessionKeyMessage(ops, corePublicKey.value, buf);
      socketWrites := socketWrites + [msg];
      secureIn := true;
      secureOut := true;
      stage := stage + 1;
      NextStep(None);
    }

    /** `get_hello(data)` with the message parsed from it.  The hello's id
        becomes the client's receive counter; a non-empty payload carries
        the product id and then the firmware version as big-endian 16-bit
        values, and a payload too short for one of them stops the reading
        there. */
    method GetHello(data: Option<seq<byte>>, hello: Option<CoapMessage>)
      requires Valid() && stage == GET_HELLO
      modifies this`socketTimer, this`failures, this`globalTimer, this`stage, this`ticks
      modifies client`recvCounter, client`productId, client`firmwareVersion
      ensures Valid()
      ensures data.None? ==>
        socketTimer == Some("get_hello timed out") && stage == old(stage) && ticks == old(ticks) &&
        failures == old(failures) && globalTimer == old(globalTimer) &&
        client.recvCounter == old(client.recvCounter) && client.productId == old(client.productId) &&
        client.firmwareVersion == old(client.firmwareVersion)
      ensures data.Some? ==> socketTimer.None?
      ensures data.Some? && hello.None? ==>
        stage == old(stage) && ticks == old(ticks) && failures == old(failures) + ["failed to parse hello"] &&
        !globalTimer && client.recvCounter == old(client.recvCounter) &&
        client.productId == old(client.productId) && client.firmwareVersion == old(client.firmwareVersion)
      ensures data.Some? && hello.Some? ==>
        var p := hello.value.payload;
        stage == old(stage) + 1 && ticks == old(ticks) + [NextStepTick(None)] &&
        failures == old(failures) && globalTimer == old(globalTimer) &&
        client.recvCounter == hello.value.id &&
        client.productId == (if |p| >= 2 then Some(Unsigned16(p[..2])) else old(client.productId)) &&
        client.firmwareVersion == (if |p| >= 4 then Some(Unsigned16(p[2..4])) else old(client.firmwareVersion))
    {
      if data.None? {
        socketTimer := Some("get_hello timed out");
        return;
      }
      socketTimer := None;
      if hello.None? {
        HandshakeFail("failed to parse hello");
        return;
      }
      var msg := hello.value;
      client.recvCounter := msg.id;
      var payload := msg.payload;
      if |payload| > 0 {
        if |payload| >= 2 {
          client.productId := Some(Unsigned16(payload[..2]));
          if |payload| >= 4 {
            client.firmwareVersion := Some(Unsigned16(payload[2..4]));
          }
        }
      }
      stage := stage + 1;
      NextStep(None);
    }

    /** `send_hello` with the random 16-bit counter: the client gets the
        outgoing secure stream and the counter, and sends Hello with the
        next counter value. */
    method SendHello(counter: nat)
      requires Valid() && stage == SEND_HELLO
      modifies this`stage, this`ticks
      modifies client`secureOut, client`sendCounter, client`sendToken, client`tokens, client`written, client`lockErrors
      ensures Valid() && stage == old(stage) + 1
      ensures ticks == old(ticks) + [NextStepTick(None)]
      ensures client.secureOut == secureOut && client.lockErrors == old(client.lockErrors)
      ensures client.Permits(None) ==>
        var t := Session.Step(old(client.sendToken), Session.TOKEN_MAX);
        client.sendCounter == Session.Step(counter, Session.COUNTER_MAX) && client.sendToken == t &&
        client.tokens == old(client.tokens)[Session.TokenKey(t) := "Hello"] &&
        client.written == old(client.written) + client.Outgoing("Hello", client.sendCounter, Fields(map[]), None, NumberToken(t))
      ensures !client.Permits(None) ==>
        client.sendCounter == counter && client.sendToken == old(client.sendToken) &&
        client.tokens == old(client.tokens) && client.written == old(client.written)
    {
      client.secureOut := secureOut;
      client.sendCounter := counter;
      var _ := client.SendMessage("Hello", Fields(map[]), None, None, false);
      stage := stage + 1;
      NextStep(None);
    }

    /** The DONE step: the client gets the session key, `onSuccess` is
        called, the global timer cleared, early data flushed to the client,
        and the stage moves past DONE. */
    method Done()
      requires Valid() && stage == DONE
      modifies this`successes, this`globalTimer, this`ticks, this`pending, this`stage, client`sessionKey
      ensures Valid() && stage == old(stage) + 1
      ensures client.sessionKey == sessionKey && successes == old(successes) + 1 && !globalTimer
      ensures pending.None? && ticks == old(ticks) + RouteTicks(if old(pending).Some? then old(pending).value else [])
    {
      client.sessionKey := sessionKey;
      successes := successes + 1;
      globalTimer := false;
      FlushEarlyData();
      stage := stage + 1;
    }

    /** `_nextStep(data)`: the step of the current stage; past DONE the
        data goes to the client.  The stage moves forward by one exactly
        when the step completes. */
    method NextStepNow(data: Option<seq<byte>>, inp: StepInputs)
      requires Valid()
      modifies this`stage, this`nonce, this`socketWrites, this`ticks, this`socketTimer, this`failures
      modifies this`globalTimer, this`coreID, this`corePublicKey, this`sessionKey, this`secureIn, this`secureOut
      modifies this`successes, this`pending, this`randomWaits
      modifies client`recvCounter, client`productId, client`firmwareVersion, client`coreID, client`sessionKey
      modifies client`secureOut, client`sendCounter, client`sendToken, client`tokens, client`written, client`lockErrors
      ensures Valid()
      ensures old(stage) <= stage <= old(stage) + 1
      ensures |ticks| >= |old(ticks)| && ticks[..|old(ticks)|] == old(ticks) && delivered == old(delivered)
      ensures old(stage) > DONE ==> stage == old(stage) && ticks == old(ticks) + [RouteTick(data)]
      ensures old(stage) == SEND_NONCE ==> stage == READ_COREID && randomWaits == old(randomWaits) + [NonceWait]
      ensures old(stage) != SEND_NONCE && old(stage) != SEND_SESSIONKEY ==> randomWaits == old(randomWaits)
      ensures old(stage) == READ_COREID ==>
        (stage == GET_COREKEY <==> data.Some? && CheckCoreId(inp.plaintext, old(nonce)).Ok?) &&
        client.coreID == coreID
      ensures old(stage) == GET_COREKEY ==> (stage == SEND_SESSIONKEY <==> inp.publicKey.Some?)
      ensures old(stage) == SEND_SESSIONKEY ==>
        stage == old(stage) && ticks == old(ticks) && randomWaits == old(randomWaits) + [SessionKeyWait]
      ensures old(stage) == GET_HELLO ==> (stage == SEND_HELLO <==> data.Some? && inp.hello.Some?)
      ensures old(stage) == SEND_HELLO ==> stage == DONE
      ensures old(stage) == DONE ==> stage == DONE + 1 && pending.None? && successes == old(successes) + 1
    {
      if stage == SEND_NONCE {
        SendNonce();
      } else if stage == READ_COREID {
        ReadCoreId(data, inp.plaintext);
        client.coreID := coreID;
      } else if stage == GET_COREKEY {
        GetCoreKey(inp.publicKey);
      } else if stage == SEND_SESSIONKEY {
        SendSessionKey();
      } else if stage == GET_HELLO {
        GetHello(data, inp.hello);
      } else if stage == SEND_HELLO {
        SendHello(inp.counter);
      } else if stage == DONE {
        Done();
      } else {
        RouteToClient(data);
      }
    }

    /** The `readable` handler of the incoming secure stream: past DONE
        the chunk goes to the client, from SEND_HELLO to DONE it is queued,
        and before that it feeds the next step. */
    method OnSecureData(chunk: Option<seq<byte>>)
      modifies this`ticks, this`pending
      ensures stage > DONE ==> ticks == old(ticks) + [RouteTick(chunk)] && pending == old(pending)
      ensures SEND_HELLO <= stage <= DONE ==> ticks == old(ticks) && pending == Queued(old(pending), chunk)
      ensures stage < SEND_HELLO ==> ticks == old(ticks) + [NextStepTick(chunk)] && pending == old(pending)
    {
      if stage > DONE {
        RouteToClient(chunk);
      } else if stage >= SEND_HELLO {
        QueueEarlyData(chunk);
      } else {
        NextStep(chunk);
      }
    }

    /** `onSocketData`: data read from the socket in the clear feeds the
        next step while there is no incoming secure stream; once there is
        one, the data is written into it, which is the stream piping.
        Null data is ignored. */
    method OnSocketData(data: Option<seq<byte>>)
      modifies this`ticks
      ensures data.Some? && !secureIn ==> ticks == old(ticks) + [NextStepTick(data)]
      ensures data.None? || secureIn ==> ticks == old(ticks)
    {
      if data.None? {
        return;
      }
      if !secureIn {
        NextStep(data);
      }
    }

    /** `crypto.randomBytes` completes with `buf`: the callback of the
        oldest pending request runs. */
    method OnRandomBytes(buf: seq<byte>)
      requires Valid()
      modifies this`randomWaits, this`nonce, this`socketWrites, this`ticks
      modifies this`sessionKey, this`secureIn, this`secureOut, this`stage
      ensures Valid()
      ensures old(randomWaits) == [] ==>
        randomWaits == [] && stage == old(stage) && ticks == old(ticks) && socketWrites == old(socketWrites) &&
        nonce == old(nonce) && sessionKey == old(sessionKey)
      ensures old(randomWaits) != [] ==>
        randomWaits == old(randomWaits)[1..] && ticks == old(ticks) + [NextStepTick(None)]
      ensures old(randomWaits) != [] && old(randomWaits)[0] == NonceWait ==>
        nonce == Some(buf) && socketWrites == old(socketWrites) + [buf] && stage == old(stage) &&
        sessionKey == old(sessionKey)
      ensures old(randomWaits) != [] && old(randomWaits)[0] == SessionKeyWait ==>
        sessionKey == Some(buf) && secureIn && secureOut && stage == old(stage) + 1 && nonce == old(nonce) &&
        socketWrites == old(socketWrites) + [SessionKeyMessage(ops, corePublicKey.value, buf)]
    {
      if randomWaits == [] {
        return;
      }
      var w := randomWaits[0];
      randomWaits := randomWaits[1..];
      match w
      case NonceWait =>
        NonceReady(buf);
      case SessionKeyWait =>
        assert SessionKeyWait in old(randomWaits);
        SessionKeyReady(buf);
    }

    /** The tick queue runs its oldest entry. */
    method RunNextTick(inp: StepInputs)
      requires Valid()
      modifies this`stage, this`nonce, this`socketWrites, this`ticks, this`socketTimer, this`failures
      modifies this`globalTimer, this`coreID, this`corePublicKey, this`sessionKey, this`secureIn, this`secureOut
      modifies this`successes, this`pending, this`delivered, this`randomWaits
      modifies client`recvCounter, client`productId, client`firmwareVersion, client`coreID, client`sessionKey
      modifies client`secureOut, client`sendCounter, client`sendToken, client`tokens, client`written, client`lockErrors
      ensures Valid()
      ensures old(stage) <= stage <= old(stage) + 1
      ensures old(ticks) == [] ==> ticks == [] && stage == old(stage) && delivered == old(delivered)
      ensures old(ticks) != [] && old(ticks)[0].RouteTick? ==>
        delivered == old(delivered) + [old(ticks)[0].data] && ticks == old(ticks)[1..] && stage == old(stage)
      ensures old(ticks) != [] && old(ticks)[0].NextStepTick? ==>
        delivered == old(delivered) && |ticks| >= |old(ticks)| - 1 && ticks[..|old(ticks)| - 1] == old(ticks)[1..]
    {
      if ticks == [] {
        return;
      }
      var t := ticks[0];
      ticks := ticks[1..];
      match t
      case RouteTick(d) =>
        delivered := delivered + [d];
      case NextStepTick(d) =>
        NextStepNow(d, inp);
    }

    /** The global timer fires: an unfinished handshake fails. */
    method FireGlobalTimer()
      modifies this`failures, this`globalTimer
      ensures !globalTimer
      ensures failures == if old(globalTimer) then old(failures) + [GLOBAL_TIMEOUT_ERROR] else old(failures)
    {
      if globalTimer {
        HandshakeFail(GLOBAL_TIMEOUT_ERROR);
      }
    }

    /** The read timer fires with the failure of the step that armed it. */
    method FireSocketTimer()
      modifies this`failures, this`globalTimer, this`socketTimer
      ensures socketTimer.None?
      ensures old(socketTimer).None? ==> failures == old(failures) && globalTimer == old(globalTimer)
      ensures old(socketTimer).Some? ==> failures == old(failures) + [old(socketTimer).value] && !globalTimer
    {
      if socketTimer.None? {
        return;
      }
      var msg := socketTimer.value;
      socketTimer := None;
      HandshakeFail(msg);
    }
  }
}
