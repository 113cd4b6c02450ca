/** The per-connection session of a device (`js/clients/SparkCore.js`):
    the send counter and message tokens, the table from tokens to request
    names, the exclusive lock, routing of decoded messages with the receive
    counter check, single-flight introspection, device events and
    disconnection.

    The streams are reduced to what the session observes: whether the
    socket and the two secure streams are present, the messages written to
    the outgoing secure stream (`written`), the events emitted
    (`dispatched`, `disconnectReasons`), the `onError` calls deferred to the
    next tick (`lockErrors`) and the calls made to the event publisher
    (`published`). */
module Session {
  import opened Prelude
  import opened Messages
  import Utilities

  /** `settings.message_counter_max`. */
  const COUNTER_MAX: nat := 65536
  /** `settings.message_token_max`. */
  const TOKEN_MAX: nat := 255
  /** The largest receive counter `routeMessage` keeps before wrapping. */
  const RECV_COUNTER_MAX: nat := 65535
  /** `Message.Code.DELETE`, the last request code. */
  const DELETE: nat := 4
  /** The ttl an event gets when the device gives none. */
  const DEFAULT_TTL: int := 60
  const LOCK_ERROR: string := "this client has an exclusive lock"
  const TOO_SMALL: string := "Update failed - File was too small!"
  const TOO_BIG: string := "Update failed - File was too big!"

  // -----------------------------------------------------------------------
  // Counters

  /** One increment of a counter that goes back to 0 when it reaches
      `limit`. */
  function Step(c: nat, limit: nat): nat
  {
    if c + 1 >= limit then 0 else c + 1
  }

  /** `k` increments from `c`. */
  function Steps(c: nat, limit: nat, k: nat): nat
    decreases k
  {
    if k == 0 then c else Step(Steps(c, limit, k - 1), limit)
  }

  lemma MulSucc(q: int, m: int)
    ensures (q + 1) * m == q * m + m
  {
  }

  /** Adding at most `m` to `x` moves its remainder by that much, wrapping
      once past `m`. */
  lemma ShiftMod(x: nat, d: nat, m: nat)
    requires m > 0 && d <= m
    ensures x % m + d < m ==> (x + d) % m == x % m + d
    ensures x % m + d >= m ==> (x + d) % m == x % m + d - m
  {
    var q := x / m;
    var r := x % m;
    assert x == q * m + r;
    if r + d < m {
      DivModOfSum(x + d, q, r + d, m);
    } else {
      MulSucc(q, m);
      DivModOfSum(x + d, q + 1, r + d - m, m);
    }
  }

  /** A counter in range that steps `k` times is `c + k` modulo the limit. */
  lemma {:induction false} StepsCycle(c: nat, limit: nat, k: nat)
    requires c < limit
    ensures Steps(c, limit, k) == (c + k) % limit
    decreases k
  {
    if k == 0 {
      DivModOfSum(c, 0, c, limit);
    } else {
      StepsCycle(c, limit, k - 1);
      ShiftMod(c + k - 1, 1, limit);
    }
  }

  /** Within fewer than `limit` steps a counter never repeats a value. */
  lemma StepsDistinct(c: nat, limit: nat, i: nat, j: nat)
    requires c < limit && i < j < i + limit
    ensures Steps(c, limit, i) != Steps(c, limit, j)
  {
    StepsCycle(c, limit, i);
    StepsCycle(c, limit, j);
    ShiftMod(c + i, j - i, limit);
  }

  /** The send counter stays below `COUNTER_MAX` and counts modulo it. */
  lemma SendCounterCycles(c: nat, k: nat)
    requires c < COUNTER_MAX
    ensures Steps(c, COUNTER_MAX, k) < COUNTER_MAX
    ensures Steps(c, COUNTER_MAX, k) == (c + k) % COUNTER_MAX
  {
    StepsCycle(c, COUNTER_MAX, k);
  }

  /** A token is not handed out again before `TOKEN_MAX` other tokens
      (0 .. 254) have been. */
  lemma TokensNotReissued(t: nat, i: nat, j: nat)
    requires t < TOKEN_MAX && i < j < i + TOKEN_MAX
    ensures Steps(t, TOKEN_MAX, i) != Steps(t, TOKEN_MAX, j)
  {
    StepsDistinct(t, TOKEN_MAX, i, j);
  }

  /** `++recvCounter`, which 65535 wraps to 0. */
  function NextRecvCounter(c: nat): (r: nat)
    ensures r <= RECV_COUNTER_MAX
    ensures c < RECV_COUNTER_MAX ==> r == c + 1
    ensures c >= RECV_COUNTER_MAX ==> r == 0
  {
    var n := c + 1;
    if n > RECV_COUNTER_MAX then 0 else n
  }

  // -----------------------------------------------------------------------
  // Tokens

  /** The key under which the token table records token `t`: the hex
      rendering of the one token byte `wrap` puts on the message, always two
      digits (see `Utilities.PaddedHexString`). */
  function TokenKey(t: nat): string
  {
    Utilities.PaddedHexString((t % 256) as byte)
  }

  /** `getTokenString`: the token bytes in hex, "" without a token. */
  function TokenString(m: CoapMessage): string
  {
    if m.token.Some? then BufferHex(m.token.value) else ""
  }

  /** The key recorded for a numeric token is exactly the token string of
      the message `wrap` builds with it, and different tokens get
      different keys. */
  lemma TokenKeyIsTokenString(name: string, id: nat, params: Params, data: Option<seq<byte>>, t: nat)
    requires SpecOf(name).Some?
    ensures TokenString(Wrap(name, id, params, data, NumberToken(t)).value) == TokenKey(t)
    ensures forall u: nat :: u < 256 && t < 256 && TokenKey(u) == TokenKey(t) ==> u == t
  {
    NumberTokenString(Wrap(name, id, params, data, NumberToken(t)).value, t);
    TokenKeyInjective(t);
  }

  lemma TokenKeyInjective(t: nat)
    ensures forall u: nat :: u < 256 && t < 256 && TokenKey(u) == TokenKey(t) ==> u == t
  {
    forall u: nat | u < 256 && t < 256 && TokenKey(u) == TokenKey(t)
      ensures u == t
    {
      assert u % 256 == u && t % 256 == t;
      assert ByteHex(u as byte) == ByteHex(t as byte);
    }
  }

  lemma NumberTokenString(m: CoapMessage, t: nat)
    requires m.token == TokenBytes(NumberToken(t))
    ensures TokenString(m) == TokenKey(t)
  {
    var b := (t % 256) as byte;
    assert BufferHex([b]) == ByteHex(b) + BufferHex([]);
  }

  /** With `toHexString` as written the keys of tokens 10 to 15 never equal
      the token string of the reply, so those replies find no request. */
  lemma AsWrittenKeyMisses(name: string, id: nat, params: Params, data: Option<seq<byte>>, t: nat)
    requires SpecOf(name).Some? && 10 <= t < 16
    ensures Utilities.ToHexString(t) != TokenString(Wrap(name, id, params, data, NumberToken(t)).value)
  {
    TokenKeyIsTokenString(name, id, params, data, t);
    Utilities.ToHexStringVersusByteHex(t as byte);
  }

  /** The table after `clearToken`: the entry goes when it holds a name
      (an empty name is falsy and stays). */
  function Cleared(tokens: map<string, string>, key: string): (r: map<string, string>)
    ensures key !in r || r[key] == ""
    ensures forall k :: k in r ==> k in tokens && r[k] == tokens[k]
    ensures forall k :: k in tokens && k != key ==> k in r
  {
    if key in tokens && tokens[key] != "" then tokens - {key} else tokens
  }

  // -----------------------------------------------------------------------
  // Session values

  /** The identity of a requester: an API client or a flasher. */
  type ClientId = nat

  /** `_describeDfd`: absent, pending, or resolved.  It is never rejected,
      because `loadFnState` either returns true or throws. */
  datatype DescribeRequest = NoRequest | Pending | Resolved

  /** The parsed introspection state: the functions with an argument list
      (keyed as the device sent them and looked up by the lower-cased
      name), the old protocol's function name list `f`
      and the variable table `v`. */
  datatype FnState = FnState(
    functions: map<string, seq<Option<ArgDesc>>>,
    f: Option<seq<Option<string>>>,
    v: Option<map<string, Value>>)

  /** The payload of a describe reply after `JSON.parse`: text that does
      not parse, a falsy JSON value, or a state. */
  datatype Description = Malformed | NoState | Described(state: FnState)

  /** What is handed to the publisher for a device event. */
  datatype Event = Event(name: string, isPublic: bool, ttl: int, data: Option<seq<byte>>)

  /** What `sendMessage` returns: false (refused by the lock), undefined
      (no secure stream yet) or the token. */
  datatype SendOutcome = Refused | NotReady | Sent(token: nat)

  /** The descriptor list `_transformArguments` uses for function `name`:
      the function's own list, or else, when the old protocol's list names
      the function, one string argument. */
  function Descriptors(st: FnState, name: string): (r: Option<seq<Option<ArgDesc>>>)
    ensures ToLower(name) in st.functions ==> r == Some(st.functions[ToLower(name)])
    ensures ToLower(name) !in st.functions ==>
      (r.Some? <==> st.f.Some? && exists i :: 0 <= i < |st.f.value| && Utilities.LowerMatch(st.f.value[i], ToLower(name)))
    ensures ToLower(name) !in st.functions && r.Some? ==> r.value == [Some(ArgDesc("", "string"))]
  {
    var lower := ToLower(name);
    if lower in st.functions then Some(st.functions[lower])
    else if st.f.Some? && exists i :: 0 <= i < |st.f.value| && Utilities.LowerMatch(st.f.value[i], lower) then
      Some([Some(ArgDesc("", "string"))])
    else None
  }

  /** The event `onCoreSentEvent` builds from a message. */
  function EventOf(m: CoapMessage, isPublic: bool, maxAge: int): (e: Event)
    ensures |UriPath(m)| >= 3 ==> e.name == UriPath(m)[3..]
    ensures |UriPath(m)| < 3 ==> e.name == ""
    ensures e.ttl > 0 && (maxAge > 0 ==> e.ttl == maxAge) && (maxAge <= 0 ==> e.ttl == DEFAULT_TTL)
    ensures e.data.None? <==> m.payload == []
    ensures e.data.Some? ==> e.data.value == m.payload
    ensures e.isPublic == isPublic
  {
    Event(SubstrFrom(UriPath(m), 3), isPublic, if maxAge > 0 then maxAge else DEFAULT_TTL,
          if |m.payload| == 0 then None else Some(m.payload))
  }

  /** The reserved-name test of `onCoreSentEvent`. */
  function IsSparkName(name: string): bool
  {
    IndexOfSeq(ToLower(name), "spark") == 0
  }

  /** A name is reserved exactly when it starts with "spark" in any case. */
  lemma SparkNames(name: string)
    ensures IsSparkName(name) <==> |name| >= 5 && ToLower(name)[..5] == "spark"
  {
    var lower := ToLower(name);
    if |name| >= 5 && lower[..5] == "spark" {
      assert OccursAt(lower, "spark", 0);
    }
  }

  /** `x > bound` where the bound may be undefined, which compares false. */
  predicate Exceeds(x: nat, bound: Option<nat>)
  {
    match bound
    case None => false
    case Some(b) => x > b
  }

  /** `settings.MaxCoreBinaryBytes`: js/settings.js defines no such
      setting. */
  const MAX_CORE_BINARY_BYTES: Option<nat> := None

  /** The guards of `flashCore`: the api error for an image it refuses,
      `None` when it starts a flasher.  The size bound is undefined, so
      every non-empty image is accepted. */
  function FlashCoreGuard(binary: Option<seq<byte>>): (r: Option<string>)
    ensures r == Some(TOO_SMALL) <==> binary.None? || |binary.value| == 0
    ensures r == Some(TOO_BIG) <==> binary.Some? && Exceeds(|binary.value|, MAX_CORE_BINARY_BYTES)
    ensures r.None? <==> binary.Some? && |binary.value| > 0
  {
    if binary.None? || |binary.value| == 0 then Some(TOO_SMALL)
    else if Exceeds(|binary.value|, MAX_CORE_BINARY_BYTES) then Some(TOO_BIG)
    else None
  }

  // -----------------------------------------------------------------------
  // The session

  class SparkCore {
    var sendCounter: nat
    var sendToken: nat
    /** `_tokens`: request names keyed by token string. */
    var tokens: map<string, string>
    var recvCounter: nat
    /** `_owner`: the requester holding the exclusive lock. */
    var owner: Option<ClientId>
    var describe: DescribeRequest
    var coreFnState: Option<FnState>
    var disconnectCtr: nat
    var socketOpen: bool
    var secureIn: bool
    var secureOut: bool
    /** Messages written to the outgoing secure stream, oldest first. */
    var written: seq<CoapMessage>
    /** `msg_<type>` events: the message type (absent when none was found)
        and the message. */
    var dispatched: seq<(Option<string>, CoapMessage)>
    /** Reasons carried by `disconnect` events. */
    var disconnectReasons: seq<string>
    /** Lock errors queued for the requesters' `onError` on the next tick. */
    var lockErrors: seq<string>
    /** Events handed to the publisher. */
    var published: seq<Event>
    /** Set by the handshake: the device id (hex), the session key, and
        the product id and firmware version from the device's hello. */
    var coreID: Option<string>
    var sessionKey: Option<seq<byte>>
    var productId: Option<int>
    var firmwareVersion: Option<int>

    /** `new SparkCore()` with the accepted socket attached.  The counters
        start as null, which `++` treats as 0. */
    constructor ()
      ensures sendCounter == 0 && sendToken == 0 && tokens == map[] && recvCounter == 0
      ensures owner.None? && describe == NoRequest && coreFnState.None? && disconnectCtr == 0
      ensures socketOpen && !secureIn && !secureOut
      ensures written == [] && dispatched == [] && disconnectReasons == [] && lockErrors == [] && published == []
      ensures coreID.None? && sessionKey.None? && productId.None? && firmwareVersion.None?
    {
      sendCounter, sendToken, tokens, recvCounter := 0, 0, map[], 0;
      owner, describe, coreFnState, disconnectCtr := None, NoRequest, None, 0;
      socketOpen, secureIn, secureOut := true, false, false;
      written, dispatched, disconnectReasons, lockErrors, published := [], [], [], [], [];
      coreID, sessionKey, productId, firmwareVersion := None, None, None, None;
    }

    // --- counters and tokens

    method GetIncrSendCounter() returns (c: nat)
      modifies this`sendCounter
      ensures c == sendCounter == Step(old(sendCounter), COUNTER_MAX)
      ensures c < COUNTER_MAX
    {
      sendCounter := sendCounter + 1;
      if sendCounter >= COUNTER_MAX {
        sendCounter := 0;
      }
      return sendCounter;
    }

    method GetNextToken() returns (t: nat)
      modifies this`sendToken, this`tokens
      ensures t == sendToken == Step(old(sendToken), TOKEN_MAX) && t < TOKEN_MAX
      ensures tokens == Cleared(old(tokens), TokenKey(t))
    {
      sendToken := sendToken + 1;
      if sendToken >= TOKEN_MAX {
        sendToken := 0;
      }
      ClearToken(sendToken);
      return sendToken;
    }

    method UseToken(name: string, token: nat)
      modifies this`tokens
      ensures tokens == old(tokens)[TokenKey(token) := name]
    {
      var key := TokenKey(token);
      tokens := tokens[key := name];
    }

    method ClearToken(token: nat)
      modifies this`tokens
      ensures tokens == Cleared(old(tokens), TokenKey(token))
    {
      var key := TokenKey(token);
      if key in tokens && tokens[key] != "" {
        tokens := tokens - {key};
      }
    }

    /** `getResponseType(tokenStr)`: the catalogue response of the request
        recorded under the token, or nothing when no name is recorded. */
    function GetResponseType(tokenStr: string): (r: Option<string>)
      reads this`tokens
      ensures tokenStr !in tokens || tokens[tokenStr] == "" ==> r.None?
      ensures tokenStr in tokens && tokens[tokenStr] != "" ==> r == Messages.GetResponseType(tokens[tokenStr])
    {
      var request := if tokenStr in tokens then tokens[tokenStr] else "";
      if request == "" then None else Messages.GetResponseType(request)
    }

    // --- the exclusive lock

    predicate Permits(requester: Option<ClientId>)
      reads this`owner
    {
      owner.None? || owner == requester
    }

    method CheckOwner(requester: Option<ClientId>, hasOnError: bool) returns (ok: bool)
      modifies this`lockErrors
      ensures ok <==> owner.None? || owner == requester
      ensures lockErrors == if !ok && hasOnError then old(lockErrors) + [LOCK_ERROR] else old(lockErrors)
    {
      if owner.None? || owner == requester {
        return true;
      }
      if hasOnError {
        lockErrors := lockErrors + [LOCK_ERROR];
      }
      return false;
    }

    method TakeOwnership(obj: ClientId) returns (ok: bool)
      modifies this`owner
      ensures ok <==> old(owner).None?
      ensures ok ==> owner == Some(obj)
      ensures !ok ==> owner == old(owner)
    {
      if owner.Some? {
        return false;
      }
      owner := Some(obj);
      return true;
    }

    method ReleaseOwnership(obj: ClientId)
      modifies this`owner
      ensures old(owner) == Some(obj) ==> owner.None?
      ensures old(owner) != Some(obj) ==> owner == old(owner)
    {
      if owner == Some(obj) {
        owner := None;
      }
    }

    // --- sending

    /** What writing the wrapped message adds to the outgoing stream:
        nothing before the secure stream exists, and nothing for the null
        an unknown name wraps to. */
    function Outgoing(name: string, id: nat, params: Params, data: Option<seq<byte>>, token: TokenArg): (w: seq<CoapMessage>)
      reads this`secureOut
      ensures |w| <= 1
      ensures w != [] <==> secureOut && SpecOf(name).Some?
      ensures w != [] ==> w[0] == Wrap(name, id, params, data, token).value
    {
      var msg := Wrap(name, id, params, data, token);
      if secureOut && msg.Ok? then [msg.value] else []
    }

    /** What `sendReply(name, id)` from the session itself (no requester,
        no data, token undefined) adds to the outgoing stream. */
    function Reply(name: string, id: nat): (w: seq<CoapMessage>)
      reads this`owner, this`secureOut
      ensures w != [] ==> owner.None?
      ensures owner.None? ==> w == Outgoing(name, id, NoParams, None, UndefinedToken)
    {
      if owner.None? then Outgoing(name, id, NoParams, None, UndefinedToken) else []
    }

    method SendMessage(name: string, params: Params, data: Option<seq<byte>>, requester: Option<ClientId>, hasOnError: bool)
      returns (r: SendOutcome)
      modifies this`sendCounter, this`sendToken, this`tokens, this`written, this`lockErrors
      ensures r.Refused? <==> !Permits(requester)
      ensures r.Refused? ==>
        sendCounter == old(sendCounter) && sendToken == old(sendToken) &&
        tokens == old(tokens) && written == old(written) &&
        lockErrors == (if hasOnError then old(lockErrors) + [LOCK_ERROR] else old(lockErrors))
      ensures !r.Refused? ==>
        var t := Step(old(sendToken), TOKEN_MAX);
        sendCounter == Step(old(sendCounter), COUNTER_MAX) && sendToken == t &&
        tokens == old(tokens)[TokenKey(t) := name] && lockErrors == old(lockErrors) &&
        (r.NotReady? <==> !secureOut) && (r.Sent? ==> r.token == t) &&
        written == old(written) + Outgoing(name, sendCounter, params, data, NumberToken(t))
      ensures r.Sent? && name != "" ==> GetResponseType(TokenKey(r.token)) == Messages.GetResponseType(name)
    {
      var ok := CheckOwner(requester, hasOnError);
      if !ok {
        return Refused;
      }
      var id := GetIncrSendCounter();
      var token := GetNextToken();
      ghost var cleared := tokens;
      UseToken(name, token);
      assert tokens == old(tokens)[TokenKey(token) := name] by {
        assert cleared[TokenKey(token) := name] == old(tokens)[TokenKey(token) := name];
      }
      WriteWrapped(name, id, params, data, NumberToken(token));
      if !secureOut {
        return NotReady;
      }
      return Sent(token);
    }

    /** Wrap the message and write it to the secure stream when there is
        one; an unknown name wraps to null and nothing is written. */
    method WriteWrapped(name: string, id: nat, params: Params, data: Option<seq<byte>>, token: TokenArg)
      modifies this`written
      ensures written == old(written) + Outgoing(name, id, params, data, token)
    {
      var msg := Wrap(name, id, params, data, token);
      if !secureOut {
        return;
      }
      if msg.Ok? {
        written := written + [msg.value];
      }
    }

    method SendReply(name: string, id: int, data: Option<seq<byte>>, token: TokenArg, requester: Option<ClientId>, hasOnError: bool)
      modifies this`sendCounter, this`written, this`lockErrors
      ensures !Permits(requester) ==>
        sendCounter == old(sendCounter) && written == old(written) &&
        lockErrors == (if hasOnError then old(lockErrors) + [LOCK_ERROR] else old(lockErrors))
      ensures Permits(requester) ==>
        sendCounter == (if id < 0 then Step(old(sendCounter), COUNTER_MAX) else old(sendCounter)) &&
        lockErrors == old(lockErrors) &&
        written == old(written) + Outgoing(name, if id < 0 then sendCounter else id, NoParams, data, token)
    {
      var ok := CheckOwner(requester, hasOnError);
      if !ok {
        return;
      }
      var msgId: nat;
      if id < 0 {
        msgId := GetIncrSendCounter();
      } else {
        msgId := id;
      }
      WriteWrapped(name, msgId, NoParams, data, token);
    }

    // --- receiving

    /** The type `routeMessage` gives a message: the routed request type
        for a request code, otherwise the response type of its token. */
    function MessageTypeOf(registry: Registry, m: CoapMessage): (r: Option<string>)
      reads this`tokens, registry
      ensures EMPTY < m.code <= DELETE && Truthy(registry.GetRequestType(m)) ==> r == registry.GetRequestType(m)
      ensures !(EMPTY < m.code <= DELETE && Truthy(registry.GetRequestType(m))) ==> r == GetResponseType(TokenString(m))
    {
      var request := if EMPTY < m.code <= DELETE then registry.GetRequestType(m) else None;
      if Truthy(request) then request else GetResponseType(TokenString(m))
    }

    /** With the route table `init` builds, a message with a request code
        that the table routes is given a request kind of the catalogue,
        never a reply, a ping or an unknown name. */
    lemma RequestTypesAreRouted(registry: Registry, m: CoapMessage)
      requires registry.routes == RouteTable()
      requires EMPTY < m.code <= DELETE && Truthy(registry.GetRequestType(m))
      ensures RoutedName(MessageTypeOf(registry, m).value)
    {
      RoutedTypesAreRequests(m.code, UriPath(m));
    }

    twostate predicate DisconnectEffect(reason: string)
      reads this
    {
      disconnectCtr == old(disconnectCtr) + 1 &&
      (old(disconnectCtr) == 0 ==>
        !socketOpen && !secureIn && !secureOut && disconnectReasons == old(disconnectReasons) + [reason]) &&
      (old(disconnectCtr) > 0 ==>
        socketOpen == old(socketOpen) && secureIn == old(secureIn) && secureOut == old(secureOut) &&
        disconnectReasons == old(disconnectReasons))
    }

    twostate predicate Connected()
      reads this
    {
      disconnectCtr == old(disconnectCtr) && socketOpen == old(socketOpen) && secureIn == old(secureIn) &&
      secureOut == old(secureOut) && disconnectReasons == old(disconnectReasons)
    }

    /** `routeMessage(data)` for the message `unwrap` decoded from it
        (`None` when it decoded nothing).  Acknowledgements are dispatched
        at once, as PingAck when no type is found for them. */
    method RouteMessage(msg: Option<CoapMessage>, registry: Registry)
      modifies this`recvCounter, this`written, this`dispatched, this`sendCounter, this`lockErrors
      modifies this`disconnectCtr, this`socketOpen, this`secureIn, this`secureOut, this`disconnectReasons
      ensures sendCounter == old(sendCounter) && lockErrors == old(lockErrors)
      ensures msg.None? ==>
        recvCounter == old(recvCounter) && written == old(written) && dispatched == old(dispatched) && Connected()
      ensures msg.Some? && msg.value.mtype == Acknowledgement ==>
        var t := MessageTypeOf(registry, msg.value);
        recvCounter == old(recvCounter) && written == old(written) && Connected() &&
        dispatched == old(dispatched) + [(if Truthy(t) then t else Some("PingAck"), msg.value)]
      ensures msg.Some? && msg.value.mtype != Acknowledgement ==>
        Counted(msg.value, MessageTypeOf(registry, msg.value))
    {
      if msg.None? {
        return;
      }
      var m := msg.value;
      var t := MessageTypeOf(registry, m);
      if m.mtype == Acknowledgement {
        if !Truthy(t) {
          t := Some("PingAck");
        }
        dispatched := dispatched + [(t, m)];
        return;
      }
      RouteCounted(m, t);
    }

    /** The effect of routing a message that is not an acknowledgement:
        the receive counter advances; an empty confirmable message (a ping)
        gets a PingAck with its own id; any other message whose id is not
        the new counter disconnects the session, and one whose id matches
        is dispatched with type `t`. */
    twostate predicate Counted(m: CoapMessage, t: Option<string>)
      reads this
    {
      recvCounter == NextRecvCounter(old(recvCounter)) &&
      sendCounter == old(sendCounter) && lockErrors == old(lockErrors) &&
      (m.code == EMPTY && m.mtype == Confirmable ==>
        written == old(written) + old(Reply("PingAck", m.id)) && dispatched == old(dispatched) && Connected()) &&
      (!(m.code == EMPTY && m.mtype == Confirmable) ==>
        written == old(written) &&
        (m.id != recvCounter ==>
          dispatched == old(dispatched) && DisconnectEffect(if t == Some("Ignored") then "Got an Ignore" else "Bad Counter")) &&
        (m.id == recvCounter ==> dispatched == old(dispatched) + [(t, m)] && Connected()))
    }

    method RouteCounted(m: CoapMessage, t: Option<string>)
      modifies this`recvCounter, this`written, this`dispatched, this`sendCounter, this`lockErrors
      modifies this`disconnectCtr, this`socketOpen, this`secureIn, this`secureOut, this`disconnectReasons
      ensures Counted(m, t)
    {
      var next := recvCounter + 1;
      recvCounter := next;
      if next > RECV_COUNTER_MAX {
        next := 0;
        recvCounter := 0;
      }
      if m.code == EMPTY && m.mtype == Confirmable {
        SendReply("PingAck", m.id, None, UndefinedToken, None, false);
        return;
      }
      if m.id != next {
        if t == Some("Ignored") {
          Disconnect("Got an Ignore");
          return;
        }
        Disconnect("Bad Counter");
        return;
      }
      dispatched := dispatched + [(t, m)];
    }

    // --- introspection

    /** `ensureWeHaveIntrospectionData`: `ready` when the state is cached
        (the resolved promise); otherwise the caller waits on the one
        describe request, which only the first caller sends. */
    method EnsureWeHaveIntrospectionData() returns (ready: bool)
      modifies this`describe, this`sendCounter, this`sendToken, this`tokens, this`written, this`lockErrors
      ensures ready <==> coreFnState.Some?
      ensures !ready ==> describe != NoRequest
      ensures lockErrors == old(lockErrors)
      ensures ready || old(describe) != NoRequest ==>
        describe == old(describe) && sendCounter == old(sendCounter) && sendToken == old(sendToken) &&
        tokens == old(tokens) && written == old(written)
      ensures !ready && old(describe) == NoRequest ==>
        var t := Step(old(sendToken), TOKEN_MAX);
        describe == Pending &&
        (Permits(None) ==>
          sendCounter == Step(old(sendCounter), COUNTER_MAX) && sendToken == t &&
          tokens == old(tokens)[TokenKey(t) := "Describe"] &&
          written == old(written) + Outgoing("Describe", sendCounter, NoParams, None, NumberToken(t))) &&
        (!Permits(None) ==>
          sendCounter == old(sendCounter) && sendToken == old(sendToken) && tokens == old(tokens) && written == old(written))
    {
      if coreFnState.Some? {
        return true;
      }
      if describe == NoRequest {
        var _ := SendMessage("Describe", NoParams, None, None, false);
        describe := Pending;
      }
      return false;
    }

    /** `onDescribeReturn` for the parsed payload.  Text that does not
        parse makes `JSON.parse` throw, and nothing changes; otherwise the
        state is loaded, numeric variable tags translated, and a pending
        request resolved. */
    method OnDescribeReturn(d: Description)
      modifies this`coreFnState, this`describe
      ensures d.Malformed? ==> coreFnState == old(coreFnState) && describe == old(describe)
      ensures d.NoState? ==> coreFnState.None?
      ensures d.Described? ==>
        coreFnState.Some? && coreFnState.value.functions == d.state.functions &&
        coreFnState.value.f == d.state.f && Translated(d.state.v, coreFnState.value.v)
      ensures !d.Malformed? ==> describe == if old(describe) == NoRequest then NoRequest else Resolved
    {
      if d.Malformed? {
        return;
      }
      if d.NoState? {
        coreFnState := None;
      } else {
        var st := d.state;
        var v := TranslateIntTypes(st.v);
        coreFnState := Some(FnState(st.functions, st.f, v));
      }
      if describe != NoRequest {
        describe := Resolved;
      }
    }

    /** `_transformArguments(name, args)`: `None` where it returns null
        before building (no arguments, no state, unknown function),
        otherwise what `buildArguments` gives for the function's
        descriptors. */
    method TransformArguments(name: string, args: Option<seq<(string, Value)>>)
      returns (r: Option<Result<seq<byte>, EncodeError>>)
      ensures args.None? || coreFnState.None? ==> r.None?
      ensures args.Some? && coreFnState.Some? ==>
        (r.None? <==> Descriptors(coreFnState.value, name).None?) &&
        (r.Some? ==> r.value == ArgumentBytes(args.value, Descriptors(coreFnState.value, name).value))
    {
      if args.None? || coreFnState.None? {
        return None;
      }
      var st := coreFnState.value;
      var lower := ToLower(name);
      var descs: Option<seq<Option<ArgDesc>>> := None;
      if lower in st.functions {
        descs := Some(st.functions[lower]);
      } else {
        var found := Utilities.ArrayContainsLower(st.f, lower);
        if found {
          descs := Some([Some(ArgDesc("", "string"))]);
        }
      }
      if descs.None? {
        return None;
      }
      var built := BuildArguments(args.value, descs);
      return Some(built);
    }

    // --- device events

    /** `onCoreSentEvent(msg, isPublic)`.  The message's max-age option is
        `maxAge`, and `publisher` is the global publisher: absent, or
        whether its `publish` accepted the event. */
    method OnCoreSentEvent(msg: Option<CoapMessage>, isPublic: bool, maxAge: int, publisher: Option<bool>)
      modifies this`published, this`written, this`sendCounter, this`lockErrors
      ensures sendCounter == old(sendCounter) && lockErrors == old(lockErrors)
      ensures msg.None? ==> published == old(published) && written == old(written)
      ensures msg.Some? && IsSparkName(EventOf(msg.value, isPublic, maxAge).name) ==>
        published == old(published) && written == old(written) + old(Reply("EventAck", msg.value.id))
      ensures msg.Some? && !IsSparkName(EventOf(msg.value, isPublic, maxAge).name) && publisher.None? ==>
        published == old(published) && written == old(written)
      ensures msg.Some? && !IsSparkName(EventOf(msg.value, isPublic, maxAge).name) && publisher.Some? ==>
        published == old(published) + [EventOf(msg.value, isPublic, maxAge)] &&
        written == old(written) + old(Reply(if publisher.value then "EventAck" else "EventSlowdown", msg.value.id))
    {
      if msg.None? {
        return;
      }
      var m := msg.value;
      var ev := EventOf(m, isPublic, maxAge);
      var lowername := ToLower(ev.name);
      if IndexOfSeq(lowername, "spark") == 0 {
        SendReply("EventAck", m.id, None, UndefinedToken, None, false);
        return;
      }
      if publisher.None? {
        return;
      }
      published := published + [ev];
      if !publisher.value {
        SendReply("EventSlowdown", m.id, None, UndefinedToken, None, false);
      } else {
        SendReply("EventAck", m.id, None, UndefinedToken, None, false);
      }
    }

    /** `onCoreSubscribe`: no event name gets SubscribeFail, any other
        SubscribeAck. */
    method OnCoreSubscribe(m: CoapMessage, isPublic: bool)
      modifies this`written, this`sendCounter, this`lockErrors
      ensures sendCounter == old(sendCounter) && lockErrors == old(lockErrors)
      ensures written == old(written) +
        old(Reply(if SubstrFrom(UriPath(m), 3) == "" then "SubscribeFail" else "SubscribeAck", m.id))
    {
      var name := SubstrFrom(UriPath(m), 3);
      if name == "" {
        SendReply("SubscribeFail", m.id, None, UndefinedToken, None, false);
        return;
      }
      SendReply("SubscribeAck", m.id, None, UndefinedToken, None, false);
    }

    // --- disconnect

    /** `disconnect(reason)`: only the first call tears the connection
        down and emits `disconnect`; every later call only counts. */
    method Disconnect(reason: string)
      modifies this`disconnectCtr, this`socketOpen, this`secureIn, this`secureOut, this`disconnectReasons
      ensures DisconnectEffect(reason)
    {
      disconnectCtr := disconnectCtr + 1;
      if disconnectCtr > 1 {
        return;
      }
      socketOpen := false;
      secureIn := false;
      secureOut := false;
      disconnectReasons := disconnectReasons + [reason];
    }
  }

  /** A value of JavaScript truthiness for a type name. */
  predicate Truthy(t: Option<string>)
  {
    t.Some? && t.value != ""
  }
}
