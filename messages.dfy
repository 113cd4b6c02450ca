/** The message catalogue of the device protocol (`js/lib/Messages.js`):
    the CoAP type and code of every message kind (sections 3 and 12.1 of
    RFC 7252), the route table that maps an incoming request to its kind,
    message construction, and the binary encodings of function arguments
    and variable values.  A CoAP message is a record here; its wire form
    is not modelled. */
module Messages {
  import opened Prelude

  // -----------------------------------------------------------------------
  // CoAP vocabulary

  /** Message types, section 3 of RFC 7252. */
  datatype MessageType = Confirmable | NonConfirmable | Acknowledgement | Reset

  /** Codes as one octet, class in the top 3 bits and detail in the low 5
      (section 12.1 of RFC 7252). */
  const EMPTY: nat := 0
  const GET: nat := 1
  const POST: nat := 2
  const PUT: nat := 3
  const CHANGED: nat := 68      // 2.04
  const CONTENT: nat := 69      // 2.05
  const BAD_REQUEST: nat := 128 // 4.00

  /** The uri of a message: none, text as given to `setUri`, or a path and
      raw query bytes written as options directly. */
  datatype Uri = NoUri | TextUri(text: string) | RawUri(path: string, query: seq<byte>)

  /** A CoAP message as the gateway sees it. */
  datatype CoapMessage = CoapMessage(
    mtype: MessageType,
    code: nat,
    id: nat,
    token: Option<seq<byte>>,
    uri: Uri,
    payload: seq<byte>)

  /** `getUriPath`: the path part of the uri with a leading '/'. */
  function UriPath(m: CoapMessage): (p: string)
    ensures |p| >= 1 && p[0] == '/'
  {
    match m.uri
    case NoUri => "/"
    case TextUri(t) =>
      var q := IndexOf(t, '?');
      "/" + (if q < 0 then t else t[..q])
    case RawUri(path, _) => "/" + path
  }

  // -----------------------------------------------------------------------
  // The catalogue

  /** One entry of `Spec`: an absent `Response` (null or missing) is `None`. */
  datatype Spec = Spec(name: string, code: nat, uri: Option<string>, mtype: MessageType, response: Option<string>)

  /** An ordered list of entries, in the order `for (p in Spec)` visits them. */
  datatype Specs = Nil | Cons(head: Spec, tail: Specs)

  function Append(a: Specs, b: Specs): (r: Specs)
  {
    match a
    case Nil => b
    case Cons(s, rest) => Cons(s, Append(rest, b))
  }

  predicate InList(s: Spec, l: Specs)
  {
    match l
    case Nil => false
    case Cons(h, rest) => h == s || InList(s, rest)
  }

  const VariableTemplate: string := "v/{{name}}"

  /** The request kinds, each with a uri (the first fourteen entries). */
  const Requests: Specs :=
    Cons(Spec("Hello", 2, Some("h"), NonConfirmable, Some("Hello")),  // POST
    Cons(Spec("KeyChange", 3, Some("k"), Confirmable, Some("KeyChanged")),  // PUT
    Cons(Spec("UpdateBegin", 2, Some("u"), Confirmable, Some("UpdateReady")),  // POST
    Cons(Spec("Chunk", 2, Some("c?{{{crc}}}"), Confirmable, Some("ChunkReceived")),  // POST
    Cons(Spec("ChunkMissed", 1, Some("c"), Confirmable, Some("ChunkMissedAck")),  // GET
    Cons(Spec("UpdateDone", 3, Some("u"), Confirmable, None),  // PUT
    Cons(Spec("FunctionCall", 2, Some("f/{{name}}?{{{args}}}"), Confirmable, Some("FunctionReturn")),  // POST
    Cons(Spec("VariableRequest", 1, Some("v/{{name}}"), Confirmable, Some("VariableValue")),  // GET
    Cons(Spec("PrivateEvent", 2, Some("E/{{event_name}}"), NonConfirmable, None),  // POST
    Cons(Spec("PublicEvent", 2, Some("e/{{event_name}}"), NonConfirmable, None),  // POST
    Cons(Spec("Subscribe", 1, Some("e/{{event_name}}"), Confirmable, None),  // GET
    Cons(Spec("Describe", 1, Some("d"), Confirmable, Some("DescribeReturn")),  // GET
    Cons(Spec("GetTime", 1, Some("t"), Confirmable, Some("GetTimeReturn")),  // GET
    Cons(Spec("RaiseYourHand", 3, Some("s"), Confirmable, Some("RaiseYourHandReturn")),  // PUT
    Nil))))))))))))))

  /** The replies and pings, none with a uri (the remaining entries). */
  const Replies: Specs :=
    Cons(Spec("EventAck", 0, None, Acknowledgement, None),  // EMPTY
    Cons(Spec("EventSlowdown", 128, None, Acknowledgement, None),  // BAD_REQUEST
    Cons(Spec("SubscribeAck", 0, None, Acknowledgement, None),  // EMPTY
    Cons(Spec("SubscribeFail", 128, None, Acknowledgement, None),  // BAD_REQUEST
    Cons(Spec("GetTimeReturn", 69, None, Acknowledgement, None),  // CONTENT
    Cons(Spec("RaiseYourHandReturn", 68, None, Acknowledgement, None),  // CHANGED
    Cons(Spec("ChunkMissedAck", 0, None, Acknowledgement, None),  // EMPTY
    Cons(Spec("DescribeReturn", 68, None, NonConfirmable, None),  // CHANGED
    Cons(Spec("KeyChanged", 68, None, NonConfirmable, None),  // CHANGED
    Cons(Spec("UpdateReady", 68, None, NonConfirmable, None),  // CHANGED
    Cons(Spec("ChunkReceived", 68, None, NonConfirmable, None),  // CHANGED
    Cons(Spec("ChunkReceivedError", 128, None, NonConfirmable, None),  // BAD_REQUEST
    Cons(Spec("FunctionReturn", 68, None, NonConfirmable, None),  // CHANGED
    Cons(Spec("FunctionReturnError", 128, None, NonConfirmable, None),  // BAD_REQUEST
    Cons(Spec("VariableValue", 69, None, Acknowledgement, None),  // CONTENT
    Cons(Spec("VariableValueError", 128, None, NonConfirmable, None),  // BAD_REQUEST
    Cons(Spec("Ping", 0, None, Confirmable, None),  // EMPTY
    Cons(Spec("PingAck", 0, None, Acknowledgement, None),  // EMPTY
    Cons(Spec("SocketPing", 0, None, NonConfirmable, None),  // EMPTY
    Nil)))))))))))))))))))

  /** `Spec`. */
  const Catalogue: Specs := Append(Requests, Replies)

  function Find(l: Specs, name: string): (r: Option<Spec>)
    ensures r.Some? ==> r.value.name == name && InList(r.value, l)
    ensures r.None? ==> forall s :: InList(s, l) ==> s.name != name
  {
    match l
    case Nil => None
    case Cons(s, rest) => if s.name == name then Some(s) else Find(rest, name)
  }

  /** `Spec[name]`. */
  function SpecOf(name: string): (r: Option<Spec>)
    ensures r.Some? ==> r.value.name == name && InList(r.value, Catalogue)
    ensures r.None? ==> forall s :: InList(s, Catalogue) ==> s.name != name
  {
    Find(Catalogue, name)
  }

  /** `getResponseType`: the `Response` of the named entry; `None` for an
      unknown name and for an entry without one. */
  function GetResponseType(name: string): (r: Option<string>)
    ensures r.Some? ==> exists s :: InList(s, Catalogue) && s.name == name && s.response == r
    ensures r.None? <==> SpecOf(name).None? || SpecOf(name).value.response.None?
  {
    var spec := SpecOf(name);
    if spec.Some? then spec.value.response else None
  }

  /** `statusIsOkay`: only codes below 4.00 count as success. */
  function StatusIsOkay(code: nat): (r: bool)
  {
    code < BAD_REQUEST
  }

  // -----------------------------------------------------------------------
  // Uri templates (`hogan` rendering of `{{name}}` and `{{{name}}}` tags)

  /** The characters `hogan` escapes in a `{{name}}` tag. */
  const HtmlSpecial: seq<char> := "&<>\"'"

  /** `hoganEscape` of one character. */
  function EscapeChar(c: char): (r: string)
    ensures c !in HtmlSpecial ==> r == [c]
    ensures r != [] && forall i :: 0 <= i < |r| ==> r[i] !in "<>\"'"
  {
    if c == '&' then "&amp;"
    else if c == '<' then "&lt;"
    else if c == '>' then "&gt;"
    else if c == '\'' then "&#39;"
    else if c == '"' then "&quot;"
    else [c]
  }

  /** `hoganEscape`: the value of a `{{name}}` tag with `&`, `<`, `>`, `'`
      and `"` written as entities. */
  function HtmlEscape(s: string): (r: string)
    ensures forall i :: 0 <= i < |r| ==> r[i] !in "<>\"'"
    ensures (forall i :: 0 <= i < |s| ==> s[i] !in HtmlSpecial) ==> r == s
    ensures |r| >= |s|
  {
    if s == [] then []
    else
      var head := EscapeChar(s[0]);
      var tail := HtmlEscape(s[1..]);
      head + tail
  }

  /** Decoding the five entities `hoganEscape` writes. */
  function HtmlUnescape(r: string): (s: string)
    decreases |r|
  {
    if r == [] then []
    else if r[0] != '&' then [r[0]] + HtmlUnescape(r[1..])
    else if |r| >= 5 && r[1] == 'a' && r[..5] == "&amp;" then "&" + HtmlUnescape(r[5..])
    else if |r| >= 4 && r[1] == 'l' && r[..4] == "&lt;" then "<" + HtmlUnescape(r[4..])
    else if |r| >= 4 && r[1] == 'g' && r[..4] == "&gt;" then ">" + HtmlUnescape(r[4..])
    else if |r| >= 5 && r[1] == '#' && r[..5] == "&#39;" then "'" + HtmlUnescape(r[5..])
    else if |r| >= 6 && r[1] == 'q' && r[..6] == "&quot;" then "\"" + HtmlUnescape(r[6..])
    else [r[0]] + HtmlUnescape(r[1..])
  }

  lemma UnescapeChar(c: char, rest: string)
    ensures HtmlUnescape(EscapeChar(c) + rest) == [c] + HtmlUnescape(rest)
  {
    var e := EscapeChar(c);
    var r := e + rest;
    assert r[..|e|] == e;
    assert r[|e|..] == rest;
    if c == '&' {
      assert r[1] == 'a' && r[..5] == "&amp;";
    } else if c == '<' {
      assert r[1] == 'l' && r[..4] == "&lt;";
    } else if c == '>' {
      assert r[1] == 'g' && r[..4] == "&gt;";
    } else if c == '\'' {
      assert r[1] == '#' && r[..5] == "&#39;";
    } else if c == '"' {
      assert r[1] == 'q' && r[..6] == "&quot;";
    } else {
      assert r[0] == c;
    }
  }

  /** Escaping loses nothing: distinct field values render distinctly. */
  lemma {:induction false} EscapeRoundTrip(s: string)
    ensures HtmlUnescape(HtmlEscape(s)) == s
  {
    if s != [] {
      UnescapeChar(s[0], HtmlEscape(s[1..]));
      EscapeRoundTrip(s[1..]);
    }
  }

  /** `s` starts with the close of a tag: "}}}" after `{{{`, "}}" after `{{`. */
  predicate ClosesAt(s: string, raw: bool)
  {
    |s| >= (if raw then 3 else 2) && s[0] == '}' && s[1] == '}' && (raw ==> s[2] == '}')
  }

  /** Where the first close begins in `s`, or -1 when there is none. */
  function CloseIndex(s: string, raw: bool): (k: int)
    ensures k == -1 || (0 <= k && k + (if raw then 3 else 2) <= |s|)
    decreases |s|
  {
    if s == [] then -1
    else if ClosesAt(s, raw) then 0
    else
      var k := CloseIndex(s[1..], raw);
      if k < 0 then -1 else k + 1
  }

  /** What a tag renders as: nothing for a missing field, else the field's
      value, escaped unless the tag is a triple-brace one. */
  function TagValue(field: string, raw: bool, params: map<string, string>): (v: string)
  {
    if field !in params then "" else if raw then params[field] else HtmlEscape(params[field])
  }

  /** Render a template: a `{{name}}` tag becomes the escaped value of its
      field and a `{{{name}}}` tag the value as it is, either one nothing
      when the field is missing; text outside tags is copied.  An unclosed
      tag is kept as text. */
  function Render(t: string, params: map<string, string>): (r: string)
    decreases |t|
  {
    if t == [] then []
    else if |t| >= 2 && t[0] == '{' && t[1] == '{' then
      var tag := Tag(t, params);
      if tag.None? then t else tag.value.text + Render(t[tag.value.used..], params)
    else [t[0]] + Render(t[1..], params)
  }

  /** A rendered tag and the number of template characters it used. */
  datatype Piece = Piece(text: string, used: nat)

  /** The tag `t` starts with, rendered: `{{{` is closed by `}}}` and `{{`
      by `}}`; `None` when the close is missing. */
  function Tag(t: string, params: map<string, string>): (p: Option<Piece>)
    requires |t| >= 2 && t[0] == '{' && t[1] == '{'
    ensures p.Some? ==> 4 <= p.value.used <= |t|
  {
    var raw := |t| >= 3 && t[2] == '{';
    var start := if raw then 3 else 2;
    var k := CloseIndex(t[start..], raw);
    if k < 0 then None
    else Some(Piece(TagValue(t[start..start + k], raw, params), start + k + start))
  }

  /** Text before the first tag survives rendering. */
  lemma RenderKeepsFirst(t: string, params: map<string, string>)
    requires t != []
    ensures t[0] != '{' ==> Render(t, params) != [] && Render(t, params)[0] == t[0]
  {
  }

  /** The first "}}" after a field name with no '}' is the one closing it. */
  lemma {:induction false} CloseFound(f: string, raw: bool, rest: string)
    requires '}' !in f
    ensures CloseIndex(f + (if raw then "}}}" else "}}") + rest, raw) == |f|
    decreases |f|
  {
    var close := if raw then "}}}" else "}}";
    var s := f + close + rest;
    if f == [] {
      assert s[..|close|] == close;
      assert ClosesAt(s, raw);
    } else {
      assert s[0] == f[0] != '}';
      assert s[1..] == f[1..] + close + rest;
      assert '}' !in f[1..] by {
        forall j | 0 <= j < |f[1..]| ensures f[1..][j] != '}' {
          assert f[1..][j] == f[j + 1];
        }
      }
      CloseFound(f[1..], raw, rest);
    }
  }

  /** One step of rendering at a tag. */
  lemma RenderTagStep(t: string, params: map<string, string>)
    requires |t| >= 2 && t[0] == '{' && t[1] == '{' && Tag(t, params).Some?
    ensures Render(t, params) == Tag(t, params).value.text + Render(t[Tag(t, params).value.used..], params)
  {
  }

  /** A `{{name}}` tag renders as the escaped field value. */
  lemma RenderVariableTag(f: string, rest: string, params: map<string, string>)
    requires '}' !in f && (f == [] || f[0] != '{')
    ensures Render("{{" + f + "}}" + rest, params) ==
      (if f in params then HtmlEscape(params[f]) else "") + Render(rest, params)
  {
    var t := "{{" + f + "}}" + rest;
    assert t[0] == '{' && t[1] == '{';
    assert Tag(t, params) == Some(Piece(TagValue(f, false, params), |f| + 4)) by {
      assert t[2..] == f + "}}" + rest;
      assert !(|t| >= 3 && t[2] == '{') by {
        if f != [] { assert t[2] == f[0]; } else { assert t[2] == '}'; }
      }
      CloseFound(f, false, rest);
      assert t[2..2 + |f|] == f;
    }
    assert t[|f| + 4..] == rest;
    RenderTagStep(t, params);
  }

  /** A `{{{name}}}` tag renders as the field value unescaped. */
  lemma RenderRawTag(f: string, rest: string, params: map<string, string>)
    requires '}' !in f
    ensures Render("{{{" + f + "}}}" + rest, params) ==
      (if f in params then params[f] else "") + Render(rest, params)
  {
    var t := "{{{" + f + "}}}" + rest;
    assert t[0] == '{' && t[1] == '{';
    assert Tag(t, params) == Some(Piece(TagValue(f, true, params), |f| + 6)) by {
      assert t[2] == '{' && t[3..] == f + "}}}" + rest;
      CloseFound(f, true, rest);
      assert t[3..3 + |f|] == f;
    }
    assert t[|f| + 6..] == rest;
    RenderTagStep(t, params);
  }

  lemma RenderStep(t: string, params: map<string, string>)
    requires t != [] && t[0] != '{'
    ensures Render(t, params) == [t[0]] + Render(t[1..], params)
  {
  }

  /** Text with no `{` in front of a template is copied. */
  lemma {:induction false} RenderPlainPrefix(p: string, t: string, params: map<string, string>)
    requires forall i :: 0 <= i < |p| ==> p[i] != '{'
    ensures Render(p + t, params) == p + Render(t, params)
    decreases |p|
  {
    if p != [] {
      var q := p + t;
      assert q[0] == p[0];
      assert q[1..] == p[1..] + t;
      RenderPlainPrefix(p[1..], t, params);
      RenderStep(q, params);
      assert [p[0]] + (p[1..] + Render(t, params)) == p + Render(t, params);
    } else {
      assert p + t == t;
    }
  }

  /** Rendering a template with no `{` changes nothing. */
  lemma RenderPlain(t: string, params: map<string, string>)
    requires '{' !in t
    ensures Render(t, params) == t
  {
    RenderPlainPrefix(t, [], params);
    assert t + [] == t;
  }

  /** The uri of a variable request is the variable's name, escaped. */
  lemma RenderVariableUri(name: string)
    ensures Render(VariableTemplate, map["name" := name]) == "v/" + HtmlEscape(name)
  {
    var ps := map["name" := name];
    var tag := "{{" + "name" + "}}" + "";
    assert VariableTemplate == "v/" + tag;
    RenderPlainPrefix("v/", tag, ps);
    RenderVariableTag("name", "", ps);
  }

  // -----------------------------------------------------------------------
  // Routes

  /** `getRouteKey`: the code in decimal followed by the path, cut one
      character after the first '/'. */
  function RouteKey(code: nat, path: string): (k: string)
  {
    var uri := NatToDecimal(code) + path;
    Substr0(uri, IndexOf(uri, '/') + 2)
  }

  /** For a path that starts with '/', the key is the decimal code, the '/'
      and the first character after it. */
  lemma RouteKeyShape(code: nat, path: string)
    requires |path| >= 2 && path[0] == '/'
    ensures RouteKey(code, path) == NatToDecimal(code) + path[..2]
  {
    var dec := NatToDecimal(code);
    var uri := dec + path;
    assert uri[|dec|] == '/';
    var idx := IndexOf(uri, '/');
    assert idx == |dec|;
    assert uri[..|dec| + 2] == dec + path[..2];
  }

  predicate HasRoute(s: Spec)
  {
    s.uri.Some? && s.uri.value != ""
  }

  /** The uri `init` registers an entry under: the template rendered with no
      fields when it has a tag, the uri itself otherwise. */
  function RouteUri(s: Spec): (u: string)
    requires HasRoute(s)
    ensures s.uri.value[0] != '{' ==> u != [] && u[0] == s.uri.value[0]
  {
    var u := s.uri.value;
    if '{' in u then
      RenderKeepsFirst(u, map[]);
      Render(u, map[])
    else u
  }

  function SpecRouteKey(s: Spec): string
    requires HasRoute(s)
  {
    RouteKey(s.code, "/" + RouteUri(s))
  }

  /** One step of `init`'s loop. */
  function Register(routes: map<string, string>, s: Spec): (r: map<string, string>)
  {
    if HasRoute(s) then routes[SpecRouteKey(s) := s.name] else routes
  }

  /** `init`'s loop over a list of entries, in order. */
  function RegisterAll(routes: map<string, string>, l: Specs): map<string, string>
    decreases l
  {
    match l
    case Nil => routes
    case Cons(s, rest) => RegisterAll(Register(routes, s), rest)
  }

  /** `Routes` once `init` has run. */
  function RouteTable(): map<string, string>
  {
    RegisterAll(map[], Catalogue)
  }

  /** `getRequestType` against a route table. */
  function RequestTypeIn(routes: map<string, string>, code: nat, path: string): (r: Option<string>)
    ensures r.Some? <==> RouteKey(code, path) in routes
    ensures r.Some? ==> r.value == routes[RouteKey(code, path)]
  {
    var key := RouteKey(code, path);
    if key in routes then Some(routes[key]) else None
  }

  /** The process-wide `Routes` table and its `_started` guard. */
  class Registry {
    /** The entries `init` walks: `Catalogue` for the process-wide table. */
    const catalogue: Specs
    var routes: map<string, string>
    var started: bool

    ghost predicate Valid()
      reads this
    {
      (!started ==> routes == map[]) && (started ==> routes == RegisterAll(map[], catalogue))
    }

    constructor (catalogue: Specs)
      ensures this.catalogue == catalogue
      ensures Valid() && !started
    {
      this.catalogue := catalogue;
      routes := map[];
      started := false;
    }

    /** `init`: registers every entry with a uri, in order; a second call
        does nothing.  Over `Catalogue` the table is `RouteTable()`. */
    method Init()
      requires Valid()
      modifies this
      ensures Valid() && started
      ensures routes == RegisterAll(map[], catalogue)
      ensures catalogue == Catalogue ==> routes == RouteTable()
      ensures old(started) ==> routes == old(routes)
    {
      if started {
        return;
      }
      RegisterEach(catalogue);
      started := true;
    }

    /** `init`'s loop: register the entries of `l` in order. */
    method RegisterEach(l: Specs)
      modifies this`routes
      ensures routes == RegisterAll(old(routes), l)
    {
      var cur := l;
      while cur.Cons?
        invariant RegisterAll(routes, cur) == RegisterAll(old(routes), l)
        decreases cur
      {
        var s := cur.head;
        if s.uri.Some? && s.uri.value != "" {
          var u := s.uri.value;
          if '{' in u {
            u := Render(u, map[]);
          }
          routes := routes[RouteKey(s.code, "/" + u) := s.name];
        }
        cur := cur.tail;
      }
    }

    /** `getRequestType(msg)`. */
    function GetRequestType(msg: CoapMessage): (r: Option<string>)
      reads this
      ensures r == RequestTypeIn(routes, msg.code, UriPath(msg))
    {
      var key := RouteKey(msg.code, UriPath(msg));
      if key in routes then Some(routes[key]) else None
    }
  }

  // Route keys of the catalogue are pairwise distinct

  /** No entry of `l` with a route has the code and first uri character of
      `s`. */
  predicate SignatureFree(s: Spec, l: Specs)
    requires HasRoute(s)
  {
    match l
    case Nil => true
    case Cons(h, rest) =>
      (HasRoute(h) ==> h.code != s.code || h.uri.value[0] != s.uri.value[0]) && SignatureFree(s, rest)
  }

  /** Every routed entry starts its uri with a plain character, and no two
      share code and first character. */
  predicate DistinctSignatures(l: Specs)
  {
    match l
    case Nil => true
    case Cons(s, rest) =>
      (HasRoute(s) ==> s.uri.value[0] != '{' && SignatureFree(s, rest)) && DistinctSignatures(rest)
  }

  predicate NoRoutes(l: Specs)
  {
    match l
    case Nil => true
    case Cons(s, rest) => !HasRoute(s) && NoRoutes(rest)
  }

  /** No entry of `l` with a route is registered under `key`. */
  predicate KeyFree(key: string, l: Specs)
  {
    match l
    case Nil => true
    case Cons(h, rest) => (HasRoute(h) ==> SpecRouteKey(h) != key) && KeyFree(key, rest)
  }

  predicate DistinctKeys(l: Specs)
  {
    match l
    case Nil => true
    case Cons(s, rest) => (HasRoute(s) ==> KeyFree(SpecRouteKey(s), rest)) && DistinctKeys(rest)
  }

  /** The key of an entry with a plain uri: decimal code, '/', first uri
      character. */
  lemma SpecRouteKeyShape(s: Spec)
    requires HasRoute(s) && s.uri.value[0] != '{'
    ensures SpecRouteKey(s) == NatToDecimal(s.code) + ['/', s.uri.value[0]]
  {
    var path := "/" + RouteUri(s);
    RouteKeyShape(s.code, path);
    assert path[..2] == ['/', s.uri.value[0]];
  }

  lemma SameKeySameSignature(a: Spec, b: Spec)
    requires HasRoute(a) && a.uri.value[0] != '{'
    requires HasRoute(b) && b.uri.value[0] != '{'
    requires SpecRouteKey(a) == SpecRouteKey(b)
    ensures a.code == b.code && a.uri.value[0] == b.uri.value[0]
  {
    SpecRouteKeyShape(a);
    SpecRouteKeyShape(b);
    var da, db := NatToDecimal(a.code), NatToDecimal(b.code);
    assert |da| == |db|;
    assert da == SpecRouteKey(a)[..|da|] && db == SpecRouteKey(b)[..|db|];
    NatToDecimalInjective(a.code, b.code);
    assert SpecRouteKey(a)[|da| + 1] == a.uri.value[0];
  }

  lemma {:induction false} SignatureFreeKeyFree(s: Spec, l: Specs)
    requires HasRoute(s) && s.uri.value[0] != '{'
    requires SignatureFree(s, l) && DistinctSignatures(l)
    ensures KeyFree(SpecRouteKey(s), l)
  {
    match l
    case Nil =>
    case Cons(h, rest) =>
      if HasRoute(h) && SpecRouteKey(h) == SpecRouteKey(s) {
        SameKeySameSignature(h, s);
      }
      SignatureFreeKeyFree(s, rest);
  }

  lemma {:induction false} SignaturesGiveKeys(l: Specs)
    requires DistinctSignatures(l)
    ensures DistinctKeys(l)
  {
    match l
    case Nil =>
    case Cons(s, rest) =>
      if HasRoute(s) {
        SignatureFreeKeyFree(s, rest);
      }
      SignaturesGiveKeys(rest);
  }

  lemma {:induction false} SignatureFreeAppend(s: Spec, a: Specs, b: Specs)
    requires HasRoute(s) && SignatureFree(s, a) && NoRoutes(b)
    ensures SignatureFree(s, Append(a, b))
  {
    match a
    case Nil => NoRoutesSignatureFree(s, b);
    case Cons(h, rest) => SignatureFreeAppend(s, rest, b);
  }

  lemma {:induction false} NoRoutesSignatureFree(s: Spec, b: Specs)
    requires HasRoute(s) && NoRoutes(b)
    ensures SignatureFree(s, b)
  {
    match b
    case Nil =>
    case Cons(h, rest) => NoRoutesSignatureFree(s, rest);
  }

  lemma {:induction false} DistinctSignaturesAppend(a: Specs, b: Specs)
    requires DistinctSignatures(a) && NoRoutes(b)
    ensures DistinctSignatures(Append(a, b))
  {
    match a
    case Nil => NoRoutesDistinct(b);
    case Cons(s, rest) =>
      if HasRoute(s) {
        SignatureFreeAppend(s, rest, b);
      }
      DistinctSignaturesAppend(rest, b);
  }

  lemma {:induction false} NoRoutesDistinct(b: Specs)
    requires NoRoutes(b)
    ensures DistinctSignatures(b)
  {
    match b
    case Nil =>
    case Cons(h, rest) => NoRoutesDistinct(rest);
  }

  lemma RepliesHaveNoRoutes()
    ensures NoRoutes(Replies)
  {
    assert NoRoutes(Replies.tail.tail.tail.tail.tail.tail.tail.tail.tail.tail);
  }

  lemma CatalogueSignaturesDistinct()
    ensures DistinctSignatures(Catalogue)
  {
    assert DistinctSignatures(Requests);
    RepliesHaveNoRoutes();
    DistinctSignaturesAppend(Requests, Replies);
  }

  /** The fourteen request kinds have pairwise different route keys. */
  lemma CatalogueKeysDistinct()
    ensures DistinctKeys(Catalogue)
  {
    CatalogueSignaturesDistinct();
    SignaturesGiveKeys(Catalogue);
  }

  /** Registering entries none of which is keyed `key` keeps its binding. */
  lemma {:induction false} RegisterAllKeeps(routes: map<string, string>, l: Specs, key: string)
    requires KeyFree(key, l) && key in routes
    ensures key in RegisterAll(routes, l) && RegisterAll(routes, l)[key] == routes[key]
    decreases l
  {
    match l
    case Nil =>
    case Cons(s, rest) => RegisterAllKeeps(Register(routes, s), rest, key);
  }

  /** With distinct keys, every routed entry ends up under its own key. */
  lemma {:induction false} RegisterAllFinds(routes: map<string, string>, l: Specs, s: Spec)
    requires DistinctKeys(l) && InList(s, l) && HasRoute(s)
    ensures SpecRouteKey(s) in RegisterAll(routes, l)
    ensures RegisterAll(routes, l)[SpecRouteKey(s)] == s.name
    decreases l
  {
    match l
    case Cons(h, rest) =>
      if h == s {
        RegisterAllKeeps(Register(routes, s), rest, SpecRouteKey(s));
      } else {
        RegisterAllFinds(Register(routes, h), rest, s);
      }
  }

  lemma {:induction false} InAppend(s: Spec, a: Specs, b: Specs)
    ensures InList(s, Append(a, b)) <==> InList(s, a) || InList(s, b)
  {
    match a
    case Nil =>
    case Cons(h, rest) => InAppend(s, rest, b);
  }

  lemma {:induction false} NoRoutesHasNone(s: Spec, b: Specs)
    requires NoRoutes(b) && InList(s, b)
    ensures !HasRoute(s)
  {
    match b
    case Cons(h, rest) => if h != s { NoRoutesHasNone(s, rest); }
  }

  lemma {:induction false} PlainFirstChar(s: Spec, l: Specs)
    requires DistinctSignatures(l) && InList(s, l) && HasRoute(s)
    ensures s.uri.value[0] != '{'
  {
    match l
    case Cons(h, rest) => if h != s { PlainFirstChar(s, rest); }
  }

  /** Routing a request back to its kind: a request with the code of a
      catalogue entry and a path of '/' followed by the entry's uri (after
      its first character anything may follow) is typed as that entry. */
  lemma RequestTypeOfEntry(s: Spec, path: string)
    requires InList(s, Catalogue) && HasRoute(s)
    requires |path| >= 2 && path[0] == '/' && path[1] == s.uri.value[0]
    ensures RequestTypeIn(RouteTable(), s.code, path) == Some(s.name)
  {
    CatalogueSignaturesDistinct();
    RoutedToEntry(Catalogue, s, path);
  }

  /** The same for any list of entries with distinct signatures. */
  lemma RoutedToEntry(l: Specs, s: Spec, path: string)
    requires DistinctSignatures(l) && InList(s, l) && HasRoute(s)
    requires |path| >= 2 && path[0] == '/' && path[1] == s.uri.value[0]
    ensures RequestTypeIn(RegisterAll(map[], l), s.code, path) == Some(s.name)
  {
    SignaturesGiveKeys(l);
    RegisterAllFinds(map[], l, s);
    PlainFirstChar(s, l);
    SpecRouteKeyShape(s);
    RouteKeyShape(s.code, path);
    assert path[..2] == ['/', s.uri.value[0]];
  }

  /** Only the fourteen request kinds are routed; replies are told apart by
      token instead. */
  lemma RepliesAreNotRouted(s: Spec)
    requires InList(s, Replies)
    ensures !HasRoute(s) && InList(s, Catalogue)
  {
    RepliesHaveNoRoutes();
    NoRoutesHasNone(s, Replies);
    InAppend(s, Requests, Replies);
  }

  /** `n` names a catalogue entry that has a route, that is, a request. */
  predicate RoutedName(n: string)
  {
    SpecOf(n).Some? && HasRoute(SpecOf(n).value)
  }

  predicate AllRouted(l: Specs)
  {
    match l
    case Nil => true
    case Cons(s, rest) => HasRoute(s) && AllRouted(rest)
  }

  lemma {:induction false} AllRoutedHas(l: Specs)
    requires AllRouted(l)
    ensures forall s :: InList(s, l) ==> HasRoute(s)
  {
    match l
    case Nil =>
    case Cons(h, rest) => AllRoutedHas(rest);
  }

  lemma {:induction false} NoRoutesHaveNone(l: Specs)
    requires NoRoutes(l)
    ensures forall s :: InList(s, l) ==> !HasRoute(s)
  {
    match l
    case Nil =>
    case Cons(h, rest) => NoRoutesHaveNone(rest);
  }

  lemma {:induction false} FindAppend(a: Specs, b: Specs, name: string)
    requires Find(a, name).Some?
    ensures Find(Append(a, b), name) == Find(a, name)
  {
    match a
    case Cons(h, rest) => if h.name != name { FindAppend(rest, b, name); }
  }

  /** Every entry of the catalogue with a route is the one `Spec[name]`
      finds under its name. */
  lemma CatalogueRoutedNames()
    ensures forall s :: InList(s, Catalogue) && HasRoute(s) ==> RoutedName(s.name)
  {
    assert AllRouted(Requests.tail.tail.tail.tail.tail.tail.tail);
    AllRoutedHas(Requests);
    RepliesHaveNoRoutes();
    NoRoutesHaveNone(Replies);
    forall s | InList(s, Catalogue) && HasRoute(s) ensures RoutedName(s.name) {
      InAppend(s, Requests, Replies);
      assert InList(s, Requests);
      FindAppend(Requests, Replies, s.name);
    }
  }

  /** Registering entries whose routed names are all requests puts only
      request names into the table. */
  lemma {:induction false} RegisterAllRouted(routes: map<string, string>, l: Specs)
    requires forall k :: k in routes ==> RoutedName(routes[k])
    requires forall s :: InList(s, l) && HasRoute(s) ==> RoutedName(s.name)
    ensures forall k :: k in RegisterAll(routes, l) ==> RoutedName(RegisterAll(routes, l)[k])
    decreases l
  {
    match l
    case Nil =>
    case Cons(h, rest) =>
      assert InList(h, l);
      RegisterAllRouted(Register(routes, h), rest);
  }

  /** `getRequestType` only ever answers with a request kind: no reply or
      ping is typed through the route table. */
  lemma RoutedTypesAreRequests(code: nat, path: string)
    ensures RequestTypeIn(RouteTable(), code, path).Some? ==>
      RoutedName(RequestTypeIn(RouteTable(), code, path).value)
  {
    RouteTableNamesRouted();
  }

  /** Every name in the route table is a request kind. */
  lemma RouteTableNamesRouted()
    ensures forall k :: k in RouteTable() ==> RoutedName(RouteTable()[k])
  {
    CatalogueRoutedNames();
    RegisterAllRouted(map[], Catalogue);
  }

  /** Every code of `l` is EMPTY, GET, POST, PUT, 2.04, 2.05 or 4.00. */
  predicate KnownCodes(l: Specs)
  {
    match l
    case Nil => true
    case Cons(s, rest) => s.code in {0, 1, 2, 3, 68, 69, 128} && KnownCodes(rest)
  }

  lemma {:induction false} KnownCodesHas(l: Specs)
    requires KnownCodes(l)
    ensures forall s :: InList(s, l) ==> s.code in {0, 1, 2, 3, 68, 69, 128}
  {
    match l
    case Nil =>
    case Cons(h, rest) => KnownCodesHas(rest);
  }

  /** Of the message kinds, exactly the 4.00 ones (the slowdown, the failed
      subscription and the error replies) fail `statusIsOkay`. */
  lemma StatusOfCatalogueKinds()
    ensures forall s :: InList(s, Catalogue) ==> (StatusIsOkay(s.code) <==> s.code != BAD_REQUEST)
  {
    assert KnownCodes(Requests.tail.tail.tail.tail.tail.tail.tail);
    assert KnownCodes(Replies.tail.tail.tail.tail.tail.tail.tail.tail.tail.tail);
    KnownCodesHas(Requests);
    KnownCodesHas(Replies);
    forall s | InList(s, Catalogue) ensures s.code in {0, 1, 2, 3, 68, 69, 128} {
      InAppend(s, Requests, Replies);
    }
  }

  // -----------------------------------------------------------------------
  // Variable and argument types

  /** `getNameFromTypeInt`: the ASN.1 tag numbers the firmware uses. */
  function GetNameFromTypeInt(typeInt: int): (r: Option<string>)
    ensures r.Some? <==> typeInt in {1, 2, 4, 5, 9}
  {
    if typeInt == 1 then Some("bool")
    else if typeInt == 2 then Some("int32")
    else if typeInt == 4 then Some("string")
    else if typeInt == 5 then Some("null")
    else if typeInt == 9 then Some("double")
    else None
  }

  /** A JavaScript value as it appears in a variable table or argument
      object (numbers are integers here). */
  datatype Value = Int(i: int) | Str(s: string) | Bool(b: bool) | Bytes(bs: seq<byte>) | Undefined

  /** One entry of a variable table after translation: a number with a
      known tag becomes the tag's name. */
  function TranslateValue(v: Value): (r: Value)
  {
    if v.Int? && GetNameFromTypeInt(v.i).Some? then Str(GetNameFromTypeInt(v.i).value) else v
  }

  /** `out` is `varState` with every entry translated and no key added or
      dropped. */
  predicate Translated(varState: Option<map<string, Value>>, out: Option<map<string, Value>>)
  {
    (out.None? <==> varState.None?) &&
    (out.Some? ==>
       out.value.Keys == varState.value.Keys &&
       forall k :: k in out.value ==> out.value[k] == TranslateValue(varState.value[k]))
  }

  /** `TranslateIntTypes`: every numeric entry with a known tag becomes the
      tag's name; all other entries stay.  `None` (a falsy table) comes back
      as it is. */
  method TranslateIntTypes(varState: Option<map<string, Value>>) returns (r: Option<map<string, Value>>)
    ensures Translated(varState, r)
  {
    if varState.None? {
      return varState;
    }
    var st := varState.value;
    var out := st;
    var todo := st.Keys;
    while todo != {}
      invariant todo <= st.Keys && out.Keys == st.Keys
      invariant forall k :: k in st && k !in todo ==>
        out[k] == TranslateValue(st[k])
      invariant forall k :: k in todo ==> out[k] == st[k]
      decreases todo
    {
      var varName :| varName in todo;
      var intType := out[varName];
      if intType.Int? {
        var str := GetNameFromTypeInt(intType.i);
        if str.Some? {
          out := out[varName := Str(str.value)];
        }
      }
      todo := todo - {varName};
    }
    return Some(out);
  }

  /** Translating twice is translating once: names are not numbers. */
  lemma TranslateTwiceIsOnce(v: Value)
    ensures TranslateValue(TranslateValue(v)) == TranslateValue(v)
  {
  }

  // -----------------------------------------------------------------------
  // Binary encodings

  /** Why an encoding has no result: the JavaScript throws, or the case is
      a floating-point one, which is not modelled. */
  datatype EncodeError = Throws | Unmodelled

  const TWO_32: int := 0x1_0000_0000
  const TWO_31: int := 0x8000_0000

  /** Four bytes, most significant first, of `v` reduced modulo 2^32. */
  function BigEndian32(v: int): (bs: seq<byte>)
    ensures |bs| == 4
  {
    var u := v % TWO_32;
    [(u / 0x100_0000) as byte, ((u / 0x1_0000) % 256) as byte, ((u / 0x100) % 256) as byte, (u % 256) as byte]
  }

  function Unsigned32(bs: seq<byte>): (v: int)
    requires |bs| >= 4
    ensures 0 <= v < TWO_32
  {
    ((bs[0] as int * 256 + bs[1] as int) * 256 + bs[2] as int) * 256 + bs[3] as int
  }

  function Signed32(bs: seq<byte>): (v: int)
    requires |bs| >= 4
    ensures -TWO_31 <= v < TWO_31
  {
    var u := Unsigned32(bs);
    if u >= TWO_31 then u - TWO_32 else u
  }

  function Unsigned16(bs: seq<byte>): (v: int)
    requires |bs| >= 2
    ensures 0 <= v < 0x1_0000
  {
    bs[0] as int * 256 + bs[1] as int
  }

  /** `typeof val`. */
  function TypeOf(v: Value): string
  {
    match v
    case Int(_) => "number"
    case Str(_) => "string"
    case Bool(_) => "boolean"
    case Bytes(_) => "object"
    case Undefined => "undefined"
  }

  predicate Falsy(v: Value)
  {
    v == Int(0) || v == Str("") || v == Bool(false) || v == Undefined
  }

  /** `ToBinary(val, name)`; an empty `name` falls back to `typeof val`. */
  function ToBinary(val: Value, name: string): (r: Result<seq<byte>, EncodeError>)
    ensures r.Ok? && (name == "uint32" || name == "crc" || name == "int32") ==> |r.value| == 4
  {
    var kind := if name != "" then name else TypeOf(val);
    if kind == "uint32" || kind == "crc" || kind == "int32" then
      if val.Int? then Ok(BigEndian32(val.i)) else Err(Unmodelled)
    else if kind == "number" || kind == "double" then Err(Unmodelled)
    else if kind == "buffer" then
      if val.Bytes? then Ok(val.bs) else Err(Unmodelled)
    else if Falsy(val) then Ok([])
    else if val.Str? then Ok(Utf8(val.s))
    else Err(Unmodelled)
  }

  /** Every byte is below 0x80, so the buffer is ASCII text. */
  predicate IsAscii(buf: seq<byte>)
  {
    forall i :: 0 <= i < |buf| ==> buf[i] < 0x80
  }

  /** `buf.toString()` on an ASCII buffer: one character per byte. */
  function AsciiDecode(buf: seq<byte>): (s: string)
    requires IsAscii(buf)
    ensures Utf8(s) == buf
  {
    if buf == [] then []
    else
      var c := buf[0] as int as char;
      assert Utf8Char(c) == [buf[0]];
      [c] + AsciiDecode(buf[1..])
  }

  /** `FromBinary(buf, name)`; reading past the end throws. */
  function FromBinary(buf: seq<byte>, name: string): (r: Result<Value, EncodeError>)
    ensures name == "bool" ==> r == (if |buf| >= 1 then Ok(Bool(buf[0] != 0)) else Err(Throws))
    ensures (name == "uint32" || name == "crc") && |buf| >= 4 ==> r == Ok(Int(Unsigned32(buf)))
    ensures name == "uint16" && |buf| >= 2 ==> r == Ok(Int(Unsigned16(buf)))
    ensures (name == "int32" || name == "number") && |buf| >= 4 ==> r == Ok(Int(Signed32(buf)))
    ensures (name == "uint32" || name == "crc" || name == "int32" || name == "number") && |buf| < 4 ==> r == Err(Throws)
    ensures name == "uint16" && |buf| < 2 ==> r == Err(Throws)
    ensures name == "float" || name == "double" ==> r == Err(Unmodelled)
    ensures name == "buffer" ==> r == Ok(Bytes(buf))
    ensures r.Ok? && r.value.Str? ==> Utf8(r.value.s) == buf
    ensures name !in BinaryTypeNames && IsAscii(buf) ==> r.Ok? && r.value.Str?
  {
    if name == "bool" then
      if |buf| >= 1 then Ok(Bool(buf[0] != 0)) else Err(Throws)
    else if name == "crc" || name == "uint32" then
      if |buf| >= 4 then Ok(Int(Unsigned32(buf))) else Err(Throws)
    else if name == "uint16" then
      if |buf| >= 2 then Ok(Int(Unsigned16(buf))) else Err(Throws)
    else if name == "int32" || name == "number" then
      if |buf| >= 4 then Ok(Int(Signed32(buf))) else Err(Throws)
    else if name == "float" || name == "double" then Err(Unmodelled)
    else if name == "buffer" then Ok(Bytes(buf))
    else if IsAscii(buf) then Ok(Str(AsciiDecode(buf)))
    else Err(Unmodelled)
  }

  /** The type names `FromBinary` decodes as something other than text. */
  const BinaryTypeNames: set<string> := {"bool", "crc", "uint32", "uint16", "int32", "number", "float", "double", "buffer"}

  /** An ASCII string written with `ToBinary` reads back the same. */
  lemma {:induction false} AsciiStringRoundTrip(s: string)
    requires forall i :: 0 <= i < |s| ==> s[i] < 128 as char
    ensures ToBinary(Str(s), "string").Ok?
    ensures FromBinary(ToBinary(Str(s), "string").value, "string") == Ok(Str(s))
  {
    AsciiUtf8(s);
    if s != [] {
      assert s[0] in s;
    }
  }

  lemma {:induction false} AsciiUtf8(s: string)
    requires forall i :: 0 <= i < |s| ==> s[i] < 128 as char
    ensures IsAscii(Utf8(s)) && AsciiDecode(Utf8(s)) == s
  {
    if s != [] {
      AsciiUtf8(s[1..]);
      var b := (s[0] as int) as byte;
      assert Utf8(s) == [b] + Utf8(s[1..]);
      assert ([b] + Utf8(s[1..]))[1..] == Utf8(s[1..]);
    }
  }

  lemma Unsigned32OfBigEndian(v: int)
    ensures Unsigned32(BigEndian32(v)) == v % TWO_32
  {
    var u := v % TWO_32;
    var q1 := u / 0x100;
    var q2 := u / 0x1_0000;
    var q3 := u / 0x100_0000;
    assert u == q1 * 0x100 + u % 0x100;
    assert q1 == (q1 / 0x100) * 0x100 + q1 % 0x100;
    DivModOfSum(u, q1 / 0x100, (q1 % 0x100) * 0x100 + u % 0x100, 0x1_0000);
    assert q2 == (q2 / 0x100) * 0x100 + q2 % 0x100;
    DivModOfSum(u, q2 / 0x100, (q2 % 0x100) * 0x1_0000 + (q1 % 0x100) * 0x100 + u % 0x100, 0x100_0000);
    var bs := BigEndian32(v);
    assert bs[0] as int == q3 && bs[1] as int == q2 % 0x100;
    assert bs[2] as int == q1 % 0x100 && bs[3] as int == u % 0x100;
  }

  /** uint32 and crc values round-trip. */
  lemma UnsignedRoundTrip(v: int, name: string)
    requires 0 <= v < TWO_32 && (name == "uint32" || name == "crc")
    ensures ToBinary(Int(v), name).Ok?
    ensures FromBinary(ToBinary(Int(v), name).value, name) == Ok(Int(v))
  {
    Unsigned32OfBigEndian(v);
  }

  /** int32 values round-trip through two's complement. */
  lemma SignedRoundTrip(v: int)
    requires -TWO_31 <= v < TWO_31
    ensures ToBinary(Int(v), "int32").Ok?
    ensures FromBinary(ToBinary(Int(v), "int32").value, "int32") == Ok(Int(v))
  {
    Unsigned32OfBigEndian(v);
  }

  // -----------------------------------------------------------------------
  // buildArguments

  /** One argument descriptor `[name, type]`; an empty string stands for a
      missing name or type. */
  datatype ArgDesc = ArgDesc(name: string, typ: string)

  /** `obj[name]` on an argument object given as its entries in key order. */
  function Field(obj: seq<(string, Value)>, name: string): (v: Value)
    decreases |obj|
  {
    if obj == [] then Undefined
    else if obj[0].0 == name then obj[0].1
    else Field(obj[1..], name)
  }

  /** The bytes one descriptor contributes: nothing for a missing
      descriptor, otherwise the named (or else the first) field encoded by
      its declared type. */
  function FieldBytes(obj: seq<(string, Value)>, p: Option<ArgDesc>): Result<seq<byte>, EncodeError>
  {
    if p.None? then Ok([])
    else
      var name := if p.value.name != "" then p.value.name
                  else if obj != [] then obj[0].0 else "";
      var val := if p.value.name == "" && obj == [] then Undefined else Field(obj, name);
      ToBinary(val, p.value.typ)
  }

  const AMPERSAND: byte := 38

  /** What `buildArguments`' loop has built after the first `|args|`
      descriptors: "&" before each one but the first, then its bytes. */
  function ArgumentBytes(obj: seq<(string, Value)>, args: seq<Option<ArgDesc>>): (r: Result<seq<byte>, EncodeError>)
    decreases |args|
  {
    if args == [] then Ok([])
    else
      var init := ArgumentBytes(obj, args[..|args| - 1]);
      if init.Err? then init
      else
        var sep: seq<byte> := if |args| > 1 then [AMPERSAND] else [];
        var f := FieldBytes(obj, args[|args| - 1]);
        if f.Err? then Err(f.error) else Ok(init.value + sep + f.value)
  }

  /** `buildArguments`; `None` where the JavaScript catches an exception
      and returns null (including an absent descriptor list). */
  method BuildArguments(obj: seq<(string, Value)>, args: Option<seq<Option<ArgDesc>>>)
    returns (r: Result<seq<byte>, EncodeError>)
    ensures args.None? ==> r == Err(Throws)
    ensures args.Some? ==> r == ArgumentBytes(obj, args.value)
  {
    if args.None? {
      return Err(Throws);
    }
    var a := args.value;
    var b: seq<byte> := [];
    for i := 0 to |a|
      invariant ArgumentBytes(obj, a[..i]) == Ok(b)
    {
      assert a[..i + 1][..i] == a[..i] && a[..i + 1][i] == a[i];
      ghost var before := b;
      ghost var sep: seq<byte> := if i > 0 then [AMPERSAND] else [];
      if i > 0 {
        assert Utf8("&") == [AMPERSAND];
        b := b + Utf8("&");
      }
      assert b == before + sep;
      var f := FieldBytes(obj, a[i]);
      if f.Err? {
        ArgumentBytesStops(obj, a, i + 1);
        return Err(f.error);
      }
      b := b + f.value;
      assert ArgumentBytes(obj, a[..i + 1]) == Ok(before + sep + f.value);
    }
    assert a[..|a|] == a;
    return Ok(b);
  }

  /** The first failing field decides the outcome: nothing after it is
      encoded. */
  lemma {:induction false} ArgumentBytesStops(obj: seq<(string, Value)>, args: seq<Option<ArgDesc>>, n: nat)
    requires n <= |args| && ArgumentBytes(obj, args[..n]).Err?
    ensures ArgumentBytes(obj, args) == ArgumentBytes(obj, args[..n])
    decreases |args| - n
  {
    if n < |args| {
      assert args[..n + 1][..n] == args[..n];
      ArgumentBytesStops(obj, args, n + 1);
    } else {
      assert args[..n] == args;
    }
  }

  /** The independent description: the fields' encodings joined by "&". */
  function JoinWithAmpersand(parts: seq<seq<byte>>): (r: seq<byte>)
    decreases |parts|
  {
    if parts == [] then []
    else if |parts| == 1 then parts[0]
    else JoinWithAmpersand(parts[..|parts| - 1]) + [AMPERSAND] + parts[|parts| - 1]
  }

  /** When every field encodes, `buildArguments` gives the encodings joined
      by "&", one separator per descriptor after the first, including those
      for missing descriptors (which contribute nothing). */
  lemma {:induction false} ArgumentBytesJoin(obj: seq<(string, Value)>, args: seq<Option<ArgDesc>>)
    requires forall i :: 0 <= i < |args| ==> FieldBytes(obj, args[i]).Ok?
    ensures ArgumentBytes(obj, args) ==
      Ok(JoinWithAmpersand(seq(|args|, i requires 0 <= i < |args| => FieldBytes(obj, args[i]).value)))
    decreases |args|
  {
    if args != [] {
      var init := args[..|args| - 1];
      ArgumentBytesJoin(obj, init);
      var parts := seq(|args|, i requires 0 <= i < |args| => FieldBytes(obj, args[i]).value);
      var initParts := seq(|init|, i requires 0 <= i < |init| => FieldBytes(obj, init[i]).value);
      assert parts[..|parts| - 1] == initParts;
      var last := FieldBytes(obj, args[|args| - 1]);
      assert last == Ok(parts[|parts| - 1]);
      if |args| == 1 {
        assert init == [];
        assert ArgumentBytes(obj, init) == Ok([]);
        assert ArgumentBytes(obj, args) == Ok([] + [] + parts[0]);
        assert JoinWithAmpersand(parts) == parts[0];
        assert [] + [] + parts[0] == parts[0];
      } else {
        assert ArgumentBytes(obj, args) == Ok(JoinWithAmpersand(initParts) + [AMPERSAND] + parts[|parts| - 1]);
      }
    }
  }

  /** An argument list of missing descriptors only encodes as one "&" per
      gap between them. */
  lemma {:induction false} OnlySeparators(obj: seq<(string, Value)>, args: seq<Option<ArgDesc>>)
    requires args != [] && forall i :: 0 <= i < |args| ==> args[i].None?
    ensures ArgumentBytes(obj, args) == Ok(seq(|args| - 1, _ => AMPERSAND))
    decreases |args|
  {
    var init := args[..|args| - 1];
    assert FieldBytes(obj, args[|args| - 1]) == Ok([]);
    if |args| > 1 {
      OnlySeparators(obj, init);
      assert seq(|args| - 2, _ => AMPERSAND) + [AMPERSAND] + [] == seq(|args| - 1, _ => AMPERSAND);
    } else {
      assert init == [];
      assert ArgumentBytes(obj, init) == Ok([]);
      var none: seq<byte> := [];
      assert ArgumentBytes(obj, args) == Ok(none + none + none);
      assert seq(|args| - 1, _ => AMPERSAND) == none + none + none;
    }
  }

  // -----------------------------------------------------------------------
  // wrap

  /** What `wrap` is given as `params`: nothing, template fields, or the raw
      uri writer `raiseYourHandUrlGenerator` builds. */
  datatype Params = NoParams | Fields(values: map<string, string>) | CoapUri(path: string, query: seq<byte>)

  /** `raiseYourHandUrlGenerator(showSignal)`: path "s" and a one-byte query. */
  function RaiseYourHandUri(showSignal: bool): (p: Params)
    ensures p.CoapUri? && p.path == "s" && |p.query| == 1
  {
    CoapUri("s", [if showSignal then 1 else 0])
  }

  /** The `token` argument: null, undefined, a number, or a buffer. */
  datatype TokenArg = NullToken | UndefinedToken | NumberToken(n: int) | BufferToken(bs: seq<byte>)

  /** A non-buffer token becomes one byte (`buf[0] = token`, so reduced
      modulo 256, and undefined becomes 0); null sets no token. */
  function TokenBytes(token: TokenArg): (r: Option<seq<byte>>)
  {
    match token
    case NullToken => None
    case UndefinedToken => Some([0])
    case NumberToken(n) => Some([(n % 256) as byte])
    case BufferToken(bs) => Some(bs)
  }

  /** `wrap(name, id, params, data, token, onError)`: the message record,
      or an error ("Unknown Message Type") in place of the `onError` call
      and null return. */
  function Wrap(name: string, id: nat, params: Params, data: Option<seq<byte>>, token: TokenArg): (r: Result<CoapMessage, string>)
    ensures r.Err? <==> SpecOf(name).None?
    ensures r.Err? ==> r.error == "Unknown Message Type"
    ensures r.Ok? ==>
      var m := r.value;
      var spec := SpecOf(name).value;
      m.code == spec.code && m.mtype == spec.mtype && m.id == id &&
      m.token == TokenBytes(token) &&
      m.payload == (if data.Some? then data.value else [])
  {
    var spec := SpecOf(name);
    if spec.None? then Err("Unknown Message Type")
    else
      var s := spec.value;
      var uri :=
        if params.CoapUri? then RawUri(params.path, params.query)
        else
          var text :=
            if params.Fields? && s.uri.Some? && '{' in s.uri.value then Render(s.uri.value, params.values)
            else if s.uri.Some? then s.uri.value else "";
          if text != "" then TextUri(text) else NoUri;
      Ok(CoapMessage(s.mtype, s.code, id, TokenBytes(token), uri, if data.Some? then data.value else []))
  }

  /** A numeric token is carried as exactly one byte, the number itself
      when it fits. */
  lemma WrapNumericToken(name: string, id: nat, params: Params, data: Option<seq<byte>>, n: int)
    requires SpecOf(name).Some? && 0 <= n < 256
    ensures Wrap(name, id, params, data, NumberToken(n)).value.token == Some([n as byte])
  {
  }

  lemma VariableRequestSpec()
    ensures SpecOf("VariableRequest") == Some(Spec("VariableRequest", GET, Some(VariableTemplate), Confirmable, Some("VariableValue")))
  {
    assert Catalogue.tail.tail.tail.tail.tail.tail.tail.head.name == "VariableRequest";
  }

  /** `getVariable`'s request: a confirmable GET whose uri is "v/" and the
      variable's name with `&`, `<`, `>`, `'` and `"` escaped. */
  lemma WrapVariableRequest(id: nat, name: string, data: Option<seq<byte>>, token: TokenArg)
    ensures Wrap("VariableRequest", id, Fields(map["name" := name]), data, token).Ok?
    ensures var m := Wrap("VariableRequest", id, Fields(map["name" := name]), data, token).value;
      m.code == GET && m.mtype == Confirmable && m.uri == TextUri("v/" + HtmlEscape(name))
  {
    VariableRequestSpec();
    assert VariableTemplate[2] == '{';
    RenderVariableUri(name);
  }
}
