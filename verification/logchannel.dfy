/**
 * The WebSocket log channel: `wsClients`, a map from a request id to the
 * connection that asked for that request's log lines, kept up to date by
 * each connection's message and close handlers, and `sendLog`, which relays
 * a line to the connection bound to a request id while that connection is
 * open. Transport and JSON framing are not modelled: a connection's output
 * is the sequence of `logMsg` texts it has been sent.
 */
module LogChannel {
  import opened Wrappers
  import opened JsStrings

  /** A connection, by identity. */
  type ConnId = nat

  /**
   * The `requestId` property of a parsed message. A number is held as its
   * canonical rendering `String(n)` (`1e+21`, `0.5`, `NaN`; both zeros are
   * `0`), which tells numbers apart exactly as a Map's key comparison does.
   * An object or array is a fresh value on every parse, told apart by `id`.
   * An object records whether it has an own `toString` property: parsed
   * JSON cannot make that property callable, so rendering such an object
   * throws. An array carries its rendering, its elements joined by commas,
   * or None when rendering one of its elements throws.
   */
  datatype JsValue =
    | Undefined                       // the property is absent
    | Null
    | Bool(b: bool)
    | Num(shown: string)
    | Str(s: string)
    | Object(id: nat, ownToString: bool)
    | Array(id: nat, joined: Option<string>)

  predicate Truthy(v: JsValue) {
    match v
    case Undefined => false
    case Null => false
    case Bool(b) => b
    case Num(shown) => shown != "0" && shown != "NaN"
    case Str(s) => s != ""
    case Object(_, _) => true
    case Array(_, _) => true
  }

  /** A client message: parsing or destructuring threw, or it yielded the `requestId` property. */
  datatype Inbound = Malformed | Parsed(requestId: JsValue)

  /**
   * `${requestId}` in the binding notice, or None when it throws a
   * TypeError: for an object with an own `toString`, the inherited `valueOf`
   * gives back the object, so no primitive is found.
   */
  function Display(v: JsValue): (r: Option<string>)
    ensures r.None? <==> (v.Object? && v.ownToString) || (v.Array? && v.joined.None?)
    ensures v.Object? && r.Some? ==> r.value == "[object Object]"
  {
    match v
    case Undefined => Some("undefined")
    case Null => Some("null")
    case Bool(b) => Some(if b then "true" else "false")
    case Num(shown) => Some(shown)
    case Str(s) => Some(s)
    case Object(_, ownToString) => if ownToString then None else Some("[object Object]")
    case Array(_, joined) => joined
  }

  function BoundNotice(shown: string): string {
    "[WS] Bound to requestId: " + shown
  }

  /** The registry after the message handler: a truthy `requestId` is (re)bound to the sender. */
  function Bind(clients: map<JsValue, ConnId>, c: ConnId, msg: Inbound): map<JsValue, ConnId> {
    if msg.Parsed? && Truthy(msg.requestId) then clients[msg.requestId := c] else clients
  }

  /** The registry after the close handler: every key bound to `c` removed, all others kept. */
  function Unbind(clients: map<JsValue, ConnId>, c: ConnId): (r: map<JsValue, ConnId>)
    ensures forall k :: k in r <==> k in clients && clients[k] != c
    ensures forall k :: k in r ==> r[k] == clients[k]
  {
    map k | k in clients && clients[k] != c :: clients[k]
  }

  /** The connection that a line for `requestId` reaches: the bound one, if it is open. */
  function Route(clients: map<JsValue, ConnId>, open: set<ConnId>, requestId: string): (r: Option<ConnId>)
    ensures r.Some? <==> Str(requestId) in clients && clients[Str(requestId)] in open
    ensures r.Some? ==> r.value == clients[Str(requestId)] && r.value in open
  {
    var key := Str(requestId);
    if key in clients && clients[key] in open then Some(clients[key]) else None
  }

  /** `ws.send`: appends a line to an open connection's output; a connection that is not open drops it. */
  function Send(sent: map<ConnId, seq<string>>, open: set<ConnId>, c: ConnId, line: string): map<ConnId, seq<string>> {
    if c in open && c in sent then sent[c := sent[c] + [line]] else sent
  }

  /** `sendLog(requestId, line)`. */
  function Deliver(sent: map<ConnId, seq<string>>, clients: map<JsValue, ConnId>, open: set<ConnId>,
                   requestId: string, line: string): map<ConnId, seq<string>>
  {
    match Route(clients, open, requestId)
    case None => sent
    case Some(c) => Send(sent, open, c, line)
  }

  /** `sendLog` for each line in turn, with the registry unchanged in between. */
  function DeliverAll(sent: map<ConnId, seq<string>>, clients: map<JsValue, ConnId>, open: set<ConnId>,
                      requestId: string, lines: seq<string>): map<ConnId, seq<string>>
    decreases |lines|
  {
    if |lines| == 0 then sent
    else Deliver(DeliverAll(sent, clients, open, requestId, lines[..|lines| - 1]), clients, open, requestId, lines[|lines| - 1])
  }

  // ---------------------------------------------------------------------------
  // Properties of the registry
  // ---------------------------------------------------------------------------

  /**
   * After a message, lines for request id `id` go to the sender if the
   * message bound `id` (the last bind wins), and where they went before
   * otherwise: a malformed message, a falsy id or another id changes nothing.
   */
  lemma BindRoutes(clients: map<JsValue, ConnId>, open: set<ConnId>, c: ConnId, msg: Inbound, id: string)
    ensures Route(Bind(clients, c, msg), open, id) ==
      if msg == Parsed(Str(id)) && id != "" then (if c in open then Some(c) else None)
      else Route(clients, open, id)
  {
  }

  /** After a close, no line reaches the closed connection, and lines for other connections' ids go where they did. */
  lemma UnbindRoutes(clients: map<JsValue, ConnId>, open: set<ConnId>, c: ConnId, id: string)
    ensures Route(Unbind(clients, c), open, id) ==
      if Route(clients, open, id) == Some(c) then None else Route(clients, open, id)
  {
    var key := Str(id);
    if key in clients && clients[key] in open && clients[key] != c {
      assert key in Unbind(clients, c);
    }
  }

  lemma {:induction false} DeliverAllAppend(sent: map<ConnId, seq<string>>, clients: map<JsValue, ConnId>, open: set<ConnId>,
                                            requestId: string, xs: seq<string>, ys: seq<string>)
    ensures DeliverAll(sent, clients, open, requestId, xs + ys) ==
            DeliverAll(DeliverAll(sent, clients, open, requestId, xs), clients, open, requestId, ys)
    decreases |ys|
  {
    if |ys| == 0 {
      assert xs + ys == xs;
    } else {
      var init := ys[..|ys| - 1];
      assert (xs + ys)[..|xs + ys| - 1] == xs + init;
      assert (xs + ys)[|xs + ys| - 1] == ys[|ys| - 1];
      DeliverAllAppend(sent, clients, open, requestId, xs, init);
    }
  }

  /**
   * Relaying a run of lines: when the id routes to a connection, its output
   * grows by exactly those lines in order and no other output changes; when
   * it does not, every line is dropped.
   */
  lemma {:induction false} DeliverAllRoutes(sent: map<ConnId, seq<string>>, clients: map<JsValue, ConnId>, open: set<ConnId>,
                                            requestId: string, lines: seq<string>)
    ensures var r := DeliverAll(sent, clients, open, requestId, lines);
      r.Keys == sent.Keys &&
      match Route(clients, open, requestId)
      case None => r == sent
      case Some(c) =>
        (c in sent ==> r[c] == sent[c] + lines) &&
        (forall d :: d in sent && d != c ==> r[d] == sent[d])
    decreases |lines|
  {
    if |lines| > 0 {
      var init := lines[..|lines| - 1];
      DeliverAllRoutes(sent, clients, open, requestId, init);
      assert init + [lines[|lines| - 1]] == lines;
    }
  }

  // ---------------------------------------------------------------------------
  // The registry as the server holds it
  // ---------------------------------------------------------------------------

  class LogBroker {
    /** `wsClients`. */
    var clients: map<JsValue, ConnId>
    /** The connections whose `readyState` is OPEN. */
    var open: set<ConnId>
    /** Every connection seen so far, with the lines it has been sent, oldest first. */
    var sent: map<ConnId, seq<string>>

    /** Bound and open connections are known ones, and only truthy ids are ever bound. */
    ghost predicate Valid()
      reads this
    {
      open <= sent.Keys && clients.Values <= sent.Keys && forall k :: k in clients ==> Truthy(k)
    }

    constructor ()
      ensures Valid() && clients == map[] && open == {} && sent == map[]
    {
      clients := map[];
      open := {};
      sent := map[];
    }

    /** A client connects: a new open connection with no output yet. */
    method Connect(c: ConnId)
      requires Valid() && c !in sent
      modifies this
      ensures Valid()
      ensures clients == old(clients) && open == old(open) + {c} && sent == old(sent)[c := []]
    {
      open := open + {c};
      sent := sent[c := []];
    }

    /** The peer starts closing: the connection leaves OPEN before its close handler runs. */
    method BeginClose(c: ConnId)
      requires Valid()
      modifies this
      ensures Valid()
      ensures clients == old(clients) && open == old(open) - {c} && sent == old(sent)
    {
      open := open - {c};
    }

    /** The message handler of connection `c`. */
    method OnMessage(c: ConnId, msg: Inbound)
      requires Valid() && c in sent
      modifies this
      ensures Valid()
      ensures clients == Bind(old(clients), c, msg) && open == old(open)
      ensures sent == if msg.Parsed? && Truthy(msg.requestId) && Display(msg.requestId).Some?
                      then Send(old(sent), open, c, BoundNotice(Display(msg.requestId).value))
                      else old(sent)
    {
      match msg
      case Malformed =>
      case Parsed(requestId) =>
        if Truthy(requestId) {
          clients := clients[requestId := c];
          // A rendering that throws is caught and logged: the binding stays, no notice is sent.
          match Display(requestId)
          case Some(shown) => sent := Send(sent, open, c, BoundNotice(shown));
          case None =>
        }
    }

    /** The close handler of connection `c`: deletes, while iterating, every entry bound to `c`. */
    method OnClose(c: ConnId)
      requires Valid()
      modifies this
      ensures Valid()
      ensures clients == Unbind(old(clients), c) && open == old(open) - {c} && sent == old(sent)
    {
      var keys := clients.Keys;
      ghost var start := clients;
      while keys != {}
        invariant keys <= start.Keys
        invariant forall k :: k in clients <==> k in start && (k in keys || start[k] != c)
        invariant forall k :: k in clients ==> clients[k] == start[k]
        invariant open == old(open) && sent == old(sent) && start == old(clients)
        decreases keys
      {
        var k :| k in keys;
        if clients[k] == c {
          clients := clients - {k};
        }
        keys := keys - {k};
      }
      assert clients == Unbind(start, c);
      open := open - {c};
    }

    /** `sendLog(requestId, line)`: the registry never changes; only the routed connection's output may grow. */
    method SendLog(requestId: string, line: string)
      requires Valid()
      modifies this
      ensures Valid()
      ensures clients == old(clients) && open == old(open)
      ensures sent == Deliver(old(sent), clients, open, requestId, line)
    {
      var key := Str(requestId);
      if key in clients && clients[key] in open {
        var c := clients[key];
        sent := sent[c := sent[c] + [line]];
      }
    }
  }
}
