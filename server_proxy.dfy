/**
 * The server's correlation store and the `apply` step of its routing proxy:
 * `call` sends a request and registers a resolver under a fresh id, `emit`
 * sends an event to the current socket, to one socket by id, or to a topic.
 */
module ServerProxy {
  import opened Wrappers
  import opened Proto
  import opened Sockets
  import opened ProxyPath

  datatype Settlement = Unsettled | Resolved(value: Option<Json>)

  /** The promise `call` returns; `Resolve` is the resolver stored for it. */
  class Pending {
    var state: Settlement

    constructor()
      ensures state == Unsettled
    {
      state := Unsettled;
    }

    /** A promise settles once: later calls of its resolver change nothing. */
    method Resolve(value: Option<Json>)
      modifies this
      ensures state == if old(state).Unsettled? then Resolved(value) else old(state)
    {
      if state.Unsettled? {
        state := Resolved(value);
      }
    }
  }

  /** `Store`: the next request id and the resolvers of pending calls. */
  class Store {
    var id: int
    var resolvers: map<int, Pending>

    /**
     * Ids are handed out in increasing order, so every pending call sits
     * below the counter under its own promise.
     */
    ghost predicate Valid()
      reads this
    {
      && (forall n :: n in resolvers ==> n < id)
      && (forall a, b :: a in resolvers && b in resolvers && a != b ==> resolvers[a] != resolvers[b])
    }

    constructor()
      ensures Valid() && id == 0 && resolvers == map[]
    {
      id := 0;
      resolvers := map[];
    }

    /** `store.id++`: the id handed out is the old counter, which moves on by one. */
    method Next() returns (n: int)
      requires Valid()
      modifies this
      ensures Valid() && n !in resolvers
      ensures n == old(id) && id == old(id) + 1 && resolvers == old(resolvers)
    {
      n := id;
      id := id + 1;
    }
  }

  /** The options of `call` and `emit`: a socket id, or a topic to publish to. */
  datatype SendOptions = SendOptions(id: Option<string>, broadcast: Option<Topic>)

  /** How `apply` ends: `undefined` (`NoResult`), the promise of a call, or a TypeError from sending to a missing socket. */
  datatype ApplyResult = NoResult | Promise(pending: Pending) | SendToMissing

  /** The socket `call` sends to: the current one, or the one registered under a truthy `options.id`. */
  function CallRecipient(ws: WsxSocket, sockets: map<string, WsxSocket>, options: Option<SendOptions>): Option<WsxSocket>
  {
    if options.Some? && HasId(options.value.id) then
      (if options.value.id.value in sockets then Some(sockets[options.value.id.value]) else None)
    else Some(ws)
  }

  /** Where `emit` sends to. */
  datatype EmitRoute = ToSocket(socket: WsxSocket) | ToMissing | ToTopic(topic: Topic) | Nowhere

  /**
   * No options: the current socket. A truthy id: that socket (missing if
   * not registered). Otherwise a topic if one is given, else nowhere.
   */
  function EmitRouteOf(ws: WsxSocket, sockets: map<string, WsxSocket>, options: Option<SendOptions>): EmitRoute
  {
    if options.None? then ToSocket(ws)
    else if HasId(options.value.id) then
      (if options.value.id.value in sockets then ToSocket(sockets[options.value.id.value]) else ToMissing)
    else if options.value.broadcast.Some? then ToTopic(options.value.broadcast.value)
    else Nowhere
  }

  /** The request frame of a call, as handed to `send`. */
  function RequestValue(id: int, path: string, body: Option<Json>): Value
  {
    Js(JArr(Encode(Request(id, path, InArray(body)))))
  }

  /** The event frame of an emit, as handed to `send`. */
  function EmitValue(path: string, body: Option<Json>): Value
  {
    Js(JArr(Encode(Emit(path, InArray(body)))))
  }

  /**
   * `apply(body, options)` on a proxy holding `paths`, for a route declared
   * under `prefix`, answering socket `ws`. `sockets` and `store` are the
   * server's. Only "call" and "emit" do anything; each reads and advances
   * the id counter before it sends, even when it then sends nothing or fails.
   */
  method Apply(prefix: string, paths: seq<string>, ws: WsxSocket, store: Store, sockets: map<string, WsxSocket>,
               body: Option<Json>, options: Option<SendOptions>, wire: Wire)
      returns (r: ApplyResult, ghost order: seq<WsxSocket>)
    requires store.Valid()
    modifies store, wire
    ensures store.Valid()
    ensures var t := TargetOf(prefix, paths);
      t.name != Some("call") && t.name != Some("emit") ==>
        r == NoResult && store.id == old(store.id) && store.resolvers == old(store.resolvers) && wire.log == old(wire.log)
    ensures var t := TargetOf(prefix, paths);
      t.name == Some("call") ==>
        var to := CallRecipient(ws, sockets, options);
        && store.id == old(store.id) + 1
        && (to.None? ==> r == SendToMissing && store.resolvers == old(store.resolvers) && wire.log == old(wire.log))
        && (to.Some? ==>
              && r.Promise? && fresh(r.pending) && r.pending.state == Unsettled
              && store.resolvers == old(store.resolvers)[old(store.id) := r.pending]
              && wire.log == old(wire.log) + [(to.value.raw, Encoding(RequestValue(old(store.id), t.path, body)))])
    ensures var t := TargetOf(prefix, paths);
      t.name == Some("emit") ==>
        var route := EmitRouteOf(ws, sockets, options);
        var p := Encoding(EmitValue(t.path, body));
        && store.id == old(store.id) + 1
        && store.resolvers == old(store.resolvers)
        && (route.ToMissing? ==> r == SendToMissing && wire.log == old(wire.log))
        && (!route.ToMissing? ==> r == NoResult)
        && (route.ToSocket? ==> wire.log == old(wire.log) + [(route.socket.raw, p)])
        && (route.Nowhere? ==> wire.log == old(wire.log))
        && (route.ToTopic? ==>
              Enumerates(order, route.topic.sockets - {ws}) && wire.log == old(wire.log) + Deliveries(order, HandleOf, p))
  {
    order := [];
    var t := TargetOf(prefix, paths);
    if t.name == Some("call") {
      var to := CallRecipient(ws, sockets, options);
      var id := store.Next();
      if to.None? {
        return SendToMissing, order;
      }
      to.value.Send(RequestValue(id, t.path, body), wire);
      var pending := new Pending();
      store.resolvers := store.resolvers[id := pending];
      return Promise(pending), order;
    }
    if t.name == Some("emit") {
      var _ := store.Next();
      var value := EmitValue(t.path, body);
      var route := EmitRouteOf(ws, sockets, options);
      match route
      case ToSocket(s) =>
        s.Send(value, wire);
      case ToMissing =>
        return SendToMissing, order;
      case ToTopic(topic) =>
        order := topic.Publish(value, Some(ws), wire);
      case Nowhere =>
    }
    return NoResult, order;
  }

  /**
   * Every frame the proxy sends is JSON text that reads back as the frame
   * built: a request carries the id it registered its resolver under.
   */
  lemma ProxyFramesDecode(id: int, path: string, body: Option<Json>)
    ensures Encoding(RequestValue(id, path, body)).JsonText?
    ensures Decode(Encoding(RequestValue(id, path, body)).j.items) == Some(Request(id, path, InArray(body)))
    ensures Decode(Encoding(EmitValue(path, body)).j.items) == Some(Emit(path, InArray(body)))
  {
    DecodeEncode(Request(id, path, InArray(body)));
    DecodeEncode(Emit(path, InArray(body)));
  }
}
