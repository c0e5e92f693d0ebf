/**
 * The client: its routing proxy (`call`, `emit`, `listen`, `unlisten` at
 * the end of a property chain), the handling of frames from the server, and
 * the normalisation of the server address.
 */
module Client {
  import opened Wrappers
  import opened Proto
  import opened JsString
  import opened ProxyPath
  import opened ServerProxy

  /** A listener function registered with `listen`, known by identity. */
  datatype Listener = Listener(id: nat)

  /** The first argument of a proxy call: a JSON body (possibly `undefined`) or a function. */
  datatype Arg = Data(json: Option<Json>) | Fn(listener: Listener)

  /** An argument as `JSON.stringify` writes it inside an array: a function, like `undefined`, is null. */
  function ArgInArray(a: Arg): Json
  {
    if a.Fn? then JNull else InArray(a.json)
  }

  /** JavaScript truthiness of a value taken from a map or an array. */
  predicate Truthy(v: Option<Json>)
  {
    match v
    case None => false
    case Some(JNull) => false
    case Some(JBool(b)) => b
    case Some(JNum(n)) => n != 0
    case Some(JStr(s)) => s != ""
    case Some(_) => true
  }

  /** The client's socket: the arrays it sent, in order, each as JSON text. */
  class Connection {
    var sent: seq<seq<Json>>

    constructor()
      ensures sent == []
    {
      sent := [];
    }

    method Send(frame: seq<Json>)
      modifies this
      ensures sent == old(sent) + [frame]
    {
      sent := sent + [frame];
    }
  }

  /** What a proxy call returns: `undefined`, or the promise of a call. */
  datatype CallResult = NoValue | Awaiting(pending: Pending)

  /** The frame a proxy call sends, if any, for method `name` and request id `id`. */
  function OutgoingFrame(name: Option<string>, id: int, path: string, body: Arg): (r: Option<seq<Json>>)
    ensures r.None? <==> name == Some("listen") || name == Some("unlisten")
    ensures name == Some("emit") ==> r == Some(Encode(Emit(path, ArgInArray(body))))
    ensures r.Some? && name != Some("emit") ==> r == Some(Encode(Request(id, path, ArgInArray(body))))
  {
    if name == Some("listen") || name == Some("unlisten") then None
    else if name == Some("emit") then Some([JNum(EmitType), JStr(path), ArgInArray(body)])
    else Some([JNum(RequestType), JNum(id), JStr(path), ArgInArray(body)])
  }

  /** How a listener call ends. */
  datatype Reply = Value(value: Option<Json>) | Throws

  /** How the client handled one frame from the server. */
  datatype Handled =
    | Settled              // a response, passed to the resolver of its id (if any)
    | NoListener           // an emit or request for a path with no listener: only logged
    | Delivered            // the listener was called (and a request answered)
    | Rejected             // the listener threw, or is not a function: nothing is sent
    | Ignored              // any other frame

  class ClientStore {
    var id: int
    var resolvers: map<int, Pending>
    var listeners: map<string, Arg>

    /** As on the server: pending calls sit below the counter, each under its own promise. */
    ghost predicate Valid()
      reads this
    {
      && (forall n :: n in resolvers ==> n < id)
      && (forall a, b :: a in resolvers && b in resolvers && a != b ==> resolvers[a] != resolvers[b])
    }

    constructor()
      ensures Valid() && id == 0 && resolvers == map[] && listeners == map[]
    {
      id := 0;
      resolvers := map[];
      listeners := map[];
    }

    /**
     * `apply(body)` on a proxy holding `paths`: the last name is the method
     * and the rest the path. `listen` stores the argument under the path and
     * `unlisten` deletes it, neither using an id. Any other method takes the
     * next id and sends a frame: an event for `emit`, a request otherwise;
     * only `call` keeps a resolver for the answer.
     */
    method Apply(paths: seq<string>, body: Arg, conn: Connection) returns (r: CallResult)
      requires Valid()
      modifies this, conn
      ensures Valid()
      ensures var t := TargetOf("", paths);
        && (t.name == Some("listen") ==>
              && r == NoValue && listeners == old(listeners)[t.path := body]
              && id == old(id) && resolvers == old(resolvers) && conn.sent == old(conn.sent))
        && (t.name == Some("unlisten") ==>
              && r == NoValue && listeners == old(listeners) - {t.path}
              && id == old(id) && resolvers == old(resolvers) && conn.sent == old(conn.sent))
        && (t.name != Some("listen") && t.name != Some("unlisten") ==>
              && id == old(id) + 1 && listeners == old(listeners)
              && conn.sent == old(conn.sent) + [OutgoingFrame(t.name, old(id), t.path, body).value])
        && (t.name == Some("call") ==>
              r.Awaiting? && fresh(r.pending) && r.pending.state == Unsettled
              && resolvers == old(resolvers)[old(id) := r.pending])
        && (t.name != Some("call") ==> r == NoValue && resolvers == old(resolvers))
    {
      var t := TargetOf("", paths);
      if t.name == Some("listen") {
        listeners := listeners[t.path := body];
        return NoValue;
      }
      if t.name == Some("unlisten") {
        listeners := listeners - {t.path};
        return NoValue;
      }
      var n := id;
      id := id + 1;
      conn.Send(OutgoingFrame(t.name, n, t.path, body).value);
      if t.name == Some("call") {
        var pending := new Pending();
        resolvers := resolvers[n := pending];
        return Awaiting(pending);
      }
      return NoValue;
    }

    /** The listener registered for a path, looked up by exact key (only a string can be a key). */
    function ListenerOf(path: Option<Json>): Option<Arg>
      reads this
    {
      if path.Some? && path.value.JStr? && path.value.s in listeners then Some(listeners[path.value.s]) else None
    }

    /**
     * The `message` listener, for the parsed array `action`. A response
     * settles the resolver stored under its id (which stays stored). An
     * emit or request goes to the listener of its exact path: a falsy or
     * missing entry is only logged, a stored value that is not a function
     * throws, and a request whose listener returns is answered with a
     * success frame carrying the request's id.
     */
    method Message(action: seq<Json>, run: (Listener, Option<Json>) -> Reply, conn: Connection) returns (h: Handled)
      requires Valid()
      modifies conn, resolvers.Values
      ensures IsRpcResponse(action) ==> h == Settled && conn.sent == old(conn.sent)
      ensures forall n :: n in resolvers ==>
        resolvers[n].state ==
          if IsRpcResponse(action) && At(action, 1) == Some(JNum(n)) && old(resolvers[n].state).Unsettled?
          then Resolved(At(action, 2))
          else old(resolvers[n].state)
      ensures !IsRpcResponse(action) && (At(action, 0) == Some(JNum(EmitType)) || At(action, 0) == Some(JNum(RequestType))) ==>
        var isEmit := At(action, 0) == Some(JNum(EmitType));
        var entry := ListenerOf(At(action, if isEmit then 1 else 2));
        var body := At(action, if isEmit then 2 else 3);
        && (entry.None? || (entry.value.Data? && !Truthy(entry.value.json)) ==> h == NoListener && conn.sent == old(conn.sent))
        && (entry.Some? && entry.value.Data? && Truthy(entry.value.json) ==> h == Rejected && conn.sent == old(conn.sent))
        && (entry.Some? && entry.value.Fn? ==>
              var reply := run(entry.value.listener, body);
              && (reply.Throws? ==> h == Rejected && conn.sent == old(conn.sent))
              && (reply.Value? ==> h == Delivered)
              && (reply.Value? && isEmit ==> conn.sent == old(conn.sent))
              && (reply.Value? && !isEmit ==>
                    conn.sent == old(conn.sent) + [[JNum(SuccessType), InArray(At(action, 1)), InArray(reply.value)]]))
      ensures !IsRpcResponse(action) && At(action, 0) != Some(JNum(EmitType)) && At(action, 0) != Some(JNum(RequestType)) ==>
        h == Ignored && conn.sent == old(conn.sent)
    {
      if IsRpcResponse(action) {
        var id := At(action, 1);
        if id.Some? && id.value.JNum? && id.value.n in resolvers {
          resolvers[id.value.n].Resolve(At(action, 2));
        }
        return Settled;
      }
      var t := At(action, 0);
      var isEmit := t == Some(JNum(EmitType));
      if !isEmit && t != Some(JNum(RequestType)) {
        return Ignored;
      }
      var entry := ListenerOf(At(action, if isEmit then 1 else 2));
      var body := At(action, if isEmit then 2 else 3);
      if entry.None? || (entry.value.Data? && !Truthy(entry.value.json)) {
        return NoListener;
      }
      if entry.value.Data? {
        return Rejected;
      }
      var reply := run(entry.value.listener, body);
      if reply.Throws? {
        return Rejected;
      }
      if !isEmit {
        conn.Send([JNum(SuccessType), InArray(At(action, 1)), InArray(reply.value)]);
      }
      return Delivered;
    }
  }

  // --------------------------------------------------------------- address

  /** Host names that get the plain `ws://` scheme. */
  const Locals: seq<string> := ["localhost", "127.0.0.1", "0.0.0.0"]

  /** `locals.find(v => domain.includes(v))` is truthy. */
  predicate MentionsLocal(domain: string)
  {
    exists i :: 0 <= i < |Locals| && Includes(domain, Locals[i])
  }

  /** The scheme `fixDomain` gives an address that has none. */
  function Scheme(domain: string): string
  {
    if MentionsLocal(domain) then "ws://" else "wss://"
  }

  /** One trailing '/' dropped, if there is one. */
  function StripSlash(d: string): (r: string)
    ensures |r| >= |d| - 1
  {
    if EndsWith(d, "/") then d[..|d| - 1] else d
  }

  /**
   * `fixDomain`: an address without "://" gets `ws://` when it mentions a
   * local host anywhere and `wss://` otherwise; then one trailing '/' is
   * dropped.
   */
  function FixDomain(domain: string): string
  {
    StripSlash(if Includes(domain, "://") then domain else Scheme(domain) + domain)
  }

  /** The address the client connects to: as given with `keepDomain`, fixed otherwise. */
  function Endpoint(domain: string, keepDomain: bool): string
  {
    if keepDomain then domain else FixDomain(domain)
  }

  /** An occurrence at the front is an occurrence. */
  lemma {:induction false} IncludesPrefix(s: string, t: string, sub: string)
    requires StartsWith(s, sub)
    ensures Includes(s + t, sub)
  {
    assert (s + t)[..|sub|] == s[..|sub|];
  }

  /**
   * A non-empty address without a scheme gets `ws://` exactly when it
   * mentions a local host and `wss://` exactly when it does not, followed
   * by the address itself less at most one trailing '/'.
   */
  lemma SchemeChoice(domain: string)
    requires domain != "" && !Includes(domain, "://")
    ensures var r := FixDomain(domain);
      && (StartsWith(r, "ws://") <==> MentionsLocal(domain))
      && (StartsWith(r, "wss://") <==> !MentionsLocal(domain))
      && r == Scheme(domain) + StripSlash(domain)
  {
    StripAfterPrefix(Scheme(domain), domain);
    SchemeStarts(Scheme(domain), StripSlash(domain));
  }

  /** A prefix put in front of a non-empty string does not change whether it ends in '/'. */
  lemma StripAfterPrefix(p: string, x: string)
    requires x != ""
    ensures StripSlash(p + x) == p + StripSlash(x)
  {
    var d := p + x;
    assert d[|d| - 1..] == x[|x| - 1..];
    if EndsWith(x, "/") {
      assert d[..|d| - 1] == p + x[..|x| - 1];
    }
  }

  /** "ws://" and "wss://" each start only what they prefix. */
  lemma SchemeStarts(scheme: string, rest: string)
    requires scheme == "ws://" || scheme == "wss://"
    ensures StartsWith(scheme + rest, "ws://") <==> scheme == "ws://"
    ensures StartsWith(scheme + rest, "wss://") <==> scheme == "wss://"
  {
    var s := scheme + rest;
    assert s[2] == scheme[2];
    assert s[..|scheme|] == scheme;
  }

  /** An address that already names a scheme keeps it: only a trailing '/' goes. */
  lemma KeepsScheme(domain: string)
    requires Includes(domain, "://")
    ensures FixDomain(domain) == StripSlash(domain)
  {
  }

  /** A fixed address that does not end in '/' is a fixed point. */
  lemma {:induction false} FixDomainIdempotent(domain: string)
    requires domain != "" && !EndsWith(FixDomain(domain), "/")
    ensures FixDomain(FixDomain(domain)) == FixDomain(domain)
  {
    var r := FixDomain(domain);
    if Includes(domain, "://") {
      if EndsWith(domain, "/") {
        IncludesBeforeLast(domain, "://");
      }
    } else {
      SchemeChoice(domain);
      SchemeIncludes(Scheme(domain), StripSlash(domain));
    }
  }

  /** Both schemes end in "://", so anything they start holds "://". */
  lemma {:induction false} SchemeIncludes(scheme: string, rest: string)
    requires scheme == "ws://" || scheme == "wss://"
    ensures Includes(scheme + rest, "://")
  {
    var s := scheme + rest;
    if scheme == "ws://" {
      assert s[1..] == "s://" + rest;
      assert s[2..] == "://" + rest;
      IncludesPrefix("://", rest, "://");
      assert Includes(s[1..][1..], "://");
    } else {
      assert s[1..] == "ss://" + rest;
      assert s[2..] == "s://" + rest;
      assert s[3..] == "://" + rest;
      IncludesPrefix("://", rest, "://");
      assert Includes(s[1..][1..][1..], "://");
      assert Includes(s[1..][1..], "://");
    }
  }

  /**
   * Dropping the last character keeps an occurrence of "://" unless that
   * occurrence ends the string, in which case what is left ends in '/'.
   */
  lemma {:induction false} IncludesBeforeLast(s: string, sub: string)
    requires sub == "://" && Includes(s, sub) && |s| > 0 && !EndsWith(s[..|s| - 1], "/")
    ensures Includes(s[..|s| - 1], sub)
    decreases |s|
  {
    if StartsWith(s, sub) {
      if |s| == |sub| {
        assert false;
      }
      assert s[..|s| - 1][..|sub|] == s[..|sub|];
    } else {
      assert Includes(s[1..], sub);
      assert |s| > 1;
      assert s[1..][..|s[1..]| - 1] == s[..|s| - 1][1..];
      IncludesBeforeLast(s[1..], sub);
    }
  }
}
