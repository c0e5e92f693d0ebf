/**
 * The server: `Wsx` (route and event registration, plugins, hook lists)
 * and `WsxHandler` (socket open/close and the dispatch of one inbound
 * frame). User code — hooks, body validators and route handlers — is given
 * as oracles (`Oracles`) that say how each call ends; every call made is
 * recorded in order, together with the frames sent back.
 *
 * Routes are looked up in a plain map by their exact path; the trie router
 * is not involved.
 */
module Server {
  import opened Wrappers
  import opened Proto
  import opened LifeCycle
  import opened Sockets
  import opened ServerProxy

  /** A body or response schema, known by identity. */
  datatype Schema = Schema(id: nat)

  /** A route handler, known by identity. */
  datatype Handler = Handler(id: nat)

  /** `RPCOptions`: the optional body and response schemas. */
  datatype RpcOptions = RpcOptions(body: Option<Schema>, response: Option<Schema>)

  /** `RPCRoute`: what the router map holds for a path. */
  datatype RouteEntry = RouteEntry(prefix: string, handler: Handler, body: Option<Schema>,
                                   response: Option<Schema>, lifeCycle: LifeCycleStore)

  /** The options given, or none (`options?.body`). */
  function OptionsOf(options: Option<RpcOptions>): RpcOptions
  {
    if options.None? then RpcOptions(None, None) else options.value
  }

  // ------------------------------------------------------------ dispatch

  /** One call into user code while a frame is dispatched. */
  datatype Call =
    | RequestHook(hook: Hook, body: Option<Json>)
    | Validate(schema: Schema, body: Option<Json>)
    | HandleHook(hook: Hook, body: Option<Json>)
    | RunHandler(handler: Handler, body: Option<Json>)
    | ResponseHook(hook: Hook, body: Option<Json>, response: Option<Json>)
    | ErrorHook(hook: Hook, error: Json)

  /** How a hook or handler call ends (an awaited rejection is a throw). */
  datatype Outcome = Returned(value: Option<Json>) | Threw(error: Json)

  /** What a body validator reports: no issues, or issues. */
  datatype Validation = Passed(value: Json) | Issues(issues: Json)

  /** The behaviour of the user code met while dispatching one frame. */
  datatype Oracles = Oracles(run: Call -> Outcome, validate: (Schema, Option<Json>) -> Validation)

  /** Which hook list is being walked, with the extra argument its hooks get. */
  datatype Stage = OnRequest | OnHandle | OnResponse(response: Option<Json>) | OnError(error: Json)

  function CallOf(stage: Stage, h: Hook, body: Option<Json>): Call
  {
    match stage
    case OnRequest => RequestHook(h, body)
    case OnHandle => HandleHook(h, body)
    case OnResponse(response) => ResponseHook(h, body, response)
    case OnError(error) => ErrorHook(h, error)
  }

  /** The calls a hook loop makes and the error that stopped it, if any. */
  datatype HookRun = HookRun(calls: seq<Call>, thrown: Option<Json>)

  /**
   * `for (const hook of hooks) await hook(...)`: hooks run in list order
   * until one throws; the throw ends the loop.
   */
  function RunHooks(stage: Stage, hooks: seq<Hook>, body: Option<Json>, o: Oracles): (r: HookRun)
    decreases |hooks|
    ensures |r.calls| <= |hooks|
  {
    if hooks == [] then HookRun([], None)
    else
      var c := CallOf(stage, hooks[0], body);
      match o.run(c)
      case Threw(e) => HookRun([c], Some(e))
      case Returned(_) =>
        var rest := RunHooks(stage, hooks[1..], body, o);
        HookRun([c] + rest.calls, rest.thrown)
  }

  /** The hook loop calls a prefix of the list, in order, each hook but the last returning. */
  lemma {:induction false} RunHooksInOrder(stage: Stage, hooks: seq<Hook>, body: Option<Json>, o: Oracles)
    decreases |hooks|
    ensures var r := RunHooks(stage, hooks, body, o);
      && (forall i :: 0 <= i < |r.calls| ==> r.calls[i] == CallOf(stage, hooks[i], body))
      && (forall i :: 0 <= i < |r.calls| - 1 ==> o.run(r.calls[i]).Returned?)
      && (r.thrown.Some? ==> |r.calls| > 0 && o.run(r.calls[|r.calls| - 1]) == Threw(r.thrown.value))
  {
    if hooks != [] && o.run(CallOf(stage, hooks[0], body)).Returned? {
      RunHooksInOrder(stage, hooks[1..], body, o);
      var r := RunHooks(stage, hooks, body, o);
      var rest := RunHooks(stage, hooks[1..], body, o);
      assert r.calls == [CallOf(stage, hooks[0], body)] + rest.calls;
      forall i | 1 <= i < |r.calls|
        ensures r.calls[i] == CallOf(stage, hooks[i], body)
      {
        assert r.calls[i] == rest.calls[i - 1] && hooks[1..][i - 1] == hooks[i];
      }
      forall i | 1 <= i < |r.calls| - 1
        ensures o.run(r.calls[i]).Returned?
      {
        assert r.calls[i] == rest.calls[i - 1];
      }
    }
  }

  /** The hook loop finishes without error exactly when every hook returns, and then it has called them all. */
  lemma {:induction false} RunHooksAllReturn(stage: Stage, hooks: seq<Hook>, body: Option<Json>, o: Oracles)
    decreases |hooks|
    ensures var r := RunHooks(stage, hooks, body, o);
      && (r.thrown.None? <==> forall i :: 0 <= i < |hooks| ==> o.run(CallOf(stage, hooks[i], body)).Returned?)
      && (r.thrown.None? ==> |r.calls| == |hooks|)
  {
    if hooks != [] && o.run(CallOf(stage, hooks[0], body)).Returned? {
      RunHooksAllReturn(stage, hooks[1..], body, o);
      assert forall i :: 1 <= i < |hooks| ==> hooks[1..][i - 1] == hooks[i];
      if RunHooks(stage, hooks[1..], body, o).thrown.Some? {
        var k :| 0 <= k < |hooks| - 1 && !o.run(CallOf(stage, hooks[1..][k], body)).Returned?;
        assert !o.run(CallOf(stage, hooks[k + 1], body)).Returned?;
      }
    }
  }

  /** `calls` made before the loop run `r`. */
  function Then(calls: seq<Call>, r: HookRun): HookRun
  {
    HookRun(calls + r.calls, r.thrown)
  }

  lemma ThenAssoc(a: seq<Call>, b: seq<Call>, r: HookRun)
    ensures Then(a, Then(b, r)) == Then(a + b, r)
  {
    assert a + (b + r.calls) == (a + b) + r.calls;
  }

  /** One step of the hook loop. */
  lemma RunHooksUnfold(stage: Stage, hooks: seq<Hook>, body: Option<Json>, o: Oracles)
    requires hooks != []
    ensures var c := CallOf(stage, hooks[0], body);
      RunHooks(stage, hooks, body, o) ==
        if o.run(c).Threw? then HookRun([c], Some(o.run(c).error)) else Then([c], RunHooks(stage, hooks[1..], body, o))
  {
  }

  /** How a dispatch ends: normally, or with the message's promise rejected (no frame is sent then). */
  datatype Ending = Finished | Rejected

  /** The calls made, the frames sent (as the arrays handed to `send`), and how it ended. */
  datatype Run = Run(calls: seq<Call>, sent: seq<seq<Json>>, ending: Ending)

  function After(calls: seq<Call>, r: Run): Run
  {
    Run(calls + r.calls, r.sent, r.ending)
  }

  /** A route as dispatch sees it: its handler, its body schema and its hook lists. */
  datatype RouteView = RouteView(handler: Handler, body: Option<Schema>, hooks: Hooks)

  function View(e: RouteEntry): RouteView
    reads e.lifeCycle
  {
    RouteView(e.handler, e.body, e.lifeCycle.Lists())
  }

  function Views(router: map<string, RouteEntry>): map<string, RouteView>
    reads set e | e in router.Values :: e.lifeCycle
  {
    map k | k in router :: View(router[k])
  }

  /** `{ path }`: an undefined path leaves the object empty. */
  function PathObject(path: Option<Json>): Json
  {
    JObj(if path.None? then map[] else map["path" := path.value])
  }

  function ErrorObject(error: Json): Json
  {
    JObj(map["error" := error])
  }

  const DefaultErrorMessage := "Error occured during handling"

  /** The `message` of an object error when it is a string, otherwise the default text. */
  function ErrorMessage(error: Json): (r: string)
    ensures r == DefaultErrorMessage || (error.JObj? && "message" in error.fields && error.fields["message"] == JStr(r))
  {
    if error.JObj? && "message" in error.fields && error.fields["message"].JStr? then error.fields["message"].s
    else DefaultErrorMessage
  }

  /** `[code, id!, message, body]` for a fail (4) or error (5) response. */
  function ErrorArray(code: int, id: Option<Json>, message: string, body: Json): seq<Json>
  {
    [JNum(code), InArray(id), JStr(message), body]
  }

  function SuccessArray(id: Option<Json>, value: Option<Json>): seq<Json>
  {
    [JNum(SuccessType), InArray(id), InArray(value)]
  }

  /** `handleError`: every onError hook, then one frame of type `code`, unless a hook throws. */
  function HandleError(hooks: Hooks, id: Option<Json>, error: Json, code: int, o: Oracles): Run
  {
    var er := RunHooks(OnError(error), hooks.onError, None, o);
    if er.thrown.Some? then Run(er.calls, [], Rejected)
    else Run(er.calls, [ErrorArray(code, id, ErrorMessage(error), ErrorObject(error))], Finished)
  }

  /** A frame for a route that exists: onRequest hooks first. */
  function Serve(route: RouteView, isEmit: bool, id: Option<Json>, body: Option<Json>, o: Oracles): Run
  {
    var req := RunHooks(OnRequest, route.hooks.onRequest, body, o);
    if req.thrown.Some? then After(req.calls, HandleError(route.hooks, id, req.thrown.value, FailType, o))
    else AfterRequestHooks(route, isEmit, id, body, o, req.calls)
  }

  /** Then the body schema, if the route has one: issues answer a request with a fail frame. */
  function AfterRequestHooks(route: RouteView, isEmit: bool, id: Option<Json>, body: Option<Json>, o: Oracles,
                             calls: seq<Call>): Run
  {
    if route.body.None? then AfterValidation(route, isEmit, id, body, o, calls)
    else
      var calls' := calls + [Validate(route.body.value, body)];
      match o.validate(route.body.value, body)
      case Issues(issues) =>
        Run(calls', if isEmit then [] else [ErrorArray(FailType, id, "Validation failed", issues)], Finished)
      case Passed(_) => AfterValidation(route, isEmit, id, body, o, calls')
  }

  /** Then the onHandle hooks. */
  function AfterValidation(route: RouteView, isEmit: bool, id: Option<Json>, body: Option<Json>, o: Oracles,
                           calls: seq<Call>): Run
  {
    var hd := RunHooks(OnHandle, route.hooks.onHandle, body, o);
    if hd.thrown.Some? then After(calls + hd.calls, HandleError(route.hooks, id, hd.thrown.value, FailType, o))
    else AfterHandleHooks(route, isEmit, id, body, o, calls + hd.calls)
  }

  /** Then the handler; for a request, the onResponse hooks and the success frame. */
  function AfterHandleHooks(route: RouteView, isEmit: bool, id: Option<Json>, body: Option<Json>, o: Oracles,
                            calls: seq<Call>): Run
  {
    var call := RunHandler(route.handler, body);
    match o.run(call)
    case Threw(e) => After(calls + [call], HandleError(route.hooks, id, e, ErrorType, o))
    case Returned(value) =>
      if isEmit then Run(calls + [call], [], Finished)
      else
        var rs := RunHooks(OnResponse(value), route.hooks.onResponse, body, o);
        if rs.thrown.Some? then Run(calls + [call] + rs.calls, [], Rejected)
        else Run(calls + [call] + rs.calls, [SuccessArray(id, value)], Finished)
  }

  predicate IsEmitAction(action: seq<Json>)
  {
    At(action, 0) == Some(JNum(EmitType))
  }

  predicate IsRequestAction(action: seq<Json>)
  {
    At(action, 0) == Some(JNum(RequestType))
  }

  /** Where an emit `[1, path, body]` and a request `[2, id, path, body]` keep their fields. */
  function IdOfAction(action: seq<Json>): Option<Json>
  {
    if IsEmitAction(action) then None else At(action, 1)
  }

  function PathOfAction(action: seq<Json>): Option<Json>
  {
    At(action, if IsEmitAction(action) then 1 else 2)
  }

  function BodyOfAction(action: seq<Json>): Option<Json>
  {
    At(action, if IsEmitAction(action) then 2 else 3)
  }

  /** The route a path names, looked up by exact key (only a string can be a key). */
  function Lookup(routes: map<string, RouteView>, path: Option<Json>): Option<RouteView>
  {
    if path.Some? && path.value.JStr? && path.value.s in routes then Some(routes[path.value.s]) else None
  }

  /**
   * What `message` does with an emit or a request: an unknown path answers
   * a request with one fail frame and an emit with nothing; a known one is
   * served. Any other frame makes no call and sends nothing.
   */
  function Dispatch(action: seq<Json>, routes: map<string, RouteView>, o: Oracles): Run
  {
    if IsEmitAction(action) || IsRequestAction(action) then
      var isEmit := IsEmitAction(action);
      var id := IdOfAction(action);
      var path := PathOfAction(action);
      var route := Lookup(routes, path);
      if route.None? then
        Run([], if isEmit then [] else [ErrorArray(FailType, id, "Route not found", PathObject(path))], Finished)
      else Serve(route.value, isEmit, id, BodyOfAction(action), o)
    else Run([], [], Finished)
  }

  /** The log entries of sending each array to `raw`, in order. */
  function Sends(raw: RawSocket, sent: seq<seq<Json>>): (d: seq<(RawSocket, Payload)>)
    ensures |d| == |sent|
    ensures forall i :: 0 <= i < |sent| ==> d[i] == (raw, JsonText(JArr(sent[i])))
  {
    seq(|sent|, i requires 0 <= i < |sent| => (raw, JsonText(JArr(sent[i]))))
  }

  // ------------------------------------------------------------- servers

  /** A server instance or plugin. */
  class Wsx {
    const prefix: string
    var router: map<string, RouteEntry>
    var events: map<string, RpcOptions>
    const store: Store
    var sockets: map<string, WsxSocket>
    const lifeCycle: LifeCycleStore

    /** Every route holds its own hook lists, never the server's. */
    ghost predicate Valid()
      reads this
    {
      forall k :: k in router ==> router[k].lifeCycle != lifeCycle
    }

    /** `new Wsx({ prefix })`: the prefix defaults to "". */
    constructor(prefix: Option<string>)
      ensures Valid()
      ensures this.prefix == (if prefix.None? then "" else prefix.value)
      ensures router == map[] && events == map[] && sockets == map[]
      ensures fresh(store) && store.Valid() && store.id == 0 && store.resolvers == map[]
      ensures fresh(lifeCycle) && lifeCycle.Lists() == NoHooks
    {
      this.prefix := if prefix.None? then "" else prefix.value;
      router := map[];
      events := map[];
      store := new Store();
      sockets := map[];
      lifeCycle := new LifeCycleStore();
    }

    /**
     * `route(path, handler, options)`: stores the route under
     * `prefix + path` (replacing an earlier one) with a snapshot of the
     * server's hook lists as they are now.
     */
    method Route(path: string, handler: Handler, options: Option<RpcOptions>) returns (r: Wsx)
      requires Valid()
      modifies this
      ensures r == this && Valid()
      ensures prefix + path in router && router == old(router)[prefix + path := router[prefix + path]]
      ensures var e := router[prefix + path];
        && e.prefix == prefix && e.handler == handler
        && e.body == OptionsOf(options).body && e.response == OptionsOf(options).response
        && fresh(e.lifeCycle) && e.lifeCycle.Lists() == lifeCycle.Lists()
      ensures events == old(events) && sockets == old(sockets)
    {
      var snapshot := lifeCycle.Clone();
      var o := OptionsOf(options);
      router := router[prefix + path := RouteEntry(prefix, handler, o.body, o.response, snapshot)];
      return this;
    }

    /** `event(path, options)`: declares a server-sent event under `prefix + path`. */
    method Event(path: string, options: Option<RpcOptions>) returns (r: Wsx)
      modifies this
      ensures r == this
      ensures events == old(events)[prefix + path := OptionsOf(options)]
      ensures router == old(router) && sockets == old(sockets)
    {
      events := events[prefix + path := OptionsOf(options)];
      return this;
    }

    /**
     * What `use` stores for a plugin route `src`: the same handler and
     * schemas, the prefix extended by this server's, and this server's
     * hooks followed by the route's own.
     */
    ghost predicate Copied(e: RouteEntry, src: RouteEntry)
      reads lifeCycle, e.lifeCycle, src.lifeCycle
    {
      && e.prefix == prefix + src.prefix && e.handler == src.handler
      && e.body == src.body && e.response == src.response
      && e.lifeCycle.Lists() == Concat(lifeCycle.Lists(), src.lifeCycle.Lists())
    }

    /** The keys `use` writes: the plugin's paths behind this server's prefix. */
    ghost function Mounted(plugin: Wsx): set<string>
      reads plugin
    {
      MountedOf(prefix, plugin.router.Keys)
    }

    /**
     * `use(plugin)`: every plugin route is copied to `prefix + path`, its
     * prefix extended by this server's, and its hooks become this server's
     * hooks followed by the route's own. Plugin events are not copied, and a
     * plugin other than this server is left as it was. `use(this)` is covered
     * when the prefix is "": each write then replaces a key the loop has
     * already reached, so the loop visits the original routes once each.
     */
    method Use(plugin: Wsx) returns (r: Wsx)
      requires (plugin != this || prefix == "") && Valid()
      modifies this
      ensures r == this && Valid()
      ensures router.Keys == old(router).Keys + old(Mounted(plugin))
      ensures forall k :: k in router && k !in old(Mounted(plugin)) ==> router[k] == old(router)[k]
      ensures forall p :: p in old(plugin.router) ==> prefix + p in router && Copied(router[prefix + p], old(plugin.router)[p])
      ensures events == old(events) && sockets == old(sockets)
    {
      MountAll(plugin.router);
      return this;
    }

    /** The loop of `use`: mounts every route of `routes`, one at a time. */
    method MountAll(routes: map<string, RouteEntry>)
      requires Valid()
      modifies this
      ensures Valid()
      ensures router.Keys == old(router).Keys + MountedOf(prefix, routes.Keys)
      ensures forall k :: k in router && k !in MountedOf(prefix, routes.Keys) ==> router[k] == old(router)[k]
      ensures AllCopied(router, routes, routes.Keys)
      ensures events == old(events) && sockets == old(sockets)
    {
      var left := routes.Keys;
      ghost var done: set<string> := {};
      ghost var added: set<string> := {};
      ghost var mounted := MountedOf(prefix, routes.Keys);
      while left != {}
        invariant left + done == routes.Keys && left !! done && Valid()
        invariant added == MountedOf(prefix, done)
        invariant router.Keys == old(router).Keys + added
        invariant forall k :: k in router && k !in mounted ==> router[k] == old(router)[k]
        invariant AllCopied(router, routes, done)
        invariant events == old(events) && sockets == old(sockets)
        decreases left
      {
        var p :| p in left;
        assert prefix + p in mounted;
        ghost var before := router;
        Mount(p, routes, done);
        MountedOfAdd(prefix, done, p);
        MoveOne(left, done, routes.Keys, p);
        KeysGrow(before, router, prefix + p, old(router).Keys, added);
        left := left - {p};
        done := done + {p};
        added := added + {prefix + p};
      }
      assert done == routes.Keys;
    }

    /** Every path of `done` has its copy of `routes[p]` at `prefix + p` in `table`. */
    ghost predicate AllCopied(table: map<string, RouteEntry>, routes: map<string, RouteEntry>, done: set<string>)
      reads lifeCycle, set e | e in table.Values :: e.lifeCycle, set e | e in routes.Values :: e.lifeCycle
    {
      forall q :: q in done ==> q in routes && prefix + q in table && Copied(table[prefix + q], routes[q])
    }

    /** One step of `use`: stores plugin route `routes[p]` at `prefix + p`. */
    method Mount(p: string, routes: map<string, RouteEntry>, ghost done: set<string>)
      requires p in routes && p !in done && Valid() && AllCopied(router, routes, done)
      modifies this
      ensures Valid() && AllCopied(router, routes, done + {p})
      ensures prefix + p in router && router == old(router)[prefix + p := router[prefix + p]]
      ensures events == old(events) && sockets == old(sockets)
    {
      var src := routes[p];
      var hooks := MountedHooks(src.lifeCycle);
      ghost var before := router;
      router := router[prefix + p := src.(prefix := prefix + src.prefix, lifeCycle := hooks)];
      PrefixInjective(prefix, p);
      forall q | q in done
        ensures q in routes && prefix + q in router && Copied(router[prefix + q], routes[q])
      {
        assert router[prefix + q] == before[prefix + q];
      }
    }

    /** The hook lists `use` gives a plugin route: a copy of this server's, then the route's own. */
    method MountedHooks(src: LifeCycleStore) returns (hooks: LifeCycleStore)
      ensures fresh(hooks) && hooks.Lists() == Concat(lifeCycle.Lists(), src.Lists())
    {
      hooks := src.Clone();
      hooks := hooks.Prepend(lifeCycle);
    }

    /** `onRequest(hook)`: appends to the server's list; routes declared earlier keep their snapshot. */
    method OnRequest(hook: Hook) returns (r: Wsx)
      requires Valid()
      modifies lifeCycle
      ensures r == this && Valid()
      ensures lifeCycle.Lists() == old(lifeCycle.Lists()).(onRequest := old(lifeCycle.onRequest) + [hook])
      ensures forall k :: k in router ==> router[k].lifeCycle.Lists() == old(router[k].lifeCycle.Lists())
    {
      lifeCycle.onRequest := lifeCycle.onRequest + [hook];
      return this;
    }

    method OnHandle(hook: Hook) returns (r: Wsx)
      requires Valid()
      modifies lifeCycle
      ensures r == this && Valid()
      ensures lifeCycle.Lists() == old(lifeCycle.Lists()).(onHandle := old(lifeCycle.onHandle) + [hook])
      ensures forall k :: k in router ==> router[k].lifeCycle.Lists() == old(router[k].lifeCycle.Lists())
    {
      lifeCycle.onHandle := lifeCycle.onHandle + [hook];
      return this;
    }

    method OnResponse(hook: Hook) returns (r: Wsx)
      requires Valid()
      modifies lifeCycle
      ensures r == this && Valid()
      ensures lifeCycle.Lists() == old(lifeCycle.Lists()).(onResponse := old(lifeCycle.onResponse) + [hook])
      ensures forall k :: k in router ==> router[k].lifeCycle.Lists() == old(router[k].lifeCycle.Lists())
    {
      lifeCycle.onResponse := lifeCycle.onResponse + [hook];
      return this;
    }

    method OnError(hook: Hook) returns (r: Wsx)
      requires Valid()
      modifies lifeCycle
      ensures r == this && Valid()
      ensures lifeCycle.Lists() == old(lifeCycle.Lists()).(onError := old(lifeCycle.onError) + [hook])
      ensures forall k :: k in router ==> router[k].lifeCycle.Lists() == old(router[k].lifeCycle.Lists())
    {
      lifeCycle.onError := lifeCycle.onError + [hook];
      return this;
    }
  }

  /** The keys paths take behind a prefix. */
  ghost function MountedOf(prefix: string, paths: set<string>): set<string>
  {
    set p | p in paths :: prefix + p
  }

  /** One step of a loop that moves the elements of `left` into `done`. */
  lemma MoveOne<X>(left: set<X>, done: set<X>, all: set<X>, x: X)
    requires left + done == all && left !! done && x in left
    ensures (left - {x}) + (done + {x}) == all && (left - {x}) !! (done + {x})
  {
  }

  /** Storing under one key adds that key to the map's keys. */
  lemma KeysGrow<K, V>(before: map<K, V>, after: map<K, V>, k: K, base: set<K>, added: set<K>)
    requires before.Keys == base + added && k in after && after == before[k := after[k]]
    ensures after.Keys == base + (added + {k})
  {
  }

  lemma MountedOfAdd(prefix: string, paths: set<string>, p: string)
    ensures MountedOf(prefix, paths + {p}) == MountedOf(prefix, paths) + {prefix + p}
  {
  }

  /** Distinct paths stay distinct behind a common prefix. */
  lemma PrefixInjective(prefix: string, p: string)
    ensures forall q :: prefix + q == prefix + p ==> q == p
  {
    forall q | prefix + q == prefix + p
      ensures q == p
    {
      assert q == (prefix + q)[|prefix|..];
      assert p == (prefix + p)[|prefix|..];
    }
  }

  // ------------------------------------------------------------ handlers

  /** The topics whose key a leave unregisters: those of `rooms` in `b` left with no member. */
  ghost function Emptied(rooms: set<Topic>, b: Broadcast): set<string>
    reads rooms
  {
    set t | t in rooms && t.broadcast == b && t.sockets == {} :: t.key
  }

  ghost function BroadcastsOf(rooms: set<Topic>): set<Broadcast>
  {
    set t | t in rooms :: t.broadcast
  }

  /**
   * Calls `[remove](socket)` on every topic of `rooms`: each drops `socket`
   * from its members, and every topic then empty has its key deleted from
   * its broadcast.
   */
  method LeaveAll(rooms: set<Topic>, socket: object)
    modifies rooms, BroadcastsOf(rooms)
    ensures forall t :: t in rooms ==> t.sockets == set s | s in old(t.sockets) && s != socket
    ensures forall b :: b in BroadcastsOf(rooms) ==> b.topics == old(b.topics) - Emptied(rooms, b)
  {
    var left := rooms;
    ghost var done: set<Topic> := {};
    ghost var start: map<Broadcast, map<string, Topic>> := map b | b in BroadcastsOf(rooms) :: b.topics;
    while left != {}
      invariant left + done == rooms && left !! done
      invariant forall t :: t in done ==> t.sockets == set s | s in old(t.sockets) && s != socket
      invariant forall t :: t in left ==> t.sockets == old(t.sockets)
      invariant forall b :: b in BroadcastsOf(rooms) ==> b in start && b.topics == start[b] - Emptied(done, b)
      decreases left
    {
      var t :| t in left;
      assert t.broadcast in BroadcastsOf(rooms);
      LeaveOne(t, socket, rooms, done, start);
      MoveOne(left, done, rooms, t);
      left := left - {t};
      done := done + {t};
    }
  }

  /** One topic of `LeaveAll`: `t` drops `socket`, and its key goes if `t` is left empty. */
  method LeaveOne(t: Topic, socket: object, ghost rooms: set<Topic>, ghost done: set<Topic>,
      ghost start: map<Broadcast, map<string, Topic>>)
    requires t in rooms && t !in done
    requires forall b :: b in BroadcastsOf(rooms) ==> b in start && b.topics == start[b] - Emptied(done, b)
    modifies t, t.broadcast
    ensures t.sockets == set s | s in old(t.sockets) && s != socket
    ensures forall b :: b in BroadcastsOf(rooms) ==> b in start && b.topics == start[b] - Emptied(done + {t}, b)
  {
    t.Remove(socket);
    forall b | b in BroadcastsOf(rooms)
      ensures b in start && b.topics == start[b] - Emptied(done + {t}, b)
    {
      EmptiedStep(done, t, b);
    }
  }

  lemma EmptiedStep(done: set<Topic>, t: Topic, b: Broadcast)
    requires t !in done
    ensures Emptied(done + {t}, b) == Emptied(done, b) + (if t.broadcast == b && t.sockets == {} then {t.key} else {})
  {
  }

  /** Adapts the socket events of the runtime to a server. */
  class WsxHandler {
    const wsx: Wsx

    constructor(wsx: Wsx)
      ensures this.wsx == wsx
    {
      this.wsx := wsx;
    }

    /** `open(raw)`: the socket's wrapper is registered under its id. */
    method Open(raw: RawSocket, draw: nat)
      requires raw.Valid() && draw < 0x1_0000_0000
      modifies wsx, raw
      ensures raw.Valid() && raw.wrapper != null && raw.wrapper.raw == raw
      ensures old(raw.wrapper) != null ==> raw.wrapper == old(raw.wrapper) && raw.id == old(raw.id)
      ensures old(raw.wrapper) == null ==>
        fresh(raw.wrapper) && raw.id == (if HasId(old(raw.id)) then old(raw.id) else Some(ToDecimal(draw)))
      ensures raw.topics == old(raw.topics) && raw.topicsV2 == old(raw.topicsV2)
      ensures raw.legacyId == old(raw.legacyId) && raw.rooms == old(raw.rooms)
      ensures wsx.sockets == old(wsx.sockets)[raw.id.value := raw.wrapper]
      ensures wsx.router == old(wsx.router) && wsx.events == old(wsx.events)
    {
      var socket := WsxSocket.Reuse(raw, draw);
      wsx.sockets := wsx.sockets[socket.Id().value := socket];
    }

    /** The topics a raw socket's data lists, none when the slot is empty. */
    ghost function RoomsOf(raw: RawSocket): set<Topic>
      reads raw
    {
      if raw.topics.None? then {} else raw.topics.value
    }

    /**
     * `close(raw)` as written: deletes the id from the registry and calls
     * `[remove]` on each of the socket's topics with the RAW handle. Topics
     * hold wrappers, so no member is removed; only topics that were already
     * empty lose their key.
     */
    method Close(raw: RawSocket)
      modifies wsx, RoomsOf(raw), BroadcastsOf(RoomsOf(raw))
      ensures wsx.sockets == if old(raw.id).None? then old(wsx.sockets) else old(wsx.sockets) - {old(raw.id).value}
      ensures forall t :: t in old(RoomsOf(raw)) ==> t.sockets == old(t.sockets)
      ensures forall b :: b in old(BroadcastsOf(RoomsOf(raw))) ==> b.topics == old(b.topics) - old(Emptied(RoomsOf(raw), b))
      ensures wsx.router == old(wsx.router) && wsx.events == old(wsx.events)
    {
      if raw.id.Some? {
        wsx.sockets := wsx.sockets - {raw.id.value};
      }
      var rooms := if raw.topics.None? then {} else raw.topics.value;
      LeaveAll(rooms, raw);
      forall t | t in rooms
        ensures t.sockets == old(t.sockets)
      {
        RawIsNeverMember(old(t.sockets), raw);
      }
    }

    /**
     * `close(raw)` as evidently intended: the socket's wrapper leaves each
     * of its topics, and every topic it leaves empty is unregistered.
     */
    method CloseCorrected(raw: RawSocket, draw: nat)
      requires raw.Valid() && draw < 0x1_0000_0000
      modifies wsx, raw, RoomsOf(raw), BroadcastsOf(RoomsOf(raw))
      ensures raw.Valid() && raw.wrapper != null
      ensures old(raw.wrapper) != null ==> raw.wrapper == old(raw.wrapper) && raw.id == old(raw.id)
      ensures old(raw.wrapper) == null ==>
        fresh(raw.wrapper) && raw.id == (if HasId(old(raw.id)) then old(raw.id) else Some(ToDecimal(draw)))
      ensures raw.topics == old(raw.topics) && raw.topicsV2 == old(raw.topicsV2)
      ensures raw.legacyId == old(raw.legacyId) && raw.rooms == old(raw.rooms)
      ensures wsx.sockets == old(wsx.sockets) - {raw.id.value}
      ensures forall t :: t in old(RoomsOf(raw)) ==> t.sockets == old(t.sockets) - {raw.wrapper}
      ensures forall t :: t in old(RoomsOf(raw)) ==> raw.wrapper !in t.sockets
      ensures forall b :: b in old(BroadcastsOf(RoomsOf(raw))) ==> b.topics == old(b.topics) - Emptied(old(RoomsOf(raw)), b)
      ensures wsx.router == old(wsx.router) && wsx.events == old(wsx.events)
    {
      var rooms := if raw.topics.None? then {} else raw.topics.value;
      var socket := WsxSocket.Reuse(raw, draw);
      wsx.sockets := wsx.sockets - {socket.Id().value};
      LeaveAll(rooms, socket);
    }

    /** One hook loop, run against the oracles. */
    method RunHookList(stage: Stage, hooks: seq<Hook>, body: Option<Json>, o: Oracles) returns (r: HookRun)
      ensures r == RunHooks(stage, hooks, body, o)
    {
      var calls: seq<Call> := [];
      var i := 0;
      while i < |hooks|
        invariant 0 <= i <= |hooks|
        invariant RunHooks(stage, hooks, body, o) == Then(calls, RunHooks(stage, hooks[i..], body, o))
      {
        var c := CallOf(stage, hooks[i], body);
        RunHooksUnfold(stage, hooks[i..], body, o);
        assert hooks[i..][1..] == hooks[i + 1..];
        ThenAssoc(calls, [c], RunHooks(stage, hooks[i + 1..], body, o));
        calls := calls + [c];
        if o.run(c).Threw? {
          return HookRun(calls, Some(o.run(c).error));
        }
        i := i + 1;
      }
      assert calls + [] == calls;
      return HookRun(calls, None);
    }

    /** `handleError(route, ws, error, type, id)`. */
    method HandleErrorAt(hooks: Hooks, ws: WsxSocket, error: Json, code: int, id: Option<Json>, o: Oracles, wire: Wire)
        returns (run: Run)
      modifies wire
      ensures run == HandleError(hooks, id, error, code, o)
      ensures wire.log == old(wire.log) + Sends(ws.raw, run.sent)
    {
      var er := RunHookList(OnError(error), hooks.onError, None, o);
      if er.thrown.Some? {
        return Run(er.calls, [], Rejected);
      }
      var frame := ErrorArray(code, id, ErrorMessage(error), ErrorObject(error));
      ws.Send(Js(JArr(frame)), wire);
      return Run(er.calls, [frame], Finished);
    }

    /** The steps of `message` once the route is known: first the onRequest hooks. */
    method ServeRoute(route: RouteView, ws: WsxSocket, isEmit: bool, id: Option<Json>, body: Option<Json>,
                      o: Oracles, wire: Wire) returns (run: Run)
      modifies wire
      ensures run == Serve(route, isEmit, id, body, o)
      ensures wire.log == old(wire.log) + Sends(ws.raw, run.sent)
    {
      var req := RunHookList(OnRequest, route.hooks.onRequest, body, o);
      if req.thrown.Some? {
        var er := HandleErrorAt(route.hooks, ws, req.thrown.value, FailType, id, o, wire);
        return After(req.calls, er);
      }
      run := CheckBody(route, ws, isEmit, id, body, o, wire, req.calls);
    }

    /** The body schema, when the route has one. */
    method CheckBody(route: RouteView, ws: WsxSocket, isEmit: bool, id: Option<Json>, body: Option<Json>,
                     o: Oracles, wire: Wire, calls: seq<Call>) returns (run: Run)
      modifies wire
      ensures run == AfterRequestHooks(route, isEmit, id, body, o, calls)
      ensures wire.log == old(wire.log) + Sends(ws.raw, run.sent)
    {
      if route.body.None? {
        run := HandleRoute(route, ws, isEmit, id, body, o, wire, calls);
        return;
      }
      var v := o.validate(route.body.value, body);
      var calls' := calls + [Validate(route.body.value, body)];
      if v.Passed? {
        run := HandleRoute(route, ws, isEmit, id, body, o, wire, calls');
        return;
      }
      if isEmit {
        return Run(calls', [], Finished);
      }
      var frame := ErrorArray(FailType, id, "Validation failed", v.issues);
      ws.Send(Js(JArr(frame)), wire);
      return Run(calls', [frame], Finished);
    }

    /** The onHandle hooks. */
    method HandleRoute(route: RouteView, ws: WsxSocket, isEmit: bool, id: Option<Json>, body: Option<Json>,
                       o: Oracles, wire: Wire, calls: seq<Call>) returns (run: Run)
      modifies wire
      ensures run == AfterValidation(route, isEmit, id, body, o, calls)
      ensures wire.log == old(wire.log) + Sends(ws.raw, run.sent)
    {
      var hd := RunHookList(OnHandle, route.hooks.onHandle, body, o);
      if hd.thrown.Some? {
        var er := HandleErrorAt(route.hooks, ws, hd.thrown.value, FailType, id, o, wire);
        return After(calls + hd.calls, er);
      }
      run := RespondRoute(route, ws, isEmit, id, body, o, wire, calls + hd.calls);
    }

    /** The handler, then for a request the onResponse hooks and the success frame. */
    method RespondRoute(route: RouteView, ws: WsxSocket, isEmit: bool, id: Option<Json>, body: Option<Json>,
                        o: Oracles, wire: Wire, calls: seq<Call>) returns (run: Run)
      modifies wire
      ensures run == AfterHandleHooks(route, isEmit, id, body, o, calls)
      ensures wire.log == old(wire.log) + Sends(ws.raw, run.sent)
    {
      var call := RunHandler(route.handler, body);
      var outcome := o.run(call);
      if outcome.Threw? {
        var er := HandleErrorAt(route.hooks, ws, outcome.error, ErrorType, id, o, wire);
        return After(calls + [call], er);
      }
      if isEmit {
        return Run(calls + [call], [], Finished);
      }
      var rs := RunHookList(OnResponse(outcome.value), route.hooks.onResponse, body, o);
      if rs.thrown.Some? {
        return Run(calls + [call] + rs.calls, [], Rejected);
      }
      var frame := SuccessArray(id, outcome.value);
      ws.Send(Js(JArr(frame)), wire);
      return Run(calls + [call] + rs.calls, [frame], Finished);
    }

    /**
     * `message(raw, text)`, given the parsed array `action`: an emit or a
     * request is dispatched as `Dispatch` says, every frame going back to
     * this socket; a response settles the resolver of its id; any other
     * frame does nothing.
     */
    method Message(raw: RawSocket, action: seq<Json>, draw: nat, o: Oracles, wire: Wire) returns (run: Run)
      requires raw.Valid() && draw < 0x1_0000_0000 && wsx.store.Valid()
      modifies raw, wire, wsx.store.resolvers.Values
      ensures raw.Valid() && raw.wrapper != null
      ensures old(raw.wrapper) != null ==> raw.wrapper == old(raw.wrapper) && raw.id == old(raw.id)
      ensures old(raw.wrapper) == null ==>
        fresh(raw.wrapper) && raw.id == (if HasId(old(raw.id)) then old(raw.id) else Some(ToDecimal(draw)))
      ensures raw.topics == old(raw.topics) && raw.topicsV2 == old(raw.topicsV2)
      ensures raw.legacyId == old(raw.legacyId) && raw.rooms == old(raw.rooms)
      ensures run == Dispatch(action, Views(wsx.router), o)
      ensures wire.log == old(wire.log) + Sends(raw, run.sent)
      ensures forall n :: n in wsx.store.resolvers ==>
        wsx.store.resolvers[n].state ==
          if IsRpcResponse(action) && At(action, 1) == Some(JNum(n)) && old(wsx.store.resolvers[n].state).Unsettled?
          then Resolved(At(action, 2))
          else old(wsx.store.resolvers[n].state)
    {
      var ws := WsxSocket.Reuse(raw, draw);
      if !IsEmitAction(action) && !IsRequestAction(action) {
        if IsRpcResponse(action) {
          Settle(action);
        }
        return Run([], [], Finished);
      }
      run := Receive(ws, action, o, wire);
    }

    /** The emit and request branch of `message`, once the socket's wrapper is known. */
    method Receive(ws: WsxSocket, action: seq<Json>, o: Oracles, wire: Wire) returns (run: Run)
      requires IsEmitAction(action) || IsRequestAction(action)
      modifies wire
      ensures run == Dispatch(action, Views(wsx.router), o)
      ensures wire.log == old(wire.log) + Sends(ws.raw, run.sent)
    {
      var isEmit := At(action, 0) == Some(JNum(EmitType));
      var id := IdOfAction(action);
      var path := PathOfAction(action);
      var body := BodyOfAction(action);
      var route := Lookup(Views(wsx.router), path);
      if route.None? {
        if !isEmit {
          var frame := ErrorArray(FailType, id, "Route not found", PathObject(path));
          ws.Send(Js(JArr(frame)), wire);
          return Run([], [frame], Finished);
        }
        return Run([], [], Finished);
      }
      run := ServeRoute(route.value, ws, isEmit, id, body, o, wire);
    }

    /**
     * `message(raw, text)` for a response frame: settles the resolver stored
     * under its id, if there is one (it stays in the store); nothing is sent.
     */
    method Settle(action: seq<Json>)
      requires IsRpcResponse(action) && wsx.store.Valid()
      modifies wsx.store.resolvers.Values
      ensures forall n :: n in wsx.store.resolvers ==>
        wsx.store.resolvers[n].state ==
          if At(action, 1) == Some(JNum(n)) && old(wsx.store.resolvers[n].state).Unsettled?
          then Resolved(At(action, 2))
          else old(wsx.store.resolvers[n].state)
    {
      var id := At(action, 1);
      if id.Some? && id.value.JNum? && id.value.n in wsx.store.resolvers {
        wsx.store.resolvers[id.value.n].Resolve(At(action, 2));
      }
    }
  }

  /**
   * A socket that joined a topic and then closes is still a member after
   * `close` as written: the raw handle it passes is never in the member
   * set, so the topic keeps publishing to the closed socket and is never
   * unregistered.
   */
  method CloseKeepsSubscriber() returns (kept: bool)
    ensures kept
  {
    var wsx := new Wsx(None);
    var handler := new WsxHandler(wsx);
    var raw := new RawSocket.Upgraded();
    handler.Open(raw, 7);
    var socket := raw.wrapper;
    var broadcast := new Broadcast();
    var topic := broadcast.GetTopic("room");
    topic.Subscribe(socket);
    assert handler.RoomsOf(raw) == {topic};
    assert BroadcastsOf({topic}) == {broadcast};
    handler.Close(raw);
    kept := socket in topic.sockets && "room" in broadcast.topics;
  }

  /** With the corrected `close`, the same socket leaves, and the topic left empty is unregistered. */
  method CloseCorrectedLeaves() returns (left: bool)
    ensures left
  {
    var wsx := new Wsx(None);
    var handler := new WsxHandler(wsx);
    var raw := new RawSocket.Upgraded();
    handler.Open(raw, 7);
    var socket := raw.wrapper;
    var broadcast := new Broadcast();
    var topic := broadcast.GetTopic("room");
    topic.Subscribe(socket);
    assert handler.RoomsOf(raw) == {topic};
    assert BroadcastsOf({topic}) == {broadcast};
    handler.CloseCorrected(raw, 7);
    assert topic.sockets == {};
    assert Emptied({topic}, broadcast) == {"room"};
    left := socket !in topic.sockets && "room" !in broadcast.topics;
  }
}
