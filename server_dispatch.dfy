/**
 * Properties of how the server answers one emit or request frame, stated
 * over `Server.Dispatch` for every route table and every behaviour of the
 * user code: the order of the stages, which stage can stop the others, and
 * the frames that come back.
 */
module Dispatching {
  import opened Wrappers
  import opened Proto
  import opened LifeCycle
  import opened Server

  /** Every hook of the list returns when called at this stage. */
  ghost predicate AllReturn(stage: Stage, hooks: seq<Hook>, body: Option<Json>, o: Oracles)
  {
    forall i :: 0 <= i < |hooks| ==> o.run(CallOf(stage, hooks[i], body)).Returned?
  }

  /** Hook loops call only hooks: never a handler, never a validator. */
  lemma HooksCallOnlyHooks(stage: Stage, hooks: seq<Hook>, body: Option<Json>, o: Oracles)
    ensures forall c :: c in RunHooks(stage, hooks, body, o).calls ==> !c.RunHandler? && !c.Validate?
    ensures stage.OnError? ==> forall c :: c in RunHooks(stage, hooks, body, o).calls ==> c.ErrorHook?
    ensures !stage.OnError? ==> forall c :: c in RunHooks(stage, hooks, body, o).calls ==> !c.ErrorHook?
  {
    RunHooksInOrder(stage, hooks, body, o);
  }

  /** The route a dispatched frame names, when it names one. */
  function RouteOf(action: seq<Json>, routes: map<string, RouteView>): Option<RouteView>
  {
    Lookup(routes, PathOfAction(action))
  }

  /**
   * An unknown path calls no user code; a request gets one fail frame
   * carrying the path, an emit gets nothing.
   */
  lemma RouteNotFound(action: seq<Json>, routes: map<string, RouteView>, o: Oracles)
    requires IsEmitAction(action) || IsRequestAction(action)
    requires RouteOf(action, routes).None?
    ensures var r := Dispatch(action, routes, o);
      && r.calls == [] && r.ending == Finished
      && r.sent == if IsEmitAction(action) then []
                   else [[JNum(FailType), InArray(At(action, 1)), JStr("Route not found"), PathObject(At(action, 2))]]
  {
  }

  /**
   * The handler runs only for a known route, on the frame's own body, once
   * every onRequest hook has returned, the body schema (if any) has passed
   * and every onHandle hook has returned.
   */
  lemma HandlerRunsAfterChecks(action: seq<Json>, routes: map<string, RouteView>, o: Oracles, h: Handler, b: Option<Json>)
    requires RunHandler(h, b) in Dispatch(action, routes, o).calls
    ensures IsEmitAction(action) || IsRequestAction(action)
    ensures RouteOf(action, routes).Some?
    ensures var route := RouteOf(action, routes).value;
      && h == route.handler && b == BodyOfAction(action)
      && AllReturn(OnRequest, route.hooks.onRequest, b, o)
      && (route.body.Some? ==> o.validate(route.body.value, b).Passed?)
      && AllReturn(OnHandle, route.hooks.onHandle, b, o)
  {
    var route := RouteOf(action, routes).value;
    var body := BodyOfAction(action);
    var req := RunHooks(OnRequest, route.hooks.onRequest, body, o);
    HooksCallOnlyHooks(OnRequest, route.hooks.onRequest, body, o);
    RunHooksAllReturn(OnRequest, route.hooks.onRequest, body, o);
    if req.thrown.Some? {
      var e := req.thrown.value;
      HooksCallOnlyHooks(OnError(e), route.hooks.onError, None, o);
      assert false;
    }
    HandlerInAfterRequest(route, IsEmitAction(action), IdOfAction(action), body, o, req.calls, h, b);
  }

  /** The handler call past the onRequest hooks: the schema passed and the onHandle hooks returned. */
  lemma HandlerInAfterRequest(route: RouteView, isEmit: bool, id: Option<Json>, body: Option<Json>, o: Oracles,
                              calls: seq<Call>, h: Handler, b: Option<Json>)
    requires RunHandler(h, b) in AfterRequestHooks(route, isEmit, id, body, o, calls).calls
    requires RunHandler(h, b) !in calls
    ensures h == route.handler && b == body
    ensures route.body.Some? ==> o.validate(route.body.value, body).Passed?
    ensures AllReturn(OnHandle, route.hooks.onHandle, body, o)
  {
    var calls' := if route.body.None? then calls else calls + [Validate(route.body.value, body)];
    assert RunHandler(h, b) !in calls';
    HandlerInAfterValidation(route, isEmit, id, body, o, calls', h, b);
  }

  /** The handler call past validation: the onHandle hooks all returned. */
  lemma HandlerInAfterValidation(route: RouteView, isEmit: bool, id: Option<Json>, body: Option<Json>, o: Oracles,
                                 calls: seq<Call>, h: Handler, b: Option<Json>)
    requires RunHandler(h, b) in AfterValidation(route, isEmit, id, body, o, calls).calls
    requires RunHandler(h, b) !in calls
    ensures h == route.handler && b == body
    ensures AllReturn(OnHandle, route.hooks.onHandle, body, o)
  {
    var hd := RunHooks(OnHandle, route.hooks.onHandle, body, o);
    HooksCallOnlyHooks(OnHandle, route.hooks.onHandle, body, o);
    RunHooksAllReturn(OnHandle, route.hooks.onHandle, body, o);
    if hd.thrown.Some? {
      var e := hd.thrown.value;
      HooksCallOnlyHooks(OnError(e), route.hooks.onError, None, o);
      assert false;
    }
    HandlerInAfterHandle(route, isEmit, id, body, o, calls + hd.calls, h, b);
  }

  /** The handler call past the onHandle hooks is the route's own, on the frame's body. */
  lemma HandlerInAfterHandle(route: RouteView, isEmit: bool, id: Option<Json>, body: Option<Json>, o: Oracles,
                             calls: seq<Call>, h: Handler, b: Option<Json>)
    requires RunHandler(h, b) in AfterHandleHooks(route, isEmit, id, body, o, calls).calls
    requires RunHandler(h, b) !in calls
    ensures h == route.handler && b == body
  {
    var call := RunHandler(route.handler, body);
    match o.run(call)
    case Threw(e) =>
      HooksCallOnlyHooks(OnError(e), route.hooks.onError, None, o);
    case Returned(v) =>
      HooksCallOnlyHooks(OnResponse(v), route.hooks.onResponse, body, o);
  }

  /**
   * A body the schema rejects stops the frame before the onHandle hooks
   * and the handler, and no onError hook runs; a request gets one fail
   * frame carrying the issues, an emit gets nothing.
   */
  lemma ValidationStops(action: seq<Json>, routes: map<string, RouteView>, o: Oracles)
    requires IsEmitAction(action) || IsRequestAction(action)
    requires RouteOf(action, routes).Some?
    requires var route := RouteOf(action, routes).value;
      && AllReturn(OnRequest, route.hooks.onRequest, BodyOfAction(action), o)
      && route.body.Some? && o.validate(route.body.value, BodyOfAction(action)).Issues?
    ensures var route := RouteOf(action, routes).value;
      var r := Dispatch(action, routes, o);
      && r.ending == Finished
      && (forall c :: c in r.calls ==> !c.RunHandler? && !c.HandleHook? && !c.ErrorHook?)
      && r.sent == if IsEmitAction(action) then []
                   else [ErrorArray(FailType, IdOfAction(action), "Validation failed",
                                    o.validate(route.body.value, BodyOfAction(action)).issues)]
  {
    var route := RouteOf(action, routes).value;
    var body := BodyOfAction(action);
    RunHooksAllReturn(OnRequest, route.hooks.onRequest, body, o);
    HooksCallOnlyHooks(OnRequest, route.hooks.onRequest, body, o);
    RunHooksInOrder(OnRequest, route.hooks.onRequest, body, o);
  }

  /**
   * When every stage goes through, a request is answered with one success
   * frame holding the handler's value, after calling every hook of the
   * three lists once, the validator at most once and the handler once.
   */
  lemma RequestSucceeds(action: seq<Json>, routes: map<string, RouteView>, o: Oracles, v: Option<Json>)
    requires IsRequestAction(action)
    requires RouteOf(action, routes).Some?
    requires var route := RouteOf(action, routes).value;
      var body := BodyOfAction(action);
      && AllReturn(OnRequest, route.hooks.onRequest, body, o)
      && (route.body.Some? ==> o.validate(route.body.value, body).Passed?)
      && AllReturn(OnHandle, route.hooks.onHandle, body, o)
      && o.run(RunHandler(route.handler, body)) == Returned(v)
      && AllReturn(OnResponse(v), route.hooks.onResponse, body, o)
    ensures var route := RouteOf(action, routes).value;
      var r := Dispatch(action, routes, o);
      && r.ending == Finished
      && r.sent == [SuccessArray(At(action, 1), v)]
      && RunHandler(route.handler, BodyOfAction(action)) in r.calls
      && |r.calls| == |route.hooks.onRequest| + (if route.body.Some? then 1 else 0)
                      + |route.hooks.onHandle| + 1 + |route.hooks.onResponse|
  {
    var route := RouteOf(action, routes).value;
    var body := BodyOfAction(action);
    RunHooksAllReturn(OnRequest, route.hooks.onRequest, body, o);
    RunHooksAllReturn(OnHandle, route.hooks.onHandle, body, o);
    RunHooksAllReturn(OnResponse(v), route.hooks.onResponse, body, o);
  }

  /**
   * A hook of onRequest or onHandle that throws stops the frame before the
   * handler; once the onError hooks have all returned, one fail frame goes
   * back, carrying the error's message — for an emit too, with a null id.
   */
  lemma HookThrowFails(action: seq<Json>, routes: map<string, RouteView>, o: Oracles, e: Json)
    requires IsEmitAction(action) || IsRequestAction(action)
    requires RouteOf(action, routes).Some?
    requires var route := RouteOf(action, routes).value;
      var body := BodyOfAction(action);
      var req := RunHooks(OnRequest, route.hooks.onRequest, body, o);
      var hd := RunHooks(OnHandle, route.hooks.onHandle, body, o);
      && (req.thrown == Some(e)
          || (&& req.thrown.None?
              && (route.body.Some? ==> o.validate(route.body.value, body).Passed?)
              && hd.thrown == Some(e)))
      && AllReturn(OnError(e), route.hooks.onError, None, o)
    ensures var r := Dispatch(action, routes, o);
      && r.ending == Finished
      && (forall c :: c in r.calls ==> !c.RunHandler?)
      && r.sent == [[JNum(FailType), InArray(IdOfAction(action)), JStr(ErrorMessage(e)), JObj(map["error" := e])]]
  {
    var route := RouteOf(action, routes).value;
    var body := BodyOfAction(action);
    RunHooksAllReturn(OnError(e), route.hooks.onError, None, o);
    HooksCallOnlyHooks(OnRequest, route.hooks.onRequest, body, o);
    HooksCallOnlyHooks(OnHandle, route.hooks.onHandle, body, o);
    HooksCallOnlyHooks(OnError(e), route.hooks.onError, None, o);
  }

  /**
   * A handler that throws is answered, once the onError hooks have all
   * returned, with one error frame (not a fail frame) — for an emit too.
   */
  lemma HandlerThrowErrs(action: seq<Json>, routes: map<string, RouteView>, o: Oracles, e: Json)
    requires IsEmitAction(action) || IsRequestAction(action)
    requires RouteOf(action, routes).Some?
    requires var route := RouteOf(action, routes).value;
      var body := BodyOfAction(action);
      && AllReturn(OnRequest, route.hooks.onRequest, body, o)
      && (route.body.Some? ==> o.validate(route.body.value, body).Passed?)
      && AllReturn(OnHandle, route.hooks.onHandle, body, o)
      && o.run(RunHandler(route.handler, body)) == Threw(e)
      && AllReturn(OnError(e), route.hooks.onError, None, o)
    ensures var r := Dispatch(action, routes, o);
      && r.ending == Finished
      && r.sent == [[JNum(ErrorType), InArray(IdOfAction(action)), JStr(ErrorMessage(e)), JObj(map["error" := e])]]
  {
    var route := RouteOf(action, routes).value;
    var body := BodyOfAction(action);
    RunHooksAllReturn(OnRequest, route.hooks.onRequest, body, o);
    RunHooksAllReturn(OnHandle, route.hooks.onHandle, body, o);
    RunHooksAllReturn(OnError(e), route.hooks.onError, None, o);
  }

  /**
   * What any dispatch sends back: at most one frame, shaped as a response
   * to the frame's id; nothing when it ends rejected (a throwing
   * onResponse or onError hook). A request is answered exactly when its
   * dispatch finishes; an emit only with a fail or error frame.
   */
  ghost predicate WellAnswered(r: Run, isEmit: bool, id: Option<Json>)
  {
    && |r.sent| <= 1
    && (r.ending == Rejected ==> r.sent == [])
    && (!isEmit ==> (|r.sent| == 1 <==> r.ending == Finished))
    && (forall f :: f in r.sent ==> IsAnswer(f, id))
    && (isEmit ==> forall f :: f in r.sent ==> |f| > 0 && f[0] != JNum(SuccessType))
  }

  predicate IsAnswer(f: seq<Json>, id: Option<Json>)
  {
    && |f| >= 3 && f[1] == InArray(id)
    && ((f[0] == JNum(SuccessType) && |f| == 3)
        || ((f[0] == JNum(FailType) || f[0] == JNum(ErrorType)) && |f| == 4 && f[2].JStr?))
  }

  /** Every emit or request is well answered; any other frame calls nothing and sends nothing. */
  lemma DispatchAnswered(action: seq<Json>, routes: map<string, RouteView>, o: Oracles)
    ensures IsEmitAction(action) || IsRequestAction(action) ==>
      WellAnswered(Dispatch(action, routes, o), IsEmitAction(action), IdOfAction(action))
    ensures !IsEmitAction(action) && !IsRequestAction(action) ==> Dispatch(action, routes, o) == Run([], [], Finished)
  {
    if IsEmitAction(action) || IsRequestAction(action) {
      var route := RouteOf(action, routes);
      if route.Some? {
        ServeAnswered(route.value, IsEmitAction(action), IdOfAction(action), BodyOfAction(action), o);
      }
    }
  }

  lemma ServeAnswered(route: RouteView, isEmit: bool, id: Option<Json>, body: Option<Json>, o: Oracles)
    ensures WellAnswered(Serve(route, isEmit, id, body, o), isEmit, id)
  {
    var req := RunHooks(OnRequest, route.hooks.onRequest, body, o);
    if req.thrown.Some? {
      HandleErrorAnswered(route.hooks, id, req.thrown.value, FailType, o, isEmit);
    } else {
      var calls := if route.body.None? then req.calls else req.calls + [Validate(route.body.value, body)];
      AfterValidationAnswered(route, isEmit, id, body, o, calls);
    }
  }

  lemma AfterValidationAnswered(route: RouteView, isEmit: bool, id: Option<Json>, body: Option<Json>, o: Oracles,
                                calls: seq<Call>)
    ensures WellAnswered(AfterValidation(route, isEmit, id, body, o, calls), isEmit, id)
  {
    var hd := RunHooks(OnHandle, route.hooks.onHandle, body, o);
    if hd.thrown.Some? {
      HandleErrorAnswered(route.hooks, id, hd.thrown.value, FailType, o, isEmit);
    } else {
      var call := RunHandler(route.handler, body);
      if o.run(call).Threw? {
        HandleErrorAnswered(route.hooks, id, o.run(call).error, ErrorType, o, isEmit);
      }
    }
  }

  lemma HandleErrorAnswered(hooks: Hooks, id: Option<Json>, e: Json, code: int, o: Oracles, isEmit: bool)
    requires code == FailType || code == ErrorType
    ensures WellAnswered(HandleError(hooks, id, e, code, o), isEmit, id)
  {
  }

  /**
   * An answer decodes as a response frame replying to the request's id, as
   * long as that id is a number (or absent, which reads back as no id).
   */
  lemma AnswerDecodes(f: seq<Json>, id: Option<Json>)
    requires IsAnswer(f, id)
    requires id.None? || id.value.JNum? || id.value.JNull?
    ensures Decode(f).Some? && Decode(f).value.IsResponse()
    ensures Decode(f).value.replyId == (if id.Some? && id.value.JNum? then Some(id.value.n) else None)
    ensures Encode(Decode(f).value) == f
  {
    EncodeDecode(f);
  }
}
