/**
 * The two ends together: what the client's proxy sends is read by the
 * server's dispatch at the path and id it was sent with, and every answer
 * the server sends back decodes as a response to that id; a request the
 * server's proxy sends is answered by the client under the same id.
 */
module RoundTrip {
  import opened Wrappers
  import opened Proto
  import opened ProxyPath
  import opened Server
  import opened Dispatching
  import Client

  /**
   * A client `call` (or any method other than `emit`, `listen` and
   * `unlisten`) sends a request that the server reads with the client's id,
   * path and body; whatever the routes and the user code, each frame the
   * server answers with decodes as a response carrying that id.
   */
  lemma ClientRequestAnswered(paths: seq<string>, id: int, body: Client.Arg, routes: map<string, RouteView>, o: Oracles)
    requires var t := TargetOf("", paths);
      t.name != Some("emit") && t.name != Some("listen") && t.name != Some("unlisten")
    ensures var t := TargetOf("", paths);
      var f := Client.OutgoingFrame(t.name, id, t.path, body).value;
      && Decode(f) == Some(Request(id, t.path, Client.ArgInArray(body)))
      && IsRequestAction(f) && IdOfAction(f) == Some(JNum(id))
      && PathOfAction(f) == Some(JStr(t.path)) && BodyOfAction(f) == Some(Client.ArgInArray(body))
      && |Dispatch(f, routes, o).sent| <= 1
      && forall a :: a in Dispatch(f, routes, o).sent ==>
           Decode(a).Some? && Decode(a).value.IsResponse() && Decode(a).value.replyId == Some(id)
  {
    var t := TargetOf("", paths);
    var f := Client.OutgoingFrame(t.name, id, t.path, body).value;
    assert f == Encode(Request(id, t.path, Client.ArgInArray(body)));
    DecodeEncode(Request(id, t.path, Client.ArgInArray(body)));
    DispatchAnswered(f, routes, o);
    forall a | a in Dispatch(f, routes, o).sent
      ensures Decode(a).Some? && Decode(a).value.IsResponse() && Decode(a).value.replyId == Some(id)
    {
      AnswerDecodes(a, IdOfAction(f));
    }
  }

  /**
   * A client `emit` sends an event the server reads at the client's path
   * and body; the server never answers it with a success frame.
   */
  lemma ClientEmitUnanswered(paths: seq<string>, id: int, body: Client.Arg, routes: map<string, RouteView>, o: Oracles)
    requires TargetOf("", paths).name == Some("emit")
    ensures var t := TargetOf("", paths);
      var f := Client.OutgoingFrame(t.name, id, t.path, body).value;
      && Decode(f) == Some(Emit(t.path, Client.ArgInArray(body)))
      && IsEmitAction(f) && PathOfAction(f) == Some(JStr(t.path)) && BodyOfAction(f) == Some(Client.ArgInArray(body))
      && |Dispatch(f, routes, o).sent| <= 1
      && forall a :: a in Dispatch(f, routes, o).sent ==> Decode(a).Some? && (Decode(a).value.Fail? || Decode(a).value.Error?)
  {
    var t := TargetOf("", paths);
    var f := Client.OutgoingFrame(t.name, id, t.path, body).value;
    assert f == Encode(Emit(t.path, Client.ArgInArray(body)));
    DecodeEncode(Emit(t.path, Client.ArgInArray(body)));
    DispatchAnswered(f, routes, o);
    forall a | a in Dispatch(f, routes, o).sent
      ensures Decode(a).Some? && (Decode(a).value.Fail? || Decode(a).value.Error?)
    {
      AnswerDecodes(a, IdOfAction(f));
    }
  }

  /**
   * A request sent by the server's proxy is read by the client as a
   * request at that path and id, and the success frame the client answers
   * with is a response naming the same id — the key the server's resolver
   * is stored under.
   */
  lemma ServerRequestAnswered(id: int, path: string, body: Option<Json>, value: Option<Json>)
    ensures var a := Encode(Request(id, path, InArray(body)));
      var answer := [JNum(SuccessType), InArray(At(a, 1)), InArray(value)];
      && !IsRpcResponse(a) && At(a, 0) == Some(JNum(RequestType))
      && At(a, 1) == Some(JNum(id)) && At(a, 2) == Some(JStr(path)) && At(a, 3) == Some(InArray(body))
      && IsRpcResponse(answer) && At(answer, 1) == Some(JNum(id)) && At(answer, 2) == Some(InArray(value))
      && Decode(answer) == Some(Success(Some(id), InArray(value)))
  {
  }
}
