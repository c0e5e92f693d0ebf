/**
 * The wire protocol: every message is a JSON array whose first element is an
 * integer discriminant (emit 1, request 2, success 3, fail 4, error 5).
 * Frames are modelled as already-parsed JSON values; the positional arrays
 * are `seq<Json>`.
 */
module Proto {
  import opened Wrappers

  /** A parsed JSON value. Numbers are integers here (ids and codes are integers). */
  datatype Json =
    | JNull
    | JBool(b: bool)
    | JNum(n: int)
    | JStr(s: string)
    | JArr(items: seq<Json>)
    | JObj(fields: map<string, Json>)

  // `actionTypes`
  const EmitType: int := 1
  const RequestType: int := 2
  const SuccessType: int := 3
  const FailType: int := 4
  const ErrorType: int := 5

  /**
   * The five tuple shapes. A response carries the id of the request it
   * answers in `replyId`, which is `None` when the sender had no id
   * (JavaScript `undefined`, which JSON writes as null inside an array).
   */
  datatype Frame =
    | Emit(path: string, body: Json)
    | Request(id: int, path: string, body: Json)
    | Success(replyId: Option<int>, body: Json)
    | Fail(replyId: Option<int>, message: string, body: Json)
    | Error(replyId: Option<int>, message: string, body: Json, code: Option<int>)
  {
    predicate IsResponse() { Success? || Fail? || Error? }
  }

  /** `a[i]` on a parsed array: `None` is `undefined`, past the end. */
  function At(a: seq<Json>, i: nat): (v: Option<Json>)
    ensures v.Some? <==> i < |a|
    ensures v.Some? ==> v.value == a[i]
  {
    if i < |a| then Some(a[i]) else None
  }

  /** A value as `JSON.stringify` writes it inside an array: `undefined` becomes null. */
  function InArray(v: Option<Json>): (j: Json)
    ensures v.Some? ==> j == v.value
    ensures v.None? ==> j == JNull
  {
    if v.None? then JNull else v.value
  }

  /** The discriminant a frame carries in position 0. */
  function Discriminant(f: Frame): (d: int)
    ensures EmitType <= d <= ErrorType
    ensures d == EmitType <==> f.Emit?
    ensures d == RequestType <==> f.Request?
    ensures d == SuccessType <==> f.Success?
    ensures d == FailType <==> f.Fail?
    ensures d == ErrorType <==> f.Error?
  {
    match f
    case Emit(_, _) => EmitType
    case Request(_, _, _) => RequestType
    case Success(_, _) => SuccessType
    case Fail(_, _, _) => FailType
    case Error(_, _, _, _) => ErrorType
  }

  function IdJson(id: Option<int>): Json
  {
    match id
    case None => JNull
    case Some(n) => JNum(n)
  }

  function IdOf(j: Json): Option<Option<int>>
  {
    match j
    case JNull => Some(None)
    case JNum(n) => Some(Some(n))
    case _ => None
  }

  /** The positional array a frame is written as. */
  function Encode(f: Frame): (a: seq<Json>)
    ensures |a| >= 3 && a[0] == JNum(Discriminant(f))
  {
    match f
    case Emit(path, body) => [JNum(EmitType), JStr(path), body]
    case Request(id, path, body) => [JNum(RequestType), JNum(id), JStr(path), body]
    case Success(id, body) => [JNum(SuccessType), IdJson(id), body]
    case Fail(id, message, body) => [JNum(FailType), IdJson(id), JStr(message), body]
    case Error(id, message, body, code) =>
      [JNum(ErrorType), IdJson(id), JStr(message), body]
      + (match code case None => [] case Some(c) => [JNum(c)])
  }

  /** Reads a positional array back by the shape its discriminant names. */
  function Decode(a: seq<Json>): (r: Option<Frame>)
    ensures r.Some? ==> |a| >= 3 && a[0] == JNum(Discriminant(r.value))
  {
    if |a| < 3 || !a[0].JNum? then None
    else
      var t := a[0].n;
      if t == EmitType && |a| == 3 && a[1].JStr? then
        Some(Emit(a[1].s, a[2]))
      else if t == RequestType && |a| == 4 && a[1].JNum? && a[2].JStr? then
        Some(Request(a[1].n, a[2].s, a[3]))
      else if t == SuccessType && |a| == 3 && IdOf(a[1]).Some? then
        Some(Success(IdOf(a[1]).value, a[2]))
      else if t == FailType && |a| == 4 && IdOf(a[1]).Some? && a[2].JStr? then
        Some(Fail(IdOf(a[1]).value, a[2].s, a[3]))
      else if t == ErrorType && |a| == 4 && IdOf(a[1]).Some? && a[2].JStr? then
        Some(Error(IdOf(a[1]).value, a[2].s, a[3], None))
      else if t == ErrorType && |a| == 5 && IdOf(a[1]).Some? && a[2].JStr? && a[4].JNum? then
        Some(Error(IdOf(a[1]).value, a[2].s, a[3], Some(a[4].n)))
      else None
  }

  /** `isRpcResponse`: looks only at element 0. */
  predicate IsRpcResponse(a: seq<Json>)
  {
    |a| > 0 && (a[0] == JNum(SuccessType) || a[0] == JNum(FailType) || a[0] == JNum(ErrorType))
  }

  /** Decoding what was encoded gives back the frame, for all five shapes. */
  lemma DecodeEncode(f: Frame)
    ensures Decode(Encode(f)) == Some(f)
  {
    match f
    case Success(id, _) => assert IdOf(IdJson(id)) == Some(id);
    case Fail(id, _, _) => assert IdOf(IdJson(id)) == Some(id);
    case Error(id, _, _, code) => assert IdOf(IdJson(id)) == Some(id);
    case _ =>
  }

  /** The other direction: a decodable array is exactly the encoding of what it decodes to. */
  lemma EncodeDecode(a: seq<Json>)
    requires Decode(a).Some?
    ensures Encode(Decode(a).value) == a
  {
    var f := Decode(a).value;
    if f.IsResponse() {
      assert IdJson(IdOf(a[1]).value) == a[1];
      if f.Error? && f.code.Some? {
        assert a == [a[0], a[1], a[2], a[3]] + [a[4]];
      }
    }
  }

  /** A frame's encoding is a response exactly when the frame is success, fail or error. */
  lemma ResponseDiscriminants(f: Frame)
    ensures IsRpcResponse(Encode(f)) <==> f.IsResponse()
    ensures f.Emit? || f.Request? ==> !IsRpcResponse(Encode(f))
  {
  }
}
