/** Classification of inbound JSON-RPC 2.0 messages and normalisation of request ids
    (backend/src/rpc/protocol.rs). Sections cited are those of the JSON-RPC 2.0 specification. */
module Protocol {
  import opened Json

  const TWO_TO_THE_63: int := 0x8000_0000_0000_0000
  const TWO_TO_THE_64: int := 0x1_0000_0000_0000_0000

  datatype RpcId = StringId(text: string) | NumberId(number: Number) | NullId

  datatype ErrorCode =
    | ParseError | InvalidRequest | MethodNotFound | Unauthorized | PayloadTooLarge | Unavailable
    | Overloaded | DispatcherInternal | OtherCode(code: int)

  datatype Outcome = Success(result: Value) | Failure(error: ErrorCode)
  datatype RpcResponse = RpcResponse(id: RpcId, outcome: Outcome)

  /** `id == None` is a notification; `Some(NullId)` is a request that needs a reply. */
  datatype RpcCall = RpcCall(id: Option<RpcId>, name: string, params: Option<Value>)
  datatype RpcItem = Call(call: RpcCall) | Invalid(response: RpcResponse) | PeerResponse
  datatype RpcMessage = Single(item: RpcItem) | Batch(items: seq<RpcItem>)
  datatype Parsed = Message(message: RpcMessage) | Rejected(response: RpcResponse)

  const INVALID_REQUEST := RpcResponse(NullId, Failure(InvalidRequest))

  // ---------------------------------------------------------------- request ids

  /** The range a parsed number can take: u64, negative i64, or any finite float. */
  predicate Representable(n: Number)
  {
    match n
    case PosInt(k) => k < TWO_TO_THE_64
    case NegInt(i) => -TWO_TO_THE_63 <= i < 0
    case Float(_) => true
  }

  function ValueOf(n: Number): real
  {
    match n
    case PosInt(k) => k as real
    case NegInt(i) => i as real
    case Float(x) => x
  }

  predicate Integral(x: real) { x.Floor as real == x }

  function FromInteger(i: int): Number { if i >= 0 then PosInt(i) else NegInt(i) }

  /** Integral floats in the i64 range, then in the u64 range, become integers; every other
      number keeps its spelling. */
  function Normalise(n: Number): Number
  {
    if !n.Float? then n
    else if Integral(n.x) && -TWO_TO_THE_63 as real <= n.x < TWO_TO_THE_63 as real then
      FromInteger(n.x.Floor)
    else if Integral(n.x) && 0.0 <= n.x < TWO_TO_THE_64 as real then PosInt(n.x.Floor)
    else n
  }

  function FromValue(v: Value): Option<RpcId>
  {
    match v
    case JNull => Some(NullId)
    case JString(s) => Some(StringId(s))
    case JNumber(n) => Some(NumberId(Normalise(n)))
    case _ => None
  }

  function IdToValue(id: RpcId): Value
  {
    match id
    case StringId(s) => JString(s)
    case NumberId(n) => JNumber(n)
    case NullId => JNull
  }

  /** Two numeric ids are the same id exactly when they denote the same value: `1` and `1.0`
      cannot be outstanding together, and distinct values never collide. */
  lemma NumericIdsAgreeExactlyOnValue(a: Number, b: Number)
    requires Representable(a) && Representable(b)
    ensures FromValue(JNumber(a)) == FromValue(JNumber(b)) <==> ValueOf(a) == ValueOf(b)
  {
  }

  /** An id echoed in a response and read back is the id the session tracks. */
  lemma EchoedIdIsRecognised(v: Value)
    requires v.JNumber? ==> Representable(v.number)
    ensures var id := FromValue(v);
            id.Some? ==> FromValue(IdToValue(id.value)) == id
  {
  }

  // ---------------------------------------------------------------- messages

  function ParseItem(v: Value): RpcItem
  {
    if !v.JObject? then Invalid(INVALID_REQUEST)
    else if "method" !in v.fields && ("result" in v.fields || "error" in v.fields) then PeerResponse
    else if Get(v, "jsonrpc") != Some(JString("2.0")) then Invalid(INVALID_REQUEST)
    else match Get(v, "method")
      case Some(JString(name)) =>
        (match Get(v, "id")
         case None => Call(RpcCall(None, name, Get(v, "params")))
         case Some(idValue) =>
           match FromValue(idValue)
           case Some(id) => Call(RpcCall(Some(id), name, Get(v, "params")))
           case None => Invalid(INVALID_REQUEST))
      case _ => Invalid(INVALID_REQUEST)
  }

  /** `document == None` is text that is not JSON. */
  function ParseMessage(document: Option<Value>, maxBatchItems: nat): Parsed
  {
    match document
    case None => Rejected(RpcResponse(NullId, Failure(ParseError)))
    case Some(JArray(items)) =>
      if items == [] || |items| > maxBatchItems then Rejected(INVALID_REQUEST)
      else Message(Batch(seq(|items|, i requires 0 <= i < |items| => ParseItem(items[i]))))
    case Some(v) => Message(Single(ParseItem(v)))
  }

  /** Section 4: a Request object carries "2.0", a string method and, if present, an id that is
      a string, a number or null. */
  ghost predicate IsRequestObject(v: Value)
  {
    && Get(v, "jsonrpc") == Some(JString("2.0"))
    && (exists name :: Get(v, "method") == Some(JString(name)))
    && (var id := Get(v, "id");
        id.Some? ==> id.value.JNull? || id.value.JString? || id.value.JNumber?)
  }

  /** Section 5: a Response object carries a result or an error and no method. */
  predicate IsResponseObject(v: Value)
  {
    v.JObject? && "method" !in v.fields && ("result" in v.fields || "error" in v.fields)
  }

  /** Every value falls in exactly one class, and only ill-formed ones are answered as invalid. */
  lemma ItemClasses(v: Value)
    ensures ParseItem(v).Call? <==> IsRequestObject(v)
    ensures ParseItem(v).PeerResponse? <==> IsResponseObject(v)
    ensures ParseItem(v).Invalid? ==> ParseItem(v).response == INVALID_REQUEST
    ensures !(IsRequestObject(v) && IsResponseObject(v))
  {
  }

  function EncodeCall(c: RpcCall): Value
  {
    var base := map["jsonrpc" := JString("2.0"), "method" := JString(c.name)];
    var withId := if c.id.Some? then base["id" := IdToValue(c.id.value)] else base;
    JObject(if c.params.Some? then withId["params" := c.params.value] else withId)
  }

  function EncodeError(code: ErrorCode): Value
  {
    JObject(map["code" := JNumber(FromInteger(match code
      case ParseError => -32700 case InvalidRequest => -32600 case MethodNotFound => -32601
      case DispatcherInternal => -32603 case Unauthorized => 1001 case PayloadTooLarge => 1013
      case Unavailable => 1503 case Overloaded => 1429 case OtherCode(n) => n))])
  }

  function EncodeResponse(r: RpcResponse): Value
  {
    var base := map["jsonrpc" := JString("2.0"), "id" := IdToValue(r.id)];
    match r.outcome
    case Success(result) => JObject(base["result" := result])
    case Failure(error) => JObject(base["error" := EncodeError(error)])
  }

  /** An encoded call parses back to itself: a notification stays a notification (section 4.1),
      a null id stays a request, and the id is the one that will be tracked. */
  lemma CallRoundTrip(c: RpcCall)
    requires c.id.Some? ==> FromValue(IdToValue(c.id.value)) == c.id
    ensures ParseItem(EncodeCall(c)) == Call(c)
  {
  }

  /** Whatever a session emits is never answered by a peer running the same engine, singly or in
      a batch of responses. */
  lemma OwnRepliesAreNeverAnswered(rs: seq<RpcResponse>, max: nat)
    requires 0 < |rs| <= max
    ensures ParseItem(EncodeResponse(rs[0])) == PeerResponse
    ensures var p := ParseMessage(Some(JArray(seq(|rs|, i requires 0 <= i < |rs| => EncodeResponse(rs[i])))), max);
            p.Message? && p.message.Batch? && |p.message.items| == |rs| &&
            forall i :: 0 <= i < |rs| ==> p.message.items[i] == PeerResponse
  {
  }
}
