/**
 * Commands and responses as they cross the process boundary, at the level of
 * JSON trees.  Printing a tree and parsing it back keeps every tree, with one
 * exception that `FromDouble` carries: a number that is not finite (section 6
 * of RFC 8259) is printed as `null`.
 */
module Codec {
  import opened Options

  const UINT64 := 0x1_0000_0000_0000_0000

  datatype Double = Finite(r: real) | NonFinite

  datatype Value =
    | Number(d: Double)
    | Integer(i: int)
    | Str(s: string)
    | Boolean(b: bool)
    | Array(a: seq<Double>)

  type Params = map<string, Value>

  datatype Json =
    | JNull
    | JBool(b: bool)
    | JInt(i: int)
    | JFloat(r: real)
    | JString(s: string)
    | JArray(items: seq<Json>)
    | JObject(fields: map<string, Json>)

  datatype SerializedCommand = SerializedCommand(
    id: string,
    instrument: string,
    verb: string,
    params: Params,
    expectsResponse: bool,
    timeoutMs: int,
    syncToken: Option<nat>,
    isSyncBarrier: bool)

  datatype CommandResponse = CommandResponse(
    commandId: string,
    instrument: string,
    success: bool,
    errorCode: int,
    errorMessage: string,
    textResponse: string,
    returnValue: Option<Value>,
    hasLargeData: bool,
    bufferId: string,
    elementCount: nat,
    dataType: string)

  // ---- Scalars ------------------------------------------------------------

  function FromDouble(d: Double): Json {
    match d case Finite(r) => JFloat(r) case NonFinite => JNull
  }

  function EncodeValue(v: Value): Json {
    match v
    case Number(d) => FromDouble(d)
    case Integer(i) => JInt(i)
    case Str(s) => JString(s)
    case Boolean(b) => JBool(b)
    case Array(a) => JArray(seq(|a|, i requires 0 <= i < |a| => FromDouble(a[i])))
  }

  /** Conversion of a float to an integer truncates toward zero. */
  function Truncate(r: real): int {
    if r < 0.0 then -((-r).Floor) else r.Floor
  }

  lemma TruncateTowardZero(r: real)
    ensures r >= 0.0 ==> 0 <= Truncate(r) && Truncate(r) as real <= r < Truncate(r) as real + 1.0
    ensures r < 0.0 ==> Truncate(r) <= 0 && Truncate(r) as real - 1.0 < r <= Truncate(r) as real
  {
  }

  function AsDouble(j: Json): Result<Double> {
    match j
    case JFloat(r) => Success(Finite(r))
    case JInt(i) => Success(Finite(i as real))
    case _ => Failure
  }

  function AsInt(j: Json): Result<int> {
    match j
    case JInt(i) => Success(i)
    case JFloat(r) => Success(Truncate(r))
    case _ => Failure
  }

  function AsString(j: Json): Result<string> {
    match j case JString(s) => Success(s) case _ => Failure
  }

  function AsBool(j: Json): Result<bool> {
    match j case JBool(b) => Success(b) case _ => Failure
  }

  function AsDoubles(items: seq<Json>): Result<seq<Double>> {
    if items == [] then Success([])
    else
      var front :- AsDoubles(items[..|items| - 1]);
      var last :- AsDouble(items[|items| - 1]);
      Success(front + [last])
  }

  function AsArray(j: Json): Result<seq<Double>> {
    match j case JArray(items) => AsDoubles(items) case _ => Failure
  }

  /** `Success(None)`: the decoder skips a member of any other kind. */
  function DecodeValue(j: Json): Result<Option<Value>> {
    match j
    case JFloat(r) => Success(Some(Number(Finite(r))))
    case JInt(i) => Success(Some(Integer(i)))
    case JString(s) => Success(Some(Str(s)))
    case JBool(b) => Success(Some(Boolean(b)))
    case JArray(items) => var a :- AsDoubles(items); Success(Some(Array(a)))
    case _ => Success(None)
  }

  /** Every number in the value is finite. */
  predicate AllFinite(v: Value) {
    match v
    case Number(d) => d.Finite?
    case Array(a) => forall i :: 0 <= i < |a| ==> a[i].Finite?
    case _ => true
  }

  lemma {:induction false} DoublesRoundTrip(a: seq<Double>)
    ensures
      var j := EncodeValue(Array(a));
      AsDoubles(j.items) == if AllFinite(Array(a)) then Success(a) else Failure
  {
    if a != [] {
      var n := |a|;
      var j, jFront := EncodeValue(Array(a)), EncodeValue(Array(a[..n - 1]));
      DoublesRoundTrip(a[..n - 1]);
      assert j.items[..n - 1] == jFront.items;
      assert a == a[..n - 1] + [a[n - 1]];
      if !AllFinite(Array(a[..n - 1])) {
        var i :| 0 <= i < n - 1 && !a[..n - 1][i].Finite?;
        assert !a[i].Finite?;
      }
    }
  }

  /** What one parameter value looks like to the receiver. */
  lemma ValueRoundTrip(v: Value)
    ensures DecodeValue(EncodeValue(v)) ==
            if AllFinite(v) then Success(Some(v))
            else if v.Array? then Failure
            else Success(None)
  {
    if v.Array? { DoublesRoundTrip(v.a); }
  }

  // ---- Commands -----------------------------------------------------------

  function EncodeParams(params: Params): map<string, Json> {
    map k | k in params :: EncodeValue(params[k])
  }

  function CommandFields(c: SerializedCommand): map<string, Json> {
    map["id" := JString(c.id),
        "instrument_name" := JString(c.instrument),
        "verb" := JString(c.verb),
        "expects_response" := JBool(c.expectsResponse),
        "timeout_ms" := JInt(c.timeoutMs),
        "params" := JObject(EncodeParams(c.params))]
  }

  function EncodeCommand(c: SerializedCommand): Json {
    JObject(if c.syncToken.None? then CommandFields(c)
            else CommandFields(c)["sync_token" := JInt(c.syncToken.value)])
  }

  /** A missing member reads as `null`. */
  function Member(j: Json, key: string): Json
    requires j.JObject?
  {
    if key in j.fields then j.fields[key] else JNull
  }

  predicate SomeUnreadable(fields: map<string, Json>) {
    exists k :: k in fields && DecodeValue(fields[k]).Failure?
  }

  function Readable(fields: map<string, Json>): Params
    requires !SomeUnreadable(fields)
  {
    map k | k in fields && DecodeValue(fields[k]).value.Some? :: DecodeValue(fields[k]).value.value
  }

  function DecodeParams(j: Json): Result<Params> {
    if !j.JObject? then Success(map[])
    else if SomeUnreadable(j.fields) then Failure
    else Success(Readable(j.fields))
  }

  /** Conversion to an unsigned 64-bit number: a negative one wraps around. */
  function AsUnsigned(j: Json): Result<nat> {
    var i :- AsInt(j);
    Success(if i < 0 then i % UINT64 else i)
  }

  function AsToken(j: Json): Result<Option<nat>> {
    var i :- AsUnsigned(j);
    Success(Some(i))
  }

  /** The wire format has no place for the barrier mark: it never arrives set. */
  function DecodeCommand(j: Json): (r: Result<SerializedCommand>)
    ensures r.Success? ==> !r.value.isSyncBarrier
  {
    if !j.JObject? then Failure
    else
      var id :- AsString(Member(j, "id"));
      var instrument :- AsString(Member(j, "instrument_name"));
      var verb :- AsString(Member(j, "verb"));
      var expects :- AsBool(Member(j, "expects_response"));
      var timeout :- AsInt(Member(j, "timeout_ms"));
      var token :- if "sync_token" in j.fields then AsToken(j.fields["sync_token"]) else Success(None);
      var params :- DecodeParams(Member(j, "params"));
      Success(SerializedCommand(id, instrument, verb, params, expects, timeout, token, false))
  }

  /** The parameters of `c` that arrive. */
  function Carried(params: Params): Params {
    map k | k in params && AllFinite(params[k]) :: params[k]
  }

  predicate BadArray(params: Params) {
    exists k :: k in params && params[k].Array? && !AllFinite(params[k])
  }

  /** The command the receiver rebuilds from the encoding of `c`. */
  function Delivered(c: SerializedCommand): SerializedCommand {
    c.(params := Carried(c.params), isSyncBarrier := false)
  }

  lemma ParamsRoundTrip(params: Params)
    ensures DecodeParams(JObject(EncodeParams(params))) ==
            if BadArray(params) then Failure else Success(Carried(params))
  {
    var fields := EncodeParams(params);
    forall k | k in params
      ensures DecodeValue(fields[k]) ==
              if AllFinite(params[k]) then Success(Some(params[k]))
              else if params[k].Array? then Failure
              else Success(None)
    {
      ValueRoundTrip(params[k]);
    }
    if BadArray(params) {
      var k :| k in params && params[k].Array? && !AllFinite(params[k]);
      assert k in fields && DecodeValue(fields[k]).Failure?;
    } else {
      assert !SomeUnreadable(fields);
      assert Readable(fields) == Carried(params);
    }
  }

  predicate HasToken(j: Json, token: Option<nat>)
    requires j.JObject?
  {
    if token.None? then "sync_token" !in j.fields
    else "sync_token" in j.fields && j.fields["sync_token"] == JInt(token.value)
  }

  /** `j` has the members of a command, as an encoder would write them. */
  predicate HasCommand(j: Json, c: SerializedCommand)
  {
    && j.JObject?
    && Member(j, "id") == JString(c.id)
    && Member(j, "instrument_name") == JString(c.instrument)
    && Member(j, "verb") == JString(c.verb)
    && Member(j, "expects_response") == JBool(c.expectsResponse)
    && Member(j, "timeout_ms") == JInt(c.timeoutMs)
    && Member(j, "params") == JObject(EncodeParams(c.params))
    && HasToken(j, c.syncToken)
  }

  lemma EncodedHasCommand(c: SerializedCommand)
    ensures HasCommand(EncodeCommand(c), c)
  {
  }

  lemma DecodeMembers(j: Json, c: SerializedCommand)
    requires HasCommand(j, c)
    ensures DecodeCommand(j) == if BadArray(c.params) then Failure else Success(Delivered(c))
  {
    ParamsRoundTrip(c.params);
  }

  /** Decoding an encoded command, for every command. */
  lemma CommandDelivery(c: SerializedCommand)
    ensures DecodeCommand(EncodeCommand(c)) ==
            if BadArray(c.params) then Failure else Success(Delivered(c))
  {
    EncodedHasCommand(c);
    DecodeMembers(EncodeCommand(c), c);
  }

  /**
   * The receiver sees the command that was sent, with the barrier mark off,
   * exactly when all its numbers are finite.
   */
  lemma CommandRoundTrip(c: SerializedCommand)
    ensures DecodeCommand(EncodeCommand(c)) == Success(c.(isSyncBarrier := false))
            <==> forall k :: k in c.params ==> AllFinite(c.params[k])
  {
    CommandDelivery(c);
    if forall k :: k in c.params ==> AllFinite(c.params[k]) {
      assert Carried(c.params) == c.params;
    } else {
      var k :| k in c.params && !AllFinite(c.params[k]);
      assert k !in Carried(c.params);
    }
  }

  // ---- Responses ----------------------------------------------------------

  function TypeName(v: Value): string {
    match v
    case Number(_) => "double"
    case Integer(_) => "int64"
    case Str(_) => "string"
    case Boolean(_) => "bool"
    case Array(_) => "array"
  }

  function ResponseFields(r: CommandResponse): map<string, Json> {
    map["command_id" := JString(r.commandId),
        "instrument_name" := JString(r.instrument),
        "success" := JBool(r.success),
        "error_code" := JInt(r.errorCode),
        "error_message" := JString(r.errorMessage),
        "text_response" := JString(r.textResponse),
        "has_large_data" := JBool(r.hasLargeData)]
  }

  function ValueFields(v: Option<Value>): map<string, Json> {
    if v.None? then map[]
    else map["return_value" := EncodeValue(v.value), "return_type" := JString(TypeName(v.value))]
  }

  function BufferFields(r: CommandResponse): map<string, Json> {
    if !r.hasLargeData then map[]
    else map["buffer_id" := JString(r.bufferId),
             "element_count" := JInt(r.elementCount),
             "data_type" := JString(r.dataType)]
  }

  function EncodeResponse(r: CommandResponse): Json {
    JObject(ResponseFields(r) + ValueFields(r.returnValue) + BufferFields(r))
  }

  function DecodeTyped(name: string, j: Json): Result<Option<Value>> {
    if name == "double" then var d :- AsDouble(j); Success(Some(Number(d)))
    else if name == "int64" then var i :- AsInt(j); Success(Some(Integer(i)))
    else if name == "string" then var s :- AsString(j); Success(Some(Str(s)))
    else if name == "bool" then var b :- AsBool(j); Success(Some(Boolean(b)))
    else if name == "array" then var a :- AsArray(j); Success(Some(Array(a)))
    else Success(None)
  }

  function DecodeReturn(j: Json): Result<Option<Value>>
    requires j.JObject?
  {
    if "return_value" in j.fields && "return_type" in j.fields then
      var name :- AsString(j.fields["return_type"]);
      DecodeTyped(name, j.fields["return_value"])
    else Success(None)
  }

  function WithBuffer(r: CommandResponse, j: Json): Result<CommandResponse>
    requires j.JObject?
  {
    if "has_large_data" !in j.fields then Success(r)
    else
      var large :- AsBool(j.fields["has_large_data"]);
      if !large then Success(r)
      else
        var id :- AsString(Member(j, "buffer_id"));
        var count :- AsUnsigned(Member(j, "element_count"));
        var kind :- AsString(Member(j, "data_type"));
        Success(r.(hasLargeData := true, bufferId := id, elementCount := count, dataType := kind))
  }

  function DecodeResponse(j: Json): Result<CommandResponse> {
    if !j.JObject? then Failure
    else
      var id :- AsString(Member(j, "command_id"));
      var instrument :- AsString(Member(j, "instrument_name"));
      var success :- AsBool(Member(j, "success"));
      var code :- AsInt(Member(j, "error_code"));
      var message :- AsString(Member(j, "error_message"));
      var text :- AsString(Member(j, "text_response"));
      var value :- DecodeReturn(j);
      WithBuffer(CommandResponse(id, instrument, success, code, message, text, value, false, "", 0, ""), j)
  }

  /** Buffer fields travel only with large data. */
  function Received(r: CommandResponse): CommandResponse {
    if r.hasLargeData then r else r.(bufferId := "", elementCount := 0, dataType := "")
  }

  lemma TypedRoundTrip(v: Value)
    ensures DecodeTyped(TypeName(v), EncodeValue(v)) ==
            if AllFinite(v) then Success(Some(v)) else Failure
  {
    if v.Array? { DoublesRoundTrip(v.a); }
  }

  /** `j` has the members every response has. */
  predicate HasHeader(j: Json, r: CommandResponse) {
    && j.JObject?
    && Member(j, "command_id") == JString(r.commandId)
    && Member(j, "instrument_name") == JString(r.instrument)
    && Member(j, "success") == JBool(r.success)
    && Member(j, "error_code") == JInt(r.errorCode)
    && Member(j, "error_message") == JString(r.errorMessage)
    && Member(j, "text_response") == JString(r.textResponse)
    && Member(j, "has_large_data") == JBool(r.hasLargeData)
  }

  /** The header members survive the merge with the optional ones. */
  lemma HeaderArrives(r: CommandResponse, key: string)
    requires key in ResponseFields(r)
    ensures Member(EncodeResponse(r), key) == ResponseFields(r)[key]
  {
    assert key !in ValueFields(r.returnValue);
    assert key !in BufferFields(r);
  }

  lemma EncodedHasHeader(r: CommandResponse)
    ensures HasHeader(EncodeResponse(r), r)
  {
    HeaderArrives(r, "command_id");
    HeaderArrives(r, "instrument_name");
    HeaderArrives(r, "success");
    HeaderArrives(r, "error_code");
    HeaderArrives(r, "error_message");
    HeaderArrives(r, "text_response");
    HeaderArrives(r, "has_large_data");
  }

  lemma DecodeHeader(j: Json, r: CommandResponse)
    requires HasHeader(j, r)
    ensures DecodeResponse(j) ==
            var value := DecodeReturn(j);
            if value.Failure? then Failure
            else WithBuffer(CommandResponse(r.commandId, r.instrument, r.success, r.errorCode, r.errorMessage,
                                            r.textResponse, value.value, false, "", 0, ""), j)
  {
  }

  lemma ReturnArrives(r: CommandResponse)
    ensures DecodeReturn(EncodeResponse(r)) ==
            if r.returnValue.Some? && !AllFinite(r.returnValue.value) then Failure
            else Success(r.returnValue)
  {
    var j := EncodeResponse(r);
    assert "return_value" !in BufferFields(r) && "return_type" !in BufferFields(r);
    assert "return_value" !in ResponseFields(r);
    if r.returnValue.Some? {
      TypedRoundTrip(r.returnValue.value);
      assert j.fields["return_type"] == ValueFields(r.returnValue)["return_type"];
      assert j.fields["return_value"] == ValueFields(r.returnValue)["return_value"];
    } else {
      assert "return_value" !in j.fields;
    }
  }

  lemma BufferArrives(r: CommandResponse, head: CommandResponse)
    requires !head.hasLargeData
    ensures WithBuffer(head, EncodeResponse(r)) ==
            Success(if r.hasLargeData
                    then head.(hasLargeData := true, bufferId := r.bufferId,
                               elementCount := r.elementCount, dataType := r.dataType)
                    else head)
  {
    var j := EncodeResponse(r);
    HeaderArrives(r, "has_large_data");
    if r.hasLargeData {
      var extra := BufferFields(r);
      assert Member(j, "buffer_id") == extra["buffer_id"];
      assert Member(j, "element_count") == extra["element_count"];
      assert Member(j, "data_type") == extra["data_type"];
    }
  }

  /**
   * A response comes back unchanged up to unused buffer fields exactly when its
   * value is finite; otherwise decoding throws.
   */
  lemma ResponseRoundTrip(r: CommandResponse)
    ensures DecodeResponse(EncodeResponse(r)) ==
            if r.returnValue.Some? && !AllFinite(r.returnValue.value) then Failure
            else Success(Received(r))
    ensures
      (r.returnValue.Some? ==> AllFinite(r.returnValue.value))
      && (r.hasLargeData || (r.bufferId == "" && r.elementCount == 0 && r.dataType == "")) ==>
        DecodeResponse(EncodeResponse(r)) == Success(r)
  {
    EncodedHasHeader(r);
    DecodeHeader(EncodeResponse(r), r);
    ReturnArrives(r);
    BufferArrives(r, CommandResponse(r.commandId, r.instrument, r.success, r.errorCode,
                                     r.errorMessage, r.textResponse, r.returnValue, false, "", 0, ""));
  }

  // ---- What a number that is not finite does ------------------------------

  /** A parameter that is not finite vanishes on the way. */
  lemma NumberVanishes(c: SerializedCommand)
    requires c.params == map["voltage" := Number(NonFinite)]
    ensures DecodeCommand(EncodeCommand(c)) == Success(c.(params := map[], isSyncBarrier := false))
  {
    CommandDelivery(c);
    assert Carried(c.params) == map[];
  }

  /** An array with such a number makes the command undecodable. */
  lemma ArrayThrows(c: SerializedCommand)
    requires c.params == map["waveform" := Array([Finite(0.0), NonFinite])]
    ensures DecodeCommand(EncodeCommand(c)) == Failure
  {
    CommandDelivery(c);
    var wave := c.params["waveform"];
    assert wave.a[1] == NonFinite;
    assert "waveform" in c.params && wave.Array? && !AllFinite(wave);
  }

  /** And so does such an answer to the response that carries it. */
  lemma AnswerThrows(r: CommandResponse)
    requires r.returnValue == Some(Number(NonFinite))
    ensures DecodeResponse(EncodeResponse(r)) == Failure
  {
    ResponseRoundTrip(r);
  }

  // ---- The procedures -----------------------------------------------------

  method SerializeCommand(cmd: SerializedCommand) returns (j: Json)
    ensures j == EncodeCommand(cmd)
  {
    var fields: map<string, Json> := map[];
    fields := fields["id" := JString(cmd.id)];
    fields := fields["instrument_name" := JString(cmd.instrument)];
    fields := fields["verb" := JString(cmd.verb)];
    fields := fields["expects_response" := JBool(cmd.expectsResponse)];
    fields := fields["timeout_ms" := JInt(cmd.timeoutMs)];
    if cmd.syncToken.Some? {
      fields := fields["sync_token" := JInt(cmd.syncToken.value)];
    }
    var params: map<string, Json> := map[];
    var rest := cmd.params.Keys;
    while rest != {}
      invariant rest <= cmd.params.Keys
      invariant params == map k | k in cmd.params && k !in rest :: EncodeValue(cmd.params[k])
      decreases rest
    {
      var key :| key in rest;
      params := params[key := EncodeValue(cmd.params[key])];
      rest := rest - {key};
    }
    assert params == EncodeParams(cmd.params);
    fields := fields["params" := JObject(params)];
    j := JObject(fields);
  }

  method DeserializeParams(fields: map<string, Json>) returns (r: Result<Params>)
    ensures r == DecodeParams(JObject(fields))
  {
    var params: Params := map[];
    var rest := fields.Keys;
    while rest != {}
      invariant rest <= fields.Keys
      invariant forall k :: k in fields && k !in rest ==> DecodeValue(fields[k]).Success?
      invariant params == map k | k in fields && k !in rest && DecodeValue(fields[k]).value.Some?
                                :: DecodeValue(fields[k]).value.value
      decreases rest
    {
      var key :| key in rest;
      var value := DecodeValue(fields[key]);
      if value.Failure? {
        return Failure;
      }
      if value.value.Some? {
        params := params[key := value.value.value];
      }
      rest := rest - {key};
    }
    assert params == Readable(fields);
    r := Success(params);
  }
}
