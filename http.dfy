/** The HTTP response helpers every Lambda handler shares. Bodies are kept as the value handed to `JSON.stringify`. */
module Http {
  import opened Wrappers
  import opened Assoc
  import opened Json
  import Text

  const OK := 200
  const CREATED := 201
  const BAD_REQUEST := 400
  const UNAUTHORIZED := 401
  const FORBIDDEN := 403
  const NOT_FOUND := 404
  const METHOD_NOT_ALLOWED := 405
  const CONFLICT := 409
  const INTERNAL_SERVER_ERROR := 500

  const CorsHeaders: Dict<string> := [
    ("Access-Control-Allow-Origin", "*"),
    ("Access-Control-Allow-Headers", "Content-Type,Authorization"),
    ("Access-Control-Allow-Methods", "GET,POST,OPTIONS,PUT,DELETE")
  ]

  /** A Lambda proxy response; `body` is the value before serialisation. */
  datatype Response = Response(statusCode: int, headers: Dict<string>, body: Value)

  /** `createResponse(status, body, extraHeaders)`. */
  function CreateResponse(status: int, body: Value, extraHeaders: Dict<string>): (r: Response)
    requires DistinctKeys(extraHeaders)
    ensures r.statusCode == status && r.body == body
    ensures forall k :: Get(r.headers, k) == if HasKey(extraHeaders, k) then Get(extraHeaders, k) else Get(CorsHeaders, k)
  {
    Response(status, Spread(CorsHeaders, extraHeaders), body)
  }

  /** The object `{ key: message }`. */
  function Message(key: string, message: string): Value {
    JObj([(key, JStr(message))])
  }

  function SuccessResponse(data: Value, extraHeaders: Dict<string>): (r: Response)
    requires DistinctKeys(extraHeaders)
    ensures r.statusCode == 200 && r.body == data
  {
    CreateResponse(OK, data, extraHeaders)
  }

  function CreatedResponse(data: Value, extraHeaders: Dict<string>): (r: Response)
    requires DistinctKeys(extraHeaders)
    ensures r.statusCode == 201 && r.body == data
  {
    CreateResponse(CREATED, data, extraHeaders)
  }

  function BadRequestResponse(message: string): (r: Response)
    ensures r.statusCode == 400 && r.body == Message("error", message) && r.headers == CorsHeaders
  {
    CreateResponse(BAD_REQUEST, Message("error", message), [])
  }

  function ConflictResponse(message: string): (r: Response)
    ensures r.statusCode == 409 && r.body == Message("error", message) && r.headers == CorsHeaders
  {
    CreateResponse(CONFLICT, Message("error", message), [])
  }

  function NotFoundResponse(message: string): (r: Response)
    ensures r.statusCode == 404 && r.body == Message("error", message) && r.headers == CorsHeaders
  {
    CreateResponse(NOT_FOUND, Message("error", message), [])
  }

  /** `methodNotAllowedResponse(allowedMethods)`: 405, with an `Allow` header (section 10.2.1 of RFC 9110)
      listing the methods joined by ", ", present only when the list is non-empty. */
  function MethodNotAllowedResponse(allowedMethods: seq<string>): (r: Response)
    ensures r.statusCode == 405 && r.body == Message("message", "Method not allowed")
    ensures HasKey(r.headers, "Allow") <==> |allowedMethods| > 0
    ensures |allowedMethods| > 0 ==> Get(r.headers, "Allow") == Some(Text.Join(allowedMethods, ", "))
    ensures forall k :: k != "Allow" ==> Get(r.headers, k) == Get(CorsHeaders, k)
  {
    var headers: Dict<string> := if |allowedMethods| > 0 then [("Allow", Text.Join(allowedMethods, ", "))] else [];
    CreateResponse(METHOD_NOT_ALLOWED, Message("message", "Method not allowed"), headers)
  }

  /** The parts of a caught `Error` the development details expose. */
  datatype ErrorInfo = ErrorInfo(name: string, stack: Option<string>)

  /** `serverErrorResponse(message, isDevelopment, error)`: 500 with `{message}`, plus `details` only in
      development mode and only when an error is supplied. */
  function ServerErrorResponse(message: string, isDevelopment: bool, error: Option<ErrorInfo>): (r: Response)
    ensures r.statusCode == 500 && r.headers == CorsHeaders && r.body.JObj?
    ensures Get(r.body.fields, "message") == Some(JStr(message))
    ensures HasKey(r.body.fields, "details") <==> isDevelopment && error.Some?
    ensures isDevelopment && error.Some? ==>
      Get(r.body.fields, "details") == Some(JObj(
        (if error.value.stack.Some? then [("stack", JStr(error.value.stack.value))] else [])
        + [("name", JStr(error.value.name))]))
  {
    var body := [("message", JStr(message))];
    var body :=
      if isDevelopment && error.Some? then
        // an undefined `stack` disappears when the body is serialised
        var stack: Dict<Value> := if error.value.stack.Some? then [("stack", JStr(error.value.stack.value))] else [];
        Set(body, "details", JObj(stack + [("name", JStr(error.value.name))]))
      else body;
    CreateResponse(INTERNAL_SERVER_ERROR, JObj(body), [])
  }

  /** `serverErrorResponse(message)` with the defaults the handlers rely on. */
  function ServerError(message: string): (r: Response)
    ensures r.statusCode == 500 && r.body == Message("message", message)
  {
    ServerErrorResponse(message, false, None)
  }

  /** `optionsResponse()`: the CORS pre-flight answer. */
  function OptionsResponse(): (r: Response)
    ensures r.statusCode == 200 && r.body == JObj([]) && r.headers == CorsHeaders
  {
    CreateResponse(OK, JObj([]), [])
  }

  const BodyRequired := "Request body is required"
  const InvalidJson := "Invalid JSON format in request body"

  /** `parseJsonBody(body)`, with `JSON.parse` given as `jsonParse` (None when it throws). */
  function ParseJsonBody(body: Option<string>, jsonParse: string -> Option<Value>): (r: Result<Value, string>)
    ensures (body.None? || body == Some("")) ==> r == Err(BodyRequired)
    ensures body.Some? && body.value != "" ==>
      r == (if jsonParse(body.value).Some? then Ok(jsonParse(body.value).value) else Err(InvalidJson))
  {
    if body.None? || body.value == "" then Err(BodyRequired)
    else match jsonParse(body.value)
      case Some(v) => Ok(v)
      case None => Err(InvalidJson)
  }

  /** The entries of a query-string object whose value is defined, in order. */
  function DefinedEntries(q: Dict<Option<string>>): Dict<string> {
    if q == [] then []
    else
      var last := q[|q| - 1];
      DefinedEntries(q[..|q| - 1]) + (if last.1.Some? then [(last.0, last.1.value)] else [])
  }

  lemma {:induction false} DefinedEntriesKeys(q: Dict<Option<string>>)
    ensures forall i :: 0 <= i < |DefinedEntries(q)| ==> DefinedEntries(q)[i].0 in Keys(q)
  {
    if q != [] {
      DefinedEntriesKeys(q[..|q| - 1]);
      assert forall x :: x in Keys(q[..|q| - 1]) ==> x in Keys(q);
    }
  }

  /** A looked-up query parameter, flattened: missing and undefined both read as absent. */
  function Defined(v: Option<Option<string>>): Option<string> {
    if v.Some? && v.value.Some? then Some(v.value.value) else None
  }

  /** Looking a parameter up in the filtered object finds exactly the defined value. */
  lemma {:induction false} DefinedEntriesGet(q: Dict<Option<string>>, k: string)
    requires DistinctKeys(q)
    ensures Get(DefinedEntries(q), k) == Defined(Get(q, k))
  {
    if q != [] {
      var init := q[..|q| - 1];
      var last := q[|q| - 1];
      assert q == init + [last];
      DefinedEntriesGet(init, k);
      GetAppend(init, last, k);
      if last.0 == k {
        assert !HasKey(init, k) by {
          assert forall i :: 0 <= i < |init| ==> init[i].0 == q[i].0 != q[|q| - 1].0;
        }
      }
      if last.1.Some? {
        assert DefinedEntries(q) == DefinedEntries(init) + [(last.0, last.1.value)];
        GetAppend(DefinedEntries(init), (last.0, last.1.value), k);
      } else {
        assert DefinedEntries(q) == DefinedEntries(init) + [];
        assert DefinedEntries(init) + [] == DefinedEntries(init);
      }
    }
  }

  /** `getQueryParams(queryStringParameters)`: `{}` for a missing object, else the defined entries. */
  method GetQueryParams(q: Option<Dict<Option<string>>>) returns (result: Dict<string>)
    requires q.Some? ==> DistinctKeys(q.value)
    ensures q.None? ==> result == []
    ensures q.Some? ==> result == DefinedEntries(q.value)
  {
    result := [];
    if q.None? {
      return;
    }
    var entries := q.value;
    var i := 0;
    while i < |entries|
      invariant 0 <= i <= |entries|
      invariant result == DefinedEntries(entries[..i])
    {
      var (key, value) := entries[i];
      if value.Some? {
        DefinedEntriesKeys(entries[..i]);
        assert !HasKey(result, key) by {
          forall j | 0 <= j < |result| ensures result[j].0 != key {
            assert result[j].0 in Keys(entries[..i]);
          }
        }
        result := Set(result, key, value.value);
      }
      assert entries[..i + 1][..i] == entries[..i];
      i := i + 1;
    }
    assert entries[..i] == entries;
  }
}
