/**
 * `errorMessageFromFetchResponse`: a one-line description of a failed HTTP
 * response, built from its status, its status text and, for a JSON body,
 * the body's `message`.
 */
module FetchErrors {
  import opened JsValues

  const Ok := "Ok"
  const RequestFailed := "Request failed"
  const ApplicationJson := "application/json"

  /**
   * The parts of a fetch `Response` the function reads. `contentType` is what
   * `headers.get('content-type')` returns (`None` for `undefined` or `null`);
   * `json` is the outcome of awaiting `response.json()`.
   */
  datatype Response = Response(ok: bool, status: Value, statusText: Value,
                               contentType: Option<string>, json: Completion<Value>)

  /** `` `HTTP ${status}` `` for a numeric status. */
  function HttpStatus(n: int): string {
    "HTTP " + IntToString(n)
  }

  /** `simpleMessageResponse`: `Request failed`, or `HTTP <status>` and the status text joined by `: `, empty parts dropped. */
  function SimpleMessage(r: Response): (m: string)
    ensures m != ""
    ensures r.status == Num(0) || !r.status.Num? ==> m == RequestFailed
    ensures r.status.Num? && r.status.n != 0 && r.statusText.Str? && r.statusText.s != ""
            ==> m == HttpStatus(r.status.n) + ": " + r.statusText.s
    ensures r.status.Num? && r.status.n != 0 && !(r.statusText.Str? && r.statusText.s != "")
            ==> m == HttpStatus(r.status.n)
  {
    if r.status == Num(0) || !r.status.Num? then RequestFailed
    else
      // `typeof statusText === 'string' && statusText` is `false` for a non-string, which `filter(Boolean)` drops
      var text := if r.statusText.Str? then r.statusText.s else "";
      JoinNonEmptyPair(HttpStatus(r.status.n), text, ": ");
      Join(NonEmpty([HttpStatus(r.status.n), text]), ": ")
  }

  /** `errorMessageFromJson`: the body's `message` when the body is a non-null object whose `message` is a non-empty string, else `''`. */
  function ErrorMessageFromJson(body: Value): (m: string)
    ensures m != "" <==> IsObjectType(body) && !body.Null? && MessageProp(body).Str? && MessageProp(body).s != ""
    ensures m != "" ==> MessageProp(body) == Str(m)
  {
    if IsObjectType(body) && Truthy(body) && MessageProp(body).Str? && MessageProp(body).s != "" then MessageProp(body).s
    else ""
  }

  /** The `result` of `catchAsync` around `response.json()`: the parsed body, or `null` when it rejected. */
  function JsonResult(json: Completion<Value>): (v: Value)
    ensures json.Threw? ==> v == Null
    ensures json.Returned? ==> v == json.value
  {
    match json
    case Returned(v) => v
    case Threw(_) => Null
  }

  /** The `contentType && contentType.includes('application/json')` test. */
  predicate IsJsonContent(r: Response) {
    r.contentType.Some? && r.contentType.value != "" && Includes(r.contentType.value, ApplicationJson)
  }

  /** `errorMessageFromFetchResponse`. */
  function ErrorMessageFromFetchResponse(r: Response): (m: string)
    ensures r.ok ==> m == Ok
    ensures !r.ok && !IsJsonContent(r) ==> m == SimpleMessage(r)
    ensures !r.ok && IsJsonContent(r) && ErrorMessageFromJson(JsonResult(r.json)) == "" ==> m == SimpleMessage(r)
    ensures !r.ok && IsJsonContent(r) && ErrorMessageFromJson(JsonResult(r.json)) != ""
            ==> m == SimpleMessage(r) + ", " + ErrorMessageFromJson(JsonResult(r.json))
  {
    if r.ok then Ok
    else
      var message := SimpleMessage(r);
      if IsJsonContent(r) then
        var errMessage := ErrorMessageFromJson(JsonResult(r.json));
        JoinNonEmptyPair(message, errMessage, ", ");
        Join(NonEmpty([message, errMessage]), ", ")
      else message
  }

  /** A failed response's message always starts with the simple message; it only ever gains a `, <message>` suffix. */
  lemma FailureExtendsSimpleMessage(r: Response)
    requires !r.ok
    ensures IsPrefix(SimpleMessage(r), ErrorMessageFromFetchResponse(r))
    ensures ErrorMessageFromFetchResponse(r) != SimpleMessage(r)
            <==> IsJsonContent(r) && ErrorMessageFromJson(JsonResult(r.json)) != ""
  {
    var m := ErrorMessageFromFetchResponse(r);
    var s := SimpleMessage(r);
    if m != s {
      assert m[..|s|] == s;
    }
  }

  /** A status that is zero or not a number gives `Request failed` whatever the status text, unless the body adds a message. */
  lemma NoStatusRequestFailed(r: Response)
    requires !r.ok && (r.status == Num(0) || !r.status.Num?)
    requires !IsJsonContent(r) || ErrorMessageFromJson(JsonResult(r.json)) == ""
    ensures ErrorMessageFromFetchResponse(r) == RequestFailed
  {
  }

  /** A JSON body that rejected, or resolved to `null`, a number or a string, adds nothing. */
  lemma UnusableBodyAddsNothing(r: Response)
    requires !r.ok
    requires r.json.Threw? || r.json.value.Null? || r.json.value.Num? || r.json.value.Str?
    ensures ErrorMessageFromFetchResponse(r) == SimpleMessage(r)
  {
  }

  /** The status line of a 404 response. */
  lemma StatusDigits()
    ensures HttpStatus(404) == "HTTP 404"
  {
    assert IntToString(404) == "404";
  }

  /** The 404 responses of the test suite, with the status text and JSON message as parameters. */
  lemma NotFoundMessages(text: string, message: string, ct: Option<string>, json: Completion<Value>)
    requires text != "" && message != ""
    ensures ErrorMessageFromFetchResponse(Response(false, Num(404), Str(text), None, json)) == "HTTP 404: " + text
    ensures ErrorMessageFromFetchResponse(Response(false, Num(404), Undefined, Some(ApplicationJson), Returned(Str(message))))
            == "HTTP 404"
    ensures ErrorMessageFromFetchResponse(Response(false, Num(404), Str(text), Some(ApplicationJson),
                                                   Returned(Obj(map["message" := Str(message)]))))
            == "HTTP 404: " + text + ", " + message
  {
    StatusDigits();
    assert "HTTP 404" + ": " == "HTTP 404: ";
    assert Includes(ApplicationJson, ApplicationJson) by {
      assert IsPrefix(ApplicationJson, ApplicationJson[0..]);
    }
  }
}
