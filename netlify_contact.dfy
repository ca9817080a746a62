/** The Netlify Functions adapter (`netlify/functions/contact.ts`): answers
    the CORS preflight, refuses other methods than POST, parses the raw body
    and writes the handler's result as a JSON response with fixed headers.
    `JSON.parse` and the e-mail provider's answer are parameters. */
module NetlifyContact {
  import opened JsString
  import opened JsValue
  import opened ContactHandler

  /** The parts of a Netlify event the adapter reads; `None` is a `null` body. */
  datatype Event = Event(httpMethod: string, body: Option<string>)

  /** A response; its headers are the name/value pairs in the order written. */
  datatype Response = Response(statusCode: int, headers: seq<(string, string)>, body: string)

  /** `defaultHeaders`. */
  const DefaultHeaders: seq<(string, string)> := [
    ("Content-Type", "application/json"),
    ("Access-Control-Allow-Origin", "*"),
    ("Access-Control-Allow-Headers", "Content-Type"),
    ("Access-Control-Allow-Methods", "POST,OPTIONS")]

  /** `createResponse`: the status, the default headers and the body as JSON text. */
  function CreateResponse(statusCode: int, body: Value): (r: Response)
    ensures r.statusCode == statusCode
    ensures r.headers == DefaultHeaders && ("Content-Type", "application/json") in r.headers
    ensures r.body == Stringify(body)
  {
    Response(statusCode, DefaultHeaders, Stringify(body))
  }

  const MethodNotAllowedMessage := "Method not allowed."
  const InvalidJsonMessage := "Invalid JSON body."

  /** `event.body ? JSON.parse(event.body) : {}`: a missing or empty body is
      the empty object, anything else goes through the parser. */
  function ParseBody(body: Option<string>, parse: string -> Parsed): (p: Parsed)
    ensures (body.None? || body.value == "") ==> p == Parsed(Obj([]))
    ensures (body.Some? && body.value != "") ==> p == parse(body.value)
  {
    if body.Some? && body.value != "" then parse(body.value) else Parsed(Obj([]))
  }

  /** A handled event: the response and the e-mail sent for it, if any. */
  datatype Outcome = Outcome(response: Response, sent: Option<OutgoingEmail>)

  /** `handler`. Every response carries the default headers; preflight is an
      empty 204, any other method than POST a 405, an unparsable body a 400,
      and a parsed body is whatever `handleContact` decides, as JSON. */
  function Handler(event: Event, env: Env, parse: string -> Parsed, sendSucceeds: bool): (o: Outcome)
    ensures o.response.headers == DefaultHeaders
    ensures event.httpMethod == "OPTIONS" ==> o == Outcome(Response(204, DefaultHeaders, ""), None)
    ensures event.httpMethod != "OPTIONS" && event.httpMethod != "POST" ==>
              o == Outcome(CreateResponse(405, ErrorBody(MethodNotAllowedMessage)), None)
    ensures event.httpMethod == "POST" && ParseBody(event.body, parse).ParseError? ==>
              o == Outcome(CreateResponse(400, ErrorBody(InvalidJsonMessage)), None)
    ensures event.httpMethod == "POST" && ParseBody(event.body, parse).Parsed? ==>
              var h := HandleContact(ParseBody(event.body, parse).value, env, sendSucceeds);
              o == Outcome(CreateResponse(h.result.status, h.result.body), h.sent)
    ensures o.sent.Some? ==> event.httpMethod == "POST" && o.response.statusCode in {200, 502}
  {
    if event.httpMethod == "OPTIONS" then
      Outcome(Response(204, DefaultHeaders, ""), None)
    else if event.httpMethod != "POST" then
      Outcome(CreateResponse(405, ErrorBody(MethodNotAllowedMessage)), None)
    else
      match ParseBody(event.body, parse)
      case ParseError => Outcome(CreateResponse(400, ErrorBody(InvalidJsonMessage)), None)
      case Parsed(payload) =>
        var h := HandleContact(payload, env, sendSucceeds);
        Outcome(CreateResponse(h.result.status, h.result.body), h.sent)
  }

  lemma QuoteErrorKey()
    ensures Quote("error") == "\"error\""
  {
    EscapePlain("error");
  }

  lemma QuotePlain(m: string)
    requires forall i :: 0 <= i < |m| ==> PlainJsonChar(m[i])
    ensures Quote(m) == "\"" + m + "\""
  {
    EscapePlain(m);
  }

  lemma Regroup(m: string, a: string, b: string, c: string, d: string, e: string)
    ensures a + b + c + (d + m + d) + e == (a + b + c + d) + m + (d + e)
  {
  }

  /** The JSON text of an error body whose message needs no escaping. */
  lemma ErrorBodyText(message: string)
    requires forall i :: 0 <= i < |message| ==> PlainJsonChar(message[i])
    ensures Stringify(ErrorBody(message)) == ErrorJson(message)
  {
    StringifySingleton("error", message);
    QuoteErrorKey();
    QuotePlain(message);
    assert "{" + "\"error\"" + ":" + "\"" == "{\"error\":\"";
    assert "\"" + "}" == "\"}";
    Regroup(message, "{", "\"error\"", ":", "\"", "}");
  }

  /** The JSON text of an error body with a message that needs no escaping. */
  function ErrorJson(message: string): string
  {
    "{\"error\":\"" + message + "\"}"
  }

  /** An error response as `createResponse` writes it. */
  lemma ErrorResponse(statusCode: int, message: string)
    requires forall i :: 0 <= i < |message| ==> PlainJsonChar(message[i])
    ensures CreateResponse(statusCode, ErrorBody(message)) == Response(statusCode, DefaultHeaders, ErrorJson(message))
  {
    ErrorBodyText(message);
  }

  /** The messages of the contact relay need no escaping in JSON. */
  lemma PlainMessages()
    ensures forall i :: 0 <= i < |MethodNotAllowedMessage| ==> PlainJsonChar(MethodNotAllowedMessage[i])
    ensures forall i :: 0 <= i < |InvalidJsonMessage| ==> PlainJsonChar(InvalidJsonMessage[i])
    ensures forall i :: 0 <= i < |InvalidBodyMessage| ==> PlainJsonChar(InvalidBodyMessage[i])
    ensures forall i :: 0 <= i < |MissingFieldsMessage| ==> PlainJsonChar(MissingFieldsMessage[i])
  {
  }

  /** A GET is refused with the body `{"error":"Method not allowed."}`. */
  lemma GetIsRefused(body: Option<string>, env: Env, parse: string -> Parsed, sendSucceeds: bool)
    ensures Handler(Event("GET", body), env, parse, sendSucceeds)
            == Outcome(Response(405, DefaultHeaders, ErrorJson(MethodNotAllowedMessage)), None)
  {
    assert Handler(Event("GET", body), env, parse, sendSucceeds)
           == Outcome(CreateResponse(405, ErrorBody(MethodNotAllowedMessage)), None);
    PlainMessages();
    ErrorResponse(405, MethodNotAllowedMessage);
  }

  /** A POST without a body reaches the handler as `{}` and is answered with
      the missing-fields 400, and nothing is sent. */
  lemma EmptyPostIsMissingFields(env: Env, parse: string -> Parsed, sendSucceeds: bool)
    ensures Handler(Event("POST", None), env, parse, sendSucceeds)
            == Outcome(Response(400, DefaultHeaders, ErrorJson(MissingFieldsMessage)), None)
  {
    NormaliseEmpty();
    assert Entries(Obj([])) == [];
    assert MissingField(Blank) == Some(FullName);
    assert Handler(Event("POST", None), env, parse, sendSucceeds)
           == Outcome(CreateResponse(400, ErrorBody(MissingFieldsMessage)), None);
    PlainMessages();
    ErrorResponse(400, MissingFieldsMessage);
  }

  /** A body such as `null` or `"text"` parses, but is no object: the handler
      answers it with the invalid-body 400. */
  lemma NonObjectJsonIsInvalidBody(text: string, env: Env, parse: string -> Parsed, sendSucceeds: bool)
    requires text != "" && parse(text).Parsed? && !(parse(text).value.Obj? || parse(text).value.Arr?)
    ensures Handler(Event("POST", Some(text)), env, parse, sendSucceeds)
            == Outcome(Response(400, DefaultHeaders, ErrorJson(InvalidBodyMessage)), None)
  {
    assert Handler(Event("POST", Some(text)), env, parse, sendSucceeds)
           == Outcome(CreateResponse(400, ErrorBody(InvalidBodyMessage)), None);
    PlainMessages();
    ErrorResponse(400, InvalidBodyMessage);
  }
}
