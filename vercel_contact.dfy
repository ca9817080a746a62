/** The Vercel serverless adapter (`api/contact.ts`). Unlike the Netlify
    adapter it writes into a response object step by step (headers, then the
    status, then the body) and it may receive a body the framework has
    already parsed. */
module VercelContact {
  import opened JsString
  import opened JsValue
  import opened ContactHandler
  import NetlifyContact

  /** The response object the adapter writes to. `headers` lists the
      `setHeader` calls in order (a later one for the same name wins);
      `body` is what was sent, as text, once something has been sent. */
  class ResponseWriter {
    var headers: seq<(string, string)>
    var statusCode: int
    var body: Option<string>

    /** A fresh response: no headers, the framework's default status 200,
        nothing sent. */
    constructor ()
      ensures headers == [] && statusCode == 200 && body.None?
    {
      headers := [];
      statusCode := 200;
      body := None;
    }

    /** `res.setHeader(name, value)`. */
    method SetHeader(name: string, value: string)
      modifies this
      ensures headers == old(headers) + [(name, value)]
      ensures statusCode == old(statusCode) && body == old(body)
    {
      headers := headers + [(name, value)];
    }

    /** `res.status(code)`. */
    method Status(code: int)
      modifies this
      ensures statusCode == code
      ensures headers == old(headers) && body == old(body)
    {
      statusCode := code;
    }

    /** `res.json(value)`: the value's JSON text is sent. */
    method Json(value: Value)
      modifies this
      ensures body == Some(Stringify(value))
      ensures headers == old(headers) && statusCode == old(statusCode)
    {
      body := Some(Stringify(value));
    }

    /** `res.send(text)`. */
    method Send(text: string)
      modifies this
      ensures body == Some(text)
      ensures headers == old(headers) && statusCode == old(statusCode)
    {
      body := Some(text);
    }
  }

  /** The three CORS headers, in the order the adapter sets them. */
  const CorsHeaders: seq<(string, string)> := [
    ("Access-Control-Allow-Origin", "*"),
    ("Access-Control-Allow-Headers", "Content-Type"),
    ("Access-Control-Allow-Methods", "POST,OPTIONS")]

  /** The headers `sendJson` sets: the JSON content type, then the CORS headers. */
  const JsonHeaders: seq<(string, string)> := [("Content-Type", "application/json")] + CorsHeaders

  /** `sendJson`: the JSON headers, then the status, then the JSON body. */
  method SendJson(res: ResponseWriter, statusCode: int, value: Value)
    modifies res
    ensures res.headers == old(res.headers) + JsonHeaders
    ensures res.statusCode == statusCode && res.body == Some(Stringify(value))
  {
    res.SetHeader("Content-Type", "application/json");
    res.SetHeader("Access-Control-Allow-Origin", "*");
    res.SetHeader("Access-Control-Allow-Headers", "Content-Type");
    res.SetHeader("Access-Control-Allow-Methods", "POST,OPTIONS");
    res.Status(statusCode);
    res.Json(value);
  }

  /** The parts of a request the adapter reads; `httpMethod = None` is a request
      without a method, `body = Undefined` one without a body. */
  datatype Request = Request(httpMethod: Option<string>, body: Value)

  /** The payload the `try` block settles on: an object or array body as it
      is, a non-empty string body through `JSON.parse`, and `{}` for anything
      else (no body, an empty string, a number, `false`, `null`). */
  function PayloadOf(body: Value, parse: string -> Parsed): (p: Parsed)
    ensures AcceptedPayload(body) ==> p == Parsed(body)
    ensures body.Str? && body.s != "" ==> p == parse(body.s)
    ensures p.ParseError? ==> body.Str? && body.s != ""
    ensures !AcceptedPayload(body) && !(body.Str? && body.s != "") ==> p == Parsed(Obj([]))
  {
    if Truthy(body) && IsObjectType(body) then Parsed(body)
    else if body.Str? && |body.s| > 0 then parse(body.s)
    else Parsed(Obj([]))
  }

  /** What the adapter writes for a request: the headers it sets, the status,
      the text sent, and the e-mail handed to the provider, if any. */
  datatype Reply = Reply(headers: seq<(string, string)>, status: int, body: string, sent: Option<OutgoingEmail>)

  /** The reply `handler` produces. Preflight gets the CORS headers and an
      empty 204; any method other than POST (a missing one included) gets
      `Allow: POST` and a JSON 405; an unparsable string body a JSON 400; a
      usable payload whatever `handleContact` decides. */
  function Dispatch(req: Request, env: Env, parse: string -> Parsed, sendSucceeds: bool): (r: Reply)
    ensures req.httpMethod == Some("OPTIONS") ==> r == Reply(CorsHeaders, 204, "", None)
    ensures req.httpMethod != Some("OPTIONS") && req.httpMethod != Some("POST") ==>
              r == Reply([("Allow", "POST")] + JsonHeaders, 405,
                         Stringify(ErrorBody(NetlifyContact.MethodNotAllowedMessage)), None)
    ensures req.httpMethod == Some("POST") && PayloadOf(req.body, parse).ParseError? ==>
              r == Reply(JsonHeaders, 400, Stringify(ErrorBody(NetlifyContact.InvalidJsonMessage)), None)
    ensures req.httpMethod == Some("POST") && PayloadOf(req.body, parse).Parsed? ==>
              var h := HandleContact(PayloadOf(req.body, parse).value, env, sendSucceeds);
              r == Reply(JsonHeaders, h.result.status, Stringify(h.result.body), h.sent)
    ensures r.sent.Some? ==> req.httpMethod == Some("POST")
  {
    if req.httpMethod == Some("OPTIONS") then
      Reply(CorsHeaders, 204, "", None)
    else if req.httpMethod != Some("POST") then
      Reply([("Allow", "POST")] + JsonHeaders, 405,
            Stringify(ErrorBody(NetlifyContact.MethodNotAllowedMessage)), None)
    else
      match PayloadOf(req.body, parse)
      case ParseError =>
        Reply(JsonHeaders, 400, Stringify(ErrorBody(NetlifyContact.InvalidJsonMessage)), None)
      case Parsed(payload) =>
        var h := HandleContact(payload, env, sendSucceeds);
        Reply(JsonHeaders, h.result.status, Stringify(h.result.body), h.sent)
  }

  /** `handler`: writes the reply `Dispatch` describes into `res`, adding to
      the headers already there, and returns the e-mail sent, if any. */
  method Handler(req: Request, res: ResponseWriter, env: Env, parse: string -> Parsed, sendSucceeds: bool)
    returns (sent: Option<OutgoingEmail>)
    modifies res
    ensures var r := Dispatch(req, env, parse, sendSucceeds);
            res.headers == old(res.headers) + r.headers && res.statusCode == r.status &&
            res.body == Some(r.body) && sent == r.sent
  {
    if req.httpMethod == Some("OPTIONS") {
      res.SetHeader("Access-Control-Allow-Origin", "*");
      res.SetHeader("Access-Control-Allow-Headers", "Content-Type");
      res.SetHeader("Access-Control-Allow-Methods", "POST,OPTIONS");
      res.Status(204);
      res.Send("");
      return None;
    }
    if req.httpMethod != Some("POST") {
      res.SetHeader("Allow", "POST");
      SendJson(res, 405, ErrorBody(NetlifyContact.MethodNotAllowedMessage));
      return None;
    }
    var payload := PayloadOf(req.body, parse);
    if payload.ParseError? {
      SendJson(res, 400, ErrorBody(NetlifyContact.InvalidJsonMessage));
      return None;
    }
    var h := HandleContact(payload.value, env, sendSucceeds);
    SendJson(res, h.result.status, h.result.body);
    return h.sent;
  }

  /** For a POST with a non-empty string body both adapters give the same
      status, the same body text, the same headers and send the same e-mail. */
  lemma {:induction false} AdaptersAgreeOnStringBodies(text: string, env: Env, parse: string -> Parsed, sendSucceeds: bool)
    requires text != ""
    ensures var v := Dispatch(Request(Some("POST"), Str(text)), env, parse, sendSucceeds);
            var n := NetlifyContact.Handler(NetlifyContact.Event("POST", Some(text)), env, parse, sendSucceeds);
            v.status == n.response.statusCode && v.body == n.response.body && v.sent == n.sent &&
            v.headers == n.response.headers
  {
    var req := Request(Some("POST"), Str(text));
    var event := NetlifyContact.Event("POST", Some(text));
    assert PayloadOf(req.body, parse) == parse(text);
    assert NetlifyContact.ParseBody(event.body, parse) == parse(text);
    assert JsonHeaders == NetlifyContact.DefaultHeaders;
    var v := Dispatch(req, env, parse, sendSucceeds);
    var n := NetlifyContact.Handler(event, env, parse, sendSucceeds);
    match parse(text)
    case ParseError =>
      assert v == Reply(JsonHeaders, 400, Stringify(ErrorBody(NetlifyContact.InvalidJsonMessage)), None);
      assert n == NetlifyContact.Outcome(NetlifyContact.CreateResponse(400, ErrorBody(NetlifyContact.InvalidJsonMessage)), None);
    case Parsed(payload) =>
      var h := HandleContact(payload, env, sendSucceeds);
      assert v == Reply(JsonHeaders, h.result.status, Stringify(h.result.body), h.sent);
      assert n == NetlifyContact.Outcome(NetlifyContact.CreateResponse(h.result.status, h.result.body), h.sent);
  }

  /** A missing or empty body reaches the handler as `{}` in both adapters. */
  lemma {:induction false} AdaptersAgreeOnEmptyBodies(vercelBody: Value, env: Env, parse: string -> Parsed, sendSucceeds: bool)
    requires vercelBody == Undefined || vercelBody == Null || vercelBody == Str("")
    ensures var v := Dispatch(Request(Some("POST"), vercelBody), env, parse, sendSucceeds);
            var n := NetlifyContact.Handler(NetlifyContact.Event("POST", None), env, parse, sendSucceeds);
            v.status == n.response.statusCode && v.body == n.response.body && v.sent == n.sent
  {
    assert PayloadOf(vercelBody, parse) == Parsed(Obj([]));
  }
}
