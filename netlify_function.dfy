/**
 * The serverless handler (netlify/functions/send-contact-email.js): a
 * method gate (preflight, then POST only) in front of the same
 * validate-compose-send chain as the server, with the three CORS headers
 * on every response it returns.
 */
module NetlifyFunction {
  import opened Wrappers
  import opened JsValues
  import opened ContactForm
  import EmailSyntax
  import Composer
  import Server

  datatype Event = Event(httpMethod: string, body: RawBody)

  /** `{ statusCode, headers, body }`, with the body still as a JSON record. */
  datatype Response = Response(statusCode: nat, headers: map<string, string>, body: Body)

  /** The response, and the arguments of the provider call if one was made. */
  datatype Handled = Handled(response: Response, sent: Option<Composer.EmailRequest>)

  const CorsHeaders: map<string, string> := map[
    "Access-Control-Allow-Origin" := "*",
    "Access-Control-Allow-Headers" := "Content-Type",
    "Access-Control-Allow-Methods" := "POST, OPTIONS"
  ]

  /** What V8's `JSON.parse` throws for an empty body. */
  const EmptyBodyError := "Unexpected end of JSON input"

  /** What V8 throws when destructuring `{ name, email, message }` from `null`. */
  const NullBodyError := "Cannot destructure property 'name' of 'JSON.parse(...)' as it is null."

  /**
   * `const { name, email, message } = JSON.parse(event.body)`: every JSON
   * value is accepted, but `null` cannot be destructured, and any other
   * value without the three keys yields three `undefined` fields.
   */
  function ParseBody(raw: RawBody): (p: Payload)
    ensures p.Unparseable? <==> raw.NoBody? || raw.NotJson? || raw.JsonNull?
    ensures raw.NotJson? ==> p == Unparseable(raw.detail)
    ensures raw.JsonPrimitive? || raw.JsonArray? ==> p == NoFields
    ensures raw.JsonObject? ==> p == Fields(raw.name, raw.email, raw.message)
  {
    match raw
    case NoBody => Unparseable(EmptyBodyError)
    case NotJson(detail) => Unparseable(detail)
    case JsonNull => Unparseable(NullBodyError)
    case JsonPrimitive => NoFields
    case JsonArray => NoFields
    case JsonObject(name, email, message) => Fields(name, email, message)
  }

  /**
   * The `try` block: destructure the parsed body, check the fields, the
   * email and the API key, compose and send. Whatever throws, the parse
   * included, is answered with 500 and its message.
   */
  function Submit(body: Payload, keyPresent: bool, outcome: SendOutcome): (h: Handled)
    ensures h.response.headers == CorsHeaders
    ensures body.Unparseable? ==>
      h == Handled(Response(500, CorsHeaders, ErrorWithDetails(SendFailed, body.detail)), None)
    ensures body.Fields? && !HasRequiredFields(body.name, body.email, body.message) ==>
      h == Handled(Response(400, CorsHeaders, Error(MissingFields)), None)
    ensures body.Fields? && HasRequiredFields(body.name, body.email, body.message)
              && !EmailSyntax.MatchesPattern(ToText(body.email)) ==>
      h == Handled(Response(400, CorsHeaders, Error(InvalidEmail)), None)
    ensures body.Fields? && Acceptable(body.name, body.email, body.message) && !keyPresent ==>
      h == Handled(Response(500, CorsHeaders, Error(NotConfigured)), None)
    ensures body.Fields? && Acceptable(body.name, body.email, body.message) && keyPresent && !body.message.Str? ==>
      h == Handled(Response(500, CorsHeaders, ErrorWithDetails(SendFailed, Composer.ReplaceTypeError)), None)
    ensures h.response.statusCode == 400 <==> body.Fields? && !Acceptable(body.name, body.email, body.message)
    ensures h.response.statusCode == 200 <==> h.sent.Some? && outcome.Accepted?
    ensures h.sent.Some? <==>
      body.Fields? && Acceptable(body.name, body.email, body.message) && keyPresent && body.message.Str?
    ensures h.sent.Some? ==> Composer.Compose(body.name, body.email, body.message) == Success(h.sent.value)
    ensures h.sent.Some? ==> h.response.statusCode == OutcomeStatus(outcome) && h.response.body == OutcomeBody(outcome)
  {
    match body
    case Unparseable(detail) =>
      Handled(Response(500, CorsHeaders, ErrorWithDetails(SendFailed, detail)), None)
    case Fields(name, email, message) =>
      EmailSyntax.TestMatchesPattern(ToText(email));
      if !Truthy(name) || !Truthy(email) || !Truthy(message) then
        Handled(Response(400, CorsHeaders, Error(MissingFields)), None)
      else if !EmailSyntax.Test(ToText(email)) then
        Handled(Response(400, CorsHeaders, Error(InvalidEmail)), None)
      else if !keyPresent then
        Handled(Response(500, CorsHeaders, Error(NotConfigured)), None)
      else
        match Composer.Compose(name, email, message)
        case Failure(thrown) =>
          Handled(Response(500, CorsHeaders, ErrorWithDetails(SendFailed, thrown)), None)
        case Success(request) =>
          match outcome
          case Rejected(detail) =>
            Handled(Response(500, CorsHeaders, ErrorWithDetails(SendFailed, detail)), Some(request))
          case Threw(detail) =>
            Handled(Response(500, CorsHeaders, ErrorWithDetails(SendFailed, detail)), Some(request))
          case Accepted(id) =>
            Handled(Response(200, CorsHeaders, Delivered(SentMessage, id)), Some(request))
  }

  /** `exports.handler`: preflight, then the method check, then the `try` block. */
  function Handler(event: Event, keyPresent: bool, outcome: SendOutcome): (h: Handled)
    ensures h.response.headers.Keys ==
      {"Access-Control-Allow-Origin", "Access-Control-Allow-Headers", "Access-Control-Allow-Methods"}
    ensures "Access-Control-Allow-Origin" in h.response.headers
      && h.response.headers["Access-Control-Allow-Origin"] == "*"
    ensures "Access-Control-Allow-Headers" in h.response.headers
      && h.response.headers["Access-Control-Allow-Headers"] == "Content-Type"
    ensures "Access-Control-Allow-Methods" in h.response.headers
      && h.response.headers["Access-Control-Allow-Methods"] == "POST, OPTIONS"
    ensures event.httpMethod == "OPTIONS" ==> h == Handled(Response(200, CorsHeaders, Empty), None)
    ensures event.httpMethod != "OPTIONS" && event.httpMethod != "POST" ==>
      h == Handled(Response(405, CorsHeaders, Error("Method not allowed")), None)
    ensures event.httpMethod == "POST" ==> h == Submit(ParseBody(event.body), keyPresent, outcome)
    ensures h.sent.Some? ==> event.httpMethod == "POST"
  {
    if event.httpMethod == "OPTIONS" then
      Handled(Response(200, CorsHeaders, Empty), None)
    else if event.httpMethod != "POST" then
      Handled(Response(405, CorsHeaders, Error("Method not allowed")), None)
    else
      Submit(ParseBody(event.body), keyPresent, outcome)
  }

  /**
   * The two copies of the pipeline agree: a POST whose body is a JSON
   * object or array within `express.json()`'s size limit, with the same key
   * state and provider outcome, gets the same status and body from the
   * serverless handler as from the server's contact route, and the same
   * email is sent, or none.
   */
  lemma {:induction false} PostAgreesWithServer(raw: RawBody, size: nat, path: string, keyPresent: bool, outcome: SendOutcome)
    requires raw.JsonObject? || raw.JsonArray?
    requires size <= Server.BodyLimit
    requires Server.PathMatches(path, Server.ContactPath)
    ensures var n := Handler(Event("POST", raw), keyPresent, outcome);
            var s := Server.Route(Server.Request("POST", path, raw, size), keyPresent, outcome);
      && n.response.statusCode == s.reply.status
      && n.response.body == s.reply.body
      && n.sent == s.sent
  {
  }

  /**
   * Above the size limit they part: the server refuses the body before
   * parsing it, while this handler parses it and may deliver the message.
   */
  lemma OversizedBodyDiffers(raw: RawBody, size: nat, path: string, id: string)
    requires raw.JsonObject? && Acceptable(raw.name, raw.email, raw.message) && raw.message.Str?
    requires size > Server.BodyLimit
    requires Server.PathMatches(path, Server.ContactPath)
    ensures Handler(Event("POST", raw), true, Accepted(id)).response
      == Response(200, CorsHeaders, Delivered(SentMessage, id))
    ensures Server.Route(Server.Request("POST", path, raw, size), true, Accepted(id))
      == Server.Handled(Server.Reply(500, Error("Internal server error")), None)
  {
  }

  /**
   * The two JSON parsers disagree on the same raw body, so the same request
   * can get different answers. A top-level number, boolean or string gets
   * 400 here but 500 from the server, whose strict parser refuses it.
   */
  lemma PrimitiveBodyDiffers(size: nat, path: string, keyPresent: bool, outcome: SendOutcome)
    requires Server.PathMatches(path, Server.ContactPath)
    ensures Handler(Event("POST", JsonPrimitive), keyPresent, outcome).response
      == Response(400, CorsHeaders, Error(MissingFields))
    ensures Server.Route(Server.Request("POST", path, JsonPrimitive, size), keyPresent, outcome).reply
      == Server.Reply(500, Error("Internal server error"))
  {
  }

  /**
   * A request without a body goes the other way: 500 with the parse error
   * here, but 400 from the server, which leaves the body as `{}`.
   */
  lemma EmptyBodyDiffers(path: string, keyPresent: bool, outcome: SendOutcome)
    requires Server.PathMatches(path, Server.ContactPath)
    ensures Handler(Event("POST", NoBody), keyPresent, outcome).response
      == Response(500, CorsHeaders, ErrorWithDetails(SendFailed, EmptyBodyError))
    ensures Server.Route(Server.Request("POST", path, NoBody, 0), keyPresent, outcome).reply
      == Server.Reply(400, Error(MissingFields))
  {
  }

  /** Preflight is answered by both, with different status codes: 200 here, 204 from the server's `cors()`. */
  lemma PreflightDiffers(path: string, raw: RawBody, size: nat, keyPresent: bool, outcome: SendOutcome)
    ensures Handler(Event("OPTIONS", raw), keyPresent, outcome).response.statusCode == 200
    ensures Server.Route(Server.Request("OPTIONS", path, raw, size), keyPresent, outcome).reply.status == 204
  {
  }

  /** Any other method is refused with 405 here but falls through to the server's 404. */
  lemma OtherMethodsDiffer(httpMethod: string, raw: RawBody, size: nat, keyPresent: bool, outcome: SendOutcome)
    requires httpMethod != "OPTIONS" && httpMethod != "POST"
    requires Server.ExpressJson(raw, size).Fields?
    ensures Handler(Event(httpMethod, raw), keyPresent, outcome).response.statusCode == 405
    ensures Server.Route(Server.Request(httpMethod, Server.ContactPath, raw, size), keyPresent, outcome).reply
      == Server.Reply(404, Error("Endpoint not found"))
  {
  }

  /**
   * Text that is not JSON gets 500 from both, but only this handler
   * reports the parser's message; the server's error middleware hides it.
   */
  lemma UnparseableBodyDiffers(detail: string, size: nat, keyPresent: bool, outcome: SendOutcome)
    ensures Handler(Event("POST", NotJson(detail)), keyPresent, outcome).response.body
      == ErrorWithDetails(SendFailed, detail)
    ensures Server.Route(Server.Request("POST", Server.ContactPath, NotJson(detail), size), keyPresent, outcome).reply
      == Server.Reply(500, Error("Internal server error"))
  {
  }
}
