/**
 * The persistent Express server (server.js): the contact route, the health
 * check, the 404 fallback, and the two global middlewares in front of them
 * that answer some requests themselves (CORS preflight and JSON parse
 * errors). The API key is read from the environment; here it is the
 * parameter `keyPresent`. The provider's answer is the parameter `outcome`.
 */
module Server {
  import opened Wrappers
  import opened JsValues
  import opened ContactForm
  import EmailSyntax
  import Composer

  /** A request as the application sees it; `size` is the length in bytes of the body as sent. */
  datatype Request = Request(httpMethod: string, path: string, body: RawBody, size: nat)

  /** `res.status(status).json(body)`. */
  datatype Reply = Reply(status: nat, body: Body)

  /** The reply, and the arguments of the provider call if one was made. */
  datatype Handled = Handled(reply: Reply, sent: Option<Composer.EmailRequest>)

  /** What body-parser's strict mode reports for JSON whose top level is not an object or array. */
  const StrictModeError := "strict mode: top-level JSON must be an object or array"

  /** body-parser's default `limit` of 100 kB, in bytes, and what it reports above it (status 413). */
  const BodyLimit := 102400
  const TooLargeError := "request entity too large"

  /**
   * `express.json()` with its defaults: a request without a body is left
   * as `{}`, a body longer than the limit is refused before it is parsed,
   * strict mode refuses JSON whose top level is not an object or an array,
   * and text that is not JSON is refused as well.
   */
  function ExpressJson(raw: RawBody, size: nat): (p: Payload)
    ensures p.Unparseable? <==>
      !raw.NoBody? && (size > BodyLimit || raw.NotJson? || raw.JsonNull? || raw.JsonPrimitive?)
    ensures !raw.NoBody? && size > BodyLimit ==> p == Unparseable(TooLargeError)
    ensures raw.NotJson? && size <= BodyLimit ==> p == Unparseable(raw.detail)
    ensures raw.NoBody? || (raw.JsonArray? && size <= BodyLimit) ==> p == NoFields
    ensures raw.JsonObject? && size <= BodyLimit ==> p == Fields(raw.name, raw.email, raw.message)
  {
    if raw.NoBody? then NoFields
    else if size > BodyLimit then Unparseable(TooLargeError)
    else if raw.NotJson? then Unparseable(raw.detail)
    else if raw.JsonObject? then Fields(raw.name, raw.email, raw.message)
    else if raw.JsonArray? then NoFields
    else Unparseable(StrictModeError)
  }

  const ContactPath := "/api/send-contact-email"
  const HealthPath := "/health"

  function LowerAscii(s: string): (r: string)
    ensures |r| == |s|
    ensures forall i :: 0 <= i < |s| ==> r[i] == if 'A' <= s[i] <= 'Z' then (s[i] as int + 32) as char else s[i]
  {
    if s == [] then []
    else [if 'A' <= s[0] <= 'Z' then (s[0] as int + 32) as char else s[0]] + LowerAscii(s[1..])
  }

  /**
   * Express's default route matching for a literal path: letters compare
   * without regard to case and one trailing slash is tolerated.
   */
  predicate PathMatches(path: string, route: string): (r: bool)
    ensures r ==> |path| == |route| || |path| == |route| + 1
  {
    var p := LowerAscii(path);
    p == route || p == route + "/"
  }

  /** A path without upper-case ASCII letters is its own lower-case form. */
  lemma {:induction false} NoUpperKept(s: string)
    requires forall i :: 0 <= i < |s| ==> !('A' <= s[i] <= 'Z')
    ensures LowerAscii(s) == s
  {
  }

  /** The contact route's own spelling reaches it. */
  lemma ContactPathMatches()
    ensures PathMatches(ContactPath, ContactPath)
  {
    var p := ContactPath;
    assert forall i :: 0 <= i < |p| ==> 'a' <= p[i] <= 'z' || p[i] == '/' || p[i] == '-';
    NoUpperKept(p);
  }

  /**
   * The `POST /api/send-contact-email` handler: required fields, then the
   * email pattern, then the API key, then the provider call, each failure
   * answered with its fixed reply and nothing sent.
   */
  function SendContactEmail(name: FieldValue, email: FieldValue, message: FieldValue,
                            keyPresent: bool, outcome: SendOutcome): (h: Handled)
    ensures !HasRequiredFields(name, email, message) ==>
      h == Handled(Reply(400, Error(MissingFields)), None)
    ensures HasRequiredFields(name, email, message) && !EmailSyntax.MatchesPattern(ToText(email)) ==>
      h == Handled(Reply(400, Error(InvalidEmail)), None)
    ensures Acceptable(name, email, message) && !keyPresent ==>
      h == Handled(Reply(500, Error(NotConfigured)), None)
    ensures Acceptable(name, email, message) && keyPresent && !message.Str? ==>
      h == Handled(Reply(500, ErrorWithDetails(SendFailed, Composer.ReplaceTypeError)), None)
    ensures h.reply.status == 400 <==> !Acceptable(name, email, message)
    ensures h.sent.Some? <==> Acceptable(name, email, message) && keyPresent && message.Str?
    ensures h.sent.Some? ==> Composer.Compose(name, email, message) == Success(h.sent.value)
    ensures h.sent.Some? ==> h.reply == Reply(OutcomeStatus(outcome), OutcomeBody(outcome))
    ensures h.reply.status == 200 <==> h.sent.Some? && outcome.Accepted?
  {
    EmailSyntax.TestMatchesPattern(ToText(email));
    if !Truthy(name) || !Truthy(email) || !Truthy(message) then
      Handled(Reply(400, Error(MissingFields)), None)
    else if !EmailSyntax.Test(ToText(email)) then
      Handled(Reply(400, Error(InvalidEmail)), None)
    else if !keyPresent then
      Handled(Reply(500, Error(NotConfigured)), None)
    else
      match Composer.Compose(name, email, message)
      case Failure(thrown) => Handled(Reply(500, ErrorWithDetails(SendFailed, thrown)), None)
      case Success(request) =>
        match outcome
        case Rejected(detail) => Handled(Reply(500, ErrorWithDetails(SendFailed, detail)), Some(request))
        case Threw(detail) => Handled(Reply(500, ErrorWithDetails(SendFailed, detail)), Some(request))
        case Accepted(id) => Handled(Reply(200, Delivered(SentMessage, id)), Some(request))
  }

  /**
   * The whole application: `cors()` answers every preflight, `express.json()`
   * hands a body it cannot parse to the error middleware, then the health
   * route, the contact route, and the 404 fallback.
   */
  function Route(req: Request, keyPresent: bool, outcome: SendOutcome): (h: Handled)
    ensures req.httpMethod == "OPTIONS" ==> h == Handled(Reply(204, Empty), None)
    ensures req.httpMethod != "OPTIONS" && ExpressJson(req.body, req.size).Unparseable? ==>
      h == Handled(Reply(500, Error("Internal server error")), None)
    ensures req.httpMethod != "OPTIONS" && ExpressJson(req.body, req.size).Fields?
              && (req.httpMethod == "GET" || req.httpMethod == "HEAD") && PathMatches(req.path, HealthPath) ==>
      h == Handled(Reply(200, Health("OK", "Server is running")), None)
    ensures h.sent.Some? ==>
      req.httpMethod == "POST" && PathMatches(req.path, ContactPath) && ExpressJson(req.body, req.size).Fields?
    ensures req.httpMethod == "POST" && PathMatches(req.path, ContactPath) && ExpressJson(req.body, req.size).Fields? ==>
      var p := ExpressJson(req.body, req.size);
      h == SendContactEmail(p.name, p.email, p.message, keyPresent, outcome)
    ensures h.reply.status == 404 <==>
      && req.httpMethod != "OPTIONS" && ExpressJson(req.body, req.size).Fields?
      && !((req.httpMethod == "GET" || req.httpMethod == "HEAD") && PathMatches(req.path, HealthPath))
      && !(req.httpMethod == "POST" && PathMatches(req.path, ContactPath))
    ensures h.reply.status == 404 ==> h.reply.body == Error("Endpoint not found")
  {
    if req.httpMethod == "OPTIONS" then
      Handled(Reply(204, Empty), None)
    else
      match ExpressJson(req.body, req.size)
      case Unparseable(_) =>
        Handled(Reply(500, Error("Internal server error")), None)
      case Fields(name, email, message) =>
        if (req.httpMethod == "GET" || req.httpMethod == "HEAD") && PathMatches(req.path, HealthPath) then
          Handled(Reply(200, Health("OK", "Server is running")), None)
        else if req.httpMethod == "POST" && PathMatches(req.path, ContactPath) then
          SendContactEmail(name, email, message, keyPresent, outcome)
        else
          Handled(Reply(404, Error("Endpoint not found")), None)
  }

  /** The checks run in order: with the name missing, a malformed email is never reported. */
  lemma MissingFieldsReportedFirst(email: FieldValue, message: FieldValue, keyPresent: bool, outcome: SendOutcome)
    requires !EmailSyntax.MatchesPattern(ToText(email))
    ensures SendContactEmail(Str(""), email, message, keyPresent, outcome).reply == Reply(400, Error(MissingFields))
  {
  }

  /** The worked example: Ada's two-line message is delivered with the line break as `<br>`. */
  lemma AdaExample(id: string)
    ensures var h := SendContactEmail(Str("Ada"), Str("ada@example.com"), Str("Hi\nthere"), true, Accepted(id));
      && h.reply == Reply(200, Delivered(SentMessage, id))
      && h.sent.Some?
      && h.sent.value.replyTo == Str("ada@example.com")
      && Composer.IsInfix("Hi<br>there", h.sent.value.html)
  {
    EmailSyntax.AcceptsOrdinaryAddress();
    Composer.HiThereExample();
  }

  /** The three malformed addresses of the examples are refused before anything is sent. */
  lemma MalformedAddressesRefused(email: string, keyPresent: bool, outcome: SendOutcome)
    requires email == "not-an-email" || email == "a@b" || email == "a b@c.com"
    ensures SendContactEmail(Str("Ada"), Str(email), Str("Hi"), keyPresent, outcome)
      == Handled(Reply(400, Error(InvalidEmail)), None)
  {
    EmailSyntax.RefusesMissingAt();
    EmailSyntax.RefusesMissingDot();
    EmailSyntax.RefusesWhitespace();
  }
}
