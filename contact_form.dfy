/**
 * The vocabulary both handlers share: what a request body can be, what the
 * email provider can answer, the JSON bodies the handlers reply with, their
 * fixed texts, and the validation rule stated against the regular
 * expression itself.
 */
module ContactForm {
  import opened JsValues
  import EmailSyntax

  /**
   * The request body after JSON parsing. `Unparseable` is a body the
   * parser rejected, or one that parsed to a value that cannot be
   * destructured; `detail` is the message of the error raised.
   */
  datatype Payload =
    | Unparseable(detail: string)
    | Fields(name: FieldValue, email: FieldValue, message: FieldValue)

  /**
   * A request body as sent, before either JSON parser sees it: nothing at
   * all, text that is not JSON, or JSON whose top-level value is `null`, a
   * number, boolean or string, an array, or an object (given by the three
   * fields the handlers destructure from it).
   */
  datatype RawBody =
    | NoBody
    | NotJson(detail: string)
    | JsonNull
    | JsonPrimitive
    | JsonArray
    | JsonObject(name: FieldValue, email: FieldValue, message: FieldValue)

  /** What destructuring `{ name, email, message }` gives for a value without those keys. */
  const NoFields := Fields(Absent, Absent, Absent)

  /**
   * What `resend.emails.send` does: resolve with `data.id`, resolve with
   * `error.message`, or reject with an exception's message.
   */
  datatype SendOutcome =
    | Accepted(id: string)
    | Rejected(detail: string)
    | Threw(detail: string)

  /** The JSON bodies the handlers send. `Empty` is the empty preflight body. */
  datatype Body =
    | Empty
    | Error(error: string)
    | ErrorWithDetails(error: string, details: string)
    | Delivered(message: string, id: string)
    | Health(status: string, message: string)

  const MissingFields := "Missing required fields"
  const InvalidEmail := "Invalid email format"
  const NotConfigured := "Email service not configured"
  const SendFailed := "Failed to send email"
  const SentMessage := "Email sent successfully!"

  /** `name && email && message`: all three fields are truthy. */
  predicate HasRequiredFields(name: FieldValue, email: FieldValue, message: FieldValue) {
    Truthy(name) && Truthy(email) && Truthy(message)
  }

  /** A submission that passes both checks of the handlers. */
  ghost predicate Acceptable(name: FieldValue, email: FieldValue, message: FieldValue) {
    HasRequiredFields(name, email, message) && EmailSyntax.MatchesPattern(ToText(email))
  }

  /**
   * The reply body for a send that was attempted: the success body exactly
   * when the provider accepted, and otherwise `Failed to send email` with
   * the provider's own detail.
   */
  function OutcomeBody(outcome: SendOutcome): (b: Body)
    ensures b.Delivered? <==> outcome.Accepted?
    ensures outcome.Accepted? ==> b == Delivered(SentMessage, outcome.id)
    ensures !outcome.Accepted? ==> b == ErrorWithDetails(SendFailed, outcome.detail)
  {
    match outcome
    case Accepted(id) => Delivered(SentMessage, id)
    case Rejected(detail) => ErrorWithDetails(SendFailed, detail)
    case Threw(detail) => ErrorWithDetails(SendFailed, detail)
  }

  /** The status of an attempted send: 200 exactly when the provider accepted, 500 otherwise. */
  function OutcomeStatus(outcome: SendOutcome): (status: nat)
    ensures status == 200 || status == 500
    ensures status == 200 <==> outcome.Accepted?
  {
    if outcome.Accepted? then 200 else 500
  }
}
