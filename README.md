# Contact-form delivery pipeline, modelled in Dafny

A portfolio site's contact form posts `{name, email, message}` to an
endpoint that emails the message to the site owner through the Resend
provider. The endpoint exists twice: as a route of a persistent Express
server (`server.js`) and as a Netlify serverless function
(`netlify/functions/send-contact-email.js`). Both run the same chain, and
each step ends in one fixed response:

1. the required-field check (`name`, `email`, `message` all truthy),
2. the email check against `/^[^\s@]+@[^\s@]+\.[^\s@]+$/`,
3. the API-key check,
4. composition of the email (fixed sender and recipient, subject, HTML body
   with every line feed of the message turned into `<br>`),
5. the provider call, which accepts (with an id), rejects (with a detail) or
   throws,
6. the mapping of that result to a status code and a JSON body.

The serverless copy puts a method gate in front of this chain: `OPTIONS`
gets 200 with an empty body, and any method other than `POST` gets 405.
It attaches the same three CORS headers to every response. The server
copy is reached through Express routing. Its `cors()` middleware answers
preflight requests itself, `express.json()` sends unparseable bodies to
the error middleware, `/health` has its own route, and unmatched requests
fall through to a 404.

Both source files are pure chains of early returns, so the model is made
of datatypes, functions and lemmas. Modules:

- `Wrappers`: `Option` and `Result`.
- `JsValues`: the JavaScript semantics the handlers rely on. A
  destructured field is `Absent` (`undefined`), a string, or some other
  JSON value with its truthiness and its `String(v)` text. The module also
  defines the character class `\s`.
- `EmailSyntax`: the regular expression in two forms. `MatchesPattern` is
  an existential that reads like the regex. `Test` is an executable
  left-to-right scan. They are proved to accept the same strings.
- `Composer`: sender, recipient, subject, and the exact HTML template. It
  includes `message.replace(/\n/g, '<br>')` and the `TypeError` thrown when
  the message is not a string.
- `ContactForm`: request payloads, provider outcomes, response bodies, the
  fixed response texts, and the validation rule stated against
  `MatchesPattern`.
- `Server`: the contact route handler and the application's routing.
- `NetlifyFunction`: the serverless handler, plus lemmas that compare it
  with `Server`.

Each handler chain is written out separately, as in the source, so that
the agreement lemma compares two independent transcriptions. The leaf
functions (the regex and the template) are defined once because their
text is identical in both files. Neither handler's body calls the
rule-table functions `OutcomeStatus` and `OutcomeBody`; only the contracts
use them.

Inputs that the source reads from its environment are parameters here.
`keyPresent` stands for whether `RESEND_API_KEY` is set. `outcome` stands
for the provider's answer. A handler's result records the reply and the
arguments of the provider call, if one was made (`sent`). "No send is
attempted" is therefore `sent == None`.

Points where the code is narrower than the six-step summary above suggests:

- The two entry points are not interchangeable. They agree on `POST`
  requests whose body is a JSON object or array of at most 100 kB
  (`PostAgreesWithServer`). A larger body is refused by `express.json()`
  with 500 `Internal server error` but delivered by the serverless handler
  (`OversizedBodyDiffers`). They differ on preflight (`PreflightDiffers`),
  on other methods (`OtherMethodsDiffer`) and on text that is not JSON
  (`UnparseableBodyDiffers`). Their JSON parsers differ too. A top-level
  number, boolean or string gets 400 from the serverless handler but 500
  from the server, whose `express.json()` is strict (`PrimitiveBodyDiffers`).
  A request without a body gets 500 from the serverless handler, because
  `JSON.parse('')` throws, but 400 from the server, which leaves the body
  as `{}` (`EmptyBodyDiffers`).
- Exceptions are not all hidden behind a generic 500. Both handlers'
  own `catch` blocks return the thrown error's message as `details`. Only
  the server's error middleware, which handles body-parse errors, returns
  the generic `Internal server error`.
- The email rule is exactly the regex. The '.' must have at least one
  character on each side, and the local part must not contain '@'.

## Model

| member | source | states |
|---|---|---|
| `JsValues.Truthy` | server.js:35-35 | Truthiness of a destructured field: `undefined` and the empty string are falsy, any other string is truthy, other JSON values as JavaScript decides (no contract; used by the handlers' contracts) |
| `JsValues.ToText` | server.js:43-43 | `String(v)`: `undefined` reads as the text `undefined`, a string as itself, other values by their conversion (no contract; used by the handlers' contracts) |
| `JsValues.IsWhitespace` | server.js:42-42 | The characters of the `\s` class: tab, line feed, vertical tab, form feed, carriage return, space, no-break space, the Unicode space separators, line and paragraph separators and the byte order mark (no contract; the definition itself) |
| `EmailSyntax.MatchesPattern` | server.js:42-43 | `^[^\s@]+@[^\s@]+\.[^\s@]+$` matches: an '@' and a later '.' split the string into three non-empty runs of characters that are neither whitespace nor '@' (no contract; the definition the handlers' contracts use) |
| `EmailSyntax.Test` | server.js:42-43 | An address the scan accepts has at least five characters and no whitespace anywhere |
| `EmailSyntax.TestMatchesPattern` | server.js:42-43 | The executable scan accepts a string exactly when `^[^\s@]+@[^\s@]+\.[^\s@]+$` matches it, in both directions |
| `EmailSyntax.AcceptsOrdinaryAddress` | server.js:42-43 | `ada@example.com` matches the email pattern |
| `EmailSyntax.RefusesMissingAt` | server.js:42-43 | `not-an-email` (no '@') does not match |
| `EmailSyntax.RefusesMissingDot` | server.js:42-43 | `a@b` (no '.' in the domain) does not match |
| `EmailSyntax.RefusesWhitespace` | server.js:42-43 | `a b@c.com` (a space) does not match |
| `Composer.ReplaceNewlines` | server.js:73 | No line feed survives the rewrite, and the result is 3 characters longer per line feed in the message |
| `Composer.ReplaceNewlinesAppend` | server.js:73 | The rewrite distributes over concatenation: all other characters are kept, in order |
| `Composer.ReplaceNewlinesKeepsPlainText` | server.js:73 | A message without line feeds is left unchanged |
| `Composer.ReplaceSingleBreak` | server.js:73 | A single line feed between two plain lines becomes exactly one `<br>` |
| `Composer.HiThereExample` | server.js:73 | `"Hi\nthere"` becomes `"Hi<br>there"` |
| `Composer.RestoreAfterReplace` | server.js:73 | For a message that does not already contain `<br>`, reading each `<br>` back as a line feed gives the message again |
| `Composer.ReplaceNewlinesNotInjective` | server.js:62-81 | Without escaping, a typed line feed and a typed `<br>` produce the same HTML |
| `Composer.HtmlBody` | server.js:62-81 | The HTML body starts with the fixed template heading and contains the name, the email and the rewritten message verbatim (unescaped) |
| `Composer.Compose` | server.js:58-83 | Composition succeeds exactly when the message is a string, and otherwise fails with the `message.replace` TypeError. On success: sender is the fixed address, recipients are `['hk386579@gmail.com']`, reply_to is the submitted email, subject is the fixed prefix followed by the name, and the HTML shows the name, the email and the rewritten message |
| `ContactForm.HasRequiredFields` | server.js:35-39 | `name && email && message`: all three fields are truthy (no contract; the definition the handlers' contracts use) |
| `ContactForm.OutcomeBody` | server.js:86-106 | An attempted send gets the success body exactly when the provider accepted, carrying its id; a rejection or a throw gets `Failed to send email` with the provider's detail |
| `ContactForm.OutcomeStatus` | server.js:86-106 | An attempted send gets 200 exactly when the provider accepted and 500 otherwise |
| `ContactForm.Acceptable` | server.js:35-47 | Both validation guards pass: all three fields are truthy and `String(email)` matches the email pattern (no contract; the definition the handlers' contracts use) |
| `Server.ExpressJson` | server.js:22-22 | `express.json()`: a request without a body gives no fields. Any other body is refused exactly when it is longer than the 100 kB limit, is not JSON, or is a top-level `null`, number, boolean or string; the size check comes first. An array within the limit gives no fields, and an object within the limit gives its three fields |
| `Server.PathMatches` | server.js:25-30 | A path matches a route when it equals it up to ASCII letter case with at most one trailing slash, so it is as long as the route or one longer |
| `Server.ContactPathMatches` | server.js:30-30 | The contact route's own spelling `/api/send-contact-email` matches the route, so the lemmas quantified over matching paths are not vacuous |
| `Server.SendContactEmail` | server.js:30-108 | A missing field gives 400 `Missing required fields` and nothing is sent. A present but malformed email gives 400 `Invalid email format`. A valid submission without a key gives 500 `Email service not configured`. A non-string message gives 500 `Failed to send email` with the TypeError, and nothing is sent. 400 is returned exactly when validation fails. A send happens exactly when validation passes, the key is present and the message is a string. What is sent is the composed email. An attempted send maps to 200 `{success, message, id}` when accepted and to 500 `Failed to send email` with details when rejected or thrown. 200 is returned exactly when a send was accepted |
| `Server.Route` | server.js:20-123 | Every `OPTIONS` request gets 204 from `cors()`. Any other request whose body `express.json()` refuses gets 500 `Internal server error`. `GET` or `HEAD` on `/health` gets 200 `{status: 'OK', message: 'Server is running'}`. Only `POST` to the contact path (case-insensitive, optional trailing slash) reaches the contact handler, with the parsed fields, and it is the only route that sends. The reply is 404 `Endpoint not found` exactly when no route matches |
| `Server.MissingFieldsReportedFirst` | server.js:35-47 | With an empty name, a malformed email still gets `Missing required fields`: the field check runs first |
| `Server.AdaExample` | server.js:57-99 | Ada's accepted message gets 200 with the provider id. It is sent with reply_to `ada@example.com`, and the HTML contains `Hi<br>there` |
| `Server.MalformedAddressesRefused` | server.js:41-47 | The three example malformed addresses get 400 `Invalid email format` and nothing is sent |
| `NetlifyFunction.ParseBody` | netlify/functions/send-contact-email.js:30-30 | `JSON.parse(event.body)` then destructuring: it fails exactly for an empty body, text that is not JSON, and `null`; any other non-object value gives no fields; an object gives its three fields |
| `NetlifyFunction.Submit` | netlify/functions/send-contact-email.js:29-126 | An unparseable body gives 500 `Failed to send email` with the parser's message. A missing field gives 400 `Missing required fields`, a malformed email 400 `Invalid email format`, a missing key 500 `Email service not configured`, and a non-string message 500 `Failed to send email` with the TypeError; none of these sends. 400 is returned exactly when the fields fail validation. A send happens exactly when validation passes, the key is present and the message is a string, and it sends the composed email. An attempted send maps to the same status and body as the server's, and 200 is returned exactly when a send was accepted. Every response carries the CORS headers |
| `NetlifyFunction.Handler` | netlify/functions/send-contact-email.js:3-27 | Every response carries exactly the three CORS headers. `OPTIONS` gets 200 with an empty body and nothing else happens. Any other non-`POST` method gets 405 `Method not allowed`. `POST` runs the `try` block, and only `POST` can send |
| `NetlifyFunction.PostAgreesWithServer` | netlify/functions/send-contact-email.js:29-126 | For a `POST` whose body is a JSON object or array of at most 100 kB, on any spelling of the contact path, with the same key state and provider outcome, the serverless handler's status, body and sent email equal those of the server's contact route |
| `NetlifyFunction.OversizedBodyDiffers` | server.js:22-22 | A valid submission whose body exceeds 100 kB is delivered with 200 by the serverless handler, while the server refuses it with 500 `Internal server error` and sends nothing |
| `NetlifyFunction.PrimitiveBodyDiffers` | netlify/functions/send-contact-email.js:30-39 | A `POST` whose body is a JSON number, boolean or string gets 400 `Missing required fields` from the serverless handler, but 500 `Internal server error` from the server |
| `NetlifyFunction.EmptyBodyDiffers` | netlify/functions/send-contact-email.js:30-30 | A `POST` without a body gets 500 `Failed to send email` with `Unexpected end of JSON input` from the serverless handler, but 400 `Missing required fields` from the server |
| `NetlifyFunction.PreflightDiffers` | netlify/functions/send-contact-email.js:11-18 | Preflight gets 200 from the serverless handler and 204 from the server |
| `NetlifyFunction.OtherMethodsDiffer` | netlify/functions/send-contact-email.js:20-27 | For a body `express.json()` accepts, a method other than `OPTIONS` or `POST` gets 405 from the serverless handler, but 404 from the server at the contact path |
| `NetlifyFunction.UnparseableBodyDiffers` | netlify/functions/send-contact-email.js:30-30 | A `POST` body that is not JSON gets the parser's message as details from the serverless handler, but the generic `Internal server error` from the server |

## Left out

- Logging (`console.log`, `console.warn`, `console.error`) and the
  `app.listen` startup: these are output only.
- `dotenv` and `process.env` reads: the key's presence is the `keyPresent`
  parameter. The server checks the key at startup (server.js:12) and again
  per request (server.js:50). The model assumes both reads agree, so the
  case where the key appears after startup (`resend` still `null`, so the
  call throws) is not modelled.
- The Resend SDK: it is a network call. Its result is the `outcome`
  parameter, and the model does not say whether it depends on the
  request. A rejection or acceptance without `message` or `data.id` (where
  JSON would drop the key) is not modelled: both are taken to be strings.
- The provider call has no timeout or cancellation, and the asynchronous
  suspension is not modelled.
- JSON serialisation: response bodies are kept as records. The Netlify
  handler's `JSON.stringify` text is not modelled, and neither is the
  server's `res.json`.
- The JSON grammar: a body is given already classified (`RawBody`): absent,
  not JSON (with the parser's message), or JSON whose top level is `null`,
  a primitive, an array or an object with its three fields. The
  `Content-Type` check of `express.json()` is not modelled: every body is
  taken to be sent as `application/json`. A base64-encoded Netlify body is
  not modelled, and a missing Netlify body is taken to be the empty string
  (if it arrives as `null`, `JSON.parse` yields `null` and destructuring
  throws; the status is 500 either way, only the message differs).
- `Server.ExpressJson` assumes Express 4 (body-parser 1), where a request
  without a body leaves `req.body` as `{}`. Under Express 5 it stays
  `undefined`, the destructuring at server.js:32 throws, and the route's
  `catch` answers 500. No manifest pinning the version is part of this
  model.
- The body size is given with the server's request (`size`, in bytes) and
  compared with body-parser's 102400-byte default. The serverless
  platform's own payload limit (several megabytes, enforced before the
  handler runs) is not modelled: the serverless handler sees every body.
- Error texts of the parsers: the messages are V8's and body-parser's at
  the time of writing (`Unexpected end of JSON input`, the strict-mode
  message); the model fixes them as constants.
- `String(v)` for objects whose `toString` property is not callable, which
  would throw: every non-string value is given a text that converts
  without error.
- The CORS headers that the server's `cors()` middleware adds to its
  responses, and the `HEAD` response having no body: the server model
  gives status and body only.
- The React components under `src/components/`, including the form's
  `fetch` call: these are presentational code outside the pipeline.
- Strings are sequences of Unicode scalar values, while JavaScript strings
  are UTF-16. Lone surrogates are not modelled. Neither is the
  `TypeError` text of engines other than V8 (`message.replace is not a
  function`).
