# Devom contact backend — Dafny model

This project models the core of `server.js`, the Express backend behind the
devom.fr contact form. It covers two parts.

- **The `POST /api/contact` pipeline.** The handler destructures `{ name, email, message }`.
  It rejects a missing or empty field, then a message over 5000 characters, then a
  message with more than three `http://` / `https://` links (case-insensitive).
  It escapes the five HTML-special characters with `escapeHtml`, turns newlines
  of the message into `<br>` and fills the subject and HTML templates. It then
  delivers through the Resend API or through SMTP, and answers 400, 200 or a
  generic 500.
- **The SMTP transport cache.** `getSmtpTransporter` returns the cached
  transport, or verifies a new one. It uses implicit TLS exactly when the
  configured port is 465. A TLS or connection error on 465 triggers one fallback
  to port 587 with STARTTLS. The cell `smtpTransporter` is written only after a
  successful verification.

Modules, one per component:

- `Base`: `Option` and `Outcome`.
- `Text`: `includes` and one-character `replaceAll`.
- `Escape`: `escapeHtml`, the newline rule and their inverses.
- `Validation`: required fields, length limit, link count.
- `Settings`: the start-up configuration.
- `Email`: subject, HTML template, envelopes.
- `Transport`: the transport record, the error classifier, and `Acquire`, the
  pure specification of one `getSmtpTransporter` call, with `Run` for several
  calls in a row.
- `Server`: `Handle` and `CheckMail`, the specifications of the two routes, and
  the class `Mailer`. `Mailer` holds the mutable cell and implements
  `getSmtpTransporter` and both routes as methods proved equal to those functions.

The network is not modelled. `verify`, `sendMail` and the Resend client are
function parameters (`verify`, `send`) that say how the server answers each
transport or message. The second verification of `GET /mail/verify` has its own
parameter, `recheck`, since the server may answer it differently.
The methods return the list of transports they verified
and the messages they handed over, so "no verification on a cache hit" and
"nothing sent on a rejected request" can be stated.

Two facts about the code shape the transport model:

- server.js has no single-flight guard. Two first calls that overlap can both
  create and verify a transport.
- A failed verification is never cached. The cell stays null, so the next call
  verifies again (`Transport.RunSettles`, `Server.FailedRequestIsRetried`).

## Model

| member | source | states |
|---|---|---|
| `Text.ContainsIff` | server.js:108-114 | `msg.includes(p)` holds exactly when p occurs at some position of msg |
| `Escape.EscapeHtmlIsPerChar` | server.js:241-248 | the five chained `replaceAll` calls, ampersand first, equal escaping each character once on its own, so no produced entity is escaped again |
| `Escape.EscapeHtmlSafe` | server.js:241-248 | escaped text holds no `<`, `>`, `"` or `'`, and every `&` in it opens one of the five entities |
| `Escape.UnescapeEscapeHtml` | server.js:241-248 | decoding the five entities gives back the original text |
| `Escape.EscapeHtmlInjective` | server.js:241-248 | two different texts never escape to the same output |
| `Escape.SafeTextIsEscapeHtml` | server.js:241-248 | a text with no `<`, `>`, `"` or `'` in which every `&` opens one of the five entities is the escapeHtml of what it decodes to, so escapeHtml is the only such encoding of a string |
| `Escape.EscapeHtmlPlain` | server.js:241-248 | text with none of the five characters is returned unchanged |
| `Escape.AmpersandLastDoubleEscapes` | server.js:242-247 | with `&` replaced last, `<` would become `&amp;lt;`; in the source order it becomes `&lt;` |
| `Escape.BrRoundTrip` | server.js:168 | on text without `<`, turning `<br>` back into newlines undoes the newline rule |
| `Escape.MessageHtmlRoundTrip` | server.js:168 | the message HTML (escape, then newlines to `<br>`) holds no newline and decodes back to the message |
| `Escape.MessageHtmlSafe` | server.js:168 | the message HTML holds no `"` or `'`; every `<` in it starts a `<br>`, every `>` ends one, and every `&` opens one of the five entities |
| `Validation.LinkAt` | server.js:159 | a match of `/https?:\/\//i` at the start of a string is 8 characters exactly when the string starts with `https://` in any mix of upper and lower case, 7 exactly when it starts with `http://` so written but not `https://`, and 0 otherwise |
| `Validation.MixedCaseLinks` | server.js:159 | `HTTPS://` and `Http://` each count as one link |
| `Validation.Validate` | server.js:148-163 | missing field, then length over 5000, then more than 3 links, each rejected exactly under its condition; an accepted submission has three non-empty fields, at most 5000 characters and at most 3 links |
| `Validation.RejectionTextsDistinct` | server.js:151-163 | the three 400 texts are pairwise different, so the caller can tell the reasons apart |
| `Validation.LinkCountIsLinkStarts` | server.js:159 | counting the global regex matches equals counting the positions where a link begins, since links cannot overlap |
| `Validation.LinkCountRepeat` | server.js:159 | n consecutive `http://` count as n links |
| `Validation.LinkBoundary` | server.js:159-163 | a message with exactly 3 links is accepted and one with 4 is rejected as spam |
| `Validation.LengthBoundary` | server.js:154-156 | a message of exactly 5000 characters passes and one of 5001 is rejected as too long |
| `Email.AddressesFromConfigOnly` | server.js:196-214 | `from` and `to` are the same for every submission under one configuration |
| `Email.ComposeCarriesSubmission` | server.js:166-187 | reply-to is the escapeHtml of the e-mail and the subject is the prefix followed by the escapeHtml of the name; each of them, and the name and e-mail slots of the HTML template, is a safe text (no `<`, `>`, `"` or `'`, every `&` opening an entity) that decodes back to its field; the message slot is the message escaped with newlines as `<br>`, holds no newline or quote, no markup but `<br>` and no `&` outside an entity, and decodes back to the message |
| `Transport.TransportModes` | server.js:70-99 | the primary transport uses the configured port with `secure` exactly when it is 465 and `requireTLS == !secure`; the fallback is port 587, not secure, STARTTLS required, same host and credentials |
| `Transport.IsTlsOrConnIssue` | server.js:107-114 | the classifier holds exactly when one of the six fragments occurs in the message |
| `Transport.Acquire` | server.js:90-126 | a cache hit returns the cached transport with no verification; otherwise the primary is verified first; the cell is written exactly on success and holds the returned transport, which the server accepted; a second verification, of the port-587 fallback, happens exactly when port 465 failed with a classified error; a failure carries the error of the last transport verified |
| `Transport.RunFromReady` | server.js:90-92 | once the cell is set, every later call returns that transport without verifying |
| `Transport.RunSettles` | server.js:90-126 | from an empty cell, a call verifies again exactly when all earlier calls failed, and after the first success every call returns the same transport |
| `Server.Handle` | server.js:146-230 | a 400 exactly on a validation failure, with its text and nothing verified, sent or cached; a 200 means exactly one composed message was accepted; a failed `getSmtpTransporter` is a 500 with nothing sent; once a transport is obtained, or Resend has a `FROM_EMAIL`, exactly one message goes out, over that transport or over Resend, always the envelope composed from the submission, and the answer is 200 exactly when it was accepted and otherwise a 500 with the fixed text; Resend with no `FROM_EMAIL` fails before sending; the SMTP cell is what `getSmtpTransporter` left, even when the send then failed |
| `Server.FailedRequestIsRetried` | server.js:101-124 | a valid SMTP request for which getSmtpTransporter fails answers 500, sends nothing and leaves the cell empty, and the next request, started from that cell, verifies again |
| `Server.ExampleContact` | server.js:146-217 | `{Ana, a@b.com, hello}` over SMTP with a server that accepts everything returns 200 and sends one message with reply-to `a@b.com` |
| `Server.CheckMail` | server.js:133-144 | with Resend, nothing is verified; otherwise a transport is obtained through the cache and verified once more, by a second call that may answer differently from the first, so even a cached or just-verified transport can be reported unusable with the error of that second call |
| `Server.Mailer.constructor` | server.js:90 | the cell starts out null |
| `Server.Mailer.GetSmtpTransporter` | server.js:91-126 | result, new cell and verified transports are those of `Transport.Acquire` on the old cell |
| `Server.Mailer.HandleContact` | server.js:146-230 | response, new cell, verifications and deliveries are those of `Server.Handle` on the old cell |
| `Server.Mailer.VerifyMail` | server.js:133-144 | reply, new cell and verifications are those of `Server.CheckMail` on the old cell |

## Left out

- Express routing, CORS, the JSON body parser and its 1 MB limit, `app.listen` and `GET /health` (server.js:42-67, 130, 233-237) are framework plumbing.
- Calls to nodemailer (`createTransport`, `verify`, `sendMail`) and the Resend client are network calls. They appear only as the `verify`, `recheck` and `send` parameters. The transport record keeps the options given to `createTransport` except `logger` and `debug`, which only switch on logging.
- Loading the environment and console logging (server.js:6, 12-39, 103, 117, 219-224) are not modelled. `Config` holds the values after their defaults and trimming. The `Number()` conversion of `SMTP_PORT`, including `NaN`, is not modelled.
- Concurrency is not modelled. `Run` covers calls one after another. Two requests in flight at once can both verify, since the code has no single-flight guard. Their interleaving is not modelled.
- `Validation.Validate` treats each field as an absent value or a string. JSON numbers, booleans and objects, with their truthiness and `String()` conversion, are not modelled.
- `Validation.Validate` counts the message length in Unicode characters. JavaScript's `length` counts UTF-16 code units, so a message with characters outside the Basic Multilingual Plane is longer there than here.
- `Server.CheckMail` reports the error's message. When a rejection carries no message, the source reports `String(e)` instead. That case is not modelled.
- `Email.Envelope` keeps the Resend `to` list `[EMAIL_TO]` as its single address.
- worker.js and queue.js (a BullMQ worker and queue) are not part of this model. Their only logic is library calls and a rethrow.
