/** The request handlers of server.js: `POST /api/contact` (server.js:146-230)
    and `GET /mail/verify` (server.js:133-144), and the module-level cache cell
    `smtpTransporter` with `getSmtpTransporter` (server.js:90-126). */
module Server {
  import opened Base
  import opened Settings
  import opened Validation
  import opened Escape
  import opened Email
  import opened Transport

  const SuccessText: string := "Message envoyé avec succès !"
  const FailureText: string := "Une erreur est survenue lors de l'envoi de l'email. Veuillez réessayer plus tard."

  /** An HTTP status with the JSON body `{ message }`. */
  datatype Response = Response(status: int, message: string)

  /** The route a message leaves by: the Resend HTTP API or a verified SMTP transport. */
  datatype Channel = ResendChannel | SmtpChannel(transport: SmtpTransport)

  /** One message handed over for delivery (`resend.emails.send` or `t.sendMail`). */
  datatype Delivery = Delivery(channel: Channel, envelope: Envelope)

  /** What one contact request does: its response, the cache cell afterwards,
      the transports it verified and the messages it handed over. */
  datatype Handled = Handled(response: Response, cache: Option<SmtpTransport>, verified: seq<SmtpTransport>, sent: seq<Delivery>)

  /** The contact handler on cache cell `cache`; `verify` and `send` stand for
      what the mail server and the Resend API answer. Every exception after
      validation lands in the one catch block and its 500 response. */
  function Handle(cfg: Config, body: Option<Fields>, cache: Option<SmtpTransport>,
                  verify: SmtpTransport -> Outcome, send: Delivery -> Outcome): (h: Handled)
    ensures h.response.status == 200 || h.response.status == 400 || h.response.status == 500
    // every validation failure is a 400 with its own text, and nothing else happens
    ensures h.response.status == 400 <==> Validate(body).Rejected?
    ensures h.response.status == 400 ==>
      h.response.message == RejectionText(Validate(body).reason) && h.verified == [] && h.sent == [] && h.cache == cache
    // success means exactly one message, composed from the submission, was accepted for delivery
    ensures h.response.status == 200 ==>
      && h.response.message == SuccessText
      && |h.sent| == 1 && send(h.sent[0]) == Ok
      && h.sent[0].envelope ==
           Compose(cfg, if UsesResend(cfg) then ResendApi else SmtpServer, Validate(body).submission)
    // any failure after validation is a 500 whose text reveals nothing of the error
    ensures h.response.status == 500 ==> h.response.message == FailureText && |h.sent| <= 1
    ensures |h.sent| == 1 && send(h.sent[0]).Err? ==> h.response.status == 500
    // Resend never touches the SMTP cell; on the SMTP path the cell is what
    // getSmtpTransporter left, even when the send itself then failed
    ensures UsesResend(cfg) ==> h.verified == [] && h.cache == cache
    ensures !UsesResend(cfg) && Validate(body).Accepted? ==>
      h.cache == Acquire(cfg, cache, verify).cache && h.verified == Acquire(cfg, cache, verify).verified
    // a failed getSmtpTransporter is a 500 and nothing is sent
    ensures !UsesResend(cfg) && Validate(body).Accepted? && Acquire(cfg, cache, verify).result.Failed? ==>
      h.response == Response(500, FailureText) && h.sent == []
    // otherwise exactly one message goes out, over the transport just obtained
    // or over Resend, and the answer is 200 exactly when it was accepted
    ensures !UsesResend(cfg) && Validate(body).Accepted? && Acquire(cfg, cache, verify).result.Ready? ==>
      |h.sent| == 1 && h.sent[0].channel == SmtpChannel(Acquire(cfg, cache, verify).result.transport)
    ensures UsesResend(cfg) && cfg.fromEmail != [] && Validate(body).Accepted? ==>
      |h.sent| == 1 && h.sent[0].channel == ResendChannel
    ensures |h.sent| == 1 ==> (h.response.status == 200 <==> send(h.sent[0]) == Ok)
    // whatever the delivery's fate, what is handed over is the composed envelope
    ensures |h.sent| == 1 ==>
      h.sent[0].envelope == Compose(cfg, if UsesResend(cfg) then ResendApi else SmtpServer, Validate(body).submission)
    // Resend with no FROM_EMAIL fails before anything is sent
    ensures UsesResend(cfg) && cfg.fromEmail == [] && Validate(body).Accepted? ==>
      h.response == Response(500, FailureText) && h.sent == []
  {
    match Validate(body)
    case Rejected(reason) => Handled(Response(400, RejectionText(reason)), cache, [], [])
    case Accepted(s) =>
      if UsesResend(cfg) then
        if cfg.fromEmail == [] then Handled(Response(500, FailureText), cache, [], [])
        else
          var d := Delivery(ResendChannel, Compose(cfg, ResendApi, s));
          var response := if send(d).Ok? then Response(200, SuccessText) else Response(500, FailureText);
          Handled(response, cache, [], [d])
      else
        var a := Acquire(cfg, cache, verify);
        match a.result
        case Failed(_) => Handled(Response(500, FailureText), a.cache, a.verified, [])
        case Ready(t) =>
          var d := Delivery(SmtpChannel(t), Compose(cfg, SmtpServer, s));
          var response := if send(d).Ok? then Response(200, SuccessText) else Response(500, FailureText);
          Handled(response, a.cache, a.verified, [d])
  }

  /** A request that failed because no transport could be verified leaves the
      cell empty, so the next valid request verifies again: the process does
      not stay in a failed state. */
  lemma FailedRequestIsRetried(cfg: Config, b1: Option<Fields>, b2: Option<Fields>,
                               v1: SmtpTransport -> Outcome, v2: SmtpTransport -> Outcome,
                               s1: Delivery -> Outcome, s2: Delivery -> Outcome)
    requires !UsesResend(cfg) && Validate(b1).Accepted? && Validate(b2).Accepted?
    requires Acquire(cfg, None, v1).result.Failed?
    ensures Handle(cfg, b1, None, v1, s1).response == Response(500, FailureText)
    ensures Handle(cfg, b1, None, v1, s1).sent == []
    ensures Handle(cfg, b1, None, v1, s1).cache == None
    ensures Handle(cfg, b2, Handle(cfg, b1, None, v1, s1).cache, v2, s2).verified != []
  {
  }

  /** The request `{ name: "Ana", email: "a@b.com", message: "hello" }` over SMTP,
      with a server that accepts everything, succeeds and hands over exactly one
      message whose reply-to address is `a@b.com`. The three fields are parameters
      pinned by `requires`, which keeps the verifier from unfolding validation and
      escaping on the literals. */
  lemma ExampleContact(cfg: Config, verify: SmtpTransport -> Outcome, send: Delivery -> Outcome,
                        name: string, email: string, message: string)
    requires !UsesResend(cfg)
    requires forall t :: verify(t) == Ok
    requires forall d :: send(d) == Ok
    requires name == "Ana" && email == "a@b.com" && message == "hello"
    ensures var h := Handle(cfg, Some(Fields(Some(name), Some(email), Some(message))), None, verify, send);
      && h.response == Response(200, SuccessText)
      && |h.sent| == 1
      && h.sent[0].envelope.replyTo == email
      && h.verified == [Primary(cfg)]
      && h.cache == Some(Primary(cfg))
  {
    EscapeHtmlPlain(email);
    assert Lower(message[1]) != Http[1];
    LinkCountWithoutH(message[1..]);
  }

  /** The reply of `GET /mail/verify`: 200 `{ ok: true, via }` or 500 `{ ok: false, error }`. */
  datatype MailCheck = Usable(via: string) | Unusable(error: string)

  datatype Checked = Checked(reply: MailCheck, cache: Option<SmtpTransport>, verified: seq<SmtpTransport>)

  /** `GET /mail/verify`: with Resend configured nothing is checked; otherwise a
      transport is obtained through the cache and then verified once more.
      `verify` answers the verifications inside getSmtpTransporter and `recheck`
      the route's own second call, which the server may answer differently. */
  function CheckMail(cfg: Config, cache: Option<SmtpTransport>,
                     verify: SmtpTransport -> Outcome, recheck: SmtpTransport -> Outcome): (c: Checked)
    ensures UsesResend(cfg) ==> c == Checked(Usable("resend"), cache, [])
    ensures !UsesResend(cfg) ==>
      var a := Acquire(cfg, cache, verify);
      && c.cache == a.cache
      && (c.reply.Usable? <==> a.result.Ready? && recheck(a.result.transport) == Ok)
      && (c.reply.Usable? ==> c.reply.via == "smtp")
      && (a.result.Ready? ==> c.verified == a.verified + [a.result.transport])
      && (a.result.Ready? && recheck(a.result.transport).Err? ==>
            c.reply == Unusable(recheck(a.result.transport).message))
      && (a.result.Failed? ==> c.verified == a.verified && c.reply == Unusable(a.result.error))
    // even a cached transport is verified again on this route
    ensures !UsesResend(cfg) ==> |c.verified| >= 1
  {
    if UsesResend(cfg) then Checked(Usable("resend"), cache, [])
    else
      var a := Acquire(cfg, cache, verify);
      match a.result
      case Failed(e) => Checked(Unusable(e), a.cache, a.verified)
      case Ready(t) =>
        match recheck(t)
        case Ok => Checked(Usable("smtp"), a.cache, a.verified + [t])
        case Err(e) => Checked(Unusable(e), a.cache, a.verified + [t])
  }

  /** The process-wide state: the configuration and the nullable cell `smtpTransporter`. */
  class Mailer {
    const cfg: Config
    var smtpTransporter: Option<SmtpTransport>

    /** Start-up: the cell starts out null. */
    constructor (cfg: Config)
      ensures this.cfg == cfg && smtpTransporter == None
    {
      this.cfg := cfg;
      smtpTransporter := None;
    }

    /** `getSmtpTransporter`. Returns the result and the transports it verified. */
    method GetSmtpTransporter(verify: SmtpTransport -> Outcome) returns (r: Acquired, verified: seq<SmtpTransport>)
      modifies this`smtpTransporter
      ensures Attempt(r, smtpTransporter, verified) == Acquire(cfg, old(smtpTransporter), verify)
    {
      if smtpTransporter.Some? {
        return Ready(smtpTransporter.value), [];
      }
      var preferImplicitTls := cfg.smtpPort == ImplicitTlsPort;
      var t := MakeSmtpTransport(cfg, cfg.smtpPort, preferImplicitTls);
      verified := [t];
      var outcome := verify(t);
      if outcome.Ok? {
        smtpTransporter := Some(t);
        return Ready(t), verified;
      }
      var msg := outcome.message;
      if preferImplicitTls && IsTlsOrConnIssue(msg) {
        t := MakeSmtpTransport(cfg, StartTlsPort, false);
        verified := verified + [t];
        outcome := verify(t);
        if outcome.Err? {
          return Failed(outcome.message), verified;
        }
        smtpTransporter := Some(t);
        return Ready(t), verified;
      }
      return Failed(msg), verified;
    }

    /** `POST /api/contact`. */
    method HandleContact(body: Option<Fields>, verify: SmtpTransport -> Outcome, send: Delivery -> Outcome)
      returns (response: Response, verified: seq<SmtpTransport>, sent: seq<Delivery>)
      modifies this`smtpTransporter
      ensures Handled(response, smtpTransporter, verified, sent) == Handle(cfg, body, old(smtpTransporter), verify, send)
    {
      verified, sent := [], [];
      var verdict := Validate(body);
      if verdict.Rejected? {
        return Response(400, RejectionText(verdict.reason)), verified, sent;
      }
      var s := verdict.submission;
      if UsesResend(cfg) {
        if cfg.fromEmail == [] {
          return Response(500, FailureText), verified, sent;
        }
        var d := Delivery(ResendChannel, Compose(cfg, ResendApi, s));
        sent := [d];
        var outcome := send(d);
        if outcome.Err? {
          return Response(500, FailureText), verified, sent;
        }
        return Response(200, SuccessText), verified, sent;
      }
      var acquired;
      acquired, verified := GetSmtpTransporter(verify);
      if acquired.Failed? {
        return Response(500, FailureText), verified, sent;
      }
      var d := Delivery(SmtpChannel(acquired.transport), Compose(cfg, SmtpServer, s));
      sent := [d];
      var outcome := send(d);
      if outcome.Err? {
        return Response(500, FailureText), verified, sent;
      }
      return Response(200, SuccessText), verified, sent;
    }

    /** `GET /mail/verify`. */
    method VerifyMail(verify: SmtpTransport -> Outcome, recheck: SmtpTransport -> Outcome)
      returns (reply: MailCheck, verified: seq<SmtpTransport>)
      modifies this`smtpTransporter
      ensures Checked(reply, smtpTransporter, verified) == CheckMail(cfg, old(smtpTransporter), verify, recheck)
    {
      if UsesResend(cfg) {
        return Usable("resend"), [];
      }
      var acquired;
      acquired, verified := GetSmtpTransporter(verify);
      if acquired.Failed? {
        return Unusable(acquired.error), verified;
      }
      verified := verified + [acquired.transport];
      var outcome := recheck(acquired.transport);
      if outcome.Err? {
        return Unusable(outcome.message), verified;
      }
      return Usable("smtp"), verified;
    }
  }
}
