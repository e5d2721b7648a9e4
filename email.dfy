/** Building the e-mail from a validated submission (server.js:166-187) and the
    envelope each delivery path sends (server.js:196-202, 208-214). */
module Email {
  import opened Settings
  import opened Validation
  import opened Escape

  const SubjectPrefix: string := "[Devom Contact] Nouveau message de "

  /** The fixed parts of the HTML template, between its four insertions. */
  const HtmlHead: string := "\n      <div style=\"font-family: sans-serif; padding: 20px; border: 1px solid #eee;\">\n        <h2 style=\"color: #333;\">Nouveau contact via devom.fr</h2>\n        <table style=\"width: 100%; border-collapse: collapse;\">\n          <tr>\n            <td style=\"padding: 8px; border: 1px solid #ddd; width: 120px;\"><strong>Nom :</strong></td>\n            <td style=\"padding: 8px; border: 1px solid #ddd;\">"
  const HtmlAfterName: string := "</td>\n          </tr>\n          <tr>\n            <td style=\"padding: 8px; border: 1px solid #ddd;\"><strong>Email :</strong></td>\n            <td style=\"padding: 8px; border: 1px solid #ddd;\"><a href=\"mailto:"
  const HtmlAfterHref: string := "\">"
  const HtmlAfterEmail: string := "</a></td>\n          </tr>\n        </table>\n        <h3 style=\"margin-top: 20px;\">Message :</h3>\n        <p style=\"white-space: pre-wrap; background-color: #f9f9f9; padding: 15px; border-radius: 4px;\">"
  const HtmlTail: string := "</p>\n      </div>\n    "

  /** Which delivery path the envelope is built for. */
  datatype Provider = ResendApi | SmtpServer

  /** The message handed to the delivery path. For Resend `to` is the one-element
      list `[EMAIL_TO]`; its single element is kept here. */
  datatype Envelope = Envelope(from: string, to: string, replyTo: string, subject: string, html: string)

  /** The template with its four insertions: name, e-mail (link target and link
      text) and message, each already converted to HTML. */
  function HtmlFrame(name: string, email: string, message: string): string
  {
    HtmlHead + name + HtmlAfterName + email + HtmlAfterHref + email + HtmlAfterEmail + message + HtmlTail
  }

  function Subject(name: string): string
  {
    SubjectPrefix + EscapeHtml(name)
  }

  function HtmlBody(s: Submission): string
  {
    HtmlFrame(EscapeHtml(s.name), EscapeHtml(s.email), MessageHtml(s.message))
  }

  /** `from`: `Devom <FROM_EMAIL>` for Resend, `FROM_EMAIL || SMTP_USER` for SMTP. */
  function Sender(cfg: Config, p: Provider): string
  {
    if p == ResendApi then "Devom <" + cfg.fromEmail + ">"
    else if cfg.fromEmail != [] then cfg.fromEmail else cfg.smtpUser
  }

  /** `to`: `EMAIL_TO` for Resend, `EMAIL_TO || SMTP_USER` for SMTP. */
  function Recipient(cfg: Config, p: Provider): string
  {
    if p == ResendApi then cfg.emailTo
    else if cfg.emailTo != [] then cfg.emailTo else cfg.smtpUser
  }

  function Compose(cfg: Config, p: Provider, s: Submission): (e: Envelope)
  {
    Envelope(Sender(cfg, p), Recipient(cfg, p), EscapeHtml(s.email), Subject(s.name), HtmlBody(s))
  }

  /** The sender and the recipient come from the configuration alone: no
      submission can change them. */
  lemma AddressesFromConfigOnly(cfg: Config, p: Provider, s1: Submission, s2: Submission)
    ensures Compose(cfg, p, s1).from == Compose(cfg, p, s2).from
    ensures Compose(cfg, p, s1).to == Compose(cfg, p, s2).to
  {
  }

  /** What the envelope carries of the submission. The reply-to address, the
      subject suffix and the name and e-mail slots of the HTML are safe texts
      (`SafeText`) that decode back to the e-mail and the name; by
      `SafeTextIsEscapeHtml` that makes each of them the escapeHtml of its field.
      The message slot holds no raw newline, no quote, no markup but `<br>` and no
      `&` outside an entity, and decodes back to the message. */
  lemma ComposeCarriesSubmission(cfg: Config, p: Provider, s: Submission)
    ensures var e := Compose(cfg, p, s);
      && SafeText(e.replyTo) && Unescape(e.replyTo) == s.email
      && e.replyTo == EscapeHtml(s.email)
      && SubjectPrefix <= e.subject
      && SafeText(e.subject[|SubjectPrefix|..]) && Unescape(e.subject[|SubjectPrefix|..]) == s.name
      && e.subject == SubjectPrefix + EscapeHtml(s.name)
    ensures exists n, m, b ::
      && Compose(cfg, p, s).html == HtmlFrame(n, m, b)
      && Unescape(n) == s.name && Unescape(m) == s.email && Unescape(BrToNewlines(b)) == s.message
      && SafeText(n) && SafeText(m)
      && n == EscapeHtml(s.name) && m == EscapeHtml(s.email)
      && b == MessageHtml(s.message) && '\n' !in b && SafeMessageHtml(b)
  {
    var e := Compose(cfg, p, s);
    UnescapeEscapeHtml(s.email);
    UnescapeEscapeHtml(s.name);
    assert e.subject[|SubjectPrefix|..] == EscapeHtml(s.name);
    EscapeHtmlSafeText(s.name);
    EscapeHtmlSafeText(s.email);
    MessageHtmlRoundTrip(s.message);
    MessageHtmlSafe(s.message);
    var n, m, b := EscapeHtml(s.name), EscapeHtml(s.email), MessageHtml(s.message);
    assert e.html == HtmlFrame(n, m, b);
  }
}
