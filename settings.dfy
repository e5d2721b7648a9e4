/** The mail configuration that server.js reads once at start-up
    (server.js:12-22), taken here after its defaults and trimming are applied. */
module Settings {

  datatype Config = Config(
    resendApiKey: string,  // RESEND_API_KEY; the Resend path is taken when it is non-empty
    fromEmail: string,     // FROM_EMAIL, trimmed
    smtpHost: string,      // SMTP_HOST (default "ssl0.ovh.net")
    smtpPort: int,         // SMTP_PORT (default 587)
    smtpUser: string,      // SMTP_USER, else EMAIL_USER
    smtpPass: string,      // SMTP_PASS, else MAIL_PASS
    emailTo: string)       // EMAIL_TO, else SMTP_USER, else FROM_EMAIL, trimmed

  /** `if (RESEND_API_KEY)`: the HTTP API is used instead of SMTP. */
  predicate UsesResend(cfg: Config)
  {
    cfg.resendApiKey != []
  }
}
