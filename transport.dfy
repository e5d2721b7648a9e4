/** The SMTP side of server.js: the options record built by `makeSmtpTransport`
    (server.js:70-88), the error classifier and the decision that
    `getSmtpTransporter` (server.js:90-126) takes on each call, stated as a
    function of the cache cell and of what the mail server answers. */
module Transport {
  import opened Base
  import opened Settings
  import opened Text

  const ImplicitTlsPort: int := 465
  const StartTlsPort: int := 587

  datatype Credentials = Credentials(user: string, pass: string)

  /** The options given to `nodemailer.createTransport`. */
  datatype SmtpTransport = SmtpTransport(
    host: string,
    port: int,
    secure: bool,              // TLS from the first byte
    requireTLS: bool,          // STARTTLS upgrade demanded
    auth: Option<Credentials>,
    authMethod: string,
    connectionTimeout: nat,    // milliseconds
    greetingTimeout: nat,
    socketTimeout: nat,
    tlsMinVersion: string,
    tlsServerName: string)

  function MakeSmtpTransport(cfg: Config, port: int, secure: bool): SmtpTransport
  {
    SmtpTransport(
      cfg.smtpHost, port, secure, !secure,
      if cfg.smtpUser != [] && cfg.smtpPass != [] then Some(Credentials(cfg.smtpUser, cfg.smtpPass)) else None,
      "LOGIN", 10000, 7000, 15000, "TLSv1.2", cfg.smtpHost)
  }

  /** The first transport tried: the configured port, implicit TLS exactly when it is 465. */
  function Primary(cfg: Config): SmtpTransport
  {
    MakeSmtpTransport(cfg, cfg.smtpPort, cfg.smtpPort == ImplicitTlsPort)
  }

  /** The one fallback: port 587 with STARTTLS. */
  function Fallback(cfg: Config): SmtpTransport
  {
    MakeSmtpTransport(cfg, StartTlsPort, false)
  }

  lemma TransportModes(cfg: Config)
    ensures Primary(cfg).port == cfg.smtpPort
    ensures Primary(cfg).secure <==> cfg.smtpPort == ImplicitTlsPort
    ensures Primary(cfg).requireTLS <==> !Primary(cfg).secure
    ensures Fallback(cfg).port == StartTlsPort && !Fallback(cfg).secure && Fallback(cfg).requireTLS
    ensures Fallback(cfg).host == Primary(cfg).host && Fallback(cfg).auth == Primary(cfg).auth
    ensures Primary(cfg).auth.Some? <==> cfg.smtpUser != [] && cfg.smtpPass != []
  {
  }

  /** The error-message fragments that mark a TLS or connection problem. */
  const FallbackSignatures: seq<string> := [
    "before secure TLS connection was established",
    "ECONNECTION",
    "certificate",
    "self signed",
    "SSL",
    "timeout"
  ]

  /** `isTLSorConnIssue`: the message contains one of the six fragments, case-sensitively. */
  function IsTlsOrConnIssue(msg: string): (b: bool)
    ensures b <==> exists k, i :: 0 <= k < |FallbackSignatures| && 0 <= i <= |msg| && FallbackSignatures[k] <= msg[i..]
  {
    var b := Contains(msg, "before secure TLS connection was established")
      || Contains(msg, "ECONNECTION")
      || Contains(msg, "certificate")
      || Contains(msg, "self signed")
      || Contains(msg, "SSL")
      || Contains(msg, "timeout");
    forall k | 0 <= k < |FallbackSignatures| {
      ContainsIff(msg, FallbackSignatures[k]);
    }
    assert b <==> exists k :: 0 <= k < |FallbackSignatures| && Contains(msg, FallbackSignatures[k]) by {
      assert FallbackSignatures[0] == "before secure TLS connection was established";
      assert FallbackSignatures[1] == "ECONNECTION";
      assert FallbackSignatures[2] == "certificate";
      assert FallbackSignatures[3] == "self signed";
      assert FallbackSignatures[4] == "SSL";
      assert FallbackSignatures[5] == "timeout";
    }
    b
  }

  /** What `getSmtpTransporter` settles to. */
  datatype Acquired = Ready(transport: SmtpTransport) | Failed(error: string)

  /** One call: its result, the cache cell afterwards and the transports passed to `verify`, in order. */
  datatype Attempt = Attempt(result: Acquired, cache: Option<SmtpTransport>, verified: seq<SmtpTransport>)

  /** One call of `getSmtpTransporter` on the cache cell `cache`, with `verify`
      standing for what the mail server answers to each transport. */
  function Acquire(cfg: Config, cache: Option<SmtpTransport>, verify: SmtpTransport -> Outcome): (a: Attempt)
    // a cached transport is returned as it is, without verification
    ensures cache.Some? ==> a == Attempt(Ready(cache.value), cache, [])
    // the cell is written exactly when the call succeeds, and holds what it returns
    ensures a.cache.Some? <==> a.result.Ready?
    ensures a.result.Ready? ==> a.cache == Some(a.result.transport)
    // otherwise the primary transport is verified first, and at most one more
    ensures cache.None? ==> 1 <= |a.verified| <= 2 && a.verified[0] == Primary(cfg)
    // a transport is cached only after the server accepted it
    ensures cache.None? && a.result.Ready? ==>
      a.result.transport == a.verified[|a.verified| - 1] && verify(a.result.transport) == Ok
    // the fallback is tried exactly when port 465 failed with a TLS or connection error
    ensures |a.verified| == 2 <==>
      && cache.None? && cfg.smtpPort == ImplicitTlsPort
      && verify(Primary(cfg)).Err? && IsTlsOrConnIssue(verify(Primary(cfg)).message)
    ensures |a.verified| == 2 ==> a.verified[1] == Fallback(cfg)
    // without a fallback, a failure rethrows the primary error; with one, the fallback's
    ensures a.result.Failed? ==>
      verify(a.verified[|a.verified| - 1]).Err? && a.result.error == verify(a.verified[|a.verified| - 1]).message
  {
    if cache.Some? then Attempt(Ready(cache.value), cache, [])
    else
      var preferImplicitTls := cfg.smtpPort == ImplicitTlsPort;
      var t := Primary(cfg);
      match verify(t)
      case Ok => Attempt(Ready(t), Some(t), [t])
      case Err(msg) =>
        if preferImplicitTls && IsTlsOrConnIssue(msg) then
          var f := Fallback(cfg);
          match verify(f)
          case Ok => Attempt(Ready(f), Some(f), [t, f])
          case Err(msg2) => Attempt(Failed(msg2), None, [t, f])
        else Attempt(Failed(msg), None, [t])
  }

  /** Successive calls in one process, the i-th answered by `calls[i]`. */
  function Run(cfg: Config, cache: Option<SmtpTransport>, calls: seq<SmtpTransport -> Outcome>): (r: seq<Attempt>)
    ensures |r| == |calls|
    decreases |calls|
  {
    if calls == [] then []
    else
      var a := Acquire(cfg, cache, calls[0]);
      [a] + Run(cfg, a.cache, calls[1..])
  }

  /** Once a transport is cached every later call returns it without verifying. */
  lemma {:induction false} RunFromReady(cfg: Config, t: SmtpTransport, calls: seq<SmtpTransport -> Outcome>)
    ensures forall i :: 0 <= i < |calls| ==> Run(cfg, Some(t), calls)[i] == Attempt(Ready(t), Some(t), [])
  {
    if calls != [] {
      RunFromReady(cfg, t, calls[1..]);
      var r := Run(cfg, Some(t), calls);
      forall i | 0 < i < |calls| ensures r[i] == Attempt(Ready(t), Some(t), []) {
        assert r[i] == Run(cfg, Some(t), calls[1..])[i - 1];
      }
    }
  }

  /** Starting from an empty cell: a call verifies again exactly when every
      earlier call failed (a failure is never cached), and after the first
      success every call returns that same transport. */
  lemma {:induction false} RunSettles(cfg: Config, calls: seq<SmtpTransport -> Outcome>)
    ensures var r := Run(cfg, None, calls);
      forall i :: 0 <= i < |r| ==> (r[i].verified == [] <==> exists j :: 0 <= j < i && r[j].result.Ready?)
    ensures var r := Run(cfg, None, calls);
      forall i, j :: 0 <= j < i < |r| && r[j].result.Ready? ==> r[i].result == r[j].result && r[i].verified == []
  {
    if calls != [] {
      var r := Run(cfg, None, calls);
      var a := r[0];
      var rest := Run(cfg, a.cache, calls[1..]);
      assert forall i :: 0 < i < |r| ==> r[i] == rest[i - 1];
      if a.result.Ready? {
        RunFromReady(cfg, a.result.transport, calls[1..]);
      } else {
        assert a.cache == None;
        assert rest == Run(cfg, None, calls[1..]);
        RunSettles(cfg, calls[1..]);
        forall i | 0 < i < |r|
          ensures (r[i].verified == [] <==> exists j :: 0 <= j < i && r[j].result.Ready?)
        {
          assert rest[i - 1].verified == [] <==> exists j :: 0 <= j < i - 1 && rest[j].result.Ready?;
          if exists j :: 0 <= j < i && r[j].result.Ready? {
            var j :| 0 <= j < i && r[j].result.Ready?;
            assert rest[j - 1].result.Ready?;
          }
          if exists j :: 0 <= j < i - 1 && rest[j].result.Ready? {
            var j :| 0 <= j < i - 1 && rest[j].result.Ready?;
            assert r[j + 1].result.Ready?;
          }
        }
      }
    }
  }
}
