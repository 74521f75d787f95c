/** The routing core of the host-routing gateway (proxy/index.js): host
    entries built from configuration, lookup with the Unknown default, the
    decision each host-entry variant takes for each listener event, and the
    startup checks that turn a configuration into the immutable host table. */
module ProxyHosts {
  import opened Wrappers
  import opened JsText

  /** The TLS server context a certificate name was loaded into. Key
      material and context creation belong to the TLS library. */
  datatype SecureContext = SecureContext(certName: string)

  /** A JSON value as it may appear in a host's `insecure` field. */
  datatype Json = JNull | JBool(b: bool) | JNumber(n: int) | JString(s: string) | JCompound

  /** One `hosts` record of the configuration; None is an absent field. */
  datatype HostConfig = HostConfig(
    redirect: Option<string>,
    proxy: Option<string>,
    insecure: Option<Json>,
    cert: Option<string>)

  /** The fatal configuration errors; each one stops the process. */
  datatype ConfigError =
    | NoTarget(host: string)
    | InvalidInsecure(host: string)
    | MissingCert(host: string)
    | UnknownCert(host: string, cert: string)
    | InvalidPorts
    | MissingMainCert(name: string)
    | MissingParameter(key: string)
    | MissingCertificateParameter(key: string, cert: string)
    | MissingMqttValue(key: string)

  /** The non-fatal configuration warnings. */
  datatype Warning = MissingHttpPrefix(host: string) | IgnoredCert(host: string)

  /** The five host-entry variants. Insecure entries and Unknown carry no
      certificate (their `cert` field is null). */
  datatype HostEntry =
    | Unknown
    | SecureRedirect(cert: SecureContext, target: string)
    | SecureProxy(cert: SecureContext, target: string)
    | InsecureRedirect(target: string)
    | InsecureProxy(target: string)
  {
    predicate IsSecure() { SecureRedirect? || SecureProxy? }
    predicate IsInsecure() { InsecureRedirect? || InsecureProxy? }
    predicate IsProxy() { SecureProxy? || InsecureProxy? }

    /** The entry's `cert` field. */
    function Cert(): Option<SecureContext> {
      if IsSecure() then Some(cert) else None
    }
  }

  function ErrorMessage(e: ConfigError): string {
    match e
    case NoTarget(h) => "Host '" + h + "' has neither a 'redirect', 'proxy' nor 'insecure' field"
    case InvalidInsecure(h) => "Host '" + h + "' has invalid 'insecure' field. Only 'true' is supported."
    case MissingCert(h) => "Missing config parameter 'cert' for host: " + h
    case UnknownCert(h, c) => "Unknown certificate '" + c + "' for host: " + h
    case InvalidPorts => "Config error: Invalid port numbers"
    case MissingMainCert(n) => "Missing main certificate: '" + n + "'"
    case MissingParameter(k) => "Missing config parameter '" + k + "'"
    case MissingCertificateParameter(k, c) => "Missing config parameter '" + k + "' for certificate: " + c
    case MissingMqttValue(k) => "Missing config value " + k + " in mqtt settings"
  }

  predicate HasTarget(obj: HostConfig) {
    obj.redirect.Some? || obj.proxy.Some?
  }

  /** `HostEntry.create`: the entry a host record stands for, or the fatal
      error that stops startup. */
  function Create(name: string, obj: HostConfig, certificates: map<string, SecureContext>)
    : (r: Result<HostEntry, ConfigError>)
    // the fatal cases, in the order they are checked
    ensures !HasTarget(obj) ==> r == Failure(NoTarget(name))
    ensures (HasTarget(obj) && obj.insecure.Some? && obj.insecure.value != JBool(true))
              ==> r == Failure(InvalidInsecure(name))
    ensures HasTarget(obj) && obj.insecure.None? && obj.cert.None? ==> r == Failure(MissingCert(name))
    ensures (HasTarget(obj) && obj.insecure.None? && obj.cert.Some? && obj.cert.value !in certificates)
              ==> r == Failure(UnknownCert(name, obj.cert.value))
    // and nothing else is fatal
    ensures r.Success? <==>
              HasTarget(obj) &&
              if obj.insecure.Some? then obj.insecure.value == JBool(true)
              else obj.cert.Some? && obj.cert.value in certificates
    // the shape of a created entry
    ensures r.Success? ==> r.value != Unknown
    ensures r.Success? ==> (r.value.IsInsecure() <==> obj.insecure.Some?)
    ensures r.Success? ==> (r.value.IsProxy() <==> obj.proxy.Some?)
    ensures r.Success? ==> r.value.target == if obj.proxy.Some? then obj.proxy.value else obj.redirect.value
    ensures r.Success? && obj.insecure.Some? ==> r.value.Cert() == None
    ensures r.Success? && r.value.IsSecure() ==>
              obj.cert.Some? && obj.cert.value in certificates && r.value.Cert() == Some(certificates[obj.cert.value])
  {
    if !HasTarget(obj) then Failure(NoTarget(name))
    else if obj.insecure.Some? then
      if obj.insecure.value != JBool(true) then Failure(InvalidInsecure(name))
      else if obj.proxy.Some? then Success(InsecureProxy(obj.proxy.value))
      else Success(InsecureRedirect(obj.redirect.value))
    else if obj.cert.None? then Failure(MissingCert(name))
    else if obj.cert.value !in certificates then Failure(UnknownCert(name, obj.cert.value))
    else
      var cert := certificates[obj.cert.value];
      if obj.proxy.Some? then Success(SecureProxy(cert, obj.proxy.value))
      else Success(SecureRedirect(cert, obj.redirect.value))
  }

  /** The warnings `HostEntry.create` logs before it returns or stops. */
  function CreateWarnings(name: string, obj: HostConfig): (w: seq<Warning>)
    ensures MissingHttpPrefix(name) in w <==>
              HasTarget(obj) && obj.proxy.Some? && !StartsWith(obj.proxy.value, "http://")
    ensures IgnoredCert(name) in w <==>
              HasTarget(obj) && obj.insecure == Some(JBool(true)) && obj.cert.Some?
  {
    if !HasTarget(obj) then []
    else
      (if obj.proxy.Some? && !StartsWith(obj.proxy.value, "http://") then [MissingHttpPrefix(name)] else [])
      + (if obj.insecure == Some(JBool(true)) && obj.cert.Some? then [IgnoredCert(name)] else [])
  }

  // -----------------------------------------------------------------------
  // Dispatch

  /** An incoming HTTP request: its Host header (None when absent, which
      JavaScript turns into the text "undefined") and its URL. */
  datatype Request = Request(host: Option<string>, url: string)

  /** The five events the listeners hand to a host entry. */
  datatype Event =
    | InsecureWeb(req: Request)
    | InsecureUpgrade(req: Request)
    | SecureWeb(req: Request)
    | SecureUpgrade(req: Request)
    | SniLookup(servername: string)
  {
    predicate IsUpgrade() { InsecureUpgrade? || SecureUpgrade? }
    predicate IsWeb() { InsecureWeb? || SecureWeb? }
    predicate OnTls() { SecureWeb? || SecureUpgrade? }
  }

  /** What a host entry does with an event. */
  datatype Action =
    | Redirect301(location: string, body: string)
    | NotFound404(body: string)
    | Forward(target: string)
    | CloseSocket(message: string)
    | SniCert(cert: SecureContext)
    | SniNone
    | SniError(message: string)

  const RedirectBody := "Redirecting..."
  const DefaultNotFoundTemplate := "Unknown host domain name: {{requestDomain}}"
  const DomainPlaceholder := "{{requestDomain}}"

  /** A header value as JavaScript renders it in a string. */
  function HeaderText(h: Option<string>): string {
    if h.Some? then h.value else "undefined"
  }

  function Scheme(insecureProtocol: bool): string {
    if insecureProtocol then "http://" else "https://"
  }

  /** `redirectRequest`: a 301 whose Location keeps the request's URL. */
  function RedirectRequest(req: Request, domain: string, insecureProtocol: bool): (a: Action)
    ensures a.Redirect301? && a.body == RedirectBody
    ensures StartsWith(a.location, Scheme(insecureProtocol)) && EndsWith(a.location, req.url)
    ensures |a.location| == |Scheme(insecureProtocol)| + |domain| + |req.url|
    ensures a.location[|Scheme(insecureProtocol)|..|a.location| - |req.url|] == domain
  {
    var location := Scheme(insecureProtocol) + domain + req.url;
    assert location[..|Scheme(insecureProtocol)|] == Scheme(insecureProtocol);
    assert location[|location| - |req.url|..] == req.url;
    assert location[|Scheme(insecureProtocol)|..|location| - |req.url|] == domain;
    Redirect301(location, RedirectBody)
  }

  /** `promoteRedirectToSecure`: https on the requested host. */
  function PromoteRedirectToSecure(req: Request): (a: Action)
    ensures a == Redirect301("https://" + HeaderText(req.host) + req.url, RedirectBody)
  {
    RedirectRequest(req, HeaderText(req.host), false)
  }

  /** `sendInvalidDomainUpgradeError`: the socket is ended with this message. */
  function InvalidDomainUpgrade(req: Request): (a: Action)
    ensures a.CloseSocket? && StartsWith(a.message, "Proxy-Error: Upgrade to invalid domain: ")
    ensures EndsWith(a.message, HeaderText(req.host))
  {
    CloseSocket("Proxy-Error: Upgrade to invalid domain: " + HeaderText(req.host))
  }

  /** `sendError404`: the template with every placeholder replaced by the Host header. */
  function SendError404(req: Request, template: string): (a: Action)
    ensures a.NotFound404?
    ensures (forall j | 0 <= j < |template| :: !OccursAt(template, DomainPlaceholder, j)) ==> a.body == template
  {
    var body := ReplaceAll(template, DomainPlaceholder, HeaderText(req.host));
    if forall j | 0 <= j < |template| :: !OccursAt(template, DomainPlaceholder, j) then
      ReplaceAllNoMatch(template, DomainPlaceholder, HeaderText(req.host), 0);
      NotFound404(body)
    else NotFound404(body)
  }

  /** `handleInsecureWebRequest` of each variant. */
  function HandleInsecureWebRequest(e: HostEntry, req: Request, template: string): (a: Action)
    ensures a.Forward? <==> e.InsecureProxy?
    ensures a.NotFound404? <==> e.Unknown?
    ensures e.IsSecure() ==> a == Redirect301("https://" + HeaderText(req.host) + req.url, RedirectBody)
    ensures e.InsecureRedirect? ==> a == Redirect301("http://" + e.target + req.url, RedirectBody)
    ensures a.Redirect301? ==> StartsWith(a.location, Scheme(!e.IsSecure())) && EndsWith(a.location, req.url)
  {
    match e
    case Unknown => SendError404(req, template)
    case SecureRedirect(_, _) => PromoteRedirectToSecure(req)
    case SecureProxy(_, _) => PromoteRedirectToSecure(req)
    case InsecureRedirect(target) => RedirectRequest(req, target, true)
    case InsecureProxy(target) => Forward(target)
  }

  /** `handleInsecureUpgradeRequest` of each variant: only an insecure proxy
      forwards the upgrade. */
  function HandleInsecureUpgradeRequest(e: HostEntry, req: Request): (a: Action)
    ensures a.Forward? <==> e.InsecureProxy?
    ensures !e.InsecureProxy? ==> a == CloseSocket("Proxy-Error: Upgrade to invalid domain: " + HeaderText(req.host))
  {
    match e
    case InsecureProxy(target) => Forward(target)
    case _ => InvalidDomainUpgrade(req)
  }

  /** `handleSecureWebRequest` of each variant. */
  function HandleSecureWebRequest(e: HostEntry, req: Request, template: string): (a: Action)
    ensures a.Forward? <==> e.SecureProxy?
    ensures a.NotFound404? <==> e.Unknown?
    ensures e.SecureRedirect? ==> a == Redirect301("https://" + e.target + req.url, RedirectBody)
    ensures e.InsecureRedirect? ==> a == Redirect301("http://" + e.target + req.url, RedirectBody)
    ensures e.InsecureProxy? ==> a == Redirect301("http://" + HeaderText(req.host) + req.url, RedirectBody)
    ensures a.Redirect301? ==> StartsWith(a.location, Scheme(!e.IsSecure())) && EndsWith(a.location, req.url)
  {
    match e
    case Unknown => SendError404(req, template)
    case SecureRedirect(_, target) => RedirectRequest(req, target, false)
    case SecureProxy(_, target) => Forward(target)
    case InsecureRedirect(target) => RedirectRequest(req, target, true)
    case InsecureProxy(_) => RedirectRequest(req, HeaderText(req.host), true)
  }

  /** `handleSecureUpgradeRequest` of each variant: only a secure proxy
      forwards the upgrade. */
  function HandleSecureUpgradeRequest(e: HostEntry, req: Request): (a: Action)
    ensures a.Forward? <==> e.SecureProxy?
    ensures !e.SecureProxy? ==> a == CloseSocket("Proxy-Error: Upgrade to invalid domain: " + HeaderText(req.host))
  {
    match e
    case SecureProxy(_, target) => Forward(target)
    case _ => InvalidDomainUpgrade(req)
  }

  /** `handleSNICallback` of each variant. */
  function HandleSniCallback(e: HostEntry): (a: Action)
    ensures e.Unknown? <==> a == SniError("Domain not found")
    ensures e.IsSecure() <==> a.SniCert?
    ensures e.IsSecure() ==> a == SniCert(e.cert)
    ensures e.IsInsecure() <==> a == SniNone
  {
    match e
    case Unknown => SniError("Domain not found")
    case SecureRedirect(cert, _) => SniCert(cert)
    case SecureProxy(cert, _) => SniCert(cert)
    case _ => SniNone
  }

  /** The one handler a listener event reaches. Every redirect is a 301 that
      keeps the request URL; https only for secure entries on the plaintext
      listener and for a secure redirect on TLS. Forwarding happens only
      where the listener matches the proxy's security class, always to the
      entry's own target, and every other upgrade closes the socket. */
  function Dispatch(e: HostEntry, ev: Event, template: string): (a: Action)
    ensures a.Forward? <==>
              (e.SecureProxy? && ev.OnTls()) || (e.InsecureProxy? && (ev.InsecureWeb? || ev.InsecureUpgrade?))
    ensures a.Forward? ==> a.target == e.target
    ensures ev.IsUpgrade() && !a.Forward? ==>
              a == CloseSocket("Proxy-Error: Upgrade to invalid domain: " + HeaderText(ev.req.host))
    ensures a.Redirect301? ==>
              ev.IsWeb() && StartsWith(a.location, Scheme(!e.IsSecure())) && EndsWith(a.location, ev.req.url)
    ensures a.NotFound404? <==> e.Unknown? && ev.IsWeb()
    ensures a.SniCert? || a.SniNone? || a.SniError? <==> ev.SniLookup?
  {
    match ev
    case InsecureWeb(req) => HandleInsecureWebRequest(e, req, template)
    case InsecureUpgrade(req) => HandleInsecureUpgradeRequest(e, req)
    case SecureWeb(req) => HandleSecureWebRequest(e, req, template)
    case SecureUpgrade(req) => HandleSecureUpgradeRequest(e, req)
    case SniLookup(_) => HandleSniCallback(e)
  }

  /** `findHostOrUnkown`: the configured entry, or the Unknown entry for a
      domain that is absent (or an absent Host header). */
  function FindHostOrUnknown(hosts: map<string, HostEntry>, domain: Option<string>): (e: HostEntry)
    ensures domain.Some? && domain.value in hosts ==> e == hosts[domain.value]
    ensures domain.None? || domain.value !in hosts ==> e == Unknown
  {
    if domain.Some? && domain.value in hosts then hosts[domain.value] else Unknown
  }

  /** The immutable routing state the listeners share. */
  datatype Gateway = Gateway(hosts: map<string, HostEntry>, notFoundTemplate: string)

  /** The host name an event is looked up by: the Host header, or the SNI
      server name during the handshake. */
  function LookupKey(ev: Event): Option<string> {
    if ev.SniLookup? then Some(ev.servername) else ev.req.host
  }

  /** The listeners' glue: look the host up, then let its entry decide. */
  function Route(g: Gateway, ev: Event): (a: Action)
    ensures LookupKey(ev).Some? && LookupKey(ev).value in g.hosts ==>
              a == Dispatch(g.hosts[LookupKey(ev).value], ev, g.notFoundTemplate)
    ensures LookupKey(ev).None? || LookupKey(ev).value !in g.hosts ==>
              a == Dispatch(Unknown, ev, g.notFoundTemplate)
    ensures a.Forward? ==>
              LookupKey(ev).Some? && LookupKey(ev).value in g.hosts && a.target == g.hosts[LookupKey(ev).value].target
  {
    Dispatch(FindHostOrUnknown(g.hosts, LookupKey(ev)), ev, g.notFoundTemplate)
  }

  // -----------------------------------------------------------------------
  // Properties of the routing decision

  /** An unconfigured domain is never an error of the process: web requests
      get the 404 page, upgrades a closed socket, handshakes a rejection. */
  lemma UnknownDomainRouting(g: Gateway, ev: Event)
    requires LookupKey(ev).None? || LookupKey(ev).value !in g.hosts
    ensures ev.IsWeb() ==>
              Route(g, ev) == NotFound404(ReplaceAll(g.notFoundTemplate, DomainPlaceholder, HeaderText(ev.req.host)))
    ensures ev.IsUpgrade() ==> Route(g, ev).CloseSocket?
    ensures ev.SniLookup? ==> Route(g, ev) == SniError("Domain not found")
  {
  }

  /** A secure redirect reached over plaintext first promotes the request
      to https on the same host; the follow-up TLS request then goes to the
      target, with the path and query kept in both hops. */
  lemma SecureRedirectTwoHops(g: Gateway, host: string, url: string)
    requires host in g.hosts && g.hosts[host].SecureRedirect?
    ensures Route(g, InsecureWeb(Request(Some(host), url))) == Redirect301("https://" + host + url, RedirectBody)
    ensures Route(g, SecureWeb(Request(Some(host), url))) == Redirect301("https://" + g.hosts[host].target + url, RedirectBody)
  {
  }

  /** A secure proxy host forwards both TLS web requests and TLS upgrades
      to its own target. */
  lemma SecureProxyForwards(g: Gateway, host: string, url: string)
    requires host in g.hosts && g.hosts[host].SecureProxy?
    ensures Route(g, SecureWeb(Request(Some(host), url))) == Forward(g.hosts[host].target)
    ensures Route(g, SecureUpgrade(Request(Some(host), url))) == Forward(g.hosts[host].target)
  {
  }

  /** With the built-in template and a Host header without `$`, the 404 body
      names the requested domain. */
  lemma DefaultNotFoundBody(domain: string)
    requires '$' !in domain
    ensures SendError404(Request(Some(domain), "/"), DefaultNotFoundTemplate)
            == NotFound404("Unknown host domain name: " + domain)
  {
    var prefix := "Unknown host domain name: ";
    assert DefaultNotFoundTemplate == prefix + DomainPlaceholder;
    assert '{' !in prefix;
    ReplaceAllSingle(prefix, DomainPlaceholder, domain);
  }

  // -----------------------------------------------------------------------
  // Forwarding failures

  /** What the catch block of a forwarding call does with the client. */
  datatype FailureOutcome = Throws(reason: string) | EndWith(message: string) | AlreadyEnded

  const ServerUnavailable := "Proxy-Error: Server currently not available"

  /** `proxyWebRequest`'s catch block as written: it calls `this.securePrefix`,
      which no host entry defines, so it throws a TypeError out of the request
      handler before the fallback response is written. */
  function WebForwardFailure(writableEnded: bool): (o: FailureOutcome)
    ensures o.Throws?
  {
    Throws("TypeError: this.securePrefix is not a function")
  }

  /** `proxyUpgradeRequest`'s catch block: the socket is ended with the
      fallback message unless it has already been ended. */
  function UpgradeForwardFailure(writableEnded: bool): (o: FailureOutcome)
    ensures !o.Throws?
    ensures o == EndWith(ServerUnavailable) <==> !writableEnded
  {
    if writableEnded then AlreadyEnded else EndWith(ServerUnavailable)
  }

  /** The web catch block as evidently intended (the prefix helper that does
      exist, `insecurePrefix`): the same recovery as for upgrades. */
  function WebForwardFailureIntended(writableEnded: bool): (o: FailureOutcome)
    ensures !o.Throws?
    ensures o == EndWith(ServerUnavailable) <==> !writableEnded
  {
    UpgradeForwardFailure(writableEnded)
  }

  /** The graceful fallback is unreachable for web requests as written,
      although the same situation on an upgrade reaches it. */
  lemma WebFallbackUnreachable()
    ensures forall ended :: WebForwardFailure(ended) != EndWith(ServerUnavailable)
    ensures UpgradeForwardFailure(false) == EndWith(ServerUnavailable)
    ensures WebForwardFailureIntended(false) == EndWith(ServerUnavailable)
  {
  }

  // -----------------------------------------------------------------------
  // Startup

  /** The parts of `config.json` the routing core depends on: the keys the
      top-level object owns, each certificate record's name and owned fields
      in configuration order, and the owned fields of the `mqtt` section when
      there is one. The 404 page is given as its text (the file contents
      when `notFoundPage` is set), and `certificates` holds the contexts the
      certificate records were loaded into. */
  datatype ProxyConfig = ProxyConfig(
    keys: set<string>,
    certificateFields: seq<(string, set<string>)>,
    mqttFields: Option<set<string>>,
    httpPort: string,
    httpsPort: string,
    mainCert: string,
    certificates: map<string, SecureContext>,
    hosts: seq<(string, HostConfig)>,
    notFoundPage: Option<string>)

  /** The names of the certificate records, which are the keys of the
      certificate map built from them. */
  function CertificateNames(fields: seq<(string, set<string>)>): (names: set<string>)
    ensures forall i :: 0 <= i < |fields| ==> fields[i].0 in names
    ensures forall n :: n in names ==> exists i :: 0 <= i < |fields| && fields[i].0 == n
  {
    set i | 0 <= i < |fields| :: fields[i].0
  }

  /** What startup hands to the two listeners. */
  datatype Listeners = Listeners(httpPort: int, httpsPort: int, defaultContext: SecureContext, gateway: Gateway)

  /** Host names are the keys of a JSON object, hence distinct. */
  predicate DistinctNames(hosts: seq<(string, HostConfig)>) {
    forall i, j :: 0 <= i < j < |hosts| ==> hosts[i].0 != hosts[j].0
  }

  predicate AllCreated(hosts: seq<(string, HostConfig)>, certificates: map<string, SecureContext>) {
    forall i :: 0 <= i < |hosts| ==> Create(hosts[i].0, hosts[i].1, certificates).Success?
  }

  /** The table the loop builds from records that are all created: each
      name in configuration order mapped to its entry. */
  function TableOf(hosts: seq<(string, HostConfig)>, certificates: map<string, SecureContext>): map<string, HostEntry>
    requires AllCreated(hosts, certificates)
  {
    if hosts == [] then map[]
    else
      var last := hosts[|hosts| - 1];
      TableOf(hosts[..|hosts| - 1], certificates)[last.0 := Create(last.0, last.1, certificates).value]
  }

  /** The configured host names. */
  function HostNames(hosts: seq<(string, HostConfig)>): set<string> {
    set i | 0 <= i < |hosts| :: hosts[i].0
  }

  /** One more record adds its name to the names before it. */
  lemma HostNamesSnoc(hosts: seq<(string, HostConfig)>)
    requires hosts != []
    ensures HostNames(hosts) == HostNames(hosts[..|hosts| - 1]) + {hosts[|hosts| - 1].0}
  {
    var init := hosts[..|hosts| - 1];
    forall x | x in HostNames(hosts) ensures x in HostNames(init) + {hosts[|hosts| - 1].0} {
      var i :| 0 <= i < |hosts| && hosts[i].0 == x;
      if i < |init| { assert init[i].0 == x; }
    }
    forall x | x in HostNames(init) ensures x in HostNames(hosts) {
      var i :| 0 <= i < |init| && init[i].0 == x;
      assert hosts[i].0 == x;
    }
  }

  /** The table holds exactly the configured names. */
  lemma {:induction false} TableOfKeys(hosts: seq<(string, HostConfig)>, certificates: map<string, SecureContext>)
    requires AllCreated(hosts, certificates)
    ensures TableOf(hosts, certificates).Keys == HostNames(hosts)
  {
    if hosts != [] {
      TableOfKeys(hosts[..|hosts| - 1], certificates);
      HostNamesSnoc(hosts);
    }
  }

  /** With distinct names, each name maps to its own record's entry. */
  lemma {:induction false} TableOfValues(hosts: seq<(string, HostConfig)>, certificates: map<string, SecureContext>)
    requires DistinctNames(hosts) && AllCreated(hosts, certificates)
    ensures forall i :: 0 <= i < |hosts| ==>
              hosts[i].0 in TableOf(hosts, certificates) &&
              TableOf(hosts, certificates)[hosts[i].0] == Create(hosts[i].0, hosts[i].1, certificates).value
  {
    if hosts != [] {
      var n := |hosts| - 1;
      var init := hosts[..n];
      TableOfValues(init, certificates);
      forall i | 0 <= i < n
        ensures hosts[i].0 in TableOf(hosts, certificates) &&
                TableOf(hosts, certificates)[hosts[i].0] == Create(hosts[i].0, hosts[i].1, certificates).value
      {
        assert hosts[i] == init[i] && hosts[i].0 != hosts[n].0;
      }
    }
  }

  /** The loop that fills the host table: every record in configuration
      order, stopping at the first record that fails. */
  method BuildHostTable(hosts: seq<(string, HostConfig)>, certificates: map<string, SecureContext>)
    returns (table: Result<map<string, HostEntry>, ConfigError>)
    ensures table.Success? <==> AllCreated(hosts, certificates)
    ensures table.Success? ==> table.value == TableOf(hosts, certificates)
    ensures table.Failure? ==>
              exists k :: 0 <= k < |hosts| && AllCreated(hosts[..k], certificates) &&
                Create(hosts[k].0, hosts[k].1, certificates) == Failure(table.error)
  {
    var m: map<string, HostEntry> := map[];
    var i := 0;
    while i < |hosts|
      invariant 0 <= i <= |hosts|
      invariant AllCreated(hosts[..i], certificates)
      invariant m == TableOf(hosts[..i], certificates)
    {
      var (name, obj) := hosts[i];
      var entry := Create(name, obj, certificates);
      if entry.Failure? {
        assert !AllCreated(hosts, certificates) by { assert !Create(hosts[i].0, hosts[i].1, certificates).Success?; }
        return Failure(entry.error);
      }
      assert hosts[..i + 1][..i] == hosts[..i];
      m := m[name := entry.value];
      i := i + 1;
    }
    assert hosts[..i] == hosts;
    table := Success(m);
  }

  /** The keys `checkKeys` demands of the configuration, of each
      certificate record and of the `mqtt` section. */
  const RequiredKeys := ["httpPort", "httpsPort", "mainCert", "certificates", "hosts"]
  const CertificateKeys := ["key", "cert", "ca"]
  const MqttKeys := ["gateway", "client", "username", "password", "path"]

  /** `checkKeys` with `stop` as its callback: the first required key the
      object does not own, since the first `stop` ends the process. */
  function FirstMissing(owned: set<string>, required: seq<string>): (k: Option<string>)
    ensures k.None? <==> forall i :: 0 <= i < |required| ==> required[i] in owned
    ensures k.Some? ==>
              exists i :: 0 <= i < |required| && required[i] == k.value && k.value !in owned
                && forall j :: 0 <= j < i ==> required[j] in owned
    decreases |required|
  {
    if required == [] then None
    else if required[0] !in owned then Some(required[0])
    else
      FirstMissing(owned, required[1..])
  }

  predicate CertificateComplete(fields: set<string>) {
    FirstMissing(fields, CertificateKeys).None?
  }

  /** The certificate loop's `checkKeys`: the first record, in configuration
      order, that misses a field, reported with the first field it misses. */
  function CertificateGap(records: seq<(string, set<string>)>): (e: Option<ConfigError>)
    ensures e.None? <==> forall i :: 0 <= i < |records| ==> CertificateComplete(records[i].1)
    ensures e.Some? ==>
              exists i :: 0 <= i < |records| && !CertificateComplete(records[i].1)
                && e.value == MissingCertificateParameter(FirstMissing(records[i].1, CertificateKeys).value, records[i].0)
                && forall j :: 0 <= j < i ==> CertificateComplete(records[j].1)
    decreases |records|
  {
    if records == [] then None
    else if !CertificateComplete(records[0].1) then
      Some(MissingCertificateParameter(FirstMissing(records[0].1, CertificateKeys).value, records[0].0))
    else
      CertificateGap(records[1..])
  }

  /** The `mqtt` section's `checkKeys`; no section, no check. */
  function MqttGap(mqttFields: Option<set<string>>): (k: Option<string>)
    ensures mqttFields.None? ==> k.None?
    ensures mqttFields.Some? ==> k == FirstMissing(mqttFields.value, MqttKeys)
  {
    if mqttFields.Some? then FirstMissing(mqttFields.value, MqttKeys) else None
  }

  predicate PortsParse(cfg: ProxyConfig) {
    ParseInt(cfg.httpPort, DefaultRadix).Some? && ParseInt(cfg.httpsPort, DefaultRadix).Some?
  }

  /** Every check before the host table passes. */
  predicate PassesBeforeHosts(cfg: ProxyConfig) {
    FirstMissing(cfg.keys, RequiredKeys).None? && PortsParse(cfg) && CertificateGap(cfg.certificateFields).None?
  }

  /** The checks before the host table: the top-level keys, the port
      numbers, then the certificate records; the first that fails. */
  method CheckBeforeHosts(cfg: ProxyConfig) returns (e: Option<ConfigError>)
    ensures e.None? <==> PassesBeforeHosts(cfg)
    ensures FirstMissing(cfg.keys, RequiredKeys).Some? ==>
              e == Some(MissingParameter(FirstMissing(cfg.keys, RequiredKeys).value))
    ensures FirstMissing(cfg.keys, RequiredKeys).None? && !PortsParse(cfg) ==> e == Some(InvalidPorts)
    ensures FirstMissing(cfg.keys, RequiredKeys).None? && PortsParse(cfg) ==> e == CertificateGap(cfg.certificateFields)
  {
    var missing := FirstMissing(cfg.keys, RequiredKeys);
    if missing.Some? {
      return Some(MissingParameter(missing.value));
    }
    if ParseInt(cfg.httpPort, DefaultRadix).None? || ParseInt(cfg.httpsPort, DefaultRadix).None? {
      return Some(InvalidPorts);
    }
    e := CertificateGap(cfg.certificateFields);
  }

  /** The startup sequence: the top-level keys, the port numbers, the
      certificate records, the host table, the `mqtt` section, then the
      main certificate (checked only after the plaintext listener has been
      started). Each failing check stops the process with its error. The
      certificate map holds one context per certificate record. */
  method Startup(cfg: ProxyConfig) returns (r: Result<Listeners, ConfigError>)
    requires cfg.certificates.Keys == CertificateNames(cfg.certificateFields)
    ensures FirstMissing(cfg.keys, RequiredKeys).Some? ==>
              r == Failure(MissingParameter(FirstMissing(cfg.keys, RequiredKeys).value))
    ensures FirstMissing(cfg.keys, RequiredKeys).None? && !PortsParse(cfg) ==> r == Failure(InvalidPorts)
    ensures FirstMissing(cfg.keys, RequiredKeys).None? && PortsParse(cfg) && CertificateGap(cfg.certificateFields).Some? ==>
              r == Failure(CertificateGap(cfg.certificateFields).value)
    ensures PassesBeforeHosts(cfg) && !AllCreated(cfg.hosts, cfg.certificates) ==>
              r.Failure? && exists k :: 0 <= k < |cfg.hosts| && AllCreated(cfg.hosts[..k], cfg.certificates)
                                        && Create(cfg.hosts[k].0, cfg.hosts[k].1, cfg.certificates) == Failure(r.error)
    ensures PassesBeforeHosts(cfg) && AllCreated(cfg.hosts, cfg.certificates) && MqttGap(cfg.mqttFields).Some? ==>
              r == Failure(MissingMqttValue(MqttGap(cfg.mqttFields).value))
    ensures r.Success? <==>
              PassesBeforeHosts(cfg) && AllCreated(cfg.hosts, cfg.certificates)
              && MqttGap(cfg.mqttFields).None? && cfg.mainCert in cfg.certificates
    ensures r.Success? ==> exists i :: 0 <= i < |cfg.certificateFields| && cfg.certificateFields[i].0 == cfg.mainCert
    ensures (r.Failure? && PassesBeforeHosts(cfg) && AllCreated(cfg.hosts, cfg.certificates) && MqttGap(cfg.mqttFields).None?)
              ==> r.error == MissingMainCert(cfg.mainCert)
    ensures r.Success? ==>
              && r.value.httpPort == ParseInt(cfg.httpPort, DefaultRadix).value
              && r.value.httpsPort == ParseInt(cfg.httpsPort, DefaultRadix).value
              && r.value.defaultContext == cfg.certificates[cfg.mainCert]
              && r.value.gateway.notFoundTemplate ==
                   (if cfg.notFoundPage.Some? then cfg.notFoundPage.value else DefaultNotFoundTemplate)
              && r.value.gateway.hosts == TableOf(cfg.hosts, cfg.certificates)
  {
    var early := CheckBeforeHosts(cfg);
    if early.Some? {
      return Failure(early.value);
    }
    var httpPort := ParseInt(cfg.httpPort, DefaultRadix);
    var httpsPort := ParseInt(cfg.httpsPort, DefaultRadix);
    var template := if cfg.notFoundPage.Some? then cfg.notFoundPage.value else DefaultNotFoundTemplate;
    var table := BuildHostTable(cfg.hosts, cfg.certificates);
    if table.Failure? {
      return Failure(table.error);
    }
    var mqttMissing := MqttGap(cfg.mqttFields);
    if mqttMissing.Some? {
      return Failure(MissingMqttValue(mqttMissing.value));
    }
    if cfg.mainCert !in cfg.certificates {
      return Failure(MissingMainCert(cfg.mainCert));
    }
    r := Success(Listeners(httpPort.value, httpsPort.value, cfg.certificates[cfg.mainCert],
                           Gateway(table.value, template)));
  }
}
