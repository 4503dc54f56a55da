/** Where requests are sent: the client that is built for a base URL, the origin it reports, and the
    check of that origin in a saved report. */
module Target {
  import opened Common
  import opened Admission

  datatype Scheme = Http | Https | OtherScheme

  /** What is looked at of a parsed URL. `loopback` says that the host is a local name or address;
      `origin` is scheme, host and port as text. */
  datatype Url = Url(
    scheme: Scheme, host: Option<string>, loopback: bool, username: string, password: Option<string>,
    query: Option<string>, fragment: Option<string>, origin: string)

  /** The libraries the client is built with: the URL parser, the test of header texts, and whether
      the HTTP client can be set up at all. */
  datatype Web = Web(parse: string -> Option<Url>, fitsHeader: string -> bool, ready: bool)

  predicate HasWebHost(u: Url) { u.scheme != OtherScheme && u.host.Some? }

  predicate NoCredentials(u: Url) { u.username == [] && u.password.None? }

  /** The URL of the requests but for its path, which is no part of what is reported. */
  function Resolve(baseUrl: string, web: Web): Option<Url> {
    match web.parse(Trim(baseUrl))
    case None => None
    case Some(u) => if HasWebHost(u) && NoCredentials(u) then Some(u.(fragment := None)) else None
  }

  predicate SecureEnough(u: Url, allowInsecureHttp: bool) { u.scheme != Http || allowInsecureHttp || u.loopback }

  /** The origin the requests of such a base URL go to, if they may. */
  function OriginFor(baseUrl: string, allowInsecureHttp: bool, web: Web): Option<string> {
    match Resolve(baseUrl, web)
    case None => None
    case Some(u) => if SecureEnough(u, allowInsecureHttp) then Some(u.origin) else None
  }

  /** Building the client: the origin it reports, or nothing when it cannot be built. */
  function Connect(o: Options, web: Web): Option<string> {
    match OriginFor(o.baseUrl, o.allowInsecureHttp, web)
    case None => None
    case Some(origin) =>
      if 1 <= o.maxBodyBytes <= MAX_RESPONSE_BYTES && (o.apiKey.Some? ==> web.fitsHeader(o.apiKey.value)) && web.ready
      then Some(origin) else None
  }

  /** A client can be built iff the base URL is a web URL with a host and without credentials, the server
      is local, behind HTTPS or explicitly allowed, and limit, key and library permit it; it reports the
      origin of that URL. */
  lemma {:induction false} ConnectsIff(o: Options, web: Web)
    ensures Connect(o, web).Some? <==>
      && web.parse(Trim(o.baseUrl)).Some?
      && var u := web.parse(Trim(o.baseUrl)).value;
        && (u.scheme == Https || (u.scheme == Http && (u.loopback || o.allowInsecureHttp)))
        && u.host.Some? && u.username == [] && u.password.None?
        && 1 <= o.maxBodyBytes <= MAX_RESPONSE_BYTES && (o.apiKey.Some? ==> web.fitsHeader(o.apiKey.value)) && web.ready
    ensures Connect(o, web).Some? ==> Connect(o, web).value == web.parse(Trim(o.baseUrl)).value.origin
  {
  }

  // ---- The saved target ----

  predicate IsRedactedOrigin(u: Url, text: string) {
    HasWebHost(u) && NoCredentials(u) && u.query.None? && u.fragment.None? && u.origin == text
  }

  predicate ValidTarget(url: string, model: string, web: Web) {
    && ValidIdentity(model) && 1 <= Utf8Len(url) <= MAX_IDENTITY_BYTES
    && match web.parse(url) case None => false case Some(u) => IsRedactedOrigin(u, url)
  }

  /** Of the URL parser: the origin of a web URL is a text without surrounding white space that reads
      back as a URL with that origin and nothing else, and the empty text is no URL. */
  ghost predicate OriginsReadBack(web: Web) {
    && web.parse([]).None?
    && forall text: string :: web.parse(text).Some? && HasWebHost(web.parse(text).value) ==> ReadsBack(web, web.parse(text).value.origin)
  }

  ghost predicate ReadsBack(web: Web, origin: string) {
    Trim(origin) == origin && web.parse(origin).Some? && IsRedactedOrigin(web.parse(origin).value, origin)
  }

  lemma {:induction false} OriginReadsBack(baseUrl: string, allowInsecureHttp: bool, web: Web)
    requires OriginsReadBack(web) && OriginFor(baseUrl, allowInsecureHttp, web).Some?
    ensures ReadsBack(web, OriginFor(baseUrl, allowInsecureHttp, web).value)
    ensures OriginFor(baseUrl, allowInsecureHttp, web).value != []
  {
    assert web.parse(Trim(baseUrl)).Some? && HasWebHost(web.parse(Trim(baseUrl)).value);
  }

  /** The target a client reports passes the check of saved targets iff its origin is no longer than
      the check allows: resolving can make a short base URL long. */
  lemma {:induction false} ReportedTargetValidIff(o: Options, web: Web)
    requires OriginsReadBack(web) && ValidIdentity(o.model) && Connect(o, web).Some?
    ensures ValidTarget(Connect(o, web).value, o.model, web) <==> Utf8Len(Connect(o, web).value) <= MAX_IDENTITY_BYTES
  {
    OriginReadsBack(o.baseUrl, o.allowInsecureHttp, web);
    Utf8LenAtLeastChars(Connect(o, web).value);
  }

  /** Only the switch for plain HTTP can stand between a base URL and its origin. */
  lemma {:induction false} SwitchOnlyAdmits(baseUrl: string, allowInsecureHttp: bool, web: Web)
    requires OriginFor(baseUrl, allowInsecureHttp, web).Some?
    ensures OriginFor(baseUrl, true, web) == OriginFor(baseUrl, allowInsecureHttp, web)
  {
  }

  /** A saved target is the target of a client with its own URL for a base URL. */
  lemma {:induction false} SavedTargetConnects(url: string, model: string, web: Web)
    requires OriginsReadBack(web) && ValidTarget(url, model, web)
    ensures OriginFor(url, true, web) == Some(url) && ValidIdentity(url)
  {
    assert ReadsBack(web, url);
  }
}
