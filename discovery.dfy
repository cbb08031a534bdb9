/** Provider discovery as the consumer runs it (get_domain, issuer_query,
    _disc_query, provider_config and discover in src/oic/oic/consumer.py):
    from a principal to a Simple Web Discovery query, chasing
    SWD_service_redirect answers, and on to the provider's
    openid-configuration document. The HTTP transport together with
    json.loads is a Responder: the outcome of a GET on a URI. */
module Discovery {
  import opened Common
  import opened UrlQuery

  const SwdRedirectKey: string := "SWD_service_redirect"

  /** ISSUER_URL, the discovery service identifier. */
  const IssuerUrl: string := "http://openid.net" + "/specs/connect/1.0/issuer"

  /** A decoded JSON value. */
  datatype Json =
    | JNull
    | JBool(b: bool)
    | JNum(n: int)
    | JStr(s: string)
    | JArr(items: seq<Json>)
    | JObj(fields: map<string, Json>)

  /** What the transport yields: the host could not be found, or a status
      with a body that does or does not decode. */
  datatype HttpReply<T> = HostNotFound | Reply(status: int, body: Option<T>)

  type Responder = string -> HttpReply<Json>

  /** SWD_PATTERN filled in with a domain. */
  function SwdUri(domain: string): string {
    "http://" + domain + "/.well-known/simple-web-discovery"
  }

  /** OIDCONF_PATTERN filled in with an issuer. */
  function ConfigurationUri(issuer: string): string {
    issuer + "/.well-known/openid-configuration"
  }

  /** Python's `key in j` on a decoded JSON value. */
  function Contains(j: Json, key: string): (r: Result<bool>)
    ensures r.Ok? <==> j.JObj? || j.JArr? || j.JStr?
    ensures j.JObj? ==> (r == Ok(true) <==> key in j.fields)
    ensures j.JArr? ==> (r == Ok(true) <==> exists i :: 0 <= i < |j.items| && j.items[i] == JStr(key))
  {
    match j
    case JObj(m) => Ok(key in m)
    case JArr(xs) => Ok(JStr(key) in xs)
    case JStr(s) => Ok(HasSubstring(s, key))
    case _ => Err(TypeMismatch)
  }

  /** Python's `j[key]` with a string key. */
  function Get(j: Json, key: string): (r: Result<Json>)
    ensures r.Ok? <==> j.JObj? && key in j.fields
    ensures r.Ok? ==> r.value == j.fields[key]
    ensures j.JObj? && key !in j.fields ==> r == Err(KeyNotFound(key))
  {
    match j
    case JObj(m) => if key in m then Ok(m[key]) else Err(KeyNotFound(key))
    case _ => Err(TypeMismatch)
  }

  /** Python's `j[0]`. */
  function First(j: Json): (r: Result<Json>)
    ensures r.Ok? <==> (j.JArr? && |j.items| > 0) || (j.JStr? && |j.s| > 0)
    ensures j.JArr? && |j.items| > 0 ==> r == Ok(j.items[0])
    ensures j.JStr? && |j.s| > 0 ==> r == Ok(JStr([j.s[0]]))
  {
    match j
    case JArr(xs) => if |xs| > 0 then Ok(xs[0]) else Err(IndexOutOfRange)
    case JStr(s) => if |s| > 0 then Ok(JStr([s[0]])) else Err(IndexOutOfRange)
    case JObj(_) => Err(KeyNotFound("0"))
    case _ => Err(TypeMismatch)
  }

  /** result["SWD_service_redirect"]["locations"][0] */
  function RedirectLocation(doc: Json): (r: Result<string>)
    ensures r.Ok? ==> doc.JObj? && SwdRedirectKey in doc.fields
  {
    var redirect :- Get(doc, SwdRedirectKey);
    var locations :- Get(redirect, "locations");
    var first :- First(locations);
    if first.JStr? then Ok(first.s) else Err(TypeMismatch)
  }

  function IssuerQueryPairs(principal: string): seq<(string, string)> {
    [("service", IssuerUrl), ("principal", principal)]
  }

  lemma IssuerUrlIsOctets()
    ensures IsOctets(IssuerUrl)
  {
    var s := IssuerUrl;
    forall i | 0 <= i < |s| ensures s[i] as int < 256 {
      assert s[i] in "htp:/openid.scfgu10r";
    }
  }

  /** issuer_query: the location, then '?' and the service identifier and
      the principal as an encoded query. The two items are written out here;
      `IssuerQueryIsUrlEncode` proves they are what urlencode makes of the
      pairs. */
  function IssuerQuery(location: string, principal: string): (r: string)
    requires IsOctets(principal)
    ensures IsPrefix(location + "?", r)
  {
    IssuerUrlIsOctets();
    location + "?" + (("service" + "=" + QuotePlus(IssuerUrl)) + "&" + ("principal" + "=" + QuotePlus(principal)))
  }

  /** The issuer query is the location, '?' and urlencode of the service
      identifier and the principal, in that order. */
  lemma IssuerQueryIsUrlEncode(location: string, principal: string)
    requires IsOctets(principal)
    ensures PairsAreOctets(IssuerQueryPairs(principal))
    ensures IssuerQuery(location, principal) == location + "?" + UrlEncode(IssuerQueryPairs(principal))
  {
    IssuerUrlIsOctets();
    QueryKeysAreSafe();
    UrlEncodeTwo("service", IssuerUrl, "principal", principal);
  }

  /** The two query keys are left as they are by quote_plus. */
  lemma QueryKeysAreSafe()
    ensures IsOctets("service") && QuotePlus("service") == "service"
    ensures IsOctets("principal") && QuotePlus("principal") == "principal"
  {
    KeyIsSafe("service");
    KeyIsSafe("principal");
  }

  lemma KeyIsSafe(key: string)
    requires forall i :: 0 <= i < |key| ==> 'a' <= key[i] <= 'z'
    ensures IsOctets(key) && QuotePlus(key) == key
  {
    QuotePlusSafe(key);
  }

  /** When the location has no query of its own, the URL reads back as the
      location, and its query as the service identifier and the principal. */
  lemma IssuerQueryDecodes(location: string, principal: string)
    requires '?' !in location && IsOctets(principal)
    ensures BaseOf(IssuerQuery(location, principal)) == location
    ensures DecodeQuery(QueryOf(IssuerQuery(location, principal))) ==
              [("service", IssuerUrl), ("principal", principal)]
  {
    IssuerQueryIsUrlEncode(location, principal);
    UrlWithQuery(location, IssuerQueryPairs(principal));
  }

  /** Unpacking a sequence into two names, which raises unless it has two items. */
  function Unpack2(xs: seq<string>): Result<(string, string)> {
    if |xs| == 2 then Ok((xs[0], xs[1])) else Err(UnpackError)
  }

  predicate IsSchemeChar(c: char) {
    ('A' <= c <= 'Z') || ('a' <= c <= 'z') || ('0' <= c <= '9') || c == '+' || c == '-' || c == '.'
  }

  predicate IsAllDigits(s: string) {
    forall i :: 0 <= i < |s| ==> '0' <= s[i] <= '9'
  }

  /** The URL with a leading `scheme:` taken off, as urlparse takes it off:
      always for `http`, otherwise only when the rest is empty or is not a
      bare port number. */
  function AfterScheme(url: string): (r: string)
    ensures r == url || (|r| + 2 <= |url| && r == url[|url| - |r|..]
                         && url[|url| - |r| - 1] == ':' && ':' !in url[..|url| - |r| - 1])
  {
    var parts := Split(url, ':');
    var scheme, rest := parts[0], Join(parts[1..], ':');
    JoinSplit(url, ':');
    assert |parts| > 1 ==> url == scheme + [':'] + rest;
    if |parts| == 1 || scheme == "" || !(forall i :: 0 <= i < |scheme| ==> IsSchemeChar(scheme[i])) then url
    else if scheme == "http" then rest
    else if rest == "" || !IsAllDigits(rest) then rest
    else url
  }

  predicate IsNetlocEnd(c: char) {
    c == '/' || c == '?' || c == '#'
  }

  /** The longest prefix free of '/', '?' and '#'. */
  function UpToNetlocEnd(s: string): (r: string)
    ensures |r| <= |s| && r == s[..|r|]
    ensures forall i :: 0 <= i < |r| ==> !IsNetlocEnd(r[i])
    ensures |r| < |s| ==> IsNetlocEnd(s[|r|])
  {
    if s == [] || IsNetlocEnd(s[0]) then [] else [s[0]] + UpToNetlocEnd(s[1..])
  }

  /** urlparse(url)[1], the network location. */
  function Netloc(url: string): (r: string)
    ensures forall i :: 0 <= i < |r| ==> !IsNetlocEnd(r[i])
  {
    var u := AfterScheme(url);
    if |u| >= 2 && u[..2] == "//" then UpToNetlocEnd(u[2..]) else ""
  }

  /** get_domain: for "mail" the part after the single '@', for "url" the
      network location, otherwise "". The "url" branch is the corrected one
      (see GetDomainAsWritten). */
  function GetDomain(principal: string, idtype: string): (r: Result<string>)
    ensures r.Err? ==> idtype == "mail" && r.error == UnpackError
    ensures idtype == "mail" && r.Ok? ==> '@' !in r.value
    ensures idtype != "mail" && idtype != "url" ==> r == Ok("")
  {
    if idtype == "mail" then
      var parts :- Unpack2(Split(principal, '@'));
      Ok(parts.1)
    else if idtype == "url" then Ok(Netloc(principal))
    else Ok("")
  }

  /** get_domain as written: the "url" branch unpacks the one-item slice
      urlparse(principal)[1:2] into two names. */
  function GetDomainAsWritten(principal: string, idtype: string): (r: Result<string>)
    ensures idtype == "url" ==> r == Err(UnpackError)
    ensures idtype != "url" ==> r == GetDomain(principal, idtype)
  {
    if idtype == "mail" then
      var parts :- Unpack2(Split(principal, '@'));
      Ok(parts.1)
    else if idtype == "url" then
      match Unpack2([Netloc(principal)])
      case Ok(parts) => Ok(parts.0)
      case Err(e) => Err(e)
    else Ok("")
  }

  /** A mail principal yields a domain exactly when it has one '@', and the
      domain is the text after it. */
  lemma {:induction false} GetDomainMail(principal: string, domain: string)
    ensures GetDomain(principal, "mail") == Ok(domain) <==>
              exists local :: '@' !in local && '@' !in domain && principal == local + "@" + domain
    ensures GetDomain(principal, "mail").Err? ==> GetDomain(principal, "mail") == Err(UnpackError)
  {
    var parts := Split(principal, '@');
    if GetDomain(principal, "mail") == Ok(domain) {
      JoinSplit(principal, '@');
      assert parts[1..] == [parts[1]];
      assert principal == parts[0] + "@" + domain;
    }
    if exists local :: '@' !in local && '@' !in domain && principal == local + "@" + domain {
      var local :| '@' !in local && '@' !in domain && principal == local + "@" + domain;
      SplitAppend(local, domain, '@');
      SplitNoSep(local, '@');
      SplitNoSep(domain, '@');
    }
  }

  lemma {:induction false} UpToNetlocEndOf(host: string, tail: string)
    requires forall i :: 0 <= i < |host| ==> !IsNetlocEnd(host[i])
    requires tail == [] || IsNetlocEnd(tail[0])
    ensures UpToNetlocEnd(host + tail) == host
  {
    if host != [] {
      assert (host + tail)[1..] == host[1..] + tail;
      UpToNetlocEndOf(host[1..], tail);
      assert host == [host[0]] + host[1..];
    } else {
      assert host + tail == tail;
    }
  }

  /** The corrected "url" branch gives the host (with any port) of an http URL. */
  lemma GetDomainUrl(host: string, tail: string)
    requires forall i :: 0 <= i < |host| ==> !IsNetlocEnd(host[i])
    requires tail == [] || IsNetlocEnd(tail[0])
    ensures GetDomain("http://" + host + tail, "url") == Ok(host)
  {
    NetlocOfHttp(host, tail);
    assert "url" != "mail" by { assert "url"[0] != "mail"[0]; }
  }

  /** The network location of `http://host` followed by a path, query or
      fragment is the host. */
  lemma NetlocOfHttp(host: string, tail: string)
    requires forall i :: 0 <= i < |host| ==> !IsNetlocEnd(host[i])
    requires tail == [] || IsNetlocEnd(tail[0])
    ensures Netloc("http://" + host + tail) == host
  {
    var url := "http://" + host + tail;
    var rest := "//" + host + tail;
    assert AfterScheme(url) == rest by {
      assert url == "http" + [':'] + rest;
      AfterSchemeHttp(rest);
    }
    assert rest[..2] == "//" && rest[2..] == host + tail;
    UpToNetlocEndOf(host, tail);
  }

  /** urlparse always takes an `http:` scheme off. */
  lemma AfterSchemeHttp(rest: string)
    ensures AfterScheme("http" + [':'] + rest) == rest
  {
    var url := "http" + [':'] + rest;
    SplitAppend("http", rest, ':');
    SplitNoSep("http", ':');
    var parts := Split(url, ':');
    assert parts[0] == "http" && parts[1..] == Split(rest, ':');
    JoinSplit(rest, ':');
  }

  /** For an http URL whose host the corrected branch finds, the branch as
      written raises instead. */
  lemma GetDomainUrlAsWrittenLosesHost(host: string, tail: string)
    requires forall i :: 0 <= i < |host| ==> !IsNetlocEnd(host[i])
    requires tail == [] || IsNetlocEnd(tail[0])
    ensures GetDomain("http://" + host + tail, "url") == Ok(host)
    ensures GetDomainAsWritten("http://" + host + tail, "url") == Err(UnpackError)
  {
    GetDomainUrl(host, tail);
  }

  /** What one request of _disc_query decides: an answer, or the next URI to ask. */
  datatype DiscStep = Done(result: Result<Json>) | Follow(next: string)

  /** One request of _disc_query: a host not found over http:// is asked
      again over https://, a 200 answer naming SWD_service_redirect sends
      the query on to the first redirect location, any other 200 answer is
      the result and any other status an error. */
  function Step(uri: string, principal: string, respond: Responder): (s: DiscStep)
    requires IsOctets(principal)
    ensures s.Done? && s.result.Ok? ==> Contains(s.result.value, SwdRedirectKey) == Ok(false)
  {
    match respond(uri)
    case HostNotFound =>
      if IsPrefix("http://", uri) then Follow("https://" + uri[7..]) else Done(Err(ServerNotFound(uri)))
    case Reply(status, body) =>
      if status != 200 then Done(Err(DiscoveryFailed(status)))
      else if body.None? then Done(Err(NotJson))
      else
        var doc := body.value;
        match Contains(doc, SwdRedirectKey)
        case Err(e) => Done(Err(e))
        case Ok(redirected) =>
          if !redirected then Done(Ok(doc))
          else
            match RedirectLocation(doc)
            case Err(e) => Done(Err(e))
            case Ok(location) => Follow(IssuerQuery(location, principal))
  }

  /** _disc_query, with `hops` bounding the number of requests it may make
      (the source's recursion has no bound). A document it returns never
      asks for another redirect. */
  function DiscQuery(uri: string, principal: string, respond: Responder, hops: nat): (r: Result<Json>)
    requires IsOctets(principal)
    ensures r.Ok? ==> Contains(r.value, SwdRedirectKey) == Ok(false)
    decreases hops, 0
  {
    if hops == 0 then Err(HopLimit)
    else Continue(Step(uri, principal, respond), principal, respond, hops - 1)
  }

  /** What _disc_query makes of one request's decision: the answer, or the
      query sent on to the next URI with the hops that remain. */
  function Continue(step: DiscStep, principal: string, respond: Responder, hops: nat): (r: Result<Json>)
    requires IsOctets(principal)
    requires step.Done? && step.result.Ok? ==> Contains(step.result.value, SwdRedirectKey) == Ok(false)
    ensures r.Ok? ==> Contains(r.value, SwdRedirectKey) == Ok(false)
    decreases hops, 1
  {
    match step
    case Done(result) => result
    case Follow(next) => DiscQuery(next, principal, respond, hops)
  }

  /** A larger hop bound changes no answer that the smaller bound reached. */
  lemma {:induction false} DiscQueryHopsMonotone(uri: string, principal: string, respond: Responder, hops: nat, more: nat)
    requires IsOctets(principal)
    requires hops <= more
    requires DiscQuery(uri, principal, respond, hops) != Err(HopLimit)
    ensures DiscQuery(uri, principal, respond, more) == DiscQuery(uri, principal, respond, hops)
    decreases hops, 0
  {
    var step := Step(uri, principal, respond);
    assert DiscQuery(uri, principal, respond, hops) == Continue(step, principal, respond, hops - 1);
    assert DiscQuery(uri, principal, respond, more) == Continue(step, principal, respond, more - 1);
    ContinueHopsMonotone(step, principal, respond, hops - 1, more - 1);
  }

  lemma {:induction false} ContinueHopsMonotone(step: DiscStep, principal: string, respond: Responder, hops: nat, more: nat)
    requires IsOctets(principal)
    requires step.Done? && step.result.Ok? ==> Contains(step.result.value, SwdRedirectKey) == Ok(false)
    requires hops <= more
    requires Continue(step, principal, respond, hops) != Err(HopLimit)
    ensures Continue(step, principal, respond, more) == Continue(step, principal, respond, hops)
    decreases hops, 1
  {
    if step.Follow? {
      DiscQueryHopsMonotone(step.next, principal, respond, hops, more);
    }
  }

  /** A host not found over http:// is asked again over https:// with the
      same rest of the URI, once: a second miss is an error. */
  lemma HttpFallsBackToHttpsOnce(rest: string, principal: string, respond: Responder, hops: nat)
    requires IsOctets(principal) && hops >= 2
    requires respond("http://" + rest) == HostNotFound
    ensures DiscQuery("http://" + rest, principal, respond, hops) ==
              DiscQuery("https://" + rest, principal, respond, hops - 1)
    ensures respond("https://" + rest) == HostNotFound ==>
              DiscQuery("http://" + rest, principal, respond, hops) == Err(ServerNotFound("https://" + rest))
  {
    var uri := "http://" + rest;
    assert IsPrefix("http://", uri) && uri[7..] == rest;
    assert !IsPrefix("http://", "https://" + rest) by {
      assert ("https://" + rest)[4] == 's';
    }
  }

  /** A host not found on a URI that is not http:// is not retried: the
      error is raised at once. */
  lemma NonHttpHostNotFoundFails(uri: string, principal: string, respond: Responder, hops: nat)
    requires IsOctets(principal) && hops >= 1
    requires respond(uri) == HostNotFound && !IsPrefix("http://", uri)
    ensures DiscQuery(uri, principal, respond, hops) == Err(ServerNotFound(uri))
  {
  }

  /** A redirecting answer is followed: the result is what the redirected
      location answers, not the redirecting document. */
  lemma RedirectIsFollowed(uri: string, principal: string, respond: Responder, hops: nat,
                           location: string, target: Json)
    requires IsOctets(principal) && hops >= 2
    requires respond(uri).Reply? && respond(uri).status == 200 && respond(uri).body.Some?
    requires Contains(respond(uri).body.value, SwdRedirectKey) == Ok(true)
    requires RedirectLocation(respond(uri).body.value) == Ok(location)
    requires respond(IssuerQuery(location, principal)) == Reply(200, Some(target))
    requires Contains(target, SwdRedirectKey) == Ok(false)
    ensures DiscQuery(uri, principal, respond, hops) == Ok(target)
  {
    var next := IssuerQuery(location, principal);
    assert Step(uri, principal, respond) == Follow(next);
    assert Step(next, principal, respond) == Done(Ok(target));
    assert DiscQuery(next, principal, respond, hops - 1) == Ok(target);
  }

  /** Every status other than 200 ends discovery with that status. */
  lemma NonOkStatusFails(uri: string, principal: string, respond: Responder, hops: nat)
    requires IsOctets(principal) && hops >= 1
    requires respond(uri).Reply? && respond(uri).status != 200
    ensures DiscQuery(uri, principal, respond, hops) == Err(DiscoveryFailed(respond(uri).status))
  {
  }

  /** The parsed provider configuration document (from_json is not part of this model). */
  datatype ProviderConfiguration = ProviderConfiguration(doc: map<string, Json>)

  /** provider_config: fetch the issuer's openid-configuration; only a 200
      with a JSON object succeeds. */
  function ProviderConfig(issuer: Json, respond: Responder): (r: Result<ProviderConfiguration>)
    ensures r.Ok? <==>
              && issuer.JStr? && respond(ConfigurationUri(issuer.s)).Reply?
              && respond(ConfigurationUri(issuer.s)).status == 200
              && respond(ConfigurationUri(issuer.s)).body.Some?
              && respond(ConfigurationUri(issuer.s)).body.value.JObj?
    ensures r.Ok? ==> respond(ConfigurationUri(issuer.s)) == Reply(200, Some(JObj(r.value.doc)))
  {
    match issuer
    case JStr(s) =>
      (match respond(ConfigurationUri(s))
       case HostNotFound => Err(ServerNotFound(ConfigurationUri(s)))
       case Reply(status, body) =>
         if status != 200 then Err(DiscoveryFailed(status))
         else if body.None? || !body.value.JObj? then Err(NotJson)
         else Ok(ProviderConfiguration(body.value.fields)))
    case _ => Err(TypeMismatch)
  }

  /** What discover returns: a provider configuration, or the raw "location"
      of the discovery document. */
  datatype Discovered = Configured(config: ProviderConfiguration) | RawLocation(location: Json)

  /** provider_config(result["locations"][0]) */
  function ConfigFromDocument(doc: Json, respond: Responder): (r: Result<ProviderConfiguration>)
    ensures r.Ok? ==> doc.JObj? && "locations" in doc.fields
    ensures doc.JObj? && "locations" in doc.fields && doc.fields["locations"].JArr?
            && |doc.fields["locations"].items| > 0 ==>
              r == ProviderConfig(doc.fields["locations"].items[0], respond)
  {
    var locations :- Get(doc, "locations");
    var first :- First(locations);
    ProviderConfig(first, respond)
  }

  /** discover: resolve the principal's domain by Simple Web Discovery, then
      fetch the configuration of the first location found; any failure in
      that last step falls back to the document's "location". */
  function Discover(principal: string, idtype: string, respond: Responder, hops: nat): (r: Result<Discovered>)
    requires IsOctets(principal)
    ensures GetDomain(principal, idtype).Err? ==> r == Err(GetDomain(principal, idtype).error)
    ensures GetDomain(principal, idtype).Ok? ==>
              var q := DiscQuery(IssuerQuery(SwdUri(GetDomain(principal, idtype).value), principal), principal, respond, hops);
              q.Err? ==> r == Err(q.error)
    ensures r.Ok? ==>
              && GetDomain(principal, idtype).Ok?
              && var q := DiscQuery(IssuerQuery(SwdUri(GetDomain(principal, idtype).value), principal), principal, respond, hops);
              && q.Ok?
              && (r.value.Configured? <==> ConfigFromDocument(q.value, respond).Ok?)
              && (r.value.Configured? ==> r.value.config == ConfigFromDocument(q.value, respond).value)
              && (r.value.RawLocation? ==> Get(q.value, "location") == Ok(r.value.location))
  {
    var domain :- GetDomain(principal, idtype);
    var doc :- DiscQuery(IssuerQuery(SwdUri(domain), principal), principal, respond, hops);
    var config := ConfigFromDocument(doc, respond);
    if config.Ok? then Ok(Configured(config.value))
    else
      var location :- Get(doc, "location");
      Ok(RawLocation(location))
  }

  /** Once the discovery document is in hand, discover fails only when it
      has no "location" to fall back on: the configuration fetch cannot make
      it fail; and when that fetch succeeds its result is returned. */
  lemma DiscoverFallsBack(principal: string, idtype: string, respond: Responder, hops: nat, doc: Json)
    requires IsOctets(principal)
    requires GetDomain(principal, idtype).Ok?
    requires DiscQuery(IssuerQuery(SwdUri(GetDomain(principal, idtype).value), principal), principal, respond, hops) == Ok(doc)
    ensures ConfigFromDocument(doc, respond).Ok? ==>
              Discover(principal, idtype, respond, hops) == Ok(Configured(ConfigFromDocument(doc, respond).value))
    ensures doc.JObj? && "location" in doc.fields ==> Discover(principal, idtype, respond, hops).Ok?
    ensures Discover(principal, idtype, respond, hops).Err? ==>
              ConfigFromDocument(doc, respond).Err? && Get(doc, "location").Err?
  {
  }

  /** The discovery query for a mail principal goes to the SWD location of
      the principal's domain and carries the principal. */
  lemma MailDiscoveryQuery(local: string, domain: string)
    requires '@' !in local && '@' !in domain && '?' !in domain
    requires IsOctets(local + "@" + domain)
    ensures GetDomain(local + "@" + domain, "mail") == Ok(domain)
    ensures var uri := IssuerQuery(SwdUri(domain), local + "@" + domain);
            && BaseOf(uri) == SwdUri(domain)
            && DecodeQuery(QueryOf(uri)) == [("service", IssuerUrl), ("principal", local + "@" + domain)]
  {
    GetDomainMail(local + "@" + domain, domain);
    assert '?' !in SwdUri(domain);
    IssuerQueryDecodes(SwdUri(domain), local + "@" + domain);
  }
}
