/** The two per-request gates: `ApiKeyAuthenticationhandler`, an
    authentication scheme with three answers, and the API variant's
    `ApiKeyManagementMiddleware`, which either answers 401 or lets the
    request through. Request headers are a map from header name to the
    header's values (each possibly `null`). */
module ApiKeyAuth {
  import opened Wrappers
  import Text
  import Guids
  import opened ServiceEntity
  import opened KeyStore
  import opened KeyCache

  const HeaderName := "X-Api-Key"
  const DefaultScheme := "API Key"
  const InvalidKeyMessage := "Invalid Api Key"
  const Status401Unauthorized := 401

  type Headers = map<string, seq<Option<string>>>

  /** The configured identity of the service the requests are for. */
  datatype Settings = Settings(serviceId: Guids.Guid, serviceName: Option<string>)

  /** An `AuthenticationTicket` for a principal with one identity: the
      scheme it was issued under, the identity's authentication type and the
      identity's claims. */
  datatype Ticket = Ticket(authenticationScheme: string, identityType: string, claims: seq<string>)

  datatype AuthResult = NoResult | Fail(message: string) | Success(ticket: Ticket)

  /** `StringValues.FirstOrDefault()`. */
  function FirstValue(values: seq<Option<string>>): (v: Option<string>)
    ensures |values| == 0 ==> v.None?
    ensures |values| > 0 ==> v == values[0]
  {
    if |values| == 0 then None else values[0]
  }

  /** The key a request offers the handler: the header is there, it has a
      value, and its first value is neither `null` nor blank. */
  predicate OffersKey(headers: Headers, key: string) {
    && HeaderName in headers
    && |headers[HeaderName]| > 0
    && headers[HeaderName][0] == Some(key)
    && !Text.AllWhiteSpace(key)
  }

  /** `HandleAuthenticateAsync()`. Without a usable key the answer is
      `NoResult` and the cache is not consulted. Otherwise the service named
      by the options (never by the request) is looked up; a lookup that
      throws propagates, an equal key gives a ticket with no claims, and any
      other key fails. */
  function HandleAuthenticate(headers: Headers, options: Settings, schemeName: string, cache: Cache, store: Store)
    : (r: Lookup<AuthResult>)
    ensures (forall k :: !OffersKey(headers, k)) ==> r == Lookup(Ok(NoResult), cache, 0)
    ensures var lookup := GetService(cache, store, options.serviceId, options.serviceName);
            forall k :: OffersKey(headers, k) ==>
              && r.cache == lookup.cache && r.storeReads == lookup.storeReads
              && (r.result.Ok? <==> lookup.result.Ok?)
              && (lookup.result.Err? ==> r.result == Err(lookup.result.fault))
              && (lookup.result.Ok? && lookup.result.value.apiKey == k ==>
                    r.result == Ok(Success(Ticket(schemeName, schemeName, []))))
              && (lookup.result.Ok? && lookup.result.value.apiKey != k ==>
                    r.result == Ok(Fail(InvalidKeyMessage)))
  {
    if HeaderName !in headers then Lookup(Ok(NoResult), cache, 0)
    else
      var values := headers[HeaderName];
      var apiKey := FirstValue(values);
      if |values| == 0 || Text.IsNullOrWhiteSpace(apiKey) then Lookup(Ok(NoResult), cache, 0)
      else
        assert OffersKey(headers, apiKey.value);
        var lookup := GetService(cache, store, options.serviceId, options.serviceName);
        match lookup.result
        case Err(f) => Lookup(Err(f), lookup.cache, lookup.storeReads)
        case Ok(record) =>
          var answer :=
            if record.apiKey == apiKey.value then Success(Ticket(schemeName, schemeName, []))
            else Fail(InvalidKeyMessage);
          Lookup(Ok(answer), lookup.cache, lookup.storeReads)
  }

  /** Against a coherent cache, the handler issues a ticket exactly when the
      request's first header value is the key the store holds for the
      configured service, and that key is not blank. */
  lemma HandlerAcceptsExactlyStoredKey(headers: Headers, options: Settings, schemeName: string,
                                       cache: Cache, store: Store, row: Service)
    requires Coherent(cache, store)
    requires FindById(store, options.serviceId) == Some(row)
    ensures HandleAuthenticate(headers, options, schemeName, cache, store).result.Ok?
    ensures HandleAuthenticate(headers, options, schemeName, cache, store).result.value.Success?
            <==> OffersKey(headers, row.apiKey)
  {
    GetServiceAgreesWithStore(cache, store, options.serviceId, options.serviceName);
    if HeaderName in headers && |headers[HeaderName]| > 0 && headers[HeaderName][0].Some? {
      var k := headers[HeaderName][0].value;
      if OffersKey(headers, k) {
        assert forall k' :: OffersKey(headers, k') ==> k' == k;
      }
    }
  }

  /** What the request carries decides only whether a lookup happens, never
      which service is looked up: two requests that both offer a key leave
      the same cache behind after the same number of store queries. */
  lemma HandlerLookupIgnoresRequest(h1: Headers, h2: Headers, k1: string, k2: string,
                                    options: Settings, schemeName: string, cache: Cache, store: Store)
    requires OffersKey(h1, k1) && OffersKey(h2, k2)
    ensures var r1 := HandleAuthenticate(h1, options, schemeName, cache, store);
            var r2 := HandleAuthenticate(h2, options, schemeName, cache, store);
            r1.cache == r2.cache && r1.storeReads == r2.storeReads
  {
  }

  /** A gate's effect on the response: the status it set, if any, and how
      many times it invoked the next middleware. */
  datatype GateOutcome = GateOutcome(status: Option<int>, nextInvocations: nat)

  const Rejected := GateOutcome(Some(Status401Unauthorized), 0)
  const PassedOn := GateOutcome(None, 1)

  /** `StringValues != string` is the negation of this: a `StringValues`
      equals a non-null string when it holds exactly that one value. */
  function SameAsSingleValue(values: seq<Option<string>>, s: string): (b: bool)
    ensures b <==> values == [Some(s)]
  {
    |values| == 1 && values[0] == Some(s)
  }

  /** `Invoke(context)` of the middleware. A missing header is refused
      without a lookup; otherwise the configured service is looked up (a
      lookup that throws propagates) and the header must equal its key as a
      whole, with no special case for empty or blank values. */
  function Invoke(headers: Headers, headerName: string, settings: Settings, cache: Cache, store: Store)
    : (r: Lookup<GateOutcome>)
    ensures headerName !in headers ==> r == Lookup(Ok(Rejected), cache, 0)
    ensures r.result.Ok? ==> r.result.value == Rejected || r.result.value == PassedOn
    ensures headerName in headers ==>
              var lookup := GetServiceEntity(cache, store, settings.serviceId, settings.serviceName);
              && r.cache == lookup.cache && r.storeReads == lookup.storeReads
              && (lookup.result.Err? ==> r.result == Err(lookup.result.fault))
              && (lookup.result.Ok? ==>
                    r.result == Ok(if headers[headerName] == [Some(lookup.result.value.apiKey)] then PassedOn else Rejected))
  {
    if headerName !in headers then Lookup(Ok(Rejected), cache, 0)
    else
      var apiKey := headers[headerName];
      var lookup := GetServiceEntity(cache, store, settings.serviceId, settings.serviceName);
      match lookup.result
      case Err(f) => Lookup(Err(f), lookup.cache, lookup.storeReads)
      case Ok(service) =>
        if !SameAsSingleValue(apiKey, service.apiKey) then Lookup(Ok(Rejected), lookup.cache, lookup.storeReads)
        else Lookup(Ok(PassedOn), lookup.cache, lookup.storeReads)
  }

  /** Against a coherent cache, the middleware passes a request on exactly
      when the header holds the stored key of the configured service as its
      only value. */
  lemma MiddlewarePassesExactlyStoredKey(headers: Headers, headerName: string, settings: Settings,
                                         cache: Cache, store: Store, row: Service)
    requires Coherent(cache, store)
    requires FindById(store, settings.serviceId) == Some(row)
    ensures Invoke(headers, headerName, settings, cache, store).result.Ok?
    ensures Invoke(headers, headerName, settings, cache, store).result.value == PassedOn
            <==> headerName in headers && headers[headerName] == [Some(row.apiKey)]
  {
    GetServiceEntityAgreesWithStore(cache, store, settings.serviceId, settings.serviceName);
  }

  /** A blank key: the handler answers `NoResult` without touching the
      cache, while the middleware still performs the lookup. */
  lemma BlankKeyOnlyShortCircuitsHandler(headers: Headers, blank: string, settings: Settings,
                                         schemeName: string, cache: Cache, store: Store)
    requires Text.AllWhiteSpace(blank)
    requires HeaderName in headers && headers[HeaderName] == [Some(blank)]
    ensures HandleAuthenticate(headers, settings, schemeName, cache, store) == Lookup(Ok(NoResult), cache, 0)
    ensures Invoke(headers, HeaderName, settings, cache, store).cache
            == GetServiceEntity(cache, store, settings.serviceId, settings.serviceName).cache
    ensures Invoke(headers, HeaderName, settings, cache, store).storeReads
            == GetServiceEntity(cache, store, settings.serviceId, settings.serviceName).storeReads
  {
  }

  /** A second header value: the handler reads only the first and accepts
      the stored key, the middleware compares the whole list and refuses. */
  lemma SecondValueOnlyMattersToMiddleware(headers: Headers, extra: Option<string>, settings: Settings,
                                           schemeName: string, cache: Cache, store: Store, row: Service)
    requires Coherent(cache, store)
    requires FindById(store, settings.serviceId) == Some(row)
    requires !Text.AllWhiteSpace(row.apiKey)
    requires HeaderName in headers && headers[HeaderName] == [Some(row.apiKey), extra]
    ensures HandleAuthenticate(headers, settings, schemeName, cache, store).result.value.Success?
    ensures Invoke(headers, HeaderName, settings, cache, store).result.value == Rejected
  {
    assert OffersKey(headers, row.apiKey);
    HandlerAcceptsExactlyStoredKey(headers, settings, schemeName, cache, store, row);
    MiddlewarePassesExactlyStoredKey(headers, HeaderName, settings, cache, store, row);
  }
}
