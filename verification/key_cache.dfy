/** The cache-aside lookups in front of the key store: `ApiKeyCacheService`
    of the key-store variant (read-only `ServiceRecord`s, one service or the
    whole list) and of the API variant (the tracked `Service` entity).
    `IMemoryCache` is a map from string keys to whatever was stored; the
    typed `TryGetValue<T>` misses when the stored value is of another type.
    Each lookup reports how many store queries it made. */
module KeyCache {
  import opened Wrappers
  import Guids
  import opened ServiceEntity
  import opened KeyStore

  /** The values that can sit in the shared memory cache. `Foreign` is an
      entry some other component stored, of a type neither lookup reads. */
  datatype CacheValue =
    | RecordEntry(record: ServiceRecord)
    | RecordList(records: seq<ServiceRecord>)
    | EntityEntry(entity: Service)
    | Foreign

  type Cache = map<string, CacheValue>

  /** A lookup's answer (or the exception it throws), the cache it leaves
      behind and the number of store queries it issued. */
  datatype Lookup<T> = Lookup(result: Result<T>, cache: Cache, storeReads: nat)

  /** The fixed key of the cached service list. */
  const ServicesCacheKey := "JGP-Services"

  const NotFoundMessage := "Service not found"
  const NoServicesMessage := "No Services Found"

  /** A `null` service name interpolates as the empty string. */
  function NameText(name: Option<string>): string {
    name.GetOr("")
  }

  /** `$"{serviceId}-{serviceName}"`. */
  function CacheKey(id: Guids.Guid, name: Option<string>): (k: string)
    ensures |k| == 37 + |NameText(name)|
  {
    Guids.Format(id) + "-" + NameText(name)
  }

  /** `k` is a per-service key of the service `id`, under whichever name. */
  predicate KeyOf(k: string, id: Guids.Guid) {
    |k| >= 37 && k[..37] == Guids.Format(id) + "-"
  }

  lemma CacheKeyOf(id: Guids.Guid, name: Option<string>)
    ensures KeyOf(CacheKey(id, name), id)
  {
    assert CacheKey(id, name)[..37] == Guids.Format(id) + "-";
  }

  /** A per-service key names a single service. */
  lemma KeyOfUnique(k: string, id1: Guids.Guid, id2: Guids.Guid)
    requires KeyOf(k, id1) && KeyOf(k, id2)
    ensures id1 == id2
  {
    assert Guids.Format(id1) == k[..36] == Guids.Format(id2);
    Guids.FormatInjective(id1, id2);
  }

  /** Distinct (identifier, name text) pairs never share a cache entry; the
      names `null` and "" do. */
  lemma CacheKeyInjective(id1: Guids.Guid, n1: Option<string>, id2: Guids.Guid, n2: Option<string>)
    requires CacheKey(id1, n1) == CacheKey(id2, n2)
    ensures id1 == id2 && NameText(n1) == NameText(n2)
  {
    CacheKeyOf(id1, n1);
    CacheKeyOf(id2, n2);
    KeyOfUnique(CacheKey(id1, n1), id1, id2);
    assert NameText(n1) == CacheKey(id1, n1)[37..];
    assert NameText(n2) == CacheKey(id2, n2)[37..];
  }

  /** A per-service entry can never overwrite the service list. */
  lemma CacheKeyIsNotListKey(id: Guids.Guid, name: Option<string>)
    ensures CacheKey(id, name) != ServicesCacheKey
  {
  }

  /** `TryGetValue(key, out ServiceRecord record)`. */
  function CachedRecord(cache: Cache, key: string): Option<ServiceRecord> {
    if key in cache && cache[key].RecordEntry? then Some(cache[key].record) else None
  }

  /** `TryGetValue(ServiceCacheKey, out List<ServiceRecord> services)`. */
  function CachedList(cache: Cache): Option<seq<ServiceRecord>> {
    if ServicesCacheKey in cache && cache[ServicesCacheKey].RecordList? then Some(cache[ServicesCacheKey].records) else None
  }

  /** `TryGetValue(cacheKey, out Service service)`. */
  function CachedEntity(cache: Cache, key: string): Option<Service> {
    if key in cache && cache[key].EntityEntry? then Some(cache[key].entity) else None
  }

  /** `GetServiceAsync` of the key-store variant. A hit answers from the
      cache; a miss queries the store by identifier only, throws when no row
      has it (caching nothing), and otherwise caches and returns the row's
      projection. */
  function GetService(cache: Cache, store: Store, id: Guids.Guid, name: Option<string>): (r: Lookup<ServiceRecord>)
    ensures CachedRecord(cache, CacheKey(id, name)).Some? ==>
              r == Lookup(Ok(CachedRecord(cache, CacheKey(id, name)).value), cache, 0)
    ensures CachedRecord(cache, CacheKey(id, name)).None? ==> r.storeReads == 1
    ensures CachedRecord(cache, CacheKey(id, name)).None? && FindById(store, id).None? ==>
              r.result == Err(ArgumentError(NotFoundMessage)) && r.cache == cache
    ensures CachedRecord(cache, CacheKey(id, name)).None? && FindById(store, id).Some? ==>
              && r.result == Ok(Project(FindById(store, id).value))
              && r.cache == cache[CacheKey(id, name) := RecordEntry(r.result.value)]
  {
    var key := CacheKey(id, name);
    match CachedRecord(cache, key)
    case Some(record) => Lookup(Ok(record), cache, 0)
    case None =>
      match FindById(store, id)
      case None => Lookup(Err(ArgumentError(NotFoundMessage)), cache, 1)
      case Some(service) =>
        var record := Project(service);
        Lookup(Ok(record), cache[key := RecordEntry(record)], 1)
  }

  /** `GetServicesAsync`: the cached list, or the projection of the whole
      table, cached under the fixed key unless the table is empty, in which
      case it throws and caches nothing. */
  function GetServices(cache: Cache, store: Store): (r: Lookup<seq<ServiceRecord>>)
    ensures CachedList(cache).Some? ==> r == Lookup(Ok(CachedList(cache).value), cache, 0)
    ensures CachedList(cache).None? ==> r.storeReads == 1
    ensures CachedList(cache).None? && |store| == 0 ==>
              r.result == Err(ArgumentError(NoServicesMessage)) && r.cache == cache
    ensures CachedList(cache).None? && |store| > 0 ==>
              && r.result == Ok(ListAll(store))
              && r.cache == cache[ServicesCacheKey := RecordList(ListAll(store))]
  {
    match CachedList(cache)
    case Some(services) => Lookup(Ok(services), cache, 0)
    case None =>
      var services := ListAll(store);
      if |services| == 0 then Lookup(Err(ArgumentError(NoServicesMessage)), cache, 1)
      else Lookup(Ok(services), cache[ServicesCacheKey := RecordList(services)], 1)
  }

  /** `GetServiceAsync` of the API variant: the same cache-aside pattern over
      the entity itself. */
  function GetServiceEntity(cache: Cache, store: Store, id: Guids.Guid, name: Option<string>): (r: Lookup<Service>)
    ensures CachedEntity(cache, CacheKey(id, name)).Some? ==>
              r == Lookup(Ok(CachedEntity(cache, CacheKey(id, name)).value), cache, 0)
    ensures CachedEntity(cache, CacheKey(id, name)).None? ==> r.storeReads == 1
    ensures CachedEntity(cache, CacheKey(id, name)).None? && FindById(store, id).None? ==>
              r.result == Err(ArgumentError(NotFoundMessage)) && r.cache == cache
    ensures CachedEntity(cache, CacheKey(id, name)).None? && FindById(store, id).Some? ==>
              && r.result == Ok(FindById(store, id).value)
              && r.cache == cache[CacheKey(id, name) := EntityEntry(r.result.value)]
  {
    var key := CacheKey(id, name);
    match CachedEntity(cache, key)
    case Some(service) => Lookup(Ok(service), cache, 0)
    case None =>
      match FindById(store, id)
      case None => Lookup(Err(ArgumentError(NotFoundMessage)), cache, 1)
      case Some(service) => Lookup(Ok(service), cache[key := EntityEntry(service)], 1)
  }

  /** The cache agrees with the table: every per-service entry sits under a
      key of its own service and equals (the projection of) that service's
      row, and a cached list is the projection of the whole, non-empty table. */
  predicate Coherent(cache: Cache, store: Store) {
    forall k :: k in cache ==> EntryCoherent(k, cache[k], store)
  }

  predicate EntryCoherent(k: string, v: CacheValue, store: Store) {
    match v
    case RecordEntry(rec) =>
      KeyOf(k, rec.serviceId) && FindById(store, rec.serviceId).Some?
      && Project(FindById(store, rec.serviceId).value) == rec
    case RecordList(records) => k == ServicesCacheKey && |records| > 0 && records == ListAll(store)
    case EntityEntry(e) => KeyOf(k, e.serviceId) && FindById(store, e.serviceId) == Some(e)
    case Foreign => true
  }

  /** An empty cache, or one holding only foreign entries, is coherent. */
  lemma ForeignOnlyIsCoherent(cache: Cache, store: Store)
    requires forall k :: k in cache ==> cache[k] == Foreign
    ensures Coherent(cache, store)
  {
  }

  /** Each lookup keeps the cache coherent with an unchanged table. */
  lemma GetServicePreservesCoherence(cache: Cache, store: Store, id: Guids.Guid, name: Option<string>)
    requires Coherent(cache, store)
    ensures Coherent(GetService(cache, store, id, name).cache, store)
  {
    CacheKeyOf(id, name);
    var fr := FindById(store, id);
    if fr.Some? {
      assert fr.value.serviceId == id;
    }
  }

  lemma GetServicesPreservesCoherence(cache: Cache, store: Store)
    requires Coherent(cache, store)
    ensures Coherent(GetServices(cache, store).cache, store)
  {
  }

  lemma GetServiceEntityPreservesCoherence(cache: Cache, store: Store, id: Guids.Guid, name: Option<string>)
    requires Coherent(cache, store)
    ensures Coherent(GetServiceEntity(cache, store, id, name).cache, store)
  {
    CacheKeyOf(id, name);
    var fr := FindById(store, id);
    if fr.Some? {
      assert fr.value.serviceId == id;
    }
  }

  /** With a coherent cache, the record a lookup returns is the projection of
      the row the store holds for that identifier, whichever name was asked
      for and whether or not the cache answered. */
  lemma GetServiceAgreesWithStore(cache: Cache, store: Store, id: Guids.Guid, name: Option<string>)
    requires Coherent(cache, store)
    ensures GetService(cache, store, id, name).result.Ok? ==>
              && FindById(store, id).Some?
              && GetService(cache, store, id, name).result.value == Project(FindById(store, id).value)
  {
    var key := CacheKey(id, name);
    CacheKeyOf(id, name);
    if CachedRecord(cache, key).Some? {
      var rec := cache[key].record;
      assert KeyOf(key, rec.serviceId);
      KeyOfUnique(key, rec.serviceId, id);
    }
  }

  /** The API variant's answer is the store's row for that identifier. */
  lemma GetServiceEntityAgreesWithStore(cache: Cache, store: Store, id: Guids.Guid, name: Option<string>)
    requires Coherent(cache, store)
    ensures GetServiceEntity(cache, store, id, name).result.Ok? ==>
              FindById(store, id) == Some(GetServiceEntity(cache, store, id, name).result.value)
  {
    var key := CacheKey(id, name);
    CacheKeyOf(id, name);
    if CachedEntity(cache, key).Some? {
      var e := cache[key].entity;
      assert KeyOf(key, e.serviceId);
      KeyOfUnique(key, e.serviceId, id);
    }
  }

  /** The list lookup, when it answers, answers with the whole table. */
  lemma GetServicesAgreesWithStore(cache: Cache, store: Store)
    requires Coherent(cache, store)
    ensures GetServices(cache, store).result.Ok? ==>
              GetServices(cache, store).result.value == ListAll(store) && |store| > 0
  {
    if CachedList(cache).Some? {
      assert ServicesCacheKey in cache;
    }
  }

  /** After a successful lookup the same question is answered from the cache:
      the same record, no store query, the cache untouched — whatever the
      table holds by then. */
  lemma SecondGetServiceHits(cache: Cache, store: Store, later: Store, id: Guids.Guid, name: Option<string>)
    requires GetService(cache, store, id, name).result.Ok?
    ensures var first := GetService(cache, store, id, name);
            GetService(first.cache, later, id, name) == Lookup(first.result, first.cache, 0)
  {
  }

  lemma SecondGetServicesHits(cache: Cache, store: Store, later: Store)
    requires GetServices(cache, store).result.Ok?
    ensures var first := GetServices(cache, store);
            GetServices(first.cache, later) == Lookup(first.result, first.cache, 0)
  {
  }

  lemma SecondGetServiceEntityHits(cache: Cache, store: Store, later: Store, id: Guids.Guid, name: Option<string>)
    requires GetServiceEntity(cache, store, id, name).result.Ok?
    ensures var first := GetServiceEntity(cache, store, id, name);
            GetServiceEntity(first.cache, later, id, name) == Lookup(first.result, first.cache, 0)
  {
  }

  /** A failed lookup is not remembered: asking again queries the store again. */
  lemma MissIsNotCached(cache: Cache, store: Store, id: Guids.Guid, name: Option<string>)
    requires GetService(cache, store, id, name).result.Err?
    ensures var first := GetService(cache, store, id, name);
            first.cache == cache && GetService(first.cache, store, id, name) == first
            && first.storeReads == 1
  {
  }

  /** On a miss the name plays no part in finding the row: two names find the
      same row, each filed under its own key. */
  lemma NameDoesNotSelectRow(cache: Cache, store: Store, id: Guids.Guid, n1: Option<string>, n2: Option<string>)
    requires CachedRecord(cache, CacheKey(id, n1)).None? && CachedRecord(cache, CacheKey(id, n2)).None?
    ensures GetService(cache, store, id, n1).result == GetService(cache, store, id, n2).result
    ensures NameText(n1) != NameText(n2) ==> CacheKey(id, n1) != CacheKey(id, n2)
  {
    if NameText(n1) != NameText(n2) && CacheKey(id, n1) == CacheKey(id, n2) {
      CacheKeyInjective(id, n1, id, n2);
    }
  }
}
