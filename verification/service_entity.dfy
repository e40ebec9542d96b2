/** The `Service` table row in its two shapes and its read-only
    `ServiceRecord` projection. The key-store variant has a `Url`; the
    API variant has none, which the model writes as a `Url` that stays `None`. */
module ServiceEntity {
  import opened Wrappers
  import Guids

  datatype Service = Service(serviceId: Guids.Guid, serviceName: string, apiKey: string, url: Option<string>)

  /** `ServiceRecord`: every property get-only, so a record is a value. */
  datatype ServiceRecord = ServiceRecord(serviceId: Guids.Guid, serviceName: string, apiKey: string, url: Option<string>)

  /** `new Service(serviceName, apiKey, url)` of the key-store variant. The
      identifier is `Guid.NewGuid()`, supplied here as `newId`. */
  function NewService(serviceName: string, apiKey: string, url: Option<string>, newId: Guids.Guid): (s: Service)
    ensures s.serviceName == serviceName && s.apiKey == apiKey && s.url == url
    ensures s.serviceId == newId
  {
    Service(newId, serviceName, apiKey, url)
  }

  /** `new Service(serviceName, apiKey)` of the API variant, which has no URL. */
  function NewApiService(serviceName: string, apiKey: string, newId: Guids.Guid): (s: Service)
    ensures s.serviceName == serviceName && s.apiKey == apiKey && s.url.None?
    ensures s.serviceId == newId
  {
    Service(newId, serviceName, apiKey, None)
  }

  function SetName(s: Service, serviceName: string): (s': Service)
    ensures s'.serviceName == serviceName
    ensures s'.serviceId == s.serviceId && s'.apiKey == s.apiKey && s'.url == s.url
  {
    s.(serviceName := serviceName)
  }

  function SetApiKey(s: Service, apiKey: string): (s': Service)
    ensures s'.apiKey == apiKey
    ensures s'.serviceId == s.serviceId && s'.serviceName == s.serviceName && s'.url == s.url
  {
    s.(apiKey := apiKey)
  }

  function SetUrl(s: Service, url: Option<string>): (s': Service)
    ensures s'.url == url
    ensures s'.serviceId == s.serviceId && s'.serviceName == s.serviceName && s'.apiKey == s.apiKey
  {
    s.(url := url)
  }

  /** `Update(serviceName, apiKey)` of the API variant: both set, the
      identifier kept. */
  function Update(s: Service, serviceName: string, apiKey: string): (s': Service)
    ensures s'.serviceName == serviceName && s'.apiKey == apiKey
    ensures s'.serviceId == s.serviceId && s'.url == s.url
  {
    s.(apiKey := apiKey, serviceName := serviceName)
  }

  /** The API variant's `Update` is the key-store variant's two setters in
      either order. */
  lemma UpdateIsTwoSetters(s: Service, serviceName: string, apiKey: string)
    ensures Update(s, serviceName, apiKey) == SetName(SetApiKey(s, apiKey), serviceName)
    ensures Update(s, serviceName, apiKey) == SetApiKey(SetName(s, serviceName), apiKey)
  {
  }

  /** Each setter is last-write-wins. */
  lemma SettersOverwrite(s: Service, a: string, b: string, u: Option<string>, v: Option<string>)
    ensures SetName(SetName(s, a), b) == SetName(s, b)
    ensures SetApiKey(SetApiKey(s, a), b) == SetApiKey(s, b)
    ensures SetUrl(SetUrl(s, u), v) == SetUrl(s, v)
  {
  }

  /** `new ServiceRecord(service)`: the four properties copied. */
  function Project(s: Service): (r: ServiceRecord)
    ensures r.serviceId == s.serviceId && r.serviceName == s.serviceName
    ensures r.apiKey == s.apiKey && r.url == s.url
  {
    ServiceRecord(s.serviceId, s.serviceName, s.apiKey, s.url)
  }

  /** The projection loses nothing: distinct rows give distinct records. */
  lemma ProjectInjective(s: Service, t: Service)
    requires Project(s) == Project(t)
    ensures s == t
  {
  }

  /** The identifier of a new entity is the fresh value alone: the same
      fresh value gives the same identifier whatever the name, key and URL. */
  lemma NewServiceIdIndependent(n1: string, k1: string, u1: Option<string>, n2: string, k2: string, newId: Guids.Guid)
    ensures NewService(n1, k1, u1, newId).serviceId == NewApiService(n2, k2, newId).serviceId
    ensures Project(NewService(n1, k1, u1, newId)).serviceId == newId
  {
  }
}
