/** Start-up of the key-store variant: the settings are resolved from the
    configuration section with the `ServiceId` and `ServiceName` environment
    variables on top, then `EnsureKeyExists` makes sure the configured
    service has a row (and so an API key) in the store. The API variant
    resolves its settings with the same code. */
module Provisioning {
  import opened Wrappers
  import Text
  import Guids
  import opened ServiceEntity
  import opened KeyStore
  import opened ApiKeyAuth

  const NotConfiguredMessage := "ApiKeyAuthenticationSettings are not configured! ServiceName and ServiceId are required."

  /** `ConfigureApiKeyAuthenticationSettings`, and the same lines inside the
      API variant's `AddApiKeyManagement`. Whether the environment applies is
      decided by the environment name alone: when it is null or empty both
      configured values stay and the environment id is never read; otherwise
      the name is taken and the id is `Guid.Parse` of the environment id,
      which throws when that variable is missing or malformed. */
  function ResolveSettings(config: Settings, envId: Option<string>, envName: Option<string>): (r: Result<Settings>)
    ensures Text.IsNullOrEmpty(envName) ==> r == Ok(config)
    ensures !Text.IsNullOrEmpty(envName) ==>
              && (r.Ok? <==> Guids.Parse(envId).Ok?)
              && (r.Ok? ==> r.value == Settings(Guids.Parse(envId).value, envName))
              && (r.Err? ==> r.fault == Guids.Parse(envId).fault)
  {
    if Text.IsNullOrEmpty(envName) then Ok(config)
    else
      var id :- Guids.Parse(envId);
      Ok(Settings(id, envName))
  }

  /** The environment identifier on its own never overrides anything. */
  lemma EnvironmentIdAloneIgnored(config: Settings, envId1: Option<string>, envId2: Option<string>, envName: Option<string>)
    requires Text.IsNullOrEmpty(envName)
    ensures ResolveSettings(config, envId1, envName) == ResolveSettings(config, envId2, envName) == Ok(config)
  {
  }

  /** An environment that names the service and prints its identifier the
      way `Guid.ToString()` does yields exactly that identity. */
  lemma EnvironmentOverrides(config: Settings, id: Guids.Guid, name: string)
    requires |name| > 0
    ensures ResolveSettings(config, Some(Guids.Format(id)), Some(name)) == Ok(Settings(id, Some(name)))
  {
    Guids.FormatParseRoundTrip(id);
  }

  /** A service name in the environment without an identifier beside it
      stops start-up. */
  lemma NameWithoutIdThrows(config: Settings, name: string)
    requires |name| > 0
    ensures ResolveSettings(config, None, Some(name)) == Err(ArgumentNull)
  {
  }

  /** Resolving again with the same environment changes nothing more. */
  lemma ResolveSettingsIdempotent(config: Settings, envId: Option<string>, envName: Option<string>)
    requires ResolveSettings(config, envId, envName).Ok?
    ensures var once := ResolveSettings(config, envId, envName).value;
            ResolveSettings(once, envId, envName) == Ok(once)
  {
  }

  /** `ServiceExists`: some row has the configured identifier; the name
      plays no part. */
  function ServiceExists(store: Store, settings: Settings): (b: bool)
    ensures b <==> exists i :: 0 <= i < |store| && store[i].serviceId == settings.serviceId
  {
    FindById(store, settings.serviceId).Some?
  }

  /** The row `AddService` builds: the configured identity, a freshly
      generated key and no URL. */
  function ProvisionedRow(settings: Settings, generatedKey: string): (s: Service)
    requires settings.serviceName.Some?
    ensures s.serviceId == settings.serviceId && s.serviceName == settings.serviceName.value
    ensures s.apiKey == generatedKey && s.url.None?
  {
    Service(settings.serviceId, settings.serviceName.value, generatedKey, None)
  }

  /** `AddService`: insert the row and save. A `null` name violates the
      required column; any other refusal is the store's, and neither is
      caught. */
  function AddService(store: Store, settings: Settings, generatedKey: string): (r: Result<Store>)
    ensures r.Err? ==> r.fault == ConstraintViolation
    ensures r.Ok? ==> settings.serviceName.Some? && r.value == store + [ProvisionedRow(settings, generatedKey)]
    ensures WellFormed(store) ==>
              (r.Ok? <==> settings.serviceName.Some? && WellFormed(store + [ProvisionedRow(settings, generatedKey)]))
  {
    if settings.serviceName.None? then Err(ConstraintViolation)
    else Insert(store, ProvisionedRow(settings, generatedKey))
  }

  /** Settings `EnsureKeyExists` accepts: a non-empty name and a non-empty identifier. */
  predicate Configured(settings: Settings) {
    !Text.IsNullOrEmpty(settings.serviceName) && settings.serviceId != Guids.Empty
  }

  /** `EnsureKeyExists`: refuse unconfigured settings before touching the
      store; leave the store alone when the identifier already has a row;
      otherwise add one. On success the configured service has a row. */
  function EnsureKeyExists(settings: Settings, store: Store, generatedKey: string): (r: Result<Store>)
    ensures !Configured(settings) ==> r == Err(ArgumentError(NotConfiguredMessage))
    ensures r.Err? ==> r.fault == ArgumentError(NotConfiguredMessage) || r.fault == ConstraintViolation
    ensures r.Ok? ==> ServiceExists(r.value, settings)
    ensures r.Ok? ==> r.value == store || r.value == store + [ProvisionedRow(settings, generatedKey)]
    ensures Configured(settings) && ServiceExists(store, settings) ==> r == Ok(store)
    ensures WellFormed(store) && r.Ok? ==> WellFormed(r.value)
  {
    if Text.IsNullOrEmpty(settings.serviceName) || settings.serviceId == Guids.Empty then
      Err(ArgumentError(NotConfiguredMessage))
    else if ServiceExists(store, settings) then Ok(store)
    else
      var r := AddService(store, settings, generatedKey);
      assert r.Ok? ==> ServiceExists(r.value, settings) by {
        if r.Ok? {
          var row := ProvisionedRow(settings, generatedKey);
          assert r.value[|store|] == row;
        }
      }
      r
  }

  /** The configuration check comes first: unconfigured settings fail the
      same way whatever the store holds and whatever key would be generated. */
  lemma CheckPrecedesStore(settings: Settings, s1: Store, s2: Store, k1: string, k2: string)
    requires !Configured(settings)
    ensures EnsureKeyExists(settings, s1, k1) == EnsureKeyExists(settings, s2, k2)
  {
  }

  /** Running provisioning twice inserts at most once: the second run finds
      the row the first one left and changes nothing. */
  lemma EnsureKeyExistsIdempotent(settings: Settings, store: Store, k1: string, k2: string)
    requires EnsureKeyExists(settings, store, k1).Ok?
    ensures var once := EnsureKeyExists(settings, store, k1).value;
            EnsureKeyExists(settings, once, k2) == Ok(once)
  {
  }

  /** A row with the configured identifier counts as provisioned even when
      its name differs from the configured one. */
  lemma ExistingIdSatisfiesAnyName(settings: Settings, store: Store, generatedKey: string, i: nat)
    requires Configured(settings) && i < |store| && store[i].serviceId == settings.serviceId
    ensures EnsureKeyExists(settings, store, generatedKey) == Ok(store)
  {
  }

  /** On a consistent store without the service, a fitting fresh key that no
      row uses and a name no row uses give exactly one new row. */
  lemma FreshServiceInserted(settings: Settings, store: Store, generatedKey: string)
    requires WellFormed(store) && Configured(settings)
    requires forall s :: s in store ==>
               s.serviceId != settings.serviceId && s.serviceName != settings.serviceName.value
               && s.apiKey != generatedKey
    requires Text.Utf16Length(settings.serviceName.value) <= MaxNameLength
    requires Text.Utf16Length(generatedKey) <= MaxApiKeyLength
    ensures EnsureKeyExists(settings, store, generatedKey) == Ok(store + [ProvisionedRow(settings, generatedKey)])
  {
    var row := ProvisionedRow(settings, generatedKey);
    assert Admissible(store, row);
  }

  /** A store refusal is not caught: a name another service already uses
      makes provisioning fail. */
  lemma NameClashPropagates(settings: Settings, store: Store, generatedKey: string, i: nat)
    requires Configured(settings) && !ServiceExists(store, settings)
    requires i < |store| && store[i].serviceName == settings.serviceName.value
    ensures EnsureKeyExists(settings, store, generatedKey) == Err(ConstraintViolation)
  {
    DuplicateNameRejected(store, ProvisionedRow(settings, generatedKey), i);
  }
}
