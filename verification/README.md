# JGP.Core receipts and API-key credentials, modelled in Dafny

This project models two parts of the JGP.Core library.

**The `ActionReceipt` result algebra.** A service operation reports its result as a receipt: an outcome (Success, NotFound, Exception), an affected-row count, a dictionary of error messages and a list of informational entries. The model covers:

- the factories, error and information accumulation, and the instance and static `Merge`;
- the mapping to RFC 7807 problem details and back, to an HTTP result, and to model-state errors;
- the `ActionDetails` merge of a nested "extensions" object;
- the field-wise copy through `ActionReceiptModel`.

**The API-key credential subsystem.** A service is identified by a GUID and a name, and holds one API key in a key store. The model covers:

- the cache-aside lookups in front of the store, in the key-store variant (read-only `ServiceRecord`s) and the API variant (the `Service` entity);
- the authentication handler with its three answers, and the hard-gate middleware;
- settings resolution from configuration and environment;
- start-up provisioning (`EnsureKeyExists`);
- the table constraints of `ServiceMap`, and the `Service` and `ServiceRecord` entities.

Everything is a pure function over immutable values:

- A C# `Dictionary<string, string[]>` is a sequence of entries in insertion order whose keys are distinct. `Dictionary.Add` on a present key is a `DuplicateKey` fault.
- Exceptions are the `Err` side of `Wrappers.Result`, and `null` is `Wrappers.Option.None`.
- The key store is the `Services` table as a sequence of rows in scan order.
- The memory cache is a map from string keys to the typed values stored in it.
- Each cache lookup returns its answer, the cache it leaves behind and the number of store queries it issued.
- Fresh GUIDs (`Guid.NewGuid`) and generated API keys are parameters.
- Environment variables are optional-string parameters.
- The request headers are a map from header name to the header's values.

The `.NET` behaviour the code leans on is modelled in its own modules:

- `Text`: `char.IsWhiteSpace`, `IsNullOrEmpty`, `IsNullOrWhiteSpace`, `Trim` and `Join`.
- `Int32Text`: `int.ToString` and `int.TryParse`.
- `Guids`: `Guid.ToString`, `Guid.Parse` and `Guid.TryParse`.

Two behaviours of the code are worth stating plainly:

- `EnsureKeyExists` does not catch a store refusal. `Provisioning.EnsureKeyExists` propagates the store's own `ConstraintViolation`.
- The handler's identity has no claims and is typed by the scheme name (`ApiKeyAuth.Ticket`). In particular, it does not carry the service's name.

## Model

| member | source | states |
|---|---|---|
| ActionReceipts.DefaultReceipt | JGP.Core/Services/ActionReceipt.cs:56-59 | the default receipt is Success with a total of 0, no errors and no information entries |
| ActionReceipts.AddError | JGP.Core/Services/ActionReceipt.cs:274 | adding an error succeeds exactly when the key is absent, appends the entry and keeps keys unique; a present key is a duplicate-key fault |
| ActionReceipts.AddAllErrors | JGP.Core/Services/ActionReceipt.cs:272-275 | adding a whole dictionary succeeds exactly when the two share no key, and then yields the receiver's entries followed by the other's; otherwise a duplicate-key fault |
| ActionReceipts.AddException | JGP.Core/Services/ActionReceipt.cs:191-194 | the message is filed as `[message]` under "Exception-" plus the fresh GUID and nothing else changes; it fails only if that key is already taken |
| ActionReceipts.Innermost | JGP.Core/Services/ActionReceipt.cs:179-182 | the walk ends on an exception with no inner exception that lies on the chain it started from |
| ActionReceipts.AddExceptionChain | JGP.Core/Services/ActionReceipt.cs:177-185 | the message recorded is that of an exception on the chain that has no inner exception |
| ActionReceipts.GetErrorReceipt | JGP.Core/Services/ActionReceipt.cs:87-101 | outcome Exception, total 0, exactly one error `[message]` under the exception key, and the single entry ("AffectedTotal", "0") |
| ActionReceipts.GetErrorReceiptChain | JGP.Core/Services/ActionReceipt.cs:66-80 | as above, but the one error holds the innermost exception's message |
| ActionReceipts.GetNotFoundReceipt | JGP.Core/Services/ActionReceipt.cs:108-126 | outcome NotFound and total 0; one error exactly when the message is not null or whitespace, none otherwise |
| ActionReceipts.GetSuccessReceipt | JGP.Core/Services/ActionReceipt.cs:133-144 | outcome Success, the given total, no errors, and one "AffectedTotal" entry whose text parses back to the total |
| ActionReceipts.AddInfo | JGP.Core/Services/ActionReceipt.cs:201-213 | the entry is appended unconditionally; errors, outcome and total are unchanged |
| ActionReceipts.GetErrorMessages | JGP.Core/Services/ActionReceipt.cs:219-224 | as many messages as the dictionary holds in total; message `k` of key `i` sits right after all messages of the keys before `i`; every message comes from some key |
| ActionReceipts.MessagesPlaced | JGP.Core/Services/ActionReceipt.cs:222 | in the flattening, message `k` of entry `i` sits at the message count of the entries before `i`, plus `k` |
| ActionReceipts.MessageOffsetCountsPrefix | JGP.Core/Services/ActionReceipt.cs:222 | the start of entry `i`'s messages equals the total message count of the entries before `i` |
| ActionReceipts.MessagesFromEntries | JGP.Core/Services/ActionReceipt.cs:222 | every message of the flattening is a message of some entry |
| ActionReceipts.GetErrorMessagesText | JGP.Core/Services/ActionReceipt.cs:230-240 | null exactly when there are no errors; otherwise a text with no surrounding whitespace |
| ActionReceipts.ErrorTextOfSingleMessage | JGP.Core/Services/ActionReceipt.cs:237-239 | for one error with one message that has no surrounding whitespace, the text is that message |
| ActionReceipts.FindInfo | JGP.Core/Services/ActionReceipt.cs:261-262 | no match exactly when no entry has the key; otherwise the match has the key and no earlier entry does |
| ActionReceipts.GetInfoEntry | JGP.Core/Services/ActionReceipt.cs:247-252 | null exactly when no entry has the key; otherwise exactly the first entry with that key |
| ActionReceipts.FirstMatchIsFound | JGP.Core/Services/ActionReceipt.cs:250 | the entry holding the first occurrence of a key is the one the lookup returns |
| ActionReceipts.GetInfoItemValue | JGP.Core/Services/ActionReceipt.cs:259-264 | null when no entry has the key; otherwise exactly the value of the first entry with the key |
| ActionReceipts.InfoLookupAfterAdd | JGP.Core/Services/ActionReceipt.cs:259-264 | after appending an entry, a lookup still finds the earlier first match, or the new value when there was none |
| ActionReceipts.InfoLookupAppend | JGP.Core/Services/ActionReceipt.cs:261-262 | first-match lookup on a list with one more entry at the end |
| ActionReceipts.MergeOutcome | JGP.Core/Services/ActionReceipt.cs:279-284 | on named outcomes the merge is the more severe one under Success < NotFound < Exception; Success is its identity on either side |
| ActionReceipts.MergeOutcomeCommutative | JGP.Core/Services/ActionReceipt.cs:279-284 | the outcome merge is commutative on named outcomes |
| ActionReceipts.MergeOutcomeAssociative | JGP.Core/Services/ActionReceipt.cs:279-284 | the outcome merge is associative on named outcomes |
| ActionReceipts.Merge | JGP.Core/Services/ActionReceipt.cs:270-286 | succeeds exactly when the error keys stay unique; then errors and entries are the receiver's followed by the other's, the total is the receiver's, and the outcome is merged |
| ActionReceipts.FoldMerge | JGP.Core/Services/ActionReceipt.cs:164-168 | merging a list into an accumulator concatenates all errors and entries, keeps the accumulator's total, and on named outcomes ends at the most severe outcome |
| ActionReceipts.MergeAll | JGP.Core/Services/ActionReceipt.cs:151-171 | null for no receipts, the receipt itself for one; otherwise it succeeds exactly when all error keys are distinct, and then holds every error and entry in order, the first receipt's total and, on named outcomes, the most severe outcome |
| ReceiptWeb.AppendInformation | JGP.Core/Services/Extensions/Web/ActionReceiptExtensions.cs:59-72 | appends to an existing information list or creates a one-entry list; a value of another type under "information" leaves everything as it was; nothing outside "information" changes |
| ReceiptWeb.AddInformation | JGP.Core/Services/Extensions/Web/ActionReceiptExtensions.cs:55-75 | a null or whitespace key or a null or empty value is a no-op; otherwise exactly one entry is appended to the list or a one-entry list is created |
| ReceiptWeb.AddInformationEntry | JGP.Core/Services/Extensions/Web/ActionReceiptExtensions.cs:83-91 | a null entry, or one with a null or whitespace key or value, is a no-op; otherwise it is the key/value overload |
| ReceiptWeb.Reportable | JGP.Core/Services/Extensions/Web/ActionReceiptExtensions.cs:227-230 | an entry survives exactly when it is one of the inputs with a non-blank key and value |
| ReceiptWeb.AddEntries | JGP.Core/Services/Extensions/Web/ActionReceiptExtensions.cs:227-230 | adding every entry appends exactly the reportable ones, in order; the "information" key appears only if one of them exists; nothing else changes |
| ReceiptWeb.AddEntryStep | JGP.Core/Services/Extensions/Web/ActionReceiptExtensions.cs:229 | one loop turn grows the information list by the entry exactly when the entry is reportable |
| ReceiptWeb.OutcomeToStatus | JGP.Core/Services/Extensions/Web/ActionReceiptExtensions.cs:179-185 | Success gives 200, NotFound gives 404, and every other value gives 500, each in both directions |
| ReceiptWeb.StatusToOutcome | JGP.Core/Services/Extensions/Web/ActionReceiptExtensions.cs:127-132 | 200 gives Success, 404 gives NotFound, and every other or missing status gives Exception; the result is always a named outcome |
| ReceiptWeb.OutcomeStatusRoundTrip | JGP.Core/Services/Extensions/Web/ActionReceiptExtensions.cs:127-132 | outcome to status to outcome is the identity on named outcomes and gives Exception otherwise |
| ReceiptWeb.StatusOutcomeRoundTrip | JGP.Core/Services/Extensions/Web/ActionReceiptExtensions.cs:179-185 | status to outcome to status keeps 200 and 404 and turns everything else into 500 |
| ReceiptWeb.ToProblemDetails | JGP.Core/Services/Extensions/Web/ActionReceiptExtensions.cs:176-193 | the status follows the outcome; the title defaults to "No Title" and the type to "problem-details"; "errors" always holds the receipt's errors; "information" holds the reportable entries and is present only if there are some |
| ReceiptWeb.GetErrors | JGP.Core/Services/Extensions/Web/ActionReceiptExtensions.cs:98-105 | an empty dictionary when the key is absent, the stored dictionary when there is one, null for a JSON null, and a deserialisation fault for any other value |
| ReceiptWeb.GetInformation | JGP.Core/Services/Extensions/Web/ActionReceiptExtensions.cs:112-118 | an empty list when the key is absent, the stored list when there is one, null for a JSON null, and a deserialisation fault for any other value |
| ReceiptWeb.ToActionReceipt | JGP.Core/Services/Extensions/Web/ActionReceiptExtensions.cs:125-145 | the outcome comes from the status; errors and entries are those read back; the total is the parsed first "AffectedTotal" value; it succeeds exactly when both lists read back and any information list holds an "AffectedTotal" entry; an information list with no such entry throws, and a malformed list fails |
| ReceiptWeb.ToActionReceiptLenient | JGP.Core/Services/Extensions/Web/ActionReceiptExtensions.cs:134-140 | the same mapping with a missing "AffectedTotal" read as 0; it fails only on a value that does not deserialise |
| ReceiptWeb.ProblemDetailsRoundTrip | JGP.Core/Services/Extensions/Web/ActionReceiptExtensions.cs:125-145 | a receipt with a named outcome comes back with the same outcome and errors and its reportable entries; it throws exactly when no reportable "AffectedTotal" entry exists |
| ReceiptWeb.ProblemDetailsRoundTripLenient | JGP.Core/Services/Extensions/Web/ActionReceiptExtensions.cs:134-140 | with the corrected mapping every receipt with a named outcome comes back with the same outcome and errors and its reportable entries |
| ReceiptWeb.DefaultReceiptDoesNotRoundTrip | JGP.Core/Services/Extensions/Web/ActionReceiptExtensions.cs:134-136 | the default receipt's own problem details make the as-written mapping throw; the corrected one returns the default receipt |
| ReceiptWeb.TotalEntryIsReportable | JGP.Core/Services/Extensions/Web/ActionReceiptExtensions.cs:87-88 | a factory's "AffectedTotal" entry passes the reportability guard |
| ReceiptWeb.SuccessReceiptRoundTrip | JGP.Core/Services/Extensions/Web/ActionReceiptExtensions.cs:125-145 | every success receipt comes back unchanged from its problem details |
| ReceiptWeb.FailureReceiptRoundTrip | JGP.Core/Services/Extensions/Web/ActionReceiptExtensions.cs:125-145 | every error and not-found receipt comes back unchanged from its problem details |
| ReceiptWeb.ToActionResult | JGP.Core/Services/Extensions/Web/ActionReceiptExtensions.cs:152-167 | 200, 404, or 500 for Exception and any other value; the title names the outcome ("Unknown Error" for an unnamed one); the body has the default "problem-details" type, no detail and no instance, and carries the errors and, exactly when there are some, the reportable entries, and no other extension |
| ReceiptWeb.ModelErrorsExcept | JGP.Core/Services/Extensions/Web/ActionReceiptExtensions.cs:242-248 | the model errors are exactly the joined messages of the entries whose key is not skipped, no more than there are entries, and exactly as many as the kept entries |
| ReceiptWeb.ModelErrorsPlaced | JGP.Core/Services/Extensions/Web/ActionReceiptExtensions.cs:242-248 | each kept entry's model error sits at the position given by the number of kept entries before it, so the calls follow the dictionary's order |
| ReceiptWeb.KeptBeforeIncreasing | JGP.Core/Services/Extensions/Web/ActionReceiptExtensions.cs:242-248 | a kept entry earlier in the dictionary gets an earlier position than any later entry, so no two kept entries share a call |
| ReceiptWeb.ModelValidationErrors | JGP.Core/Services/Extensions/Web/ActionReceiptExtensions.cs:242-248 | every error whose key is not a GUID gives a model error with its messages joined by ", ", in dictionary order, one call per such error; no GUID key gives one |
| ReceiptWeb.AddModelValidationErrors | JGP.Core/Services/Extensions/Web/ActionReceiptExtensions.cs:240-249 | the model state keeps its existing errors; the added calls are exactly one per receipt error whose key is not a GUID, its messages joined with ", ", appended in the dictionary's order and as many as there are such errors |
| ReceiptWeb.ExceptionKeyIsNotGuid | JGP.Core/Services/Extensions/Web/ActionReceiptExtensions.cs:244 | the keys of exception messages never parse as a GUID |
| ReceiptWeb.ErrorReceiptReachesModelState | JGP.Core/Services/Extensions/Web/ActionReceiptExtensions.cs:242-248 | an error receipt's message always reaches the model state, under its exception key |
| ActionDetailsMerge.ToProblemDetails | JGP.Core/Services/ActionDetails.cs:52-109 | the five scalar properties are copied; it succeeds exactly when the nested and own error keys are distinct; errors and entries are nested then own; each key is present only when its collection is non-empty |
| ActionDetailsMerge.NoNestedKeepsOwn | JGP.Core/Services/ActionDetails.cs:85-96 | without an "extensions" key the result holds exactly the object's own errors and entries |
| ActionDetailsMerge.SharedErrorKeyThrows | JGP.Core/Services/ActionDetails.cs:73-90 | an error key in both the nested object and the object's own errors makes the conversion throw |
| ActionDetailsMerge.ActionDetailsToReceipt | JGP.Core/Services/ActionDetails.cs:98-106 | under the corrected reverse mapping, the rebuilt problem details become a receipt with the merged errors and entries and the outcome the status names |
| ActionDetailsMerge.ActionDetailsToReceiptAsWritten | JGP.Core/Services/Extensions/Web/ActionReceiptExtensions.cs:212-214 | under the reverse mapping as written, the rebuilt problem details become a receipt exactly when the merged entries hold an "AffectedTotal" entry, and otherwise fail with "no matching element" |
| ActionDetailsMerge.EmptyDetailsThrowAsWritten | JGP.Core/Services/Extensions/Web/ActionReceiptExtensions.cs:212-214 | a status-200 reply with no entries fails under the as-written mapping and succeeds under the corrected one |
| ReceiptModel.DefaultModel | JGP.Core/Serialization/ActionReceiptModel.cs:49-71 | a default model has total 0, no errors, no entries and outcome Success |
| ReceiptModel.GetActionReceipt | JGP.Core/Serialization/ActionReceiptModel.cs:79-89 | the receipt carries the model's four fields |
| ReceiptModel.FromReceipt | JGP.Core/Serialization/ActionReceiptModel.cs:37-43 | the model built from a receipt rebuilds exactly that receipt |
| ReceiptModel.ModelRoundTrip | JGP.Core/Serialization/ActionReceiptModel.cs:79-89 | a model rebuilt from its own receipt is the same model |
| ReceiptModel.DefaultModelIsDefaultReceipt | JGP.Core/Serialization/ActionReceiptModel.cs:28-31 | the default model and the default receipt correspond in both directions |
| ServiceEntity.NewService | JGP.Core/ApiKey/Storage/Service.cs:35-41 | stores the given name, key and URL; the identifier is the fresh GUID |
| ServiceEntity.NewApiService | JGP.Core/Api/Storage/Service.cs:34-39 | stores the given name and key with no URL; the identifier is the fresh GUID |
| ServiceEntity.SetName | JGP.Core/ApiKey/Storage/Service.cs:71-74 | only the name changes |
| ServiceEntity.SetApiKey | JGP.Core/ApiKey/Storage/Service.cs:80-83 | only the key changes |
| ServiceEntity.SetUrl | JGP.Core/ApiKey/Storage/Service.cs:89-92 | only the URL changes |
| ServiceEntity.Update | JGP.Core/Api/Storage/Service.cs:63-67 | name and key take the arguments; the identifier (and URL) stay |
| ServiceEntity.UpdateIsTwoSetters | JGP.Core/Api/Storage/Service.cs:63-67 | `Update` equals the two setters applied in either order |
| ServiceEntity.SettersOverwrite | JGP.Core/ApiKey/Storage/Service.cs:71-92 | each setter is last-write-wins |
| ServiceEntity.Project | JGP.Core/ApiKey/Storage/ServiceRecord.cs:26-32 | the record copies identifier, name, key and URL |
| ServiceEntity.ProjectInjective | JGP.Core/ApiKey/Storage/ServiceRecord.cs:38-56 | equal records come only from equal rows, so the projection loses nothing |
| ServiceEntity.NewServiceIdIndependent | JGP.Core/ApiKey/Storage/Service.cs:38 | the new identifier depends on the fresh GUID alone, not on name, key or URL |
| KeyStore.FindById | JGP.Core/ApiKey/Authentication/ApiKeyAuthenticationExtensions.cs:187 | a row is found exactly when some row has the identifier; the one found is the first such row |
| KeyStore.FindByIdUnique | JGP.Core/Api/Storage/ServiceMap.cs:34 | with the primary key enforced, looking up a row's identifier finds that row |
| KeyStore.Insert | JGP.Core/Api/Storage/ServiceMap.cs:34-52 | a save appends the row or fails with a constraint violation; on a consistent table it succeeds exactly when identifier, name and key stay unique under exact string equality and the lengths, counted in UTF-16 code units, fit |
| KeyStore.DuplicateNameRejected | JGP.Core/Api/Storage/ServiceMap.cs:46-48 | a second row with a name already present is refused |
| KeyStore.ListAll | JGP.Core/ApiKey/Storage/ApiKeyCacheService.cs:99-102 | the list is the projection of every row, in table order |
| KeyCache.CacheKey | JGP.Core/ApiKey/Storage/ApiKeyCacheService.cs:74 | the key is the 36-character identifier, a hyphen, then the name, with null read as empty |
| KeyCache.CacheKeyOf | JGP.Core/ApiKey/Storage/ApiKeyCacheService.cs:74 | every per-service key starts with its service's identifier and a hyphen |
| KeyCache.KeyOfUnique | JGP.Core/ApiKey/Storage/ApiKeyCacheService.cs:74 | a per-service key belongs to one identifier only |
| KeyCache.CacheKeyInjective | JGP.Core/ApiKey/Storage/ApiKeyCacheService.cs:74 | equal keys mean equal identifier and equal name text, so a null name and "" share an entry |
| KeyCache.CacheKeyIsNotListKey | JGP.Core/ApiKey/Storage/ApiKeyCacheService.cs:40 | no per-service key equals "JGP-Services" |
| KeyCache.GetService | JGP.Core/ApiKey/Storage/ApiKeyCacheService.cs:72-88 | a hit returns the cached record with no store query; a miss queries once by identifier only, throws "Service not found" leaving the cache alone, or caches and returns the row's projection |
| KeyCache.GetServices | JGP.Core/ApiKey/Storage/ApiKeyCacheService.cs:95-110 | a hit returns the cached list with no query; a miss queries once and either throws "No Services Found" on an empty table, caching nothing, or caches the whole projection under "JGP-Services" |
| KeyCache.GetServiceEntity | JGP.Core/Api/Authentication/ApiKeyCacheService.cs:80-92 | a hit returns the cached entity with no query; a miss queries once by identifier, throws leaving the cache alone, or caches and returns the row |
| KeyCache.ForeignOnlyIsCoherent | JGP.Core/ApiKey/Storage/ApiKeyCacheService.cs:75 | a cache holding only values of other types is consistent with any table |
| KeyCache.GetServicePreservesCoherence | JGP.Core/ApiKey/Storage/ApiKeyCacheService.cs:72-88 | the record lookup keeps the cache consistent with an unchanged table |
| KeyCache.GetServicesPreservesCoherence | JGP.Core/ApiKey/Storage/ApiKeyCacheService.cs:95-110 | the list lookup keeps the cache consistent with an unchanged table |
| KeyCache.GetServiceEntityPreservesCoherence | JGP.Core/Api/Authentication/ApiKeyCacheService.cs:80-92 | the entity lookup keeps the cache consistent with an unchanged table |
| KeyCache.GetServiceAgreesWithStore | JGP.Core/ApiKey/Storage/ApiKeyCacheService.cs:72-88 | with a consistent cache, a returned record is the projection of the store's row for that identifier, hit or miss, whatever the name |
| KeyCache.GetServiceEntityAgreesWithStore | JGP.Core/Api/Authentication/ApiKeyCacheService.cs:80-92 | with a consistent cache, a returned entity is the store's row for that identifier |
| KeyCache.GetServicesAgreesWithStore | JGP.Core/ApiKey/Storage/ApiKeyCacheService.cs:95-110 | with a consistent cache, a returned list is the whole non-empty table |
| KeyCache.SecondGetServiceHits | JGP.Core/ApiKey/Storage/ApiKeyCacheService.cs:75-87 | after a successful lookup the same question is answered from the cache with no store query, whatever the table holds by then |
| KeyCache.SecondGetServicesHits | JGP.Core/ApiKey/Storage/ApiKeyCacheService.cs:97-109 | after a successful list lookup later calls return the cached list with no store query |
| KeyCache.SecondGetServiceEntityHits | JGP.Core/Api/Authentication/ApiKeyCacheService.cs:83-91 | after a successful entity lookup the same question is answered from the cache with no store query |
| KeyCache.MissIsNotCached | JGP.Core/ApiKey/Storage/ApiKeyCacheService.cs:81 | a failed lookup leaves the cache as it was, so asking again queries the store again |
| KeyCache.NameDoesNotSelectRow | JGP.Core/ApiKey/Storage/ApiKeyCacheService.cs:74-79 | on a miss, two names give the same answer for one identifier, filed under different keys when the names differ |
| ApiKeyAuth.FirstValue | JGP.Core/ApiKey/Authentication/ApiKeyAuthenticationhandler.cs:65 | the first header value, or null when there is none |
| ApiKeyAuth.HandleAuthenticate | JGP.Core/ApiKey/Authentication/ApiKeyAuthenticationhandler.cs:58-88 | no usable key means NoResult with no lookup; otherwise the configured service is looked up, a throw propagates, an equal key gives a ticket for the scheme with no claims, and any other key fails with "Invalid Api Key" |
| ApiKeyAuth.HandlerAcceptsExactlyStoredKey | JGP.Core/ApiKey/Authentication/ApiKeyAuthenticationhandler.cs:65-78 | with a consistent cache and a provisioned service, a ticket is issued exactly when the first header value is the stored key and is not blank |
| ApiKeyAuth.HandlerLookupIgnoresRequest | JGP.Core/ApiKey/Authentication/ApiKeyAuthenticationhandler.cs:72 | any two requests offering a key cause the same lookup: same cache afterwards, same number of store queries |
| ApiKeyAuth.SameAsSingleValue | JGP.Core/Api/Authentication/ApiKeyManagementMiddleware.cs:66 | the header values equal the key exactly when they are the one value equal to it |
| ApiKeyAuth.Invoke | JGP.Core/Api/Authentication/ApiKeyManagementMiddleware.cs:57-73 | a missing header gives 401 with no lookup and no next call; otherwise the configured service is looked up, a throw propagates, and the request passes to next exactly once if the header equals the key, else 401 |
| ApiKeyAuth.MiddlewarePassesExactlyStoredKey | JGP.Core/Api/Authentication/ApiKeyManagementMiddleware.cs:59-72 | with a consistent cache and a provisioned service, a request passes exactly when its header holds the stored key as its only value |
| ApiKeyAuth.BlankKeyOnlyShortCircuitsHandler | JGP.Core/Api/Authentication/ApiKeyManagementMiddleware.cs:59-66 | a blank key stops the handler before any lookup, while the middleware still performs the lookup |
| ApiKeyAuth.SecondValueOnlyMattersToMiddleware | JGP.Core/Api/Authentication/ApiKeyManagementMiddleware.cs:66 | the stored key followed by a second value authenticates at the handler and is refused by the middleware |
| Provisioning.ResolveSettings | JGP.Core/ApiKey/Authentication/ApiKeyAuthenticationExtensions.cs:109-127 | a null or empty environment name keeps the configuration; otherwise the name is the environment's and the identifier is the parsed environment identifier, whose parse failure is the failure |
| Provisioning.EnvironmentIdAloneIgnored | JGP.Core/Api/Authentication/ApiKeyAuthenticationExtensions.cs:49-58 | without an environment name, the environment identifier never matters and the configuration stays |
| Provisioning.EnvironmentOverrides | JGP.Core/ApiKey/Authentication/ApiKeyAuthenticationExtensions.cs:119-125 | an environment name with a printed identifier yields exactly that identity |
| Provisioning.NameWithoutIdThrows | JGP.Core/Api/Authentication/ApiKeyAuthenticationExtensions.cs:52-54 | an environment name without an environment identifier is an argument-null failure |
| Provisioning.ResolveSettingsIdempotent | JGP.Core/ApiKey/Authentication/ApiKeyAuthenticationExtensions.cs:119-125 | resolving a second time with the same environment changes nothing |
| Provisioning.ServiceExists | JGP.Core/ApiKey/Authentication/ApiKeyAuthenticationExtensions.cs:185-189 | true exactly when some row has the configured identifier; the name plays no part |
| Provisioning.ProvisionedRow | JGP.Core/ApiKey/Authentication/ApiKeyAuthenticationExtensions.cs:94-99 | the new row has the configured identifier and name, the generated key and no URL |
| Provisioning.AddService | JGP.Core/ApiKey/Authentication/ApiKeyAuthenticationExtensions.cs:91-102 | appends that row or fails with a constraint violation (also for a null name); on a consistent table it succeeds exactly when the table stays consistent |
| Provisioning.EnsureKeyExists | JGP.Core/ApiKey/Authentication/ApiKeyAuthenticationExtensions.cs:136-147 | unconfigured settings throw the "not configured" argument error; an existing identifier leaves the store alone; otherwise exactly one row is added; on success the service exists and a consistent table stays consistent |
| Provisioning.CheckPrecedesStore | JGP.Core/ApiKey/Authentication/ApiKeyAuthenticationExtensions.cs:138-143 | unconfigured settings fail the same way whatever the store and the generated key |
| Provisioning.EnsureKeyExistsIdempotent | JGP.Core/ApiKey/Authentication/ApiKeyAuthenticationExtensions.cs:144-146 | a second run after a successful one changes nothing |
| Provisioning.ExistingIdSatisfiesAnyName | JGP.Core/ApiKey/Authentication/ApiKeyAuthenticationExtensions.cs:144 | a row with the identifier counts even under another name |
| Provisioning.FreshServiceInserted | JGP.Core/ApiKey/Authentication/ApiKeyAuthenticationExtensions.cs:93-101 | on a consistent table without the service, a fitting unused name and key give exactly one new row |
| Provisioning.NameClashPropagates | JGP.Core/ApiKey/Authentication/ApiKeyAuthenticationExtensions.cs:100-101 | a name another service already holds makes provisioning fail with the store's refusal |
| Guids.Format | JGP.Core/ApiKey/Storage/ApiKeyCacheService.cs:74 | 36 characters, hyphens at 8, 13, 18 and 23, and each digit in lower-case hexadecimal at its place |
| Guids.Parse | JGP.Core/ApiKey/Authentication/ApiKeyAuthenticationExtensions.cs:121 | null is an argument-null failure, and any failure is that or a format failure |
| Guids.TryParse | JGP.Core/Services/Extensions/Web/ActionReceiptExtensions.cs:244 | accepts exactly what the parse accepts, with the same value |
| Guids.FormatParseRoundTrip | JGP.Core/ApiKey/Authentication/ApiKeyAuthenticationExtensions.cs:119-121 | parsing a printed identifier gives that identifier back |
| Guids.FormatInjective | JGP.Core/Api/Authentication/ApiKeyCacheService.cs:82 | different identifiers print differently |
| Int32Text.Format | JGP.Core/Services/ActionReceipt.cs:141 | non-empty; digits only for non-negative values, and for negative ones the invariant culture's '-' then digits |
| Int32Text.DigitsRoundTrip | JGP.Core/Services/ActionReceipt.cs:141 | the digits printed for a natural number denote that number |
| Int32Text.TryParse | JGP.Core/Services/Extensions/Web/ActionReceiptExtensions.cs:135-136 | null never parses, and a parsed value comes from a non-empty text |
| Int32Text.FormatParseRoundTrip | JGP.Core/Services/Extensions/Web/ActionReceiptExtensions.cs:135-140 | every 32-bit integer parses back from its text |
| Text.Trim | JGP.Core/Services/ActionReceipt.cs:239 | the result has no surrounding whitespace and is empty exactly when the input is all whitespace |
| Text.TrimIsMiddle | JGP.Core/Services/ActionReceipt.cs:239 | the trimmed text is the slice of the input left between a leading and a trailing run of whitespace |
| Text.Utf16Length | JGP.Core/Api/Storage/ServiceMap.cs:39-43 | a string's .NET length lies between its character count and twice that, and equals the character count exactly when no character lies outside the Basic Multilingual Plane |
| Text.Join | JGP.Core/Services/ActionReceipt.cs:237 | empty for no parts, the part itself for one, otherwise the parts' lengths plus the separators' and starting with the first part |

## Left out

- The Entity Framework and SQL Server plumbing is replaced by the `KeyStore.Store` sequence. This covers `KeyStoreContext`, `IKeyStoreContext`, `RegisterTransientKeyStoreContext`, `BuildServiceProvider`, the retry policy (3 attempts, 3 s) and `Dispose`. The "KeyStoreContext is not configured!" exception of `GetKeyStoreContext` is therefore not modelled.
- `RegisterApiKeyOptions` and the service registrations of both `AddApiKeyManagement` methods are left out: dependency-injection wiring, no decisions. Only the settings lines of the API variant are modelled, by `Provisioning.ResolveSettings`.
- Asynchrony and concurrency (`ValueTask`, `Task.Run`, two requests racing on the memory cache) are left out: the model is sequential.
- The memory cache has no eviction or expiry in this code, so none is modelled. As a result a cached entry outlives a later change to the table (`KeyCache.SecondGetServiceHits` states this).
- JSON is left out. This covers `ActionReceiptConverter`, Newtonsoft parsing of the nested "extensions" blob (taken as an already parsed `NestedDetails`), and the serialise/deserialise hop in `GetErrors`/`GetInformation` (the identity on the expected shape, a fault on any other).
- `ToActionReceiptAsync` is left out because it is HTTP reading plus substring sniffing. Its last step is `ActionDetails.ToProblemDetails().ToActionReceipt()`. `ActionDetailsMerge.ActionDetailsToReceiptAsWritten` covers that step as written: it fails whenever the merged entries lack "AffectedTotal". `ActionDetailsMerge.EmptyDetailsThrowAsWritten` gives such an input. `ActionDetailsMerge.ActionDetailsToReceipt` covers the same step under the corrected mapping.
- ASP.NET types are reduced to small datatypes, with no claims and no principal objects. `HttpContext` becomes `ApiKeyAuth.GateOutcome`, `AuthenticationTicket` becomes `ApiKeyAuth.Ticket`, `IActionResult` becomes `ReceiptWeb.ActionResult`, and `ModelStateDictionary` becomes a list of `ReceiptWeb.ModelError`.
- Header names are case-insensitive in ASP.NET. Here they are exact map keys.
- The middleware's header name comes from its settings object. That settings class is not part of this model, so `ApiKeyAuth.Invoke` takes the name as a parameter.
- `ApiKeyGenerator`, `Guid.NewGuid` and `Environment.GetEnvironmentVariable` are callers' parameters.
- Guids.Parse: accepts the "N", "D", "B" and "P" formats only. The "X" format and the lenient hexadecimal prefixes `Guid.Parse` tolerates inside groups are not modelled.
- Int32Text.Format: the negative sign is fixed to the invariant culture's '-'. The source calls `ToString()` without a format provider, so .NET writes the current culture's `NegativeSign`, which some cultures define as U+2212 ("−5" rather than "-5"). The round trip `Int32Text.FormatParseRoundTrip` is unaffected in the source because `int.TryParse` reads with the same culture.
- Int32Text.TryParse: a subset of `NumberStyles.Integer` (ASCII whitespace, one sign, ASCII digits, the 32-bit range). Culture-specific signs and other Unicode digits are not modelled. Its contract states only the null case and non-emptiness; the round trip it completes is `Int32Text.FormatParseRoundTrip`.
- ActionReceipts.GetErrorMessagesText: the contract states null-iff-no-errors and the trimmed ends. It does not state the exact text for every dictionary; `ActionReceipts.ErrorTextOfSingleMessage` pins it down for one single-message error.
- Text.Join: the contract states the length and the first part, not the position of every later part.
- Guids.Parse: the contract states the two failure kinds. The accepted texts are stated as a round trip (`Guids.FormatParseRoundTrip`), not as a characterisation of every accepted string.
- In-place mutation and aliasing are left out. Receipts are values, so `Merge` returning `this`, and the partly merged receipt left behind when a duplicate key throws midway, are not modelled: an `Err` replaces the whole result.
- KeyStore.Insert: uniqueness of name and key is exact string equality. The SQL Server unique indexes compare with trailing spaces ignored and, under the default case-insensitive collation, without regard to case. The model therefore accepts rows ("Billing " beside "Billing") that the database refuses; the collation is a deployment setting outside this code.
- KeyStore.DuplicateNameRejected: states refusal only for an exactly equal name, for the same collation reason.
- Provisioning.FreshServiceInserted: "unused name and key" means no exactly equal value in the table. A value equal only under the database collation would be refused by the store, which this lemma does not cover.
- The parameterless constructors of the two `Service` entities are left out: their bodies are empty and set nothing.

## Findings

| source | as written | input that shows it | evidently intended | confidence | as-written member | corrected member |
|---|---|---|---|---|---|---|
| JGP.Core/Services/Extensions/Web/ActionReceiptExtensions.cs:134-140 | the affected total is read with `First(item => item.Key == "AffectedTotal")`, which throws when no entry has that key | the problem details of `GetDefaultReceipt()` (no information entries, so `GetInformation` returns an empty list) | a missing "AffectedTotal" entry yields 0, as the `?.`, the `int.TryParse` and the `totalPresent ? affectedTotal : 0` fallback around it suggest | medium; not executed | ReceiptWeb.ToActionReceipt, shown by ReceiptWeb.DefaultReceiptDoesNotRoundTrip | ReceiptWeb.ToActionReceiptLenient, with ReceiptWeb.ProblemDetailsRoundTripLenient |
