/** `ActionDetails`: the problem-details shape a client deserialises, whose
    `ToProblemDetails` merges a nested "extensions" object with its own
    errors and information entries. */
module ActionDetailsMerge {
  import opened Wrappers
  import opened ActionReceipts
  import opened ReceiptWeb

  /** The errors and entries of the object parsed from the "extensions" blob. */
  datatype NestedDetails = NestedDetails(errors: ErrorMap, infoEntries: seq<InfoEntry>)

  /** An `ActionDetails`. `nested` is the already parsed value of the
      "extensions" extension, `None` when that key is absent. */
  datatype ActionDetails = ActionDetails(
    status: Option<int>,
    title: Option<string>,
    problemType: Option<string>,
    detail: Option<string>,
    instance: Option<string>,
    nested: Option<NestedDetails>,
    errors: ErrorMap,
    infoEntries: seq<InfoEntry>)

  function NestedErrors(ad: ActionDetails): ErrorMap {
    if ad.nested.Some? then ad.nested.value.errors else []
  }

  function NestedInfo(ad: ActionDetails): seq<InfoEntry> {
    if ad.nested.Some? then ad.nested.value.infoEntries else []
  }

  /** `ToProblemDetails()`: the five scalar properties copied; errors of the
      nested object then the object's own, added one by one to a fresh
      dictionary (a key in both throws); entries nested first, own second;
      each extension key present only when its collection is non-empty. */
  function ToProblemDetails(ad: ActionDetails): (r: Result<ProblemDetails>)
    ensures r.Ok? <==> UniqueKeys(NestedErrors(ad) + ad.errors)
    ensures r.Err? ==> r.fault.DuplicateKey?
    ensures r.Ok? ==> && r.value.status == ad.status && r.value.title == ad.title
                      && r.value.problemType == ad.problemType
                      && r.value.detail == ad.detail && r.value.instance == ad.instance
    ensures r.Ok? ==> r.value.extensions.Keys <= {ErrorKey, InformationKey}
    ensures r.Ok? ==> (ErrorKey in r.value.extensions <==> |NestedErrors(ad) + ad.errors| > 0)
    ensures r.Ok? && ErrorKey in r.value.extensions ==>
              r.value.extensions[ErrorKey] == ErrorsValue(NestedErrors(ad) + ad.errors)
    ensures r.Ok? ==> (InformationKey in r.value.extensions <==> |NestedInfo(ad) + ad.infoEntries| > 0)
    ensures r.Ok? && InformationKey in r.value.extensions ==>
              r.value.extensions[InformationKey] == InfoList(NestedInfo(ad) + ad.infoEntries)
  {
    assert [] + NestedErrors(ad) == NestedErrors(ad);
    assert UniqueKeys(NestedErrors(ad) + ad.errors) ==> UniqueKeys(NestedErrors(ad)) by {
      if UniqueKeys(NestedErrors(ad) + ad.errors) {
        UniqueKeysPrefix(NestedErrors(ad), ad.errors);
      }
    }
    var nestedErrors :- AddAllErrors([], NestedErrors(ad));
    var errors :- AddAllErrors(nestedErrors, ad.errors);
    var info := NestedInfo(ad) + ad.infoEntries;
    var withErrors: map<string, ExtensionValue> := if |errors| > 0 then map[ErrorKey := ErrorsValue(errors)] else map[];
    var extensions := if |info| > 0 then withErrors[InformationKey := InfoList(info)] else withErrors;
    Ok(ProblemDetails(ad.status, ad.title, ad.problemType, ad.detail, ad.instance, extensions))
  }

  /** Without an "extensions" key the result carries exactly the object's own
      errors and entries. */
  lemma NoNestedKeepsOwn(ad: ActionDetails)
    requires ad.nested.None? && UniqueKeys(ad.errors)
    ensures ToProblemDetails(ad).Ok?
    ensures var ext := ToProblemDetails(ad).value.extensions;
            && (ErrorKey in ext ==> ext[ErrorKey] == ErrorsValue(ad.errors))
            && (InformationKey in ext ==> ext[InformationKey] == InfoList(ad.infoEntries))
  {
    assert NestedErrors(ad) + ad.errors == ad.errors;
    assert NestedInfo(ad) + ad.infoEntries == ad.infoEntries;
  }

  /** An error key that occurs both in the nested object and in the object's
      own errors makes the conversion throw. */
  lemma SharedErrorKeyThrows(ad: ActionDetails, i: nat, j: nat)
    requires ad.nested.Some? && i < |ad.nested.value.errors| && j < |ad.errors|
    requires ad.nested.value.errors[i].key == ad.errors[j].key
    ensures ToProblemDetails(ad).Err?
  {
    var all := NestedErrors(ad) + ad.errors;
    assert all[i].key == all[|NestedErrors(ad)| + j].key;
  }

  /** Client side of the wire: problem details rebuilt from an `ActionDetails`
      turn back, under the corrected reverse mapping, into a receipt with the
      merged errors and entries and the outcome its status names. */
  lemma ActionDetailsToReceipt(ad: ActionDetails)
    requires ToProblemDetails(ad).Ok?
    ensures var r := ToActionReceiptLenient(ToProblemDetails(ad).value);
            && r.Ok?
            && r.value.errors == NestedErrors(ad) + ad.errors
            && r.value.infoEntries == NestedInfo(ad) + ad.infoEntries
            && r.value.outcome == StatusToOutcome(ad.status)
  {
  }

  /** The same path under `ToActionReceipt` as written: it succeeds exactly
      when the merged entries hold an "AffectedTotal" entry, and then agrees
      with the corrected mapping. */
  lemma ActionDetailsToReceiptAsWritten(ad: ActionDetails)
    requires ToProblemDetails(ad).Ok?
    ensures var r := ToActionReceipt(ToProblemDetails(ad).value);
            && (r.Ok? <==> FindInfo(NestedInfo(ad) + ad.infoEntries, AffectedTotalKey).Some?)
            && (r.Err? ==> r.fault == NoMatchingElement)
            && (r.Ok? ==> r == ToActionReceiptLenient(ToProblemDetails(ad).value))
  {
    var pd := ToProblemDetails(ad).value;
    if InformationKey !in pd.extensions {
      assert NestedInfo(ad) + ad.infoEntries == [];
    }
  }

  /** A successful reply with no entries at all, the shape a bare
      `ProblemDetails` with status 200 has, does not come back as a receipt
      under the as-written mapping. */
  lemma EmptyDetailsThrowAsWritten()
    ensures var ad := ActionDetails(Some(200), None, None, None, None, None, [], []);
            && ToProblemDetails(ad).Ok?
            && ToActionReceipt(ToProblemDetails(ad).value) == Err(NoMatchingElement)
            && ToActionReceiptLenient(ToProblemDetails(ad).value).Ok?
  {
    var ad := ActionDetails(Some(200), None, None, None, None, None, [], []);
    ActionDetailsToReceiptAsWritten(ad);
  }
}
