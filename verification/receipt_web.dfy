/** `ActionReceiptExtensions`: the mapping between receipts and RFC 7807
    problem-details envelopes, HTTP results and model-state errors. */
module ReceiptWeb {
  import opened Wrappers
  import Text
  import Int32Text
  import Guids
  import opened ActionReceipts

  /** What the code stores in, or finds in, `ProblemDetails.Extensions`.
      The JSON hop inside `GetErrors` / `GetInformation` is the identity on
      the two shapes it expects; a JSON `null` reads back as null; any other
      value fails to deserialise. */
  datatype ExtensionValue =
    | ErrorsValue(errors: ErrorMap)
    | InfoList(entries: seq<InfoEntry>)
    | NullValue
    | OtherValue

  /** `Microsoft.AspNetCore.Mvc.ProblemDetails`; `Extensions` is never null. */
  datatype ProblemDetails = ProblemDetails(
    status: Option<int>,
    title: Option<string>,
    problemType: Option<string>,
    detail: Option<string>,
    instance: Option<string>,
    extensions: map<string, ExtensionValue>)

  const ErrorKey := "errors"
  const InformationKey := "information"
  const DefaultTitle := "No Title"
  const DefaultType := "problem-details"

  /** `StatusCodes` values the mapping uses. */
  const Status200OK := 200
  const Status404NotFound := 404
  const Status500InternalServerError := 500

  /** The problem details are the same apart from the "information" extension. */
  ghost predicate SameApartFromInformation(pd: ProblemDetails, pd': ProblemDetails) {
    && pd'.status == pd.status && pd'.title == pd.title && pd'.problemType == pd.problemType
    && pd'.detail == pd.detail && pd'.instance == pd.instance
    && (forall k :: k != InformationKey ==> (k in pd'.extensions <==> k in pd.extensions))
    && (forall k :: k != InformationKey && k in pd.extensions ==> pd'.extensions[k] == pd.extensions[k])
  }

  /** The append both `AddInformation` overloads perform once their guards
      pass: onto the existing "information" list, into a new one-entry list
      when there is none, and not at all when "information" holds a value of
      another type. */
  function AppendInformation(pd: ProblemDetails, e: InfoEntry): (r: ProblemDetails)
    ensures SameApartFromInformation(pd, r)
    ensures InformationKey !in pd.extensions ==>
              InformationKey in r.extensions && r.extensions[InformationKey] == InfoList([e])
    ensures InformationKey in pd.extensions && pd.extensions[InformationKey].InfoList? ==>
              InformationKey in r.extensions &&
              r.extensions[InformationKey] == InfoList(pd.extensions[InformationKey].entries + [e])
    ensures InformationKey in pd.extensions && !pd.extensions[InformationKey].InfoList? ==> r == pd
  {
    if InformationKey in pd.extensions then
      match pd.extensions[InformationKey]
      case InfoList(entries) => pd.(extensions := pd.extensions[InformationKey := InfoList(entries + [e])])
      case _ => pd
    else pd.(extensions := pd.extensions[InformationKey := InfoList([e])])
  }

  /** `AddInformation(key, value)`: ignored for a null or whitespace key or a
      null or empty value; otherwise appended to the "information" list, or a
      one-entry list is created when there is none. A value of another type
      under "information" makes the call a no-op. */
  function AddInformation(pd: ProblemDetails, key: Option<string>, value: Option<string>): (r: ProblemDetails)
    ensures Text.IsNullOrWhiteSpace(key) || Text.IsNullOrEmpty(value) ==> r == pd
    ensures SameApartFromInformation(pd, r)
    ensures !Text.IsNullOrWhiteSpace(key) && !Text.IsNullOrEmpty(value) ==>
              if InformationKey !in pd.extensions then
                InformationKey in r.extensions &&
                r.extensions[InformationKey] == InfoList([InfoEntry(key, value)])
              else if pd.extensions[InformationKey].InfoList? then
                InformationKey in r.extensions &&
                r.extensions[InformationKey] ==
                  InfoList(pd.extensions[InformationKey].entries + [InfoEntry(key, value)])
              else r == pd
  {
    if Text.IsNullOrWhiteSpace(key) || Text.IsNullOrEmpty(value) then pd
    else AppendInformation(pd, InfoEntry(key, value))
  }

  /** The entries `AddInformation(InfoEntry)` lets through. */
  predicate IsReportable(e: InfoEntry) {
    !Text.IsNullOrWhiteSpace(e.key) && !Text.IsNullOrWhiteSpace(e.value)
  }

  /** `AddInformation(InfoEntry)`: ignored for a null entry and for an entry
      whose key or value is null or whitespace; otherwise the key/value overload. */
  function AddInformationEntry(pd: ProblemDetails, entry: Option<InfoEntry>): (r: ProblemDetails)
    ensures entry.None? || !IsReportable(entry.value) ==> r == pd
    ensures entry.Some? && IsReportable(entry.value) ==> r == AddInformation(pd, entry.value.key, entry.value.value)
    ensures entry.Some? && IsReportable(entry.value) ==> r == AppendInformation(pd, entry.value)
  {
    match entry
    case None => pd
    case Some(e) =>
      if Text.IsNullOrWhiteSpace(e.key) || Text.IsNullOrWhiteSpace(e.value) then pd
      else AddInformation(pd, e.key, e.value)
  }

  /** The reportable entries, in order. */
  function Reportable(entries: seq<InfoEntry>): (r: seq<InfoEntry>)
    ensures |r| <= |entries|
    ensures forall e :: e in r <==> e in entries && IsReportable(e)
  {
    if |entries| == 0 then []
    else (if IsReportable(entries[0]) then [entries[0]] else []) + Reportable(entries[1..])
  }

  /** The `foreach` of `AddActionReceipt` over the receipt's entries. */
  function {:induction false} AddEntries(pd: ProblemDetails, entries: seq<InfoEntry>): (r: ProblemDetails)
    requires InformationKey in pd.extensions ==> pd.extensions[InformationKey].InfoList?
    ensures SameApartFromInformation(pd, r)
    ensures InformationKey in pd.extensions ==>
              InformationKey in r.extensions &&
              r.extensions[InformationKey] == InfoList(pd.extensions[InformationKey].entries + Reportable(entries))
    ensures InformationKey !in pd.extensions ==>
              && (InformationKey in r.extensions <==> |Reportable(entries)| > 0)
              && (InformationKey in r.extensions ==> r.extensions[InformationKey] == InfoList(Reportable(entries)))
    decreases |entries|
  {
    if |entries| == 0 then
      assert InformationKey in pd.extensions ==>
               pd.extensions[InformationKey].entries + Reportable(entries) == pd.extensions[InformationKey].entries;
      pd
    else
      var e := entries[0];
      var next := AddInformationEntry(pd, Some(e));
      AddEntryStep(pd, e);
      var r := AddEntries(next, entries[1..]);
      var head := if IsReportable(e) then [e] else [];
      assert Reportable(entries) == head + Reportable(entries[1..]);
      InformationGrowsTransitive(pd, next, r, head, Reportable(entries[1..]));
      r
  }

  /** `r` is `pd` with `added` appended to its "information" list, a list
      that exists exactly when it is non-empty. */
  ghost predicate InformationGrows(pd: ProblemDetails, added: seq<InfoEntry>, r: ProblemDetails) {
    && SameApartFromInformation(pd, r)
    && (InformationKey in pd.extensions && pd.extensions[InformationKey].InfoList? ==>
          InformationKey in r.extensions &&
          r.extensions[InformationKey] == InfoList(pd.extensions[InformationKey].entries + added))
    && (InformationKey !in pd.extensions ==>
          && (InformationKey in r.extensions <==> |added| > 0)
          && (InformationKey in r.extensions ==> r.extensions[InformationKey] == InfoList(added)))
  }

  /** Two growth steps make one. */
  lemma InformationGrowsTransitive(pd: ProblemDetails, next: ProblemDetails, r: ProblemDetails,
                                   a: seq<InfoEntry>, b: seq<InfoEntry>)
    requires InformationKey in pd.extensions ==> pd.extensions[InformationKey].InfoList?
    requires InformationGrows(pd, a, next) && InformationGrows(next, b, r)
    ensures InformationGrows(pd, a + b, r)
  {
    SameApartTransitive(pd, next, r);
    if InformationKey in pd.extensions {
      var xs := pd.extensions[InformationKey].entries;
      assert xs + (a + b) == (xs + a) + b;
    } else if |a| == 0 {
      assert a + b == b;
    }
  }

  /** One turn of the loop of `AddEntries`, stated on the "information" list alone. */
  lemma AddEntryStep(pd: ProblemDetails, e: InfoEntry)
    requires InformationKey in pd.extensions ==> pd.extensions[InformationKey].InfoList?
    ensures var next := AddInformationEntry(pd, Some(e));
            && SameApartFromInformation(pd, next)
            && (InformationKey in next.extensions ==> next.extensions[InformationKey].InfoList?)
            && (InformationKey in pd.extensions ==>
                  && InformationKey in next.extensions
                  && next.extensions[InformationKey].entries
                     == pd.extensions[InformationKey].entries + (if IsReportable(e) then [e] else []))
            && (InformationKey !in pd.extensions ==>
                  && (InformationKey in next.extensions <==> IsReportable(e))
                  && (InformationKey in next.extensions ==> next.extensions[InformationKey].entries == [e]))
  {
    if !IsReportable(e) {
      assert InformationKey in pd.extensions ==>
               pd.extensions[InformationKey].entries + [] == pd.extensions[InformationKey].entries;
    }
  }

  lemma SameApartTransitive(a: ProblemDetails, b: ProblemDetails, c: ProblemDetails)
    requires SameApartFromInformation(a, b) && SameApartFromInformation(b, c)
    ensures SameApartFromInformation(a, c)
  {
  }

  /** The status `switch` of `ToProblemDetails`. */
  function OutcomeToStatus(o: ActionOutcome): (status: int)
    ensures o == Success <==> status == Status200OK
    ensures o == NotFound <==> status == Status404NotFound
    ensures o != Success && o != NotFound <==> status == Status500InternalServerError
  {
    if o == Success then Status200OK
    else if o == NotFound then Status404NotFound
    else Status500InternalServerError
  }

  /** The outcome `switch` of `ToActionReceipt`; a null status falls to the default arm. */
  function StatusToOutcome(status: Option<int>): (o: ActionOutcome)
    ensures IsDefined(o)
    ensures o == Success <==> status == Some(Status200OK)
    ensures o == NotFound <==> status == Some(Status404NotFound)
  {
    if status == Some(Status200OK) then Success
    else if status == Some(Status404NotFound) then NotFound
    else Exception
  }

  /** outcome -> status -> outcome is the identity on the named outcomes and
      sends every other value to Exception. */
  lemma OutcomeStatusRoundTrip(o: ActionOutcome)
    ensures StatusToOutcome(Some(OutcomeToStatus(o))) == if IsDefined(o) then o else Exception
  {
  }

  /** status -> outcome -> status is the identity on 200 and 404 and sends
      every other status, and a missing one, to 500. */
  lemma StatusOutcomeRoundTrip(status: Option<int>)
    ensures OutcomeToStatus(StatusToOutcome(status)) ==
            if status == Some(Status200OK) || status == Some(Status404NotFound) then status.value
            else Status500InternalServerError
  {
  }

  /** `ToProblemDetails(title, type)` with `AddActionReceipt`: the status from
      the outcome, the defaults for a null title and type, the error
      dictionary under "errors" (always, even when empty) and the reportable
      entries under "information" (only when there are some). */
  function ToProblemDetails(r: ActionReceipt, title: Option<string>, problemType: Option<string>): (pd: ProblemDetails)
    ensures pd.status == Some(OutcomeToStatus(r.outcome))
    ensures pd.title == Some(title.GetOr(DefaultTitle)) && pd.problemType == Some(problemType.GetOr(DefaultType))
    ensures pd.detail.None? && pd.instance.None?
    ensures ErrorKey in pd.extensions && pd.extensions[ErrorKey] == ErrorsValue(r.errors)
    ensures InformationKey in pd.extensions <==> |Reportable(r.infoEntries)| > 0
    ensures InformationKey in pd.extensions ==> pd.extensions[InformationKey] == InfoList(Reportable(r.infoEntries))
    ensures pd.extensions.Keys <= {ErrorKey, InformationKey}
  {
    var empty := ProblemDetails(Some(OutcomeToStatus(r.outcome)), Some(title.GetOr(DefaultTitle)),
                                Some(problemType.GetOr(DefaultType)), None, None, map[]);
    var withErrors := empty.(extensions := map[ErrorKey := ErrorsValue(r.errors)]);
    AddEntries(withErrors, r.infoEntries)
  }

  /** `GetErrors()`: an empty dictionary when the key is absent. */
  function GetErrors(pd: ProblemDetails): (r: Result<Option<ErrorMap>>)
    ensures ErrorKey !in pd.extensions ==> r == Ok(Some([]))
    ensures ErrorKey in pd.extensions && pd.extensions[ErrorKey].ErrorsValue? ==>
              r == Ok(Some(pd.extensions[ErrorKey].errors))
    ensures ErrorKey in pd.extensions && pd.extensions[ErrorKey].NullValue? ==> r == Ok(None)
    ensures r.Err? <==> ErrorKey in pd.extensions && (pd.extensions[ErrorKey].InfoList? || pd.extensions[ErrorKey].OtherValue?)
    ensures r.Err? ==> r.fault == BadJson
  {
    if ErrorKey !in pd.extensions then Ok(Some([]))
    else match pd.extensions[ErrorKey]
      case ErrorsValue(errors) => Ok(Some(errors))
      case NullValue => Ok(None)
      case _ => Err(BadJson)
  }

  /** `GetInformation()`: an empty list when the key is absent. */
  function GetInformation(pd: ProblemDetails): (r: Result<Option<seq<InfoEntry>>>)
    ensures InformationKey !in pd.extensions ==> r == Ok(Some([]))
    ensures InformationKey in pd.extensions && pd.extensions[InformationKey].InfoList? ==>
              r == Ok(Some(pd.extensions[InformationKey].entries))
    ensures InformationKey in pd.extensions && pd.extensions[InformationKey].NullValue? ==> r == Ok(None)
    ensures r.Err? <==>
              InformationKey in pd.extensions &&
              (pd.extensions[InformationKey].ErrorsValue? || pd.extensions[InformationKey].OtherValue?)
    ensures r.Err? ==> r.fault == BadJson
  {
    if InformationKey !in pd.extensions then Ok(Some([]))
    else match pd.extensions[InformationKey]
      case InfoList(entries) => Ok(Some(entries))
      case NullValue => Ok(None)
      case _ => Err(BadJson)
  }

  /** `ToActionReceipt()` as written: the outcome from the status, the
      affected total from the first "AffectedTotal" entry (0 when its value
      does not parse). `First` throws when the information list exists but
      holds no such entry. */
  function ToActionReceipt(pd: ProblemDetails): (r: Result<ActionReceipt>)
    ensures r.Ok? ==> r.value.outcome == StatusToOutcome(pd.status)
    ensures r.Ok? ==> && GetInformation(pd).Ok? && GetErrors(pd).Ok?
                      && r.value.infoEntries == GetInformation(pd).value.GetOr([])
                      && r.value.errors == GetErrors(pd).value.GetOr([])
                      && r.value.affectedTotal == TotalFrom(GetInformation(pd).value.GetOr([]))
    ensures r.Ok? <==> && GetInformation(pd).Ok? && GetErrors(pd).Ok?
                       && (GetInformation(pd).value.Some? ==>
                             FindInfo(GetInformation(pd).value.value, AffectedTotalKey).Some?)
    ensures GetInformation(pd).Err? ==> r == Err(BadJson)
    ensures (&& GetInformation(pd).Ok? && GetInformation(pd).value.Some?
             && FindInfo(GetInformation(pd).value.value, AffectedTotalKey).None?) ==> r == Err(NoMatchingElement)
    ensures GetErrors(pd).Err? ==> r.Err?
  {
    var outcome := StatusToOutcome(pd.status);
    var info :- GetInformation(pd);
    var total :- match info
      case None => Ok(0)
      case Some(entries) =>
        match FindInfo(entries, AffectedTotalKey)
        case None => Err(NoMatchingElement)
        case Some(e) => Ok(Int32Text.TryParse(e.value).GetOr(0));
    var errors :- GetErrors(pd);
    Ok(ActionReceipt(total, errors.GetOr([]), info.GetOr([]), outcome))
  }

  /** `ToActionReceipt()` with `FirstOrDefault` in place of `First`: a missing
      "AffectedTotal" entry yields 0, like a malformed one. */
  function ToActionReceiptLenient(pd: ProblemDetails): (r: Result<ActionReceipt>)
    ensures r.Ok? ==> r.value.outcome == StatusToOutcome(pd.status)
    ensures r.Ok? <==> GetInformation(pd).Ok? && GetErrors(pd).Ok?
    ensures r.Ok? ==> && r.value.infoEntries == GetInformation(pd).value.GetOr([])
                      && r.value.errors == GetErrors(pd).value.GetOr([])
                      && r.value.affectedTotal == TotalFrom(GetInformation(pd).value.GetOr([]))
    ensures r.Err? ==> r.fault == BadJson
  {
    var outcome := StatusToOutcome(pd.status);
    var info :- GetInformation(pd);
    var total := match info
      case None => 0
      case Some(entries) =>
        match FindInfo(entries, AffectedTotalKey)
        case None => 0
        case Some(e) => Int32Text.TryParse(e.value).GetOr(0);
    var errors :- GetErrors(pd);
    Ok(ActionReceipt(total, errors.GetOr([]), info.GetOr([]), outcome))
  }

  /** The affected total the reverse mapping reads from a list of entries. */
  function TotalFrom(entries: seq<InfoEntry>): Int32Text.Int32 {
    match FindInfo(entries, AffectedTotalKey)
    case None => 0
    case Some(e) => Int32Text.TryParse(e.value).GetOr(0)
  }

  /** Receipt -> problem details -> receipt, as written: the outcome (named
      ones only) and the errors come back, the entries come back without the
      unreportable ones, and the trip fails when no reportable
      "AffectedTotal" entry exists. */
  lemma ProblemDetailsRoundTrip(r: ActionReceipt, title: Option<string>, problemType: Option<string>)
    requires IsDefined(r.outcome)
    ensures var back := ToActionReceipt(ToProblemDetails(r, title, problemType));
            if FindInfo(Reportable(r.infoEntries), AffectedTotalKey).None? then back == Err(NoMatchingElement)
            else back == Ok(ActionReceipt(TotalFrom(Reportable(r.infoEntries)), r.errors,
                                          Reportable(r.infoEntries), r.outcome))
  {
    OutcomeStatusRoundTrip(r.outcome);
  }

  /** With `FirstOrDefault`, every receipt with a named outcome survives the
      trip, its reportable entries and its errors intact. */
  lemma ProblemDetailsRoundTripLenient(r: ActionReceipt, title: Option<string>, problemType: Option<string>)
    requires IsDefined(r.outcome)
    ensures ToActionReceiptLenient(ToProblemDetails(r, title, problemType)) ==
            Ok(ActionReceipt(TotalFrom(Reportable(r.infoEntries)), r.errors, Reportable(r.infoEntries), r.outcome))
  {
    OutcomeStatusRoundTrip(r.outcome);
  }

  /** The default receipt has no "AffectedTotal" entry, so the as-written
      reverse mapping throws on its own problem details. */
  lemma DefaultReceiptDoesNotRoundTrip()
    ensures ToActionReceipt(ToProblemDetails(DefaultReceipt(), None, None)) == Err(NoMatchingElement)
    ensures ToActionReceiptLenient(ToProblemDetails(DefaultReceipt(), None, None)) == Ok(DefaultReceipt())
  {
    var pd := ToProblemDetails(DefaultReceipt(), None, None);
    assert InformationKey !in pd.extensions;
  }

  /** Reportable entries of a factory receipt's single "AffectedTotal" entry. */
  lemma TotalEntryIsReportable(text: string)
    requires |text| > 0 && !Text.IsWhiteSpace(text[0])
    ensures Reportable([InfoEntry(Some(AffectedTotalKey), Some(text))]) == [InfoEntry(Some(AffectedTotalKey), Some(text))]
  {
    var e := InfoEntry(Some(AffectedTotalKey), Some(text));
    assert !Text.AllWhiteSpace(AffectedTotalKey) by { assert AffectedTotalKey[0] == 'A'; }
    assert IsReportable(e);
    assert [e][1..] == [];
  }

  /** Success receipts come back unchanged from their problem details. */
  lemma SuccessReceiptRoundTrip(n: Int32Text.Int32, title: Option<string>, problemType: Option<string>)
    ensures ToActionReceipt(ToProblemDetails(GetSuccessReceipt(n), title, problemType)) == Ok(GetSuccessReceipt(n))
  {
    var r := GetSuccessReceipt(n);
    var text := Int32Text.Format(n);
    var e := InfoEntry(Some(AffectedTotalKey), Some(text));
    assert text[0] == '-' || Int32Text.IsDigit(text[0]);
    TotalEntryIsReportable(text);
    assert Reportable(r.infoEntries) == [e];
    assert FindInfo([e], AffectedTotalKey) == Some(e);
    assert TotalFrom([e]) == n;
    ProblemDetailsRoundTrip(r, title, problemType);
  }

  /** Error and not-found receipts come back unchanged from their problem details. */
  lemma FailureReceiptRoundTrip(message: Option<string>, newId: Guids.Guid, title: Option<string>, problemType: Option<string>)
    ensures var e := GetErrorReceipt(message.GetOr(""), newId);
            ToActionReceipt(ToProblemDetails(e, title, problemType)) == Ok(e)
    ensures var nf := GetNotFoundReceipt(message, newId);
            ToActionReceipt(ToProblemDetails(nf, title, problemType)) == Ok(nf)
  {
    TotalEntryIsReportable("0");
    Int32Text.FormatParseRoundTrip(0);
    assert Int32Text.Format(0) == "0";
    ProblemDetailsRoundTrip(GetErrorReceipt(message.GetOr(""), newId), title, problemType);
    ProblemDetailsRoundTrip(GetNotFoundReceipt(message, newId), title, problemType);
  }

  /** An `IActionResult` carrying problem details. */
  datatype ActionResult = ActionResult(statusCode: int, body: ProblemDetails)

  /** The title `ToActionResult` gives each outcome. */
  function ResultTitle(o: ActionOutcome): string {
    if o == Success then "Success"
    else if o == NotFound then "Not Found"
    else if o == Exception then "Exception"
    else "Unknown Error"
  }

  /** `ToActionResult()`: 200 with title "Success", 404 with "Not Found", and
      500 with "Exception" or, for an unnamed outcome, "Unknown Error"; the
      body carries the receipt's errors and reportable entries. */
  function ToActionResult(r: ActionReceipt): (res: ActionResult)
    ensures res.statusCode == OutcomeToStatus(r.outcome)
    ensures res.body.status == Some(res.statusCode)
    ensures res.body.title == Some(ResultTitle(r.outcome))
    ensures res.body.problemType == Some(DefaultType) && res.body.detail.None? && res.body.instance.None?
    ensures ErrorKey in res.body.extensions && res.body.extensions[ErrorKey] == ErrorsValue(r.errors)
    ensures InformationKey in res.body.extensions <==> |Reportable(r.infoEntries)| > 0
    ensures InformationKey in res.body.extensions ==>
              res.body.extensions[InformationKey] == InfoList(Reportable(r.infoEntries))
    ensures res.body.extensions.Keys <= {ErrorKey, InformationKey}
  {
    ActionResult(OutcomeToStatus(r.outcome), ToProblemDetails(r, Some(ResultTitle(r.outcome)), None))
  }

  /** One `ModelStateDictionary.AddModelError(key, message)` call. */
  datatype ModelError = ModelError(key: string, message: string)

  /** `Guid.TryParse(key, out _)` succeeds. */
  predicate IsGuidText(key: string) {
    Guids.TryParse(Some(key)).Some?
  }

  /** The call made for one dictionary entry: its messages joined with ", ". */
  function ModelErrorOf(e: ErrorItem): ModelError {
    ModelError(e.key, Text.Join(", ", e.messages))
  }

  /** How many of the first `i` entries have a key `skip` does not reject:
      the position the call for entry `i` takes among the calls made. */
  function KeptBefore(errors: ErrorMap, skip: string -> bool, i: nat): nat
    requires i <= |errors|
  {
    if i == 0 then 0 else (if skip(errors[0].key) then 0 else 1) + KeptBefore(errors[1..], skip, i - 1)
  }

  /** The calls made for the errors whose key `skip` does not reject, in
      dictionary order. */
  function {:induction false} ModelErrorsExcept(errors: ErrorMap, skip: string -> bool): (r: seq<ModelError>)
    ensures |r| <= |errors|
    ensures |r| == KeptBefore(errors, skip, |errors|)
    ensures forall m :: m in r ==> !skip(m.key)
    ensures forall e :: e in errors && !skip(e.key) ==> ModelErrorOf(e) in r
    ensures forall m :: m in r ==> exists e :: e in errors && m == ModelErrorOf(e)
  {
    if |errors| == 0 then []
    else
      var rest := ModelErrorsExcept(errors[1..], skip);
      var head := if skip(errors[0].key) then [] else [ModelErrorOf(errors[0])];
      assert forall x :: x in errors ==> x == errors[0] || x in errors[1..];
      head + rest
  }

  /** The call for a kept entry `i` comes right after the calls for the kept
      entries before it: one call each, in dictionary order. */
  lemma {:induction false} ModelErrorsPlaced(errors: ErrorMap, skip: string -> bool)
    ensures forall i :: 0 <= i < |errors| && !skip(errors[i].key) ==>
              KeptBefore(errors, skip, i) < |ModelErrorsExcept(errors, skip)| &&
              ModelErrorsExcept(errors, skip)[KeptBefore(errors, skip, i)] == ModelErrorOf(errors[i])
  {
    if |errors| > 0 {
      ModelErrorsPlaced(errors[1..], skip);
      var head := if skip(errors[0].key) then [] else [ModelErrorOf(errors[0])];
      forall i | 0 <= i < |errors| && !skip(errors[i].key)
        ensures KeptBefore(errors, skip, i) < |ModelErrorsExcept(errors, skip)|
        ensures ModelErrorsExcept(errors, skip)[KeptBefore(errors, skip, i)] == ModelErrorOf(errors[i])
      {
        if i > 0 {
          assert errors[1..][i - 1] == errors[i];
          ShiftedCall(ModelErrorsExcept(errors, skip), head, ModelErrorsExcept(errors[1..], skip),
                      KeptBefore(errors, skip, i), KeptBefore(errors[1..], skip, i - 1), ModelErrorOf(errors[i]));
        }
      }
    }
  }

  /** The kept entries' positions grow with their index. */
  lemma {:induction false} KeptBeforeIncreasing(errors: ErrorMap, skip: string -> bool, i: nat, j: nat)
    requires i < j <= |errors| && !skip(errors[i].key)
    ensures KeptBefore(errors, skip, i) < KeptBefore(errors, skip, j)
  {
    if i > 0 {
      assert errors[1..][i - 1] == errors[i];
      KeptBeforeIncreasing(errors[1..], skip, i - 1, j - 1);
    }
  }

  /** An element found at `before` in `rest` is found at `|head| + before`
      in `head + rest`. */
  lemma ShiftedCall(whole: seq<ModelError>, head: seq<ModelError>, rest: seq<ModelError>,
                    at: nat, before: nat, x: ModelError)
    requires whole == head + rest && at == |head| + before
    requires before < |rest| && rest[before] == x
    ensures at < |whole| && whole[at] == x
  {
  }

  /** The calls `AddModelValidationErrors` makes: one per error whose key
      does not parse as a GUID, in dictionary order. */
  function ModelValidationErrors(errors: ErrorMap): (r: seq<ModelError>)
    ensures |r| <= |errors|
    ensures forall m :: m in r ==> !IsGuidText(m.key)
    ensures forall e :: e in errors && !IsGuidText(e.key) ==> ModelErrorOf(e) in r
    ensures forall m :: m in r ==> exists e :: e in errors && m == ModelErrorOf(e)
    ensures |r| == KeptBefore(errors, IsGuidText, |errors|)
    ensures forall i :: 0 <= i < |errors| && !IsGuidText(errors[i].key) ==>
              KeptBefore(errors, IsGuidText, i) < |r| &&
              r[KeptBefore(errors, IsGuidText, i)] == ModelErrorOf(errors[i])
  {
    ModelErrorsPlaced(errors, IsGuidText);
    ModelErrorsExcept(errors, IsGuidText)
  }

  /** `AddModelValidationErrors(actionReceipt)`: the model state gains the calls above. */
  function AddModelValidationErrors(modelState: seq<ModelError>, r: ActionReceipt): (ms: seq<ModelError>)
    ensures |modelState| <= |ms| <= |modelState| + |r.errors|
    ensures ms[..|modelState|] == modelState
    ensures forall i :: |modelState| <= i < |ms| ==> !IsGuidText(ms[i].key)
    ensures forall e :: e in r.errors && !IsGuidText(e.key) ==> ModelErrorOf(e) in ms[|modelState|..]
    ensures forall x :: x in ms[|modelState|..] ==> exists e :: e in r.errors && x == ModelErrorOf(e)
    ensures |ms| == |modelState| + KeptBefore(r.errors, IsGuidText, |r.errors|)
    ensures forall i :: 0 <= i < |r.errors| && !IsGuidText(r.errors[i].key) ==>
              |modelState| + KeptBefore(r.errors, IsGuidText, i) < |ms| &&
              ms[|modelState| + KeptBefore(r.errors, IsGuidText, i)] == ModelErrorOf(r.errors[i])
  {
    var added := ModelValidationErrors(r.errors);
    assert (modelState + added)[|modelState|..] == added;
    modelState + added
  }

  /** The keys `AddException` generates are never mistaken for a GUID. */
  lemma ExceptionKeyIsNotGuid(newId: Guids.Guid)
    ensures !IsGuidText(ExceptionKey(newId))
  {
    var k := ExceptionKey(newId);
    var f := Guids.Format(newId);
    assert k[0] == 'E';
    assert k[|k| - 1] == f[35] == Guids.HexChar(newId[31]);
    Text.TrimFramed(k);
  }

  /** So the message of an error receipt always reaches the model state. */
  lemma ErrorReceiptReachesModelState(message: string, newId: Guids.Guid)
    ensures AddModelValidationErrors([], GetErrorReceipt(message, newId)) ==
            [ModelError(ExceptionKey(newId), message)]
  {
    ExceptionKeyIsNotGuid(newId);
    var errors := GetErrorReceipt(message, newId).errors;
    assert errors[1..] == [];
  }
}
