/** `ActionReceipt`: the result record of a service operation — an outcome,
    an affected-row count, a dictionary of error messages and a list of
    informational entries — with its factories, accumulation and merge. */
module ActionReceipts {
  import opened Wrappers
  import Text
  import Int32Text
  import Guids

  type Int32 = Int32Text.Int32

  /** `ActionOutcome`: a C# enum, so any 32-bit value can be stored in it;
      only 0, 1 and 2 are named. */
  newtype ActionOutcome = x: int | -0x8000_0000 <= x < 0x8000_0000

  const Success: ActionOutcome := 0
  const NotFound: ActionOutcome := 1
  const Exception: ActionOutcome := 2

  /** One of the three named outcomes. Their numeric order is the severity
      order Success < NotFound < Exception. */
  predicate IsDefined(o: ActionOutcome) {
    Success <= o <= Exception
  }

  /** An informational key/value pair; both halves are nullable. */
  datatype InfoEntry = InfoEntry(key: Option<string>, value: Option<string>)

  /** `InfoEntry.KeyConstants.AffectedTotal`. */
  const AffectedTotalKey := "AffectedTotal"

  /** One entry of a `Dictionary<string, string[]>`. */
  datatype ErrorItem = ErrorItem(key: string, messages: seq<string>)

  /** A `Dictionary<string, string[]>` as its entries in insertion order,
      which is the order it enumerates in when nothing is removed. */
  type ErrorMap = seq<ErrorItem>

  function Keys(m: ErrorMap): set<string> {
    set i | 0 <= i < |m| :: m[i].key
  }

  /** The dictionary invariant: no key occurs twice. */
  predicate UniqueKeys(m: ErrorMap) {
    forall i, j :: 0 <= i < j < |m| ==> m[i].key != m[j].key
  }

  lemma UniqueKeysPrefix(m: ErrorMap, n: ErrorMap)
    requires UniqueKeys(m + n)
    ensures UniqueKeys(m)
  {
    forall i, j | 0 <= i < j < |m|
      ensures m[i].key != m[j].key
    {
      assert (m + n)[i] == m[i] && (m + n)[j] == m[j];
    }
  }

  /** `Dictionary.Add`: throws on a key already present, otherwise appends. */
  function AddError(m: ErrorMap, key: string, messages: seq<string>): (r: Result<ErrorMap>)
    ensures r.Ok? <==> key !in Keys(m)
    ensures r.Err? ==> r.fault == DuplicateKey(key)
    ensures r.Ok? ==> r.value == m + [ErrorItem(key, messages)]
    ensures r.Ok? && UniqueKeys(m) ==> UniqueKeys(r.value)
  {
    if key in Keys(m) then Err(DuplicateKey(key)) else Ok(m + [ErrorItem(key, messages)])
  }

  /** `foreach (var e in other) m.Add(e.Key, e.Value)`: succeeds exactly when
      the two dictionaries share no key, and then appends `other` in order. */
  function {:induction false} AddAllErrors(m: ErrorMap, other: ErrorMap): (r: Result<ErrorMap>)
    requires UniqueKeys(m)
    ensures r.Ok? <==> UniqueKeys(m + other)
    ensures r.Ok? ==> r.value == m + other
    ensures r.Err? ==> r.fault.DuplicateKey?
    decreases |other|
  {
    if |other| == 0 then
      assert m + other == m;
      Ok(m)
    else
      var item := other[0];
      assert m + other == (m + [item]) + other[1..];
      match AddError(m, item.key, item.messages)
      case Err(f) =>
        assert !UniqueKeys(m + other) by {
          var i :| 0 <= i < |m| && m[i].key == item.key;
          assert (m + other)[i].key == (m + other)[|m|].key;
        }
        Err(f)
      case Ok(m') =>
        var r := AddAllErrors(m', other[1..]);
        assert r.Err? ==> !UniqueKeys(m + other);
        r
  }

  /** The receipt. `AffectedTotal` is a C# `int`. */
  datatype ActionReceipt = ActionReceipt(
    affectedTotal: Int32,
    errors: ErrorMap,
    infoEntries: seq<InfoEntry>,
    outcome: ActionOutcome)

  /** `GetDefaultReceipt`: a new receipt with every property at its default. */
  function DefaultReceipt(): (r: ActionReceipt)
    ensures r.outcome == Success && r.affectedTotal == 0
    ensures |r.errors| == 0 && |r.infoEntries| == 0
  {
    ActionReceipt(0, [], [], Success)
  }

  /** The dictionary key `AddException` files a message under: "Exception-"
      followed by a freshly generated identifier. */
  function ExceptionKey(newId: Guids.Guid): string {
    "Exception-" + Guids.Format(newId)
  }

  /** `AddException(string)`: files `[message]` under a freshly keyed entry. The
      generated identifier is a parameter; a collision with an existing key
      throws like any duplicate `Dictionary.Add`. */
  function AddException(r: ActionReceipt, message: string, newId: Guids.Guid): (r': Result<ActionReceipt>)
    ensures r'.Ok? <==> ExceptionKey(newId) !in Keys(r.errors)
    ensures r'.Ok? ==> r'.value == r.(errors := r.errors + [ErrorItem(ExceptionKey(newId), [message])])
  {
    var errors :- AddError(r.errors, ExceptionKey(newId), [message]);
    Ok(r.(errors := errors))
  }

  /** A .NET exception, reduced to its message and its `InnerException`. */
  datatype ClrException = ClrException(message: string, inner: Option<ClrException>)

  /** `x` occurs in the `InnerException` chain that starts at `e`. */
  predicate InChain(e: ClrException, x: ClrException)
    decreases e
  {
    e == x || (e.inner.Some? && InChain(e.inner.value, x))
  }

  /** The `while (exception.InnerException != null)` walk: the last
      exception of the chain. */
  function Innermost(e: ClrException): (r: ClrException)
    ensures r.inner.None?
    ensures InChain(e, r)
    decreases e
  {
    match e.inner
    case None => e
    case Some(i) => Innermost(i)
  }

  /** `AddException(Exception)`: files the message of the innermost exception. */
  function AddExceptionChain(r: ActionReceipt, e: ClrException, newId: Guids.Guid): (r': Result<ActionReceipt>)
    ensures r'.Ok? <==> ExceptionKey(newId) !in Keys(r.errors)
    ensures r'.Ok? ==> exists x :: InChain(e, x) && x.inner.None? &&
                        r'.value.errors == r.errors + [ErrorItem(ExceptionKey(newId), [x.message])]
  {
    AddException(r, Innermost(e).message, newId)
  }

  /** The receipt the error and not-found factories start from. */
  function FailureBase(outcome: ActionOutcome): ActionReceipt {
    ActionReceipt(0, [], [InfoEntry(Some(AffectedTotalKey), Some("0"))], outcome)
  }

  /** `GetErrorReceipt(string)`. */
  function GetErrorReceipt(message: string, newId: Guids.Guid): (r: ActionReceipt)
    ensures r.outcome == Exception && r.affectedTotal == 0
    ensures r.errors == [ErrorItem(ExceptionKey(newId), [message])]
    ensures r.infoEntries == [InfoEntry(Some(AffectedTotalKey), Some("0"))]
  {
    AddException(FailureBase(Exception), message, newId).value
  }

  /** `GetErrorReceipt(Exception)`: the single error is the innermost message. */
  function GetErrorReceiptChain(e: ClrException, newId: Guids.Guid): (r: ActionReceipt)
    ensures r.outcome == Exception && r.affectedTotal == 0
    ensures |r.errors| == 1 && r.errors[0].key == ExceptionKey(newId)
    ensures exists x :: InChain(e, x) && x.inner.None? && r.errors[0].messages == [x.message]
    ensures r.infoEntries == [InfoEntry(Some(AffectedTotalKey), Some("0"))]
  {
    AddExceptionChain(FailureBase(Exception), e, newId).value
  }

  /** `GetNotFoundReceipt(message)`: the message is recorded only when it is
      not null or whitespace. */
  function GetNotFoundReceipt(message: Option<string>, newId: Guids.Guid): (r: ActionReceipt)
    ensures r.outcome == NotFound && r.affectedTotal == 0
    ensures |r.errors| == 1 <==> !Text.IsNullOrWhiteSpace(message)
    ensures |r.errors| == 0 <==> Text.IsNullOrWhiteSpace(message)
    ensures |r.errors| == 1 ==> r.errors[0] == ErrorItem(ExceptionKey(newId), [message.value])
    ensures r.infoEntries == [InfoEntry(Some(AffectedTotalKey), Some("0"))]
  {
    var receipt := FailureBase(NotFound);
    if !Text.IsNullOrWhiteSpace(message) then AddException(receipt, message.value, newId).value
    else receipt
  }

  /** `GetSuccessReceipt(affectedTotal)`: the count is stored both as the
      property and as an "AffectedTotal" information entry. */
  function GetSuccessReceipt(affectedTotal: Int32): (r: ActionReceipt)
    ensures r.outcome == Success && r.affectedTotal == affectedTotal
    ensures |r.errors| == 0
    ensures r.infoEntries == [InfoEntry(Some(AffectedTotalKey), Some(Int32Text.Format(affectedTotal)))]
    ensures Int32Text.TryParse(r.infoEntries[0].value) == Some(affectedTotal)
  {
    Int32Text.FormatParseRoundTrip(affectedTotal);
    ActionReceipt(affectedTotal, [], [InfoEntry(Some(AffectedTotalKey), Some(Int32Text.Format(affectedTotal)))], Success)
  }

  /** `AddInfo(key, value)` and `AddInfo(entry)`: an unconditional append. */
  function AddInfo(r: ActionReceipt, entry: InfoEntry): (r': ActionReceipt)
    ensures r'.infoEntries == r.infoEntries + [entry]
    ensures r'.errors == r.errors && r'.outcome == r.outcome && r'.affectedTotal == r.affectedTotal
  {
    r.(infoEntries := r.infoEntries + [entry])
  }

  /** How many messages the entries of `m` hold together. */
  function TotalMessages(m: ErrorMap): nat {
    if |m| == 0 then 0 else |m[0].messages| + TotalMessages(m[1..])
  }

  /** `GetErrorMessages()`, i.e. `Errors.SelectMany(e => e.Value)`: the
      messages of every key, keys in dictionary order, each key's messages
      in their own order. */
  function GetErrorMessages(r: ActionReceipt): (msgs: seq<string>)
    ensures |msgs| == TotalMessages(r.errors)
    ensures forall i :: 0 <= i < |r.errors| ==>
              MessageOffset(r.errors, i) + |r.errors[i].messages| <= |msgs| &&
              forall k :: 0 <= k < |r.errors[i].messages| ==>
                msgs[MessageOffset(r.errors, i) + k] == r.errors[i].messages[k]
    ensures forall x :: x in msgs ==> exists i :: 0 <= i < |r.errors| && x in r.errors[i].messages
  {
    MessagesPlaced(r.errors);
    MessagesFromEntries(r.errors);
    MessagesOf(r.errors)
  }

  /** The flattening behind `GetErrorMessages`. */
  function {:induction false} MessagesOf(m: ErrorMap): (msgs: seq<string>)
    ensures |msgs| == TotalMessages(m)
  {
    if |m| == 0 then [] else m[0].messages + MessagesOf(m[1..])
  }

  /** Where the messages of entry `i` start in the flattening: the number of
      messages the entries before `i` hold. */
  function MessageOffset(m: ErrorMap, i: nat): nat
    requires i <= |m|
  {
    if i == 0 then 0 else |m[0].messages| + MessageOffset(m[1..], i - 1)
  }

  /** The offset of entry `i` is the message count of the prefix before it. */
  lemma {:induction false} MessageOffsetCountsPrefix(m: ErrorMap, i: nat)
    requires i <= |m|
    ensures MessageOffset(m, i) == TotalMessages(m[..i])
  {
    if i > 0 {
      MessageOffsetCountsPrefix(m[1..], i - 1);
      assert m[..i][0] == m[0] && m[..i][1..] == m[1..][..i - 1];
    }
  }

  /** Message `k` of entry `i` sits right after all messages of the
      entries before `i`. */
  lemma {:induction false} MessagesPlaced(m: ErrorMap)
    ensures forall i :: 0 <= i < |m| ==>
              MessageOffset(m, i) + |m[i].messages| <= |MessagesOf(m)| &&
              forall k :: 0 <= k < |m[i].messages| ==> MessagesOf(m)[MessageOffset(m, i) + k] == m[i].messages[k]
  {
    if |m| > 0 {
      MessagesPlaced(m[1..]);
      forall i | 0 <= i < |m|
        ensures MessageOffset(m, i) + |m[i].messages| <= |MessagesOf(m)|
        ensures forall k :: 0 <= k < |m[i].messages| ==>
                  MessagesOf(m)[MessageOffset(m, i) + k] == m[i].messages[k]
      {
        if i > 0 {
          assert m[1..][i - 1] == m[i];
          ShiftedRun(MessagesOf(m), m[0].messages, MessagesOf(m[1..]),
                     MessageOffset(m, i), MessageOffset(m[1..], i - 1), m[i].messages);
        }
      }
    }
  }

  /** A run `xs` found at offset `before` of `rest` is found at offset
      `|head| + before` of `head + rest`. */
  lemma {:induction false} ShiftedRun(whole: seq<string>, head: seq<string>, rest: seq<string>,
                                      offset: nat, before: nat, xs: seq<string>)
    requires whole == head + rest && offset == |head| + before
    requires before + |xs| <= |rest|
    requires forall k :: 0 <= k < |xs| ==> rest[before + k] == xs[k]
    ensures offset + |xs| <= |whole|
    ensures forall k :: 0 <= k < |xs| ==> whole[offset + k] == xs[k]
  {
  }

  /** Every message of the flattening comes from some entry. */
  lemma {:induction false} MessagesFromEntries(m: ErrorMap)
    ensures forall x :: x in MessagesOf(m) ==> exists i :: 0 <= i < |m| && x in m[i].messages
  {
    if |m| > 0 {
      var rest := MessagesOf(m[1..]);
      var msgs := MessagesOf(m);
      assert msgs == m[0].messages + rest;
      MessagesFromEntries(m[1..]);
      forall x | x in msgs
        ensures exists i :: 0 <= i < |m| && x in m[i].messages
      {
        if x !in m[0].messages {
          assert x in rest;
          var i :| 0 <= i < |m[1..]| && x in m[1..][i].messages;
          assert m[1..][i] == m[i + 1];
        }
      }
    } else {
      assert MessagesOf(m) == [];
    }
  }

  /** The `Aggregate(string.Empty, (current, message) => current + " " + message)`
      over the per-key texts. */
  function SpaceSeparated(parts: seq<string>): string {
    if |parts| == 0 then "" else SpaceSeparated(parts[..|parts| - 1]) + " " + parts[|parts| - 1]
  }

  /** Each key's messages joined with ". ". */
  function ErrorTexts(m: ErrorMap): (texts: seq<string>)
    ensures |texts| == |m|
    ensures forall i :: 0 <= i < |m| ==> texts[i] == Text.Join(". ", m[i].messages)
  {
    seq(|m|, i requires 0 <= i < |m| => Text.Join(". ", m[i].messages))
  }

  /** `GetErrorMessagesText()`: null when there are no errors, otherwise the
      per-key texts separated by spaces and trimmed. */
  function GetErrorMessagesText(r: ActionReceipt): (text: Option<string>)
    ensures text.None? <==> |r.errors| == 0
    ensures text.Some? && |text.value| > 0 ==>
              !Text.IsWhiteSpace(text.value[0]) && !Text.IsWhiteSpace(text.value[|text.value| - 1])
  {
    if |r.errors| == 0 then None
    else Some(Text.Trim(SpaceSeparated(ErrorTexts(r.errors))))
  }

  /** The text of a receipt with one single-message error is that message,
      when the message has no surrounding whitespace. */
  lemma ErrorTextOfSingleMessage(r: ActionReceipt, key: string, message: string)
    requires r.errors == [ErrorItem(key, [message])]
    requires |message| > 0 && !Text.IsWhiteSpace(message[0]) && !Text.IsWhiteSpace(message[|message| - 1])
    ensures GetErrorMessagesText(r) == Some(message)
  {
    var texts := ErrorTexts(r.errors);
    assert texts == [message];
    assert SpaceSeparated(texts) == " " + message by {
      assert texts[..0] == [];
    }
    assert Text.TrimStart(" " + message) == Text.TrimStart(message) by {
      assert (" " + message)[1..] == message;
    }
    Text.TrimFramed(message);
  }

  /** The first entry whose key is `key`, if any. */
  function {:induction false} FindInfo(entries: seq<InfoEntry>, key: string): (r: Option<InfoEntry>)
    ensures r.None? <==> forall i :: 0 <= i < |entries| ==> entries[i].key != Some(key)
    ensures r.Some? ==> exists i :: 0 <= i < |entries| && entries[i] == r.value &&
                           r.value.key == Some(key) &&
                           forall j :: 0 <= j < i ==> entries[j].key != Some(key)
  {
    if |entries| == 0 then None
    else if entries[0].key == Some(key) then Some(entries[0])
    else
      var r := FindInfo(entries[1..], key);
      assert forall i :: 1 <= i < |entries| ==> entries[i] == entries[1..][i - 1];
      if r.Some? then
        var i :| 0 <= i < |entries[1..]| && entries[1..][i] == r.value && r.value.key == Some(key) &&
                 forall j :: 0 <= j < i ==> entries[1..][j].key != Some(key);
        assert entries[i + 1] == r.value;
        r
      else r
  }

  /** `GetInfoEntry(key)`: the first entry with that key, if any. */
  function GetInfoEntry(r: ActionReceipt, key: string): (e: Option<InfoEntry>)
    ensures e.None? <==> forall i :: 0 <= i < |r.infoEntries| ==> r.infoEntries[i].key != Some(key)
    ensures e.Some? ==> e.value in r.infoEntries && e.value.key == Some(key)
    ensures forall i :: 0 <= i < |r.infoEntries| && r.infoEntries[i].key == Some(key) &&
                        (forall j :: 0 <= j < i ==> r.infoEntries[j].key != Some(key)) ==>
                        e == Some(r.infoEntries[i])
  {
    FirstMatchIsFound(r.infoEntries, key);
    FindInfo(r.infoEntries, key)
  }

  /** Whatever entry carries the first occurrence of `key` is the one
      `FindInfo` returns. */
  lemma {:induction false} FirstMatchIsFound(entries: seq<InfoEntry>, key: string)
    ensures forall i :: 0 <= i < |entries| && entries[i].key == Some(key) &&
                        (forall j :: 0 <= j < i ==> entries[j].key != Some(key)) ==>
                        FindInfo(entries, key) == Some(entries[i])
  {
    forall i | 0 <= i < |entries| && entries[i].key == Some(key) &&
               (forall j :: 0 <= j < i ==> entries[j].key != Some(key))
      ensures FindInfo(entries, key) == Some(entries[i])
    {
      var f := FindInfo(entries, key);
      var i' :| 0 <= i' < |entries| && entries[i'] == f.value && f.value.key == Some(key) &&
                forall j :: 0 <= j < i' ==> entries[j].key != Some(key);
      assert i' == i;
    }
  }

  /** `GetInfoItemValue(key)`: the value of the first entry with that key;
      null when there is none (or when that entry's value is null). */
  function GetInfoItemValue(r: ActionReceipt, key: string): (v: Option<string>)
    ensures (forall i :: 0 <= i < |r.infoEntries| ==> r.infoEntries[i].key != Some(key)) ==> v.None?
    ensures forall i :: 0 <= i < |r.infoEntries| && r.infoEntries[i].key == Some(key) &&
                        (forall j :: 0 <= j < i ==> r.infoEntries[j].key != Some(key)) ==>
                        v == r.infoEntries[i].value
    ensures v.Some? ==> exists i :: 0 <= i < |r.infoEntries| && r.infoEntries[i] == InfoEntry(Some(key), v) &&
                           forall j :: 0 <= j < i ==> r.infoEntries[j].key != Some(key)
  {
    FirstMatchIsFound(r.infoEntries, key);
    match FindInfo(r.infoEntries, key)
    case Some(e) => e.value
    case None => None
  }

  /** Appending an entry never hides an earlier one: the lookup after
      `AddInfo` finds the old first match, or the new entry when there was none. */
  lemma {:induction false} InfoLookupAfterAdd(r: ActionReceipt, key: string, value: Option<string>)
    ensures GetInfoItemValue(AddInfo(r, InfoEntry(Some(key), value)), key) ==
            if GetInfoEntry(r, key).Some? then GetInfoItemValue(r, key) else value
  {
    InfoLookupAppend(r.infoEntries, InfoEntry(Some(key), value), key);
  }

  lemma {:induction false} InfoLookupAppend(entries: seq<InfoEntry>, e: InfoEntry, key: string)
    ensures FindInfo(entries + [e], key) ==
            if FindInfo(entries, key).Some? then FindInfo(entries, key)
            else if e.key == Some(key) then Some(e) else None
    decreases |entries|
  {
    if |entries| > 0 {
      assert (entries + [e])[1..] == entries[1..] + [e];
      InfoLookupAppend(entries[1..], e, key);
    }
  }

  /** The outcome `switch` of the instance `Merge`: a Success receipt takes
      any other outcome, a NotFound receipt is raised to Exception, and
      nothing else changes. */
  function MergeOutcome(a: ActionOutcome, b: ActionOutcome): (o: ActionOutcome)
    ensures IsDefined(a) && IsDefined(b) ==> IsDefined(o) && o == (if a < b then b else a)
    ensures a == Success ==> o == b
    ensures b == Success ==> o == a
  {
    if a == Success && b != Success then b
    else if a == NotFound && b == Exception then Exception
    else a
  }

  lemma MergeOutcomeCommutative(a: ActionOutcome, b: ActionOutcome)
    requires IsDefined(a) && IsDefined(b)
    ensures MergeOutcome(a, b) == MergeOutcome(b, a)
  {
  }

  lemma MergeOutcomeAssociative(a: ActionOutcome, b: ActionOutcome, c: ActionOutcome)
    requires IsDefined(a) && IsDefined(b) && IsDefined(c)
    ensures MergeOutcome(MergeOutcome(a, b), c) == MergeOutcome(a, MergeOutcome(b, c))
  {
  }

  /** Instance `Merge(other)`: adds every error of `other` (a shared key
      throws), appends its information entries after the receiver's own,
      and raises the outcome. The affected total is the receiver's. */
  function Merge(a: ActionReceipt, b: ActionReceipt): (r: Result<ActionReceipt>)
    requires UniqueKeys(a.errors)
    ensures r.Ok? <==> UniqueKeys(a.errors + b.errors)
    ensures r.Err? ==> r.fault.DuplicateKey?
    ensures r.Ok? ==> && r.value.errors == a.errors + b.errors
                      && r.value.infoEntries == a.infoEntries + b.infoEntries
                      && r.value.affectedTotal == a.affectedTotal
                      && r.value.outcome == MergeOutcome(a.outcome, b.outcome)
  {
    var errors :- AddAllErrors(a.errors, b.errors);
    Ok(ActionReceipt(a.affectedTotal, errors, a.infoEntries + b.infoEntries, MergeOutcome(a.outcome, b.outcome)))
  }

  function ConcatErrors(rs: seq<ActionReceipt>): ErrorMap {
    if |rs| == 0 then [] else rs[0].errors + ConcatErrors(rs[1..])
  }

  function ConcatInfo(rs: seq<ActionReceipt>): seq<InfoEntry> {
    if |rs| == 0 then [] else rs[0].infoEntries + ConcatInfo(rs[1..])
  }

  predicate AllDefined(rs: seq<ActionReceipt>) {
    forall i :: 0 <= i < |rs| ==> IsDefined(rs[i].outcome)
  }

  /** The most severe outcome among `o` and those of `rs`. */
  function MaxOutcome(o: ActionOutcome, rs: seq<ActionReceipt>): ActionOutcome
    decreases |rs|
  {
    if |rs| == 0 then o
    else MaxOutcome(if o < rs[0].outcome then rs[0].outcome else o, rs[1..])
  }

  /** The `for` loop of the static `Merge`: merges `rest` into `acc` left to right. */
  function {:induction false} FoldMerge(acc: ActionReceipt, rest: seq<ActionReceipt>): (r: Result<ActionReceipt>)
    requires UniqueKeys(acc.errors)
    ensures r.Ok? <==> UniqueKeys(acc.errors + ConcatErrors(rest))
    ensures r.Ok? ==> && r.value.errors == acc.errors + ConcatErrors(rest)
                      && r.value.infoEntries == acc.infoEntries + ConcatInfo(rest)
                      && r.value.affectedTotal == acc.affectedTotal
    ensures r.Ok? && IsDefined(acc.outcome) && AllDefined(rest) ==>
              r.value.outcome == MaxOutcome(acc.outcome, rest)
    decreases |rest|
  {
    if |rest| == 0 then
      assert acc.errors + ConcatErrors(rest) == acc.errors;
      assert acc.infoEntries + ConcatInfo(rest) == acc.infoEntries;
      Ok(acc)
    else
      assert acc.errors + ConcatErrors(rest) == (acc.errors + rest[0].errors) + ConcatErrors(rest[1..]);
      assert acc.infoEntries + ConcatInfo(rest) == (acc.infoEntries + rest[0].infoEntries) + ConcatInfo(rest[1..]);
      match Merge(acc, rest[0])
      case Err(f) =>
        assert !UniqueKeys(acc.errors + ConcatErrors(rest)) by {
          if UniqueKeys(acc.errors + ConcatErrors(rest)) {
            UniqueKeysPrefix(acc.errors + rest[0].errors, ConcatErrors(rest[1..]));
          }
        }
        Err(f)
      case Ok(m) =>
        assert AllDefined(rest) ==> AllDefined(rest[1..]) by {
          if AllDefined(rest) {
            forall i | 0 <= i < |rest[1..]|
              ensures IsDefined(rest[1..][i].outcome)
            {
              assert rest[1..][i] == rest[i + 1];
            }
          }
        }
        FoldMerge(m, rest[1..])
  }

  /** Static `Merge(receipts)`: null for no receipts, the receipt itself for
      one, otherwise every later receipt merged into the first. */
  function MergeAll(rs: seq<ActionReceipt>): (r: Result<Option<ActionReceipt>>)
    requires forall i :: 0 <= i < |rs| ==> UniqueKeys(rs[i].errors)
    ensures |rs| == 0 ==> r == Ok(None)
    ensures |rs| == 1 ==> r == Ok(Some(rs[0]))
    ensures |rs| >= 2 ==> (r.Ok? <==> UniqueKeys(ConcatErrors(rs)))
    ensures r.Ok? && |rs| > 0 ==> && r.value.Some?
                                  && r.value.value.errors == ConcatErrors(rs)
                                  && r.value.value.infoEntries == ConcatInfo(rs)
                                  && r.value.value.affectedTotal == rs[0].affectedTotal
    ensures r.Ok? && |rs| > 0 && AllDefined(rs) ==> r.value.value.outcome == MaxOutcome(Success, rs)
  {
    if |rs| == 0 then Ok(None)
    else if |rs| == 1 then
      assert ConcatErrors(rs) == rs[0].errors + ConcatErrors(rs[1..]);
      assert ConcatInfo(rs) == rs[0].infoEntries + ConcatInfo(rs[1..]);
      Ok(Some(rs[0]))
    else
      assert AllDefined(rs) ==> AllDefined(rs[1..]) by {
        if AllDefined(rs) {
          forall i | 0 <= i < |rs[1..]|
            ensures IsDefined(rs[1..][i].outcome)
          {
            assert rs[1..][i] == rs[i + 1];
          }
        }
      }
      var merged :- FoldMerge(rs[0], rs[1..]);
      Ok(Some(merged))
  }
}
