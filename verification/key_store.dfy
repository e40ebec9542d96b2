/** The key store's `Services` table: rows in scan order, constrained as the
    entity map `ServiceMap` configures it (primary key, two unique indexes,
    two maximum lengths; both text columns are required, which the
    non-optional `string` fields already say). */
module KeyStore {
  import opened Wrappers
  import Text
  import Guids
  import opened ServiceEntity

  type Store = seq<Service>

  const MaxNameLength := 50
  const MaxApiKeyLength := 36

  /** The column lengths `HasMaxLength` allows, counted as .NET counts a
      string's length. */
  predicate FitsColumns(s: Service) {
    Text.Utf16Length(s.serviceName) <= MaxNameLength && Text.Utf16Length(s.apiKey) <= MaxApiKeyLength
  }

  /** Every constraint of the table holds. */
  predicate WellFormed(store: Store) {
    && (forall i :: 0 <= i < |store| ==> FitsColumns(store[i]))
    && (forall i, j :: 0 <= i < j < |store| ==>
          && store[i].serviceId != store[j].serviceId
          && store[i].serviceName != store[j].serviceName
          && store[i].apiKey != store[j].apiKey)
  }

  /** A new row clashes with none of the existing rows on the primary key or
      the unique indexes, and fits its columns. */
  predicate Admissible(store: Store, row: Service) {
    && FitsColumns(row)
    && forall s :: s in store ==>
         s.serviceId != row.serviceId && s.serviceName != row.serviceName && s.apiKey != row.apiKey
  }

  /** `Services.FirstOrDefault(x => x.ServiceId == id)`: the first row with
      that identifier, `None` for the `null` of an empty match. */
  function FindById(store: Store, id: Guids.Guid): (r: Option<Service>)
    ensures r.Some? <==> exists i :: 0 <= i < |store| && store[i].serviceId == id
    ensures r.Some? ==> exists i :: && 0 <= i < |store| && store[i] == r.value && r.value.serviceId == id
                                    && forall k :: 0 <= k < i ==> store[k].serviceId != id
  {
    if |store| == 0 then None
    else if store[0].serviceId == id then Some(store[0])
    else
      var r := FindById(store[1..], id);
      assert forall i :: 0 < i < |store| ==> store[i] == store[1..][i - 1];
      assert r.Some? ==> exists i :: 0 <= i < |store| && store[i].serviceId == id by {
        if r.Some? {
          var i :| 0 <= i < |store[1..]| && store[1..][i] == r.value && r.value.serviceId == id;
          assert store[i + 1] == r.value;
        }
      }
      assert r.Some? ==> exists i :: && 0 <= i < |store| && store[i] == r.value && r.value.serviceId == id
                                     && forall k :: 0 <= k < i ==> store[k].serviceId != id by {
        if r.Some? {
          var i :| && 0 <= i < |store[1..]| && store[1..][i] == r.value && r.value.serviceId == id
                   && forall k :: 0 <= k < i ==> store[1..][k].serviceId != id;
          assert store[i + 1] == r.value;
          forall k | 0 <= k < i + 1
            ensures store[k].serviceId != id
          {
            if k > 0 { assert store[k] == store[1..][k - 1]; }
          }
        }
      }
      r
  }

  /** With the primary key in force the first match is the only match. */
  lemma FindByIdUnique(store: Store, i: nat)
    requires WellFormed(store) && i < |store|
    ensures FindById(store, store[i].serviceId) == Some(store[i])
  {
    var r := FindById(store, store[i].serviceId);
    var j :| && 0 <= j < |store| && store[j] == r.value && r.value.serviceId == store[i].serviceId
             && forall k :: 0 <= k < j ==> store[k].serviceId != store[i].serviceId;
    assert !(j < i);
    assert !(i < j);
  }

  /** `Services.Add(row)` then `SaveChanges()`: the row is appended, or the
      database rejects it with a constraint violation and nothing changes.
      On a consistent table, acceptance is exactly "the table stays
      consistent". */
  function Insert(store: Store, row: Service): (r: Result<Store>)
    ensures r.Ok? ==> r.value == store + [row]
    ensures r.Err? ==> r.fault == ConstraintViolation
    ensures WellFormed(store) ==> (r.Ok? <==> WellFormed(store + [row]))
  {
    var extended := store + [row];
    assert forall i :: 0 <= i < |store| ==> extended[i] == store[i];
    assert extended[|store|] == row;
    assert WellFormed(extended) ==> Admissible(store, row) by {
      if WellFormed(extended) {
        assert FitsColumns(extended[|store|]);
        forall s | s in store
          ensures s.serviceId != row.serviceId && s.serviceName != row.serviceName && s.apiKey != row.apiKey
        {
          var i :| 0 <= i < |store| && store[i] == s;
          assert extended[i] == s && extended[|store|] == row;
        }
      }
    }
    assert WellFormed(store) && Admissible(store, row) ==> WellFormed(extended) by {
      if WellFormed(store) && Admissible(store, row) {
        forall i, j | 0 <= i < j < |extended|
          ensures && extended[i].serviceId != extended[j].serviceId
                  && extended[i].serviceName != extended[j].serviceName
                  && extended[i].apiKey != extended[j].apiKey
        {
          if j == |store| {
            assert extended[i] in store;
          }
        }
      }
    }
    if Admissible(store, row) then Ok(extended) else Err(ConstraintViolation)
  }

  /** A second service under a name the table already holds is refused. */
  lemma DuplicateNameRejected(store: Store, row: Service, i: nat)
    requires i < |store| && store[i].serviceName == row.serviceName
    ensures Insert(store, row) == Err(ConstraintViolation)
  {
    assert store[i] in store;
  }

  /** `Services.Select(s => new ServiceRecord(s)).ToList()`: the projection of
      every row, in table order. */
  function ListAll(store: Store): (r: seq<ServiceRecord>)
    ensures |r| == |store|
    ensures forall i :: 0 <= i < |store| ==> r[i] == Project(store[i])
  {
    seq(|store|, i requires 0 <= i < |store| => Project(store[i]))
  }
}
