/** `ActionReceiptModel`: the plain, serialisable copy of a receipt with its
    four public fields. */
module ReceiptModel {
  import opened ActionReceipts

  datatype Model = Model(
    affectedTotal: Int32,
    errors: ErrorMap,
    infoEntries: seq<InfoEntry>,
    outcome: ActionOutcome)

  /** The parameterless (JSON) constructor: every property at its initialiser. */
  function DefaultModel(): (m: Model)
    ensures m.affectedTotal == 0 && m.errors == [] && m.infoEntries == [] && m.outcome == Success
  {
    Model(0, [], [], Success)
  }

  /** `GetActionReceipt()`: a default receipt whose four fields are then
      overwritten with the model's. */
  function GetActionReceipt(m: Model): (r: ActionReceipt)
    ensures r.affectedTotal == m.affectedTotal && r.errors == m.errors
    ensures r.infoEntries == m.infoEntries && r.outcome == m.outcome
  {
    DefaultReceipt().(affectedTotal := m.affectedTotal, errors := m.errors,
                      infoEntries := m.infoEntries, outcome := m.outcome)
  }

  /** The constructor taking a receipt; the receipt it describes is the one
      `GetActionReceipt` rebuilds. */
  function FromReceipt(r: ActionReceipt): (m: Model)
    ensures GetActionReceipt(m) == r
  {
    Model(r.affectedTotal, r.errors, r.infoEntries, r.outcome)
  }

  /** The other direction: a model rebuilt from its own receipt is the model. */
  lemma ModelRoundTrip(m: Model)
    ensures FromReceipt(GetActionReceipt(m)) == m
  {
  }

  /** A freshly deserialised empty model stands for the default receipt. */
  lemma DefaultModelIsDefaultReceipt()
    ensures GetActionReceipt(DefaultModel()) == DefaultReceipt()
    ensures FromReceipt(DefaultReceipt()) == DefaultModel()
  {
  }
}
