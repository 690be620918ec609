/** The persisted entities: cards and the payment transaction record, together
    with the column constraints of the transaction table as an invariant of the
    transaction log. */
module PaymentModel {
  import opened Outcomes

  type MemberNumber = int

  /** A card row: generated surrogate key, card number and owning member. */
  datatype Card = Card(id: nat, cardNumber: string, owner: MemberNumber)

  /** The gateway's outcome status (PaymentProcessorResponse.PaymentResponseStatus). */
  datatype Status = Success | Failure

  /** A PaymentTransaction object. Columns that Java may leave `null` are
      options; the table's NOT NULL constraints are `MandatoryFieldsPresent`.
      `id` is 0 until the store generates it. */
  datatype PaymentTransaction = PaymentTransaction(
    paymentId: Option<int>,
    id: nat,
    destinationCardNumber: Option<string>,
    transactionDate: int,
    amountTransaction: Option<int>,
    description: Option<string>,
    result: Option<Status>,
    card: Card)

  /** The NOT NULL columns are all set (transactionDate is a primitive-backed
      Integer that the mapper always fills, and the card link is always set). */
  predicate MandatoryFieldsPresent(t: PaymentTransaction) {
    && t.paymentId.Some?
    && t.destinationCardNumber.Some?
    && t.amountTransaction.Some?
    && t.description.Some?
    && t.result.Some?
  }

  /** `paymentId` is UNIQUE over the stored rows. */
  predicate PaymentIdsUnique(log: seq<PaymentTransaction>) {
    forall i, j :: 0 <= i < j < |log| ==> log[i].paymentId != log[j].paymentId
  }

  /** The generated keys are handed out in increasing order and stay below the
      next key to hand out, so they are distinct. */
  predicate IdsGenerated(log: seq<PaymentTransaction>, nextId: nat) {
    && (forall i :: 0 <= i < |log| ==> log[i].id < nextId)
    && (forall i, j :: 0 <= i < j < |log| ==> log[i].id < log[j].id)
  }

  /** Everything the transaction table guarantees of its rows. */
  predicate ValidLog(log: seq<PaymentTransaction>, nextId: nat) {
    && (forall i :: 0 <= i < |log| ==> MandatoryFieldsPresent(log[i]))
    && PaymentIdsUnique(log)
    && IdsGenerated(log, nextId)
  }

  /** The store accepts a new row when its mandatory columns are set and its
      payment id is not already stored. */
  predicate Persistable(log: seq<PaymentTransaction>, t: PaymentTransaction) {
    MandatoryFieldsPresent(t) && forall i :: 0 <= i < |log| ==> log[i].paymentId != t.paymentId
  }

  /** Saving a record: the row gets the next generated key, or the store
      refuses it with a constraint violation and stays as it was. */
  function Save(log: seq<PaymentTransaction>, nextId: nat, t: PaymentTransaction)
    : (r: Result<seq<PaymentTransaction>>)
    requires ValidLog(log, nextId)
    ensures r.Ok? <==> Persistable(log, t)
    ensures r.Ok? ==> ValidLog(r.value, nextId + 1)
    ensures r.Ok? ==> |r.value| == |log| + 1 && r.value[..|log|] == log
    ensures r.Ok? ==> r.value[|log|] == t.(id := nextId)
    ensures r.Err? ==> r.error == ConstraintViolation
  {
    if Persistable(log, t) then Ok(log + [t.(id := nextId)]) else Err(ConstraintViolation)
  }

  /** Every stored record carries a status, so grouping by status never meets
      a null key. */
  lemma {:induction false} ValidLogHasResults(log: seq<PaymentTransaction>, nextId: nat, t: PaymentTransaction)
    requires ValidLog(log, nextId)
    requires t in log
    ensures t.result.Some? && t.paymentId.Some?
  {
    var i :| 0 <= i < |log| && log[i] == t;
    assert MandatoryFieldsPresent(log[i]);
  }
}
