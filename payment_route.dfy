/**
 * The payment routes as functions from the table before a request to the
 * table after it and the reply. Calls to the payment provider are
 * parameters: `None` stands for a call that threw, which the route answers
 * with 500 before touching the table. The admin check is the boolean
 * `isAdmin`.
 */
module PaymentRoute {
  import opened Wrappers
  import opened Jsonb
  import opened Uuid
  import opened Transactions
  import opened Replies

  /** `if (!amount)`: an absent amount and 0 are both rejected. */
  predicate AmountGiven(amount: Option<int>) {
    amount.Some? && amount.value != 0
  }

  /** `const { currency = "usd" } = req.body`: the default applies only to an absent field. */
  function CurrencyOrDefault(currency: Option<string>): string {
    if currency.Some? then currency.value else "usd"
  }

  /** What `paymentIntents.create` returns that the route stores. */
  datatype CreatedIntent = CreatedIntent(id: string, metadata: Object)

  /** `POST /create-payment-intent`, with the freshly generated `txnId` as a parameter. */
  function CreatePaymentIntent(t: Table, amount: Option<int>, currency: Option<string>, txnId: string,
                               intent: Option<CreatedIntent>): (r: Step)
    ensures r.reply == BadRequest <==> !AmountGiven(amount)
    ensures r.reply.PaymentIntentCreated? || r.reply == BadRequest || r.reply == ServerError
    ensures !r.reply.PaymentIntentCreated? ==> r.table == t
    ensures r.reply.PaymentIntentCreated? ==>
      |r.table.rows| == |t.rows| + 1 && r.table.rows[..|t.rows|] == t.rows
  {
    if !AmountGiven(amount) then Step(t, BadRequest)
    else if intent.None? then Step(t, ServerError)
    else if FindBy(t.rows, TxnIdColumn, txnId).Some? ||
            FindBy(t.rows, PaymentIntentColumn, intent.value.id).Some? then
      // the INSERT violates a unique key and throws
      Step(t, ServerError)
    else
      Step(Insert(t, txnId, intent.value.id, amount.value, CurrencyOrDefault(currency), Created,
                  intent.value.metadata),
           PaymentIntentCreated(txnId, intent.value.id))
  }

  /** A falsy amount is answered with 400 before anything else happens. */
  lemma CreateRejectsFalsyAmount(t: Table, amount: Option<int>, currency: Option<string>, txnId: string,
                                 intent: Option<CreatedIntent>)
    requires amount == None || amount == Some(0)
    ensures CreatePaymentIntent(t, amount, currency, txnId, intent) == Step(t, BadRequest)
    ensures HttpStatus(CreatePaymentIntent(t, amount, currency, txnId, intent).reply) == 400
  {
  }

  /** A failed provider call or a key already in the table answers 500 and leaves the table as it was. */
  lemma CreateFailureLeavesTable(t: Table, amount: Option<int>, currency: Option<string>, txnId: string,
                                 intent: Option<CreatedIntent>)
    requires AmountGiven(amount)
    requires intent.None? ||
             (exists i :: 0 <= i < |t.rows| && (t.rows[i].txnId == txnId || t.rows[i].paymentIntentId == intent.value.id))
    ensures CreatePaymentIntent(t, amount, currency, txnId, intent) == Step(t, ServerError)
  {
    if intent.Some? {
      var i :| 0 <= i < |t.rows| && (t.rows[i].txnId == txnId || t.rows[i].paymentIntentId == intent.value.id);
      assert Key(t.rows[i], TxnIdColumn) == txnId || Key(t.rows[i], PaymentIntentColumn) == intent.value.id;
    }
  }

  /**
   * A successful create appends exactly one row, in status `created`, with
   * the fresh `txn_id`, the provider's intent id, the amount, the currency
   * (`usd` when absent) and the provider's metadata; no existing row changes.
   */
  lemma CreateAddsOneRow(t: Table, amount: Option<int>, currency: Option<string>, txnId: string,
                         intent: Option<CreatedIntent>)
    requires AmountGiven(amount) && intent.Some?
    requires forall i :: 0 <= i < |t.rows| ==> t.rows[i].txnId != txnId && t.rows[i].paymentIntentId != intent.value.id
    ensures var s := CreatePaymentIntent(t, amount, currency, txnId, intent);
      s.reply == PaymentIntentCreated(txnId, intent.value.id) &&
      |s.table.rows| == |t.rows| + 1 &&
      s.table.rows[..|t.rows|] == t.rows &&
      var row := s.table.rows[|t.rows|];
      row.txnId == txnId && row.paymentIntentId == intent.value.id &&
      row.amount == amount.value && row.status == Created && row.metadata == intent.value.metadata &&
      (currency.None? ==> row.currency == "usd") &&
      (currency.Some? ==> row.currency == currency.value)
  {
    assert FindBy(t.rows, TxnIdColumn, txnId).None?;
    assert FindBy(t.rows, PaymentIntentColumn, intent.value.id).None?;
  }

  lemma CreatePreservesValid(t: Table, amount: Option<int>, currency: Option<string>, txnId: string,
                             intent: Option<CreatedIntent>)
    requires Valid(t)
    ensures Valid(CreatePaymentIntent(t, amount, currency, txnId, intent).table)
  {
    if AmountGiven(amount) && intent.Some? &&
       FindBy(t.rows, TxnIdColumn, txnId).None? && FindBy(t.rows, PaymentIntentColumn, intent.value.id).None? {
      InsertPreservesValid(t, txnId, intent.value.id, amount.value, CurrencyOrDefault(currency), Created,
                           intent.value.metadata);
    }
  }

  /** `/status/:id` looks an identifier up by `txn_id` exactly when it has the UUID form. */
  function LookupColumn(id: string): (col: Column)
    ensures col == TxnIdColumn <==> IsUuid(id)
  {
    if IsUuid(id) then TxnIdColumn else PaymentIntentColumn
  }

  /**
   * A row whose `txn_id` has the UUID form and whose `payment_intent_id`
   * does not is found, by `/status/:id`, under either identifier.
   */
  lemma DualKeyLookup(t: Table, i: nat)
    requires Valid(t) && i < |t.rows|
    requires IsUuid(t.rows[i].txnId) && !IsUuid(t.rows[i].paymentIntentId)
    ensures FindBy(t.rows, LookupColumn(t.rows[i].txnId), t.rows[i].txnId) == Some(t.rows[i])
    ensures FindBy(t.rows, LookupColumn(t.rows[i].paymentIntentId), t.rows[i].paymentIntentId) == Some(t.rows[i])
  {
    FindUnique(t, TxnIdColumn, i);
    FindUnique(t, PaymentIntentColumn, i);
  }

  /**
   * A row created with a UUID `txn_id` and a provider id (which carries an
   * underscore) is found under both identifiers right after its creation.
   */
  lemma CreatedRowFoundByBothIds(t: Table, amount: Option<int>, currency: Option<string>, txnId: string,
                                 intent: Option<CreatedIntent>)
    requires Valid(t) && AmountGiven(amount) && intent.Some?
    requires IsUuid(txnId) && '_' in intent.value.id
    requires forall i :: 0 <= i < |t.rows| ==> t.rows[i].txnId != txnId && t.rows[i].paymentIntentId != intent.value.id
    ensures var after := CreatePaymentIntent(t, amount, currency, txnId, intent).table;
      FindBy(after.rows, LookupColumn(txnId), txnId).Some? &&
      FindBy(after.rows, LookupColumn(intent.value.id), intent.value.id) == FindBy(after.rows, LookupColumn(txnId), txnId)
  {
    CreateAddsOneRow(t, amount, currency, txnId, intent);
    CreatePreservesValid(t, amount, currency, txnId, intent);
    UnderscoreIsNotUuid(intent.value.id);
    DualKeyLookup(CreatePaymentIntent(t, amount, currency, txnId, intent).table, |t.rows|);
  }

  /** `POST /refund`: `refund` is the id the provider gave the refund, `None` if the call threw. */
  function Refund(t: Table, isAdmin: bool, paymentIntentId: Option<string>, refund: Option<string>): (r: Step)
    ensures r.reply.RefundIssued? <==> isAdmin && Truthy(paymentIntentId) && refund.Some?
    ensures r.reply.RefundIssued? ==> r.reply == RefundIssued(refund.value)
    ensures !r.reply.RefundIssued? ==> r.table == t
    ensures |r.table.rows| == |t.rows|
  {
    if !isAdmin then Step(t, Forbidden)
    else if !Truthy(paymentIntentId) then Step(t, BadRequest)
    else if refund.None? then Step(t, ServerError)
    else
      Step(Update(t, paymentIntentId.value, SetStatusAndMerge(Refunded, map["refund_id" := refund.value])),
           RefundIssued(refund.value))
  }

  /**
   * A refund by a non-admin (403), without a truthy intent id (400), or
   * whose provider call throws (500) is rejected and changes nothing.
   */
  lemma RefundRejected(t: Table, isAdmin: bool, paymentIntentId: Option<string>, refund: Option<string>)
    requires !isAdmin || !Truthy(paymentIntentId) || refund.None?
    ensures Refund(t, isAdmin, paymentIntentId, refund).table == t
    ensures Refund(t, isAdmin, paymentIntentId, refund).reply ==
      if !isAdmin then Forbidden else if !Truthy(paymentIntentId) then BadRequest else ServerError
    ensures HttpStatus(Refund(t, isAdmin, paymentIntentId, refund).reply) ==
      if !isAdmin then 403 else if !Truthy(paymentIntentId) then 400 else 500
  {
  }

  /**
   * A refund changes only the row of the intent: its status becomes
   * `refunded`, `refund_id` is added or overwritten, every other metadata
   * key and every other field is kept; all other rows stay as they were.
   * The reply carries the provider's refund.
   */
  lemma RefundChangesOnlyItsRow(t: Table, paymentIntentId: string, refundId: string, i: nat)
    requires paymentIntentId != "" && i < |t.rows|
    ensures Refund(t, true, Some(paymentIntentId), Some(refundId)).reply == RefundIssued(refundId)
    ensures HttpStatus(Refund(t, true, Some(paymentIntentId), Some(refundId)).reply) == 200
    ensures var after := Refund(t, true, Some(paymentIntentId), Some(refundId)).table;
      |after.rows| == |t.rows| &&
      var old_row, row := t.rows[i], after.rows[i];
      if old_row.paymentIntentId == paymentIntentId then
        row.status == Refunded &&
        row.metadata.Keys == old_row.metadata.Keys + {"refund_id"} &&
        row.metadata["refund_id"] == refundId &&
        (forall k :: k in old_row.metadata && k != "refund_id" ==> row.metadata[k] == old_row.metadata[k]) &&
        row.(status := old_row.status, metadata := old_row.metadata, updatedAt := old_row.updatedAt) == old_row
      else row == old_row
  {
  }

  /** `Refund` keeps the table valid. */
  lemma RefundPreservesValid(t: Table, isAdmin: bool, paymentIntentId: Option<string>, refund: Option<string>)
    requires Valid(t)
    ensures Valid(Refund(t, isAdmin, paymentIntentId, refund).table)
  {
    if isAdmin && Truthy(paymentIntentId) && refund.Some? {
      UpdatePreservesValid(t, paymentIntentId.value, SetStatusAndMerge(Refunded, map["refund_id" := refund.value]));
    }
  }

  /** The status the provider reports for an intent, mapped to the table's status. */
  function ProviderStatus(providerStatus: string): (s: Status)
    ensures s == Succeeded <==> providerStatus == "succeeded"
    ensures s == Failed <==> providerStatus == "canceled" || providerStatus == "requires_payment_method"
    ensures s != Refunded
  {
    if providerStatus == "succeeded" then Succeeded
    else if providerStatus == "canceled" || providerStatus == "requires_payment_method" then Failed
    else Created
  }

  /** `POST /verify-status`: `retrieved` is the status the provider reports, `None` if the call threw. */
  function VerifyStatus(t: Table, isAdmin: bool, paymentIntentId: Option<string>, retrieved: Option<string>): (r: Step)
    ensures r.reply.StatusSynced? <==> isAdmin && Truthy(paymentIntentId) && retrieved.Some?
    ensures r.reply.StatusSynced? ==> r.reply == StatusSynced(ProviderStatus(retrieved.value), retrieved.value)
    ensures r.reply.StatusSynced? ==> r.reply.status != Refunded
    ensures !r.reply.StatusSynced? ==> r.table == t
    ensures |r.table.rows| == |t.rows|
  {
    if !isAdmin then Step(t, Forbidden)
    else if !Truthy(paymentIntentId) then Step(t, BadRequest)
    else if retrieved.None? then Step(t, ServerError)
    else
      var s := ProviderStatus(retrieved.value);
      Step(Update(t, paymentIntentId.value, SetStatusAndMerge(s, map["stripe_status" := retrieved.value])),
           StatusSynced(s, retrieved.value))
  }

  /**
   * A verify by a non-admin (403), without a truthy intent id (400), or
   * whose provider call throws (500) is rejected and changes nothing.
   */
  lemma VerifyRejected(t: Table, isAdmin: bool, paymentIntentId: Option<string>, retrieved: Option<string>)
    requires !isAdmin || !Truthy(paymentIntentId) || retrieved.None?
    ensures VerifyStatus(t, isAdmin, paymentIntentId, retrieved).table == t
    ensures VerifyStatus(t, isAdmin, paymentIntentId, retrieved).reply ==
      if !isAdmin then Forbidden else if !Truthy(paymentIntentId) then BadRequest else ServerError
    ensures HttpStatus(VerifyStatus(t, isAdmin, paymentIntentId, retrieved).reply) ==
      if !isAdmin then 403 else if !Truthy(paymentIntentId) then 400 else 500
  {
  }

  /**
   * Verify overwrites the row's status with the mapped provider status,
   * whatever it was, and records the raw string as `stripe_status`; other
   * rows, other keys and other fields are kept.
   */
  lemma VerifyOverwrites(t: Table, paymentIntentId: string, providerStatus: string, i: nat)
    requires paymentIntentId != "" && i < |t.rows|
    ensures var s := VerifyStatus(t, true, Some(paymentIntentId), Some(providerStatus));
      s.reply == StatusSynced(ProviderStatus(providerStatus), providerStatus) &&
      |s.table.rows| == |t.rows| &&
      var old_row, row := t.rows[i], s.table.rows[i];
      if old_row.paymentIntentId == paymentIntentId then
        row.status == ProviderStatus(providerStatus) &&
        row.metadata == old_row.metadata[("stripe_status") := providerStatus] &&
        row.(status := old_row.status, metadata := old_row.metadata, updatedAt := old_row.updatedAt) == old_row
      else row == old_row
  {
    var after := VerifyStatus(t, true, Some(paymentIntentId), Some(providerStatus)).table;
    if t.rows[i].paymentIntentId == paymentIntentId {
      assert after.rows[i].metadata == t.rows[i].metadata[("stripe_status") := providerStatus];
    }
  }

  /** Verifying twice against the same provider status leaves what verifying once leaves, up to `updated_at`. */
  lemma VerifyIdempotent(t: Table, isAdmin: bool, paymentIntentId: Option<string>, retrieved: Option<string>)
    ensures var once := VerifyStatus(t, isAdmin, paymentIntentId, retrieved);
      var twice := VerifyStatus(once.table, isAdmin, paymentIntentId, retrieved);
      twice.reply == once.reply && SameContent(twice.table.rows, once.table.rows)
  {
    if isAdmin && Truthy(paymentIntentId) && retrieved.Some? {
      UpdateTwice(t.rows, paymentIntentId.value,
                  SetStatusAndMerge(ProviderStatus(retrieved.value), map["stripe_status" := retrieved.value]),
                  t.clock, t.clock + 1);
    }
  }

  /** Once the row agrees with the provider, verifying again changes nothing but `updated_at`. */
  lemma VerifyFixedPoint(t: Table, paymentIntentId: string, providerStatus: string)
    requires paymentIntentId != ""
    requires forall i :: 0 <= i < |t.rows| && t.rows[i].paymentIntentId == paymentIntentId ==>
      t.rows[i].status == ProviderStatus(providerStatus) &&
      "stripe_status" in t.rows[i].metadata && t.rows[i].metadata["stripe_status"] == providerStatus
    ensures SameContent(VerifyStatus(t, true, Some(paymentIntentId), Some(providerStatus)).table.rows, t.rows)
  {
    var after := VerifyStatus(t, true, Some(paymentIntentId), Some(providerStatus)).table;
    forall i | 0 <= i < |t.rows|
      ensures Unstamped(after.rows[i]) == Unstamped(t.rows[i])
    {
      if t.rows[i].paymentIntentId == paymentIntentId {
        assert after.rows[i].metadata == t.rows[i].metadata;
      }
    }
  }

  /** `VerifyStatus` keeps the table valid. */
  lemma VerifyPreservesValid(t: Table, isAdmin: bool, paymentIntentId: Option<string>, retrieved: Option<string>)
    requires Valid(t)
    ensures Valid(VerifyStatus(t, isAdmin, paymentIntentId, retrieved).table)
  {
    if isAdmin && Truthy(paymentIntentId) && retrieved.Some? {
      UpdatePreservesValid(t, paymentIntentId.value,
                           SetStatusAndMerge(ProviderStatus(retrieved.value), map["stripe_status" := retrieved.value]));
    }
  }
}
