/**
 * The webhook handler: the provider's signed event, dispatched on its type
 * to an upsert, an update or nothing. Signature verification is the
 * boolean `signatureValid`.
 */
module Webhook {
  import opened Wrappers
  import opened Jsonb
  import opened Transactions
  import opened Replies
  import PaymentRoute

  /** The arms of `switch (event.type)`. */
  datatype EventKind =
    | PaymentIntentSucceeded
    | PaymentIntentFailed
    | ChargeRefunded
    | RefundCreated
    | RefundUpdated
    | Unhandled

  function Classify(eventType: string): (k: EventKind)
    ensures k == PaymentIntentSucceeded <==> eventType == "payment_intent.succeeded"
    ensures k == PaymentIntentFailed <==> eventType == "payment_intent.payment_failed"
    ensures k == ChargeRefunded <==> eventType == "charge.refunded"
    ensures k == RefundCreated <==> eventType == "refund.created"
    ensures k == RefundUpdated <==> eventType == "refund.updated"
    ensures k == Unhandled <==>
      eventType !in {"payment_intent.succeeded", "payment_intent.payment_failed",
                     "charge.refunded", "refund.created", "refund.updated"}
  {
    if eventType == "payment_intent.succeeded" then PaymentIntentSucceeded
    else if eventType == "payment_intent.payment_failed" then PaymentIntentFailed
    else if eventType == "charge.refunded" then ChargeRefunded
    else if eventType == "refund.created" then RefundCreated
    else if eventType == "refund.updated" then RefundUpdated
    else Unhandled
  }

  predicate IsRefundKind(k: EventKind) {
    k == ChargeRefunded || k == RefundCreated || k == RefundUpdated
  }

  /**
   * The fields of `event.data.object` the handler reads: a payment intent's
   * `id`, `amount`, `currency` and `metadata` (absent metadata is `{}`), or
   * a charge's or refund's `payment_intent` / `payment_intent_id`.
   */
  datatype EventObject = EventObject(
    id: string,
    amount: Option<int>,
    currency: string,
    metadata: Object,
    paymentIntent: Option<string>,
    paymentIntentIdField: Option<string>)

  datatype Event = Event(eventType: string, data: EventObject)

  /** `obj.payment_intent || obj.payment_intent_id`, kept only when truthy. */
  function RefundTarget(obj: EventObject): (r: Option<string>)
    ensures r.Some? <==> Truthy(obj.paymentIntent) || Truthy(obj.paymentIntentIdField)
    ensures Truthy(obj.paymentIntent) ==> r == obj.paymentIntent
    ensures !Truthy(obj.paymentIntent) && Truthy(obj.paymentIntentIdField) ==> r == obj.paymentIntentIdField
  {
    var id := if Truthy(obj.paymentIntent) then obj.paymentIntent else obj.paymentIntentIdField;
    if Truthy(id) then id else None
  }

  /**
   * `INSERT .. VALUES (pi.id, pi.id, ..) ON CONFLICT (payment_intent_id)
   * DO UPDATE SET status = EXCLUDED.status, updated_at = NOW()`. Every error
   * is caught by the handler, so a failing statement leaves the table as it was.
   */
  function Upsert(t: Table, pi: EventObject, status: Status): (r: Table)
    ensures |t.rows| <= |r.rows| <= |t.rows| + 1
    ensures forall i :: 0 <= i < |t.rows| ==>
      r.rows[i].(status := t.rows[i].status, updatedAt := t.rows[i].updatedAt) == t.rows[i]
    ensures |r.rows| == |t.rows| + 1 ==>
      r.rows[|t.rows|].txnId == pi.id && r.rows[|t.rows|].paymentIntentId == pi.id && r.rows[|t.rows|].status == status
  {
    if pi.amount.None? then
      t  // `pi.amount.toString()` throws before the statement runs
    else if FindBy(t.rows, PaymentIntentColumn, pi.id).Some? then
      Update(t, pi.id, SetStatus(status))
    else if FindBy(t.rows, TxnIdColumn, pi.id).Some? then
      t  // the insert violates the unique `txn_id`
    else
      Insert(t, pi.id, pi.id, pi.amount.value, pi.currency, status, pi.metadata)
  }

  /** One arm of the switch applied to the table. */
  function ApplyEvent(t: Table, e: Event): (r: Table)
    ensures |t.rows| <= |r.rows| <= |t.rows| + 1
    ensures forall i :: 0 <= i < |t.rows| ==>
      r.rows[i].(status := t.rows[i].status, updatedAt := t.rows[i].updatedAt) == t.rows[i]
    ensures |r.rows| == |t.rows| + 1 ==>
      (Classify(e.eventType) == PaymentIntentSucceeded || Classify(e.eventType) == PaymentIntentFailed)
  {
    match Classify(e.eventType)
    case PaymentIntentSucceeded => Upsert(t, e.data, Succeeded)
    case PaymentIntentFailed => Upsert(t, e.data, Failed)
    case ChargeRefunded | RefundCreated | RefundUpdated =>
      var target := RefundTarget(e.data);
      if target.None? then t else Update(t, target.value, SetStatus(Refunded))
    case Unhandled => t
  }

  /** The whole handler: 400 on a bad signature, otherwise apply and always acknowledge. */
  function HandleWebhook(t: Table, signatureValid: bool, e: Event): (r: Step)
    ensures r.reply == if signatureValid then Received else BadRequest
    ensures signatureValid ==> r.table == ApplyEvent(t, e)
    ensures !signatureValid ==> r.table == t
  {
    if !signatureValid then Step(t, BadRequest)
    else Step(ApplyEvent(t, e), Received)
  }

  /** The status an upserting event writes. */
  function UpsertStatus(k: EventKind): Status
    requires k == PaymentIntentSucceeded || k == PaymentIntentFailed
  {
    if k == PaymentIntentSucceeded then Succeeded else Failed
  }

  /** A bad signature is answered with 400 and changes nothing; a good one is always acknowledged. */
  lemma SignatureGate(t: Table, signatureValid: bool, e: Event)
    ensures !signatureValid ==> HandleWebhook(t, signatureValid, e) == Step(t, BadRequest)
    ensures signatureValid ==> HandleWebhook(t, signatureValid, e).reply == Received
    ensures HttpStatus(HandleWebhook(t, signatureValid, e).reply) == if signatureValid then 200 else 400
  {
  }

  /** An event type outside the switch leaves the table as it was. */
  lemma UnhandledIgnored(t: Table, e: Event)
    requires Classify(e.eventType) == Unhandled
    ensures ApplyEvent(t, e) == t
  {
  }

  /**
   * An intent event without an amount throws while the statement's
   * parameters are built; the error is swallowed and the table is unchanged.
   */
  lemma UpsertWithoutAmount(t: Table, e: Event)
    requires Classify(e.eventType) == PaymentIntentSucceeded || Classify(e.eventType) == PaymentIntentFailed
    requires e.data.amount.None?
    ensures ApplyEvent(t, e) == t
  {
  }

  /**
   * A succeeded or failed event for an intent the table does not know, and
   * whose id is no row's `txn_id`, adds one row with `txn_id` and
   * `payment_intent_id` both the intent id, the event's amount, currency and
   * metadata, and the event's status.
   */
  lemma UpsertInsertsUnknownIntent(t: Table, e: Event)
    requires Classify(e.eventType) == PaymentIntentSucceeded || Classify(e.eventType) == PaymentIntentFailed
    requires e.data.amount.Some?
    requires forall i :: 0 <= i < |t.rows| ==> t.rows[i].paymentIntentId != e.data.id && t.rows[i].txnId != e.data.id
    ensures ApplyEvent(t, e).rows == t.rows +
      [Transaction(e.data.id, e.data.id, e.data.amount.value, e.data.currency,
                   UpsertStatus(Classify(e.eventType)), e.data.metadata, t.clock, t.clock)]
  {
    assert FindBy(t.rows, PaymentIntentColumn, e.data.id).None?;
    assert FindBy(t.rows, TxnIdColumn, e.data.id).None?;
  }

  /**
   * A succeeded or failed event for a known intent changes only that row's
   * `status` and `updated_at`: metadata (no failure reason is added),
   * amount, currency and `txn_id` are untouched, and so is every other row.
   * Nothing about the previous status is required: a `refunded` row
   * becomes `succeeded` again (last write wins).
   */
  lemma UpsertUpdatesKnownIntent(t: Table, e: Event, i: nat)
    requires Valid(t) && i < |t.rows|
    requires Classify(e.eventType) == PaymentIntentSucceeded || Classify(e.eventType) == PaymentIntentFailed
    requires e.data.amount.Some? && t.rows[i].paymentIntentId == e.data.id
    ensures |ApplyEvent(t, e).rows| == |t.rows|
    ensures ApplyEvent(t, e).rows[i] == t.rows[i].(status := UpsertStatus(Classify(e.eventType)), updatedAt := t.clock)
    ensures forall j :: 0 <= j < |t.rows| && j != i ==> ApplyEvent(t, e).rows[j] == t.rows[j]
  {
    FindUnique(t, PaymentIntentColumn, i);
  }

  /** A succeeded event overrides a refunded row: no transition is refused because of the earlier status. */
  lemma SucceededAfterRefunded(t: Table, e: Event, i: nat)
    requires Valid(t) && i < |t.rows| && t.rows[i].status == Refunded
    requires Classify(e.eventType) == PaymentIntentSucceeded
    requires e.data.amount.Some? && t.rows[i].paymentIntentId == e.data.id
    ensures ApplyEvent(t, e).rows[i].status == Succeeded
  {
    UpsertUpdatesKnownIntent(t, e, i);
  }

  /**
   * An upsert whose intent id is already some other row's `txn_id` fails on
   * that unique key; the error is swallowed and the table is unchanged.
   */
  lemma UpsertTxnIdConflict(t: Table, e: Event, i: nat)
    requires i < |t.rows|
    requires Classify(e.eventType) == PaymentIntentSucceeded || Classify(e.eventType) == PaymentIntentFailed
    requires forall j :: 0 <= j < |t.rows| ==> t.rows[j].paymentIntentId != e.data.id
    requires t.rows[i].txnId == e.data.id
    ensures ApplyEvent(t, e) == t
  {
    assert Key(t.rows[i], TxnIdColumn) == e.data.id;
  }

  /**
   * A refund event sets `refunded` on the row whose `payment_intent_id` is
   * the event object's `payment_intent`, or else its `payment_intent_id`;
   * it touches neither metadata nor any other field, nor any other row.
   */
  lemma RefundEventMarksTarget(t: Table, e: Event, i: nat)
    requires IsRefundKind(Classify(e.eventType)) && RefundTarget(e.data).Some? && i < |t.rows|
    ensures |ApplyEvent(t, e).rows| == |t.rows|
    ensures ApplyEvent(t, e).rows[i] ==
      if t.rows[i].paymentIntentId == RefundTarget(e.data).value
      then t.rows[i].(status := Refunded, updatedAt := t.clock)
      else t.rows[i]
  {
  }

  /** A refund event naming no intent, or an intent no row has, leaves every row as it was. */
  lemma RefundEventWithoutMatch(t: Table, e: Event)
    requires IsRefundKind(Classify(e.eventType))
    requires RefundTarget(e.data).Some? ==>
      forall i :: 0 <= i < |t.rows| ==> t.rows[i].paymentIntentId != RefundTarget(e.data).value
    ensures ApplyEvent(t, e).rows == t.rows
  {
    if RefundTarget(e.data).Some? {
      UpdateWithoutMatch(t.rows, RefundTarget(e.data).value, SetStatus(Refunded), t.clock);
    }
  }

  /** An upsert run twice leaves the rows as running it once, up to `updated_at`. */
  lemma UpsertIdempotent(t: Table, pi: EventObject, status: Status)
    ensures SameContent(Upsert(Upsert(t, pi, status), pi, status).rows, Upsert(t, pi, status).rows)
  {
    if pi.amount.None? {
    } else if FindBy(t.rows, PaymentIntentColumn, pi.id).Some? {
      KnownRowIsUpdatedAgain(t, pi, status);
    } else if FindBy(t.rows, TxnIdColumn, pi.id).Some? {
    } else {
      InsertedRowIsUpdatedInPlace(t, pi, status);
    }
  }

  /** An upsert that took the conflict path takes it again, and only restamps. */
  lemma KnownRowIsUpdatedAgain(t: Table, pi: EventObject, status: Status)
    requires pi.amount.Some? && FindBy(t.rows, PaymentIntentColumn, pi.id).Some?
    ensures SameContent(Upsert(Upsert(t, pi, status), pi, status).rows, Upsert(t, pi, status).rows)
  {
    var c := SetStatus(status);
    var once := Update(t, pi.id, c);
    assert Upsert(t, pi, status) == once;
    UpdateKeepsKeys(t.rows, pi.id, c, t.clock, PaymentIntentColumn, pi.id);
    assert Upsert(once, pi, status) == Update(once, pi.id, c);
    UpdateTwice(t.rows, pi.id, c, t.clock, t.clock + 1);
  }

  /** After an upsert inserted its row, running it again only restamps that row. */
  lemma InsertedRowIsUpdatedInPlace(t: Table, pi: EventObject, status: Status)
    requires pi.amount.Some?
    requires FindBy(t.rows, PaymentIntentColumn, pi.id).None? && FindBy(t.rows, TxnIdColumn, pi.id).None?
    ensures SameContent(Upsert(Upsert(t, pi, status), pi, status).rows, Upsert(t, pi, status).rows)
  {
    var once := Insert(t, pi.id, pi.id, pi.amount.value, pi.currency, status, pi.metadata);
    var n := |t.rows|;
    assert Key(once.rows[n], PaymentIntentColumn) == pi.id;
    var twice := UpdateWhere(once.rows, pi.id, SetStatus(status), once.clock);
    assert Upsert(once, pi, status).rows == twice;
    forall j | 0 <= j < |once.rows|
      ensures Unstamped(twice[j]) == Unstamped(once.rows[j])
    {
      if j < n {
        assert once.rows[j] == t.rows[j];
        assert Key(t.rows[j], PaymentIntentColumn) != pi.id;
      }
    }
  }

  /** Redelivering an event leaves the rows as delivering it once, up to `updated_at`. */
  lemma ApplyEventIdempotent(t: Table, e: Event)
    ensures SameContent(ApplyEvent(ApplyEvent(t, e), e).rows, ApplyEvent(t, e).rows)
  {
    var k := Classify(e.eventType);
    if k == PaymentIntentSucceeded || k == PaymentIntentFailed {
      UpsertIdempotent(t, e.data, UpsertStatus(k));
    } else if IsRefundKind(k) && RefundTarget(e.data).Some? {
      UpdateTwice(t.rows, RefundTarget(e.data).value, SetStatus(Refunded), t.clock, t.clock + 1);
    }
  }

  /** Every event keeps the table valid. */
  lemma ApplyEventPreservesValid(t: Table, e: Event)
    requires Valid(t)
    ensures Valid(ApplyEvent(t, e))
  {
    var k := Classify(e.eventType);
    if k == PaymentIntentSucceeded || k == PaymentIntentFailed {
      var pi := e.data;
      if pi.amount.Some? {
        if FindBy(t.rows, PaymentIntentColumn, pi.id).Some? {
          UpdatePreservesValid(t, pi.id, SetStatus(UpsertStatus(k)));
        } else if FindBy(t.rows, TxnIdColumn, pi.id).None? {
          InsertPreservesValid(t, pi.id, pi.id, pi.amount.value, pi.currency, UpsertStatus(k), pi.metadata);
        }
      }
    } else if IsRefundKind(k) && RefundTarget(e.data).Some? {
      UpdatePreservesValid(t, RefundTarget(e.data).value, SetStatus(Refunded));
    }
  }

  /**
   * The provider's refund event that confirms an admin refund already
   * applied locally changes nothing but `updated_at`: the `refund_id` the
   * admin route merged stays in the metadata.
   */
  lemma RefundEventAfterAdminRefund(t: Table, paymentIntentId: string, refundId: string, e: Event)
    requires paymentIntentId != ""
    requires IsRefundKind(Classify(e.eventType)) && RefundTarget(e.data) == Some(paymentIntentId)
    ensures var refunded := PaymentRoute.Refund(t, true, Some(paymentIntentId), Some(refundId)).table;
      SameContent(ApplyEvent(refunded, e).rows, refunded.rows)
  {
    var refunded := PaymentRoute.Refund(t, true, Some(paymentIntentId), Some(refundId)).table;
    var after := ApplyEvent(refunded, e);
    forall j | 0 <= j < |refunded.rows|
      ensures Unstamped(after.rows[j]) == Unstamped(refunded.rows[j])
    {
      RefundEventMarksTarget(refunded, e, j);
    }
  }
}
