/**
 * The shared `transactions` table as an object: the routes and the webhook
 * handler are its methods. Each method that writes is specified by the
 * function of the same name in `PaymentRoute` or `Webhook`; each method
 * that reads states what it finds directly.
 */
module TransactionStore {
  import opened Wrappers
  import opened Jsonb
  import opened Uuid
  import opened Transactions
  import opened Replies
  import opened PaymentRoute
  import opened Webhook

  class Store {
    var rows: seq<Transaction>
    var clock: nat

    function State(): Table
      reads this
    {
      Table(rows, clock)
    }

    ghost predicate Valid()
      reads this
    {
      Transactions.Valid(State())
    }

    constructor ()
      ensures Valid() && rows == [] && clock == 0
    {
      rows := [];
      clock := 0;
    }

    /** `UPDATE transactions SET .. WHERE payment_intent_id = id`. */
    method UpdateByIntent(id: string, c: Change)
      requires Valid()
      modifies this
      ensures Valid()
      ensures State() == Update(old(State()), id, c)
    {
      UpdatePreservesValid(State(), id, c);
      rows := UpdateWhere(rows, id, c, clock);
      clock := clock + 1;
    }

    /** `INSERT INTO transactions ..` of a row whose keys are new. */
    method InsertRow(txnId: string, paymentIntentId: string, amount: int, currency: string,
                     status: Status, metadata: Object)
      requires Valid()
      requires FindBy(rows, TxnIdColumn, txnId).None? && FindBy(rows, PaymentIntentColumn, paymentIntentId).None?
      modifies this
      ensures Valid()
      ensures State() == Insert(old(State()), txnId, paymentIntentId, amount, currency, status, metadata)
    {
      InsertPreservesValid(State(), txnId, paymentIntentId, amount, currency, status, metadata);
      rows := rows + [Transaction(txnId, paymentIntentId, amount, currency, status, metadata, clock, clock)];
      clock := clock + 1;
    }

    /** `POST /create-payment-intent`. */
    method CreatePaymentIntent(amount: Option<int>, currency: Option<string>, txnId: string,
                               intent: Option<CreatedIntent>) returns (reply: Reply)
      requires Valid()
      modifies this
      ensures Valid()
      ensures Step(State(), reply) == PaymentRoute.CreatePaymentIntent(old(State()), amount, currency, txnId, intent)
    {
      if !AmountGiven(amount) {
        return BadRequest;
      }
      var cur := CurrencyOrDefault(currency);
      if intent.None? {
        return ServerError;
      }
      var pi := intent.value;
      if FindBy(rows, TxnIdColumn, txnId).Some? || FindBy(rows, PaymentIntentColumn, pi.id).Some? {
        return ServerError;
      }
      InsertRow(txnId, pi.id, amount.value, cur, Created, pi.metadata);
      reply := PaymentIntentCreated(txnId, pi.id);
    }

    /**
     * `GET /status/:id`: by `txn_id` when the id has the UUID form, by
     * `payment_intent_id` otherwise; not found when no row has it there.
     */
    method LookupStatus(id: string) returns (reply: Reply)
      requires Valid()
      ensures reply.Found? || reply.NotFound?
      ensures reply.NotFound? <==>
        forall i :: 0 <= i < |rows| ==> (if IsUuid(id) then rows[i].txnId else rows[i].paymentIntentId) != id
      ensures reply.Found? ==>
        forall i :: 0 <= i < |rows| ==>
          ((if IsUuid(id) then rows[i].txnId else rows[i].paymentIntentId) == id <==> rows[i] == reply.row)
    {
      var col := LookupColumn(id);
      var found := FindBy(rows, col, id);
      if found.None? {
        return NotFound;
      }
      reply := Found(found.value);
      var k :| 0 <= k < |rows| && rows[k] == found.value && Key(found.value, col) == id;
      FindUnique(State(), col, k);
      forall i | 0 <= i < |rows| && Key(rows[i], col) == id
        ensures rows[i] == reply.row
      {
        FindUnique(State(), col, i);
      }
    }

    /** `GET /all`: the 50 newest rows, newest first, to an admin only. */
    method ListAll(isAdmin: bool) returns (reply: Reply)
      requires Valid()
      ensures !isAdmin ==> reply == Forbidden
      ensures isAdmin ==> reply.Listing?
      ensures reply.Listing? ==>
        (|reply.rows| == |rows| || |reply.rows| == ListLimit) && |reply.rows| <= ListLimit &&
        (forall x :: x in reply.rows ==> x in rows) &&
        (forall i, j :: 0 <= i < j < |reply.rows| ==> reply.rows[i].createdAt > reply.rows[j].createdAt) &&
        (forall k, i :: 0 <= k < |rows| - |reply.rows| && 0 <= i < |reply.rows| ==>
           rows[k].createdAt < reply.rows[i].createdAt)
    {
      if !isAdmin {
        return Forbidden;
      }
      RecentFromTable(State());
      RecentOrdered(State());
      RecentNewest(State());
      reply := Listing(Recent(rows));
    }

    /** `POST /refund`. */
    method Refund(isAdmin: bool, paymentIntentId: Option<string>, refund: Option<string>) returns (reply: Reply)
      requires Valid()
      modifies this
      ensures Valid()
      ensures Step(State(), reply) == PaymentRoute.Refund(old(State()), isAdmin, paymentIntentId, refund)
    {
      if !isAdmin {
        return Forbidden;
      }
      if !Truthy(paymentIntentId) {
        return BadRequest;
      }
      if refund.None? {
        return ServerError;
      }
      UpdateByIntent(paymentIntentId.value, SetStatusAndMerge(Refunded, map["refund_id" := refund.value]));
      reply := RefundIssued(refund.value);
    }

    /** `POST /verify-status`. */
    method VerifyStatus(isAdmin: bool, paymentIntentId: Option<string>, retrieved: Option<string>)
      returns (reply: Reply)
      requires Valid()
      modifies this
      ensures Valid()
      ensures Step(State(), reply) == PaymentRoute.VerifyStatus(old(State()), isAdmin, paymentIntentId, retrieved)
    {
      if !isAdmin {
        return Forbidden;
      }
      if !Truthy(paymentIntentId) {
        return BadRequest;
      }
      if retrieved.None? {
        return ServerError;
      }
      var status := ProviderStatus(retrieved.value);
      UpdateByIntent(paymentIntentId.value, SetStatusAndMerge(status, map["stripe_status" := retrieved.value]));
      reply := StatusSynced(status, retrieved.value);
    }

    /** `GET /receipt/:id`: a row whose `payment_intent_id` or `txn_id` is the id, to an admin only. */
    method Receipt(isAdmin: bool, id: string) returns (reply: Reply)
      ensures !isAdmin ==> reply == Forbidden
      ensures isAdmin ==> reply.Found? || reply.NotFound?
      ensures isAdmin ==>
        (reply.NotFound? <==> forall i :: 0 <= i < |rows| ==> rows[i].paymentIntentId != id && rows[i].txnId != id)
      ensures reply.Found? ==> reply.row in rows && (reply.row.paymentIntentId == id || reply.row.txnId == id)
    {
      if !isAdmin {
        return Forbidden;
      }
      var found := FindEither(rows, id);
      if found.None? {
        return NotFound;
      }
      reply := Found(found.value);
    }

    /** The upsert of the succeeded and failed arms. */
    method UpsertIntent(pi: EventObject, status: Status)
      requires Valid()
      modifies this
      ensures Valid()
      ensures State() == Upsert(old(State()), pi, status)
    {
      if pi.amount.None? {
        return;
      }
      if FindBy(rows, PaymentIntentColumn, pi.id).Some? {
        UpdateByIntent(pi.id, SetStatus(status));
      } else if FindBy(rows, TxnIdColumn, pi.id).None? {
        InsertRow(pi.id, pi.id, pi.amount.value, pi.currency, status, pi.metadata);
      }
    }

    /** The webhook endpoint. */
    method HandleWebhook(signatureValid: bool, e: Event) returns (reply: Reply)
      requires Valid()
      modifies this
      ensures Valid()
      ensures Step(State(), reply) == Webhook.HandleWebhook(old(State()), signatureValid, e)
    {
      if !signatureValid {
        return BadRequest;
      }
      match Classify(e.eventType) {
        case PaymentIntentSucceeded =>
          UpsertIntent(e.data, Succeeded);
        case PaymentIntentFailed =>
          UpsertIntent(e.data, Failed);
        case ChargeRefunded | RefundCreated | RefundUpdated =>
          var target := RefundTarget(e.data);
          if target.Some? {
            UpdateByIntent(target.value, SetStatus(Refunded));
          }
        case Unhandled =>
      }
      reply := Received;
    }
  }
}
