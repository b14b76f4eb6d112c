/**
 * One transaction's life, end to end: created, confirmed twice by the
 * provider, refunded by the provider, then re-synchronised against a
 * provider that still reports `succeeded`, which forces the status back.
 */
module Scenario {
  import opened Wrappers
  import opened Transactions
  import opened Replies
  import opened PaymentRoute
  import opened Webhook

  /** An event of one of the upserting kinds, applied to a table holding only its intent's row. */
  lemma UpsertOnSingleRow(row: Transaction, clock: nat, e: Event)
    requires Valid(Table([row], clock))
    requires Classify(e.eventType) == PaymentIntentSucceeded || Classify(e.eventType) == PaymentIntentFailed
    requires e.data.amount.Some? && row.paymentIntentId == e.data.id
    ensures ApplyEvent(Table([row], clock), e) ==
      Table([row.(status := UpsertStatus(Classify(e.eventType)), updatedAt := clock)], clock + 1)
  {
    UpsertUpdatesKnownIntent(Table([row], clock), e, 0);
  }

  /** A refund event applied to a table holding only its target's row. */
  lemma RefundOnSingleRow(row: Transaction, clock: nat, e: Event)
    requires IsRefundKind(Classify(e.eventType)) && RefundTarget(e.data) == Some(row.paymentIntentId)
    ensures ApplyEvent(Table([row], clock), e) == Table([row.(status := Refunded, updatedAt := clock)], clock + 1)
  {
    RefundEventMarksTarget(Table([row], clock), e, 0);
  }

  lemma ReconciliationScenario(txnId: string)
    ensures
      var meta := map["txn_id" := txnId];
      var created := CreatePaymentIntent(Table([], 0), Some(1000), None, txnId, Some(CreatedIntent("pi_1", meta)));
      var succeeded := Event("payment_intent.succeeded", EventObject("pi_1", Some(1000), "usd", meta, None, None));
      var refunded := Event("charge.refunded", EventObject("ch_1", Some(1000), "usd", map[], Some("pi_1"), None));
      var t1 := ApplyEvent(created.table, succeeded);
      var t2 := ApplyEvent(t1, succeeded);
      var t3 := ApplyEvent(t2, refunded);
      var synced := VerifyStatus(t3, true, Some("pi_1"), Some("succeeded"));
      created.reply == PaymentIntentCreated(txnId, "pi_1") &&
      created.table.rows == [Transaction(txnId, "pi_1", 1000, "usd", Created, meta, 0, 0)] &&
      t1.rows == [Transaction(txnId, "pi_1", 1000, "usd", Succeeded, meta, 0, 1)] &&
      t2.rows == [Transaction(txnId, "pi_1", 1000, "usd", Succeeded, meta, 0, 2)] &&
      t3.rows == [Transaction(txnId, "pi_1", 1000, "usd", Refunded, meta, 0, 3)] &&
      synced.reply == StatusSynced(Succeeded, "succeeded") &&
      synced.table.rows ==
        [Transaction(txnId, "pi_1", 1000, "usd", Succeeded, meta["stripe_status" := "succeeded"], 0, 4)]
  {
    var meta := map["txn_id" := txnId];
    var row := Transaction(txnId, "pi_1", 1000, "usd", Created, meta, 0, 0);
    var t0 := Table([], 0);
    var created := CreatePaymentIntent(t0, Some(1000), None, txnId, Some(CreatedIntent("pi_1", meta)));
    CreatePreservesValid(t0, Some(1000), None, txnId, Some(CreatedIntent("pi_1", meta)));
    assert created.table == Table([row], 1);

    var succeeded := Event("payment_intent.succeeded", EventObject("pi_1", Some(1000), "usd", meta, None, None));
    assert Classify(succeeded.eventType) == PaymentIntentSucceeded;
    UpsertOnSingleRow(row, 1, succeeded);
    var t1 := ApplyEvent(created.table, succeeded);
    assert t1 == Table([row.(status := Succeeded, updatedAt := 1)], 2);
    ApplyEventPreservesValid(created.table, succeeded);

    UpsertOnSingleRow(row.(status := Succeeded, updatedAt := 1), 2, succeeded);
    var t2 := ApplyEvent(t1, succeeded);
    assert t2 == Table([row.(status := Succeeded, updatedAt := 2)], 3);

    var refunded := Event("charge.refunded", EventObject("ch_1", Some(1000), "usd", map[], Some("pi_1"), None));
    assert Classify(refunded.eventType) == ChargeRefunded;
    RefundOnSingleRow(row.(status := Succeeded, updatedAt := 2), 3, refunded);
    var t3 := ApplyEvent(t2, refunded);
    assert t3 == Table([row.(status := Refunded, updatedAt := 3)], 4);

    VerifyOverwrites(t3, "pi_1", "succeeded", 0);
  }
}
