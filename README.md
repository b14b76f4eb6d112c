# Payment transaction reconciliation, modelled in Dafny

This project models the server side of a card-payment gateway built on Stripe.
The model centres on the `transactions` table and the handlers that read and write it:

- `POST /create-payment-intent` validates the amount, defaults the currency to `usd` and inserts a row in status `created`.
- `GET /status/:id` looks a row up by `txn_id` when the id has the UUID form, otherwise by `payment_intent_id`.
- `GET /all` lists the 50 newest rows, newest first.
- `POST /refund` marks a row `refunded` and merges `{refund_id}` into its jsonb metadata.
- `POST /verify-status` maps the provider's status to a local one and merges `{stripe_status}`.
- `GET /receipt/:id` finds a row by either identifier.
- The webhook dispatches on `event.type`. `payment_intent.succeeded` and `payment_intent.payment_failed` upsert on `payment_intent_id`. `charge.refunded`, `refund.created` and `refund.updated` update by `payment_intent`, falling back to `payment_intent_id`. Every other type is ignored, and a correctly signed event is always acknowledged.

Layout:

- `wrappers.dfy`: `Option`, and JavaScript truthiness of an optional string.
- `jsonb.dfy`: PostgreSQL's jsonb `||` on objects (`Jsonb.Concat`).
- `uuid.dfy`: the route's UUID regular expression, as a sequence of character classes matched one character at a time.
- `transactions.dfy`: rows, the table invariant `Valid`, and the SQL statements (`FindBy`, `FindEither`, `UpdateWhere`, `Insert`, `Recent`).
- `replies.dfy`: the HTTP replies.
- `payment_route.dfy`: each writing route as a pure function from the table before to the table after plus the reply, with its properties.
- `webhook.dfy`: the event dispatch as a pure function, with its properties.
- `scenario.dfy`: one transaction's full life, from creation to re-synchronisation.
- `store.dfy`: the class `Store`. Its fields `rows` and `clock` are the shared table. Each route is a method. A writing method's contract equates its new state and reply with the pure function, and keeps `Valid`.

The table is a sequence of rows in insertion order plus a logical clock that stands for `NOW()`.
Every statement that writes stamps the rows it touches with the clock and advances it.
`Valid` is what the database guarantees:

- `txn_id` is unique, and so is `payment_intent_id`.
- Rows appear in `created_at` order.
- `created_at <= updated_at < clock` for every row.

The table's schema is not part of this model. The model assumes that `txn_id` is a text column with a unique index (the webhook stores the provider's intent id there), that `payment_intent_id` is unique and is the ON CONFLICT arbiter, and that `created_at` and `updated_at` default to `NOW()` (the INSERTs do not set them).

Every writing operation is proved to keep `Valid`.
Claims that compare two tables "up to `updated_at`" use `SameContent`, which erases that stamp.

Calls to the payment provider are parameters, and `None` stands for a call that threw.
The generated `txn_id` is a parameter too, and so are the admin check (`isAdmin`) and the webhook signature check (`signatureValid`).

The model follows the code, including where a reader might expect otherwise:

- Failed payment events do not merge a `failure_reason`.
- No transition is refused because of the earlier status. A `succeeded` event turns a `refunded` row back into `succeeded` (`Webhook.SucceededAfterRefunded`).
- The status lookup picks its column from the id's format alone, with no fallback. An id of UUID form is never looked up by `payment_intent_id`.
- The jsonb merge commutes when the deltas agree on every shared key (`Jsonb.ConcatCommutesWhenCompatible`). On a shared key with different values the later value wins (`Jsonb.ConcatLastWriteWins`).

## Model

| member | source | states |
|---|---|---|
| `Jsonb.Concat` | server/src/paymentRoute.js:125 | the merged object has the keys of both operands; keys of the delta take the delta's value, every other key keeps its old value |
| `Jsonb.ConcatIdempotent` | server/src/paymentRoute.js:154 | merging the same delta twice gives the same object as merging it once |
| `Jsonb.ConcatCommutesOnDisjointKeys` | server/src/paymentRoute.js:123-128 | deltas with disjoint keys (such as `refund_id` and `stripe_status`) can be merged in either order |
| `Jsonb.ConcatCommutesWhenCompatible` | server/src/paymentRoute.js:152-157 | deltas that give every shared key the same value can be merged in either order |
| `Jsonb.ConcatLastWriteWins` | server/src/paymentRoute.js:152-157 | two merges of the same key keep the later value |
| `Uuid.MatchesAt` | server/src/paymentRoute.js:80-81 | an anchored match of a class sequence consumes exactly one character per class, each in its class |
| `Uuid.PatternAt` | server/src/paymentRoute.js:80-81 | the expression has 36 positions: hyphens at 8, 13, 18 and 23, the version class at 14, the variant class at 19, hex digits elsewhere |
| `Uuid.UuidLayout` | server/src/paymentRoute.js:80-83 | an id passes the test if and only if it is 36 characters of the RFC 4122 text form: hyphens in place, version digit 1-5, variant digit 8/9/a/b, hex digits in either case elsewhere |
| `Uuid.UnderscoreIsNotUuid` | server/src/paymentRoute.js:80-86 | an id containing `_` (every provider object id) never passes the test, so it is looked up by `payment_intent_id` |
| `Uuid.VersionFourIsUuid` | server/src/paymentRoute.js:41 | a lower-case version-4 id, as minted for `txn_id`, passes the test |
| `Transactions.FindBy` | server/src/paymentRoute.js:84-86 | the lookup finds nothing exactly when no row has the id in the column; what it finds is a row of the table with that id |
| `Transactions.FindEither` | server/src/paymentRoute.js:171-178 | nothing is found exactly when no row has the id as `payment_intent_id` or `txn_id`; what is found is a table row with the id in one of them |
| `Transactions.FindUnique` | server/src/paymentRoute.js:84-93 | on a valid table the lookup of a row's key returns that very row |
| `Transactions.UpdateWhere` | server/src/paymentRoute.js:123-128 | the UPDATE keeps the row count; each row whose `payment_intent_id` matches gets the SET list, every other row is unchanged |
| `Transactions.Update` | server/src/paymentRoute.js:123-128 | an UPDATE statement keeps the row count and every row's `txn_id`, `payment_intent_id` and `created_at`, and advances the clock; `UpdateWhere` states the row-by-row effect |
| `Transactions.Insert` | server/src/paymentRoute.js:49-61 | an INSERT appends one row stamped with the clock (`created_at = updated_at`), keeps every existing row and advances the clock |
| `Transactions.UpdateWithoutMatch` | server/src/webhook.js:81-86 | an UPDATE that matches no row leaves every row as it was |
| `Transactions.UpdateKeepsKeys` | server/src/paymentRoute.js:152-157 | an UPDATE never changes which keys the table holds |
| `Transactions.UpdateTwice` | server/src/paymentRoute.js:152-157 | the same UPDATE run twice leaves the rows as running it once, up to `updated_at` |
| `Transactions.UpdatePreservesValid` | server/src/paymentRoute.js:123-128 | an UPDATE keeps keys unique, creation order and timestamps consistent |
| `Transactions.InsertPreservesValid` | server/src/paymentRoute.js:49-61 | inserting a row with new `txn_id` and `payment_intent_id` keeps the table valid |
| `Transactions.Newest` | server/src/paymentRoute.js:103-105 | the result has min(n, rows) rows; its i-th row is the i-th newest row |
| `Transactions.Recent` | server/src/paymentRoute.js:103-105 | the listing has at most 50 rows, all from the table; `RecentFromTable`, `RecentOrdered` and `RecentNewest` state the rest |
| `Transactions.RecentFromTable` | server/src/paymentRoute.js:103-105 | the listing holds at most 50 rows, all the rows when there are fewer, every one from the table, none twice |
| `Transactions.RecentOrdered` | server/src/paymentRoute.js:104 | the listing is in strictly decreasing `created_at` order |
| `Transactions.RecentNewest` | server/src/paymentRoute.js:104 | every row left out of the listing is older than every listed row |
| `PaymentRoute.CreatePaymentIntent` | server/src/paymentRoute.js:34-72 | 400 exactly when the amount is falsy; the replies are created, 400 or 500; every error leaves the table unchanged; success appends one row and keeps the rest (`CreateRejectsFalsyAmount`, `CreateFailureLeavesTable`, `CreateAddsOneRow` give the details) |
| `PaymentRoute.CreateRejectsFalsyAmount` | server/src/paymentRoute.js:36-39 | an absent or zero amount is answered with 400 and the table is unchanged |
| `PaymentRoute.CreateFailureLeavesTable` | server/src/paymentRoute.js:41-70 | a failed provider call, or a `txn_id` or intent id already in the table, gives 500 and no change |
| `PaymentRoute.CreateAddsOneRow` | server/src/paymentRoute.js:36-66 | success appends exactly one row (fresh `txn_id`, provider's intent id, amount, currency defaulting to `usd`, status `created`, provider metadata) and keeps every existing row |
| `PaymentRoute.CreatePreservesValid` | server/src/paymentRoute.js:49-61 | creation keeps the table valid |
| `PaymentRoute.LookupColumn` | server/src/paymentRoute.js:83-87 | the lookup column is `txn_id` exactly when the id has the UUID form |
| `PaymentRoute.DualKeyLookup` | server/src/paymentRoute.js:80-93 | a row with a UUID `txn_id` and a non-UUID intent id is found, and only it, under either identifier |
| `PaymentRoute.CreatedRowFoundByBothIds` | server/src/paymentRoute.js:41-93 | right after a create, `/status` finds the new row under its `txn_id` and under its intent id |
| `PaymentRoute.Refund` | server/src/paymentRoute.js:114-135 | the refund is issued exactly for an admin with a truthy intent id whose provider call succeeded, and the reply then carries the provider's refund id; otherwise the table is unchanged; the row count never changes (`RefundRejected`, `RefundChangesOnlyItsRow` give the details) |
| `PaymentRoute.RefundRejected` | server/src/paymentRoute.js:114-133 | a refund by a non-admin (403), without a truthy `payment_intent_id` (400) or whose provider call throws (500) changes nothing |
| `PaymentRoute.RefundChangesOnlyItsRow` | server/src/paymentRoute.js:121-130 | the reply carries the refund id (200); only the intent's row changes: status `refunded`, `refund_id` added or overwritten, all other metadata keys and fields kept |
| `PaymentRoute.RefundPreservesValid` | server/src/paymentRoute.js:123-128 | a refund keeps the table valid |
| `PaymentRoute.ProviderStatus` | server/src/paymentRoute.js:148-150 | `succeeded` maps to succeeded; `canceled` or `requires_payment_method` map to failed; anything else maps to created; never refunded |
| `PaymentRoute.VerifyStatus` | server/src/paymentRoute.js:138-164 | the status is synced exactly for an admin with a truthy intent id whose provider call succeeded, and the reply then carries the mapped status and the provider's raw status, never refunded; otherwise the table is unchanged (`VerifyRejected`, `VerifyOverwrites`, `VerifyIdempotent`, `VerifyFixedPoint` give the details) |
| `PaymentRoute.VerifyRejected` | server/src/paymentRoute.js:138-162 | a verify by a non-admin (403), without a truthy `payment_intent_id` (400) or whose provider call throws (500) changes nothing |
| `PaymentRoute.VerifyOverwrites` | server/src/paymentRoute.js:146-159 | verify overwrites the row's status with the mapped status whatever it was, sets `stripe_status` to the raw string, keeps everything else, and replies with both |
| `PaymentRoute.VerifyIdempotent` | server/src/paymentRoute.js:148-157 | verifying twice against the same provider status gives the reply and rows of verifying once, up to `updated_at` |
| `PaymentRoute.VerifyFixedPoint` | server/src/paymentRoute.js:148-157 | once the row already agrees with the provider, verifying changes nothing but `updated_at` |
| `PaymentRoute.VerifyPreservesValid` | server/src/paymentRoute.js:152-157 | verify keeps the table valid |
| `Webhook.Classify` | server/src/webhook.js:26-93 | each of the five event-type strings selects its own arm, and every other type falls to the default |
| `Webhook.RefundTarget` | server/src/webhook.js:76-80 | the target is `payment_intent` when truthy, else `payment_intent_id` when truthy, else none |
| `Webhook.Upsert` | server/src/webhook.js:32-45 | the upsert adds at most one row, whose two ids are the intent id and whose status is the event's; existing rows change only in `status` and `updated_at` (`UpsertInsertsUnknownIntent`, `UpsertUpdatesKnownIntent`, `UpsertTxnIdConflict`, `UpsertWithoutAmount` give the details) |
| `Webhook.ApplyEvent` | server/src/webhook.js:26-94 | any event adds at most one row, and only a succeeded or failed event does; existing rows change only in `status` and `updated_at` (the per-arm lemmas below give the details) |
| `Webhook.HandleWebhook` | server/src/webhook.js:7-101 | the reply is `{received: true}` exactly when the signature is valid, and the table is then the event applied by `ApplyEvent`; else 400 with the table unchanged |
| `Webhook.SignatureGate` | server/src/webhook.js:14-100 | a bad signature gives 400 and no change; a good one is always acknowledged with `{received: true}` |
| `Webhook.UnhandledIgnored` | server/src/webhook.js:92-93 | an unrecognised event type leaves the table unchanged |
| `Webhook.UpsertWithoutAmount` | server/src/webhook.js:40-97 | an intent event without an amount throws before the statement, is swallowed, and changes nothing |
| `Webhook.UpsertInsertsUnknownIntent` | server/src/webhook.js:32-45 | an event for an unknown intent appends one row with `txn_id = payment_intent_id = pi.id`, the event's amount, currency and metadata, and the event's status |
| `Webhook.UpsertUpdatesKnownIntent` | server/src/webhook.js:35-36 | an event for a known intent changes only that row's `status` and `updated_at`; metadata (no failure reason), amount, currency, `txn_id` and other rows are untouched |
| `Webhook.SucceededAfterRefunded` | server/src/webhook.js:32-45 | a `succeeded` event turns a `refunded` row back to `succeeded`: last write wins |
| `Webhook.UpsertTxnIdConflict` | server/src/webhook.js:32-45 | an upsert whose intent id is another row's `txn_id` fails on that unique key and leaves the table unchanged |
| `Webhook.RefundEventMarksTarget` | server/src/webhook.js:72-87 | a refund event sets `refunded` on the target row, changes nothing else of it, and leaves every other row as it was |
| `Webhook.RefundEventWithoutMatch` | server/src/webhook.js:76-87 | a refund event with no truthy target, or whose target no row has, leaves every row unchanged |
| `Webhook.UpsertIdempotent` | server/src/webhook.js:32-45 | the upsert run twice leaves the rows as running it once, up to `updated_at` |
| `Webhook.KnownRowIsUpdatedAgain` | server/src/webhook.js:35-36 | an upsert that took the conflict path takes it again on a second run and only restamps |
| `Webhook.InsertedRowIsUpdatedInPlace` | server/src/webhook.js:33-36 | after the upsert inserted its row, a second run only restamps that row |
| `Webhook.ApplyEventIdempotent` | server/src/webhook.js:26-94 | redelivering any event leaves the rows as delivering it once, up to `updated_at` |
| `Webhook.ApplyEventPreservesValid` | server/src/webhook.js:26-94 | every event keeps the table valid |
| `Webhook.RefundEventAfterAdminRefund` | server/src/webhook.js:72-87 | the provider's refund event after an admin refund changes only `updated_at`; the merged `refund_id` stays |
| `Scenario.ReconciliationScenario` | server/src/webhook.js:26-89 | create, two success events, a refund event and a verify against `succeeded` give exactly the rows listed, ending in `succeeded` with `stripe_status` recorded |
| `TransactionStore.Store.UpdateByIntent` | server/src/paymentRoute.js:123-128 | the in-place UPDATE leaves the store in the state `Update` gives, and keeps it valid |
| `TransactionStore.Store.InsertRow` | server/src/paymentRoute.js:49-61 | the in-place INSERT leaves the store in the state `Insert` gives, and keeps it valid |
| `TransactionStore.Store.CreatePaymentIntent` | server/src/paymentRoute.js:34-72 | new state and reply are those of `PaymentRoute.CreatePaymentIntent`; the store stays valid |
| `TransactionStore.Store.LookupStatus` | server/src/paymentRoute.js:75-98 | finds the one row with the id in the column the id's format selects, or answers not-found exactly when there is none |
| `TransactionStore.Store.ListAll` | server/src/paymentRoute.js:101-111 | 403 without admin; otherwise at most 50 rows, all from the table, strictly newest first, none older than a row left out |
| `TransactionStore.Store.Refund` | server/src/paymentRoute.js:114-135 | new state and reply are those of `PaymentRoute.Refund`; the store stays valid |
| `TransactionStore.Store.VerifyStatus` | server/src/paymentRoute.js:138-164 | new state and reply are those of `PaymentRoute.VerifyStatus`; the store stays valid |
| `TransactionStore.Store.Receipt` | server/src/paymentRoute.js:167-180 | 403 without admin; otherwise a table row whose `payment_intent_id` or `txn_id` is the id, or not-found exactly when there is none |
| `TransactionStore.Store.UpsertIntent` | server/src/webhook.js:32-45 | the in-place upsert leaves the store in the state `Webhook.Upsert` gives |
| `TransactionStore.Store.HandleWebhook` | server/src/webhook.js:7-101 | new state and reply are those of `Webhook.HandleWebhook`; the store stays valid |

## Left out

- The admin check is the boolean `isAdmin`. The bcrypt comparison of the bearer token and its 500 answer when the comparison throws are not modelled.
- Calls to the payment provider (intent creation, refund creation, intent retrieval, event construction) are parameters, because they are external. The `client_secret` of the create reply is not modelled.
- Receipt rendering (PDF layout, amount formatting with `toFixed(2)`, dates with `toLocaleString()`) is document output with floating point. The model stops at the row the receipt is rendered from.
- Database failures other than a unique-key violation (a lost connection, a query error) are not modelled. Neither are their effects: the 500 replies on `/create-payment-intent`, `/status`, `/all`, `/refund`, `/verify-status` and `/receipt`, and the webhook's swallowed failure that is still acknowledged.
- `NOW()` is a logical clock that every writing statement advances, so no two statements share a timestamp. A real clock may repeat, and then `ORDER BY created_at` leaves the order among equal stamps unspecified.
- SQL transactions, concurrency and interleaving of requests are not modelled: each request is one atomic step.
- Request amounts are optional integers. JSON strings, `null`, `false` or fractional amounts are not modelled. Only the absent amount and 0 stand for the falsy ones.
- Metadata values are strings. The handlers only ever merge string values, but the provider's metadata could in principle hold other JSON values.
- `charge.refunded` objects whose `payment_intent` is an expanded object rather than an id are not modelled.
- Express routing, middleware, logging, error-message strings and server start-up (server/src/index.js) are I/O wiring.
- `Transactions.FindEither`: when one row matches by `payment_intent_id` and another by `txn_id`, the SQL result order is unspecified. The model returns the earlier inserted row, and its contract promises only some matching row.
