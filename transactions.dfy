/**
 * The `transactions` table and the SQL statements the routes run on it.
 * The table is a sequence of rows in insertion order together with a
 * logical clock that stands for `NOW()`: every statement that writes reads
 * the clock and advances it.
 */
module Transactions {
  import opened Wrappers
  import opened Jsonb

  datatype Status = Created | Succeeded | Failed | Refunded

  datatype Transaction = Transaction(
    txnId: string,
    paymentIntentId: string,
    amount: int,
    currency: string,
    status: Status,
    metadata: Object,
    createdAt: nat,
    updatedAt: nat)

  datatype Table = Table(rows: seq<Transaction>, clock: nat)

  /** The two unique columns a row can be looked up by. */
  datatype Column = TxnIdColumn | PaymentIntentColumn

  function Key(row: Transaction, col: Column): string {
    match col
    case TxnIdColumn => row.txnId
    case PaymentIntentColumn => row.paymentIntentId
  }

  /**
   * What the database guarantees of the table: `txn_id` and
   * `payment_intent_id` are unique, rows appear in creation order, and no
   * timestamp lies ahead of the clock.
   */
  ghost predicate Valid(t: Table) {
    (forall i, j :: 0 <= i < j < |t.rows| ==>
       t.rows[i].txnId != t.rows[j].txnId &&
       t.rows[i].paymentIntentId != t.rows[j].paymentIntentId &&
       t.rows[i].createdAt < t.rows[j].createdAt) &&
    (forall i :: 0 <= i < |t.rows| ==> t.rows[i].createdAt <= t.rows[i].updatedAt < t.clock)
  }

  /** `SELECT * FROM transactions WHERE <col> = id`, first row of the result. */
  function FindBy(rows: seq<Transaction>, col: Column, id: string): (r: Option<Transaction>)
    ensures r.None? <==> forall i :: 0 <= i < |rows| ==> Key(rows[i], col) != id
    ensures r.Some? ==> exists i :: 0 <= i < |rows| && rows[i] == r.value && Key(r.value, col) == id
  {
    if rows == [] then None
    else if Key(rows[0], col) == id then Some(rows[0])
    else
      var r := FindBy(rows[1..], col, id);
      assert forall i :: 1 <= i < |rows| ==> rows[i] == rows[1..][i - 1];
      r
  }

  /** `SELECT * FROM transactions WHERE payment_intent_id = id OR txn_id = id`, first row. */
  function FindEither(rows: seq<Transaction>, id: string): (r: Option<Transaction>)
    ensures r.None? <==> forall i :: 0 <= i < |rows| ==> rows[i].paymentIntentId != id && rows[i].txnId != id
    ensures r.Some? ==> exists i :: 0 <= i < |rows| && rows[i] == r.value &&
                                     (r.value.paymentIntentId == id || r.value.txnId == id)
  {
    if rows == [] then None
    else if rows[0].paymentIntentId == id || rows[0].txnId == id then Some(rows[0])
    else
      var r := FindEither(rows[1..], id);
      assert forall i :: 1 <= i < |rows| ==> rows[i] == rows[1..][i - 1];
      r
  }

  /** On a valid table a key names exactly one row. */
  lemma FindUnique(t: Table, col: Column, i: nat)
    requires Valid(t) && i < |t.rows|
    ensures FindBy(t.rows, col, Key(t.rows[i], col)) == Some(t.rows[i])
  {
    var r := FindBy(t.rows, col, Key(t.rows[i], col));
    var j :| 0 <= j < |t.rows| && t.rows[j] == r.value && Key(r.value, col) == Key(t.rows[i], col);
    if i < j || j < i {
      assert false;
    }
  }

  /** The SET list of an UPDATE statement. */
  datatype Change =
    | SetStatus(status: Status)
    | SetStatusAndMerge(status: Status, delta: Object)

  /** One row after `SET status = .., updated_at = NOW() [, metadata = metadata || delta]`. */
  function Apply(row: Transaction, c: Change, now: nat): Transaction {
    match c
    case SetStatus(s) => row.(status := s, updatedAt := now)
    case SetStatusAndMerge(s, d) => row.(status := s, metadata := Concat(row.metadata, d), updatedAt := now)
  }

  /** `UPDATE transactions SET .. WHERE payment_intent_id = id`, row by row. */
  function UpdateWhere(rows: seq<Transaction>, id: string, c: Change, now: nat): (r: seq<Transaction>)
    ensures |r| == |rows|
    ensures forall i :: 0 <= i < |rows| ==>
      r[i] == if rows[i].paymentIntentId == id then Apply(rows[i], c, now) else rows[i]
  {
    if rows == [] then []
    else [if rows[0].paymentIntentId == id then Apply(rows[0], c, now) else rows[0]]
         + UpdateWhere(rows[1..], id, c, now)
  }

  /** An UPDATE statement: it stamps the matching rows with the clock and advances it. */
  function Update(t: Table, id: string, c: Change): (r: Table)
    ensures |r.rows| == |t.rows| && r.clock == t.clock + 1
    ensures forall i :: 0 <= i < |t.rows| ==>
      r.rows[i].txnId == t.rows[i].txnId && r.rows[i].paymentIntentId == t.rows[i].paymentIntentId &&
      r.rows[i].createdAt == t.rows[i].createdAt
  {
    Table(UpdateWhere(t.rows, id, c, t.clock), t.clock + 1)
  }

  /** An INSERT statement whose row takes the clock for both `created_at` and `updated_at`. */
  function Insert(t: Table, txnId: string, paymentIntentId: string, amount: int, currency: string,
                  status: Status, metadata: Object): (r: Table)
    ensures |r.rows| == |t.rows| + 1 && r.rows[..|t.rows|] == t.rows && r.clock == t.clock + 1
    ensures r.rows[|t.rows|].createdAt == r.rows[|t.rows|].updatedAt == t.clock
  {
    Table(t.rows + [Transaction(txnId, paymentIntentId, amount, currency, status, metadata, t.clock, t.clock)],
          t.clock + 1)
  }

  /** A row with its `updated_at` stamp erased: what the row says, apart from when it last changed. */
  function Unstamped(row: Transaction): Transaction {
    row.(updatedAt := 0)
  }

  /** Two tables hold the same rows, up to `updated_at`. */
  predicate SameContent(a: seq<Transaction>, b: seq<Transaction>) {
    |a| == |b| && forall i :: 0 <= i < |a| ==> Unstamped(a[i]) == Unstamped(b[i])
  }

  /** An UPDATE with no matching row leaves every row as it was. */
  lemma UpdateWithoutMatch(rows: seq<Transaction>, id: string, c: Change, now: nat)
    requires forall i :: 0 <= i < |rows| ==> rows[i].paymentIntentId != id
    ensures UpdateWhere(rows, id, c, now) == rows
  {
  }

  /** An UPDATE changes neither key of any row, so every lookup still finds a row or still does not. */
  lemma UpdateKeepsKeys(rows: seq<Transaction>, id: string, c: Change, now: nat, col: Column, key: string)
    ensures FindBy(UpdateWhere(rows, id, c, now), col, key).Some? <==> FindBy(rows, col, key).Some?
  {
    var r := UpdateWhere(rows, id, c, now);
    assert forall i :: 0 <= i < |rows| ==> Key(r[i], col) == Key(rows[i], col);
  }

  /** Running the same UPDATE twice leaves the rows as running it once, up to `updated_at`. */
  lemma UpdateTwice(rows: seq<Transaction>, id: string, c: Change, now1: nat, now2: nat)
    ensures SameContent(UpdateWhere(UpdateWhere(rows, id, c, now1), id, c, now2), UpdateWhere(rows, id, c, now1))
  {
    var once := UpdateWhere(rows, id, c, now1);
    var twice := UpdateWhere(once, id, c, now2);
    forall i | 0 <= i < |rows|
      ensures Unstamped(twice[i]) == Unstamped(once[i])
    {
      if rows[i].paymentIntentId == id && c.SetStatusAndMerge? {
        ConcatIdempotent(rows[i].metadata, c.delta);
      }
    }
  }

  /** Every UPDATE statement keeps the table valid. */
  lemma UpdatePreservesValid(t: Table, id: string, c: Change)
    requires Valid(t)
    ensures Valid(Update(t, id, c))
  {
    var r := Update(t, id, c).rows;
    assert forall i :: 0 <= i < |t.rows| ==>
      r[i].txnId == t.rows[i].txnId && r[i].paymentIntentId == t.rows[i].paymentIntentId &&
      r[i].createdAt == t.rows[i].createdAt;
  }

  /** An INSERT whose keys are new keeps the table valid. */
  lemma InsertPreservesValid(t: Table, txnId: string, paymentIntentId: string, amount: int, currency: string,
                             status: Status, metadata: Object)
    requires Valid(t)
    requires FindBy(t.rows, TxnIdColumn, txnId).None?
    requires FindBy(t.rows, PaymentIntentColumn, paymentIntentId).None?
    ensures Valid(Insert(t, txnId, paymentIntentId, amount, currency, status, metadata))
  {
    var r := Insert(t, txnId, paymentIntentId, amount, currency, status, metadata).rows;
    assert forall i :: 0 <= i < |t.rows| ==> r[i] == t.rows[i];
  }

  /** The listing bound of `/all`. */
  const ListLimit: nat := 50

  /** The last `n` rows, newest first. */
  function Newest(rows: seq<Transaction>, n: nat): (r: seq<Transaction>)
    ensures |r| == if n < |rows| then n else |rows|
    ensures forall i :: 0 <= i < |r| ==> r[i] == rows[|rows| - 1 - i]
  {
    if n == 0 || rows == [] then []
    else [rows[|rows| - 1]] + Newest(rows[..|rows| - 1], n - 1)
  }

  /** `SELECT * FROM transactions ORDER BY created_at DESC LIMIT 50`. */
  function Recent(rows: seq<Transaction>): (r: seq<Transaction>)
    ensures |r| <= ListLimit
    ensures forall x :: x in r ==> x in rows
  {
    Newest(rows, ListLimit)
  }

  /** The listing holds at most 50 rows, every one of them a row of the table, and no row twice. */
  lemma RecentFromTable(t: Table)
    requires Valid(t)
    ensures |Recent(t.rows)| <= ListLimit
    ensures |Recent(t.rows)| == |t.rows| || |Recent(t.rows)| == ListLimit
    ensures forall x :: x in Recent(t.rows) ==> x in t.rows
    ensures forall i, j :: 0 <= i < j < |Recent(t.rows)| ==> Recent(t.rows)[i] != Recent(t.rows)[j]
  {
    var r := Recent(t.rows);
    forall x | x in r ensures x in t.rows {
      var i :| 0 <= i < |r| && r[i] == x;
      assert t.rows[|t.rows| - 1 - i] == x;
    }
  }

  /** The listing is in strictly decreasing `created_at` order. */
  lemma RecentOrdered(t: Table)
    requires Valid(t)
    ensures forall i, j :: 0 <= i < j < |Recent(t.rows)| ==> Recent(t.rows)[i].createdAt > Recent(t.rows)[j].createdAt
  {
  }

  /** Every row left out of the listing is older than every row in it. */
  lemma RecentNewest(t: Table)
    requires Valid(t)
    ensures forall k, i :: 0 <= k < |t.rows| - |Recent(t.rows)| && 0 <= i < |Recent(t.rows)| ==>
      t.rows[k].createdAt < Recent(t.rows)[i].createdAt
  {
  }
}
