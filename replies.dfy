/** What a route answers, and the table it leaves behind. */
module Replies {
  import opened Transactions

  datatype Reply =
    | PaymentIntentCreated(txnId: string, paymentIntentId: string)
    | Found(row: Transaction)
    | Listing(rows: seq<Transaction>)
    | RefundIssued(refundId: string)
    | StatusSynced(status: Status, providerStatus: string)
    | Received
    | BadRequest
    | Forbidden
    | NotFound
    | ServerError

  /** The HTTP status code that goes with a reply. */
  function HttpStatus(r: Reply): int {
    match r
    case BadRequest => 400
    case Forbidden => 403
    case NotFound => 404
    case ServerError => 500
    case _ => 200
  }

  /** The outcome of one request: the table after it and the reply sent. */
  datatype Step = Step(table: Table, reply: Reply)
}
