/** The records the order pipeline passes around: order status, quotes, log
    entries and order rows (be/src/types.ts and the Prisma `Order` row). */
module Types {

  datatype Option<+T> = None | Some(value: T)

  type OrderId = string

  /** The lifecycle states an order can be written with. */
  datatype OrderStatus = Pending | Routing | Building | Signing | Sending | Confirmed | Failed
  {
    /** The string the store, the wire and the browser carry for this status. */
    function Name(): string {
      match this
      case Pending => "pending"
      case Routing => "routing"
      case Building => "building"
      case Signing => "signing"
      case Sending => "sending"
      case Confirmed => "confirmed"
      case Failed => "failed"
    }
  }

  datatype Dex = Raydium | Meteora

  /** A priced quote; the worker never computes with it, so its numbers stay opaque. */
  datatype Quote = Quote(dex: Dex, price: real, fee: real)

  /** What a job run can throw: an error raised by one of its steps, or the
      store's "record to update not found". */
  datatype Error = StepError(message: string) | RecordNotFound(orderId: OrderId)

  /** The message text of a log entry, one constructor per message the worker writes. */
  datatype LogMessage =
    | OrderReceived                     // "Order received and queued"
    | ComparingPrices                   // "Comparing DEX prices"
    | BestQuoteFound(dex: Dex, price: real)
    | CreatingTransaction
    | SigningTransaction
    | TransactionSent
    | TransactionSuccessful
    | AttemptFailed(attempt: int, error: Error)
    | Retrying(nextAttempt: int, maxAttempts: int)
    | FailedAfterMaxRetries

  /** The optional `details` payload of a log entry. */
  datatype Details =
    | NoDetails
    | QuoteDetails(quote: Quote)
    | TxDetails(txHash: string)
    | ErrorDetails(error: Error)

  /** One log entry; its timestamp is left out. */
  datatype LogEntry = LogEntry(status: OrderStatus, message: LogMessage, details: Details)

  /** The stored `logs` column is JSON: normally an array, but it may hold anything else. */
  datatype Logs = LogArray(entries: seq<LogEntry>) | NotAnArray

  /** The stored `bestQuote` column: `{}` until the routing step writes a quote. */
  datatype BestQuote = EmptyObject | StoredQuote(quote: Quote)

  /** An order row. */
  datatype Order = Order(
    id: OrderId,
    tokenPair: string,
    amount: real,
    status: OrderStatus,
    createdAt: nat,
    txHash: Option<string>,
    bestQuote: BestQuote,
    logs: Logs)

  /** The log the worker reads back from a row: the stored array, or empty when
      the column is not an array. */
  function ExistingLogs(logs: Logs): (r: seq<LogEntry>)
    ensures logs.LogArray? ==> r == logs.entries
    ensures logs.NotAnArray? ==> r == []
  {
    match logs
    case LogArray(entries) => entries
    case NotAnArray => []
  }

  /** The message the server pushes to browsers: `{type, data}`. */
  datatype Message = Message(kind: string, data: Order)

  /** The `type` of every message the server sends. */
  const OrderUpdateKind: string := "order-update"

  /** The entries of a row's log as the worker sees them. */
  function Entries(o: Order): seq<LogEntry> {
    ExistingLogs(o.logs)
  }

  /** No two orders of a list share an id. */
  predicate DistinctIds(s: seq<Order>) {
    forall i, j | 0 <= i < j < |s| :: s[i].id != s[j].id
  }

  /** The status projection of a log. */
  function Statuses(entries: seq<LogEntry>): seq<OrderStatus> {
    seq(|entries|, i requires 0 <= i < |entries| => entries[i].status)
  }
}
