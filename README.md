# Order execution pipeline — a verified model

The system takes token-swap orders over HTTP and stores each one as a
`pending` row. It broadcasts the new row to the browsers subscribed over
WebSockets and queues a `process-order` job. A worker runs the job as a
fixed sequence of steps:

- receive the order;
- compare DEX prices and store the best quote;
- build, sign and send a transaction;
- store the transaction hash and confirm.

Every step appends a log entry to the row, writes the entry's status, and
sends the updated row to the server over the worker's socket. A step that
throws sends the run into a catch block, which logs the failed attempt and
then either a retry notice or the final failure, and rethrows. The browser
keeps an order list that it updates from each `order-update` message, and
colours each order's status badge.

This project models that core in Dafny, one file per part:

| file | module | models |
|---|---|---|
| `types.dfy` | `Types` | statuses, quotes, log entries, order rows, the `{type, data}` message |
| `order_store.dfy` | `Store` | the order table as a map from id to row, standing in for the database client |
| `order_queue.dfy` | `OrderQueue` | the job payload, the job the processor sees, and the queue's `add` |
| `order_worker.dfy` | `OrderWorker` | `addLog`, `sendOrderUpdate` and the job processor, as a `Worker` class over the store and an outbox |
| `retry_driver.dfy` | `RetryDriver` | redelivery of a failing job, stated as an assumption about the queue library |
| `registry.dfy` | `Registry` | the per-order groups and the global set of browser connections: register, close, broadcast |
| `order_manager.dfy` | `OrderManager` | `createOrder` and `getAllOrders` |
| `order_list.dfy` | `OrderList` | the browser's upsert of an order update into its list |
| `order_card.dfy` | `OrderCard` | the status colour, the "still processing" test and the card body |

The worker is specified by functions over action sequences:

- `PlanStep` and `Steps` give the try block's ten awaited calls;
- `CatchActions` gives the catch block's two `addLog` calls;
- `Exec` gives the row after a sequence of actions;
- `Snapshots` and `Published` give the rows sent to the server.

The `Worker` methods change a store and an outbox. Their `ensures` tie the
new state to those functions, and lemmas prove the properties of the
functions.

JavaScript `Set`s iterate in insertion order and hold no duplicates. The
registry models them as duplicate-free sequences: `Added` models `add` and
`Removed` models `delete`.

The model follows what the code does, including behaviour a reader of the
processor might not expect:

- A successful run appends seven entries for six steps, because `routing`
  is logged twice.
- A failed attempt writes status `pending`, so on a retry the status moves
  back from where the run stopped.
- The terminal branch also rethrows, so the job is reported failed to the
  queue.
- The worker publishes over its own socket, and updates are dropped, not
  buffered, while that socket is not open.
- One close handler is installed per registration. It detaches the
  connection from the id captured at registration.

## Model

| member | source | states |
|---|---|---|
| OrderWorker.Worker.SendOrderUpdate | be/src/queue/orderWorker.ts:46-55 | the snapshot joins the outbox exactly when the worker's socket is open; otherwise nothing is sent or kept |
| OrderWorker.Worker.AddLog | be/src/queue/orderWorker.ts:58-82 | keeps every row filed under its own id; on an existing row: writes the read-back log plus one entry, together with the entry's status, and sends the written row once; on a missing row: fails and writes and sends nothing |
| OrderWorker.AddEntryAppendsOne | be/src/queue/orderWorker.ts:59-77 | addLog's update appends exactly one entry at the end and keeps the earlier entries in order; a non-array log reads as empty; the row's status becomes the entry's status; no other field changes |
| OrderWorker.Worker.StoreQuote | be/src/queue/orderWorker.ts:99-102 | keeps every row filed under its own id; the update stores the quote as `bestQuote` on an existing row and changes nothing on a missing one |
| OrderWorker.Worker.StoreTxHash | be/src/queue/orderWorker.ts:120-123 | keeps every row filed under its own id; the update stores the transaction hash on an existing row and changes nothing on a missing one |
| OrderWorker.Worker.Perform | be/src/queue/orderWorker.ts:93-125 | one awaited call of the try block changes the row as `Apply` says, and only a logging call sends the new row |
| OrderWorker.Worker.RunStep | be/src/queue/orderWorker.ts:91-128 | the step at the fault's index throws the fault's error and writes nothing; any other step extends the performed prefix by one action |
| OrderWorker.Worker.TrySteps | be/src/queue/orderWorker.ts:91-128 | on an existing row the try block performs exactly the steps before the fault (all ten when there is none), sends one snapshot per logging step, and throws the fault's error or nothing; on a missing row the first write throws the store's not-found error and nothing changes |
| OrderWorker.Worker.TryQuote | be/src/queue/orderWorker.ts:92-104 | the first five steps are performed up to the fault, and the method throws exactly when the fault lies among them |
| OrderWorker.Worker.TryTransaction | be/src/queue/orderWorker.ts:106-116 | steps five to seven are performed up to the fault, and the method throws exactly when the fault lies among them |
| OrderWorker.Worker.TryConfirm | be/src/queue/orderWorker.ts:118-125 | the hash is stored, then `confirmed` is logged, up to the fault; the method throws exactly when there is a fault |
| OrderWorker.Worker.CatchBlock | be/src/queue/orderWorker.ts:130-149 | logs "attempt n failed", then "retrying" while `n < maxAttempts` or the terminal failure otherwise, and rethrows the same error either way; a missing row gives the store's not-found error and no write |
| OrderWorker.Worker.Process | be/src/queue/orderWorker.ts:86-150 | keeps every row filed under its own id; one run on an existing row writes exactly `RunActions`, publishes one snapshot per entry appended, ends in `FinalStatus`, and resolves or rejects as `RunOutcome` says; a run on a missing row changes nothing and rejects |
| OrderWorker.Reached | be/src/queue/orderWorker.ts:91-128 | a run that does not throw completes all ten steps; one that throws completes exactly the steps before the faulting one |
| OrderWorker.PlanStep | be/src/queue/orderWorker.ts:91-128 | every step of the try block logs except the quote lookup (step 2), the quote update (step 3) and the hash update (step 8) |
| OrderWorker.MaxAttempts | be/src/queue/orderWorker.ts:134 | the maximum the catch block compares against is never zero: a non-zero option is kept, and an absent or zero one becomes 1 |
| OrderWorker.CatchActions | be/src/queue/orderWorker.ts:130-149 | the catch block makes two addLog calls: a `pending` "attempt failed" entry, then a `pending` entry while attempts remain or a `failed` one otherwise |
| OrderWorker.AddEntry | be/src/queue/orderWorker.ts:59-77 | addLog's single update: the read-back log with the entry appended, the entry's status, and every other field of the row kept |
| OrderWorker.ExecAppendsLoggedEntries | be/src/queue/orderWorker.ts:58-82 | any sequence of writes keeps the row's earlier log as a prefix, follows it with exactly the entries it logs, and sends one snapshot per entry |
| OrderWorker.ExecKeepsInSync | be/src/queue/orderWorker.ts:71-77 | a row whose status is its last entry's stays so under any writes; after any sequence that logs, the status is the last logged entry's |
| Types.ExistingLogs | be/src/queue/orderWorker.ts:60 | a stored array is read back as it is; anything that is not an array reads as the empty log |
| OrderWorker.SnapshotsInSync | be/src/queue/orderWorker.ts:71-80 | every snapshot sent carries the row's id and has the status of its own last log entry |
| OrderWorker.ExecPreservesIdentity | be/src/queue/orderWorker.ts:58-128 | no write of a run changes the id, the token pair, the amount or the creation time |
| OrderWorker.ExecAppend | be/src/queue/orderWorker.ts:91-149 | performing two sequences one after the other is performing their concatenation, for the row, the snapshots and the logged entries |
| OrderWorker.PublishedAppend | be/src/queue/orderWorker.ts:46-55 | what is sent for two sequences one after the other is what each sends, concatenated, whether or not the socket is open |
| OrderWorker.AppendFacts | be/src/queue/orderWorker.ts:58-82 | one more action changes the row by `Apply` and sends one more snapshot exactly when it logs and the socket is open |
| OrderWorker.AppendLogged | be/src/queue/orderWorker.ts:58-82 | one more action adds its entry to the logged entries exactly when it logs |
| OrderWorker.StepsPrefix | be/src/queue/orderWorker.ts:91-128 | the try block's first `m` steps are a prefix of its first `n` |
| OrderWorker.StepLogged | be/src/queue/orderWorker.ts:91-128 | the logged entries grow step by step, by the step's entry when it logs |
| OrderWorker.StepExec | be/src/queue/orderWorker.ts:91-128 | the row after `k + 1` steps is step `k` applied to the row after `k` |
| OrderWorker.PlanLogs | be/src/queue/orderWorker.ts:93-125 | the try block logs exactly seven entries, with their statuses, messages and details in the code's order |
| OrderWorker.PlanRows | be/src/queue/orderWorker.ts:97-123 | the quote is not yet stored after the first two steps and is stored after four; the hash is not yet stored after eight steps and is stored at the end |
| OrderWorker.SuccessfulRun | be/src/queue/orderWorker.ts:91-128 | a run that does not throw appends seven entries with statuses pending, routing, routing, building, signing, sending, confirmed; it ends `confirmed` with the quote and hash stored; the quote entry carries the quote and the last entry carries the hash |
| OrderWorker.SnapshotAt | be/src/queue/orderWorker.ts:58-82 | the snapshot sent by a logging action is the row exactly as that action left it |
| OrderWorker.PlanLogCounts | be/src/queue/orderWorker.ts:93-125 | one, two, five and six entries are logged before steps 1, 4, 7 and 9 |
| OrderWorker.PlanSnapshotAt | be/src/queue/orderWorker.ts:93-125 | each logging step of the try block sends the row as it stands right after that step |
| OrderWorker.PlanSnapshots | be/src/queue/orderWorker.ts:93-125 | a full run sends seven snapshots, and the 2nd, 3rd, 6th and 7th are the rows after steps 2, 5, 8 and 10 |
| OrderWorker.QuoteStoredBeforeAnnounced | be/src/queue/orderWorker.ts:99-104 | the snapshot announcing the best quote already carries it as `bestQuote` and in its entry's details; the snapshot before it does not |
| OrderWorker.TxHashStoredBeforeConfirmed | be/src/queue/orderWorker.ts:119-125 | the `confirmed` snapshot already carries the hash, and its last entry is the `confirmed` entry with `{txHash}`; the snapshot before it still has the old hash |
| OrderWorker.CatchLogs | be/src/queue/orderWorker.ts:133-148 | the catch block logs "attempt n failed" as `pending`, then "retrying (n+1/max)" as `pending` when `n < max`, and "failed after max retries" as `failed` with the error otherwise |
| OrderWorker.RetriedRun | be/src/queue/orderWorker.ts:133-144 | when attempts remain, a failed run keeps the entries it appended, adds two `pending` entries, and leaves the row `pending` |
| OrderWorker.TerminalRun | be/src/queue/orderWorker.ts:133-148 | on the last attempt, a failed run keeps its entries, adds a `pending` failure entry and a `failed` entry with the error, and leaves the row `failed` |
| OrderWorker.FailedRun | be/src/queue/orderWorker.ts:91-149 | a run that throws keeps the completed steps' entries, follows them with the catch block's, and ends in `FinalStatus` |
| OrderWorker.RunEndsInFinalStatus | be/src/queue/orderWorker.ts:86-150 | every run on an existing row ends in `FinalStatus`, in sync with its last entry, with the old log as a prefix and one snapshot per entry appended |
| OrderWorker.RunComposes | be/src/queue/orderWorker.ts:91-149 | a run is its completed try-block steps followed, when it threw, by the catch block, for the row and for what is sent |
| OrderWorker.RunOnStore | be/src/queue/orderWorker.ts:86-150 | the store and outbox after the try block and the catch block are those after the whole run, and the row ends in `FinalStatus` |
| OrderWorker.StoreCompose | be/src/queue/orderWorker.ts:91-149 | performing two sequences on one row of the store is performing their concatenation |
| OrderWorker.CatchRows | be/src/queue/orderWorker.ts:137-148 | the catch block sends exactly two snapshots, the row after each of its entries, and the second is the final row |
| RetryDriver.Budget | be/src/queue/orderWorker.ts:134 | a job gets at least one run and at least as many runs as `opts.attempts` (one when absent or zero), and exactly that many when it is positive |
| RetryDriver.QueuedJobBudget | be/src/queue/orderQueue.ts:11-14 | a job the order manager queued reaches the processor with its payload and three runs |
| RetryDriver.LastRunStatus | be/src/queue/orderWorker.ts:139-148 | the run the driver stops after leaves the row `confirmed` when it succeeded and `failed` when it threw |
| RetryDriver.RetriedRunStatus | be/src/queue/orderWorker.ts:139-144 | a run followed by another leaves the row `pending` |
| RetryDriver.RunOnce | be/src/queue/orderWorker.ts:86-150 | keeps every row filed under its own id; one delivery resolves or rejects as `RunOutcome` says, keeps the row present or absent, and leaves an existing row in `FinalStatus` |
| RetryDriver.Verdict | be/src/queue/orderWorker.ts:139-148 | when every run before the last threw and the driver stops early only on success, the job succeeds exactly when some run within the budget met no fault |
| RetryDriver.RunJob | be/src/queue/orderWorker.ts:130-149 | keeps every row filed under its own id; assuming redelivery: runs stop at the first run that succeeds, or after the budget; the job succeeds exactly when some run within the budget meets no fault on an existing row; the row ends `confirmed` or `failed` accordingly |
| Registry.Added | be/src/websocket/manager.ts:11 | `Set.add` makes the connection a member, keeps the earlier members in order and adds no duplicate |
| Registry.Removed | be/src/websocket/manager.ts:19 | `Set.delete` removes exactly that connection, keeps the set duplicate-free, and is the identity on a non-member |
| Registry.RemovedKeepsOrder | be/src/websocket/manager.ts:19 | deleting the member at position `k` of a duplicate-free set leaves exactly the members before it followed by those after it, so later broadcasts keep the registration order |
| Registry.Detached | be/src/websocket/manager.ts:17-25 | after a close, the only groups left are the non-empty remainders; the connection is in none of them; a group it was not in is unchanged |
| Registry.Sends | be/src/websocket/manager.ts:30-44 | one `forEach` sends `order-update` with the order, only to open members of the set |
| Registry.Registry.Register | be/src/websocket/manager.ts:6-26 | a truthy id adds the connection to that order's group, creating it if absent; a null or empty id creates no group; every connection joins the global set; no other group changes; the registry stays well formed |
| Registry.Registry.RunCloseHandler | be/src/websocket/manager.ts:17-25 | one close handler removes the connection from its id's group, drops that group if it emptied, and removes the connection from the global set |
| Registry.Registry.Close | be/src/websocket/manager.ts:17-25 | closing runs every close handler of the connection: it leaves every group and the global set, emptied groups are deleted, other groups are unchanged, no empty group remains |
| Registry.Registry.RunHandlers | be/src/websocket/manager.ts:17-25 | the close event runs the connection's handlers once each, in registration order |
| Registry.Registry.Broadcast | be/src/websocket/manager.ts:28-45 | sends go first to the open members of the order's group, then to the open members of the global set, and nothing else changes |
| Registry.Registry.SendEach | be/src/websocket/manager.ts:33-36 | the loop over a set makes exactly the sends `Sends` lists |
| Registry.DetachStep | be/src/websocket/manager.ts:19-22 | running one more close handler of the connection detaches it from one more group |
| Registry.CloseResult | be/src/websocket/manager.ts:17-25 | once all close handlers have run, the groups are `Detached`, the global set has lost the connection, and the registry is well formed |
| Registry.CloseStep | be/src/websocket/manager.ts:17-25 | each turn over the handlers moves the state one handler further |
| Registry.IdsOfStep | be/src/websocket/manager.ts:17-19 | the ids detached from grow by a handler's id exactly when it is the connection's handler with a truthy id |
| Registry.IdsOfHas | be/src/websocket/manager.ts:17-19 | every handler of the connection with a truthy id detaches it from that id |
| Registry.DetachedCovers | be/src/websocket/manager.ts:17-25 | detaching from every group the connection is in is detaching it completely |
| Registry.HandlersCover | be/src/websocket/manager.ts:7-19 | every group a connection is in was joined by a registration whose close handler detaches it from that group |
| Registry.RegisterWellFormed | be/src/websocket/manager.ts:7-15 | registering keeps every group non-empty, under a non-empty id and without duplicates, and every member covered by a close handler |
| Registry.CloseWellFormed | be/src/websocket/manager.ts:17-25 | closing keeps the registry well formed; no empty group survives |
| Registry.RemovedTwice | be/src/websocket/manager.ts:19-24 | deleting a connection twice is deleting it once |
| Registry.AddedTwice | be/src/websocket/manager.ts:11-15 | registering the same connection twice does not duplicate it |
| Registry.SendsOnce | be/src/websocket/manager.ts:30-44 | a loop over a set sends to each open member exactly once and to any other connection never |
| Registry.ReceivedAppend | be/src/websocket/manager.ts:28-45 | the number of sends a connection gets from two loops is the sum of the two |
| Registry.BroadcastReach | be/src/websocket/manager.ts:28-45 | one broadcast reaches an open connection once for the order's group plus once for the global set, so twice if it is in both; a non-open connection gets nothing |
| Registry.ClosedNotReached | be/src/websocket/manager.ts:17-45 | a closed connection is reached by no later broadcast |
| OrderQueue.JobQueue.Add | be/src/queue/orderQueue.ts:11-14 | `add` appends exactly one job with the given name, data and job id, carrying the queue's default of three attempts, and leaves the earlier jobs as they were |
| OrderManager.NewOrder | be/src/orderManager.ts:10-18 | the new row is `pending`, with empty logs, `{}` as quote and no hash, and has the given pair, amount, id and time |
| OrderManager.Insert | be/src/orderManager.ts:39-45 | inserting into a newest-first list keeps it newest first, adds one element, and adds exactly that order |
| OrderManager.OrderManager.CreateOrder | be/src/orderManager.ts:8-37 | the pending row is inserted and returned; it is broadcast once; exactly one job `process-order` is queued, with data `{orderId, tokenPair, amount}` and job id equal to the order id; the caller must pass a non-empty pair and a non-zero amount |
| OrderManager.OrderManager.GetAllOrders | be/src/orderManager.ts:39-45 | returns every stored row once each, and nothing else, newest first |
| OrderManager.ListOne | be/src/orderManager.ts:39-45 | listing one more row keeps the partial listing newest first and duplicate-free |
| OrderManager.ListedAll | be/src/orderManager.ts:39-45 | when no row is left, the listing holds exactly the stored rows |
| OrderManager.InsertKeepsDistinct | be/src/orderManager.ts:39-45 | inserting an order whose id is not listed keeps the ids distinct |
| OrderList.FindIndex | fe/src/App.tsx:77 | the first position with the id, or -1 exactly when no order has it |
| OrderList.Upsert | fe/src/App.tsx:76-87 | when an order has the id, the length is the same, the first such position holds the update, and all other positions are unchanged; otherwise the result is the update prepended |
| OrderList.OnMessage | fe/src/App.tsx:71-87 | a message that is not `order-update` leaves the list unchanged; an update message upserts its order |
| OrderList.UpsertContents | fe/src/App.tsx:77-85 | the update is in the result, every order with another id stays, nothing else enters, and the length grows only when the id was new |
| OrderList.UpsertIds | fe/src/App.tsx:77-85 | the ids shown are the earlier ids plus the update's |
| OrderList.UpsertIdempotent | fe/src/App.tsx:77-85 | applying the same update twice gives the same list as applying it once |
| OrderList.UpsertKeepsDistinct | fe/src/App.tsx:77-85 | unique ids before the upsert stay unique after it |
| OrderList.UpsertFound | fe/src/App.tsx:77-85 | after the upsert, the first order with the update's id is the update |
| OrderCard.StatusColor | fe/src/components/OrderCard.tsx:29-40 | every status string gets one of the five badge colours |
| OrderCard.Body | fe/src/components/OrderCard.tsx:72-86 | the details view is shown exactly for `confirmed` and `failed`; otherwise the log view shows the row's entries, an absent log as empty |
| OrderCard.ProcessingExactly | fe/src/components/OrderCard.tsx:43 | a status string is processing exactly when it names pending, routing, building, signing or sending |
| OrderCard.GreyExactly | fe/src/components/OrderCard.tsx:29-40 | grey is the colour of exactly the strings that name no order status |
| OrderCard.ColourMatchesProcessing | fe/src/components/OrderCard.tsx:31-43 | confirmed is green, failed red, pending orange, and the other four processing states blue, each exactly; processing states are orange or blue, outcomes green or red |

## Left out

- Timestamps: the `timestamp` of a log entry, `createdAt` and `updatedAt` come from the clock. Log entries carry no time, and the row has no `updatedAt` field (be/src/types.ts:24), since no modelled operation reads it. `createdAt` and the order id are inputs of `CreateOrder`, with `id !in db.orders` standing for the freshness of a generated id.
- The database client: the store is an in-memory map that reads its own writes. A failing query other than "record not found" is not modelled.
- JSON: message encoding and parsing, and the server's relay of worker messages to browsers. `index.ts` is not part of this model beyond its `tokenPair`/`amount` check, which is `CreateOrder`'s precondition.
- The WebSocket transport, reconnection timers and `readyState` changes: the worker's socket is open or not for a whole run, and browsers' open connections are a set passed to `Broadcast`.
- The queue library (BullMQ): backoff delays, job-id de-duplication, `removeOnComplete`/`removeOnFail` and `concurrency: 3` are not modelled; only the default of three attempts is.
- RetryDriver.RunJob: redelivery itself is not visible in the repository; the driver states it as an assumption, not as the library's behaviour.
- Faults: a run can throw only at the start of a try-block step and then that step has no effect; a throw in the middle of a write, or in the catch block other than the store's not-found error, is not modelled.
- The DEX router (`dexRouter.ts`): its random prices and delays are not modelled; the quote a run sees is an input, and the router's failure is a fault at step 2.
- `txHash` generation from `Math.random` is an input of the run.
- `setTimeout` delays between steps, and all console logging.
- Message texts: log messages are a datatype, one constructor per message, so `toFixed(2)` formatting of the price is not modelled.
- JavaScript truthiness: an order id is truthy when present and not empty; `opts.attempts || 1` treats an absent or zero option as one, and NaN is not modelled.
- OrderManager.GetAllOrders: rows with equal `createdAt` come out in an order the model leaves open, as the database does.
- OrderManager.OrderManager.CreateOrder: that the broadcast comes before the enqueue shows only in the statement order of the method, not in its contract.
- OrderCard.Body: `order.logs || []` is read with the worker's rule (a non-array log is empty), not JavaScript's; React rendering is not modelled.
- The close event: every handler installed on a socket runs once, in registration order, as Node's event emitter does; the handler `index.ts` adds does nothing and is left out.
- `be/src/redis/pubsub.ts`, the frontend's fetch calls, reconnection, and the components other than the order card.
- Concurrency: parallel workers and interleaved jobs on one row are not modelled.
