/** The order worker (be/src/queue/orderWorker.ts).

    One job run is a fixed sequence of store writes. Each step is an `Action`,
    the whole run is an action sequence (`RunActions`), and `Exec` and
    `Published` say what a sequence does to a row and which snapshots it sends
    over the worker's socket. The `Worker` class performs the same steps on a
    store and an outbox, and its methods are proved to match those functions. */
module OrderWorker {
  import opened Types
  import opened OrderQueue
  import opened Store

  /** One write of the processor. */
  datatype Action =
    | Log(entry: LogEntry)            // addLog: append an entry and write its status
    | FetchQuote                      // dexRouter.getBestQuote: no store effect
    | StoreBestQuote(quote: Quote)    // update { bestQuote }
    | StoreTxHash(txHash: string)     // update { txHash }

  /** addLog's single update: the read-back log with one entry appended, and the entry's status. */
  function AddEntry(o: Order, e: LogEntry): (r: Order)
    ensures Entries(r) == ExistingLogs(o.logs) + [e]
    ensures r.status == e.status
    ensures r.(logs := o.logs, status := o.status) == o
  {
    o.(logs := LogArray(ExistingLogs(o.logs) + [e]), status := e.status)
  }

  function Apply(o: Order, a: Action): Order {
    match a
    case Log(e) => AddEntry(o, e)
    case FetchQuote => o
    case StoreBestQuote(q) => o.(bestQuote := StoredQuote(q))
    case StoreTxHash(h) => o.(txHash := Some(h))
  }

  /** The row after performing `acts` in order. */
  function Exec(o: Order, acts: seq<Action>): Order
    decreases |acts|
  {
    if acts == [] then o else Apply(Exec(o, acts[..|acts| - 1]), acts[|acts| - 1])
  }

  /** The snapshots addLog hands to sendOrderUpdate while performing `acts`. */
  function Snapshots(o: Order, acts: seq<Action>): seq<Order>
    decreases |acts|
  {
    if acts == [] then []
    else Snapshots(o, acts[..|acts| - 1]) + (if acts[|acts| - 1].Log? then [Exec(o, acts)] else [])
  }

  /** What actually leaves the worker: nothing while its socket to the server is not open. */
  function Published(o: Order, acts: seq<Action>, open: bool): seq<Order> {
    if open then Snapshots(o, acts) else []
  }

  /** The log entries that `acts` append, in order. */
  function LoggedEntries(acts: seq<Action>): seq<LogEntry>
    decreases |acts|
  {
    if acts == [] then []
    else LoggedEntries(acts[..|acts| - 1]) + (if acts[|acts| - 1].Log? then [acts[|acts| - 1].entry] else [])
  }

  /** Step `k` of the processor's try block, for a quote and a transaction
      hash the environment supplies. */
  function PlanStep(quote: Quote, txHash: string, k: nat): (a: Action)
    requires k < StepCount
    ensures a.Log? <==> k != 2 && k != 3 && k != 8
    ensures a == FetchQuote <==> k == 2
    ensures a == StoreBestQuote(quote) <==> k == 3
    ensures a == StoreTxHash(txHash) <==> k == 8
  {
    match k
    case 0 => Log(LogEntry(Pending, OrderReceived, NoDetails))
    case 1 => Log(LogEntry(Routing, ComparingPrices, NoDetails))
    case 2 => FetchQuote
    case 3 => StoreBestQuote(quote)
    case 4 => Log(LogEntry(Routing, BestQuoteFound(quote.dex, quote.price), QuoteDetails(quote)))
    case 5 => Log(LogEntry(Building, CreatingTransaction, NoDetails))
    case 6 => Log(LogEntry(Signing, SigningTransaction, NoDetails))
    case 7 => Log(LogEntry(Sending, TransactionSent, NoDetails))
    case 8 => StoreTxHash(txHash)
    case _ => Log(LogEntry(Confirmed, TransactionSuccessful, TxDetails(txHash)))
  }

  /** The first `n` steps of the try block. */
  function Steps(quote: Quote, txHash: string, n: nat): (s: seq<Action>)
    requires n <= StepCount
    ensures |s| == n
  {
    if n == 0 then [] else Steps(quote, txHash, n - 1) + [PlanStep(quote, txHash, n - 1)]
  }

  /** The try block of the processor as a whole. */
  function Plan(quote: Quote, txHash: string): seq<Action> {
    Steps(quote, txHash, StepCount)
  }

  const StepCount: nat := 10

  type StepIndex = k: nat | k < 10

  /** The try-block step that throws in a run, and the message of what it throws. */
  datatype Fault = Fault(step: StepIndex, message: string)

  /** How many try-block steps complete before the run throws. */
  function Reached(fault: Option<Fault>): (n: nat)
    ensures n <= StepCount
    ensures fault.Some? ==> n == fault.value.step
    ensures fault.None? ==> n == StepCount
  {
    if fault.None? then StepCount else fault.value.step
  }

  /** How many try-block steps complete before step `k`, the run not having thrown earlier. */
  function Upto(fault: Option<Fault>, k: nat): nat {
    if fault.Some? && fault.value.step < k then fault.value.step else k
  }

  predicate Throws(fault: Option<Fault>, k: nat) {
    fault.Some? && fault.value.step == k
  }

  /** `job.opts.attempts || 1`: an absent or zero option means one attempt. */
  function MaxAttempts(attempts: Option<int>): (m: int)
    ensures m != 0
    ensures attempts.Some? && attempts.value != 0 ==> m == attempts.value
    ensures attempts.None? || m != attempts.value ==> m == 1
  {
    if attempts.None? || attempts.value == 0 then 1 else attempts.value
  }

  /** The catch block's writes for attempt `attempt` of `max`, after `e` was thrown. */
  function CatchActions(attempt: int, max: int, e: Error): (c: seq<Action>)
    ensures |c| == 2 && c[0].Log? && c[1].Log?
    ensures c[0].entry == LogEntry(Pending, AttemptFailed(attempt, e), NoDetails)
    ensures c[1].entry.status == if attempt < max then Pending else Failed
  {
    [Log(LogEntry(Pending, AttemptFailed(attempt, e), NoDetails))]
    + if attempt < max then [Log(LogEntry(Pending, Retrying(attempt + 1, max), NoDetails))]
      else [Log(LogEntry(Failed, FailedAfterMaxRetries, ErrorDetails(e)))]
  }

  /** Every write of one run of `job` on a row that exists. */
  function RunActions(job: Job, quote: Quote, txHash: string, fault: Option<Fault>): seq<Action> {
    Steps(quote, txHash, Reached(fault))
    + if fault.None? then []
      else CatchActions(job.attemptsMade + 1, MaxAttempts(job.attempts), StepError(fault.value.message))
  }

  /** What the processor resolves or rejects with. */
  datatype JobOutcome = Succeeded(orderId: OrderId) | Threw(error: Error)

  function RunOutcome(job: Job, fault: Option<Fault>, present: bool): JobOutcome {
    if !present then Threw(RecordNotFound(job.data.orderId))
    else if fault.None? then Succeeded(job.data.orderId)
    else Threw(StepError(fault.value.message))
  }

  /** The status written last in a run: the status the row is left with. */
  function FinalStatus(job: Job, fault: Option<Fault>): OrderStatus {
    if fault.None? then Confirmed
    else if job.attemptsMade + 1 < MaxAttempts(job.attempts) then Pending
    else Failed
  }

  /** A row whose status is the status of its last log entry. */
  ghost predicate InSync(o: Order) {
    Entries(o) != [] ==> o.status == Entries(o)[|Entries(o)| - 1].status
  }


  // ---------------------------------------------------------------------------
  // Properties of the specification functions

  /** addLog appends exactly one entry at the end, keeps the earlier ones, reads
      a non-array log as empty, writes the entry's status and nothing else. */
  lemma AddEntryAppendsOne(o: Order, e: LogEntry)
    ensures Entries(AddEntry(o, e)) == ExistingLogs(o.logs) + [e]
    ensures |Entries(AddEntry(o, e))| == |ExistingLogs(o.logs)| + 1
    ensures Entries(AddEntry(o, e))[|Entries(AddEntry(o, e))| - 1] == e
    ensures o.logs.NotAnArray? ==> Entries(AddEntry(o, e)) == [e]
    ensures AddEntry(o, e).status == e.status && InSync(AddEntry(o, e))
    ensures AddEntry(o, e).(logs := o.logs, status := o.status) == o
  {
  }

  /** One more action at the end of a sequence: one more write, and one more
      snapshot if it logs. */
  lemma AppendFacts(o: Order, done: seq<Action>, a: Action, open: bool)
    ensures Exec(o, done + [a]) == Apply(Exec(o, done), a)
    ensures Published(o, done + [a], open)
            == Published(o, done, open) + (if open && a.Log? then [Exec(o, done + [a])] else [])
  {
    assert (done + [a])[..|done|] == done;
  }

  lemma AppendLogged(done: seq<Action>, a: Action)
    ensures LoggedEntries(done + [a]) == LoggedEntries(done) + (if a.Log? then [a.entry] else [])
  {
    assert (done + [a])[..|done|] == done;
  }

  /** Performing two sequences one after the other is performing their concatenation. */
  lemma {:induction false} ExecAppend(o: Order, a: seq<Action>, b: seq<Action>)
    ensures Exec(o, a + b) == Exec(Exec(o, a), b)
    ensures Snapshots(o, a + b) == Snapshots(o, a) + Snapshots(Exec(o, a), b)
    ensures LoggedEntries(a + b) == LoggedEntries(a) + LoggedEntries(b)
    decreases |b|
  {
    if b == [] {
      assert a + b == a;
    } else {
      var b' := b[..|b| - 1];
      assert (a + b)[..|a + b| - 1] == a + b';
      ExecAppend(o, a, b');
    }
  }

  lemma PublishedAppend(o: Order, a: seq<Action>, b: seq<Action>, open: bool)
    ensures Exec(o, a + b) == Exec(Exec(o, a), b)
    ensures Published(o, a + b, open) == Published(o, a, open) + Published(Exec(o, a), b, open)
  {
    ExecAppend(o, a, b);
  }

  /** The log only grows: the row's log is kept as a prefix and exactly the
      logged entries of `acts` follow it; every snapshot published is one per
      logged entry. */
  lemma {:induction false} ExecAppendsLoggedEntries(o: Order, acts: seq<Action>)
    ensures Entries(Exec(o, acts)) == ExistingLogs(o.logs) + LoggedEntries(acts)
    ensures |Snapshots(o, acts)| == |LoggedEntries(acts)|
    decreases |acts|
  {
    if acts == [] {
      assert ExistingLogs(o.logs) + [] == ExistingLogs(o.logs);
    } else {
      var init := acts[..|acts| - 1];
      var last := acts[|acts| - 1];
      ExecAppendsLoggedEntries(o, init);
      var mid := Exec(o, init);
      assert Exec(o, acts) == Apply(mid, last);
      if last.Log? {
        AddEntryAppendsOne(mid, last.entry);
        assert LoggedEntries(acts) == LoggedEntries(init) + [last.entry];
        assert Entries(Exec(o, acts)) == (ExistingLogs(o.logs) + LoggedEntries(init)) + [last.entry];
      } else {
        assert LoggedEntries(acts) == LoggedEntries(init);
        assert Entries(Apply(mid, last)) == Entries(mid);
      }
    }
  }

  /** Every write keeps the status tied to the last log entry, and any sequence
      that logs at least once leaves the row in sync whatever it started as. */
  lemma {:induction false} ExecKeepsInSync(o: Order, acts: seq<Action>)
    ensures InSync(o) ==> InSync(Exec(o, acts))
    ensures LoggedEntries(acts) != [] ==>
      InSync(Exec(o, acts)) && Exec(o, acts).status == LoggedEntries(acts)[|LoggedEntries(acts)| - 1].status
    decreases |acts|
  {
    if acts != [] {
      var init := acts[..|acts| - 1];
      ExecKeepsInSync(o, init);
      var last := acts[|acts| - 1];
      if last.Log? {
        AddEntryAppendsOne(Exec(o, init), last.entry);
      }
    }
  }

  /** Every snapshot addLog publishes is in sync: its status is its last entry's. */
  lemma {:induction false} SnapshotsInSync(o: Order, acts: seq<Action>, i: nat)
    requires i < |Snapshots(o, acts)|
    ensures InSync(Snapshots(o, acts)[i])
    ensures Snapshots(o, acts)[i].id == o.id
    decreases |acts|
  {
    var init := acts[..|acts| - 1];
    var last := acts[|acts| - 1];
    if i < |Snapshots(o, init)| {
      SnapshotsInSync(o, init, i);
    } else {
      assert last.Log?;
      ExecPreservesIdentity(o, init);
      AddEntryAppendsOne(Exec(o, init), last.entry);
    }
  }

  /** No write touches the id, the pair, the amount or the creation time. */
  lemma {:induction false} ExecPreservesIdentity(o: Order, acts: seq<Action>)
    ensures Exec(o, acts).id == o.id && Exec(o, acts).tokenPair == o.tokenPair
    ensures Exec(o, acts).amount == o.amount && Exec(o, acts).createdAt == o.createdAt
    decreases |acts|
  {
    if acts != [] {
      ExecPreservesIdentity(o, acts[..|acts| - 1]);
    }
  }

  /** The first `m` steps of the try block are a prefix of its first `n`. */
  lemma {:induction false} StepsPrefix(quote: Quote, txHash: string, n: nat, m: nat)
    requires m <= n <= StepCount
    ensures Steps(quote, txHash, n)[..m] == Steps(quote, txHash, m)
    decreases n
  {
    if m < n {
      StepsPrefix(quote, txHash, n - 1, m);
      assert Steps(quote, txHash, n)[..m] == Steps(quote, txHash, n - 1)[..m];
    }
  }

  /** What the first `k + 1` steps log, one step at a time. */
  lemma StepLogged(quote: Quote, txHash: string, k: nat)
    requires k < StepCount
    ensures var a := PlanStep(quote, txHash, k);
      LoggedEntries(Steps(quote, txHash, k + 1))
      == LoggedEntries(Steps(quote, txHash, k)) + (if a.Log? then [a.entry] else [])
  {
    AppendLogged(Steps(quote, txHash, k), PlanStep(quote, txHash, k));
  }

  /** What the first `k + 1` steps do to a row, one step at a time. */
  lemma StepExec(o: Order, quote: Quote, txHash: string, k: nat)
    requires k < StepCount
    ensures Exec(o, Steps(quote, txHash, k + 1)) == Apply(Exec(o, Steps(quote, txHash, k)), PlanStep(quote, txHash, k))
  {
    AppendFacts(o, Steps(quote, txHash, k), PlanStep(quote, txHash, k), false);
  }

  /** The entries the try block logs when nothing throws. */
  lemma PlanLogs(quote: Quote, txHash: string)
    ensures LoggedEntries(Plan(quote, txHash)) ==
      [ LogEntry(Pending, OrderReceived, NoDetails),
        LogEntry(Routing, ComparingPrices, NoDetails),
        LogEntry(Routing, BestQuoteFound(quote.dex, quote.price), QuoteDetails(quote)),
        LogEntry(Building, CreatingTransaction, NoDetails),
        LogEntry(Signing, SigningTransaction, NoDetails),
        LogEntry(Sending, TransactionSent, NoDetails),
        LogEntry(Confirmed, TransactionSuccessful, TxDetails(txHash)) ]
  {
    StepLogged(quote, txHash, 0);
    StepLogged(quote, txHash, 1);
    StepLogged(quote, txHash, 2);
    StepLogged(quote, txHash, 3);
    StepLogged(quote, txHash, 4);
    StepLogged(quote, txHash, 5);
    StepLogged(quote, txHash, 6);
    StepLogged(quote, txHash, 7);
    StepLogged(quote, txHash, 8);
    StepLogged(quote, txHash, 9);
  }

  /** The rows the try block passes through: the quote is stored by step 3 and
      the transaction hash by step 8, neither earlier. */
  lemma PlanRows(o: Order, quote: Quote, txHash: string)
    ensures Exec(o, Steps(quote, txHash, 2)).bestQuote == o.bestQuote
    ensures Exec(o, Steps(quote, txHash, 4)).bestQuote == StoredQuote(quote)
    ensures Exec(o, Steps(quote, txHash, 8)).txHash == o.txHash
    ensures Exec(o, Plan(quote, txHash)).bestQuote == StoredQuote(quote)
    ensures Exec(o, Plan(quote, txHash)).txHash == Some(txHash)
  {
    StepExec(o, quote, txHash, 0);
    StepExec(o, quote, txHash, 1);
    StepExec(o, quote, txHash, 2);
    StepExec(o, quote, txHash, 3);
    StepExec(o, quote, txHash, 4);
    StepExec(o, quote, txHash, 5);
    StepExec(o, quote, txHash, 6);
    StepExec(o, quote, txHash, 7);
    StepExec(o, quote, txHash, 8);
    StepExec(o, quote, txHash, 9);
  }

  /** The seven entries of a run that does not throw. */
  function SuccessEntries(quote: Quote, txHash: string): seq<LogEntry> {
    LoggedEntries(Plan(quote, txHash))
  }

  /** A run that does not throw appends seven entries (routing is logged twice),
      ends confirmed, and has stored the quote and the transaction hash. */
  lemma SuccessfulRun(o: Order, quote: Quote, txHash: string)
    ensures Statuses(SuccessEntries(quote, txHash))
            == [Pending, Routing, Routing, Building, Signing, Sending, Confirmed]
    ensures Entries(Exec(o, Plan(quote, txHash))) == ExistingLogs(o.logs) + SuccessEntries(quote, txHash)
    ensures Exec(o, Plan(quote, txHash)).status == Confirmed
    ensures Exec(o, Plan(quote, txHash)).bestQuote == StoredQuote(quote)
    ensures Exec(o, Plan(quote, txHash)).txHash == Some(txHash)
    ensures SuccessEntries(quote, txHash)[2].details == QuoteDetails(quote)
    ensures SuccessEntries(quote, txHash)[6] == LogEntry(Confirmed, TransactionSuccessful, TxDetails(txHash))
  {
    var p := Plan(quote, txHash);
    PlanLogs(quote, txHash);
    PlanRows(o, quote, txHash);
    ExecAppendsLoggedEntries(o, p);
    ExecKeepsInSync(o, p);
  }

  /** The snapshot published by the logging step at position `k` is the row
      right after that step. */
  lemma {:induction false} SnapshotAt(o: Order, acts: seq<Action>, k: nat)
    requires k < |acts| && acts[k].Log?
    ensures |LoggedEntries(acts[..k])| < |Snapshots(o, acts)|
    ensures Snapshots(o, acts)[|LoggedEntries(acts[..k])|] == Exec(o, acts[..k + 1])
    decreases |acts|
  {
    var init := acts[..|acts| - 1];
    ExecAppendsLoggedEntries(o, init);
    if k == |acts| - 1 {
      assert init == acts[..k];
      assert acts[..k + 1] == acts;
    } else {
      assert init[..k] == acts[..k];
      assert init[..k + 1] == acts[..k + 1];
      SnapshotAt(o, init, k);
    }
  }

  /** How many entries the try block has logged before steps 1, 4, 7 and 9. */
  lemma PlanLogCounts(quote: Quote, txHash: string)
    ensures |LoggedEntries(Steps(quote, txHash, 1))| == 1
    ensures |LoggedEntries(Steps(quote, txHash, 4))| == 2
    ensures |LoggedEntries(Steps(quote, txHash, 7))| == 5
    ensures |LoggedEntries(Steps(quote, txHash, 9))| == 6
  {
    StepLogged(quote, txHash, 0);
    StepLogged(quote, txHash, 1);
    StepLogged(quote, txHash, 2);
    StepLogged(quote, txHash, 3);
    StepLogged(quote, txHash, 4);
    StepLogged(quote, txHash, 5);
    StepLogged(quote, txHash, 6);
    StepLogged(quote, txHash, 7);
    StepLogged(quote, txHash, 8);
  }

  /** The logging step at position `k` of the try block publishes the row as
      it stands right after it. */
  lemma PlanSnapshotAt(o: Order, quote: Quote, txHash: string, k: nat)
    requires k < StepCount && PlanStep(quote, txHash, k).Log?
    ensures var s := Snapshots(o, Plan(quote, txHash));
      var i := |LoggedEntries(Steps(quote, txHash, k))|;
      i < |s| && s[i] == Exec(o, Steps(quote, txHash, k + 1))
  {
    var p := Plan(quote, txHash);
    StepsPrefix(quote, txHash, StepCount, k);
    StepsPrefix(quote, txHash, StepCount, k + 1);
    StepsPrefix(quote, txHash, k + 1, k);
    assert p[k] == Steps(quote, txHash, k + 1)[k];
    SnapshotAt(o, p, k);
  }

  /** Which rows of the try block are published: one after each logging step. */
  lemma PlanSnapshots(o: Order, quote: Quote, txHash: string)
    ensures var s := Snapshots(o, Plan(quote, txHash));
      && |s| == 7
      && s[1] == Exec(o, Steps(quote, txHash, 2))
      && s[2] == Exec(o, Steps(quote, txHash, 5))
      && s[5] == Exec(o, Steps(quote, txHash, 8))
      && s[6] == Exec(o, Plan(quote, txHash))
  {
    PlanLogs(quote, txHash);
    PlanLogCounts(quote, txHash);
    ExecAppendsLoggedEntries(o, Plan(quote, txHash));
    PlanSnapshotAt(o, quote, txHash, 1);
    PlanSnapshotAt(o, quote, txHash, 4);
    PlanSnapshotAt(o, quote, txHash, 7);
    PlanSnapshotAt(o, quote, txHash, 9);
  }

  /** The quote is stored before the snapshot announcing it is published, and
      the snapshot just before that still carries the old value. */
  lemma QuoteStoredBeforeAnnounced(o: Order, quote: Quote, txHash: string)
    ensures var s := Snapshots(o, Plan(quote, txHash));
      && |s| == 7
      && s[1].bestQuote == o.bestQuote
      && s[2].bestQuote == StoredQuote(quote)
      && Entries(s[2]) != [] && Entries(s[2])[|Entries(s[2])| - 1].details == QuoteDetails(quote)
  {
    PlanSnapshots(o, quote, txHash);
    PlanRows(o, quote, txHash);
    StepExec(o, quote, txHash, 4);
    AddEntryAppendsOne(Exec(o, Steps(quote, txHash, 4)), PlanStep(quote, txHash, 4).entry);
  }

  /** The transaction hash is stored before the `confirmed` snapshot is
      published, and the snapshot before that still carries the old value. */
  lemma TxHashStoredBeforeConfirmed(o: Order, quote: Quote, txHash: string)
    ensures var s := Snapshots(o, Plan(quote, txHash));
      && |s| == 7
      && s[5].txHash == o.txHash
      && s[6].txHash == Some(txHash)
      && Entries(s[6]) != []
      && Entries(s[6])[|Entries(s[6])| - 1] == LogEntry(Confirmed, TransactionSuccessful, TxDetails(txHash))
  {
    PlanSnapshots(o, quote, txHash);
    PlanRows(o, quote, txHash);
    StepExec(o, quote, txHash, 9);
    AddEntryAppendsOne(Exec(o, Steps(quote, txHash, 9)), PlanStep(quote, txHash, 9).entry);
  }

  /** The two entries the catch block logs. */
  lemma CatchLogs(attempt: int, max: int, e: Error)
    ensures LoggedEntries(CatchActions(attempt, max, e)) ==
      [LogEntry(Pending, AttemptFailed(attempt, e), NoDetails)]
      + if attempt < max then [LogEntry(Pending, Retrying(attempt + 1, max), NoDetails)]
        else [LogEntry(Failed, FailedAfterMaxRetries, ErrorDetails(e))]
  {
    var c := CatchActions(attempt, max, e);
    AppendLogged([c[0]], c[1]);
    assert [c[0]] == [] + [c[0]];
    assert [c[0]] + [c[1]] == c;
  }

  /** A run that throws while attempts remain keeps the entries it appended,
      adds "attempt failed" and "retrying" entries, both `pending`, and leaves
      the row `pending`. */
  lemma RetriedRun(o: Order, job: Job, quote: Quote, txHash: string, f: Fault)
    requires job.attemptsMade + 1 < MaxAttempts(job.attempts)
    ensures var n, max := job.attemptsMade + 1, MaxAttempts(job.attempts);
      var r := Exec(o, RunActions(job, quote, txHash, Some(f)));
      && Entries(r) == ExistingLogs(o.logs) + LoggedEntries(Steps(quote, txHash, f.step))
           + [ LogEntry(Pending, AttemptFailed(n, StepError(f.message)), NoDetails),
               LogEntry(Pending, Retrying(n + 1, max), NoDetails) ]
      && r.status == Pending
  {
    FailedRun(o, job, quote, txHash, f);
    CatchLogs(job.attemptsMade + 1, MaxAttempts(job.attempts), StepError(f.message));
  }

  /** A run that throws on its last attempt keeps the entries it appended, adds
      a `pending` "attempt failed" entry and a `failed` entry carrying the
      error, and leaves the row `failed`. */
  lemma TerminalRun(o: Order, job: Job, quote: Quote, txHash: string, f: Fault)
    requires job.attemptsMade + 1 >= MaxAttempts(job.attempts)
    ensures var n := job.attemptsMade + 1;
      var r := Exec(o, RunActions(job, quote, txHash, Some(f)));
      && Entries(r) == ExistingLogs(o.logs) + LoggedEntries(Steps(quote, txHash, f.step))
           + [ LogEntry(Pending, AttemptFailed(n, StepError(f.message)), NoDetails),
               LogEntry(Failed, FailedAfterMaxRetries, ErrorDetails(StepError(f.message))) ]
      && r.status == Failed
  {
    FailedRun(o, job, quote, txHash, f);
    CatchLogs(job.attemptsMade + 1, MaxAttempts(job.attempts), StepError(f.message));
  }

  /** A run that throws keeps the entries of the completed steps, adds the
      catch block's entries after them and ends with `FinalStatus`. */
  lemma FailedRun(o: Order, job: Job, quote: Quote, txHash: string, f: Fault)
    ensures var n, max := job.attemptsMade + 1, MaxAttempts(job.attempts);
      var acts := RunActions(job, quote, txHash, Some(f));
      && Entries(Exec(o, acts)) == ExistingLogs(o.logs) + LoggedEntries(Steps(quote, txHash, f.step))
           + LoggedEntries(CatchActions(n, max, StepError(f.message)))
      && Exec(o, acts).status == FinalStatus(job, Some(f))
  {
    var n, max := job.attemptsMade + 1, MaxAttempts(job.attempts);
    var tried := Steps(quote, txHash, f.step);
    var c := CatchActions(n, max, StepError(f.message));
    var acts := RunActions(job, quote, txHash, Some(f));
    assert acts == tried + c;
    ExecAppend(o, tried, c);
    ExecAppendsLoggedEntries(o, acts);
    CatchLogs(n, max, StepError(f.message));
    var logged := LoggedEntries(acts);
    assert logged == LoggedEntries(tried) + LoggedEntries(c);
    assert ExistingLogs(o.logs) + logged == ExistingLogs(o.logs) + LoggedEntries(tried) + LoggedEntries(c);
    assert logged[|logged| - 1] == LoggedEntries(c)[1];
    ExecKeepsInSync(o, acts);
  }

  /** Whatever happens in a run on an existing row, the row ends with the status
      `FinalStatus` names, that status is its last entry's, its earlier log is
      kept as a prefix, and one snapshot is published per entry appended. */
  lemma RunEndsInFinalStatus(o: Order, job: Job, quote: Quote, txHash: string, fault: Option<Fault>)
    ensures var acts := RunActions(job, quote, txHash, fault);
      && Exec(o, acts).status == FinalStatus(job, fault)
      && InSync(Exec(o, acts))
      && ExistingLogs(o.logs) <= Entries(Exec(o, acts))
      && |Snapshots(o, acts)| == |Entries(Exec(o, acts))| - |ExistingLogs(o.logs)|
  {
    var acts := RunActions(job, quote, txHash, fault);
    ExecAppendsLoggedEntries(o, acts);
    ExecKeepsInSync(o, acts);
    if fault.None? {
      assert acts == Plan(quote, txHash);
      SuccessfulRun(o, quote, txHash);
    } else {
      FailedRun(o, job, quote, txHash, fault.value);
    }
  }

  /** A run is its completed try-block steps, followed by the catch block when it threw. */
  lemma RunComposes(o: Order, job: Job, quote: Quote, txHash: string, fault: Option<Fault>, open: bool)
    ensures var done, acts := Steps(quote, txHash, Reached(fault)), RunActions(job, quote, txHash, fault);
      && (fault.None? ==> acts == done)
      && (fault.Some? ==>
           var c := CatchActions(job.attemptsMade + 1, MaxAttempts(job.attempts), StepError(fault.value.message));
           && Exec(o, acts) == Exec(Exec(o, done), c)
           && Published(o, acts, open) == Published(o, done, open) + Published(Exec(o, done), c, open))
      && Exec(o, acts).status == FinalStatus(job, fault)
  {
    var done := Steps(quote, txHash, Reached(fault));
    if fault.None? {
      assert RunActions(job, quote, txHash, fault) == done + [];
    } else {
      var c := CatchActions(job.attemptsMade + 1, MaxAttempts(job.attempts), StepError(fault.value.message));
      assert RunActions(job, quote, txHash, fault) == done + c;
      PublishedAppend(o, done, c, open);
    }
    RunEndsInFinalStatus(o, job, quote, txHash, fault);
  }

  /** The store and the outbox after the try block and, when it threw, the
      catch block are the store and the outbox after the whole run. */
  lemma RunOnStore(rows: map<OrderId, Order>, base: seq<Order>, job: Job, quote: Quote, txHash: string,
                   fault: Option<Fault>, open: bool, mid: map<OrderId, Order>, out: seq<Order>,
                   fin: map<OrderId, Order>, finOut: seq<Order>)
    requires job.data.orderId in rows
    requires var id := job.data.orderId;
      var done := Steps(quote, txHash, Reached(fault));
      mid == rows[id := Exec(rows[id], done)] && out == base + Published(rows[id], done, open)
    requires fault.None? ==> fin == mid && finOut == out
    requires fault.Some? ==>
      var id := job.data.orderId;
      var c := CatchActions(job.attemptsMade + 1, MaxAttempts(job.attempts), StepError(fault.value.message));
      id in mid && fin == mid[id := Exec(mid[id], c)] && finOut == out + Published(mid[id], c, open)
    ensures var id := job.data.orderId;
      var acts := RunActions(job, quote, txHash, fault);
      && fin == rows[id := Exec(rows[id], acts)]
      && finOut == base + Published(rows[id], acts, open)
      && fin[id].status == FinalStatus(job, fault)
  {
    var id, o := job.data.orderId, rows[job.data.orderId];
    var done := Steps(quote, txHash, Reached(fault));
    var acts := RunActions(job, quote, txHash, fault);
    if fault.Some? {
      var c := CatchActions(job.attemptsMade + 1, MaxAttempts(job.attempts), StepError(fault.value.message));
      assert acts == done + c;
      StoreCompose(rows, base, id, o, done, c, open, mid, out, fin, finOut);
    } else {
      assert acts == done + [] == done;
    }
    assert fin == rows[id := Exec(o, acts)];
    RunEndsInFinalStatus(o, job, quote, txHash, fault);
    assert fin[id] == Exec(o, acts);
  }

  /** Performing `done` and then `c` on one row of the store is performing
      `done + c` on it. */
  lemma StoreCompose(rows: map<OrderId, Order>, base: seq<Order>, id: OrderId, o: Order,
                     done: seq<Action>, c: seq<Action>, open: bool, mid: map<OrderId, Order>, out: seq<Order>,
                     fin: map<OrderId, Order>, finOut: seq<Order>)
    requires mid == rows[id := Exec(o, done)] && out == base + Published(o, done, open)
    requires fin == mid[id := Exec(mid[id], c)] && finOut == out + Published(mid[id], c, open)
    ensures fin == rows[id := Exec(o, done + c)] && finOut == base + Published(o, done + c, open)
  {
    assert mid[id] == Exec(o, done);
    PublishedAppend(o, done, c, open);
    var row := Exec(o, done + c);
    assert fin == mid[id := row];
    assert fin == rows[id := row];
    assert finOut == base + (Published(o, done, open) + Published(mid[id], c, open));
  }

  /** The catch block's writes, performed on the row the try block left: they
      publish two snapshots, the second being the final row. */
  lemma CatchRows(mid: Order, attempt: int, max: int, e: Error)
    ensures var c := CatchActions(attempt, max, e);
      var first := AddEntry(mid, c[0].entry);
      && Exec(mid, c) == AddEntry(first, c[1].entry)
      && Snapshots(mid, c) == [first, AddEntry(first, c[1].entry)]
  {
    var c := CatchActions(attempt, max, e);
    AppendFacts(mid, [], c[0], true);
    AppendFacts(mid, [c[0]], c[1], true);
    assert [] + [c[0]] == [c[0]];
    assert [c[0]] + [c[1]] == c;
  }

  // ---------------------------------------------------------------------------
  // The worker process

  /** The worker: the store it writes, the updates it has sent to the server
      over its `/worker` socket, and whether that socket is open. */
  class Worker {
    const db: OrderStore
    var outbox: seq<Order>
    var serverOpen: bool

    constructor (db: OrderStore, serverOpen: bool)
      ensures this.db == db && this.serverOpen == serverOpen && outbox == []
    {
      this.db := db;
      this.serverOpen := serverOpen;
      outbox := [];
    }

    /** sendOrderUpdate: the snapshot goes out only while the socket is open;
        otherwise it is dropped, not buffered. */
    method SendOrderUpdate(order: Order)
      modifies this`outbox
      ensures outbox == old(outbox) + (if serverOpen then [order] else [])
    {
      if serverOpen {
        outbox := outbox + [order];
      }
    }

    /** addLog: read the row's log back (a non-array reads as empty), write the
        log with one entry appended together with the entry's status, and
        publish the row as written. Fails, writing and sending nothing, when
        the row does not exist. */
    method AddLog(orderId: OrderId, status: OrderStatus, message: LogMessage, details: Details)
      returns (ok: bool)
      requires db.Valid()
      modifies this`outbox, db
      ensures db.Valid()
      ensures ok == (orderId in old(db.orders))
      ensures db.orders == if ok then old(db.orders)[orderId := AddEntry(old(db.orders)[orderId], LogEntry(status, message, details))]
                           else old(db.orders)
      ensures outbox == old(outbox) + (if ok && serverOpen then [db.orders[orderId]] else [])
    {
      if orderId !in db.orders {
        return false;
      }
      var order := db.orders[orderId];
      var existingLogs := ExistingLogs(order.logs);
      var updatedLogs := existingLogs + [LogEntry(status, message, details)];
      var updatedOrder := order.(logs := LogArray(updatedLogs), status := status);
      db.orders := db.orders[orderId := updatedOrder];
      SendOrderUpdate(updatedOrder);
      ok := true;
    }

    /** The update that stores the best quote on the row. */
    method StoreQuote(orderId: OrderId, quote: Quote) returns (ok: bool)
      requires db.Valid()
      modifies db
      ensures db.Valid()
      ensures ok == (orderId in old(db.orders))
      ensures db.orders == if ok then old(db.orders)[orderId := Apply(old(db.orders)[orderId], StoreBestQuote(quote))]
                           else old(db.orders)
    {
      if orderId !in db.orders {
        return false;
      }
      db.orders := db.orders[orderId := db.orders[orderId].(bestQuote := StoredQuote(quote))];
      ok := true;
    }

    /** The update that stores the transaction hash on the row. */
    method StoreTxHash(orderId: OrderId, txHash: string) returns (ok: bool)
      requires db.Valid()
      modifies db
      ensures db.Valid()
      ensures ok == (orderId in old(db.orders))
      ensures db.orders == if ok then old(db.orders)[orderId := Apply(old(db.orders)[orderId], Action.StoreTxHash(txHash))]
                           else old(db.orders)
    {
      if orderId !in db.orders {
        return false;
      }
      db.orders := db.orders[orderId := db.orders[orderId].(txHash := Some(txHash))];
      ok := true;
    }

    /** The row has gone through the steps `done` since the store held `rows`
        and the outbox held `base`. */
    ghost predicate Performed(rows: map<OrderId, Order>, base: seq<Order>, orderId: OrderId, o: Order, done: seq<Action>)
      reads this, db
    {
      && db.orders == rows[orderId := Exec(o, done)]
      && outbox == base + Published(o, done, serverOpen)
    }

    /** One awaited call of the try block on a row that exists: an addLog,
        the quote lookup (which does not touch the store) or one of the two
        updates. */
    method Perform(orderId: OrderId, a: Action)
      requires orderId in db.orders
      requires db.Valid()
      modifies this`outbox, db
      ensures db.Valid()
      ensures db.orders == old(db.orders)[orderId := Apply(old(db.orders)[orderId], a)]
      ensures outbox == old(outbox) + (if serverOpen && a.Log? then [db.orders[orderId]] else [])
    {
      var ok;
      match a
      case Log(e) =>
        ok := AddLog(orderId, e.status, e.message, e.details);
      case FetchQuote =>
        // dexRouter.getBestQuote: its answer is an input of the run
        assert db.orders[orderId := Apply(db.orders[orderId], a)] == db.orders;
      case StoreBestQuote(quote) =>
        ok := StoreQuote(orderId, quote);
      case StoreTxHash(txHash) =>
        ok := StoreTxHash(orderId, txHash);
    }

    /** Step `k` of the try block, on a row that has gone through `done`: it
        throws the fault's error if the fault is at `k`, and otherwise performs
        `a`. */
    method RunStep(orderId: OrderId, a: Action, fault: Option<Fault>, k: nat,
      ghost rows: map<OrderId, Order>, ghost base: seq<Order>, ghost o: Order, ghost done: seq<Action>)
      returns (err: Option<Error>)
      requires Performed(rows, base, orderId, o, done)
      requires db.Valid()
      modifies this`outbox, db
      ensures db.Valid()
      ensures Performed(rows, base, orderId, o, if Throws(fault, k) then done else done + [a])
      ensures err == (if Throws(fault, k) then Some(StepError(fault.value.message)) else None)
    {
      if Throws(fault, k) {
        return Some(StepError(fault.value.message));
      }
      ghost var before, sent := db.orders, outbox;
      assert orderId in before && before[orderId] == Exec(o, done);
      Perform(orderId, a);
      AppendFacts(o, done, a, serverOpen);
      ghost var row := Exec(o, done + [a]);
      assert db.orders == rows[orderId := row] by {
        assert db.orders == before[orderId := row];
      }
      assert outbox == base + Published(o, done + [a], serverOpen) by {
        assert outbox == sent + (if serverOpen && a.Log? then [row] else []);
      }
      err := None;
    }

    /** The try block of the processor. On an existing row it performs the
        steps before the faulting one and throws the fault's error, or performs
        all ten and throws nothing. On a missing row the first write throws. */
    method TrySteps(orderId: OrderId, quote: Quote, txHash: string, fault: Option<Fault>)
      returns (err: Option<Error>)
      requires db.Valid()
      modifies this`outbox, db
      ensures db.Valid()
      ensures orderId in old(db.orders) ==>
        var done := Steps(quote, txHash, Reached(fault));
        && db.orders == old(db.orders)[orderId := Exec(old(db.orders)[orderId], done)]
        && outbox == old(outbox) + Published(old(db.orders)[orderId], done, serverOpen)
        && err == (if fault.None? then None else Some(StepError(fault.value.message)))
      ensures orderId !in old(db.orders) ==>
        && db.orders == old(db.orders) && outbox == old(outbox)
        && err == Some(if Throws(fault, 0) then StepError(fault.value.message) else RecordNotFound(orderId))
    {
      ghost var rows, base := db.orders, outbox;
      if orderId !in db.orders {
        // the first write throws: nothing is written or sent
        if Throws(fault, 0) { return Some(StepError(fault.value.message)); }
        var ok := AddLog(orderId, Pending, OrderReceived, NoDetails);
        return Some(RecordNotFound(orderId));
      }
      ghost var o := rows[orderId];
      assert rows[orderId := o] == rows;
      err := TryQuote(orderId, quote, txHash, fault, rows, base, o);
      if err.Some? { return; }
      err := TryTransaction(orderId, quote, txHash, fault, rows, base, o);
      if err.Some? { return; }
      err := TryConfirm(orderId, quote, txHash, fault, rows, base, o);
    }

    /** Steps 1 and 2 of the try block: receive the order, then fetch, store
        and announce the best quote. */
    method TryQuote(orderId: OrderId, quote: Quote, txHash: string, fault: Option<Fault>,
      ghost rows: map<OrderId, Order>, ghost base: seq<Order>, ghost o: Order)
      returns (err: Option<Error>)
      requires Performed(rows, base, orderId, o, [])
      requires db.Valid()
      modifies this`outbox, db
      ensures db.Valid()
      ensures Performed(rows, base, orderId, o, Steps(quote, txHash, Upto(fault, 5)))
      ensures err == if fault.Some? && fault.value.step < 5 then Some(StepError(fault.value.message)) else None
    {
      assert Steps(quote, txHash, 0) == [];
      // 1. Pending
      err := RunStep(orderId, Log(LogEntry(Pending, OrderReceived, NoDetails)), fault, 0, rows, base, o, Steps(quote, txHash, 0));
      if err.Some? { return; }
      // 2. Routing
      err := RunStep(orderId, Log(LogEntry(Routing, ComparingPrices, NoDetails)), fault, 1, rows, base, o, Steps(quote, txHash, 1));
      if err.Some? { return; }
      err := RunStep(orderId, FetchQuote, fault, 2, rows, base, o, Steps(quote, txHash, 2));
      if err.Some? { return; }
      err := RunStep(orderId, StoreBestQuote(quote), fault, 3, rows, base, o, Steps(quote, txHash, 3));
      if err.Some? { return; }
      err := RunStep(orderId, Log(LogEntry(Routing, BestQuoteFound(quote.dex, quote.price), QuoteDetails(quote))), fault, 4, rows, base, o, Steps(quote, txHash, 4));
    }

    /** Steps 3 to 5 of the try block: build, sign and send the transaction. */
    method TryTransaction(orderId: OrderId, quote: Quote, txHash: string, fault: Option<Fault>,
      ghost rows: map<OrderId, Order>, ghost base: seq<Order>, ghost o: Order)
      returns (err: Option<Error>)
      requires Performed(rows, base, orderId, o, Steps(quote, txHash, 5))
      requires !(fault.Some? && fault.value.step < 5)
      requires db.Valid()
      modifies this`outbox, db
      ensures db.Valid()
      ensures Performed(rows, base, orderId, o, Steps(quote, txHash, Upto(fault, 8)))
      ensures err == if fault.Some? && fault.value.step < 8 then Some(StepError(fault.value.message)) else None
    {
      // 3. Building
      err := RunStep(orderId, Log(LogEntry(Building, CreatingTransaction, NoDetails)), fault, 5, rows, base, o, Steps(quote, txHash, 5));
      if err.Some? { return; }
      // 4. Signing
      err := RunStep(orderId, Log(LogEntry(Signing, SigningTransaction, NoDetails)), fault, 6, rows, base, o, Steps(quote, txHash, 6));
      if err.Some? { return; }
      // 5. Sending
      err := RunStep(orderId, Log(LogEntry(Sending, TransactionSent, NoDetails)), fault, 7, rows, base, o, Steps(quote, txHash, 7));
    }

    /** Step 6 of the try block: store the transaction hash and confirm. */
    method TryConfirm(orderId: OrderId, quote: Quote, txHash: string, fault: Option<Fault>,
      ghost rows: map<OrderId, Order>, ghost base: seq<Order>, ghost o: Order)
      returns (err: Option<Error>)
      requires Performed(rows, base, orderId, o, Steps(quote, txHash, 8))
      requires !(fault.Some? && fault.value.step < 8)
      requires db.Valid()
      modifies this`outbox, db
      ensures db.Valid()
      ensures Performed(rows, base, orderId, o, Steps(quote, txHash, Reached(fault)))
      ensures err == if fault.None? then None else Some(StepError(fault.value.message))
    {
      // 6. Confirmed
      err := RunStep(orderId, Action.StoreTxHash(txHash), fault, 8, rows, base, o, Steps(quote, txHash, 8));
      if err.Some? { return; }
      err := RunStep(orderId, Log(LogEntry(Confirmed, TransactionSuccessful, TxDetails(txHash))), fault, 9, rows, base, o, Steps(quote, txHash, 9));
    }

    /** The catch block after the try block threw `err`: log the failed
        attempt, then a retry notice while attempts remain or the terminal
        failure with the error, and rethrow `err` either way. A missing row
        makes the first write throw instead. */
    method CatchBlock(job: Job, err: Error) returns (r: JobOutcome)
      requires db.Valid()
      modifies this`outbox, db
      ensures db.Valid()
      ensures var orderId, c := job.data.orderId, CatchActions(job.attemptsMade + 1, MaxAttempts(job.attempts), err);
        if orderId in old(db.orders) then
          && db.orders == old(db.orders)[orderId := Exec(old(db.orders)[orderId], c)]
          && outbox == old(outbox) + Published(old(db.orders)[orderId], c, serverOpen)
          && r == Threw(err)
        else
          db.orders == old(db.orders) && outbox == old(outbox) && r == Threw(RecordNotFound(orderId))
    {
      var orderId := job.data.orderId;
      ghost var rows := db.orders;
      var currentAttempt := job.attemptsMade + 1;
      var maxAttempts := MaxAttempts(job.attempts);
      var ok := AddLog(orderId, Pending, AttemptFailed(currentAttempt, err), NoDetails);
      if !ok {
        return Threw(RecordNotFound(orderId));
      }
      if currentAttempt < maxAttempts {
        ok := AddLog(orderId, Pending, Retrying(currentAttempt + 1, maxAttempts), NoDetails);
      } else {
        ok := AddLog(orderId, Failed, FailedAfterMaxRetries, ErrorDetails(err));
      }
      r := if ok then Threw(err) else Threw(RecordNotFound(orderId));
      CatchRows(rows[orderId], currentAttempt, maxAttempts, err);
    }

    /** The job processor: the try block, then the catch block if it threw.
        The whole run on an existing row is `RunActions`: the row ends with
        `FinalStatus` and one snapshot is published per entry appended. On a
        missing row nothing is written and the store's not-found error escapes. */
    method Process(job: Job, quote: Quote, txHash: string, fault: Option<Fault>) returns (r: JobOutcome)
      requires db.Valid()
      modifies this`outbox, db
      ensures db.Valid()
      ensures r == RunOutcome(job, fault, job.data.orderId in old(db.orders))
      ensures job.data.orderId in old(db.orders) ==>
        var o := old(db.orders)[job.data.orderId];
        var acts := RunActions(job, quote, txHash, fault);
        && db.orders == old(db.orders)[job.data.orderId := Exec(o, acts)]
        && outbox == old(outbox) + Published(o, acts, serverOpen)
        && db.orders[job.data.orderId].status == FinalStatus(job, fault)
      ensures job.data.orderId !in old(db.orders) ==> db.orders == old(db.orders) && outbox == old(outbox)
    {
      var orderId := job.data.orderId;
      ghost var rows, base := db.orders, outbox;
      var err := TrySteps(orderId, quote, txHash, fault);
      ghost var mid, out := db.orders, outbox;
      if err.None? {
        r := Succeeded(orderId);
      } else {
        r := CatchBlock(job, err.value);
      }
      if orderId in rows {
        RunOnStore(rows, base, job, quote, txHash, fault, serverOpen, mid, out, db.orders, outbox);
      }
    }
  }
}
