/** The projector as objects: a store of rows, handlers that read and rewrite them,
    retries, and the checkpoint. */
module ReadModels {
  import opened Optional
  import opened EventLog
  import opened Projection

  class MemoryReadModelStore {
    var data: Rows

    constructor ()
      ensures data == map[]
    {
      data := map[];
    }

    method Set(key: string, value: Row)
      modifies this
      ensures data == old(data)[key := value]
    {
      data := data[key := value];
    }

    method Get(key: string) returns (r: Option<Row>)
      ensures r == if key in data then Some(data[key]) else None
    {
      if key !in data {
        return None;
      }
      return Some(data[key]);
    }
  }

  class Projector {
    const store: MemoryReadModelStore
    const maxRetries: int := 3
    var lastProcessed: int

    constructor (store: MemoryReadModelStore)
      ensures this.store == store && lastProcessed == 0
    {
      this.store, lastProcessed := store, 0;
    }

    /** The projector's position is the stored checkpoint. */
    predicate Synced()
      reads this, store
    {
      lastProcessed == CheckpointOf(store.data)
    }

    // ---------- handlers ----------

    method UpdateWalletSummary(userID: string, currency: string, amount: int, credit: bool, timestamp: int,
      sequenceNumber: int)
      modifies store
      ensures store.data == old(store.data)[SummaryKey(userID, currency) := OfSummary(SummaryRow(
          SummaryAt(old(store.data), userID, currency).userID,
          SummaryAt(old(store.data), userID, currency).currency,
          if BalanceKey(userID, currency) in old(store.data) && old(store.data)[BalanceKey(userID, currency)].OfBalance?
            then BalanceAt(old(store.data), userID, currency).balance
            else SummaryAt(old(store.data), userID, currency).currentBalance,
          SummaryAt(old(store.data), userID, currency).totalCredits + (if credit then amount else 0),
          SummaryAt(old(store.data), userID, currency).totalDebits + (if credit then 0 else amount),
          SummaryAt(old(store.data), userID, currency).transactionCount + 1,
          timestamp, sequenceNumber))]
    {
      var summary := SummaryRow(userID, currency, 0, 0, 0, 0, 0, 0);
      var row := store.Get(SummaryKey(userID, currency));
      if row.Some? && row.value.OfSummary? {
        summary := row.value.summary;
      }
      if credit {
        summary := summary.(totalCredits := summary.totalCredits + amount,
          transactionCount := summary.transactionCount + 1);
      } else {
        summary := summary.(totalDebits := summary.totalDebits + amount,
          transactionCount := summary.transactionCount + 1);
      }
      row := store.Get(BalanceKey(userID, currency));
      if row.Some? && row.value.OfBalance? {
        summary := summary.(currentBalance := row.value.balance.balance);
      }
      store.Set(SummaryKey(userID, currency),
        OfSummary(summary.(lastTransactionAt := timestamp, lastProcessedEvent := sequenceNumber)));
    }

    /** What the two wallet handlers do alike. */
    method HandleMovement(e: EventRecord, credit: bool) returns (ok: bool)
      requires Moves(e) && credit == HandlerOf(e.eventType).Credit?
      modifies store
      ensures ok == Decodes(e)
      ensures store.data == if Decodes(e) then Handle(old(store.data), e) else old(store.data)
    {
      if !e.payload.WalletMovement? {
        return false;
      }
      var u, c := e.payload.userID, e.payload.currency;
      var balance := BalanceRow(u, c, 0, 0, 0, 0);
      var row := store.Get(BalanceKey(u, c));
      if row.Some? && row.value.OfBalance? {
        balance := row.value.balance;
      }
      balance := balance.(balance := e.payload.newBalance, lastUpdated := e.createdAt,
                          lastEventVersion := e.version, transactionCount := balance.transactionCount + 1);
      store.Set(BalanceKey(u, c), OfBalance(balance));
      KeysApart(u, c, u, c, "");
      UpdateWalletSummary(u, c, e.payload.amount, credit, e.createdAt, e.sequence);
      return true;
    }

    method UpdatePaymentStatus(userID: string, e: EventRecord, amount: int)
      requires Payer(e) == Some(userID)
      requires HandlerOf(e.eventType).Initiated? ==> amount == e.payload.amount
      modifies store
      ensures store.data == old(store.data)[StatusKey(userID) := OfStatus(Counted(StatusAt(old(store.data), userID),
        e))]
    {
      var status := StatusRow(userID, 0, 0, 0, 0, 0, 0);
      var row := store.Get(StatusKey(userID));
      if row.Some? && row.value.OfStatus? {
        status := row.value.status;
      }
      if HandlerOf(e.eventType).Initiated? {
        status := status.(total := status.total + 1, pending := status.pending + 1,
          totalAmount := status.totalAmount + amount);
      } else {
        if HandlerOf(e.eventType).Completed? {
          status := status.(completed := status.completed + 1);
        } else {
          status := status.(failed := status.failed + 1);
        }
        if status.pending > 0 {
          status := status.(pending := status.pending - 1);
        }
      }
      store.Set(StatusKey(userID), OfStatus(status.(lastPaymentAt := e.createdAt)));
    }

    /** Runs the handler of an event: either it writes its rows, or it cannot read
        the payload and writes nothing. */
    method RunHandler(e: EventRecord) returns (ok: bool)
      modifies store
      ensures ok == Decodes(e)
      ensures store.data == if Decodes(e) then Handle(old(store.data), e) else old(store.data)
      ensures e.eventType !in {"WalletDeducted", "WalletCredited", "WalletRefunded",
                               "PaymentInitiated", "PaymentCompleted", "PaymentFailed"} ==>
        ok && store.data == old(store.data)
      ensures ok && e.eventType == "WalletDeducted" ==>
        && e.payload.WalletMovement?
        && var u, c := e.payload.userID, e.payload.currency;
        SummaryAt(store.data, u, c).totalDebits == SummaryAt(old(store.data), u, c).totalDebits + e.payload.amount
      ensures ok && (e.eventType == "WalletCredited" || e.eventType == "WalletRefunded") ==>
        && e.payload.WalletMovement?
        && var u, c := e.payload.userID, e.payload.currency;
        SummaryAt(store.data, u, c).totalCredits == SummaryAt(old(store.data), u, c).totalCredits + e.payload.amount
      ensures ok && e.eventType == "PaymentInitiated" ==>
        && e.payload.PaymentStart?
        && StatusAt(store.data, e.payload.userID).total == StatusAt(old(store.data), e.payload.userID).total + 1
      ensures ok && e.eventType == "PaymentCompleted" ==>
        StatusAt(store.data, e.causedBy).completed == StatusAt(old(store.data), e.causedBy).completed + 1
      ensures ok && e.eventType == "PaymentFailed" ==>
        StatusAt(store.data, e.causedBy).failed == StatusAt(old(store.data), e.causedBy).failed + 1
    {
      DecodesByName(e);
      if Decodes(e) {
        HandledByName(store.data, e);
      }
      match HandlerOf(e.eventType) {
        case Debit => ok := HandleMovement(e, false);
        case Credit => ok := HandleMovement(e, true);
        case Initiated =>
          if !e.payload.PaymentStart? {
            return false;
          }
          UpdatePaymentStatus(e.payload.userID, e, e.payload.amount);
          ok := true;
        case Completed =>
          if !e.payload.PaymentEnd? {
            return false;
          }
          UpdatePaymentStatus(e.causedBy, e, 0);
          ok := true;
        case Failed =>
          if !e.payload.PaymentEnd? {
            return false;
          }
          UpdatePaymentStatus(e.causedBy, e, 0);
          ok := true;
        case Unhandled => ok := true;
      }
    }

    // ---------- the projector ----------

    method UpdateCheckpoint(sequenceNumber: int)
      modifies this, store
      ensures Synced() && lastProcessed == sequenceNumber
      ensures store.data == old(store.data)[CHECKPOINT := OfCheckpoint(sequenceNumber)]
    {
      lastProcessed := sequenceNumber;
      store.Set(CHECKPOINT, OfCheckpoint(sequenceNumber));
    }

    method LoadCheckpoint()
      modifies this
      ensures Synced()
    {
      lastProcessed := 0;
      var row := store.Get(CHECKPOINT);
      if row.Some? && row.value.OfCheckpoint? {
        lastProcessed := row.value.lastProcessed;
      }
    }

    /** Handles an event once and moves the checkpoint; an event its handler cannot
        read is tried three times, and leaves rows and checkpoint as they were. */
    method ProcessEvent(e: EventRecord) returns (ok: bool, attempts: nat)
      requires Synced()
      modifies this, store
      ensures ok == Decodes(e) && Synced()
      ensures attempts == if HandlerOf(e.eventType).Unhandled? then 0 else if ok then 1 else 3
      ensures store.data == if ok then Process(old(store.data), e) else old(store.data)
      ensures lastProcessed == if ok then e.sequence else old(lastProcessed)
    {
      attempts := 0;
      if HandlerOf(e.eventType).Unhandled? {
        UpdateCheckpoint(e.sequence);
        return true, 0;
      }
      ok := false;
      while attempts < maxRetries && !ok
        invariant attempts <= 3 && (ok ==> Decodes(e) && attempts == 1) && (!ok && attempts > 0 ==> !Decodes(e))
        invariant store.data == if ok then Handle(old(store.data), e) else old(store.data)
        invariant lastProcessed == old(lastProcessed)
        decreases maxRetries - attempts
      {
        ok := RunHandler(e);
        attempts := attempts + 1;
      }
      if ok {
        UpdateCheckpoint(e.sequence);
      }
    }

    /** Processes events in order, up to the first failure. */
    method ProcessEvents(events: seq<EventRecord>) returns (done: nat)
      requires Synced()
      modifies this, store
      ensures Synced() && Reaches(events, done) && store.data == ProcessAll(old(store.data), events[..done])
    {
      ghost var before := store.data;
      done := 0;
      while done < |events|
        invariant done <= |events| && AllDecode(events[..done]) && Synced()
        invariant store.data == ProcessAll(before, events[..done])
      {
        var processed, _ := ProcessEvent(events[done]);
        if !processed {
          return;
        }
        ProcessTake(before, events, done);
        lastProcessed := events[done].sequence;
        done := done + 1;
      }
    }

    /** Processes what the event store answers; `inclusive` is how that store reads
        the lower bound. */
    method CatchUp(log: seq<EventRecord>, inclusive: bool) returns (ok: bool)
      requires Synced()
      modifies this, store
      ensures Synced() && store.data == Projection.CatchUp(old(store.data), log, inclusive)
      ensures ok <==> AllDecode(Fetched(log, old(lastProcessed), inclusive))
    {
      var filter := NO_FILTER;
      if lastProcessed > 0 {
        filter := filter.(fromSequence := Some(lastProcessed + 1));
      }
      var events := if inclusive then Select(log, ByPostgres(filter)) else Select(log, ByMemory(filter));
      var done := ProcessEvents(events);
      ReachIs(events, done, Reach(events));
      ok := done == |events|;
      assert ok ==> events[..done] == events;
    }

    /** A restarted projector goes on from its stored checkpoint. */
    method Start(log: seq<EventRecord>, inclusive: bool) returns (ok: bool)
      modifies this, store
      ensures Synced() && store.data == Projection.CatchUp(old(store.data), log, inclusive)
      ensures ok <==> AllDecode(Fetched(log, CheckpointOf(old(store.data)), inclusive))
    {
      LoadCheckpoint();
      ok := CatchUp(log, inclusive);
    }
  }
}
