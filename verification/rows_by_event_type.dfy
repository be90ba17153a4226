/** The wallet rows and payment counters after any pass, read off the log by the names
    of its event types. */
module RowsByEventType {
  import opened Optional
  import opened EventLog
  import opened Projection
  import opened ProjectionTheorems

  // ---------- wallets ----------

  /** A movement of the wallet, told from the payload alone. */
  predicate NamesWallet(e: EventRecord, u: string, c: string)
  {
    e.payload.WalletMovement? && e.payload.userID == u && e.payload.currency == c
  }

  /** The amounts of the wallet's events of one type, added up. */
  function SumOfType(log: seq<EventRecord>, eventType: string, u: string, c: string): int
  {
    if log == [] then 0
    else
      var last := log[|log| - 1];
      SumOfType(log[..|log| - 1], eventType, u, c)
        + (if last.eventType == eventType && NamesWallet(last, u, c) then last.payload.amount else 0)
  }

  function CountOfType(log: seq<EventRecord>, eventType: string, u: string, c: string): (n: nat)
    ensures n <= |log|
  {
    if log == [] then 0
    else
      var last := log[|log| - 1];
      CountOfType(log[..|log| - 1], eventType, u, c)
        + (if last.eventType == eventType && NamesWallet(last, u, c) then 1 else 0)
  }

  /** The events of the wallet that are deductions, credits or refunds. */
  function MovementCount(log: seq<EventRecord>, u: string, c: string): nat
  {
    CountOfType(log, "WalletDeducted", u, c) + CountOfType(log, "WalletCredited", u, c)
      + CountOfType(log, "WalletRefunded", u, c)
  }

  predicate IsMovement(e: EventRecord, u: string, c: string)
  {
    NamesWallet(e, u, c) && e.eventType in {"WalletDeducted", "WalletCredited", "WalletRefunded"}
  }

  function LastMovement(log: seq<EventRecord>, u: string, c: string): Option<EventRecord>
  {
    if log == [] then None
    else if IsMovement(log[|log| - 1], u, c) then Some(log[|log| - 1])
    else LastMovement(log[..|log| - 1], u, c)
  }

  lemma MovesByName(e: EventRecord, u: string, c: string)
    ensures MovesWallet(e, u, c) <==> IsMovement(e, u, c)
  {
    HandlerByName(e.eventType);
  }

  /** One more event: what it adds to each sum and count. */
  lemma NextByName(log: seq<EventRecord>, e: EventRecord, u: string, c: string)
    ensures var one := if IsMovement(e, u, c) then 1 else 0;
      var amount := if IsMovement(e, u, c) then e.payload.amount else 0;
      var debit := e.eventType == "WalletDeducted";
      && MovementCount(log + [e], u, c) == MovementCount(log, u, c) + one
      && SumOfType(log + [e], "WalletDeducted", u, c)
         == SumOfType(log, "WalletDeducted", u, c) + (if debit then amount else 0)
      && SumOfType(log + [e], "WalletCredited", u, c) + SumOfType(log + [e], "WalletRefunded", u, c)
         == SumOfType(log, "WalletCredited", u, c) + SumOfType(log, "WalletRefunded", u, c)
            + (if debit then 0 else amount)
  {
    assert (log + [e])[..|log + [e]| - 1] == log;
    HandlerByName(e.eventType);
    assert "WalletCredited"[6] != "WalletRefunded"[6];
  }

  /** The movements that the rows are made from, by name. */
  lemma {:induction false} MovementsByName(log: seq<EventRecord>, u: string, c: string)
    ensures var ms := Movements(log, u, c);
      && |ms| == MovementCount(log, u, c)
      && Debits(ms) == SumOfType(log, "WalletDeducted", u, c)
      && Credits(ms) == SumOfType(log, "WalletCredited", u, c) + SumOfType(log, "WalletRefunded", u, c)
      && LastMovement(log, u, c) == (if ms == [] then None else Some(ms[|ms| - 1]))
    decreases |log|
  {
    if log != [] {
      var front, e := log[..|log| - 1], log[|log| - 1];
      assert log == front + [e];
      MovementsByName(front, u, c);
      NextByName(front, e, u, c);
      MovesByName(e, u, c);
      HandlerByName(e.eventType);
      assert OfWallet(u, c)(e) == MovesWallet(e, u, c);
      var ms := Movements(front, u, c);
      if MovesWallet(e, u, c) {
        assert Movements(log, u, c) == ms + [e];
        assert (ms + [e])[..|ms + [e]| - 1] == ms;
      } else {
        assert Movements(log, u, c) == ms;
      }
    }
  }

  /** After any pass with no colon in a user id, a wallet's rows are there exactly when
      the log has a deduction, credit or refund of it.  Then its debits are the amounts
      of its WalletDeducted events, its credits those of its WalletCredited and
      WalletRefunded events, and both rows hold what the last of them says. */
  lemma WalletRowsByType(log: seq<EventRecord>, u: string, c: string)
    requires AllDecode(log) && NoColons(log, u)
    ensures var rows := ProcessAll(map[], log);
      match LastMovement(log, u, c)
      case None => BalanceKey(u, c) !in rows && SummaryKey(u, c) !in rows && MovementCount(log, u, c) == 0
      case Some(last) =>
        && last.payload.WalletMovement?
        && BalanceKey(u, c) in rows && SummaryKey(u, c) in rows
        && rows[BalanceKey(u, c)] == OfBalance(BalanceRow(
             u, c, last.payload.newBalance, last.createdAt, last.version, MovementCount(log, u, c)))
        && rows[SummaryKey(u, c)] == OfSummary(SummaryRow(
             u, c, last.payload.newBalance,
             SumOfType(log, "WalletCredited", u, c) + SumOfType(log, "WalletRefunded", u, c),
             SumOfType(log, "WalletDeducted", u, c),
             MovementCount(log, u, c), last.createdAt, last.sequence))
  {
    WalletRowsAgree(log, u, c);
    MovementsByName(log, u, c);
  }

  // ---------- payment counters ----------

  function StartsOf(log: seq<EventRecord>, u: string): nat
  {
    if log == [] then 0
    else
      var last := log[|log| - 1];
      StartsOf(log[..|log| - 1], u)
        + (if last.eventType == "PaymentInitiated" && last.payload.PaymentStart? && last.payload.userID == u then 1
           else 0)
  }

  /** The amounts of those payments, added up. */
  function StartedAmount(log: seq<EventRecord>, u: string): int
  {
    if log == [] then 0
    else
      var last := log[|log| - 1];
      StartedAmount(log[..|log| - 1], u)
        + (if last.eventType == "PaymentInitiated" && last.payload.PaymentStart? && last.payload.userID == u
           then last.payload.amount else 0)
  }

  /** The payments ended by events of one type that the user caused. */
  function EndsOf(log: seq<EventRecord>, eventType: string, u: string): nat
  {
    if log == [] then 0
    else
      var last := log[|log| - 1];
      EndsOf(log[..|log| - 1], eventType, u) + (if last.eventType == eventType && last.causedBy == u then 1 else 0)
  }

  /** Payments started less payments ended. */
  function Open(log: seq<EventRecord>, u: string): int
  {
    StartsOf(log, u) - EndsOf(log, "PaymentCompleted", u) - EndsOf(log, "PaymentFailed", u)
  }

  /** The least `Open` of any prefix of the log. */
  function LeastOpen(log: seq<EventRecord>, u: string): int
  {
    if log == [] then 0
    else
      var before := LeastOpen(log[..|log| - 1], u);
      if Open(log, u) < before then Open(log, u) else before
  }

  /** The payment events that count for the user, and the log they are selected from, say the same. */
  predicate Agree(es: seq<EventRecord>, log: seq<EventRecord>, u: string)
  {
    && CountOf(es, Initiated) == StartsOf(log, u)
    && CountOf(es, Completed) == EndsOf(log, "PaymentCompleted", u)
    && CountOf(es, Failed) == EndsOf(log, "PaymentFailed", u)
    && Initiations(es) == StartedAmount(log, u)
  }

  lemma CountNext(es: seq<EventRecord>, e: EventRecord, h: Handler)
    ensures CountOf(es + [e], h) == CountOf(es, h) + (if HandlerOf(e.eventType) == h then 1 else 0)
  {
    assert (es + [e])[..|es + [e]| - 1] == es;
  }

  lemma StartsNext(log: seq<EventRecord>, e: EventRecord, u: string)
    ensures StartsOf(log + [e], u)
         == StartsOf(log, u) + (if HandlerOf(e.eventType).Initiated? && Payer(e) == Some(u) then 1 else 0)
  {
    assert (log + [e])[..|log + [e]| - 1] == log;
    HandlerByName(e.eventType);
  }

  lemma StartedAmountNext(es: seq<EventRecord>, log: seq<EventRecord>, e: EventRecord, u: string)
    requires Initiations(es) == StartedAmount(log, u)
    ensures Initiations(if Payer(e) == Some(u) then es + [e] else es) == StartedAmount(log + [e], u)
  {
    assert (log + [e])[..|log + [e]| - 1] == log;
    assert (es + [e])[..|es + [e]| - 1] == es;
    HandlerByName(e.eventType);
  }

  lemma EndsNext(log: seq<EventRecord>, e: EventRecord, eventType: string, h: Handler, u: string)
    requires e.eventType == eventType <==> HandlerOf(e.eventType) == h
    requires h.Completed? || h.Failed?
    ensures EndsOf(log + [e], eventType, u)
         == EndsOf(log, eventType, u) + (if HandlerOf(e.eventType) == h && Payer(e) == Some(u) then 1 else 0)
  {
    assert (log + [e])[..|log + [e]| - 1] == log;
  }

  /** One more event counts alike in both. */
  lemma AgreeNext(es: seq<EventRecord>, log: seq<EventRecord>, e: EventRecord, u: string)
    requires Agree(es, log, u)
    ensures Agree(if Payer(e) == Some(u) then es + [e] else es, log + [e], u)
  {
    HandlerByName(e.eventType);
    StartsNext(log, e, u);
    StartedAmountNext(es, log, e, u);
    EndsNext(log, e, "PaymentCompleted", Completed, u);
    EndsNext(log, e, "PaymentFailed", Failed, u);
    CountNext(es, e, Initiated);
    CountNext(es, e, Completed);
    CountNext(es, e, Failed);
  }

  lemma {:induction false} PaymentsByName(log: seq<EventRecord>, u: string)
    ensures Agree(PaymentsOf(log, u), log, u)
    ensures LowWater(PaymentsOf(log, u)) == LeastOpen(log, u)
    decreases |log|
  {
    if log != [] {
      var front, e := log[..|log| - 1], log[|log| - 1];
      var es := PaymentsOf(front, u);
      assert log == front + [e];
      PaymentsByName(front, u);
      assert OfPayer(u)(e) == (Payer(e) == Some(u));
      AgreeNext(es, front, e, u);
      if Payer(e) == Some(u) {
        assert PaymentsOf(log, u) == es + [e];
        assert (es + [e])[..|es + [e]| - 1] == es;
      } else {
        LowWaterBelow(es);
        assert PaymentsOf(log, u) == es;
      }
    }
  }

  /** After any pass in any order, a user's total, completed and failed are the numbers
      of its PaymentInitiated events and of the PaymentCompleted and PaymentFailed events
      it caused, and pending is how far those open exceed their least number so far. */
  lemma PaymentCountersByType(log: seq<EventRecord>, u: string)
    requires AllDecode(log)
    ensures var s := StatusAt(ProcessAll(map[], log), u);
      && s.total == StartsOf(log, u)
      && s.completed == EndsOf(log, "PaymentCompleted", u)
      && s.failed == EndsOf(log, "PaymentFailed", u)
      && s.totalAmount == StartedAmount(log, u)
      && s.pending == Open(log, u) - LeastOpen(log, u) >= 0
  {
    StatusRowAgrees(log, u);
    PaymentsByName(log, u);
    LowWaterBelow(PaymentsOf(log, u));
  }
}
