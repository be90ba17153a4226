/** The read models as values: which rows an event writes, what a pass over a log
    builds, and how a pass resumes from the checkpoint it left. */
module Projection {
  import opened Optional
  import opened EventLog

  datatype BalanceRow = BalanceRow(
    userID: string, currency: string, balance: int, lastUpdated: int, lastEventVersion: int, transactionCount: int)

  datatype SummaryRow = SummaryRow(
    userID: string, currency: string, currentBalance: int, totalCredits: int, totalDebits: int,
    transactionCount: int, lastTransactionAt: int, lastProcessedEvent: int)

  datatype StatusRow = StatusRow(
    userID: string, total: int, completed: int, failed: int, pending: int, totalAmount: int, lastPaymentAt: int)

  datatype Row =
    | OfBalance(balance: BalanceRow)
    | OfSummary(summary: SummaryRow)
    | OfStatus(status: StatusRow)
    | OfCheckpoint(lastProcessed: int)

  type Rows = map<string, Row>

  // ---------- keys ----------

  const CHECKPOINT := "projector:checkpoint"

  function WalletPart(userID: string, currency: string): string
  {
    userID + ":" + currency
  }

  function BalanceKey(userID: string, currency: string): string
  {
    "balance:" + WalletPart(userID, currency)
  }

  function SummaryKey(userID: string, currency: string): string
  {
    "wallet_summary:" + WalletPart(userID, currency)
  }

  function StatusKey(userID: string): string
  {
    "payment_status:" + userID
  }

  /** Keys of different kinds never meet. */
  lemma KeysApart(u: string, c: string, v: string, d: string, w: string)
    ensures BalanceKey(u, c) != SummaryKey(v, d)
    ensures BalanceKey(u, c) != StatusKey(w) && SummaryKey(v, d) != StatusKey(w)
    ensures CHECKPOINT != BalanceKey(u, c) && CHECKPOINT != SummaryKey(v, d) && CHECKPOINT != StatusKey(w)
  {
    assert BalanceKey(u, c)[0] == 'b' && SummaryKey(v, d)[0] == 'w';
    assert StatusKey(w)[0] == 'p' && StatusKey(w)[1] == 'a';
    assert CHECKPOINT[0] == 'p' && CHECKPOINT[1] == 'r';
  }

  /** Two wallets of different users share a key exactly when the longer user id is
      the shorter one, a colon, and a part that the other currency begins with. */
  lemma WalletPartsMeet(u: string, c: string, v: string, d: string)
    requires |u| < |v|
    ensures WalletPart(u, c) == WalletPart(v, d)
      <==> v == u + ":" + v[|u| + 1..] && c == v[|u| + 1..] + ":" + d
  {
    var k, l, w := WalletPart(u, c), WalletPart(v, d), v[|u| + 1..];
    if k == l {
      assert k[..|u|] == u && l[..|u|] == v[..|u|];
      assert k[|u|] == ':' && l[|u|] == v[|u|];
      assert v == v[..|u|] + [v[|u|]] + w;
      assert k[|u| + 1..] == c && l[|u| + 1..] == w + ":" + d;
    }
    if v == u + ":" + w && c == w + ":" + d {
      assert l == u + ":" + w + ":" + d;
    }
  }

  lemma SameLengthPartsMeet(u: string, c: string, v: string, d: string)
    requires |u| == |v| && WalletPart(u, c) == WalletPart(v, d)
    ensures u == v && c == d
  {
    var k, l := WalletPart(u, c), WalletPart(v, d);
    assert k[..|u|] == u && l[..|v|] == v;
    assert k[|u| + 1..] == c && l[|v| + 1..] == d;
  }

  /** User ids without a colon keep every wallet's rows its own. */
  lemma OwnKey(u: string, c: string, v: string, d: string)
    requires ':' !in u && ':' !in v && WalletPart(u, c) == WalletPart(v, d)
    ensures u == v && c == d
  {
    if |u| < |v| {
      assert (u + ":" + v[|u| + 1..])[|u|] == ':';
      WalletPartsMeet(u, c, v, d);
    } else if |v| < |u| {
      assert (v + ":" + u[|v| + 1..])[|v|] == ':';
      WalletPartsMeet(v, d, u, c);
    } else {
      SameLengthPartsMeet(u, c, v, d);
    }
  }

  lemma Unprefix(p: string, x: string, y: string)
    requires p + x == p + y
    ensures x == y
  {
    assert (p + x)[|p|..] == x && (p + y)[|p|..] == y;
  }

  lemma OwnRows(u: string, c: string, v: string, d: string)
    requires ':' !in u && ':' !in v && (u != v || c != d)
    ensures BalanceKey(u, c) != BalanceKey(v, d) && SummaryKey(u, c) != SummaryKey(v, d)
  {
    if BalanceKey(u, c) == BalanceKey(v, d) {
      Unprefix("balance:", WalletPart(u, c), WalletPart(v, d));
      OwnKey(u, c, v, d);
    }
    if SummaryKey(u, c) == SummaryKey(v, d) {
      Unprefix("wallet_summary:", WalletPart(u, c), WalletPart(v, d));
      OwnKey(u, c, v, d);
    }
  }

  /** With a colon, two users can write the same rows. */
  lemma ColonUsersClash()
    ensures BalanceKey("a:b", "c") == BalanceKey("a", "b:c")
  {
    WalletPartsMeet("a", "b:c", "a:b", "c");
    assert "a:b"[2..] == "b";
  }

  // ---------- handlers ----------

  datatype Handler = Debit | Credit | Initiated | Completed | Failed | Unhandled

  function HandlerOf(eventType: string): Handler
  {
    if eventType == "WalletDeducted" then Debit
    else if eventType == "WalletCredited" || eventType == "WalletRefunded" then Credit
    else if eventType == "PaymentInitiated" then Initiated
    else if eventType == "PaymentCompleted" then Completed
    else if eventType == "PaymentFailed" then Failed
    else Unhandled
  }

  /** The event types that have a handler, by name. */
  lemma HandlerByName(eventType: string)
    ensures HandlerOf(eventType).Debit? <==> eventType == "WalletDeducted"
    ensures HandlerOf(eventType).Credit? <==> eventType == "WalletCredited" || eventType == "WalletRefunded"
    ensures HandlerOf(eventType).Initiated? <==> eventType == "PaymentInitiated"
    ensures HandlerOf(eventType).Completed? <==> eventType == "PaymentCompleted"
    ensures HandlerOf(eventType).Failed? <==> eventType == "PaymentFailed"
  {
    assert "WalletDeducted"[6] != "WalletCredited"[6] && "WalletDeducted"[6] != "WalletRefunded"[6];
    assert |"WalletDeducted"| == |"WalletCredited"| == |"WalletRefunded"| == 14;
    assert |"PaymentInitiated"| == |"PaymentCompleted"| == 16 && |"PaymentFailed"| == 13;
    assert "PaymentInitiated"[7] != "PaymentCompleted"[7];
  }

  predicate Moves(e: EventRecord)
  {
    HandlerOf(e.eventType).Debit? || HandlerOf(e.eventType).Credit?
  }

  predicate Resolves(e: EventRecord)
  {
    HandlerOf(e.eventType).Completed? || HandlerOf(e.eventType).Failed?
  }

  /** Whether the handler of an event can read its payload. */
  predicate Decodes(e: EventRecord)
  {
    match HandlerOf(e.eventType)
    case Debit => e.payload.WalletMovement?
    case Credit => e.payload.WalletMovement?
    case Initiated => e.payload.PaymentStart?
    case Completed => e.payload.PaymentEnd?
    case Failed => e.payload.PaymentEnd?
    case Unhandled => true
  }

  function BalanceAt(rows: Rows, u: string, c: string): BalanceRow
  {
    var k := BalanceKey(u, c);
    if k in rows && rows[k].OfBalance? then rows[k].balance else BalanceRow(u, c, 0, 0, 0, 0)
  }

  function SummaryAt(rows: Rows, u: string, c: string): SummaryRow
  {
    var k := SummaryKey(u, c);
    if k in rows && rows[k].OfSummary? then rows[k].summary else SummaryRow(u, c, 0, 0, 0, 0, 0, 0)
  }

  function StatusAt(rows: Rows, u: string): StatusRow
  {
    var k := StatusKey(u);
    if k in rows && rows[k].OfStatus? then rows[k].status else StatusRow(u, 0, 0, 0, 0, 0, 0)
  }

  function MovedBalance(b: BalanceRow, e: EventRecord): BalanceRow
    requires e.payload.WalletMovement?
  {
    b.(balance := e.payload.newBalance, lastUpdated := e.createdAt,
       lastEventVersion := e.version, transactionCount := b.transactionCount + 1)
  }

  function MovedSummary(s: SummaryRow, e: EventRecord): SummaryRow
    requires e.payload.WalletMovement?
  {
    s.(currentBalance := e.payload.newBalance,
       totalCredits := s.totalCredits + (if HandlerOf(e.eventType).Credit? then e.payload.amount else 0),
       totalDebits := s.totalDebits + (if HandlerOf(e.eventType).Credit? then 0 else e.payload.amount),
       transactionCount := s.transactionCount + 1,
       lastTransactionAt := e.createdAt, lastProcessedEvent := e.sequence)
  }

  function Moved(rows: Rows, e: EventRecord): Rows
    requires e.payload.WalletMovement?
  {
    var u, c := e.payload.userID, e.payload.currency;
    rows[BalanceKey(u, c) := OfBalance(MovedBalance(BalanceAt(rows, u, c), e))]
        [SummaryKey(u, c) := OfSummary(MovedSummary(SummaryAt(rows, u, c), e))]
  }

  /** The user whose payment counters an event changes: an ended payment is counted
      for whoever caused the event. */
  function Payer(e: EventRecord): Option<string>
  {
    if Resolves(e) then Some(e.causedBy)
    else if HandlerOf(e.eventType).Initiated? && e.payload.PaymentStart? then Some(e.payload.userID)
    else None
  }

  function Counted(s: StatusRow, e: EventRecord): StatusRow
    requires Payer(e).Some?
  {
    if HandlerOf(e.eventType).Initiated? then
      s.(total := s.total + 1, pending := s.pending + 1, totalAmount := s.totalAmount + e.payload.amount,
        lastPaymentAt := e.createdAt)
    else
      s.(completed := s.completed + (if HandlerOf(e.eventType).Completed? then 1 else 0),
         failed := s.failed + (if HandlerOf(e.eventType).Failed? then 1 else 0),
         pending := if s.pending > 0 then s.pending - 1 else s.pending,
         lastPaymentAt := e.createdAt)
  }

  function Handle(rows: Rows, e: EventRecord): Rows
    requires Decodes(e)
  {
    if Moves(e) then Moved(rows, e)
    else if Payer(e).Some? then rows[StatusKey(Payer(e).value) := OfStatus(Counted(StatusAt(rows, Payer(e).value), e))]
    else rows
  }

  /** What handling an event does, by the name of its type. */
  lemma HandledByName(rows: Rows, e: EventRecord)
    requires Decodes(e)
    ensures e.eventType == "WalletDeducted" ==>
      && e.payload.WalletMovement?
      && var u, c := e.payload.userID, e.payload.currency;
      var s := SummaryAt(rows, u, c);
      && SummaryAt(Handle(rows, e), u, c).totalDebits == s.totalDebits + e.payload.amount
      && SummaryAt(Handle(rows, e), u, c).totalCredits == s.totalCredits
      && BalanceAt(Handle(rows, e), u, c).balance == e.payload.newBalance
    ensures e.eventType == "WalletCredited" || e.eventType == "WalletRefunded" ==>
      && e.payload.WalletMovement?
      && var u, c := e.payload.userID, e.payload.currency;
      var s := SummaryAt(rows, u, c);
      && SummaryAt(Handle(rows, e), u, c).totalCredits == s.totalCredits + e.payload.amount
      && SummaryAt(Handle(rows, e), u, c).totalDebits == s.totalDebits
      && BalanceAt(Handle(rows, e), u, c).balance == e.payload.newBalance
    ensures e.eventType == "PaymentInitiated" ==>
      && e.payload.PaymentStart?
      && var s, s' := StatusAt(rows, e.payload.userID), StatusAt(Handle(rows, e), e.payload.userID);
      && s'.total == s.total + 1 && s'.pending == s.pending + 1 && s'.totalAmount == s.totalAmount + e.payload.amount
      && s'.completed == s.completed && s'.failed == s.failed
    ensures e.eventType == "PaymentCompleted" ==>
      var s, s' := StatusAt(rows, e.causedBy), StatusAt(Handle(rows, e), e.causedBy);
      s'.completed == s.completed + 1 && s'.failed == s.failed && s'.total == s.total && s'.pending <= s.pending
    ensures e.eventType == "PaymentFailed" ==>
      var s, s' := StatusAt(rows, e.causedBy), StatusAt(Handle(rows, e), e.causedBy);
      s'.failed == s.failed + 1 && s'.completed == s.completed && s'.total == s.total && s'.pending <= s.pending
    ensures e.eventType !in {"WalletDeducted", "WalletCredited", "WalletRefunded",
                             "PaymentInitiated", "PaymentCompleted", "PaymentFailed"} ==>
      Handle(rows, e) == rows
  {
    HandlerByName(e.eventType);
    if Moves(e) {
      KeysApart(e.payload.userID, e.payload.currency, e.payload.userID, e.payload.currency, "");
    }
  }

  /** Which payloads can be read, by the name of the event's type. */
  lemma DecodesByName(e: EventRecord)
    ensures Decodes(e) <==>
      && (e.eventType == "WalletDeducted" || e.eventType == "WalletCredited" || e.eventType == "WalletRefunded" ==>
            e.payload.WalletMovement?)
      && (e.eventType == "PaymentInitiated" ==> e.payload.PaymentStart?)
      && (e.eventType == "PaymentCompleted" || e.eventType == "PaymentFailed" ==> e.payload.PaymentEnd?)
  {
    HandlerByName(e.eventType);
  }

  /** Handling, then the checkpoint. */
  function Process(rows: Rows, e: EventRecord): Rows
    requires Decodes(e)
  {
    Handle(rows, e)[CHECKPOINT := OfCheckpoint(e.sequence)]
  }

  // ---------- passes over a log ----------

  predicate AllDecode(events: seq<EventRecord>)
  {
    forall i :: 0 <= i < |events| ==> Decodes(events[i])
  }

  function ProcessAll(rows: Rows, events: seq<EventRecord>): Rows
    requires AllDecode(events)
    decreases |events|
  {
    if events == [] then rows
    else
      var front := events[..|events| - 1];
      Process(ProcessAll(rows, front), events[|events| - 1])
  }

  lemma ProcessNext(rows: Rows, events: seq<EventRecord>, e: EventRecord)
    requires AllDecode(events) && Decodes(e)
    ensures AllDecode(events + [e]) && ProcessAll(rows, events + [e]) == Process(ProcessAll(rows, events), e)
  {
    assert (events + [e])[..|events + [e]| - 1] == events;
  }

  lemma ProcessTake(rows: Rows, events: seq<EventRecord>, k: nat)
    requires k < |events| && AllDecode(events[..k]) && Decodes(events[k])
    ensures AllDecode(events[..k + 1])
      && ProcessAll(rows, events[..k + 1]) == Process(ProcessAll(rows, events[..k]), events[k])
  {
    assert events[..k + 1] == events[..k] + [events[k]];
    ProcessNext(rows, events[..k], events[k]);
  }

  lemma {:induction false} ProcessSplits(rows: Rows, a: seq<EventRecord>, b: seq<EventRecord>)
    requires AllDecode(a) && AllDecode(b)
    ensures AllDecode(a + b) && ProcessAll(rows, a + b) == ProcessAll(ProcessAll(rows, a), b)
    decreases |b|
  {
    if b == [] {
      assert a + b == a;
    } else {
      var front, last := b[..|b| - 1], b[|b| - 1];
      ProcessSplits(rows, a, front);
      assert a + b == (a + front) + [last];
      ProcessNext(rows, a + front, last);
    }
  }

  /** A pass stops after `n` events: the first that cannot be read comes next. */
  predicate Reaches(events: seq<EventRecord>, n: nat)
  {
    n <= |events| && AllDecode(events[..n]) && (n < |events| ==> !Decodes(events[n]))
  }

  function Reach(events: seq<EventRecord>): (n: nat)
    ensures Reaches(events, n)
    decreases |events|
  {
    if events == [] then 0
    else
      var front := events[..|events| - 1];
      var n := Reach(front);
      assert events[..n] == front[..n];
      if n == |front| && Decodes(events[|front|]) then
        assert events[..n + 1] == front + [events[|front|]];
        n + 1
      else n
  }

  lemma ReachIs(events: seq<EventRecord>, n: nat, m: nat)
    requires Reaches(events, n) && Reaches(events, m)
    ensures n == m
  {
    assert forall i :: 0 <= i < n ==> events[..n][i] == events[i];
    assert forall i :: 0 <= i < m ==> events[..m][i] == events[i];
    assert forall i :: 0 <= i < n || 0 <= i < m ==> Decodes(events[i]);
  }

  function CheckpointOf(rows: Rows): int
  {
    if CHECKPOINT in rows && rows[CHECKPOINT].OfCheckpoint? then rows[CHECKPOINT].lastProcessed else 0
  }

  function CatchUpFilter(lastProcessed: int): EventFilter
  {
    if lastProcessed > 0 then NO_FILTER.(fromSequence := Some(lastProcessed + 1)) else NO_FILTER
  }

  /** What a store answers, by how it reads the lower bound. */
  function Fetched(log: seq<EventRecord>, lastProcessed: int, inclusive: bool): seq<EventRecord>
  {
    var f := CatchUpFilter(lastProcessed);
    if inclusive then Select(log, ByPostgres(f)) else Select(log, ByMemory(f))
  }

  /** A catch-up pass: fetch from the checkpoint on, process up to the first failure. */
  function CatchUp(rows: Rows, log: seq<EventRecord>, inclusive: bool): Rows
  {
    var events := Fetched(log, CheckpointOf(rows), inclusive);
    ProcessAll(rows, events[..Reach(events)])
  }
}
