/** What the read models are worth: a resumed projection is the uninterrupted one,
    and every row says exactly what the log says. */
module ProjectionTheorems {
  import opened Optional
  import opened EventLog
  import opened Projection

  // ---------- resuming ----------

  /** The rows are those of a pass over the first `d` events. */
  ghost predicate UpTo(rows: Rows, log: seq<EventRecord>, d: nat)
  {
    d <= |log| && AllDecode(log[..d]) && rows == ProcessAll(map[], log[..d])
  }

  function SequenceAt(log: seq<EventRecord>, d: nat): int
    requires d <= |log|
  {
    if d == 0 then 0 else log[d - 1].sequence
  }

  /** The checkpoint is the sequence number of the last event processed. */
  lemma CheckpointIs(rows: Rows, log: seq<EventRecord>, d: nat)
    requires UpTo(rows, log, d)
    ensures CheckpointOf(rows) == SequenceAt(log, d)
  {
    if d > 0 {
      assert log[..d][..d - 1] == log[..d - 1];
    }
  }

  lemma DropOfSnoc<T>(s: seq<T>, x: T, d: nat)
    requires d <= |s|
    ensures (s + [x])[d..] == s[d..] + [x]
  {
  }

  lemma {:induction false} SelectSuffix(log: seq<EventRecord>, keep: EventRecord -> bool, d: nat)
    requires d <= |log|
    requires forall i :: 0 <= i < d ==> !keep(log[i])
    requires forall i :: d <= i < |log| ==> keep(log[i])
    ensures Select(log, keep) == log[d..]
  {
    if log != [] {
      var front := log[..|log| - 1];
      if d == |log| {
        SelectSuffix(front, keep, d - 1);
      } else {
        SelectSuffix(front, keep, d);
        assert log == front + [log[|log| - 1]];
        DropOfSnoc(front, log[|log| - 1], d);
      }
    }
  }

  /** The inclusive bound fetches exactly what has not been processed. */
  lemma InclusiveFetchesTheRest(rows: Rows, log: seq<EventRecord>, counter: int, d: nat)
    requires UpTo(rows, log, d) && SequencesAgree(log, counter)
    ensures Fetched(log, CheckpointOf(rows), true) == log[d..]
  {
    CheckpointIs(rows, log, d);
    SelectSuffix(log, ByPostgres(CatchUpFilter(SequenceAt(log, d))), d);
  }

  lemma TakeTwice<T>(s: seq<T>, d: nat, n: nat)
    requires d + n <= |s|
    ensures s[..d + n] == s[..d] + s[d..][..n]
  {
  }

  lemma DecodesConcat(a: seq<EventRecord>, b: seq<EventRecord>)
    requires AllDecode(a) && AllDecode(b)
    ensures AllDecode(a + b)
  {
  }

  lemma ReachesFrom(log: seq<EventRecord>, d: nat, n: nat)
    requires d <= |log| && AllDecode(log[..d]) && Reaches(log[d..], n)
    ensures Reaches(log, d + n)
  {
    TakeTwice(log, d, n);
    DecodesConcat(log[..d], log[d..][..n]);
  }

  lemma CatchUpReaches(rows: Rows, log: seq<EventRecord>, counter: int, d: nat)
    requires UpTo(rows, log, d) && SequencesAgree(log, counter)
    ensures d <= Reach(log) && UpTo(CatchUp(rows, log, true), log, Reach(log))
  {
    var n := Reach(log[d..]);
    ReachesFrom(log, d, n);
    ReachIs(log, Reach(log), d + n);
    InclusiveFetchesTheRest(rows, log, counter, d);
    CatchUpIs(rows, log, d, n);
  }

  lemma CatchUpIs(rows: Rows, log: seq<EventRecord>, d: nat, n: nat)
    requires UpTo(rows, log, d) && Fetched(log, CheckpointOf(rows), true) == log[d..]
    requires Reach(log[d..]) == n && AllDecode(log[..d + n])
    ensures CatchUp(rows, log, true) == ProcessAll(map[], log[..d + n])
  {
    TakeTwice(log, d, n);
    assert CatchUp(rows, log, true) == ProcessAll(rows, log[d..][..n]);
    ProcessSplits(map[], log[..d], log[d..][..n]);
  }

  /** Projectors that start, catch up with what the log holds by then, and stop; a
      stop after any event is a session over a shorter log. */
  function Sessions(rows: Rows, logs: seq<seq<EventRecord>>): Rows
    decreases |logs|
  {
    if logs == [] then rows else Sessions(CatchUp(rows, logs[0], true), logs[1..])
  }

  ghost predicate Growing(logs: seq<seq<EventRecord>>)
  {
    forall i :: 0 < i < |logs| ==> logs[i - 1] <= logs[i]
  }

  lemma {:induction false} SessionsReach(rows: Rows, logs: seq<seq<EventRecord>>, counter: int, d: nat)
    requires logs != [] && Growing(logs) && UpTo(rows, logs[0], d)
    requires SequencesAgree(logs[|logs| - 1], counter)
    ensures UpTo(Sessions(rows, logs), logs[|logs| - 1], Reach(logs[|logs| - 1]))
    decreases |logs|
  {
    PrefixOfLast(logs);
    var next := CatchUp(rows, logs[0], true);
    CatchUpReaches(rows, logs[0], counter, d);
    if |logs| > 1 {
      assert logs[1][..Reach(logs[0])] == logs[0][..Reach(logs[0])];
      assert forall i :: 0 < i < |logs[1..]| ==> logs[1..][i - 1] == logs[i] && logs[1..][i] == logs[i + 1];
      SessionsReach(next, logs[1..], counter, Reach(logs[0]));
    } else {
      assert Sessions(rows, logs) == next;
    }
  }

  lemma {:induction false} PrefixOfLast(logs: seq<seq<EventRecord>>)
    requires logs != [] && Growing(logs)
    ensures logs[0] <= logs[|logs| - 1]
    decreases |logs|
  {
    if |logs| > 1 {
      PrefixOfLast(logs[..|logs| - 1]);
    }
  }

  /** However a projection is cut into sessions, its rows are those of one pass over
      the last log: each event up to the first unreadable one, once and in order. */
  lemma ResumedIsUninterrupted(logs: seq<seq<EventRecord>>, counter: int)
    requires logs != [] && Growing(logs) && SequencesAgree(logs[|logs| - 1], counter)
    ensures var log := logs[|logs| - 1];
      Sessions(map[], logs) == CatchUp(map[], log, true) == ProcessAll(map[], log[..Reach(log)])
  {
    var log := logs[|logs| - 1];
    assert log[..0] == [] && logs[0][..0] == [];
    SessionsReach(map[], logs, counter, 0);
    CatchUpReaches(map[], log, counter, 0);
  }

  /** The exclusive bound misses exactly the event numbered one past the checkpoint. */
  lemma ExclusiveSkipsOne(rows: Rows, log: seq<EventRecord>, counter: int, d: nat)
    requires UpTo(rows, log, d) && SequencesAgree(log, counter)
    ensures Fetched(log, CheckpointOf(rows), false) == log[d..]
      <==> d == 0 || d == |log| || log[d].sequence != log[d - 1].sequence + 1
    ensures 0 < d < |log| && log[d].sequence == log[d - 1].sequence + 1
      ==> Fetched(log, CheckpointOf(rows), false) == log[d + 1..]
  {
    CheckpointIs(rows, log, d);
    var keep := ByMemory(CatchUpFilter(SequenceAt(log, d)));
    if 0 < d < |log| && log[d].sequence == log[d - 1].sequence + 1 {
      SelectSuffix(log, keep, d + 1);
      assert |log[d..]| != |log[d + 1..]|;
    } else {
      SelectSuffix(log, keep, d);
    }
  }

  /** A stop between an event's rows and its checkpoint is not undone by resuming:
      handling the event again gives other rows, unless no handler is for it. */
  lemma StopInsideAnEvent(rows: Rows, e: EventRecord)
    requires Decodes(e)
    ensures Process(Handle(rows, e), e) == Process(rows, e) <==> HandlerOf(e.eventType).Unhandled?
  {
    var once, twice := Process(rows, e), Process(Handle(rows, e), e);
    if Moves(e) {
      var u, c := e.payload.userID, e.payload.currency;
      KeysApart(u, c, u, c, "");
      assert BalanceAt(twice, u, c).transactionCount == BalanceAt(once, u, c).transactionCount + 1;
    } else if Payer(e).Some? {
      var u := Payer(e).value;
      KeysApart("", "", "", "", u);
      assert StatusAt(twice, u).total + StatusAt(twice, u).completed + StatusAt(twice, u).failed
          == StatusAt(once, u).total + StatusAt(once, u).completed + StatusAt(once, u).failed + 1;
    }
  }

  /** A movement's first write: its balance row. */
  function BalanceWritten(rows: Rows, e: EventRecord): Rows
    requires Moves(e) && Decodes(e)
  {
    var u, c := e.payload.userID, e.payload.currency;
    rows[BalanceKey(u, c) := OfBalance(MovedBalance(BalanceAt(rows, u, c), e))]
  }

  function CountedAgain(b: BalanceRow): BalanceRow
  {
    b.(transactionCount := b.transactionCount + 1)
  }

  function AddedAgain(s: SummaryRow, e: EventRecord): SummaryRow
    requires e.payload.WalletMovement?
  {
    s.(transactionCount := s.transactionCount + 1,
       totalCredits := s.totalCredits + (if HandlerOf(e.eventType).Credit? then e.payload.amount else 0),
       totalDebits := s.totalDebits + (if HandlerOf(e.eventType).Credit? then 0 else e.payload.amount))
  }

  /** The rows of a movement handled once, with its balance row counted again. */
  function Recounted(rows: Rows, e: EventRecord): Rows
    requires Moves(e) && Decodes(e)
  {
    var u, c := e.payload.userID, e.payload.currency;
    var once := Process(rows, e);
    once[BalanceKey(u, c) := OfBalance(CountedAgain(BalanceAt(once, u, c)))]
  }

  lemma OnceHolds(rows: Rows, e: EventRecord)
    requires Moves(e) && Decodes(e)
    ensures var u, c := e.payload.userID, e.payload.currency;
      var once := Process(rows, e);
      && BalanceKey(u, c) in once && once[BalanceKey(u, c)] == OfBalance(MovedBalance(BalanceAt(rows, u, c), e))
      && SummaryKey(u, c) in once && once[SummaryKey(u, c)] == OfSummary(MovedSummary(SummaryAt(rows, u, c), e))
      && Recounted(rows, e) != once
  {
    var u, c := e.payload.userID, e.payload.currency;
    KeysApart(u, c, u, c, "");
    var once := Process(rows, e);
    assert Recounted(rows, e)[BalanceKey(u, c)].balance.transactionCount
      == once[BalanceKey(u, c)].balance.transactionCount + 1;
  }

  /** A stop after a movement's balance row: resuming counts it twice there and once
      in the summary; the balances are right. */
  lemma StopAfterTheBalanceRow(rows: Rows, e: EventRecord)
    requires Moves(e) && Decodes(e)
    ensures Process(BalanceWritten(rows, e), e) == Recounted(rows, e) != Process(rows, e)
  {
    var u, c := e.payload.userID, e.payload.currency;
    OnceHolds(rows, e);
    KeysApart(u, c, u, c, "");
    assert SummaryAt(BalanceWritten(rows, e), u, c) == SummaryAt(rows, u, c);
  }

  /** A stop after both of its rows: resuming counts it twice in both, and its amount
      twice in the summary; the balances are right. */
  lemma StopAfterBothRows(rows: Rows, e: EventRecord)
    requires Moves(e) && Decodes(e)
    ensures var u, c := e.payload.userID, e.payload.currency;
      Process(Handle(rows, e), e)
      == Recounted(rows, e)[SummaryKey(u,
        c) := OfSummary(AddedAgain(SummaryAt(Process(rows, e), u, c), e))] != Process(rows, e)
  {
    var u, c := e.payload.userID, e.payload.currency;
    OnceHolds(rows, e);
    MovedTwice(rows, e);
    KeysApart(u, c, u, c, "");
    StopInsideAnEvent(rows, e);
  }

  lemma MovedTwice(rows: Rows, e: EventRecord)
    requires Moves(e) && Decodes(e)
    ensures var u, c := e.payload.userID, e.payload.currency;
      Moved(Moved(rows, e), e)
      == Moved(rows, e)[BalanceKey(u, c) := OfBalance(CountedAgain(MovedBalance(BalanceAt(rows, u, c), e)))]
                       [SummaryKey(u, c) := OfSummary(AddedAgain(MovedSummary(SummaryAt(rows, u, c), e), e))]
  {
    var u, c := e.payload.userID, e.payload.currency;
    KeysApart(u, c, u, c, "");
    assert BalanceAt(Moved(rows, e), u, c) == MovedBalance(BalanceAt(rows, u, c), e);
    assert SummaryAt(Moved(rows, e), u, c) == MovedSummary(SummaryAt(rows, u, c), e);
  }

  // ---------- wallet rows ----------

  predicate MovesWallet(e: EventRecord, u: string, c: string)
  {
    Moves(e) && e.payload.WalletMovement? && e.payload.userID == u && e.payload.currency == c
  }

  function OfWallet(u: string, c: string): EventRecord -> bool
  {
    (e: EventRecord) => MovesWallet(e, u, c)
  }

  /** The movements of one wallet, in order. */
  function Movements(log: seq<EventRecord>, u: string, c: string): seq<EventRecord>
  {
    Select(log, OfWallet(u, c))
  }

  function AmountOf(e: EventRecord): int
  {
    if e.payload.WalletMovement? then e.payload.amount else 0
  }

  function Credits(ms: seq<EventRecord>): int
  {
    if ms == [] then 0
    else
      var last := ms[|ms| - 1];
      Credits(ms[..|ms| - 1]) + (if HandlerOf(last.eventType).Credit? then AmountOf(last) else 0)
  }

  function Debits(ms: seq<EventRecord>): int
  {
    if ms == [] then 0
    else
      var last := ms[|ms| - 1];
      Debits(ms[..|ms| - 1]) + (if HandlerOf(last.eventType).Debit? then AmountOf(last) else 0)
  }

  /** No user id in the log, nor `u`, has a colon. */
  predicate NoColons(log: seq<EventRecord>, u: string)
  {
    ':' !in u && forall i :: 0 <= i < |log| && log[i].payload.WalletMovement? ==> ':' !in log[i].payload.userID
  }

  /** The two rows a wallet with these movements should have. */
  ghost predicate WalletRowsSay(rows: Rows, u: string, c: string, ms: seq<EventRecord>)
  {
    && (ms == [] ==> BalanceKey(u, c) !in rows && SummaryKey(u, c) !in rows)
    && (ms != [] ==>
      var last := ms[|ms| - 1];
      && last.payload.WalletMovement?
      && BalanceKey(u, c) in rows && SummaryKey(u, c) in rows
      && rows[BalanceKey(u, c)]
         == OfBalance(BalanceRow(u, c, last.payload.newBalance, last.createdAt, last.version, |ms|))
      && rows[SummaryKey(u, c)]
         == OfSummary(SummaryRow(u, c, last.payload.newBalance, Credits(ms), Debits(ms), |ms|, last.createdAt,
           last.sequence)))
  }

  /** An event touches a wallet's two rows exactly when it moves that wallet. */
  lemma OthersRowsStay(rows: Rows, e: EventRecord, u: string, c: string)
    requires Decodes(e) && !MovesWallet(e, u, c) && ':' !in u
      && (e.payload.WalletMovement? ==> ':' !in e.payload.userID)
    ensures forall k :: k == BalanceKey(u, c) || k == SummaryKey(u, c) ==>
      (k in Process(rows, e) <==> k in rows) && (k in rows ==> Process(rows, e)[k] == rows[k])
  {
    KeysApart(u, c, u, c, if Payer(e).Some? then Payer(e).value else "");
    if Moves(e) {
      var v, d := e.payload.userID, e.payload.currency;
      KeysApart(u, c, v, d, "");
      KeysApart(v, d, u, c, "");
      OwnRows(u, c, v, d);
    }
  }

  lemma OwnRowsMove(rows: Rows, e: EventRecord, u: string, c: string, ms: seq<EventRecord>)
    requires Decodes(e) && MovesWallet(e, u, c) && WalletRowsSay(rows, u, c, ms)
    ensures WalletRowsSay(Process(rows, e), u, c, ms + [e])
  {
    KeysApart(u, c, u, c, "");
    assert (ms + [e])[..|ms + [e]| - 1] == ms;
    assert BalanceAt(rows, u, c).transactionCount == |ms|;
  }

  /** After any pass, a wallet's rows hold its last balance, how many movements it
      had and what they credited and debited, whatever happened to other wallets. */
  lemma {:induction false} WalletRowsAgree(log: seq<EventRecord>, u: string, c: string)
    requires AllDecode(log) && NoColons(log, u)
    ensures WalletRowsSay(ProcessAll(map[], log), u, c, Movements(log, u, c))
    decreases |log|
  {
    if log != [] {
      var front, e := log[..|log| - 1], log[|log| - 1];
      var rows := ProcessAll(map[], front);
      WalletRowsAgree(front, u, c);
      assert OfWallet(u, c)(e) == MovesWallet(e, u, c);
      if MovesWallet(e, u, c) {
        OwnRowsMove(rows, e, u, c, Movements(front, u, c));
      } else {
        OthersRowsStay(rows, e, u, c);
        assert Movements(log, u, c) == Movements(front, u, c);
      }
    }
  }

  function BalanceAfter(ms: seq<EventRecord>): int
  {
    if ms == [] || !ms[|ms| - 1].payload.WalletMovement? then 0 else ms[|ms| - 1].payload.newBalance
  }

  /** Each movement takes the balance the one before it left, starting from 0. */
  predicate ChainedFromZero(ms: seq<EventRecord>)
  {
    forall n :: 0 <= n < |ms| ==> Follows(ms, n)
  }

  predicate Follows(ms: seq<EventRecord>, n: nat)
    requires n < |ms|
  {
    BalanceAfter(ms[..n + 1])
      == BalanceAfter(ms[..n]) + (if HandlerOf(ms[n].eventType).Credit? then AmountOf(ms[n]) else 0)
                               - (if HandlerOf(ms[n].eventType).Debit? then AmountOf(ms[n]) else 0)
  }

  predicate BooksBalance(ms: seq<EventRecord>, n: nat)
    requires n <= |ms|
  {
    BalanceAfter(ms[..n]) == Credits(ms[..n]) - Debits(ms[..n])
  }

  lemma SumsNext(ms: seq<EventRecord>, n: nat)
    requires n < |ms|
    ensures Follows(ms, n) && BooksBalance(ms, n) ==> BooksBalance(ms, n + 1)
    ensures BooksBalance(ms, n) && BooksBalance(ms, n + 1) ==> Follows(ms, n)
  {
    assert ms[..n + 1][..n] == ms[..n];
  }

  /** The summary's balance is its credits less its debits after every movement
      exactly when the movements form a chain from zero. */
  lemma BooksBalanceIffChained(ms: seq<EventRecord>)
    ensures ChainedFromZero(ms) <==> forall n :: 0 <= n <= |ms| ==> BooksBalance(ms, n)
  {
    assert BooksBalance(ms, 0);
    if ChainedFromZero(ms) {
      var n := 0;
      while n < |ms|
        invariant n <= |ms| && forall k :: 0 <= k <= n ==> BooksBalance(ms, k)
      {
        SumsNext(ms, n);
        assert Follows(ms, n);
        n := n + 1;
      }
    }
    if forall n :: 0 <= n <= |ms| ==> BooksBalance(ms, n) {
      forall n | 0 <= n < |ms|
        ensures Follows(ms, n)
      {
        assert BooksBalance(ms, n) && BooksBalance(ms, n + 1);
        SumsNext(ms, n);
      }
    }
  }

  // ---------- payment counters ----------

  function OfPayer(u: string): EventRecord -> bool
  {
    (e: EventRecord) => Payer(e) == Some(u)
  }

  function PaymentsOf(log: seq<EventRecord>, u: string): seq<EventRecord>
  {
    Select(log, OfPayer(u))
  }

  function CountOf(es: seq<EventRecord>, h: Handler): (n: nat)
    ensures n <= |es|
  {
    if es == [] then 0 else CountOf(es[..|es| - 1], h) + (if HandlerOf(es[|es| - 1].eventType) == h then 1 else 0)
  }

  function Initiations(es: seq<EventRecord>): int
  {
    if es == [] then 0
    else
      var last := es[|es| - 1];
      Initiations(es[..|es| - 1])
        + (if HandlerOf(last.eventType).Initiated? && last.payload.PaymentStart? then last.payload.amount else 0)
  }

  /** Payments initiated, less payments resolved. */
  function Surplus(es: seq<EventRecord>): int
  {
    CountOf(es, Initiated) - CountOf(es, Completed) - CountOf(es, Failed)
  }

  /** The least surplus of any prefix. */
  function LowWater(es: seq<EventRecord>): int
  {
    if es == [] then 0
    else
      var before := LowWater(es[..|es| - 1]);
      if Surplus(es) < before then Surplus(es) else before
  }

  lemma {:induction false} LowWaterIsLeast(es: seq<EventRecord>)
    ensures forall k :: 0 <= k <= |es| ==> LowWater(es) <= Surplus(es[..k])
    ensures exists k :: 0 <= k <= |es| && LowWater(es) == Surplus(es[..k])
  {
    assert es[..|es|] == es;
    if es == [] {
      assert Surplus(es[..0]) == 0;
    } else {
      var front := es[..|es| - 1];
      LowWaterIsLeast(front);
      forall k | 0 <= k <= |es|
        ensures LowWater(es) <= Surplus(es[..k])
      {
        if k < |es| {
          assert es[..k] == front[..k];
        }
      }
      var j :| 0 <= j <= |front| && LowWater(front) == Surplus(front[..j]);
      assert front[..j] == es[..j];
      assert LowWater(es) == Surplus(es[..if Surplus(es) < LowWater(front) then |es| else j]);
    }
  }

  /** Resolutions that found no payment pending. */
  function Unmatched(es: seq<EventRecord>): nat
  {
    if es == [] then 0
    else
      var front, last := es[..|es| - 1], es[|es| - 1];
      Unmatched(front) + (if Resolves(last) && Surplus(front) == LowWater(front) then 1 else 0)
  }

  /** The counters a user with these payment events should have. */
  function StatusOf(u: string, es: seq<EventRecord>): StatusRow
  {
    StatusRow(u, CountOf(es, Initiated), CountOf(es, Completed), CountOf(es, Failed),
      Surplus(es) - LowWater(es), Initiations(es), if es == [] then 0 else es[|es| - 1].createdAt)
  }

  ghost predicate StatusRowSays(rows: Rows, u: string, es: seq<EventRecord>)
  {
    && (es == [] ==> StatusKey(u) !in rows)
    && (es != [] ==> StatusKey(u) in rows && rows[StatusKey(u)] == OfStatus(StatusOf(u, es)))
  }

  lemma {:induction false} LowWaterBelow(es: seq<EventRecord>)
    ensures LowWater(es) <= Surplus(es) && LowWater(es) <= 0
  {
    if es != [] {
      LowWaterBelow(es[..|es| - 1]);
    }
  }

  lemma CountedNext(u: string, es: seq<EventRecord>, e: EventRecord)
    requires Payer(e) == Some(u)
    ensures Counted(StatusOf(u, es), e) == StatusOf(u, es + [e])
  {
    LowWaterBelow(es);
    assert (es + [e])[..|es + [e]| - 1] == es;
    if HandlerOf(e.eventType).Initiated? {
      assert Surplus(es + [e]) == Surplus(es) + 1;
    } else {
      assert Surplus(es + [e]) == Surplus(es) - 1;
    }
  }

  lemma CountsNext(rows: Rows, e: EventRecord, u: string, es: seq<EventRecord>)
    requires Decodes(e) && Payer(e) == Some(u) && StatusRowSays(rows, u, es)
    ensures StatusRowSays(Process(rows, e), u, es + [e])
  {
    KeysApart("", "", "", "", u);
    CountedNext(u, es, e);
    assert StatusAt(rows, u) == StatusOf(u, es);
  }

  lemma OthersStatusStays(rows: Rows, e: EventRecord, u: string)
    requires Decodes(e) && Payer(e) != Some(u)
    ensures StatusKey(u) in Process(rows, e) <==> StatusKey(u) in rows
    ensures StatusKey(u) in rows ==> Process(rows, e)[StatusKey(u)] == rows[StatusKey(u)]
  {
    KeysApart("", "", "", "", u);
    if Moves(e) {
      KeysApart(e.payload.userID, e.payload.currency, e.payload.userID, e.payload.currency, u);
    } else if Payer(e).Some? {
      if StatusKey(Payer(e).value) == StatusKey(u) {
        Unprefix("payment_status:", Payer(e).value, u);
      }
    }
  }

  /** After any pass, and in whatever order the events came, a user's pending count
      is the surplus less its least value so far. */
  lemma {:induction false} StatusRowAgrees(log: seq<EventRecord>, u: string)
    requires AllDecode(log)
    ensures StatusRowSays(ProcessAll(map[], log), u, PaymentsOf(log, u))
    decreases |log|
  {
    if log != [] {
      var front, e := log[..|log| - 1], log[|log| - 1];
      var rows := ProcessAll(map[], front);
      StatusRowAgrees(front, u);
      assert OfPayer(u)(e) == (Payer(e) == Some(u));
      if Payer(e) == Some(u) {
        CountsNext(rows, e, u, PaymentsOf(front, u));
      } else {
        OthersStatusStays(rows, e, u);
        assert PaymentsOf(log, u) == PaymentsOf(front, u);
      }
    }
  }

  /** Every payment counted is resolved or pending, except that each resolution that
      found none pending is counted beside them. */
  lemma {:induction false} CountersAddUp(es: seq<EventRecord>)
    requires forall i :: 0 <= i < |es| ==> Payer(es[i]).Some?
    ensures Unmatched(es) == -LowWater(es)
    ensures CountOf(es, Completed) + CountOf(es, Failed) + (Surplus(es) - LowWater(es))
         == CountOf(es, Initiated) + Unmatched(es)
  {
    if es != [] {
      CountersAddUp(es[..|es| - 1]);
      LowWaterBelow(es[..|es| - 1]);
    }
  }
}
