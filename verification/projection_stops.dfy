/** Passes that stop inside an event, or that restart on the exclusive bound: the rows
    at the end of the resumed pass. */
module ProjectionStops {
  import opened Optional
  import opened EventLog
  import opened Projection
  import opened ProjectionTheorems

  // ---------- a stop between the rows and the checkpoint ----------

  lemma HandleIgnoresCheckpoint(rows: Rows, e: EventRecord, sequence: int)
    requires Decodes(e)
    ensures Process(rows[CHECKPOINT := OfCheckpoint(sequence)], e) == Process(rows, e)
  {
    if Moves(e) {
      KeysApart(e.payload.userID, e.payload.currency, e.payload.userID, e.payload.currency, "");
    } else if Payer(e).Some? {
      KeysApart("", "", "", "", Payer(e).value);
    }
  }

  lemma HandleKeepsCheckpoint(rows: Rows, e: EventRecord)
    requires Decodes(e)
    ensures CheckpointOf(Handle(rows, e)) == CheckpointOf(rows)
  {
    if Moves(e) {
      KeysApart(e.payload.userID, e.payload.currency, e.payload.userID, e.payload.currency, "");
    } else if Payer(e).Some? {
      KeysApart("", "", "", "", Payer(e).value);
    }
  }

  /** The events after `d`, up to the first unreadable one. */
  function Rest(log: seq<EventRecord>, d: nat): seq<EventRecord>
    requires d < Reach(log)
  {
    log[d + 1..Reach(log)]
  }

  /** The events up to the first unreadable one, with the one at `d` twice. */
  function Doubled(log: seq<EventRecord>, d: nat): seq<EventRecord>
    requires d < Reach(log)
  {
    log[..d + 1] + ([log[d]] + Rest(log, d))
  }

  lemma PartsDecode(log: seq<EventRecord>, n: nat, d: nat)
    requires d < n <= |log| && AllDecode(log[..n])
    ensures AllDecode(log[..d]) && Decodes(log[d]) && AllDecode(log[d + 1..n]) && AllDecode([log[d]] + log[d + 1..n])
    ensures log[..n] == log[..d] + ([log[d]] + log[d + 1..n]) && log[..d + 1] == log[..d] + [log[d]]
  {
    assert forall i :: 0 <= i < n ==> log[..n][i] == log[i];
  }

  lemma RestIs(log: seq<EventRecord>, d: nat)
    requires d < Reach(log) && AllDecode(log[..d])
    ensures log[d..][..Reach(log[d..])] == [log[d]] + Rest(log, d)
  {
    ReachesFrom(log, d, Reach(log[d..]));
    ReachIs(log, Reach(log), d + Reach(log[d..]));
  }

  /** A pass resumed at event `d` processes it and the rest. */
  lemma Resumes(start: Rows, rows: Rows, log: seq<EventRecord>, counter: int, d: nat)
    requires UpTo(rows, log, d) && SequencesAgree(log, counter) && d < Reach(log)
    requires CheckpointOf(start) == CheckpointOf(rows)
    ensures Decodes(log[d]) && AllDecode([log[d]] + Rest(log, d))
    ensures CatchUp(start, log, true) == ProcessAll(start, [log[d]] + Rest(log, d))
  {
    PartsDecode(log, Reach(log), d);
    InclusiveFetchesTheRest(rows, log, counter, d);
    RestIs(log, d);
  }

  lemma FirstOf(rows: Rows, e: EventRecord, rest: seq<EventRecord>)
    requires Decodes(e) && AllDecode(rest)
    ensures AllDecode([e] + rest) && ProcessAll(rows, [e] + rest) == ProcessAll(Process(rows, e), rest)
  {
    ProcessSplits(rows, [e], rest);
    ProcessNext(rows, [], e);
    assert [] + [e] == [e];
  }

  lemma FirstAgain(rows: Rows, e: EventRecord, rest: seq<EventRecord>)
    requires Decodes(e) && AllDecode(rest)
    ensures AllDecode([e] + rest) && ProcessAll(Handle(rows, e), [e] + rest) == ProcessAll(Process(rows, e), [e] + rest)
  {
    FirstOf(Handle(rows, e), e, rest);
    FirstOf(Process(rows, e), e, rest);
    HandleIgnoresCheckpoint(Handle(rows, e), e, e.sequence);
  }

  lemma DoubledIs(log: seq<EventRecord>, d: nat)
    requires d < Reach(log)
    ensures AllDecode(log[..d]) && Decodes(log[d]) && AllDecode([log[d]] + Rest(log, d)) && AllDecode(Doubled(log, d))
    ensures ProcessAll(map[], Doubled(log, d))
      == ProcessAll(Process(ProcessAll(map[], log[..d]), log[d]), [log[d]] + Rest(log, d))
  {
    PartsDecode(log, Reach(log), d);
    ProcessNext(map[], log[..d], log[d]);
    ProcessSplits(map[], log[..d + 1], [log[d]] + Rest(log, d));
  }

  /** A pass over `log` that stopped after the rows of event `d` and before its
      checkpoint, once resumed, leaves the rows of one pass over the log with that
      event in it twice, whatever its type and whatever follows. */
  lemma StoppedEventCountsTwice(rows: Rows, log: seq<EventRecord>, counter: int, d: nat)
    requires UpTo(rows, log, d) && SequencesAgree(log, counter) && d < Reach(log)
    ensures Decodes(log[d]) && AllDecode(Doubled(log, d))
    ensures CatchUp(Handle(rows, log[d]), log, true) == ProcessAll(map[], Doubled(log, d))
  {
    PartsDecode(log, Reach(log), d);
    HandleKeepsCheckpoint(rows, log[d]);
    Resumes(Handle(rows, log[d]), rows, log, counter, d);
    FirstAgain(rows, log[d], Rest(log, d));
    DoubledIs(log, d);
  }

  // ---------- a stop between a movement's two rows ----------

  /** A balance row that counts one movement too many. */
  function OverCounted(rows: Rows, k: string): Rows
    requires k in rows && rows[k].OfBalance?
  {
    rows[k := OfBalance(CountedAgain(rows[k].balance))]
  }

  predicate HasBalance(rows: Rows, k: string)
  {
    k in rows && rows[k].OfBalance?
  }

  lemma OverCountKeepsOnMoving(rows: Rows, e: EventRecord, u: string, c: string)
    requires Decodes(e) && Moves(e) && HasBalance(rows, BalanceKey(u, c))
    ensures HasBalance(Moved(rows, e), BalanceKey(u, c))
    ensures Moved(OverCounted(rows, BalanceKey(u, c)), e) == OverCounted(Moved(rows, e), BalanceKey(u, c))
  {
    var k, v, d := BalanceKey(u, c), e.payload.userID, e.payload.currency;
    KeysApart(v, d, v, d, "");
    KeysApart(u, c, v, d, "");
    assert SummaryAt(OverCounted(rows, k), v, d) == SummaryAt(rows, v, d);
    if BalanceKey(v, d) == k {
      assert BalanceAt(OverCounted(rows, k), v, d) == CountedAgain(BalanceAt(rows, v, d));
    } else {
      assert BalanceAt(OverCounted(rows, k), v, d) == BalanceAt(rows, v, d);
    }
  }

  lemma OverCountKeepsOn(rows: Rows, e: EventRecord, u: string, c: string)
    requires Decodes(e) && HasBalance(rows, BalanceKey(u, c))
    ensures HasBalance(Process(rows, e), BalanceKey(u, c))
    ensures Process(OverCounted(rows, BalanceKey(u, c)), e) == OverCounted(Process(rows, e), BalanceKey(u, c))
  {
    KeysApart(u, c, u, c, if Payer(e).Some? then Payer(e).value else "");
    if Moves(e) {
      OverCountKeepsOnMoving(rows, e, u, c);
    }
  }

  lemma {:induction false} OverCountLasts(rows: Rows, events: seq<EventRecord>, u: string, c: string)
    requires AllDecode(events) && HasBalance(rows, BalanceKey(u, c))
    ensures HasBalance(ProcessAll(rows, events), BalanceKey(u, c))
    ensures ProcessAll(OverCounted(rows, BalanceKey(u, c)), events)
      == OverCounted(ProcessAll(rows, events), BalanceKey(u, c))
    decreases |events|
  {
    if events != [] {
      OverCountLasts(rows, events[..|events| - 1], u, c);
      OverCountKeepsOn(ProcessAll(rows, events[..|events| - 1]), events[|events| - 1], u, c);
    }
  }

  lemma BalanceWrittenKeepsCheckpoint(rows: Rows, e: EventRecord)
    requires Moves(e) && Decodes(e)
    ensures CheckpointOf(BalanceWritten(rows, e)) == CheckpointOf(rows)
  {
    KeysApart(e.payload.userID, e.payload.currency, e.payload.userID, e.payload.currency, "");
  }

  /** A pass that stopped between the two rows of movement `d`, once resumed, leaves the
      rows of one uninterrupted pass, except that the wallet's balance row counts one
      movement too many. */
  lemma StoppedMovementOverCounts(rows: Rows, log: seq<EventRecord>, counter: int, d: nat)
    requires UpTo(rows, log, d) && SequencesAgree(log, counter) && d < Reach(log) && Moves(log[d])
    ensures Decodes(log[d])
    ensures var k := BalanceKey(log[d].payload.userID, log[d].payload.currency);
      var whole := ProcessAll(map[], log[..Reach(log)]);
      HasBalance(whole, k) && CatchUp(BalanceWritten(rows, log[d]), log, true) == OverCounted(whole, k)
  {
    PartsDecode(log, Reach(log), d);
    BalanceWrittenKeepsCheckpoint(rows, log[d]);
    Resumes(BalanceWritten(rows, log[d]), rows, log, counter, d);
    OverCountedRest(rows, log[d], Rest(log, d));
    ProcessSplits(map[], log[..d], [log[d]] + Rest(log, d));
  }

  lemma OverCountedRest(rows: Rows, e: EventRecord, rest: seq<EventRecord>)
    requires Moves(e) && Decodes(e) && AllDecode(rest)
    ensures AllDecode([e] + rest)
    ensures var k, whole := BalanceKey(e.payload.userID, e.payload.currency), ProcessAll(rows, [e] + rest);
      HasBalance(whole, k) && ProcessAll(BalanceWritten(rows, e), [e] + rest) == OverCounted(whole, k)
  {
    FirstOf(BalanceWritten(rows, e), e, rest);
    FirstOf(rows, e, rest);
    StopAfterTheBalanceRow(rows, e);
    OnceHolds(rows, e);
    OverCountLasts(Process(rows, e), rest, e.payload.userID, e.payload.currency);
  }

  // ---------- sessions on the exclusive bound ----------

  /** The memory store's numbers when no append was ever refused. */
  predicate Consecutive(log: seq<EventRecord>)
  {
    forall i :: 0 <= i < |log| ==> log[i].sequence == i + 1
  }

  function ExclusiveSessions(rows: Rows, logs: seq<seq<EventRecord>>): Rows
    decreases |logs|
  {
    if logs == [] then rows else ExclusiveSessions(CatchUp(rows, logs[0], false), logs[1..])
  }

  /** What sessions process from checkpoint `c` on: the first everything, each later
      one all that is new but its first event. */
  function Kept(c: nat, logs: seq<seq<EventRecord>>): seq<EventRecord>
    decreases |logs|
  {
    if logs == [] then []
    else SessionKeeps(c, logs[0]) + Kept(NextCheckpoint(c, logs[0]), logs[1..])
  }

  function SessionKeeps(c: nat, log: seq<EventRecord>): seq<EventRecord>
  {
    if c == 0 then log else if |log| <= c + 1 then [] else log[c + 1..]
  }

  /** A session with a single new event misses it and stays where it was. */
  function NextCheckpoint(c: nat, log: seq<EventRecord>): nat
  {
    if c > 0 && |log| <= c + 1 then c else |log|
  }

  function FinalCheckpoint(c: nat, logs: seq<seq<EventRecord>>): nat
    decreases |logs|
  {
    if logs == [] then c else FinalCheckpoint(NextCheckpoint(c, logs[0]), logs[1..])
  }

  /** The restarts that found more than one new event, and so moved on. */
  function Restarts(c: nat, logs: seq<seq<EventRecord>>): nat
    decreases |logs|
  {
    if logs == [] then 0
    else (if c > 0 && |logs[0]| > c + 1 then 1 else 0) + Restarts(NextCheckpoint(c, logs[0]), logs[1..])
  }

  ghost predicate AllReadable(logs: seq<seq<EventRecord>>)
  {
    forall n :: 0 <= n < |logs| ==> AllDecode(logs[n]) && Consecutive(logs[n])
  }

  lemma ExclusiveFetches(rows: Rows, log: seq<EventRecord>, c: nat)
    requires Consecutive(log) && CheckpointOf(rows) == c
    ensures Fetched(log, c, false) == SessionKeeps(c, log)
  {
    var keep := ByMemory(CatchUpFilter(c));
    var from := if c == 0 then 0 else if |log| <= c + 1 then |log| else c + 1;
    SelectSuffix(log, keep, from);
  }

  lemma ReachesAll(events: seq<EventRecord>)
    requires AllDecode(events)
    ensures events[..Reach(events)] == events
  {
    assert events[..|events|] == events;
    ReachIs(events, Reach(events), |events|);
  }

  lemma SessionMoves(rows: Rows, log: seq<EventRecord>, c: nat)
    requires Consecutive(log) && AllDecode(log) && CheckpointOf(rows) == c
    ensures AllDecode(SessionKeeps(c, log)) && CatchUp(rows, log, false) == ProcessAll(rows, SessionKeeps(c, log))
    ensures CheckpointOf(CatchUp(rows, log, false)) == NextCheckpoint(c, log)
  {
    var events := SessionKeeps(c, log);
    ExclusiveFetches(rows, log, c);
    assert forall i :: 0 <= i < |events| ==> events[i] == log[|log| - |events| + i];
    ReachesAll(events);
    if events != [] {
      assert events[|events| - 1] == log[|log| - 1];
    }
  }

  /** With consecutive numbers, sessions on the exclusive bound leave the rows of one
      pass over what they kept; every restart that moved on has lost one event for good,
      and besides those at most one event, the last, is still missed. */
  lemma {:induction false} ExclusiveSessionsLose(rows: Rows, logs: seq<seq<EventRecord>>, c: nat)
    requires AllReadable(logs) && Growing(logs) && CheckpointOf(rows) == c && (logs != [] ==> c <= |logs[0]|)
    ensures AllDecode(Kept(c, logs)) && ExclusiveSessions(rows, logs) == ProcessAll(rows, Kept(c, logs))
    ensures CheckpointOf(ExclusiveSessions(rows, logs)) == FinalCheckpoint(c, logs)
    ensures |Kept(c, logs)| + Restarts(c, logs) == FinalCheckpoint(c, logs) - c
    ensures logs != [] ==> FinalCheckpoint(c, logs) <= |logs[|logs| - 1]| <= FinalCheckpoint(c, logs) + 1
    decreases |logs|
  {
    if logs != [] {
      var next, c' := CatchUp(rows, logs[0], false), NextCheckpoint(c, logs[0]);
      SessionMoves(rows, logs[0], c);
      assert forall n :: 0 <= n < |logs[1..]| ==> logs[1..][n] == logs[n + 1];
      assert forall n :: 0 < n < |logs[1..]| ==> logs[1..][n - 1] == logs[n];
      if |logs| > 1 {
        assert logs[0] <= logs[1];
      }
      ExclusiveSessionsLose(next, logs[1..], c');
      ProcessSplits(rows, SessionKeeps(c, logs[0]), Kept(c', logs[1..]));
    }
  }
}
