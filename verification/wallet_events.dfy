/** The event-sourced wallet as values: what a command emits, what replay and
    loading rebuild, and the shape a wallet's own log keeps. */
module WalletEvents {
  import opened Optional
  import opened EventLog

  datatype Command = AddBalance(amount: int) | DeductBalance(amount: int)

  const ADDED := "BalanceAdded"
  const DEDUCTED := "BalanceDeducted"

  function NewWallet(id: string, userID: string, currency: string): WalletState
  {
    WalletState(id, userID, currency, 0, 0)
  }

  // ---------- commands ----------

  predicate Allowed(w: WalletState, c: Command)
  {
    c.amount > 0 && (c.DeductBalance? ==> w.balance >= c.amount)
  }

  function Outcome(balance: int, c: Command): int
  {
    if c.AddBalance? then balance + c.amount else balance - c.amount
  }

  function Emitted(w: WalletState, c: Command, eventID: string, now: int): EventRecord
  {
    EventRecord(eventID, w.id, "wallet", if c.AddBalance? then ADDED else DEDUCTED,
      w.version + 1, 0, now, w.userID, BalanceChange(c.amount, w.balance, Outcome(w.balance, c)))
  }

  /** A command advances the version twice: once for the uncommitted event, once for applying it. */
  function Commanded(w: WalletState, c: Command): WalletState
  {
    w.(balance := Outcome(w.balance, c), version := w.version + 2)
  }

  // ---------- replay and loading ----------

  /** Applying an event; a payload of another shape is an error. */
  function Apply(w: WalletState, e: EventRecord): Option<WalletState>
  {
    if e.eventType == ADDED || e.eventType == DEDUCTED then
      if e.payload.BalanceChange? then Some(w.(balance := e.payload.newBalance, version := w.version + 1)) else None
    else Some(w.(version := w.version + 1))
  }

  /** The loading loop: apply each event, then take its version. */
  function Replay(w: WalletState, events: seq<EventRecord>): Option<WalletState>
    decreases |events|
  {
    if events == [] then Some(w)
    else
      var next := Apply(w, events[0]);
      if next.None? then None else Replay(next.value.(version := events[0].version), events[1..])
  }

  function FromSnapshot(snapshot: Snapshot): WalletState
  {
    snapshot.data.(version := snapshot.version)
  }

  function SnapshotOf(s: Store, id: string): Option<Snapshot>
  {
    if id in s.snapshots then Some(s.snapshots[id]) else None
  }

  function Load(s: Store, id: string, made: WalletState): Option<WalletState>
  {
    var snapshot := SnapshotOf(s, id);
    if snapshot.Some? then Replay(FromSnapshot(snapshot.value), IndexedQuery(s, id, snapshot.value.version + 1))
    else Replay(made, IndexedQuery(s, id, 0))
  }

  function VersionRange(id: string, from: int, to: int): EventFilter
  {
    NO_FILTER.(aggregateID := Some(id), fromVersion := Some(from), toVersion := Some(to))
  }

  function LoadVersion(s: Store, id: string, version: int, made: WalletState): Option<WalletState>
  {
    var snapshot := SnapshotOf(s, id);
    if snapshot.Some? && snapshot.value.version <= version then
      Replay(FromSnapshot(snapshot.value), MemoryQuery(s.log, VersionRange(id, snapshot.value.version + 1, version)))
    else Replay(made, MemoryQuery(s.log, VersionRange(id, 0, version)))
  }

  /** A snapshot is due when the aggregate's own version is a multiple of the frequency. */
  predicate SnapshotDue(version: int, frequency: int)
  {
    frequency > 0 && version % frequency == 0
  }

  function WithSnapshot(s: Store, w: WalletState, frequency: int): Store
  {
    if SnapshotDue(w.version, frequency)
    then s.(snapshots := s.snapshots[w.id := Snapshot("wallet", w.version, w)])
    else s
  }

  lemma {:induction false} ReplaySplits(w: WalletState, a: seq<EventRecord>, b: seq<EventRecord>)
    ensures Replay(w, a + b) == if Replay(w, a).None? then None else Replay(Replay(w, a).value, b)
    decreases |a|
  {
    if a == [] {
      assert a + b == b;
    } else {
      assert (a + b)[1..] == a[1..] + b;
      var next := Apply(w, a[0]);
      if next.Some? {
        ReplaySplits(next.value.(version := a[0].version), a[1..], b);
      }
    }
  }

  function Min(a: int, b: int): int
  {
    if a < b then a else b
  }

  function Clamp(v: int, n: nat): nat
  {
    if v < 0 then 0 else if v > n then n else v
  }

  function BetweenVersions(from: int, to: int): EventRecord -> bool
  {
    (e: EventRecord) => from <= e.version <= to
  }

  lemma {:induction false} RangeOfAggregate(log: seq<EventRecord>, id: string, from: int, to: int)
    ensures Select(log, ByMemory(VersionRange(id, from, to))) == Select(EventsOf(log, id), BetweenVersions(from, to))
  {
    if log != [] {
      var front, last := log[..|log| - 1], log[|log| - 1];
      var f := VersionRange(id, from, to);
      assert log == front + [last];
      RangeOfAggregate(front, id, from, to);
      SelectSnoc(front, last, ByMemory(f));
      assert ByMemory(f)(last) == (last.aggregateID == id && from <= last.version <= to);
      if last.aggregateID == id {
        assert EventsOf(log, id) == EventsOf(front, id) + [last];
        SelectSnoc(EventsOf(front, id), last, BetweenVersions(from, to));
        assert BetweenVersions(from, to)(last) == ByMemory(f)(last);
      } else {
        assert EventsOf(log, id) == EventsOf(front, id);
        assert !ByMemory(f)(last);
      }
    }
  }

  /** Positions `from - 1` to `to` of a history, as far as it goes. */
  function Slice(own: seq<EventRecord>, from: int, to: int): seq<EventRecord>
  {
    var hi := Clamp(to, |own|);
    own[Min(Clamp(from - 1, |own|), hi)..hi]
  }

  lemma SliceSnoc(front: seq<EventRecord>, last: EventRecord, from: int, to: int)
    ensures Slice(front + [last], from, to)
      == Slice(front, from, to) + (if from <= |front| + 1 <= to then [last] else [])
  {
    var own := front + [last];
    var n := |front|;
    if n + 1 <= to {
      assert Clamp(to, n + 1) == n + 1 && Clamp(to, n) == n;
      assert Slice(own, from, to) == own[Clamp(from - 1, n + 1)..];
    } else {
      assert Clamp(to, n + 1) == Clamp(to, n);
    }
  }

  /** In a numbered history, the versions from `from` to `to` are a slice. */
  lemma {:induction false} SliceOfVersions(own: seq<EventRecord>, from: int, to: int)
    requires Numbered(own)
    ensures Select(own, BetweenVersions(from, to)) == Slice(own, from, to)
  {
    if own != [] {
      var front, last := own[..|own| - 1], own[|own| - 1];
      SliceOfVersions(front, from, to);
      assert own == front + [last];
      SliceSnoc(front, last, from, to);
      SelectSnoc(front, last, BetweenVersions(from, to));
      assert BetweenVersions(from, to)(last) == (from <= |front| + 1 <= to);
    }
  }

  /** In a numbered history, the versions from `from` on are a suffix. */
  lemma {:induction false} SuffixOfVersions(own: seq<EventRecord>, from: int)
    requires Numbered(own)
    ensures Select(own, SinceVersion(from)) == own[Clamp(from - 1, |own|)..]
  {
    if own != [] {
      var front, last := own[..|own| - 1], own[|own| - 1];
      SuffixOfVersions(front, from);
      assert own == front + [last];
      SelectSnoc(front, last, SinceVersion(from));
    }
  }

  /** The snapshot's data is the state after exactly as many events as its version says. */
  predicate SnapshotExact(s: Store, id: string, made: WalletState)
  {
    id in s.snapshots ==>
      && 0 <= s.snapshots[id].version <= |EventsOf(s.log, id)|
      && Replay(made, EventsOf(s.log, id)[..s.snapshots[id].version]) == Some(FromSnapshot(s.snapshots[id]))
  }

  lemma ReplayResumes(made: WalletState, own: seq<EventRecord>, v: nat, mid: WalletState)
    requires v <= |own| && Replay(made, own[..v]) == Some(mid)
    ensures Replay(mid, own[v..]) == Replay(made, own)
  {
    ReplaySplits(made, own[..v], own[v..]);
    assert own == own[..v] + own[v..];
  }

  lemma IndexedSuffix(s: Store, id: string, from: int)
    requires Inv(s)
    ensures IndexedQuery(s, id, from) == EventsOf(s.log, id)[Clamp(from - 1, |EventsOf(s.log, id)|)..]
  {
    assert IndexAgrees(s, id);
    SuffixOfVersions(EventsOf(s.log, id), from);
  }

  lemma RangeSlice(s: Store, id: string, from: int, to: int)
    requires Inv(s)
    ensures MemoryQuery(s.log, VersionRange(id, from, to)) == Slice(EventsOf(s.log, id), from, to)
  {
    var f := VersionRange(id, from, to);
    assert IndexAgrees(s, id);
    RangeOfAggregate(s.log, id, from, to);
    SliceOfVersions(EventsOf(s.log, id), from, to);
    assert MemoryPage(Select(s.log, ByMemory(f)), f) == Select(s.log, ByMemory(f));
  }

  /** With an exact snapshot, loading is replaying the whole history. */
  lemma LoadIsReplay(s: Store, id: string, made: WalletState)
    requires Inv(s) && SnapshotExact(s, id, made)
    ensures Load(s, id, made) == Replay(made, EventsOf(s.log, id))
  {
    var own := EventsOf(s.log, id);
    if id in s.snapshots {
      IndexedSuffix(s, id, s.snapshots[id].version + 1);
      ReplayResumes(made, own, s.snapshots[id].version, FromSnapshot(s.snapshots[id]));
    } else {
      IndexedSuffix(s, id, 0);
      assert own[0..] == own;
    }
  }

  /** Loading at a version is replaying that many events, whether or not the
      snapshot qualifies. */
  lemma LoadVersionIsReplay(s: Store, id: string, version: int, made: WalletState)
    requires Inv(s) && SnapshotExact(s, id, made)
    ensures LoadVersion(s, id, version, made)
      == Replay(made, EventsOf(s.log, id)[..Clamp(version, |EventsOf(s.log, id)|)])
  {
    var own := EventsOf(s.log, id);
    var hi := Clamp(version, |own|);
    if id in s.snapshots && s.snapshots[id].version <= version {
      var v := s.snapshots[id].version;
      RangeSlice(s, id, v + 1, version);
      assert Slice(own, v + 1, version) == own[v..hi];
      assert own[..hi][..v] == own[..v] && own[..hi][v..] == own[v..hi];
      ReplayResumes(made, own[..hi], v, FromSnapshot(s.snapshots[id]));
    } else {
      RangeSlice(s, id, 0, version);
      assert Slice(own, 0, version) == own[..hi];
    }
  }

  /** Loading is loading at the current version. */
  lemma LoadIsLoadCurrent(s: Store, id: string, made: WalletState)
    requires Inv(s) && SnapshotExact(s, id, made)
    ensures Load(s, id, made) == LoadVersion(s, id, VersionOf(s, id), made)
  {
    LoadIsReplay(s, id, made);
    LoadVersionIsReplay(s, id, VersionOf(s, id), made);
    assert IndexAgrees(s, id);
    assert EventsOf(s.log, id)[..VersionOf(s, id)] == EventsOf(s.log, id);
  }

  // ---------- the chain ----------

  function BalanceAfter(events: seq<EventRecord>): int
  {
    if events == [] || !events[|events| - 1].payload.BalanceChange? then 0 else events[|events| - 1].payload.newBalance
  }

  /** An event that continues from `balance` by adding, or deducting what is there. */
  predicate Continues(e: EventRecord, balance: int)
  {
    && e.payload.BalanceChange?
    && e.payload.previousBalance == balance
    && e.payload.amount > 0
    && ((e.eventType == ADDED && e.payload.newBalance == balance + e.payload.amount)
        || (e.eventType == DEDUCTED && e.payload.newBalance == balance - e.payload.amount))
    && e.payload.newBalance >= 0
  }

  /** Each event's previous balance is the new balance of the one before, starting from 0. */
  predicate Chained(events: seq<EventRecord>)
  {
    forall k :: 0 <= k < |events| ==> Continues(events[k], BalanceAfter(events[..k]))
  }

  function Added(events: seq<EventRecord>): int
  {
    if events == [] then 0
    else
      var last := events[|events| - 1];
      Added(events[..|events| - 1])
        + (if last.eventType == ADDED && last.payload.BalanceChange? then last.payload.amount else 0)
  }

  function Deducted(events: seq<EventRecord>): int
  {
    if events == [] then 0
    else
      var last := events[|events| - 1];
      Deducted(events[..|events| - 1])
        + (if last.eventType == DEDUCTED && last.payload.BalanceChange? then last.payload.amount else 0)
  }

  lemma ChainedFront(events: seq<EventRecord>)
    requires Chained(events) && events != []
    ensures Chained(events[..|events| - 1])
    ensures Continues(events[|events| - 1], BalanceAfter(events[..|events| - 1]))
  {
    forall k | 0 <= k < |events| - 1
      ensures Continues(events[k], BalanceAfter(events[..|events| - 1][..k]))
    {
      assert events[..|events| - 1][..k] == events[..k];
    }
  }

  lemma ChainedSnoc(events: seq<EventRecord>, e: EventRecord)
    requires Chained(events)
    ensures Chained(events + [e]) <==> Continues(e, BalanceAfter(events))
  {
    var longer := events + [e];
    assert longer[..|events|] == events;
    forall k | 0 <= k < |events|
      ensures Continues(longer[k], BalanceAfter(longer[..k]))
    {
      assert longer[..k] == events[..k];
    }
    if Chained(longer) {
      assert Continues(longer[|events|], BalanceAfter(longer[..|events|]));
    }
  }

  /** Along a chain the balance is what was added less what was deducted, and never negative. */
  lemma {:induction false} ChainBalances(events: seq<EventRecord>)
    requires Chained(events)
    ensures BalanceAfter(events) == Added(events) - Deducted(events) >= 0
  {
    if events != [] {
      ChainedFront(events);
      ChainBalances(events[..|events| - 1]);
      assert ADDED[7] != DEDUCTED[7];
    }
  }

  /** Replaying a chain gives its balance and its last version. */
  lemma {:induction false} ReplayChain(w: WalletState, events: seq<EventRecord>)
    requires Chained(events) && Numbered(events) && w.balance == 0 && w.version == 0
    ensures Replay(w, events) == Some(w.(balance := BalanceAfter(events), version := |events|))
  {
    if events != [] {
      var front, last := events[..|events| - 1], events[|events| - 1];
      ChainedFront(events);
      ReplayChain(w, front);
      assert events == front + [last];
      ReplaySplits(w, front, [last]);
      assert [last][1..] == [];
    }
  }
}
