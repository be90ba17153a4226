/** The wallet aggregate and its repository as objects: commands emit events and
    apply them in place, saving appends them to the store, loading replays them. */
module AggregateRepository {
  import opened Optional
  import opened EventLog
  import opened EventStore
  import opened WalletEvents
  import WalletClients

  class WalletAggregate {
    var id: string
    var userID: string
    var currency: string
    var balance: int
    var version: int
    var uncommittedEvents: seq<Event>

    constructor (id: string, userID: string, currency: string)
      ensures State() == NewWallet(id, userID, currency) && uncommittedEvents == []
    {
      this.id, this.userID, this.currency := id, userID, currency;
      balance, version, uncommittedEvents := 0, 0, [];
    }

    function State(): WalletState
      reads this
    {
      WalletState(id, userID, currency, balance, version)
    }

    method AddUncommittedEvent(event: Event)
      modifies this`version, this`uncommittedEvents, event`aggregateVersion
      ensures version == old(version) + 1 && uncommittedEvents == old(uncommittedEvents) + [event]
      ensures event.aggregateVersion == old(version) + 1
    {
      event.aggregateVersion := version + 1;
      uncommittedEvents := uncommittedEvents + [event];
      version := version + 1;
    }

    method ApplyEvent(event: Event) returns (ok: bool)
      modifies this`balance, this`version
      ensures ok == Apply(old(State()), event.Record()).Some?
      ensures State() == if ok then Apply(old(State()), event.Record()).value else old(State())
      ensures ok <==>
        (event.eventType == "BalanceAdded" || event.eventType == "BalanceDeducted" ==> event.payload.BalanceChange?)
      ensures ok ==> version == old(version) + 1
      ensures ok && (event.eventType == "BalanceAdded" || event.eventType == "BalanceDeducted") ==>
        balance == event.payload.newBalance
      ensures ok && event.eventType != "BalanceAdded" && event.eventType != "BalanceDeducted" ==>
        balance == old(balance)
    {
      if event.eventType == ADDED {
        if !event.payload.BalanceChange? {
          return false;
        }
        balance := event.payload.newBalance;
      } else if event.eventType == DEDUCTED {
        if !event.payload.BalanceChange? {
          return false;
        }
        balance := event.payload.newBalance;
      }
      version := version + 1;
      return true;
    }

    /** Runs a command: refused it changes nothing; otherwise one new event is
        waiting to be saved and the state has moved on, its version by two. */
    method Execute(c: Command, eventID: string, now: int) returns (ok: bool)
      modifies this
      ensures ok == Allowed(old(State()), c)
      ensures ok <==>
        match c
        case AddBalance(amount) => 0 < amount
        case DeductBalance(amount) => 0 < amount <= old(balance)
      ensures !ok ==> State() == old(State()) && uncommittedEvents == old(uncommittedEvents)
      ensures ok ==> State() == Commanded(old(State()), c)
      ensures ok ==> balance == old(balance) + (if c.AddBalance? then c.amount else -c.amount)
      ensures ok ==> |uncommittedEvents| == |old(uncommittedEvents)| + 1
      ensures ok ==> uncommittedEvents[..|old(uncommittedEvents)|] == old(uncommittedEvents)
      ensures ok ==> fresh(uncommittedEvents[|old(uncommittedEvents)|])
      ensures ok ==> uncommittedEvents[|old(uncommittedEvents)|].Record() == Emitted(old(State()), c, eventID, now)
      ensures ok ==> uncommittedEvents[|old(uncommittedEvents)|].eventType
                     == (if c.AddBalance? then "BalanceAdded" else "BalanceDeducted")
      ensures ok ==>
        uncommittedEvents[|old(uncommittedEvents)|].payload == BalanceChange(c.amount, old(balance), balance)
    {
      if c.amount <= 0 {
        return false;
      }
      if c.DeductBalance? && balance < c.amount {
        return false;
      }
      var event := new Event(eventID, id, "wallet", if c.AddBalance? then ADDED else DEDUCTED,
        BalanceChange(c.amount, balance, Outcome(balance, c)), userID, now);
      AddUncommittedEvent(event);
      ok := ApplyEvent(event);
    }

    method LoadFromSnapshot(data: WalletState)
      modifies this`id, this`userID, this`currency, this`balance, this`version
      ensures State() == data
    {
      id, userID, currency, balance, version := data.id, data.userID, data.currency, data.balance, data.version;
    }
  }

  /** The metadata that saving writes on every event. */
  function Tag(e: EventRecord, id: string, causedBy: string): EventRecord
  {
    e.(aggregateID := id, aggregateType := "wallet", causedBy := causedBy)
  }

  function TagAll(batch: seq<EventRecord>, id: string, causedBy: string): (r: seq<EventRecord>)
    ensures |r| == |batch|
    ensures forall i :: 0 <= i < |r| ==> r[i] == Tag(batch[i], id, causedBy)
  {
    seq(|batch|, i requires 0 <= i < |batch| => Tag(batch[i], id, causedBy))
  }

  lemma TaggedFits(batch: seq<EventRecord>, id: string, causedBy: string, version: int)
    ensures BatchFits(TagAll(batch, id, causedBy), version) == BatchFits(batch, version)
    ensures batch != [] ==>
      OneAggregate(TagAll(batch, id, causedBy)) && TagAll(batch, id, causedBy)[0].aggregateID == id
  {
    var tagged := TagAll(batch, id, causedBy);
    assert forall i :: 0 <= i < |batch| ==> tagged[i].version == batch[i].version;
    assert BatchFits(tagged, version) ==> forall i :: 0 <= i < |batch| ==> VersionFits(tagged[i], version + i + 1);
    forall i | 0 <= i < |batch|
      ensures VersionFits(batch[i], version + i + 1) == VersionFits(tagged[i], version + i + 1)
    {
    }
  }

  /** When a save is accepted: every waiting event is a different one and names
      the version that is next for it. */
  predicate SaveFits(s: Store, batch: seq<Event>, were: seq<EventRecord>, id: string, contextDone: bool)
  {
    !contextDone && !s.closed && Distinct(batch) && BatchFits(were, VersionOf(s, id))
  }

  function Saved(s: Store, were: seq<EventRecord>, w: WalletState, causedBy: string, now: int, frequency: int): Store
    requires were != []
  {
    WithSnapshot(Append(s, TagAll(were, w.id, causedBy), now), w, frequency)
  }

  /** What an accepted save stores of each waiting event: what happened and when as it
      was, under the wallet's id and type, with who caused it and the next numbers. */
  lemma SavedAsIssued(s: Store, were: seq<EventRecord>, w: WalletState, causedBy: string, now: int, frequency: int,
    i: nat)
    requires i < |were|
    ensures var after := Saved(s, were, w, causedBy, now, frequency).log;
      && |after| == |s.log| + |were| && after[..|s.log|] == s.log
      && var stored := after[|s.log| + i];
      && stored.id == were[i].id && stored.eventType == were[i].eventType && stored.payload == were[i].payload
      && stored.aggregateID == w.id && stored.aggregateType == "wallet" && stored.causedBy == causedBy
      && stored.createdAt == (if were[i].createdAt == 0 then now else were[i].createdAt)
      && stored.sequence == s.counter + 1 + i && stored.version == VersionOf(s, w.id) + 1 + i
  {
    TaggedFits(were, w.id, causedBy, VersionOf(s, w.id));
    AppendKeepsFields(s, TagAll(were, w.id, causedBy), now, i);
  }

  /** Saving one command on behalf of the wallet's user is the step that a client of
      WalletClients takes: tagging changes nothing, and the same events fit. */
  lemma CommandSaveIsClientSave(s: Store, w: WalletState, c: Command, eventID: string, at: int, now: int)
    ensures var e := Emitted(w, c, eventID, at);
      && (BatchFits([e], VersionOf(s, w.id)) <==> WalletClients.Fits(s, e))
      && Saved(s, [e], Commanded(w, c), w.userID, now, 0) == Append(s, [e], now)
  {
    var e := Emitted(w, c, eventID, at);
    assert [e][0] == e;
    assert TagAll([e], w.id, w.userID) == [e];
  }

  /** The snapshot that a save takes: a wallet loaded at version n, commanded and
      saved, is stored as the state after n + 1 events but recorded at version n + 2. */
  lemma SnapshotTakenIsDoubled(s: Store, made: WalletState, w: WalletState, c: Command, eventID: string,
    at: int, now: int, frequency: int)
    requires Inv(s) && s.snapshots == map[] && Chained(EventsOf(s.log, made.id))
    requires made == NewWallet(made.id, made.userID, made.currency)
    requires Load(s, made.id, made) == Some(w) && Allowed(w, c)
    requires SnapshotDue(VersionOf(s, made.id) + 2, frequency)
    ensures var s' := Saved(s, [Emitted(w, c, eventID, at)], Commanded(w, c), w.userID, now, frequency);
      && Inv(s') && Chained(EventsOf(s'.log, made.id))
      && WalletClients.TakenAfter(s', made.id, made, |EventsOf(s'.log, made.id)|)
      && s'.snapshots[made.id].version == VersionOf(s', made.id) + 1
  {
    var client := WalletClients.Client(made.id, made.userID, made.currency, WalletClients.Idle);
    WalletClients.ReloadAgrees(s, client);
    var e := Emitted(w, c, eventID, at);
    CommandSaveIsClientSave(s, w, c, eventID, at, now);
    SavedEvents(s, made, w, e, c, eventID, at, now);
    SnapshotHolds(Append(s, [e], now), made, Commanded(w, c), frequency);
  }

  lemma SnapshotHolds(stored: Store, made: WalletState, w: WalletState, frequency: int)
    requires Inv(stored) && SnapshotDue(w.version, frequency)
    requires w == made.(balance := BalanceAfter(EventsOf(stored.log, made.id)),
      version := VersionOf(stored, made.id) + 1)
    ensures var s' := WithSnapshot(stored, w, frequency);
      && Inv(s') && s'.log == stored.log && VersionOf(s', made.id) == VersionOf(stored, made.id)
      && (made.version == 0 ==> WalletClients.TakenAfter(s', made.id, made, |EventsOf(s'.log, made.id)|))
      && s'.snapshots[made.id].version == w.version
  {
    var own := EventsOf(stored.log, made.id);
    assert own[..|own|] == own;
    SnapshotsAreApart(stored, stored.snapshots[made.id := Snapshot("wallet", w.version, w)]);
  }

  lemma SavedEvents(s: Store, made: WalletState, w: WalletState, e: EventRecord, c: Command, eventID: string, at: int,
    now: int)
    requires Inv(s) && Chained(EventsOf(s.log, made.id)) && Allowed(w, c) && e == Emitted(w, c, eventID, at)
    requires w == made.(balance := BalanceAfter(EventsOf(s.log, made.id)), version := VersionOf(s, made.id))
    ensures var own := EventsOf(Append(s, [e], now).log, made.id);
      && Inv(Append(s, [e], now)) && Chained(own) && BalanceAfter(own) == Outcome(w.balance, c)
      && VersionOf(Append(s, [e], now), made.id) == VersionOf(s, made.id) + 1
  {
    var own := EventsOf(s.log, made.id);
    assert IndexAgrees(s, made.id);
    WalletClients.SaveExtends(s, e, now, made.id);
    ChainBalances(own);
    ChainedSnoc(own, Stamp(e, s.counter + 1, VersionOf(s, made.id) + 1, now));
  }

  function Base(snapshot: Option<Snapshot>, made: WalletState): WalletState
  {
    if snapshot.Some? then FromSnapshot(snapshot.value) else made
  }

  function TailFrom(snapshot: Option<Snapshot>): int
  {
    if snapshot.Some? then snapshot.value.version + 1 else 0
  }

  lemma LoadIs(s: Store, id: string, made: WalletState, snapshot: Option<Snapshot>)
    requires snapshot == SnapshotOf(s, id)
    ensures WalletEvents.Load(s, id, made) == Replay(Base(snapshot, made), IndexedQuery(s, id, TailFrom(snapshot)))
  {
  }

  lemma LoadVersionIs(s: Store, id: string, version: int, made: WalletState, snapshot: Option<Snapshot>)
    requires snapshot == SnapshotOf(s, id)
    ensures var usable := if snapshot.Some? && snapshot.value.version > version then None else snapshot;
      WalletEvents.LoadVersion(s, id, version, made)
      == Replay(Base(usable, made), MemoryQuery(s.log, VersionRange(id, TailFrom(usable), version)))
  {
  }

  class Repository {
    const eventStore: MemoryEventStore
    const snapshotFrequency: int

    constructor (eventStore: MemoryEventStore, snapshotFrequency: int)
      ensures this.eventStore == eventStore && this.snapshotFrequency == snapshotFrequency
    {
      this.eventStore, this.snapshotFrequency := eventStore, snapshotFrequency;
    }

    /** Writes the metadata on an event that is not stored. */
    method TagEvent(event: Event, id: string, causedBy: string)
      requires eventStore.Valid() && event !in eventStore.events
      modifies event
      ensures event.Record() == Tag(old(event.Record()), id, causedBy)
      ensures eventStore.Valid() && eventStore.View() == old(eventStore.View())
    {
      event.aggregateID := id;
      event.aggregateType := "wallet";
      event.causedBy := causedBy;
    }

    /** Writes the metadata on a batch that is not stored. */
    method TagEvents(batch: seq<Event>, id: string, causedBy: string)
      requires eventStore.Valid() && forall e :: e in batch ==> e !in eventStore.events
      modifies batch
      ensures Records(batch) == TagAll(old(Records(batch)), id, causedBy)
      ensures eventStore.Valid() && eventStore.View() == old(eventStore.View())
    {
      ghost var were, view := Records(batch), eventStore.View();
      for k := 0 to |batch|
        invariant eventStore.Valid() && eventStore.View() == view
        invariant forall i :: 0 <= i < k ==> batch[i].Record() == Tag(were[i], id, causedBy)
        invariant forall i :: k <= i < |batch| ==>
          batch[i].Record() == were[i] || batch[i].Record() == Tag(were[i], id, causedBy)
      {
        TagEvent(batch[k], id, causedBy);
      }
    }

    /** Takes a snapshot if one is due. */
    method CreateSnapshot(aggregate: WalletAggregate)
      requires eventStore.Valid()
      modifies eventStore`snapshots
      ensures eventStore.Valid()
      ensures eventStore.View() == WithSnapshot(old(eventStore.View()), aggregate.State(), snapshotFrequency)
    {
      if snapshotFrequency > 0 && aggregate.version % snapshotFrequency == 0 {
        eventStore.CreateSnapshot(aggregate.id, Snapshot("wallet", aggregate.version, aggregate.State()));
      }
    }

    /** Tags a batch and appends it. */
    method Persist(batch: seq<Event>, id: string, causedBy: string, contextDone: bool, now: int)
      returns (r: AppendResult)
      requires eventStore.Valid() && batch != [] && forall e :: e in batch ==> e !in eventStore.events
      modifies eventStore, batch
      ensures eventStore.Valid()
      ensures r.Accepted? <==> SaveFits(old(eventStore.View()), batch, old(Records(batch)), id, contextDone)
      ensures r.Accepted? ==>
        eventStore.View() == Append(old(eventStore.View()), TagAll(old(Records(batch)), id, causedBy), now)
      ensures r.Refused? ==> eventStore.View() == old(eventStore.View()).(counter := eventStore.sequenceCounter)
    {
      ghost var were, before := Records(batch), eventStore.View();
      TagEvents(batch, id, causedBy);
      TaggedFits(were, id, causedBy, VersionOf(before, id));
      r := eventStore.AppendEvents(batch, contextDone, now);
    }

    /** Saves what is uncommitted: all of it, exactly when every event names the
        version that is next for it; then a snapshot if one is due.  A refused save
        keeps the events waiting and changes nothing in the store but its counter. */
    method Save(aggregate: WalletAggregate, causedBy: string, contextDone: bool, now: int) returns (r: AppendResult)
      requires eventStore.Valid()
      requires forall e :: e in aggregate.uncommittedEvents ==> e !in eventStore.events
      modifies eventStore, aggregate`uncommittedEvents, aggregate.uncommittedEvents
      ensures eventStore.Valid()
      ensures aggregate.State() == old(aggregate.State())
      ensures old(aggregate.uncommittedEvents) == [] ==> r.Accepted? && eventStore.View() == old(eventStore.View())
      ensures old(aggregate.uncommittedEvents) != [] ==>
        (r.Accepted? <==> SaveFits(old(eventStore.View()), old(aggregate.uncommittedEvents),
          old(Records(aggregate.uncommittedEvents)), aggregate.id, contextDone))
      ensures r.Accepted? ==> aggregate.uncommittedEvents == []
      ensures r.Accepted? && old(aggregate.uncommittedEvents) != [] ==>
        eventStore.View() == Saved(old(eventStore.View()), old(Records(aggregate.uncommittedEvents)), aggregate.State(),
          causedBy, now, snapshotFrequency)
      ensures r.Refused? ==> aggregate.uncommittedEvents == old(aggregate.uncommittedEvents)
      ensures r.Refused? ==> eventStore.View() == old(eventStore.View()).(counter := eventStore.sequenceCounter)
    {
      if |aggregate.uncommittedEvents| == 0 {
        return Accepted;
      }
      r := Persist(aggregate.uncommittedEvents, aggregate.id, causedBy, contextDone, now);
      if r.Refused? {
        return;
      }
      CreateSnapshot(aggregate);
      aggregate.uncommittedEvents := [];
    }

    /** Applies events in order, each followed by taking its version. */
    method ApplyAll(aggregate: WalletAggregate, events: seq<Event>) returns (ok: bool)
      requires eventStore.Valid()
      modifies aggregate`balance, aggregate`version
      ensures ok == Replay(old(aggregate.State()), Records(events)).Some?
      ensures ok ==> aggregate.State() == Replay(old(aggregate.State()), Records(events)).value
      ensures eventStore.View() == old(eventStore.View())
        && aggregate.uncommittedEvents == old(aggregate.uncommittedEvents)
    {
      ghost var records := Records(events);
      ghost var goal := Replay(aggregate.State(), records);
      for k := 0 to |events|
        invariant Replay(aggregate.State(), records[k..]) == goal
      {
        assert records[k..][0] == events[k].Record() && records[k..][1..] == records[k + 1..];
        var applied := aggregate.ApplyEvent(events[k]);
        if !applied {
          return false;
        }
        aggregate.version := events[k].aggregateVersion;
      }
      return true;
    }

    /** Replays one aggregate's events from a version on. */
    method ReplayIndexed(aggregate: WalletAggregate, id: string, fromVersion: int) returns (ok: bool)
      requires eventStore.Valid()
      modifies aggregate`balance, aggregate`version
      ensures ok == Replay(old(aggregate.State()), IndexedQuery(eventStore.View(), id, fromVersion)).Some?
      ensures ok ==>
        aggregate.State() == Replay(old(aggregate.State()), IndexedQuery(eventStore.View(), id, fromVersion)).value
      ensures eventStore.View() == old(eventStore.View())
        && aggregate.uncommittedEvents == old(aggregate.uncommittedEvents)
    {
      var events := eventStore.GetEventsByAggregate(id, fromVersion, false);
      ok := ApplyAll(aggregate, events.value);
    }

    /** Replays one aggregate's events of a range of versions. */
    method ReplayRange(aggregate: WalletAggregate, id: string, from: int, to: int) returns (ok: bool)
      requires eventStore.Valid()
      modifies aggregate`balance, aggregate`version
      ensures ok == Replay(old(aggregate.State()), MemoryQuery(eventStore.View().log, VersionRange(id, from, to))).Some?
      ensures ok ==>
        aggregate.State()
        == Replay(old(aggregate.State()), MemoryQuery(eventStore.View().log, VersionRange(id, from, to))).value
      ensures eventStore.View() == old(eventStore.View())
        && aggregate.uncommittedEvents == old(aggregate.uncommittedEvents)
    {
      var events := eventStore.GetEvents(VersionRange(id, from, to), false);
      ok := ApplyAll(aggregate, events.value);
    }

    /** A new aggregate, with a snapshot's state put in place if there is one, and
        the version from which to replay. */
    method Start(id: string, userID: string, currency: string, snapshot: Option<Snapshot>)
      returns (aggregate: WalletAggregate, fromVersion: int)
      requires eventStore.Valid()
      ensures eventStore.Valid() && eventStore.View() == old(eventStore.View())
      ensures fresh(aggregate) && aggregate.uncommittedEvents == []
      ensures aggregate.State() == Base(snapshot, NewWallet(id, userID, currency)) && fromVersion == TailFrom(snapshot)
    {
      aggregate := new WalletAggregate(id, userID, currency);
      fromVersion := 0;
      if snapshot.Some? {
        aggregate.LoadFromSnapshot(snapshot.value.data);
        aggregate.version := snapshot.value.version;
        fromVersion := snapshot.value.version + 1;
      }
    }

    method Load(id: string, userID: string, currency: string) returns (ok: bool, aggregate: WalletAggregate)
      requires eventStore.Valid()
      ensures fresh(aggregate) && aggregate.uncommittedEvents == []
      ensures ok == WalletEvents.Load(eventStore.View(), id, NewWallet(id, userID, currency)).Some?
      ensures ok ==>
        aggregate.State() == WalletEvents.Load(eventStore.View(), id, NewWallet(id, userID, currency)).value
    {
      var snapshot := eventStore.GetSnapshot(id);
      LoadIs(eventStore.View(), id, NewWallet(id, userID, currency), snapshot);
      var fromVersion;
      aggregate, fromVersion := Start(id, userID, currency, snapshot);
      ok := ReplayIndexed(aggregate, id, fromVersion);
    }

    method LoadVersion(id: string, version: int, userID: string, currency: string)
      returns (ok: bool, aggregate: WalletAggregate)
      requires eventStore.Valid()
      ensures fresh(aggregate) && aggregate.uncommittedEvents == []
      ensures ok == WalletEvents.LoadVersion(eventStore.View(), id, version, NewWallet(id, userID, currency)).Some?
      ensures ok ==>
        aggregate.State()
        == WalletEvents.LoadVersion(eventStore.View(), id, version, NewWallet(id, userID, currency)).value
    {
      var snapshot := eventStore.GetSnapshot(id);
      LoadVersionIs(eventStore.View(), id, version, NewWallet(id, userID, currency), snapshot);
      if snapshot.Some? && snapshot.value.version > version {
        snapshot := None;
      }
      var fromVersion;
      aggregate, fromVersion := Start(id, userID, currency, snapshot);
      ok := ReplayRange(aggregate, id, fromVersion, version);
    }
  }
}
