/** The in-memory event store as objects: shared events that an append stamps in
    place, a log and an index that both point at them, and read methods that scan.
    `View` is the store's value; Valid says it satisfies the log invariant. */
module EventStore {
  import opened Optional
  import opened EventLog

  /** An event is shared by whoever made it and the store that holds it. */
  class Event {
    const id: string
    const eventType: string
    const payload: Payload
    var aggregateID: string
    var aggregateType: string
    var causedBy: string
    var aggregateVersion: int
    var sequenceNumber: int
    var createdAt: int

    constructor (id: string, aggregateID: string, aggregateType: string, eventType: string, payload: Payload,
      causedBy: string, createdAt: int)
      ensures Record() == EventRecord(id, aggregateID, aggregateType, eventType, 0, 0, createdAt, causedBy, payload)
    {
      this.id, this.eventType, this.payload := id, eventType, payload;
      this.aggregateID, this.aggregateType, this.causedBy := aggregateID, aggregateType, causedBy;
      aggregateVersion, sequenceNumber, this.createdAt := 0, 0, createdAt;
    }

    function Record(): EventRecord
      reads this
    {
      EventRecord(id, aggregateID, aggregateType, eventType, aggregateVersion, sequenceNumber, createdAt, causedBy,
        payload)
    }
  }

  function Records(events: seq<Event>): (r: seq<EventRecord>)
    reads events
    ensures |r| == |events|
    ensures forall i :: 0 <= i < |r| ==> r[i] == events[i].Record()
  {
    seq(|events|, i requires 0 <= i < |events| reads events => events[i].Record())
  }

  lemma RecordsSnoc(events: seq<Event>, e: Event)
    ensures Records(events + [e]) == Records(events) + [e.Record()]
  {
  }

  lemma TakeNext<T>(s: seq<T>, k: nat)
    requires k < |s|
    ensures s[..k + 1] == s[..k] + [s[k]]
  {
  }

  predicate Distinct(batch: seq<Event>)
  {
    forall i, j :: 0 <= i < j < |batch| ==> batch[i] != batch[j]
  }

  /** The first `at` events of a batch have been stamped and are new to the store;
      the others are as they `were`, unless met before.  `records` are their values. */
  predicate StampedUpTo(batch: seq<Event>, records: seq<EventRecord>, stored: seq<Event>, were: seq<EventRecord>,
                        at: nat, counter: int, version: int, now: int)
  {
    && at <= |batch| == |records| == |were|
    && (forall i :: 0 <= i < at ==> batch[i] !in stored && VersionFits(were[i], version + i + 1))
    && (forall i :: 0 <= i < at ==> records[i] == Stamp(were[i], counter + i + 1, version + i + 1, now))
    && (forall i, j :: 0 <= i < j < at ==> batch[i] != batch[j])
    && (forall i :: at <= i < |batch| ==> batch[i] in batch[..at] || records[i] == were[i])
  }

  lemma StampedOneMore(batch: seq<Event>, before: seq<EventRecord>, records: seq<EventRecord>, stored: seq<Event>,
                       were: seq<EventRecord>, at: nat, counter: int, version: int, now: int)
    requires at < |batch| == |records| && StampedUpTo(batch, before, stored, were, at, counter, version, now)
    requires batch[at] !in batch[..at] && batch[at] !in stored && VersionFits(were[at], version + at + 1)
    requires forall i :: 0 <= i < |batch| && batch[i] != batch[at] ==> records[i] == before[i]
    requires records[at] == Stamp(were[at], counter + at + 1, version + at + 1, now)
    ensures StampedUpTo(batch, records, stored, were, at + 1, counter, version, now)
  {
    assert batch[..at + 1] == batch[..at] + [batch[at]];
    forall i | 0 <= i < at
      ensures batch[i] != batch[at]
    {
      assert batch[..at][i] == batch[i];
    }
  }

  lemma StampStops(batch: seq<Event>, were: seq<EventRecord>, at: nat, version: int)
    requires at < |batch| == |were| && (!VersionFits(were[at], version + at + 1) || batch[at] in batch[..at])
    ensures !BatchFits(were, version) || !Distinct(batch)
  {
    if batch[at] in batch[..at] {
      var k :| 0 <= k < at && batch[..at][k] == batch[at];
      assert batch[k] == batch[at];
    }
  }

  lemma StampEnds(batch: seq<Event>, records: seq<EventRecord>, stored: seq<Event>, were: seq<EventRecord>,
                  counter: int, version: int, now: int)
    requires StampedUpTo(batch, records, stored, were, |batch|, counter, version, now)
    ensures BatchFits(were, version) && Distinct(batch)
    ensures records == StampAll(were, counter, version, now)
    ensures forall e :: e in batch ==> e !in stored
  {
  }

  class MemoryEventStore {
    var events: seq<Event>
    var eventsByAggregate: map<string, seq<Event>>
    var aggregateVersions: map<string, int>
    var snapshots: map<string, Snapshot>
    var sequenceCounter: int
    var closed: bool

    constructor ()
      ensures Valid() && View() == EmptyStore() && events == []
    {
      events, eventsByAggregate, aggregateVersions := [], map[], map[];
      snapshots, sequenceCounter, closed := map[], 0, false;
      new;
      EmptyInv();
      assert View() == EmptyStore();
    }

    /** Every indexed event is in the log. */
    ghost predicate Linked()
      reads this
    {
      forall a, i :: a in eventsByAggregate && 0 <= i < |eventsByAggregate[a]| ==> eventsByAggregate[a][i] in events
    }

    ghost function View(): Store
      requires Linked()
      reads this, events
    {
      Store(Records(events), map a | a in eventsByAggregate :: Records(eventsByAggregate[a]),
            aggregateVersions, sequenceCounter, snapshots, closed)
    }

    ghost predicate Valid()
      reads this, events
    {
      Linked() && Inv(View())
    }

    /** A stored event's version is positive and at most its aggregate's. */
    lemma StoredIsVersioned(e: Event)
      requires Valid() && e in events
      ensures 1 <= e.aggregateVersion <= VersionOf(View(), e.aggregateID)
    {
      var i :| 0 <= i < |events| && events[i] == e;
      StoredVersion(View(), i);
    }

    /** The check and stamp of one event, when nothing has been stored yet.  A
        stored event never passes the check, so what is stored is not touched. */
    method CheckAndStamp(event: Event, expected: int, now: int) returns (ok: bool)
      requires Valid() && (event in events ==> !VersionFits(event.Record(), expected))
      modifies this`sequenceCounter, event`sequenceNumber, event`aggregateVersion, event`createdAt
      ensures Valid() && View() == old(View()).(counter := sequenceCounter)
      ensures ok == VersionFits(old(event.Record()), expected)
      ensures sequenceCounter == old(sequenceCounter) + (if ok then 1 else 0)
      ensures event.Record()
        == if ok then Stamp(old(event.Record()), sequenceCounter, expected, now) else old(event.Record())
      ensures event in events ==> event.Record() == old(event.Record())
    {
      if event.aggregateVersion > 0 && event.aggregateVersion != expected {
        return false;
      }
      ghost var view := View();
      sequenceCounter := sequenceCounter + 1;
      event.sequenceNumber := sequenceCounter;
      event.aggregateVersion := expected;
      if event.createdAt == 0 {
        event.createdAt := now;
      }
      assert View().log == view.log;
      forall a | a in eventsByAggregate
        ensures Records(eventsByAggregate[a]) == old(Records(eventsByAggregate[a]))
      {
      }
      assert View().index == view.index;
      CounterMayGrow(view, sequenceCounter);
      return true;
    }

    /** One turn of the stamping loop.  It stops at an event that names another
        version, which includes any that is stored already or was met before. */
    method StampNext(batch: seq<Event>, at: nat, version: int, now: int,
                     ghost were: seq<EventRecord>, ghost counter: int) returns (ok: bool)
      requires Valid() && at < |batch| && StampedUpTo(batch, Records(batch), events, were, at, counter, version, now)
      requires version == VersionOf(View(), batch[at].aggregateID) && version >= 0 && sequenceCounter == counter + at
      modifies this`sequenceCounter, batch
      ensures Valid() && View() == old(View()).(counter := sequenceCounter)
      ensures sequenceCounter == old(sequenceCounter) + (if ok then 1 else 0)
      ensures StampedUpTo(batch, Records(batch), events, were, if ok then at + 1 else at, counter, version, now)
      ensures ok == (VersionFits(were[at], version + at + 1) && batch[at] !in batch[..at])
      ensures forall e :: e in batch ==> e.aggregateID == old(e.aggregateID)
    {
      var event := batch[at];
      ghost var before, was := Records(batch), event.Record();
      if event in batch[..at] {
        assert was.version > 0 && was.version != version + at + 1;
      }
      if event in events {
        StoredIsVersioned(event);
      }
      ok := CheckAndStamp(event, version + at + 1, now);
      if ok {
        StampedOneMore(batch, before, Records(batch), events, were, at, counter, version, now);
      }
    }

    /** The stamping loop: it stops at the first event that names another version or
        was met before. */
    method StampWhileFits(batch: seq<Event>, version: int, now: int, ghost were: seq<EventRecord>) returns (at: nat)
      requires Valid() && were == Records(batch) && version >= 0
      requires forall i :: 0 <= i < |batch| ==> version == VersionOf(View(), batch[i].aggregateID)
      modifies this`sequenceCounter, batch
      ensures Valid() && at <= |batch| && View() == old(View()).(counter := old(sequenceCounter) + at)
      ensures StampedUpTo(batch, Records(batch), events, were, at, old(sequenceCounter), version, now)
      ensures at < |batch| ==> !VersionFits(were[at], version + at + 1) || batch[at] in batch[..at]
      ensures forall e :: e in batch ==> e.aggregateID == old(e.aggregateID)
    {
      ghost var before, counter := View(), sequenceCounter;
      at := 0;
      while at < |batch|
        invariant Valid() && at <= |batch| && View() == before.(counter := counter + at)
        invariant StampedUpTo(batch, Records(batch), events, were, at, counter, version, now)
        invariant forall i :: 0 <= i < |batch| ==> batch[i].aggregateID == were[i].aggregateID
      {
        var ok := StampNext(batch, at, version, now, were, counter);
        if !ok {
          return;
        }
        at := at + 1;
      }
    }

    /** Checks and stamps a batch of one aggregate in order, up to the first event that does not fit. */
    method StampBatch(batch: seq<Event>, aggregateID: string, now: int) returns (at: nat)
      requires Valid() && forall i :: 0 <= i < |batch| ==> batch[i].aggregateID == aggregateID
      modifies this`sequenceCounter, batch
      ensures Valid() && at <= |batch| && View() == old(View()).(counter := old(sequenceCounter) + at)
      ensures forall e :: e in batch ==> e.aggregateID == old(e.aggregateID)
      ensures at == |batch| <==>
        BatchFits(old(Records(batch)), old(VersionOf(View(), aggregateID))) && Distinct(batch)
      ensures at == |batch| ==>
        Records(batch) == StampAll(old(Records(batch)), old(sequenceCounter), old(VersionOf(View(), aggregateID)), now)
      ensures at == |batch| ==> forall e :: e in batch ==> e !in events
    {
      ghost var were, before, counter := Records(batch), View(), sequenceCounter;
      var version := if aggregateID in aggregateVersions then aggregateVersions[aggregateID] else 0;
      assert version == VersionOf(before, aggregateID) >= 0 by {
        assert IndexAgrees(before, aggregateID);
      }
      at := StampWhileFits(batch, version, now, were);
      if at < |batch| {
        StampStops(batch, were, at, version);
      } else {
        StampEnds(batch, Records(batch), events, were, counter, version, now);
      }
    }

    /** The index's value when only the entry of `a` may differ from a given one. */
    lemma IndexIs(index: map<string, seq<EventRecord>>, a: string)
      requires Linked() && a in eventsByAggregate
      requires forall k :: k in index ==> k in eventsByAggregate
      requires forall k :: k in eventsByAggregate && k != a ==> k in index && Records(eventsByAggregate[k]) == index[k]
      ensures View().index == index[a := Records(eventsByAggregate[a])]
    {
    }

    /** Adds one stamped event to the log and to its aggregate's index. */
    method Link(event: Event)
      requires Linked()
      modifies this`events, this`eventsByAggregate
      ensures Linked() && events == old(events) + [event]
      ensures View() == LinkAll(old(View()), [event.Record()], event.aggregateID)
    {
      ghost var before := View();
      events := events + [event];
      var own := if event.aggregateID in eventsByAggregate then eventsByAggregate[event.aggregateID] else [];
      eventsByAggregate := eventsByAggregate[event.aggregateID := own + [event]];
      RecordsSnoc(own, event);
      RecordsSnoc(old(events), event);
      IndexIs(before.index, event.aggregateID);
    }

    /** Adds a stamped batch to the log and the index, in order. */
    method LinkEach(batch: seq<Event>, aggregateID: string)
      requires Linked() && forall i :: 0 <= i < |batch| ==> batch[i].aggregateID == aggregateID
      modifies this`events, this`eventsByAggregate
      ensures Linked() && events == old(events) + batch
      ensures View() == LinkAll(old(View()), Records(batch), aggregateID)
    {
      ghost var before, all := View(), Records(batch);
      var k := 0;
      while k < |batch|
        invariant k <= |batch| && Linked() && events == old(events) + batch[..k]
        invariant View() == LinkAll(before, all[..k], aggregateID)
      {
        LinkTake(before, all, k, aggregateID);
        TakeNext(batch, k);
        Link(batch[k]);
        k := k + 1;
      }
      assert all[..k] == all;
      assert batch[..k] == batch;
    }

    /** Adds a stamped batch, then records the aggregate's new version. */
    method LinkBatch(batch: seq<Event>, aggregateID: string)
      requires Linked() && batch != [] && forall i :: 0 <= i < |batch| ==> batch[i].aggregateID == aggregateID
      modifies this`events, this`eventsByAggregate, this`aggregateVersions
      ensures Linked() && events == old(events) + batch
      ensures View() == LinkAll(old(View()), Records(batch), aggregateID).(versions :=
        old(aggregateVersions)[aggregateID := Records(batch)[|batch| - 1].version])
    {
      LinkEach(batch, aggregateID);
      ghost var linked := View();
      aggregateVersions := aggregateVersions[aggregateID := batch[|batch| - 1].aggregateVersion];
      assert View().log == linked.log && View().index == linked.index;
    }

    /** The check that comes before any event is stamped. */
    method OfOneAggregate(batch: seq<Event>) returns (ok: bool)
      requires batch != []
      ensures ok == OneAggregate(Records(batch))
      ensures ok ==> forall i :: 0 <= i < |batch| ==> batch[i].aggregateID == batch[0].aggregateID
    {
      for k := 0 to |batch|
        invariant forall i :: 0 <= i < k ==> batch[i].aggregateID == batch[0].aggregateID
      {
        if batch[k].aggregateID != batch[0].aggregateID {
          assert Records(batch)[k].aggregateID != Records(batch)[0].aggregateID;
          return false;
        }
      }
      return true;
    }

    /** Stamps a batch of one aggregate and, if all of it fits, stores it whole. */
    method StampAndLink(batch: seq<Event>, aggregateID: string, now: int) returns (r: AppendResult)
      requires Valid() && batch != [] && forall i :: 0 <= i < |batch| ==> batch[i].aggregateID == aggregateID
      modifies this, batch
      ensures Valid()
      ensures r.Accepted? <==> Distinct(batch) && BatchFits(old(Records(batch)), VersionOf(old(View()), aggregateID))
      ensures r.Accepted? ==> View() == Append(old(View()), old(Records(batch)), now)
      ensures r.Accepted? ==> events == old(events) + batch && forall e :: e in batch ==> e !in old(events)
      ensures r.Refused? ==> r.error.Conflict?
      ensures r.Refused? ==> events == old(events) && sequenceCounter >= old(sequenceCounter)
      ensures r.Refused? ==> View() == old(View()).(counter := sequenceCounter)
      ensures forall e :: e in old(events) ==> e.Record() == old(e.Record())
    {
      ghost var before, were := View(), Records(batch);
      var at := StampBatch(batch, aggregateID, now);
      assert forall i :: 0 <= i < |events| ==> View().log[i] == before.log[i];
      if at < |batch| {
        return Refused(Conflict(at));
      }
      LinkBatch(batch, aggregateID);
      LinkedIsAppended(before, were, now);
      assert View() == Append(before, were, now);
      AppendKeepsInv(before, were, now);
      return Accepted;
    }

    /** A batch is accepted exactly when the store is open, its events are of one
        aggregate and distinct, and each names no version or the next one; it is
        then stored whole.  Refused, it leaves log, index and versions as they were.
        A batch with an event that is stored already is always refused. */
    method AppendEvents(batch: seq<Event>, contextDone: bool, now: int) returns (r: AppendResult)
      requires Valid()
      modifies this, batch
      ensures Valid()
      ensures batch == [] && !contextDone ==> r.Accepted? && View() == old(View())
      ensures batch != [] ==> (r.Accepted? <==>
        && !contextDone && !old(closed) && OneAggregate(old(Records(batch))) && Distinct(batch)
        && BatchFits(old(Records(batch)), VersionOf(old(View()), old(Records(batch))[0].aggregateID)))
      ensures batch != [] && r.Accepted? ==>
        forall i :: 0 <= i < |batch| ==>
          old(batch[i].aggregateVersion) <= 0
          || old(batch[i].aggregateVersion) == VersionOf(old(View()), old(batch[0].aggregateID)) + 1 + i
      ensures r.Refused? ==>
        if contextDone then r.error == ContextDone
        else if !OneAggregate(old(Records(batch))) then r.error == MixedAggregates
        else if old(closed) then r.error == StoreClosed
        else r.error.Conflict?
      ensures r.Refused? && r.error.Conflict? && Distinct(batch) ==>
        exists i :: 0 <= i < |batch| && old(batch[i].aggregateVersion) > 0
          && old(batch[i].aggregateVersion) != VersionOf(old(View()), old(batch[0].aggregateID)) + 1 + i
      ensures batch != [] && r.Accepted? ==> View() == Append(old(View()), old(Records(batch)), now)
      ensures r.Accepted? ==> events == old(events) + batch && forall e :: e in batch ==> e !in old(events)
      ensures r.Refused? ==> events == old(events) && sequenceCounter >= old(sequenceCounter)
      ensures r.Refused? ==> View() == old(View()).(counter := sequenceCounter)
      ensures forall e :: e in old(events) ==> e.Record() == old(e.Record())
    {
      if contextDone {
        return Refused(ContextDone);
      }
      if |batch| == 0 {
        return Accepted;
      }
      var aggregateID := batch[0].aggregateID;
      var ok := OfOneAggregate(batch);
      if !ok {
        return Refused(MixedAggregates);
      }
      if closed {
        return Refused(StoreClosed);
      }
      r := StampAndLink(batch, aggregateID, now);
    }

    /** Checks one event's version, and stamps and stores it if it fits. */
    method StoreOne(event: Event, now: int) returns (ok: bool)
      requires Valid()
      modifies this, event
      ensures Valid()
      ensures ok <==>
        || old(event.aggregateVersion) <= 0
        || old(event.aggregateVersion) == VersionOf(old(View()), old(event.aggregateID)) + 1
      ensures ok ==> View() == Append(old(View()), [old(event.Record())], now) && events == old(events) + [event]
      ensures !ok ==> View() == old(View()) && events == old(events) && event.Record() == old(event.Record())
      ensures event in old(events) ==> !ok
    {
      var currentVersion := if event.aggregateID in aggregateVersions then aggregateVersions[event.aggregateID] else 0;
      ghost var before, was := View(), event.Record();
      if event in events {
        StoredIsVersioned(event);
      }
      ok := CheckAndStamp(event, currentVersion + 1, now);
      if ok {
        assert [event][0] == event;
        assert Records([event]) == StampAll([was], before.counter, currentVersion, now);
        LinkBatch([event], event.aggregateID);
        LinkedIsAppended(before, [was], now);
        assert View() == Append(before, [was], now);
        AppendKeepsInv(before, [was], now);
      }
    }

    /** One event is accepted exactly when the store is open, the event has its
        required fields, and it names no version or the next one.  A stored event
        appended again is refused and keeps its values. */
    method AppendEvent(event: Event, contextDone: bool, now: int) returns (r: AppendResult)
      requires Valid()
      modifies this, event
      ensures Valid()
      ensures r.Accepted? <==>
        && !contextDone && !old(closed)
        && old(event.aggregateID) != "" && old(event.aggregateType) != "" && event.eventType != ""
        && (|| old(event.aggregateVersion) <= 0
            || old(event.aggregateVersion) == VersionOf(old(View()), old(event.aggregateID)) + 1)
      ensures r.Refused? ==>
        var missing := event.aggregateID == "" || event.aggregateType == "" || event.eventType == "";
        r.error == (if contextDone then ContextDone
                    else if old(closed) then StoreClosed
                    else if missing then MissingFields
                    else Conflict(0))
      ensures r.Accepted? ==>
        View() == Append(old(View()), [old(event.Record())], now) && events == old(events) + [event]
      ensures r.Refused? ==> View() == old(View()) && events == old(events) && event.Record() == old(event.Record())
      ensures event in old(events) ==> r.Refused?
    {
      if contextDone {
        return Refused(ContextDone);
      }
      if closed {
        return Refused(StoreClosed);
      }
      if event.aggregateID == "" || event.aggregateType == "" || event.eventType == "" {
        return Refused(MissingFields);
      }
      var ok := StoreOne(event, now);
      return if ok then Accepted else Refused(Conflict(0));
    }

    /** The scan of the whole log, before the page is cut. */
    method Scan(filter: EventFilter) returns (result: seq<Event>)
      requires Valid()
      ensures Records(result) == Select(View().log, ByMemory(filter))
      ensures forall e :: e in result ==> e in events
    {
      result := [];
      ghost var log := View().log;
      for k := 0 to |events|
        invariant forall e :: e in result ==> e in events
        invariant Records(result) == Select(log[..k], ByMemory(filter))
      {
        SelectTake(log, k, ByMemory(filter));
        if MatchesMemory(events[k].Record(), filter) {
          RecordsSnoc(result, events[k]);
          result := result + [events[k]];
        }
      }
      assert log[..|events|] == log;
    }

    /** The events a filter selects, in order, cut to its page. */
    method GetEvents(filter: EventFilter, contextDone: bool) returns (r: Option<seq<Event>>)
      requires Valid()
      ensures r.None? <==> contextDone
      ensures r.Some? ==> Records(r.value) == MemoryQuery(View().log, filter)
      ensures r.Some? ==> forall e :: e in r.value ==> e in events
    {
      if contextDone {
        return None;
      }
      var result := Scan(filter);
      ghost var rows := Records(result);
      if filter.offset.Some? && filter.offset.value > 0 {
        if filter.offset.value >= |result| {
          return Some([]);
        }
        result := result[filter.offset.value..];
        assert Records(result) == rows[filter.offset.value..];
      }
      rows := Records(result);
      if filter.limit.Some? && filter.limit.value > 0 && |result| > filter.limit.value {
        result := result[..filter.limit.value];
        assert Records(result) == rows[..filter.limit.value];
      }
      return Some(result);
    }

    /** One aggregate's events from a version on, read through its index. */
    method GetEventsByAggregate(aggregateID: string, fromVersion: int, contextDone: bool)
      returns (r: Option<seq<Event>>)
      requires Valid()
      ensures r.None? <==> contextDone
      ensures r.Some? ==> Records(r.value) == IndexedQuery(View(), aggregateID, fromVersion)
      ensures r.Some? ==> forall e :: e in r.value ==> e in events
    {
      if contextDone {
        return None;
      }
      if aggregateID !in eventsByAggregate {
        return Some([]);
      }
      var own := eventsByAggregate[aggregateID];
      var result: seq<Event> := [];
      ghost var indexed := Indexed(View(), aggregateID);
      for k := 0 to |own|
        invariant forall e :: e in result ==> e in events
        invariant Records(result) == Select(indexed[..k], SinceVersion(fromVersion))
      {
        SelectTake(indexed, k, SinceVersion(fromVersion));
        if own[k].aggregateVersion >= fromVersion {
          RecordsSnoc(result, own[k]);
          result := result + [own[k]];
        }
      }
      assert indexed[..|own|] == indexed;
      return Some(result);
    }

    /** Keeps one snapshot an aggregate: the latest given. */
    method CreateSnapshot(aggregateID: string, snapshot: Snapshot)
      requires Valid()
      modifies this`snapshots
      ensures Valid() && View() == old(View()).(snapshots := old(snapshots)[aggregateID := snapshot])
    {
      ghost var before := View();
      snapshots := snapshots[aggregateID := snapshot];
      assert View().index == before.index;
      SnapshotsAreApart(before, snapshots);
    }

    method GetSnapshot(aggregateID: string) returns (r: Option<Snapshot>)
      ensures r == if aggregateID in snapshots then Some(snapshots[aggregateID]) else None
    {
      if aggregateID !in snapshots {
        return None;
      }
      return Some(snapshots[aggregateID]);
    }
  }
}
