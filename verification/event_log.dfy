/** The event log as a value: what a store holds, what an append adds, what a
    query selects, and the invariant that ties log, index and versions together. */
module EventLog {
  import opened Optional

  /** The JSON payload of an event: of a wallet command, of a projected wallet
      movement, of a payment's start or end, or of no known shape. */
  datatype Payload =
    | BalanceChange(amount: int, previousBalance: int, newBalance: int)
    | WalletMovement(userID: string, currency: string, amount: int, previousBalance: int, newBalance: int)
    | PaymentStart(userID: string, amount: int)
    | PaymentEnd
    | Opaque

  /** `createdAt` is 0 when unset. */
  datatype EventRecord = EventRecord(
    id: string, aggregateID: string, aggregateType: string, eventType: string,
    version: int, sequence: int, createdAt: int, causedBy: string, payload: Payload)

  /** The JSON of a wallet snapshot. */
  datatype WalletState = WalletState(id: string, userID: string, currency: string, balance: int, version: int)

  datatype Snapshot = Snapshot(aggregateType: string, version: int, data: WalletState)

  datatype Store = Store(
    log: seq<EventRecord>,
    index: map<string, seq<EventRecord>>,
    versions: map<string, int>,
    counter: int,
    snapshots: map<string, Snapshot>,
    closed: bool)

  function EmptyStore(): Store
  {
    Store([], map[], map[], 0, map[], false)
  }

  function VersionOf(s: Store, aggregateID: string): int
  {
    if aggregateID in s.versions then s.versions[aggregateID] else 0
  }

  function Indexed(s: Store, aggregateID: string): seq<EventRecord>
  {
    if aggregateID in s.index then s.index[aggregateID] else []
  }

  /** The part of a log that belongs to one aggregate, in order. */
  function EventsOf(log: seq<EventRecord>, aggregateID: string): (r: seq<EventRecord>)
    ensures |r| <= |log|
  {
    if log == [] then []
    else
      var last := log[|log| - 1];
      EventsOf(log[..|log| - 1], aggregateID) + (if last.aggregateID == aggregateID then [last] else [])
  }

  lemma {:induction false} EventsOfConcat(a: seq<EventRecord>, b: seq<EventRecord>, aggregateID: string)
    ensures EventsOf(a + b, aggregateID) == EventsOf(a, aggregateID) + EventsOf(b, aggregateID)
  {
    if b == [] {
      assert a + b == a;
    } else {
      assert (a + b)[..|a + b| - 1] == a + b[..|b| - 1];
      EventsOfConcat(a, b[..|b| - 1], aggregateID);
    }
  }

  lemma {:induction false} EventsOfAll(log: seq<EventRecord>, aggregateID: string)
    requires forall i :: 0 <= i < |log| ==> log[i].aggregateID == aggregateID
    ensures EventsOf(log, aggregateID) == log
  {
    if log != [] {
      EventsOfAll(log[..|log| - 1], aggregateID);
    }
  }

  lemma {:induction false} EventsOfNone(log: seq<EventRecord>, aggregateID: string)
    requires forall i :: 0 <= i < |log| ==> log[i].aggregateID != aggregateID
    ensures EventsOf(log, aggregateID) == []
  {
    if log != [] {
      EventsOfNone(log[..|log| - 1], aggregateID);
    }
  }

  /** Every event is found among those of its own aggregate. */
  lemma {:induction false} FindsOwn(log: seq<EventRecord>, i: nat) returns (k: nat)
    requires i < |log|
    ensures k < |EventsOf(log, log[i].aggregateID)| && EventsOf(log, log[i].aggregateID)[k] == log[i]
  {
    var front := log[..|log| - 1];
    if i == |log| - 1 {
      k := |EventsOf(front, log[i].aggregateID)|;
    } else {
      k := FindsOwn(front, i);
    }
  }

  // ---------- appending ----------

  datatype AppendError = ContextDone | StoreClosed | MissingFields | MixedAggregates | Conflict(at: nat)

  datatype AppendResult = Accepted | Refused(error: AppendError)

  function Stamp(e: EventRecord, sequence: int, version: int, now: int): EventRecord
  {
    e.(sequence := sequence, version := version, createdAt := if e.createdAt == 0 then now else e.createdAt)
  }

  /** A batch as it is stored, when the counter stands at `counter` and the aggregate at `version`. */
  function StampAll(batch: seq<EventRecord>, counter: int, version: int, now: int): (r: seq<EventRecord>)
    ensures |r| == |batch|
    ensures forall i :: 0 <= i < |r| ==> r[i] == Stamp(batch[i], counter + i + 1, version + i + 1, now)
  {
    seq(|batch|, i requires 0 <= i < |batch| => Stamp(batch[i], counter + i + 1, version + i + 1, now))
  }

  /** A store in which stamped events have been added to the log and to the index of `a`. */
  function LinkAll(s: Store, stamped: seq<EventRecord>, a: string): Store
  {
    s.(log := s.log + stamped, index := if stamped == [] then s.index else s.index[a := Indexed(s, a) + stamped])
  }

  lemma LinkNext(s: Store, stamped: seq<EventRecord>, e: EventRecord, a: string)
    ensures LinkAll(LinkAll(s, stamped, a), [e], a) == LinkAll(s, stamped + [e], a)
  {
    assert (s.log + stamped) + [e] == s.log + (stamped + [e]);
    assert (Indexed(s, a) + stamped) + [e] == Indexed(s, a) + (stamped + [e]);
    assert Indexed(LinkAll(s, stamped, a), a) == Indexed(s, a) + stamped;
  }

  lemma LinkTake(s: Store, stamped: seq<EventRecord>, k: nat, a: string)
    requires k < |stamped|
    ensures LinkAll(LinkAll(s, stamped[..k], a), [stamped[k]], a) == LinkAll(s, stamped[..k + 1], a)
  {
    assert stamped[..k + 1] == stamped[..k] + [stamped[k]];
    LinkNext(s, stamped[..k], stamped[k], a);
  }

  /** An event that names a version must name the next one; 0 or less names none. */
  predicate VersionFits(e: EventRecord, expected: int)
  {
    e.version > 0 ==> e.version == expected
  }

  predicate BatchFits(batch: seq<EventRecord>, version: int)
  {
    forall i :: 0 <= i < |batch| ==> VersionFits(batch[i], version + i + 1)
  }

  predicate OneAggregate(batch: seq<EventRecord>)
  {
    forall i :: 0 <= i < |batch| ==> batch[i].aggregateID == batch[0].aggregateID
  }

  /** The store after it has accepted a batch of one aggregate. */
  function Append(s: Store, batch: seq<EventRecord>, now: int): Store
    requires batch != []
  {
    var a := batch[0].aggregateID;
    var stamped := StampAll(batch, s.counter, VersionOf(s, a), now);
    s.(log := s.log + stamped,
       index := s.index[a := Indexed(s, a) + stamped],
       versions := s.versions[a := VersionOf(s, a) + |batch|],
       counter := s.counter + |batch|)
  }

  lemma LinkedIsAppended(s: Store, batch: seq<EventRecord>, now: int)
    requires batch != []
    ensures var a := batch[0].aggregateID;
      var stamped := StampAll(batch, s.counter, VersionOf(s, a), now);
      LinkAll(s.(counter := s.counter + |batch|), stamped,
        a).(versions := s.versions[a := stamped[|stamped| - 1].version])
      == Append(s, batch, now)
  {
  }

  // ---------- the invariant ----------

  /** The index of an aggregate is its part of the log, its k-th event has version
      k, and its recorded version is how many there are. */
  ghost predicate IndexAgrees(s: Store, a: string)
  {
    && Indexed(s, a) == EventsOf(s.log, a)
    && VersionOf(s, a) == |EventsOf(s.log, a)|
    && Numbered(EventsOf(s.log, a))
  }

  predicate Numbered(events: seq<EventRecord>)
  {
    forall k :: 0 <= k < |events| ==> events[k].version == k + 1
  }

  predicate SequencesAgree(log: seq<EventRecord>, counter: int)
  {
    && 0 <= counter
    && (forall i :: 0 <= i < |log| ==> 0 < log[i].sequence <= counter)
    && (forall i, j :: 0 <= i < j < |log| ==> log[i].sequence < log[j].sequence)
  }

  ghost predicate Inv(s: Store)
  {
    SequencesAgree(s.log, s.counter) && forall a :: IndexAgrees(s, a)
  }

  lemma EmptyInv()
    ensures Inv(EmptyStore())
  {
    assert forall a :: IndexAgrees(EmptyStore(), a);
  }

  /** A stored event's version is between 1 and its aggregate's. */
  lemma StoredVersion(s: Store, i: nat)
    requires Inv(s) && i < |s.log|
    ensures 1 <= s.log[i].version <= VersionOf(s, s.log[i].aggregateID)
  {
    var k := FindsOwn(s.log, i);
    assert IndexAgrees(s, s.log[i].aggregateID);
  }

  /** What an append does to each aggregate's own events. */
  lemma AppendExtends(s: Store, batch: seq<EventRecord>, now: int, a: string)
    requires batch != [] && OneAggregate(batch)
    ensures EventsOf(Append(s, batch, now).log, a)
      == EventsOf(s.log, a)
         + (if a == batch[0].aggregateID then StampAll(batch, s.counter, VersionOf(s, a), now) else [])
  {
    var stamped := StampAll(batch, s.counter, VersionOf(s, batch[0].aggregateID), now);
    EventsOfConcat(s.log, stamped, a);
    if a == batch[0].aggregateID {
      EventsOfAll(stamped, a);
    } else {
      EventsOfNone(stamped, a);
    }
  }

  /** A stored event is the one that came in except for its sequence, its version, and a
      time that was not set; what was stored before stays. */
  lemma AppendKeepsFields(s: Store, batch: seq<EventRecord>, now: int, i: nat)
    requires batch != [] && OneAggregate(batch) && i < |batch|
    ensures var after, e := Append(s, batch, now).log, batch[i];
      && |after| == |s.log| + |batch| && after[..|s.log|] == s.log
      && var stored := after[|s.log| + i];
      && stored.id == e.id && stored.aggregateID == e.aggregateID && stored.aggregateType == e.aggregateType
      && stored.eventType == e.eventType && stored.causedBy == e.causedBy && stored.payload == e.payload
      && (e.createdAt != 0 ==> stored.createdAt == e.createdAt)
      && (e.createdAt == 0 ==> stored.createdAt == now)
      && stored.sequence == s.counter + 1 + i
      && stored.version == VersionOf(s, e.aggregateID) + 1 + i
  {
    var stamped := StampAll(batch, s.counter, VersionOf(s, batch[0].aggregateID), now);
    assert Append(s, batch, now).log == s.log + stamped;
    assert batch[i].aggregateID == batch[0].aggregateID;
  }

  lemma NumberedAppend(events: seq<EventRecord>, batch: seq<EventRecord>, counter: int, now: int)
    requires Numbered(events)
    ensures Numbered(events + StampAll(batch, counter, |events|, now))
  {
  }

  lemma AppendKeepsIndex(s: Store, batch: seq<EventRecord>, now: int, a: string)
    requires IndexAgrees(s, a) && batch != [] && OneAggregate(batch)
    ensures IndexAgrees(Append(s, batch, now), a)
  {
    var events := EventsOf(s.log, a);
    var added := if a == batch[0].aggregateID then StampAll(batch, s.counter, |events|, now) else [];
    AppendExtends(s, batch, now, a);
    var s' := Append(s, batch, now);
    assert EventsOf(s'.log, a) == events + added;
    assert Indexed(s', a) == events + added;
    assert VersionOf(s', a) == |events + added|;
    if a == batch[0].aggregateID {
      NumberedAppend(events, batch, s.counter, now);
    } else {
      assert events + [] == events;
    }
  }

  lemma AppendKeepsSequences(s: Store, batch: seq<EventRecord>, now: int)
    requires SequencesAgree(s.log, s.counter) && batch != []
    ensures SequencesAgree(Append(s, batch, now).log, Append(s, batch, now).counter)
  {
  }

  lemma CounterMayGrow(s: Store, counter: int)
    requires Inv(s) && counter >= s.counter
    ensures Inv(s.(counter := counter))
  {
    forall a
      ensures IndexAgrees(s.(counter := counter), a)
    {
      assert IndexAgrees(s, a);
    }
  }

  lemma SnapshotsAreApart(s: Store, snapshots: map<string, Snapshot>)
    requires Inv(s)
    ensures Inv(s.(snapshots := snapshots))
  {
    forall a
      ensures IndexAgrees(s.(snapshots := snapshots), a)
    {
      assert IndexAgrees(s, a);
    }
  }

  /** Every accepted batch keeps the whole invariant. */
  lemma AppendKeepsInv(s: Store, batch: seq<EventRecord>, now: int)
    requires Inv(s) && batch != [] && OneAggregate(batch)
    ensures Inv(Append(s, batch, now))
  {
    AppendKeepsSequences(s, batch, now);
    forall a
      ensures IndexAgrees(Append(s, batch, now), a)
    {
      assert IndexAgrees(s, a);
      AppendKeepsIndex(s, batch, now, a);
    }
  }

  // ---------- queries ----------

  datatype EventFilter = EventFilter(
    aggregateID: Option<string>, aggregateType: Option<string>, eventTypes: seq<string>,
    fromVersion: Option<int>, toVersion: Option<int>,
    fromSequence: Option<int>, toSequence: Option<int>,
    fromTime: Option<int>, toTime: Option<int>,
    limit: Option<int>, offset: Option<int>)

  const NO_FILTER := EventFilter(None, None, [], None, None, None, None, None, None, None, None)

  /** The conditions both stores apply in the same way. */
  predicate MatchesRest(e: EventRecord, f: EventFilter)
  {
    && (f.aggregateID.Some? ==> e.aggregateID == f.aggregateID.value)
    && (f.aggregateType.Some? ==> e.aggregateType == f.aggregateType.value)
    && (f.eventTypes != [] ==> e.eventType in f.eventTypes)
    && (f.fromVersion.Some? ==> e.version >= f.fromVersion.value)
    && (f.toVersion.Some? ==> e.version <= f.toVersion.value)
    && (f.toSequence.Some? ==> e.sequence <= f.toSequence.value)
    && (f.fromTime.Some? ==> e.createdAt >= f.fromTime.value)
    && (f.toTime.Some? ==> e.createdAt <= f.toTime.value)
  }

  /** The lower sequence bound is exclusive in the memory store. */
  predicate MatchesMemory(e: EventRecord, f: EventFilter)
  {
    MatchesRest(e, f) && (f.fromSequence.Some? ==> e.sequence > f.fromSequence.value)
  }

  /** It is inclusive in the Postgres store. */
  predicate MatchesPostgres(e: EventRecord, f: EventFilter)
  {
    MatchesRest(e, f) && (f.fromSequence.Some? ==> e.sequence >= f.fromSequence.value)
  }

  /** The events of a log that satisfy `keep`, in order. */
  function Select(log: seq<EventRecord>, keep: EventRecord -> bool): (r: seq<EventRecord>)
    ensures |r| <= |log|
  {
    if log == [] then []
    else
      var last := log[|log| - 1];
      Select(log[..|log| - 1], keep) + (if keep(last) then [last] else [])
  }

  function ByMemory(f: EventFilter): EventRecord -> bool
  {
    (e: EventRecord) => MatchesMemory(e, f)
  }

  function ByPostgres(f: EventFilter): EventRecord -> bool
  {
    (e: EventRecord) => MatchesPostgres(e, f)
  }

  function SinceVersion(version: int): EventRecord -> bool
  {
    (e: EventRecord) => e.version >= version
  }

  /** Offsets and limits that are not positive are ignored by the memory store. */
  function MemoryPage(rows: seq<EventRecord>, f: EventFilter): seq<EventRecord>
  {
    var rest :=
      if f.offset.Some? && f.offset.value > 0 then
        (if f.offset.value >= |rows| then [] else rows[f.offset.value..])
      else rows;
    if f.limit.Some? && 0 < f.limit.value < |rest| then rest[..f.limit.value] else rest
  }

  function MemoryQuery(log: seq<EventRecord>, f: EventFilter): seq<EventRecord>
  {
    MemoryPage(Select(log, ByMemory(f)), f)
  }

  /** One aggregate's events from a version on, as the index gives them. */
  function IndexedQuery(s: Store, aggregateID: string, fromVersion: int): seq<EventRecord>
  {
    Select(Indexed(s, aggregateID), SinceVersion(fromVersion))
  }

  lemma SelectSnoc(log: seq<EventRecord>, e: EventRecord, keep: EventRecord -> bool)
    ensures Select(log + [e], keep) == Select(log, keep) + (if keep(e) then [e] else [])
  {
    assert (log + [e])[..|log + [e]| - 1] == log;
  }

  /** What a query of the memory store selects, field by field: the types, the aggregate
      and both ends of versions and times as given, and sequences past the lower bound. */
  lemma {:induction false} MemorySelects(log: seq<EventRecord>, f: EventFilter, e: EventRecord)
    ensures e in Select(log, ByMemory(f)) <==>
      && e in log
      && (f.aggregateID == None || f.aggregateID == Some(e.aggregateID))
      && (f.aggregateType == None || f.aggregateType == Some(e.aggregateType))
      && (f.eventTypes == [] || e.eventType in f.eventTypes)
      && (f.fromVersion == None || f.fromVersion.value <= e.version)
      && (f.toVersion == None || e.version <= f.toVersion.value)
      && (f.fromSequence == None || f.fromSequence.value < e.sequence)
      && (f.toSequence == None || e.sequence <= f.toSequence.value)
      && (f.fromTime == None || f.fromTime.value <= e.createdAt)
      && (f.toTime == None || e.createdAt <= f.toTime.value)
  {
    if log != [] {
      MemorySelects(log[..|log| - 1], f, e);
      InSnoc(log, e);
      assert ByMemory(f)(e) == MatchesMemory(e, f);
    }
  }

  /** The same for the Postgres store, whose lower sequence bound is part of the range. */
  lemma {:induction false} PostgresSelects(log: seq<EventRecord>, f: EventFilter, e: EventRecord)
    ensures e in Select(log, ByPostgres(f)) <==>
      && e in log
      && (f.aggregateID == None || f.aggregateID == Some(e.aggregateID))
      && (f.aggregateType == None || f.aggregateType == Some(e.aggregateType))
      && (f.eventTypes == [] || e.eventType in f.eventTypes)
      && (f.fromVersion == None || f.fromVersion.value <= e.version)
      && (f.toVersion == None || e.version <= f.toVersion.value)
      && (f.fromSequence == None || f.fromSequence.value <= e.sequence)
      && (f.toSequence == None || e.sequence <= f.toSequence.value)
      && (f.fromTime == None || f.fromTime.value <= e.createdAt)
      && (f.toTime == None || e.createdAt <= f.toTime.value)
  {
    if log != [] {
      PostgresSelects(log[..|log| - 1], f, e);
      InSnoc(log, e);
      assert ByPostgres(f)(e) == MatchesPostgres(e, f);
    }
  }

  lemma InSnoc(log: seq<EventRecord>, e: EventRecord)
    requires log != []
    ensures e in log <==> e in log[..|log| - 1] || e == log[|log| - 1]
  {
    assert log == log[..|log| - 1] + [log[|log| - 1]];
  }

  lemma SelectTake(log: seq<EventRecord>, k: nat, keep: EventRecord -> bool)
    requires k < |log|
    ensures Select(log[..k + 1], keep) == Select(log[..k], keep) + (if keep(log[k]) then [log[k]] else [])
  {
    assert log[..k + 1] == log[..k] + [log[k]];
    SelectSnoc(log[..k], log[k], keep);
  }

  lemma {:induction false} SelectOfAggregate(log: seq<EventRecord>, a: string, fromVersion: int)
    ensures Select(EventsOf(log, a), SinceVersion(fromVersion))
         == Select(log, ByMemory(NO_FILTER.(aggregateID := Some(a), fromVersion := Some(fromVersion))))
  {
    if log != [] {
      var front, last := log[..|log| - 1], log[|log| - 1];
      var f := NO_FILTER.(aggregateID := Some(a), fromVersion := Some(fromVersion));
      SelectOfAggregate(front, a, fromVersion);
      SelectSnoc(front, last, ByMemory(f));
      assert log == front + [last];
      assert ByMemory(f)(last) == (last.aggregateID == a && last.version >= fromVersion);
      if last.aggregateID == a {
        SelectSnoc(EventsOf(front, a), last, SinceVersion(fromVersion));
        assert EventsOf(log, a) == EventsOf(front, a) + [last];
        assert SinceVersion(fromVersion)(last) == ByMemory(f)(last);
        assert Select(EventsOf(log, a), SinceVersion(fromVersion)) == Select(log, ByMemory(f));
      } else {
        assert EventsOf(log, a) == EventsOf(front, a);
        assert !ByMemory(f)(last);
        assert Select(log, ByMemory(f)) == Select(front, ByMemory(f));
      }
    }
  }

  /** The two read paths agree: reading through the index is filtering the whole log. */
  lemma IndexedReadIsFilteredRead(s: Store, a: string, fromVersion: int)
    requires Inv(s)
    ensures IndexedQuery(s, a, fromVersion)
         == MemoryQuery(s.log, NO_FILTER.(aggregateID := Some(a), fromVersion := Some(fromVersion)))
  {
    assert IndexAgrees(s, a);
    SelectOfAggregate(s.log, a, fromVersion);
  }

  /** Pages of size `limit` from `offset` on, until an empty one. */
  function Pages(log: seq<EventRecord>, f: EventFilter, limit: int, offset: int): seq<EventRecord>
    requires limit > 0 && offset >= 0
    decreases |Select(log, ByMemory(f))| - offset
  {
    var page := MemoryQuery(log, f.(limit := Some(limit), offset := Some(offset)));
    SamePredicate(log, f, f.(limit := Some(limit), offset := Some(offset)));
    if page == [] then [] else page + Pages(log, f, limit, offset + limit)
  }

  /** Limit and offset do not change which events match. */
  lemma {:induction false} SamePredicate(log: seq<EventRecord>, f: EventFilter, g: EventFilter)
    requires g == f.(limit := g.limit, offset := g.offset)
    ensures Select(log, ByMemory(f)) == Select(log, ByMemory(g))
  {
    if log != [] {
      SamePredicate(log[..|log| - 1], f, g);
    }
  }

  lemma {:induction false} PagesFrom(log: seq<EventRecord>, f: EventFilter, limit: int, offset: int)
    requires limit > 0 && offset >= 0
    ensures var rows := Select(log, ByMemory(f));
      Pages(log, f, limit, offset) == if offset <= |rows| then rows[offset..] else []
    decreases |Select(log, ByMemory(f))| - offset
  {
    var rows := Select(log, ByMemory(f));
    var g := f.(limit := Some(limit), offset := Some(offset));
    SamePredicate(log, f, g);
    PageIs(rows, g, limit, offset);
    var page := MemoryQuery(log, g);
    assert page == MemoryPage(rows, g);
    if offset < |rows| {
      PagesFrom(log, f, limit, offset + limit);
      var rest := Pages(log, f, limit, offset + limit);
      assert page != [] && Pages(log, f, limit, offset) == page + rest;
      assert rest == if offset + limit <= |rows| then rows[offset + limit..] else [];
    } else {
      assert page == [] && Pages(log, f, limit, offset) == [];
    }
  }

  lemma PageIs(rows: seq<EventRecord>, f: EventFilter, limit: int, offset: int)
    requires limit > 0 && offset >= 0 && f.limit == Some(limit) && f.offset == Some(offset)
    ensures MemoryPage(rows, f) == if offset >= |rows| then []
      else rows[offset..if offset + limit < |rows| then offset + limit else |rows|]
    ensures offset < |rows| ==>
      rows[offset..] == MemoryPage(rows, f) + (if offset + limit <= |rows| then rows[offset + limit..] else [])
  {
  }

  /** Concatenating pages at offsets 0, L, 2L, ... until one is empty gives every
      matching event once, in order. */
  lemma PagingIsComplete(log: seq<EventRecord>, f: EventFilter, limit: int)
    requires limit > 0
    ensures Pages(log, f, limit, 0) == Select(log, ByMemory(f))
  {
    PagesFrom(log, f, limit, 0);
  }
}
