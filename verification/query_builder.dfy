/** The Postgres store's query: conditions with numbered placeholders, the argument
    list that binds them, and the rows the database answers. */
module QueryBuilder {
  import opened Optional
  import opened EventLog

  datatype Column = AggregateID | AggregateType | EventType | AggregateVersion | SequenceNumber | CreatedAt

  datatype Operator = Equal | AnyOf | AtLeast | AtMost

  /** `column operator $placeholder`. */
  datatype Condition = Condition(column: Column, operator: Operator, placeholder: nat)

  /** An argument as the driver passes it; times are numbers. */
  datatype Arg = Text(text: string) | Texts(texts: seq<string>) | Number(number: int)

  /** The conjunction of the WHERE clause, and the placeholders of LIMIT and OFFSET. */
  datatype Query = Query(where: seq<Condition>, limit: Option<nat>, offset: Option<nat>)

  function TextIn(e: EventRecord, c: Column): Option<string>
  {
    match c
    case AggregateID => Some(e.aggregateID)
    case AggregateType => Some(e.aggregateType)
    case EventType => Some(e.eventType)
    case _ => None
  }

  function NumberIn(e: EventRecord, c: Column): Option<int>
  {
    match c
    case AggregateVersion => Some(e.version)
    case SequenceNumber => Some(e.sequence)
    case CreatedAt => Some(e.createdAt)
    case _ => None
  }

  predicate Bound(p: nat, args: seq<Arg>)
  {
    1 <= p <= |args|
  }

  /** What a condition means for a row; a placeholder with no argument, or one of
      another type, means nothing and holds of no row. */
  predicate Holds(c: Condition, args: seq<Arg>, e: EventRecord)
  {
    Bound(c.placeholder, args) &&
    var arg := args[c.placeholder - 1];
    match c.operator
    case Equal => arg.Text? && TextIn(e, c.column) == Some(arg.text)
    case AnyOf => arg.Texts? && TextIn(e, c.column).Some? && TextIn(e, c.column).value in arg.texts
    case AtLeast => arg.Number? && NumberIn(e, c.column).Some? && NumberIn(e, c.column).value >= arg.number
    case AtMost => arg.Number? && NumberIn(e, c.column).Some? && NumberIn(e, c.column).value <= arg.number
  }

  /** The WHERE clause. */
  predicate Accepts(where: seq<Condition>, args: seq<Arg>, e: EventRecord)
  {
    forall i :: 0 <= i < |where| ==> Holds(where[i], args, e)
  }

  /** The i-th condition is bound to the i-th argument. */
  predicate InOrder(where: seq<Condition>)
  {
    forall i :: 0 <= i < |where| ==> where[i].placeholder == i + 1
  }

  /** One more condition with its own argument narrows the clause by that condition. */
  lemma AcceptsNext(where: seq<Condition>, args: seq<Arg>, c: Condition, arg: Arg, e: EventRecord)
    requires InOrder(where) && |args| == |where| && c.placeholder == |args| + 1
    ensures InOrder(where + [c])
    ensures Accepts(where + [c], args + [arg], e) <==> Accepts(where, args, e) && Holds(c, args + [arg], e)
  {
    assert forall i :: 0 <= i < |where| ==> Holds(where[i], args + [arg], e) == Holds(where[i], args, e);
    assert forall i :: 0 <= i < |where| ==> (where + [c])[i] == where[i];
    assert (where + [c])[|where|] == c;
  }

  /** A clause built so far means a filter so far. */
  ghost predicate Means(where: seq<Condition>, args: seq<Arg>, f: EventFilter)
  {
    InOrder(where) && |args| == |where| && forall e :: Accepts(where, args, e) <==> MatchesPostgres(e, f)
  }

  lemma MeansNext(where: seq<Condition>, args: seq<Arg>, f: EventFilter, c: Condition, arg: Arg, g: EventFilter)
    requires Means(where, args, f) && c.placeholder == |args| + 1
    requires forall e :: MatchesPostgres(e, g) <==> MatchesPostgres(e, f) && Holds(c, args + [arg], e)
    ensures Means(where + [c], args + [arg], g)
  {
    forall e
      ensures Accepts(where + [c], args + [arg], e) <==> MatchesPostgres(e, g)
    {
      AcceptsNext(where, args, c, arg, e);
    }
    AcceptsNext(where, args, c, arg, EventRecord("", "", "", "", 0, 0, 0, "", Opaque));
  }

  // ---------- building ----------

  /** A filter's conditions on names. */
  function Names(f: EventFilter): EventFilter
  {
    NO_FILTER.(aggregateID := f.aggregateID, aggregateType := f.aggregateType, eventTypes := f.eventTypes)
  }

  /** Also those on versions and sequence numbers. */
  function Numbers(f: EventFilter): EventFilter
  {
    Names(f).(fromVersion := f.fromVersion, toVersion := f.toVersion, fromSequence := f.fromSequence,
      toSequence := f.toSequence)
  }

  /** The first conditions, on names. */
  method BuildNames(filter: EventFilter) returns (where: seq<Condition>, args: seq<Arg>, argIndex: nat)
    ensures Means(where, args, Names(filter)) && argIndex == |args| + 1
  {
    where, args, argIndex := [], [], 1;
    ghost var f := NO_FILTER;
    if filter.aggregateID.Some? {
      MeansNext(where, args, f, Condition(AggregateID, Equal, argIndex), Text(filter.aggregateID.value),
        f.(aggregateID := filter.aggregateID));
      where := where + [Condition(AggregateID, Equal, argIndex)];
      args := args + [Text(filter.aggregateID.value)];
      argIndex := argIndex + 1;
    }
    f := f.(aggregateID := filter.aggregateID);
    if filter.aggregateType.Some? {
      MeansNext(where, args, f, Condition(AggregateType, Equal, argIndex), Text(filter.aggregateType.value),
        f.(aggregateType := filter.aggregateType));
      where := where + [Condition(AggregateType, Equal, argIndex)];
      args := args + [Text(filter.aggregateType.value)];
      argIndex := argIndex + 1;
    }
    f := f.(aggregateType := filter.aggregateType);
    if |filter.eventTypes| > 0 {
      MeansNext(where, args, f, Condition(EventType, AnyOf, argIndex), Texts(filter.eventTypes),
        f.(eventTypes := filter.eventTypes));
      where := where + [Condition(EventType, AnyOf, argIndex)];
      args := args + [Texts(filter.eventTypes)];
      argIndex := argIndex + 1;
    }
    f := f.(eventTypes := filter.eventTypes);
  }

  /** Then those on versions and sequence numbers. */
  method BuildNumbers(filter: EventFilter, where0: seq<Condition>, args0: seq<Arg>, argIndex0: nat)
    returns (where: seq<Condition>, args: seq<Arg>, argIndex: nat)
    requires Means(where0, args0, Names(filter)) && argIndex0 == |args0| + 1
    ensures Means(where, args, Numbers(filter)) && argIndex == |args| + 1
  {
    where, args, argIndex := where0, args0, argIndex0;
    ghost var f := Names(filter);
    if filter.fromVersion.Some? {
      MeansNext(where, args, f, Condition(AggregateVersion, AtLeast, argIndex), Number(filter.fromVersion.value),
        f.(fromVersion := filter.fromVersion));
      where := where + [Condition(AggregateVersion, AtLeast, argIndex)];
      args := args + [Number(filter.fromVersion.value)];
      argIndex := argIndex + 1;
    }
    f := f.(fromVersion := filter.fromVersion);
    if filter.toVersion.Some? {
      MeansNext(where, args, f, Condition(AggregateVersion, AtMost, argIndex), Number(filter.toVersion.value),
        f.(toVersion := filter.toVersion));
      where := where + [Condition(AggregateVersion, AtMost, argIndex)];
      args := args + [Number(filter.toVersion.value)];
      argIndex := argIndex + 1;
    }
    f := f.(toVersion := filter.toVersion);
    if filter.fromSequence.Some? {
      MeansNext(where, args, f, Condition(SequenceNumber, AtLeast, argIndex), Number(filter.fromSequence.value),
        f.(fromSequence := filter.fromSequence));
      where := where + [Condition(SequenceNumber, AtLeast, argIndex)];
      args := args + [Number(filter.fromSequence.value)];
      argIndex := argIndex + 1;
    }
    f := f.(fromSequence := filter.fromSequence);
    if filter.toSequence.Some? {
      MeansNext(where, args, f, Condition(SequenceNumber, AtMost, argIndex), Number(filter.toSequence.value),
        f.(toSequence := filter.toSequence));
      where := where + [Condition(SequenceNumber, AtMost, argIndex)];
      args := args + [Number(filter.toSequence.value)];
      argIndex := argIndex + 1;
    }
    f := f.(toSequence := filter.toSequence);
  }

  /** Then those on times: the whole filter. */
  method BuildTimes(filter: EventFilter, where0: seq<Condition>, args0: seq<Arg>, argIndex0: nat)
    returns (where: seq<Condition>, args: seq<Arg>, argIndex: nat)
    requires Means(where0, args0, Numbers(filter)) && argIndex0 == |args0| + 1
    ensures Means(where, args, filter) && argIndex == |args| + 1
  {
    where, args, argIndex := where0, args0, argIndex0;
    ghost var f := Numbers(filter);
    if filter.fromTime.Some? {
      MeansNext(where, args, f, Condition(CreatedAt, AtLeast, argIndex), Number(filter.fromTime.value),
        f.(fromTime := filter.fromTime));
      where := where + [Condition(CreatedAt, AtLeast, argIndex)];
      args := args + [Number(filter.fromTime.value)];
      argIndex := argIndex + 1;
    }
    f := f.(fromTime := filter.fromTime);
    if filter.toTime.Some? {
      MeansNext(where, args, f, Condition(CreatedAt, AtMost, argIndex), Number(filter.toTime.value),
        f.(toTime := filter.toTime));
      where := where + [Condition(CreatedAt, AtMost, argIndex)];
      args := args + [Number(filter.toTime.value)];
      argIndex := argIndex + 1;
    }
    f := f.(toTime := filter.toTime);
    assert forall e :: MatchesPostgres(e, f) <==> MatchesPostgres(e, filter);
  }

  function NumberAt(args: seq<Arg>, p: Option<nat>): Option<int>
  {
    if p.Some? && Bound(p.value, args) && args[p.value - 1].Number? then Some(args[p.value - 1].number) else None
  }

  /** A built query: its clause accepts exactly the events the filter matches, its
      placeholders are 1 to k in order, each bound, and its page is the filter's. */
  ghost predicate Translates(q: Query, args: seq<Arg>, filter: EventFilter)
  {
    && InOrder(q.where)
    && (forall e :: Accepts(q.where, args, e) <==> MatchesPostgres(e, filter))
    && |args| == |q.where| + (if q.limit.Some? then 1 else 0) + (if q.offset.Some? then 1 else 0)
    && (q.limit.Some? ==> q.limit.value == |q.where| + 1)
    && (q.offset.Some? ==> q.offset.value == |args|)
    && NumberAt(args, q.limit) == filter.limit
    && NumberAt(args, q.offset) == filter.offset
  }

  lemma MoreArgs(where: seq<Condition>, args: seq<Arg>, more: seq<Arg>)
    requires InOrder(where) && |args| == |where|
    ensures forall e :: Accepts(where, args + more, e) <==> Accepts(where, args, e)
  {
    forall e
      ensures Accepts(where, args + more, e) <==> Accepts(where, args, e)
    {
      assert forall i :: 0 <= i < |where| ==> Holds(where[i], args + more, e) == Holds(where[i], args, e);
    }
  }

  method BuildQuery(filter: EventFilter) returns (q: Query, args: seq<Arg>)
    ensures Translates(q, args, filter)
  {
    var where, argIndex;
    where, args, argIndex := BuildNames(filter);
    where, args, argIndex := BuildNumbers(filter, where, args, argIndex);
    where, args, argIndex := BuildTimes(filter, where, args, argIndex);
    q := Query(where, None, None);
    ghost var bound, more := args, [];
    if filter.limit.Some? {
      q := q.(limit := Some(argIndex));
      args := args + [Number(filter.limit.value)];
      argIndex := argIndex + 1;
      more := more + [Number(filter.limit.value)];
    }
    if filter.offset.Some? {
      q := q.(offset := Some(argIndex));
      args := args + [Number(filter.offset.value)];
      argIndex := argIndex + 1;
      more := more + [Number(filter.offset.value)];
    }
    assert args == bound + more;
    MoreArgs(where, bound, more);
  }

  // ---------- answering ----------

  function ByQuery(q: Query, args: seq<Arg>): EventRecord -> bool
  {
    (e: EventRecord) => Accepts(q.where, args, e)
  }

  /** LIMIT and OFFSET: a negative one is an error. */
  function SqlPage(rows: seq<EventRecord>, limit: Option<int>, offset: Option<int>): Option<seq<EventRecord>>
  {
    if (limit.Some? && limit.value < 0) || (offset.Some? && offset.value < 0) then None
    else
      var rest := if offset.Some? then (if offset.value >= |rows| then [] else rows[offset.value..]) else rows;
      Some(if limit.Some? && limit.value < |rest| then rest[..limit.value] else rest)
  }

  predicate Ascending(rows: seq<EventRecord>)
  {
    forall i, j :: 0 <= i < j < |rows| ==> rows[i].sequence < rows[j].sequence
  }

  /** What the database may answer from a table whose rows lie in any order: the
      accepted rows, ordered by sequence number, and cut to the page. */
  ghost predicate Answers(table: seq<EventRecord>, q: Query, args: seq<Arg>, answer: Option<seq<EventRecord>>)
  {
    exists rows :: Ordered(table, q, args, rows)
      && answer == SqlPage(rows, NumberAt(args, q.limit), NumberAt(args, q.offset))
  }

  ghost predicate Ordered(table: seq<EventRecord>, q: Query, args: seq<Arg>, rows: seq<EventRecord>)
  {
    Ascending(rows) && multiset(rows) == multiset(Select(table, ByQuery(q, args)))
  }

  lemma {:induction false} SelectCounts(log: seq<EventRecord>, keep: EventRecord -> bool, e: EventRecord)
    ensures multiset(Select(log, keep))[e] == if keep(e) then multiset(log)[e] else 0
  {
    if log != [] {
      var front, last := log[..|log| - 1], log[|log| - 1];
      SelectCounts(front, keep, e);
      assert log == front + [last];
      assert multiset(log) == multiset(front) + multiset{last};
      assert multiset(Select(log, keep))
        == multiset(Select(front, keep)) + (if keep(last) then multiset{last} else multiset{});
    }
  }

  lemma LastIsGreatest(rows: seq<EventRecord>, e: EventRecord)
    requires Ascending(rows) && e in rows
    ensures e.sequence <= rows[|rows| - 1].sequence
    ensures e.sequence == rows[|rows| - 1].sequence ==> e == rows[|rows| - 1]
  {
    var i :| 0 <= i < |rows| && rows[i] == e;
  }

  lemma WithoutLast(rows: seq<EventRecord>)
    requires rows != []
    ensures multiset(rows) == multiset(rows[..|rows| - 1]) + multiset{rows[|rows| - 1]}
  {
    assert rows == rows[..|rows| - 1] + [rows[|rows| - 1]];
  }

  lemma SameLast(a: seq<EventRecord>, b: seq<EventRecord>)
    requires Ascending(a) && Ascending(b) && multiset(a) == multiset(b) && a != [] && b != []
    ensures a[|a| - 1] == b[|b| - 1]
  {
    var x, y := a[|a| - 1], b[|b| - 1];
    assert x in multiset(a) && y in multiset(b);
    LastIsGreatest(a, y);
    LastIsGreatest(b, x);
  }

  lemma SameRest(a: seq<EventRecord>, b: seq<EventRecord>)
    requires multiset(a) == multiset(b) && a != [] && b != [] && a[|a| - 1] == b[|b| - 1]
    ensures multiset(a[..|a| - 1]) == multiset(b[..|b| - 1])
  {
    WithoutLast(a);
    WithoutLast(b);
    assert multiset(a[..|a| - 1]) == multiset(a) - multiset{a[|a| - 1]};
    assert multiset(b[..|b| - 1]) == multiset(b) - multiset{b[|b| - 1]};
  }

  lemma FrontAscends(rows: seq<EventRecord>)
    requires rows != [] && Ascending(rows)
    ensures Ascending(rows[..|rows| - 1])
  {
  }

  lemma SameSize(a: seq<EventRecord>, b: seq<EventRecord>)
    requires multiset(a) == multiset(b)
    ensures |a| == |b|
  {
    assert |multiset(a)| == |a| && |multiset(b)| == |b|;
  }

  /** Rows in ascending order are determined by which rows they are. */
  lemma {:induction false} OrderIsUnique(a: seq<EventRecord>, b: seq<EventRecord>)
    requires Ascending(a) && Ascending(b) && multiset(a) == multiset(b)
    ensures a == b
    decreases |a|
  {
    SameSize(a, b);
    if a != [] {
      SameLast(a, b);
      SameRest(a, b);
      FrontAscends(a);
      FrontAscends(b);
      OrderIsUnique(a[..|a| - 1], b[..|b| - 1]);
      assert a == a[..|a| - 1] + [a[|a| - 1]] && b == b[..|b| - 1] + [b[|b| - 1]];
    }
  }

  lemma {:induction false} SelectAscends(log: seq<EventRecord>, keep: EventRecord -> bool)
    requires Ascending(log)
    ensures Ascending(Select(log, keep)) && forall e :: e in Select(log, keep) ==> e in log
  {
    if log != [] {
      var front, last := log[..|log| - 1], log[|log| - 1];
      SelectAscends(front, keep);
      assert log == front + [last];
      var kept := Select(front, keep);
      forall i | 0 <= i < |kept|
        ensures kept[i].sequence < last.sequence
      {
        assert kept[i] in kept;
        var j :| 0 <= j < |front| && front[j] == kept[i];
        assert log[j] == kept[i];
      }
    }
  }

  lemma {:induction false} SelectSame(log: seq<EventRecord>, keep: EventRecord -> bool, other: EventRecord -> bool)
    requires forall e :: keep(e) <==> other(e)
    ensures Select(log, keep) == Select(log, other)
  {
    if log != [] {
      SelectSame(log[..|log| - 1], keep, other);
    }
  }

  lemma OrderedIsSelected(log: seq<EventRecord>, table: seq<EventRecord>, q: Query, args: seq<Arg>, filter: EventFilter,
    rows: seq<EventRecord>)
    requires Ascending(log) && multiset(table) == multiset(log) && Translates(q, args, filter)
    ensures Ordered(table, q, args, rows) <==> rows == Select(log, ByPostgres(filter))
  {
    SelectSame(log, ByQuery(q, args), ByPostgres(filter));
    SelectAscends(log, ByPostgres(filter));
    forall e
      ensures multiset(Select(table, ByQuery(q, args)))[e] == multiset(Select(log, ByPostgres(filter)))[e]
    {
      SelectCounts(table, ByQuery(q, args), e);
      SelectCounts(log, ByQuery(q, args), e);
    }
    assert multiset(Select(table, ByQuery(q, args))) == multiset(Select(log, ByPostgres(filter)));
    if Ordered(table, q, args, rows) {
      OrderIsUnique(rows, Select(log, ByPostgres(filter)));
    }
  }

  /** Building preserves meaning: however the rows lie in the table, the only answer
      to a built query is the filter's events in order, cut to the filter's page. */
  lemma BuiltQueryAnswersTheFilter(log: seq<EventRecord>, table: seq<EventRecord>, q: Query, args: seq<Arg>,
                                   filter: EventFilter, answer: Option<seq<EventRecord>>)
    requires Ascending(log) && multiset(table) == multiset(log) && Translates(q, args, filter)
    ensures Answers(table, q, args, answer)
      <==> answer == SqlPage(Select(log, ByPostgres(filter)), filter.limit, filter.offset)
  {
    OrderedIsSelected(log, table, q, args, filter, Select(log, ByPostgres(filter)));
    forall rows | Ordered(table, q, args, rows)
      ensures rows == Select(log, ByPostgres(filter))
    {
      OrderedIsSelected(log, table, q, args, filter, rows);
    }
  }

  // ---------- the two stores compared ----------

  function Skipped(rows: seq<EventRecord>, offset: Option<int>): nat
  {
    if offset.Some? && offset.value > 0 then (if offset.value > |rows| then |rows| else offset.value) else 0
  }

  /** The two stores cut the same page exactly when no bound is negative and a limit
      of 0 finds nothing left to cut: the memory store ignores such bounds. */
  lemma PagesAgreeIff(rows: seq<EventRecord>, f: EventFilter)
    ensures SqlPage(rows, f.limit, f.offset) == Some(MemoryPage(rows, f))
      <==> (f.limit.Some? ==> f.limit.value >= 0) && (f.offset.Some? ==> f.offset.value >= 0)
           && (f.limit == Some(0) ==> Skipped(rows, f.offset) == |rows|)
  {
    var rest := if f.offset.Some? && f.offset.value > 0
      then (if f.offset.value >= |rows| then [] else rows[f.offset.value..]) else rows;
    assert |rest| == |rows| - Skipped(rows, f.offset);
    assert rows[0..] == rows;
  }

  /** The two stores match the same event exactly when it is not the one that the
      lower sequence bound names. */
  lemma StoresDifferAtTheBound(e: EventRecord, f: EventFilter)
    ensures MatchesMemory(e, f) == MatchesPostgres(e, f)
      <==> !(MatchesRest(e, f) && f.fromSequence == Some(e.sequence))
  {
    assert MatchesRest(e, f) && f.fromSequence == Some(e.sequence) ==> MatchesPostgres(e, f) && !MatchesMemory(e, f);
  }
}
