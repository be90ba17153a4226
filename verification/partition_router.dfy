/** Routing of users to partitions by a wrapping hash, and the queues behind it as a
    machine whose steps are submissions and workers' turns. */
module PartitionRouter {
  import opened EventLog

  // ---------- the hash ----------

  const TWO_63 := 0x8000_0000_0000_0000
  const TWO_64 := 0x1_0000_0000_0000_0000

  /** 64-bit signed wrap-around. */
  function Wrap(x: int): (r: int)
    ensures -TWO_63 <= r < TWO_63
    ensures -TWO_63 <= x < TWO_63 ==> r == x
  {
    (x + TWO_63) % TWO_64 - TWO_63
  }

  function Hash(id: string): (h: int)
    ensures -TWO_63 <= h < TWO_63
  {
    if id == "" then 0 else Wrap(Hash(id[..|id| - 1]) * 31 + id[|id| - 1] as int)
  }

  /** The hash in unbounded integers. */
  function Polynomial(id: string): nat
  {
    if id == "" then 0 else Polynomial(id[..|id| - 1]) * 31 + id[|id| - 1] as int
  }

  /** The remainder that truncates toward zero. */
  function Remainder(a: int, n: int): int
    requires n > 0
  {
    if a >= 0 then a % n else -((-a) % n)
  }

  function PartitionOf(id: string, n: int): int
    requires n > 0
  {
    Remainder(Hash(id), n) + 1
  }

  lemma RemainderRange(a: int, n: int)
    requires n > 0
    ensures -n < Remainder(a, n) < n
    ensures a >= 0 ==> Remainder(a, n) == a % n >= 0
    ensures a < 0 ==> Remainder(a, n) <= 0 && (Remainder(a, n) == 0 <==> (-a) % n == 0)
  {
  }

  predicate Ascii(id: string)
  {
    forall i :: 0 <= i < |id| ==> id[i] as int < 128
  }

  /** The most an ASCII id of k characters can hash to without wrapping. */
  function Ceiling(k: nat): nat
  {
    if k == 0 then 0 else Ceiling(k - 1) * 31 + 127
  }

  lemma {:induction false} CeilingGrows(j: nat, k: nat)
    requires j <= k
    ensures Ceiling(j) <= Ceiling(k)
    decreases k - j
  {
    if j < k {
      CeilingGrows(j, k - 1);
    }
  }

  lemma TwelveFit()
    ensures Ceiling(12) < TWO_63 < Ceiling(13)
  {
  }

  lemma {:induction false} ShortIdsDoNotWrap(id: string)
    requires Ascii(id) && |id| <= 12
    ensures Hash(id) == Polynomial(id) <= Ceiling(|id|)
  {
    if id != "" {
      ShortIdsDoNotWrap(id[..|id| - 1]);
      CeilingGrows(|id|, 12);
      TwelveFit();
    }
  }

  /** An ASCII id of at most 12 characters has a partition, and the one its
      unwrapped hash names. */
  lemma ShortIdsAreRouted(id: string, n: int)
    requires n > 0 && Ascii(id) && |id| <= 12
    ensures 1 <= PartitionOf(id, n) <= n && PartitionOf(id, n) == Polynomial(id) % n + 1
  {
    ShortIdsDoNotWrap(id);
  }

  /** Any id lands in 2-n..n, and on a partition exactly when its hash is not
      negative or the number of partitions divides it. */
  lemma RoutingRange(id: string, n: int)
    requires n > 0
    ensures 2 - n <= PartitionOf(id, n) <= n
    ensures 1 <= PartitionOf(id, n) <==> Hash(id) >= 0 || (-Hash(id)) % n == 0
  {
    RemainderRange(Hash(id), n);
  }

  lemma HashNext(id: string, k: nat)
    requires k < |id|
    ensures Hash(id[..k + 1]) == Wrap(Hash(id[..k]) * 31 + id[k] as int)
  {
    assert id[..k + 1][..k] == id[..k];
  }

  /** Thirteen characters can be too many: this id has no partition among four. */
  lemma ThirteenCanMiss()
    ensures PartitionOf("~~~~~~~~~~~~~", 4) == -1
  {
    var id := "~~~~~~~~~~~~~";
    for k := 0 to |id|
      invariant Hash(id[..k])
        == [0, 126, 4032, 125118, 3878784, 120242430, 3727515456, 115552979262, 3582142357248, 111046413074814,
          3442438805319360, 106715602964900286, 3308183691911908992, -8126769992988130818][k]
    {
      HashNext(id, k);
    }
    assert id[..|id|] == id;
  }

  // ---------- the queues ----------

  const CAPACITY := 100

  datatype Worker = Worker(queue: seq<EventRecord>, processed: seq<EventRecord>, stopped: bool)

  /** The workers by partition, and the events accepted so far, in order. */
  datatype Processor = Processor(workers: map<int, Worker>, accepted: seq<EventRecord>)

  ghost predicate Sized(p: Processor, n: nat)
  {
    forall i :: i in p.workers <==> 1 <= i <= n
  }

  predicate IsPartition(i: int, n: int)
  {
    1 <= i <= n
  }

  function NewProcessor(n: nat): Processor
  {
    Processor(map i | 1 <= i <= n && IsPartition(i, n) :: Worker([], [], false), [])
  }

  /** With no partitions at all the code divides by zero, which panics. */
  datatype Submission =
    | Routed(partition: int)
    | MissingUser
    | DividesByZero
    | NoPartition(partition: int)
    | ChannelFull(partition: int)

  /** A user's partition, or 0 when there is none to have. */
  function HomeOf(id: string, n: nat): int
  {
    if n == 0 then 0 else PartitionOf(id, n)
  }

  function Submitted(p: Processor, n: nat, e: EventRecord): Submission
  {
    var i := HomeOf(e.causedBy, n);
    if e.causedBy == "" then MissingUser
    else if n == 0 then DividesByZero
    else if i !in p.workers then NoPartition(i)
    else if |p.workers[i].queue| >= CAPACITY then ChannelFull(i)
    else Routed(i)
  }

  function Queued(p: Processor, i: int, e: EventRecord): Processor
    requires i in p.workers
  {
    var w := p.workers[i];
    Processor(p.workers[i := w.(queue := w.queue + [e])], p.accepted + [e])
  }

  function AfterSubmit(p: Processor, n: nat, e: EventRecord): Processor
  {
    match Submitted(p, n, e)
    case Routed(i) => Queued(p, i, e)
    case _ => p
  }

  predicate CanWork(w: Worker)
  {
    !w.stopped && w.queue != []
  }

  /** A worker takes the head of its queue and processes it. */
  function Worked(w: Worker): Worker
    requires CanWork(w)
  {
    w.(queue := w.queue[1..], processed := w.processed + [w.queue[0]])
  }

  datatype Action = Submit(event: EventRecord) | Work(partition: int) | StopWorker(partition: int)

  function Step(p: Processor, n: nat, a: Action): Processor
  {
    match a
    case Submit(e) => AfterSubmit(p, n, e)
    case Work(i) =>
      if i in p.workers && CanWork(p.workers[i]) then p.(workers := p.workers[i := Worked(p.workers[i])]) else p
    case StopWorker(i) =>
      if i in p.workers then p.(workers := p.workers[i := p.workers[i].(stopped := true)]) else p
  }

  function Run(n: nat, actions: seq<Action>): Processor
  {
    if actions == [] then NewProcessor(n) else Step(Run(n, actions[..|actions| - 1]), n, actions[|actions| - 1])
  }

  function CausedBy(u: string): EventRecord -> bool
  {
    (e: EventRecord) => e.causedBy == u
  }

  /** A user's events, in order. */
  function OfUser(events: seq<EventRecord>, u: string): seq<EventRecord>
  {
    Select(events, CausedBy(u))
  }

  /** Worker i has had exactly the accepted events of the users whose home it is. */
  ghost predicate Served(p: Processor, home: int, i: int, u: string)
    requires i in p.workers
  {
    OfUser(p.workers[i].processed + p.workers[i].queue, u) == if i == home then OfUser(p.accepted, u) else []
  }

  lemma {:induction false} SelectConcat(a: seq<EventRecord>, b: seq<EventRecord>, keep: EventRecord -> bool)
    ensures Select(a + b, keep) == Select(a, keep) + Select(b, keep)
  {
    if b == [] {
      assert a + b == a;
    } else {
      assert (a + b)[..|a + b| - 1] == a + b[..|b| - 1];
      SelectConcat(a, b[..|b| - 1], keep);
    }
  }

  lemma QueueServes(p: Processor, j: int, e: EventRecord, home: int, i: int, u: string)
    requires i in p.workers && j in p.workers && Served(p, home, i, u) && (e.causedBy == u ==> j == home)
    ensures Served(Queued(p, j, e), home, i, u)
  {
    var w := p.workers[i];
    SelectSnoc(p.accepted, e, CausedBy(u));
    SelectSnoc(w.processed + w.queue, e, CausedBy(u));
    assert w.processed + (w.queue + [e]) == (w.processed + w.queue) + [e];
  }

  lemma WorkKeepsEvents(w: Worker)
    requires CanWork(w)
    ensures Worked(w).processed + Worked(w).queue == w.processed + w.queue
  {
  }

  lemma WorkServes(p: Processor, j: int, home: int, i: int, u: string)
    requires i in p.workers && j in p.workers && CanWork(p.workers[j]) && Served(p, home, i, u)
    ensures Served(p.(workers := p.workers[j := Worked(p.workers[j])]), home, i, u)
  {
    WorkKeepsEvents(p.workers[j]);
  }

  lemma StepServes(p: Processor, n: nat, a: Action, i: int, u: string)
    requires Sized(p, n) && i in p.workers && Served(p, HomeOf(u, n), i, u)
    ensures Sized(Step(p, n, a), n) && Served(Step(p, n, a), HomeOf(u, n), i, u)
  {
    match a {
      case Submit(e) =>
        if Submitted(p, n, e).Routed? {
          QueueServes(p, HomeOf(e.causedBy, n), e, HomeOf(u, n), i, u);
        }
      case Work(j) =>
        if j in p.workers && CanWork(p.workers[j]) {
          WorkServes(p, j, HomeOf(u, n), i, u);
        }
      case StopWorker(j) =>
    }
  }

  lemma {:induction false} RunSized(n: nat, actions: seq<Action>)
    ensures Sized(Run(n, actions), n)
  {
    if actions != [] {
      RunSized(n, actions[..|actions| - 1]);
    }
  }

  lemma {:induction false} RunServes(n: nat, actions: seq<Action>, i: int, u: string)
    requires 1 <= i <= n
    ensures Sized(Run(n, actions), n) && Served(Run(n, actions), HomeOf(u, n), i, u)
  {
    if actions != [] {
      RunServes(n, actions[..|actions| - 1], i, u);
      StepServes(Run(n, actions[..|actions| - 1]), n, actions[|actions| - 1], i, u);
    }
  }

  /** In every run, a user's processed events are a prefix of its accepted ones in
      order, all on one worker; the rest wait there in order. */
  lemma UserOrderIsKept(n: nat, actions: seq<Action>, u: string)
    ensures var p := Run(n, actions);
      && Sized(p, n)
      && (forall i :: 1 <= i <= n && i != HomeOf(u, n) ==> OfUser(p.workers[i].processed, u) == [])
      && (1 <= HomeOf(u, n) <= n ==>
        OfUser(p.workers[HomeOf(u, n)].processed, u) + OfUser(p.workers[HomeOf(u, n)].queue, u)
          == OfUser(p.accepted, u))
  {
    var p := Run(n, actions);
    RunSized(n, actions);
    forall i | 1 <= i <= n
      ensures Served(p, HomeOf(u, n), i, u)
      ensures OfUser(p.workers[i].processed + p.workers[i].queue, u)
        == OfUser(p.workers[i].processed, u) + OfUser(p.workers[i].queue, u)
    {
      RunServes(n, actions, i, u);
      SelectConcat(p.workers[i].processed, p.workers[i].queue, CausedBy(u));
    }
  }

  /** In every run, an event is accepted exactly when it names a user, the user has a
      partition, and that partition's channel has room. */
  lemma AcceptedIff(n: nat, actions: seq<Action>, e: EventRecord)
    ensures var p := Run(n, actions);
      && Sized(p, n)
      && (Submitted(p, n, e).Routed? <==>
        && e.causedBy != ""
        && 1 <= HomeOf(e.causedBy, n) <= n
        && |p.workers[HomeOf(e.causedBy, n)].queue| < CAPACITY)
  {
    RunSized(n, actions);
    if n > 0 {
      RemainderRange(Hash(e.causedBy), n);
    }
  }

  lemma RunNext(n: nat, actions: seq<Action>, a: Action)
    ensures Run(n, actions + [a]) == Step(Run(n, actions), n, a)
  {
    assert (actions + [a])[..|actions + [a]| - 1] == actions;
  }

  /** A worker that has stopped processes nothing more, in whatever follows; what is
      routed to it stays in its channel for good. */
  lemma {:induction false} StoppedStays(n: nat, before: seq<Action>, i: int, after: seq<Action>)
    requires 1 <= i <= n
    ensures Sized(Run(n, before), n) && Sized(Run(n, before + [StopWorker(i)] + after), n)
    ensures var w, v := Run(n, before).workers[i], Run(n, before + [StopWorker(i)] + after).workers[i];
      v.stopped && v.processed == w.processed && w.queue <= v.queue
  {
    var stopped := before + [StopWorker(i)];
    RunSized(n, before);
    RunSized(n, stopped + after);
    if after == [] {
      RunNext(n, before, StopWorker(i));
      assert stopped + after == stopped;
    } else {
      var front, last := after[..|after| - 1], after[|after| - 1];
      StoppedStays(n, before, i, front);
      assert stopped + after == (stopped + front) + [last];
      RunNext(n, stopped + front, last);
    }
  }

  /** In every run, no channel ever holds more than 100 events. */
  lemma {:induction false} AtMostHundredWait(n: nat, actions: seq<Action>, i: int)
    requires 1 <= i <= n
    ensures Sized(Run(n, actions), n) && |Run(n, actions).workers[i].queue| <= 100
  {
    RunSized(n, actions);
    if actions != [] {
      var front := actions[..|actions| - 1];
      AtMostHundredWait(n, front, i);
    }
  }

  function Submits(events: seq<EventRecord>): (actions: seq<Action>)
    ensures |actions| == |events|
  {
    if events == [] then [] else Submits(events[..|events| - 1]) + [Submit(events[|events| - 1])]
  }

  function AtMost(k: nat, bound: nat): nat
  {
    if k <= bound then k else bound
  }

  /** The user's partition has these events waiting and has processed none; nothing else was accepted. */
  predicate Waiting(p: Processor, n: nat, u: string, events: seq<EventRecord>)
  {
    && p.accepted == events
    && HomeOf(u, n) in p.workers && p.workers[HomeOf(u, n)] == Worker(events, [], false)
  }

  lemma NextWaits(p: Processor, n: nat, u: string, events: seq<EventRecord>, e: EventRecord)
    requires u != "" && 1 <= HomeOf(u, n) <= n && Waiting(p, n, u, events) && e.causedBy == u
    ensures Submitted(p, n, e) == if |events| < 100 then Routed(HomeOf(u, n)) else ChannelFull(HomeOf(u, n))
    ensures Waiting(AfterSubmit(p, n, e), n, u, if |events| < 100 then events + [e] else events)
  {
  }

  /** Events of one user that has a partition, submitted before its worker has a turn:
      the first 100 are accepted and wait in order, and every later one finds the channel
      full. */
  lemma {:induction false} HundredAreAccepted(n: nat, u: string, events: seq<EventRecord>, e: EventRecord)
    requires u != "" && 1 <= HomeOf(u, n) <= n && e.causedBy == u
    requires forall i :: 0 <= i < |events| ==> events[i].causedBy == u
    ensures var p := Run(n, Submits(events));
      && Waiting(p, n, u, events[..AtMost(|events|, 100)])
      && Submitted(p, n, e) == (if |events| < 100 then Routed(HomeOf(u, n)) else ChannelFull(HomeOf(u, n)))
  {
    var p := Run(n, Submits(events));
    if events == [] {
      RunSized(n, []);
    } else {
      var front, last := events[..|events| - 1], events[|events| - 1];
      HundredAreAccepted(n, u, front, last);
      assert Submits(events)[..|events| - 1] == Submits(front);
      NextWaits(Run(n, Submits(front)), n, u, front[..AtMost(|front|, 100)], last);
      FirstHundred(events);
    }
    NextWaits(p, n, u, events[..AtMost(|events|, 100)], e);
  }

  lemma FirstHundred(events: seq<EventRecord>)
    requires events != []
    ensures var front, last := events[..|events| - 1], events[|events| - 1];
      events[..AtMost(|events|, 100)]
      == if |front| < 100 then front[..AtMost(|front|, 100)] + [last] else front[..AtMost(|front|, 100)]
  {
  }
}
