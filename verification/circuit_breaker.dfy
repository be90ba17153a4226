/** The gateway's circuit breaker: a timed state machine, what its state says about
    the calls made, and how many failing requests it lets through. */
module CircuitBreaker {
  import opened Optional

  datatype State = Closed | Open | HalfOpen

  /** Times and durations count the same unit. */
  datatype Breaker = Breaker(maxFailures: int, resetTimeout: int, currentFailures: int, lastFailureTime: int,
    state: State)

  function NewBreaker(maxFailures: int, resetTimeout: int): Breaker
  {
    Breaker(maxFailures, resetTimeout, 0, 0, Closed)
  }

  predicate Admits(b: Breaker, now: int)
  {
    b.state.Open? ==> now - b.lastFailureTime > b.resetTimeout
  }

  /** Asking lets an open breaker whose time is up probe. */
  function Asked(b: Breaker, now: int): Breaker
  {
    if b.state.Open? && Admits(b, now) then b.(state := HalfOpen) else b
  }

  function Succeeded(b: Breaker): Breaker
  {
    b.(currentFailures := 0, state := Closed)
  }

  function FailedAt(b: Breaker, now: int): Breaker
  {
    b.(currentFailures := b.currentFailures + 1, lastFailureTime := now,
       state := if b.currentFailures + 1 >= b.maxFailures then Open else b.state)
  }

  // ---------- any sequence of calls ----------

  datatype Call = Ask(now: int) | Success | Failure(now: int) | Reset

  function Called(b: Breaker, c: Call): Breaker
  {
    match c
    case Ask(now) => Asked(b, now)
    case Success => Succeeded(b)
    case Failure(now) => FailedAt(b, now)
    case Reset => Succeeded(b)
  }

  function CalledAll(b: Breaker, calls: seq<Call>): Breaker
  {
    if calls == [] then b else Called(CalledAll(b, calls[..|calls| - 1]), calls[|calls| - 1])
  }

  /** Failures after the last success or reset. */
  function FailuresSince(calls: seq<Call>): nat
  {
    if calls == [] then 0
    else
      match calls[|calls| - 1]
      case Ask(_) => FailuresSince(calls[..|calls| - 1])
      case Failure(_) => FailuresSince(calls[..|calls| - 1]) + 1
      case Success => 0
      case Reset => 0
  }

  function LastFailure(calls: seq<Call>): int
  {
    if calls == [] then 0
    else if calls[|calls| - 1].Failure? then calls[|calls| - 1].now
    else LastFailure(calls[..|calls| - 1])
  }

  /** Since the last failure, a caller asked when the timeout had passed. */
  predicate Probed(calls: seq<Call>, maxFailures: int, resetTimeout: int)
  {
    calls != [] && calls[|calls| - 1].Ask? &&
    var front := calls[..|calls| - 1];
    || Probed(front, maxFailures, resetTimeout)
    || (FailuresSince(front) >= maxFailures && calls[|calls| - 1].now - LastFailure(front) > resetTimeout)
  }

  /** The breaker's fields are what the calls say; it is closed exactly when fewer
      than `maxFailures` calls failed since the last success or reset. */
  lemma {:induction false} StateTellsHistory(maxFailures: int, resetTimeout: int, calls: seq<Call>)
    requires maxFailures >= 1
    ensures var b := CalledAll(NewBreaker(maxFailures, resetTimeout), calls);
      && b.maxFailures == maxFailures && b.resetTimeout == resetTimeout
      && b.currentFailures == FailuresSince(calls) && b.lastFailureTime == LastFailure(calls)
      && (b.state.Closed? <==> b.currentFailures < maxFailures)
      && (b.state.HalfOpen? <==> Probed(calls, maxFailures, resetTimeout) && FailuresSince(calls) >= maxFailures)
  {
    if calls != [] {
      StateTellsHistory(maxFailures, resetTimeout, calls[..|calls| - 1]);
    }
  }

  /** A caller is turned away exactly when at least `maxFailures` calls failed in a
      row, the last of them no longer ago than the timeout, and nobody probes. */
  lemma TurnsAwayIff(maxFailures: int, resetTimeout: int, calls: seq<Call>, now: int)
    requires maxFailures >= 1
    ensures !Admits(CalledAll(NewBreaker(maxFailures, resetTimeout), calls), now)
      <==> FailuresSince(calls) >= maxFailures
           && !Probed(calls, maxFailures, resetTimeout)
           && now - LastFailure(calls) <= resetTimeout
  {
    StateTellsHistory(maxFailures, resetTimeout, calls);
  }

  // ---------- requests, one after another ----------

  datatype Response = Response(transactionID: string, status: string, message: string)

  /** A request and what the gateway would answer; none is an API failure. */
  datatype Request = Request(start: int, answer: Option<Response>, end: int)

  datatype Outcome = BreakerOpen | CallFailed | Rejected(message: string) | Paid(transactionID: string)

  predicate Successful(r: Response)
  {
    r.status == "success" || r.status == "completed"
  }

  /** A rejected payment is a success to the breaker. */
  function After(b: Breaker, r: Request): Breaker
  {
    if !Admits(b, r.start) then b
    else if r.answer.None? then FailedAt(Asked(b, r.start), r.end)
    else Succeeded(Asked(b, r.start))
  }

  function OutcomeOf(b: Breaker, r: Request): Outcome
  {
    if !Admits(b, r.start) then BreakerOpen
    else if r.answer.None? then CallFailed
    else if Successful(r.answer.value) then Paid(r.answer.value.transactionID)
    else Rejected(r.answer.value.message)
  }

  function AfterAll(b: Breaker, rs: seq<Request>): Breaker
  {
    if rs == [] then b else After(AfterAll(b, rs[..|rs| - 1]), rs[|rs| - 1])
  }

  /** By what was called so far, the next caller at `now` is turned away. */
  predicate TurnedAway(maxFailures: int, resetTimeout: int, calls: seq<Call>, now: int)
  {
    && FailuresSince(calls) >= maxFailures
    && !Probed(calls, maxFailures, resetTimeout)
    && now - LastFailure(calls) <= resetTimeout
  }

  /** The calls so far once a request is over: it asks, and if it is not turned away it
      reports a failure when there was no answer, and a success when there was any. */
  function RequestCalls(maxFailures: int, resetTimeout: int, calls: seq<Call>, r: Request): seq<Call>
  {
    calls + [Ask(r.start)]
      + (if TurnedAway(maxFailures, resetTimeout, calls, r.start) then []
         else if r.answer.None? then [Failure(r.end)]
         else [Success])
  }

  function AllRequestCalls(maxFailures: int, resetTimeout: int, calls: seq<Call>, rs: seq<Request>): seq<Call>
  {
    if rs == [] then calls
    else
      var before := AllRequestCalls(maxFailures, resetTimeout, calls, rs[..|rs| - 1]);
      RequestCalls(maxFailures, resetTimeout, before, rs[|rs| - 1])
  }

  lemma CalledNext(b: Breaker, calls: seq<Call>, c: Call)
    ensures CalledAll(b, calls + [c]) == Called(CalledAll(b, calls), c)
  {
    assert (calls + [c])[..|calls + [c]| - 1] == calls;
  }

  lemma RequestIsCalls(maxFailures: int, resetTimeout: int, calls: seq<Call>, r: Request)
    requires maxFailures >= 1
    ensures var b := NewBreaker(maxFailures, resetTimeout);
      After(CalledAll(b, calls), r) == CalledAll(b, RequestCalls(maxFailures, resetTimeout, calls, r))
  {
    var b := NewBreaker(maxFailures, resetTimeout);
    var asked := calls + [Ask(r.start)];
    TurnsAwayIff(maxFailures, resetTimeout, calls, r.start);
    CalledNext(b, calls, Ask(r.start));
    if TurnedAway(maxFailures, resetTimeout, calls, r.start) {
      assert RequestCalls(maxFailures, resetTimeout, calls, r) == asked;
    } else {
      CalledNext(b, asked, if r.answer.None? then Failure(r.end) else Success);
    }
  }

  /** However the breaker was called before, requests one after another leave it where
      the calls they make leave it, so what is said of calls is said of requests. */
  lemma {:induction false} RequestsAreCalls(maxFailures: int, resetTimeout: int, calls: seq<Call>, rs: seq<Request>)
    requires maxFailures >= 1
    ensures var b := NewBreaker(maxFailures, resetTimeout);
      AfterAll(CalledAll(b, calls), rs) == CalledAll(b, AllRequestCalls(maxFailures, resetTimeout, calls, rs))
  {
    if rs != [] {
      var front := rs[..|rs| - 1];
      RequestsAreCalls(maxFailures, resetTimeout, calls, front);
      RequestIsCalls(maxFailures, resetTimeout, AllRequestCalls(maxFailures, resetTimeout, calls, front), rs[|rs| - 1]);
    }
  }

  /** What a request answers after any calls and any requests: it is paid exactly when it
      is not turned away and the gateway answers success or completed, rejected when it
      answers anything else, and failed when it does not answer. */
  lemma RequestOutcome(maxFailures: int, resetTimeout: int, calls: seq<Call>, rs: seq<Request>, r: Request)
    requires maxFailures >= 1
    ensures var outcome := OutcomeOf(AfterAll(CalledAll(NewBreaker(maxFailures, resetTimeout), calls), rs), r);
      var away := TurnedAway(maxFailures, resetTimeout, AllRequestCalls(maxFailures, resetTimeout, calls, rs), r.start);
      && (outcome.BreakerOpen? <==> away)
      && (outcome.CallFailed? <==> !away && r.answer.None?)
      && (outcome.Paid? <==> !away && r.answer.Some? && r.answer.value.status in {"success", "completed"})
      && (outcome.Rejected? <==> !away && r.answer.Some? && r.answer.value.status !in {"success", "completed"})
      && (outcome.Paid? ==> outcome.transactionID == r.answer.value.transactionID)
      && (outcome.Rejected? ==> outcome.message == r.answer.value.message)
  {
    RequestsAreCalls(maxFailures, resetTimeout, calls, rs);
    TurnsAwayIff(maxFailures, resetTimeout, AllRequestCalls(maxFailures, resetTimeout, calls, rs), r.start);
  }

  /** The requests that reached the gateway. */
  function Admitted(b: Breaker, rs: seq<Request>): (r: seq<Request>)
    ensures |r| <= |rs|
  {
    if rs == [] then []
    else
      var front, last := rs[..|rs| - 1], rs[|rs| - 1];
      Admitted(b, front) + (if Admits(AfterAll(b, front), last.start) then [last] else [])
  }

  /** Each request ends before the next one starts. */
  predicate Sequential(rs: seq<Request>)
  {
    && (forall i :: 0 <= i < |rs| ==> rs[i].start <= rs[i].end)
    && (forall i, j :: 0 <= i < j < |rs| ==> rs[i].end <= rs[j].start)
  }

  predicate AllFail(rs: seq<Request>)
  {
    forall i :: 0 <= i < |rs| ==> rs[i].answer.None?
  }

  /** What every reachable breaker satisfies. */
  predicate Sound(b: Breaker)
  {
    b.maxFailures >= 1 && b.currentFailures >= 0 && (b.state.Closed? <==> b.currentFailures < b.maxFailures)
  }

  lemma ReachableIsSound(maxFailures: int, resetTimeout: int, calls: seq<Call>)
    requires maxFailures >= 1
    ensures Sound(CalledAll(NewBreaker(maxFailures, resetTimeout), calls))
  {
    StateTellsHistory(maxFailures, resetTimeout, calls);
  }

  /** The length of k waits. */
  function Waits(k: int, wait: int): int
  {
    if k <= 0 then 0 else Waits(k - 1, wait) + wait
  }

  lemma {:induction false} WaitsIs(k: nat, wait: int)
    ensures Waits(k, wait) == k * wait
  {
    if k > 0 {
      WaitsIs(k - 1, wait);
      assert k * wait == (k - 1) * wait + wait;
    }
  }

  /** Where failing requests have taken the breaker: it is closed only while few
      were admitted, and past the first `max` each waited out the timeout. */
  ghost predicate Paced(b: Breaker, rs: seq<Request>)
    requires rs != []
  {
    var b', n := AfterAll(b, rs), |Admitted(b, rs)|;
    && b'.maxFailures == b.maxFailures && b'.resetTimeout == b.resetTimeout
    && !b'.state.HalfOpen? && b'.currentFailures == b.currentFailures + n
    && (b'.state.Closed? <==> b'.currentFailures < b.maxFailures)
    && (n > 0 ==>
      var last := Admitted(b, rs)[n - 1];
      && last.start <= b'.lastFailureTime <= rs[|rs| - 1].end && last.start <= rs[|rs| - 1].start
      && Waits(n - b.maxFailures, b.resetTimeout) <= last.start - rs[0].start)
  }

  lemma {:induction false} FailuresArePaced(b: Breaker, rs: seq<Request>)
    requires Sound(b) && b.resetTimeout > 0 && rs != [] && Sequential(rs) && AllFail(rs)
    ensures Paced(b, rs)
  {
    var front, last := rs[..|rs| - 1], rs[|rs| - 1];
    assert front + [last] == rs;
    if front != [] {
      FailuresArePaced(b, front);
      PacedNext(b, front, last);
    } else {
      PacedFirst(b, last);
    }
  }

  lemma PacedFirst(b: Breaker, r: Request)
    requires Sound(b) && r.start <= r.end && r.answer.None?
    ensures Paced(b, [r])
  {
    assert [r][..0] == [];
    assert AfterAll(b, [r]) == After(b, r);
    assert Admitted(b, [r]) == if Admits(b, r.start) then [r] else [];
  }

  lemma PacedNext(b: Breaker, rs: seq<Request>, r: Request)
    requires Sound(b) && b.resetTimeout > 0 && rs != [] && Paced(b, rs) && Sequential(rs + [r]) && r.answer.None?
    ensures Paced(b, rs + [r])
  {
    assert (rs + [r])[..|rs + [r]| - 1] == rs;
    assert (rs + [r])[|rs| - 1] == rs[|rs| - 1] && (rs + [r])[0] == rs[0] && (rs + [r])[|rs|] == r;
  }

  lemma Division(t: int, d: int)
    requires d > 0
    ensures t == (t / d) * d + t % d && 0 <= t % d < d
  {
  }

  lemma MultiplesOrder(k: int, q: int, r: int, d: int)
    requires d > 0 && r < d && k * d <= q * d + r
    ensures k <= q
  {
    MultiplesDiffer(k, q, d);
  }

  lemma {:induction false} MultiplesDiffer(k: int, q: int, d: int)
    requires d > 0
    ensures k > q ==> k * d >= q * d + d
    decreases k - q
  {
    if k > q + 1 {
      MultiplesDiffer(k - 1, q, d);
      assert k * d == (k - 1) * d + d;
    }
  }

  lemma DivideBound(k: nat, d: int, t: int)
    requires d > 0 && k * d <= t
    ensures k <= t / d
  {
    Division(t, d);
    MultiplesOrder(k, t / d, t % d, d);
  }

  lemma WaitsBound(n: nat, most: int, wait: int, window: int)
    requires wait > 0 && window >= 0 && Waits(n - most, wait) <= window
    ensures n <= most + window / wait
  {
    if n > most {
      WaitsIs(n - most, wait);
      DivideBound(n - most, wait, window);
    } else {
      DivideBound(0, wait, window);
    }
  }

  /** In any window of length T in which every request fails, one after another, at
      most maxFailures + floor(T / resetTimeout) reach the gateway. */
  lemma WindowBound(b: Breaker, rs: seq<Request>, window: int)
    requires Sound(b) && b.resetTimeout > 0 && rs != [] && Sequential(rs) && AllFail(rs)
    requires rs[|rs| - 1].start - rs[0].start <= window
    ensures |Admitted(b, rs)| <= b.maxFailures + window / b.resetTimeout
  {
    FailuresArePaced(b, rs);
    WaitsBound(|Admitted(b, rs)|, b.maxFailures, b.resetTimeout, window);
  }

  /** The same from wherever any calls have taken a new breaker: the bound holds in
      every window of its life in which every request fails. */
  lemma WindowBoundAfterAnyCalls(maxFailures: int, resetTimeout: int, calls: seq<Call>, rs: seq<Request>, window: int)
    requires maxFailures >= 1 && resetTimeout > 0 && rs != [] && Sequential(rs) && AllFail(rs)
    requires rs[|rs| - 1].start - rs[0].start <= window
    ensures |Admitted(CalledAll(NewBreaker(maxFailures, resetTimeout), calls), rs)| <= maxFailures
      + window / resetTimeout
  {
    StateTellsHistory(maxFailures, resetTimeout, calls);
    ReachableIsSound(maxFailures, resetTimeout, calls);
    WindowBound(CalledAll(NewBreaker(maxFailures, resetTimeout), calls), rs, window);
  }

  /** As many requests at once as close the breaker, then one as each timeout ends. */
  function Burst(maxFailures: nat, resetTimeout: int, k: nat): (rs: seq<Request>)
    ensures |rs| == maxFailures + k
    decreases maxFailures + k
  {
    if k > 0 then Burst(maxFailures, resetTimeout, k - 1)
      + [Request(Waits(k, resetTimeout + 1), None, Waits(k, resetTimeout + 1))]
    else if maxFailures > 0 then Burst(maxFailures - 1, resetTimeout, 0) + [Request(0, None, 0)]
    else []
  }

  lemma BurstNext(maxFailures: nat, resetTimeout: int, k: nat)
    requires k > 0 || maxFailures > 0
    ensures var at := Waits(k, resetTimeout + 1);
      Burst(maxFailures, resetTimeout, k)
      == (if k > 0 then Burst(maxFailures, resetTimeout, k - 1) else Burst(maxFailures - 1, resetTimeout, 0))
        + [Request(at, None, at)]
  {
  }

  /** A window of failing requests, none past `until`. */
  predicate FailingUntil(rs: seq<Request>, until: int)
  {
    AllFail(rs) && Sequential(rs) && forall i :: 0 <= i < |rs| ==> 0 <= rs[i].start && rs[i].end <= until
  }

  lemma FailingNext(rs: seq<Request>, until: int, at: int)
    requires FailingUntil(rs, until) && 0 <= until <= at
    ensures FailingUntil(rs + [Request(at, None, at)], at)
  {
  }

  lemma {:induction false} BurstFails(maxFailures: nat, resetTimeout: int, k: nat)
    requires resetTimeout > 0
    ensures FailingUntil(Burst(maxFailures, resetTimeout, k), Waits(k, resetTimeout + 1))
      && Waits(k, resetTimeout + 1) >= 0
    decreases maxFailures + k
  {
    if k > 0 {
      BurstFails(maxFailures, resetTimeout, k - 1);
      BurstNext(maxFailures, resetTimeout, k);
      FailingNext(Burst(maxFailures, resetTimeout, k - 1), Waits(k - 1, resetTimeout + 1), Waits(k, resetTimeout + 1));
    } else if maxFailures > 0 {
      BurstFails(maxFailures - 1, resetTimeout, 0);
      BurstNext(maxFailures, resetTimeout, 0);
      FailingNext(Burst(maxFailures - 1, resetTimeout, 0), 0, 0);
    }
  }

  lemma OneMore(b: Breaker, rs: seq<Request>, r: Request)
    ensures AfterAll(b, rs + [r]) == After(AfterAll(b, rs), r)
    ensures |Admitted(b, rs + [r])| == |Admitted(b, rs)| + (if Admits(AfterAll(b, rs), r.start) then 1 else 0)
  {
    assert (rs + [r])[..|rs + [r]| - 1] == rs;
  }

  lemma {:induction false} BurstAdmitted(maxFailures: nat, resetTimeout: int, n: nat, k: nat)
    requires resetTimeout > 0 && n <= maxFailures && (k > 0 ==> n == maxFailures) && maxFailures > 0
    ensures |Admitted(NewBreaker(maxFailures, resetTimeout), Burst(n, resetTimeout, k))| == n + k
    ensures AfterAll(NewBreaker(maxFailures, resetTimeout), Burst(n, resetTimeout, k))
      == Breaker(maxFailures, resetTimeout, n + k, Waits(k, resetTimeout + 1), if n == maxFailures then Open
        else Closed)
    decreases n + k
  {
    var b, at := NewBreaker(maxFailures, resetTimeout), Waits(k, resetTimeout + 1);
    if k > 0 {
      BurstAdmitted(maxFailures, resetTimeout, n, k - 1);
      BurstNext(n, resetTimeout, k);
      OneMore(b, Burst(n, resetTimeout, k - 1), Request(at, None, at));
    } else if n > 0 {
      BurstAdmitted(maxFailures, resetTimeout, n - 1, 0);
      BurstNext(n, resetTimeout, 0);
      OneMore(b, Burst(n - 1, resetTimeout, 0), Request(at, None, at));
    }
  }

  lemma DivideExactly(k: nat, d: int)
    requires k < d
    ensures k * (d + 1) / d == k
  {
    var t := k * (d + 1);
    assert t == k * d + k;
    Division(t, d);
    MultiplesOrder(t / d, k, k, d);
    DivideBound(k, d, t);
  }

  /** The bound is met: whatever the breaker, for windows of k < resetTimeout timeouts. */
  lemma WindowBoundIsMet(maxFailures: nat, resetTimeout: int, k: nat)
    requires maxFailures >= 1 && k < resetTimeout
    ensures var rs, window := Burst(maxFailures, resetTimeout, k), k * (resetTimeout + 1);
      && Sequential(rs) && AllFail(rs) && rs[|rs| - 1].start - rs[0].start <= window
      && |Admitted(NewBreaker(maxFailures, resetTimeout), rs)| == maxFailures + window / resetTimeout
  {
    BurstFails(maxFailures, resetTimeout, k);
    BurstAdmitted(maxFailures, resetTimeout, maxFailures, k);
    WaitsIs(k, resetTimeout + 1);
    DivideExactly(k, resetTimeout);
  }

  /** Rejections never trip the breaker: if no call fails, every request is let through. */
  lemma {:induction false} RejectionsNeverTrip(b: Breaker, rs: seq<Request>)
    requires b.state.Closed? && forall i :: 0 <= i < |rs| ==> rs[i].answer.Some?
    ensures AfterAll(b, rs).state.Closed? && Admitted(b, rs) == rs
  {
    if rs != [] {
      RejectionsNeverTrip(b, rs[..|rs| - 1]);
    }
  }
}
