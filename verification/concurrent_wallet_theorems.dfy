/** What concurrent callers of the in-memory wallet can rely on. */
module ConcurrentWalletTheorems {
  import opened ConcurrentWallet

  // ---------- linearizability ----------

  /** The call's answer is the atomic wallet's at a moment within the call: that of
      its one commit, or one at which the funds were missing. */
  ghost predicate AnsweredWithin(w: World, i: nat)
    requires i < |w.tasks|
  {
    var t := w.tasks[i];
    match t.pc
    case Returned(Succeeded, at) =>
      && t.began <= at < |w.commits| && w.commits[at] == ByTask(i, t.op)
      && Covered(Atomic(w.commits[..at]), t.op)
      && Atomic(w.commits[..at + 1]) == Applied(Atomic(w.commits[..at]), t.op)
    case Returned(Insufficient, at) => t.began <= at <= |w.commits| && !Covered(Atomic(w.commits[..at]), t.op)
    case _ => true
  }

  /** A commit in the history is the one commit of a call that succeeded. */
  predicate OwnCommit(w: World, k: nat)
    requires k < |w.commits|
  {
    w.commits[k].ByTask? ==>
      w.commits[k].task < |w.tasks| && w.tasks[w.commits[k].task].pc == Returned(Succeeded, k)
  }

  /** Every concurrent run is the atomic wallet's run over its commits, in version
      order; each call answers from within it, and calls that fail leave no commit. */
  lemma Linearizable(actions: seq<Action>)
    ensures var w := Run(actions);
      && w.cell == Atomic(w.commits)
      && (forall k :: 0 <= k <= |w.commits| ==> Atomic(w.commits[..k]).version == k + 1)
      && (forall k :: 0 <= k < |w.commits| ==> OwnCommit(w, k))
      && (forall i :: 0 <= i < |w.tasks| ==> AnsweredWithin(w, i))
  {
    var w := Run(actions);
    RunKeepsInv(actions);
    forall k | 0 <= k <= |w.commits|
      ensures Atomic(w.commits[..k]).version == k + 1
    {
      AtomicVersion(w.commits[..k]);
    }
    forall k | 0 <= k < |w.commits|
      ensures OwnCommit(w, k)
    {
      assert Sound(w.commits, w.tasks, k);
    }
    forall i | 0 <= i < |w.tasks|
      ensures AnsweredWithin(w, i)
    {
      assert Honest(w.commits, w.cell, w.tasks, i);
      if w.tasks[i].pc.Returned? && w.tasks[i].pc.outcome.Succeeded? {
        var at := w.tasks[i].pc.at;
        assert Sound(w.commits, w.tasks, at);
        AtomicTake(w.commits, at);
      }
    }
  }

  /** A call answered that the funds are short is a deduction of more than the balance
      was at a moment within the call, so a refund never is; and one that succeeded moved
      the balance by its amount, a deduction from a balance that was at least as much. */
  lemma AnswersAreTrue(actions: seq<Action>, i: nat)
    requires i < |Run(actions).tasks| && Run(actions).tasks[i].pc.Returned?
    ensures var w := Run(actions);
      var op, at := w.tasks[i].op, w.tasks[i].pc.at;
      match w.tasks[i].pc.outcome
      case Insufficient =>
        && w.tasks[i].began <= at <= |w.commits|
        && op.Deduct? && op.amount > Atomic(w.commits[..at]).balance
      case Succeeded =>
        && w.tasks[i].began <= at < |w.commits|
        && (op.Deduct? ==> op.amount <= Atomic(w.commits[..at]).balance)
        && Atomic(w.commits[..at + 1]).balance
           == Atomic(w.commits[..at]).balance + (if op.Deduct? then -op.amount else op.amount)
      case Conflict => w.tasks[i].began + 5 <= at
  {
    var w := Run(actions);
    Linearizable(actions);
    assert AnsweredWithin(w, i);
    if w.tasks[i].pc.outcome.Conflict? {
      ConflictMeansFiveOthers(actions, i);
    }
  }

  /** A call made after another has succeeded takes effect after it. */
  lemma LaterCallsCommitLater(actions: seq<Action>, i: nat, op: Op, mode: Mode)
    requires i < |Run(actions).tasks| && Run(actions).tasks[i].pc.Returned?
      && Run(actions).tasks[i].pc.outcome.Succeeded?
    ensures var w := Step(Run(actions), Invoke(op, mode));
      w.tasks[|w.tasks| - 1].began > w.tasks[i].pc.at
  {
    RunKeepsInv(actions);
    assert Honest(Run(actions).commits, Run(actions).cell, Run(actions).tasks, i);
  }

  /** A commit that keeps a balance from going negative. */
  predicate Harmless(commits: seq<Commit>, k: nat)
    requires k < |commits|
  {
    match commits[k]
    case ByTask(_, op) => op.amount >= 0 && Covered(Atomic(commits[..k]), op)
    case ByAssignment(amount) => amount >= 0
  }

  lemma {:induction false} NeverNegative(commits: seq<Commit>, n: nat)
    requires n <= |commits| && forall k :: 0 <= k < n ==> Harmless(commits, k)
    ensures Atomic(commits[..n]).balance >= 0
  {
    if n > 0 {
      NeverNegative(commits, n - 1);
      assert Harmless(commits, n - 1);
      AtomicTake(commits, n - 1);
    }
  }

  /** With no negative amount called or assigned, no run reaches a negative balance. */
  lemma BalanceNeverNegative(actions: seq<Action>)
    requires forall i :: 0 <= i < |Run(actions).tasks| ==> Run(actions).tasks[i].op.amount >= 0
    requires forall k :: 0 <= k < |Run(actions).commits| && Run(actions).commits[k].ByAssignment? ==>
      Run(actions).commits[k].amount >= 0
    ensures Run(actions).cell.balance >= 0
  {
    var w := Run(actions);
    RunKeepsInv(actions);
    forall k | 0 <= k < |w.commits|
      ensures Harmless(w.commits, k)
    {
      assert Sound(w.commits, w.tasks, k);
    }
    NeverNegative(w.commits, |w.commits|);
    assert w.commits[..|w.commits|] == w.commits;
  }

  // ---------- counting ----------

  predicate DidSucceed(t: Task)
  {
    t.pc.Returned? && t.pc.outcome.Succeeded?
  }

  function Successes(tasks: seq<Task>): (n: nat)
    ensures n <= |tasks|
  {
    if tasks == [] then 0
    else Successes(tasks[..|tasks| - 1]) + (if DidSucceed(tasks[|tasks| - 1]) then 1 else 0)
  }

  /** What the calls that succeeded paid in, less what they took out. */
  function Net(tasks: seq<Task>): int
  {
    if tasks == [] then 0
    else
      var t := tasks[|tasks| - 1];
      Net(tasks[..|tasks| - 1]) + NetOf(t)
  }

  function NetOf(t: Task): int
  {
    if !DidSucceed(t) then 0 else if t.op.Deduct? then -t.op.amount else t.op.amount
  }

  lemma {:induction false} OneTaskChanged(tasks: seq<Task>, i: nat, t: Task)
    requires i < |tasks|
    ensures Successes(tasks[i := t])
      == Successes(tasks) - (if DidSucceed(tasks[i]) then 1 else 0) + (if DidSucceed(t) then 1 else 0)
    ensures Net(tasks[i := t]) == Net(tasks) - NetOf(tasks[i]) + NetOf(t)
    decreases |tasks|
  {
    var front := tasks[..|tasks| - 1];
    if i < |front| {
      OneTaskChanged(front, i, t);
      assert tasks[i := t][..|tasks| - 1] == front[i := t];
    } else {
      assert tasks[i := t][..|tasks| - 1] == front;
    }
  }

  predicate Counted(w: World)
  {
    && w.cell.version == 1 + |w.commits|
    && w.cell.transactionCount == Successes(w.tasks)
    && |w.commits| == Successes(w.tasks) + w.assignments
    && (w.assignments == 0 ==> w.cell.balance == Net(w.tasks))
  }

  lemma StepKeepsCounts(w: World, a: Action)
    requires Counted(w)
    ensures Counted(Step(w, a))
  {
    match a {
      case Invoke(op, mode) =>
        var tasks := Step(w, a).tasks;
        assert tasks[..|tasks| - 1] == w.tasks;
      case Turn(i) =>
        if i < |w.tasks| && !w.tasks[i].pc.Returned? {
          OneTaskChanged(w.tasks, i, TurnOf(w, i).tasks[i]);
          assert TurnOf(w, i).tasks == w.tasks[i := TurnOf(w, i).tasks[i]];
        }
      case Assign(_) =>
    }
  }

  /** In every run the version less the transaction count is one more than how often
      the balance was assigned; and if it never was, the balance is what the calls that
      succeeded paid in, less what they took out. */
  lemma {:induction false} RunCounts(actions: seq<Action>)
    ensures Counted(Run(actions))
    ensures Run(actions).cell.version - Run(actions).cell.transactionCount == 1 + Run(actions).assignments
    ensures Run(actions).assignments == 0 ==> Run(actions).cell.balance == Net(Run(actions).tasks)
  {
    if actions != [] {
      RunCounts(actions[..|actions| - 1]);
      StepKeepsCounts(Run(actions[..|actions| - 1]), actions[|actions| - 1]);
    }
  }

  /** What commits of calls paid in, less what they took out. */
  function NetOfCommits(commits: seq<Commit>): int
  {
    if commits == [] then 0
    else
      NetOfCommits(commits[..|commits| - 1])
        + match commits[|commits| - 1]
          case ByTask(_, Deduct(amount)) => -amount
          case ByTask(_, Refund(amount)) => amount
          case ByAssignment(_) => 0
  }

  lemma {:induction false} SinceAssigned(commits: seq<Commit>, k: nat, n: nat)
    requires k < n <= |commits| && commits[k].ByAssignment?
    requires forall j :: k < j < n ==> commits[j].ByTask?
    ensures Atomic(commits[..n]).balance == commits[k].amount + NetOfCommits(commits[k + 1..n])
    decreases n
  {
    AtomicTake(commits, n - 1);
    if n > k + 1 {
      SinceAssigned(commits, k, n - 1);
      assert commits[k + 1..n][..n - k - 2] == commits[k + 1..n - 1];
      assert commits[k + 1..n][n - k - 2] == commits[n - 1];
    }
  }

  /** In every run the balance is the amount last assigned, and what the calls that have
      committed since then paid in, less what they took out. */
  lemma BalanceSinceAssignment(actions: seq<Action>, k: nat)
    requires k < |Run(actions).commits| && Run(actions).commits[k].ByAssignment?
    requires forall j :: k < j < |Run(actions).commits| ==> Run(actions).commits[j].ByTask?
    ensures var w := Run(actions);
      w.cell.balance == w.commits[k].amount + NetOfCommits(w.commits[k + 1..])
  {
    var w := Run(actions);
    RunKeepsInv(actions);
    SinceAssigned(w.commits, k, |w.commits|);
    assert w.commits[..|w.commits|] == w.commits && w.commits[k + 1..|w.commits|] == w.commits[k + 1..];
  }

  // ---------- conflicts ----------

  predicate InConflict(t: Task)
  {
    t.pc.Returned? && t.pc.outcome.Conflict?
  }

  /** A call that reports a conflict has seen at least five commits go by, none its own. */
  lemma ConflictMeansFiveOthers(actions: seq<Action>, i: nat)
    requires i < |Run(actions).tasks| && InConflict(Run(actions).tasks[i])
    ensures var w := Run(actions);
      && w.tasks[i].began + 5 <= w.tasks[i].pc.at <= |w.commits|
      && forall k :: 0 <= k < |w.commits| && w.commits[k].ByTask? ==> w.commits[k].task != i
  {
    var w := Run(actions);
    RunKeepsInv(actions);
    assert Honest(w.commits, w.cell, w.tasks, i);
    forall k | 0 <= k < |w.commits| && w.commits[k].ByTask?
      ensures w.commits[k].task != i
    {
      assert Sound(w.commits, w.tasks, k);
    }
  }

  lemma {:induction false} OneFailedAtLeast(tasks: seq<Task>, i: nat)
    requires i < |tasks| && !DidSucceed(tasks[i])
    ensures Successes(tasks) < |tasks|
  {
    if i < |tasks| - 1 {
      OneFailedAtLeast(tasks[..|tasks| - 1], i);
    }
  }

  /** In a run of at most five operations on a balance, none reports a conflict. */
  lemma FiveNeverConflict(actions: seq<Action>, i: nat)
    requires i < |Run(actions).tasks| && |Run(actions).tasks| + Run(actions).assignments <= 5
    ensures !InConflict(Run(actions).tasks[i])
  {
    RunCounts(actions);
    if InConflict(Run(actions).tasks[i]) {
      ConflictMeansFiveOthers(actions, i);
      OneFailedAtLeast(Run(actions).tasks, i);
    }
  }

  /** One refund that reads before, and looks again after, each of k others. */
  function Overtaken(k: nat): seq<Action>
  {
    if k == 0 then [Invoke(Refund(1), Optimistic)]
    else Overtaken(k - 1) + [Turn(0)] + [Invoke(Refund(1), Locked)] + [Turn(k)] + [Turn(0)]
  }

  lemma RunNext(actions: seq<Action>, a: Action)
    ensures Run(actions + [a]) == Step(Run(actions), a)
  {
    assert (actions + [a])[..|actions + [a]| - 1] == actions;
  }

  /** The slow refund has been overtaken k times. */
  predicate Behind(w: World, k: nat, slow: Pc)
  {
    && |w.tasks| == k + 1 && |w.commits| == k && w.assignments == 0 && w.cell.version == k + 1
    && w.tasks[0] == Task(Refund(1), Optimistic, 0, slow)
  }

  function SlowPc(k: nat): Pc
  {
    if k < 5 then Ready(k) else Returned(Conflict, 5)
  }

  lemma OtherRefundCommits(w: World, k: nat, slow: Pc)
    requires Behind(w, k, slow)
    ensures Behind(Step(Step(w, Invoke(Refund(1), Locked)), Turn(k + 1)), k + 1, slow)
  {
  }

  lemma OvertakenOnce(w: World, k: nat)
    requires k < 5 && Behind(w, k, Ready(k))
    ensures Behind(Step(Step(Step(Step(w, Turn(0)), Invoke(Refund(1), Locked)), Turn(k + 1)), Turn(0)), k + 1,
      SlowPc(k + 1))
  {
    var read := Step(w, Turn(0));
    assert Behind(read, k, Holding(k, k + 1));
    OtherRefundCommits(read, k, Holding(k, k + 1));
  }

  lemma {:induction false} OvertakenSoFar(k: nat)
    requires k <= 5
    ensures Behind(Run(Overtaken(k)), k, SlowPc(k))
  {
    if k == 0 {
      RunNext([], Invoke(Refund(1), Optimistic));
      assert [] + [Invoke(Refund(1), Optimistic)] == Overtaken(0);
    } else {
      OvertakenSoFar(k - 1);
      var a := Overtaken(k - 1);
      RunNext(a, Turn(0));
      RunNext(a + [Turn(0)], Invoke(Refund(1), Locked));
      RunNext(a + [Turn(0)] + [Invoke(Refund(1), Locked)], Turn(k));
      RunNext(a + [Turn(0)] + [Invoke(Refund(1), Locked)] + [Turn(k)], Turn(0));
      OvertakenOnce(Run(a), k - 1);
    }
  }

  /** Six operations can be one too many. */
  lemma SixCanConflict()
    ensures |Run(Overtaken(5)).tasks| == 6 && Run(Overtaken(5)).assignments == 0
    ensures InConflict(Run(Overtaken(5)).tasks[0])
  {
    OvertakenSoFar(5);
  }
}
