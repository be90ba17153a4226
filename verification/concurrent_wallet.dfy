/** One in-memory balance under concurrent operations: atomic ones behind a lock, and
    optimistic ones that read, then commit if the version has not moved. */
module ConcurrentWallet {

  /** A balance cell; a new one has version 1. */
  datatype Cell = Cell(balance: int, version: int, transactionCount: int)

  const NEW_CELL := Cell(0, 1, 0)

  datatype Op = Deduct(amount: int) | Refund(amount: int)

  predicate Covered(c: Cell, op: Op)
  {
    op.Deduct? ==> c.balance >= op.amount
  }

  function Applied(c: Cell, op: Op): Cell
  {
    Cell(if op.Deduct? then c.balance - op.amount else c.balance + op.amount, c.version + 1, c.transactionCount + 1)
  }

  /** Setting a balance moves the version but counts no transaction. */
  function Assigned(c: Cell, amount: int): Cell
  {
    c.(balance := amount, version := c.version + 1)
  }

  // ---------- the machine ----------

  const MAX_RETRIES := 5

  datatype Mode = Locked | Optimistic

  datatype Outcome = Succeeded | Insufficient | Conflict

  /** Where an operation stands: before its `attempt`-th read, holding the version it
      read, or returned; `at` is how many commits there were at that moment. */
  datatype Pc = Ready(attempt: nat) | Holding(attempt: nat, version: int) | Returned(outcome: Outcome, at: nat)

  /** `began` is how many commits there were at the call. */
  datatype Task = Task(op: Op, mode: Mode, began: nat, pc: Pc)

  datatype Commit = ByTask(task: nat, op: Op) | ByAssignment(amount: int)

  datatype World = World(cell: Cell, tasks: seq<Task>, commits: seq<Commit>, assignments: nat)

  datatype Action = Invoke(op: Op, mode: Mode) | Turn(task: nat) | Assign(amount: int)

  function Start(): World
  {
    World(NEW_CELL, [], [], 0)
  }

  function WithPc(w: World, i: nat, pc: Pc): World
    requires i < |w.tasks|
  {
    w.(tasks := w.tasks[i := w.tasks[i].(pc := pc)])
  }

  /** The operation takes effect. */
  function Committed(w: World, i: nat): World
    requires i < |w.tasks|
  {
    WithPc(w, i, Returned(Succeeded, |w.commits|)).(
      cell := Applied(w.cell, w.tasks[i].op),
      commits := w.commits + [ByTask(i, w.tasks[i].op)])
  }

  /** One turn of a call: under the lock check and commit at once; optimistically read
      and check, later commit or go round again, five times at most. */
  function TurnOf(w: World, i: nat): World
    requires i < |w.tasks|
  {
    var t := w.tasks[i];
    match t.pc
    case Ready(attempt) =>
      if !Covered(w.cell, t.op) then WithPc(w, i, Returned(Insufficient, |w.commits|))
      else if t.mode.Locked? then Committed(w, i)
      else WithPc(w, i, Holding(attempt, w.cell.version))
    case Holding(attempt, version) =>
      if version == w.cell.version then Committed(w, i)
      else if attempt + 1 < MAX_RETRIES then WithPc(w, i, Ready(attempt + 1))
      else WithPc(w, i, Returned(Conflict, |w.commits|))
    case Returned(_, _) => w
  }

  function Step(w: World, a: Action): World
  {
    match a
    case Invoke(op, mode) => w.(tasks := w.tasks + [Task(op, mode, |w.commits|, Ready(0))])
    case Turn(i) => if i < |w.tasks| then TurnOf(w, i) else w
    case Assign(amount) =>
      w.(cell := Assigned(w.cell, amount), commits := w.commits + [ByAssignment(amount)],
        assignments := w.assignments + 1)
  }

  function Run(actions: seq<Action>): World
  {
    if actions == [] then Start() else Step(Run(actions[..|actions| - 1]), actions[|actions| - 1])
  }

  // ---------- the atomic wallet ----------

  /** The wallet that takes the commits one at a time. */
  function Atomic(commits: seq<Commit>): Cell
  {
    if commits == [] then NEW_CELL
    else
      var before := Atomic(commits[..|commits| - 1]);
      match commits[|commits| - 1]
      case ByTask(_, op) => Applied(before, op)
      case ByAssignment(amount) => Assigned(before, amount)
  }

  lemma AtomicNext(commits: seq<Commit>, c: Commit)
    ensures Atomic(commits + [c]) == if c.ByTask? then Applied(Atomic(commits), c.op)
      else Assigned(Atomic(commits), c.amount)
  {
    assert (commits + [c])[..|commits + [c]| - 1] == commits;
  }

  lemma AtomicTake(commits: seq<Commit>, k: nat)
    requires k < |commits|
    ensures Atomic(commits[..k + 1])
      == if commits[k].ByTask? then Applied(Atomic(commits[..k]), commits[k].op)
        else Assigned(Atomic(commits[..k]), commits[k].amount)
  {
    assert commits[..k + 1] == commits[..k] + [commits[k]];
    AtomicNext(commits[..k], commits[k]);
  }

  lemma {:induction false} AtomicVersion(commits: seq<Commit>)
    ensures Atomic(commits).version == 1 + |commits|
  {
    if commits != [] {
      AtomicVersion(commits[..|commits| - 1]);
    }
  }

  // ---------- the invariant ----------

  /** A commit came from its task, which had the funds at that moment. */
  predicate Sound(commits: seq<Commit>, tasks: seq<Task>, k: nat)
    requires k < |commits|
  {
    commits[k].ByTask? ==>
      && commits[k].task < |tasks|
      && tasks[commits[k].task].pc == Returned(Succeeded, k)
      && tasks[commits[k].task].op == commits[k].op
      && Covered(Atomic(commits[..k]), commits[k].op)
  }

  /** What is known of a call from where it stands. */
  predicate Honest(commits: seq<Commit>, cell: Cell, tasks: seq<Task>, i: nat)
    requires i < |tasks|
  {
    var t := tasks[i];
    && t.began <= |commits|
    && match t.pc
       case Ready(attempt) => attempt < MAX_RETRIES && t.began + attempt <= |commits|
       case Holding(attempt, version) =>
         && attempt < MAX_RETRIES && t.began + attempt < version <= cell.version
         && (version == cell.version ==> Covered(cell, t.op))
       case Returned(Succeeded, at) => t.began <= at < |commits| && commits[at] == ByTask(i, t.op)
       case Returned(Insufficient, at) => t.began <= at <= |commits| && !Covered(Atomic(commits[..at]), t.op)
       case Returned(Conflict, at) => t.began + MAX_RETRIES <= at <= |commits|
  }

  ghost predicate Inv(w: World)
  {
    && w.cell == Atomic(w.commits)
    && (forall k :: 0 <= k < |w.commits| ==> Sound(w.commits, w.tasks, k))
    && (forall i :: 0 <= i < |w.tasks| ==> Honest(w.commits, w.cell, w.tasks, i))
  }

  lemma MoreCommitsKeepAtomic(commits: seq<Commit>, c: Commit, k: nat)
    requires k <= |commits|
    ensures (commits + [c])[..k] == commits[..k]
  {
  }

  /** A commit, and what it leaves known of the calls that are not its own. */
  lemma OthersStayHonest(w: World, c: Commit, tasks: seq<Task>, i: nat)
    requires i < |w.tasks| == |tasks| && tasks[i] == w.tasks[i] && Inv(w)
    ensures Honest(w.commits + [c], Atomic(w.commits + [c]), tasks, i)
  {
    AtomicVersion(w.commits);
    AtomicVersion(w.commits + [c]);
    assert Honest(w.commits, w.cell, w.tasks, i);
    match w.tasks[i].pc {
      case Returned(Insufficient, at) => MoreCommitsKeepAtomic(w.commits, c, at);
      case _ =>
    }
  }

  lemma CommitsStaySound(w: World, c: Commit, tasks: seq<Task>, k: nat)
    requires k < |w.commits| && Inv(w) && |tasks| == |w.tasks|
    requires forall i :: 0 <= i < |tasks| && w.tasks[i].pc.Returned? ==> tasks[i] == w.tasks[i]
    ensures Sound(w.commits + [c], tasks, k)
  {
    MoreCommitsKeepAtomic(w.commits, c, k);
    assert Sound(w.commits, w.tasks, k);
  }

  lemma CommitKeepsInv(w: World, i: nat)
    requires Inv(w) && i < |w.tasks| && !w.tasks[i].pc.Returned? && Covered(w.cell, w.tasks[i].op)
    ensures Inv(Committed(w, i))
  {
    var w', c := Committed(w, i), ByTask(i, w.tasks[i].op);
    AtomicNext(w.commits, c);
    assert Honest(w.commits, w.cell, w.tasks, i);
    forall j | 0 <= j < |w'.tasks|
      ensures Honest(w'.commits, w'.cell, w'.tasks, j)
    {
      if j != i {
        OthersStayHonest(w, c, w'.tasks, j);
      }
    }
    forall k | 0 <= k < |w'.commits|
      ensures Sound(w'.commits, w'.tasks, k)
    {
      if k < |w.commits| {
        CommitsStaySound(w, c, w'.tasks, k);
      } else {
        MoreCommitsKeepAtomic(w.commits, c, k);
        assert w.commits[..k] == w.commits;
      }
    }
  }

  lemma AssignKeepsInv(w: World, amount: int)
    requires Inv(w)
    ensures Inv(Step(w, Assign(amount)))
  {
    var w', c := Step(w, Assign(amount)), ByAssignment(amount);
    AtomicNext(w.commits, c);
    forall j | 0 <= j < |w'.tasks|
      ensures Honest(w'.commits, w'.cell, w'.tasks, j)
    {
      OthersStayHonest(w, c, w.tasks, j);
    }
    forall k | 0 <= k < |w'.commits|
      ensures Sound(w'.commits, w'.tasks, k)
    {
      AssignedIsSound(w, amount, k);
    }
  }

  lemma AssignedIsSound(w: World, amount: int, k: nat)
    requires Inv(w) && k <= |w.commits|
    ensures Sound(w.commits + [ByAssignment(amount)], w.tasks, k)
  {
    if k < |w.commits| {
      CommitsStaySound(w, ByAssignment(amount), w.tasks, k);
    }
  }

  /** A turn that only moves one call. */
  lemma MoveKeepsInv(w: World, i: nat, pc: Pc)
    requires Inv(w) && i < |w.tasks| && !w.tasks[i].pc.Returned?
    requires Honest(w.commits, w.cell, w.tasks[i := w.tasks[i].(pc := pc)], i)
    ensures Inv(WithPc(w, i, pc))
  {
    var w' := WithPc(w, i, pc);
    forall j | 0 <= j < |w'.tasks|
      ensures Honest(w'.commits, w'.cell, w'.tasks, j)
    {
      assert Honest(w.commits, w.cell, w.tasks, j);
    }
    forall k | 0 <= k < |w'.commits|
      ensures Sound(w'.commits, w'.tasks, k)
    {
      assert Sound(w.commits, w.tasks, k);
    }
  }

  lemma TurnKeepsInv(w: World, i: nat)
    requires Inv(w) && i < |w.tasks|
    ensures Inv(TurnOf(w, i))
  {
    var t := w.tasks[i];
    assert Honest(w.commits, w.cell, w.tasks, i);
    AtomicVersion(w.commits);
    assert w.commits[..|w.commits|] == w.commits;
    match t.pc {
      case Ready(attempt) =>
        if !Covered(w.cell, t.op) {
          MoveKeepsInv(w, i, Returned(Insufficient, |w.commits|));
        } else if t.mode.Locked? {
          CommitKeepsInv(w, i);
        } else {
          MoveKeepsInv(w, i, Holding(attempt, w.cell.version));
        }
      case Holding(attempt, version) =>
        if version == w.cell.version {
          CommitKeepsInv(w, i);
        } else if attempt + 1 < MAX_RETRIES {
          MoveKeepsInv(w, i, Ready(attempt + 1));
        } else {
          MoveKeepsInv(w, i, Returned(Conflict, |w.commits|));
        }
      case Returned(_, _) =>
    }
  }

  lemma InvokeKeepsInv(w: World, op: Op, mode: Mode)
    requires Inv(w)
    ensures Inv(Step(w, Invoke(op, mode)))
  {
    var w' := Step(w, Invoke(op, mode));
    forall j | 0 <= j < |w'.tasks|
      ensures Honest(w'.commits, w'.cell, w'.tasks, j)
    {
      if j < |w.tasks| {
        assert Honest(w.commits, w.cell, w.tasks, j);
      }
    }
    forall k | 0 <= k < |w'.commits|
      ensures Sound(w'.commits, w'.tasks, k)
    {
      assert Sound(w.commits, w.tasks, k);
    }
  }

  lemma {:induction false} RunKeepsInv(actions: seq<Action>)
    ensures Inv(Run(actions))
  {
    if actions != [] {
      var w := Run(actions[..|actions| - 1]);
      RunKeepsInv(actions[..|actions| - 1]);
      match actions[|actions| - 1] {
        case Invoke(op, mode) => InvokeKeepsInv(w, op, mode);
        case Turn(i) => if i < |w.tasks| { TurnKeepsInv(w, i); }
        case Assign(amount) => AssignKeepsInv(w, amount);
      }
    }
  }
}
