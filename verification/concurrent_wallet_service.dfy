/** The in-memory wallet service as objects, under its three strategies.  What other
    callers commit between an optimistic read and its commit is an input. */
module ConcurrentWalletService {
  import opened ConcurrentWallet

  datatype Strategy = PessimisticLocking | OptimisticLocking | PartitionBased | OtherStrategy

  datatype Answer = Answered(outcome: Outcome) | UnknownStrategy

  datatype Call = Call(cell: Cell, outcome: Outcome)

  type Key = (string, string)

  function AfterCommit(c: Cell, commit: Commit): Cell
  {
    match commit
    case ByTask(_, op) => Applied(c, op)
    case ByAssignment(amount) => Assigned(c, amount)
  }

  /** A cell after others' commits. */
  function Disturbed(c: Cell, commits: seq<Commit>): Cell
  {
    if commits == [] then c
    else AfterCommit(Disturbed(c, commits[..|commits| - 1]), commits[|commits| - 1])
  }

  lemma {:induction false} DisturbedVersion(c: Cell, commits: seq<Commit>)
    ensures Disturbed(c, commits).version == c.version + |commits|
  {
    if commits != [] {
      DisturbedVersion(c, commits[..|commits| - 1]);
    }
  }

  lemma DisturbedNext(c: Cell, commits: seq<Commit>, k: nat)
    requires k < |commits|
    ensures Disturbed(c, commits[..k + 1])
      == AfterCommit(Disturbed(c, commits[..k]), commits[k])
  {
    assert commits[..k + 1][..k] == commits[..k];
  }

  /** A call under a lock. */
  function LockedCall(c: Cell, op: Op): Call
  {
    if Covered(c, op) then Call(Applied(c, op), Succeeded) else Call(c, Insufficient)
  }

  function Gap(gaps: seq<seq<Commit>>, k: nat): seq<Commit>
  {
    if k < |gaps| then gaps[k] else []
  }

  /** The cell that the k-th attempt reads. */
  function Seen(c: Cell, gaps: seq<seq<Commit>>, k: nat): Cell
  {
    if k == 0 then c else Disturbed(Seen(c, gaps, k - 1), Gap(gaps, k - 1))
  }

  /** The attempts before the k-th found the funds and were overtaken. */
  predicate OvertakenBefore(c: Cell, op: Op, gaps: seq<seq<Commit>>, k: nat)
  {
    forall j :: 0 <= j < k ==> Covered(Seen(c, gaps, j), op) && Gap(gaps, j) != []
  }

  /** How an optimistic call ends: at its first attempt that lacks the funds or is not
      overtaken, or in conflict when all five were overtaken. */
  ghost predicate EndsAs(c: Cell, op: Op, gaps: seq<seq<Commit>>, r: Call)
  {
    exists k :: 0 <= k <= MAX_RETRIES && OvertakenBefore(c, op, gaps, k) && StopsAs(c, op, gaps, k, r)
  }

  predicate StopsAs(c: Cell, op: Op, gaps: seq<seq<Commit>>, k: nat, r: Call)
  {
    var seen := Seen(c, gaps, k);
    if k == MAX_RETRIES then r == Call(seen, Conflict)
    else if !Covered(seen, op) then r == Call(seen, Insufficient)
    else Gap(gaps, k) == [] && r == Call(Applied(seen, op), Succeeded)
  }

  lemma OvertakenNext(c: Cell, op: Op, gaps: seq<seq<Commit>>, k: nat)
    requires OvertakenBefore(c, op, gaps, k) && Covered(Seen(c, gaps, k), op) && Gap(gaps, k) != []
    ensures OvertakenBefore(c, op, gaps, k + 1) && Seen(c, gaps, k + 1) == Disturbed(Seen(c, gaps, k), Gap(gaps, k))
  {
  }

  lemma Ends(c: Cell, op: Op, gaps: seq<seq<Commit>>, k: nat, r: Call)
    requires k <= MAX_RETRIES && OvertakenBefore(c, op, gaps, k) && StopsAs(c, op, gaps, k, r)
    ensures EndsAs(c, op, gaps, r)
  {
  }

  /** There is one way for a call to end. */
  lemma EndIsUnique(c: Cell, op: Op, gaps: seq<seq<Commit>>, r: Call, s: Call)
    requires EndsAs(c, op, gaps, r) && EndsAs(c, op, gaps, s)
    ensures r == s
  {
    var k :| 0 <= k <= MAX_RETRIES && OvertakenBefore(c, op, gaps, k) && StopsAs(c, op, gaps, k, r);
    var j :| 0 <= j <= MAX_RETRIES && OvertakenBefore(c, op, gaps, j) && StopsAs(c, op, gaps, j, s);
    assert !(k < j) && !(j < k);
  }

  /** Left alone, an optimistic call does what a locked one does. */
  lemma UndisturbedIsLocked(c: Cell, op: Op, r: Call)
    ensures EndsAs(c, op, [], r) <==> r == LockedCall(c, op)
  {
    assert Seen(c, [], 0) == c && OvertakenBefore(c, op, [], 0);
    assert StopsAs(c, op, [], 0, LockedCall(c, op));
    assert EndsAs(c, op, [], LockedCall(c, op));
    if EndsAs(c, op, [], r) {
      EndIsUnique(c, op, [], r, LockedCall(c, op));
    }
  }

  /** The balance that the k-th attempt reads covers the operation. */
  predicate Affords(c: Cell, op: Op, gaps: seq<seq<Commit>>, k: nat)
  {
    match op
    case Deduct(amount) => amount <= Seen(c, gaps, k).balance
    case Refund(_) => true
  }

  /** How an optimistic call ends, in amounts: short of funds only as a deduction of more
      than the balance it leaves; in success at an attempt that could afford it and was
      not overtaken, the balance it read moved by the amount; in conflict only when all
      five could afford it and were overtaken. */
  lemma EndsPlainly(c: Cell, op: Op, gaps: seq<seq<Commit>>, r: Call)
    requires EndsAs(c, op, gaps, r)
    ensures r.outcome.Insufficient? ==>
      exists k :: 0 <= k < 5 && r.cell == Seen(c, gaps, k) && op.Deduct? && op.amount > Seen(c, gaps, k).balance
    ensures r.outcome.Succeeded? ==>
      exists k :: 0 <= k < 5 && Gap(gaps, k) == [] && Affords(c, op, gaps, k)
        && r.cell.balance == Seen(c, gaps, k).balance + (if op.Deduct? then -op.amount else op.amount)
    ensures r.outcome.Conflict? <==> forall k :: 0 <= k < 5 ==> Affords(c, op, gaps, k) && Gap(gaps, k) != []
    ensures (forall k :: 0 <= k < 5 ==> Affords(c, op, gaps, k)) && (exists k :: 0 <= k < 5 && Gap(gaps, k) == []) ==>
      r.outcome.Succeeded?
  {
    var k: nat :| k <= MAX_RETRIES && OvertakenBefore(c, op, gaps, k) && StopsAs(c, op, gaps, k, r);
    forall j: nat
      ensures Affords(c, op, gaps, j) <==> Covered(Seen(c, gaps, j), op)
    {
    }
    if k < 5 {
      assert r.outcome.Insufficient? ==> r.cell == Seen(c, gaps, k);
      assert r.outcome.Succeeded? ==> Gap(gaps, k) == [] && Affords(c, op, gaps, k);
      assert !Affords(c, op, gaps, k) || Gap(gaps, k) == [];
    }
  }

  /** A call that is not overtaken at its first attempt succeeds exactly when it is a
      refund or a deduction of at most the balance, and moves the balance by the amount. */
  lemma EndsAtOnce(c: Cell, op: Op, gaps: seq<seq<Commit>>, r: Call)
    requires EndsAs(c, op, gaps, r) && Gap(gaps, 0) == []
    ensures if op.Deduct? && op.amount > c.balance then r == Call(c, Insufficient)
      else r.outcome.Succeeded? && r.cell.version == c.version + 1
           && r.cell.balance == (if op.Deduct? then c.balance - op.amount else c.balance + op.amount)
  {
    var k: nat :| k <= MAX_RETRIES && OvertakenBefore(c, op, gaps, k) && StopsAs(c, op, gaps, k, r);
    assert k == 0;
  }

  // ---------- an attempt is two turns of the machine ----------

  function RunFrom(w: World, actions: seq<Action>): World
  {
    if actions == [] then w else Step(RunFrom(w, actions[..|actions| - 1]), actions[|actions| - 1])
  }

  /** None of the actions is a turn of call `i`. */
  predicate Leaves(actions: seq<Action>, i: nat)
  {
    forall k :: 0 <= k < |actions| ==> !(actions[k].Turn? && actions[k].task == i)
  }

  /** What was committed between two worlds. */
  function Since(w: World, v: World): seq<Commit>
    requires |w.commits| <= |v.commits|
  {
    v.commits[|w.commits|..]
  }

  /** A step commits nothing, or one thing. */
  lemma StepCommits(v: World, a: Action)
    ensures var u := Step(v, a);
      || (u.commits == v.commits && u.cell == v.cell)
      || (u.commits != [] && u.commits == v.commits + [u.commits[|u.commits| - 1]]
          && u.cell == AfterCommit(v.cell, u.commits[|u.commits| - 1]))
  {
    match a {
      case Invoke(_, _) =>
      case Turn(i) =>
        if i < |v.tasks| && TurnOf(v, i).commits != v.commits {
          assert TurnOf(v, i) == Committed(v, i);
        }
      case Assign(_) =>
    }
  }

  lemma DisturbedSnoc(c: Cell, commits: seq<Commit>, commit: Commit)
    ensures Disturbed(c, commits + [commit]) == AfterCommit(Disturbed(c, commits), commit)
  {
    assert (commits + [commit])[..|commits + [commit]| - 1] == commits;
  }

  lemma StepDisturbs(w: World, v: World, a: Action)
    requires |w.commits| <= |v.commits| && v.cell == Disturbed(w.cell, Since(w, v))
    ensures |w.commits| <= |Step(v, a).commits| && Step(v, a).cell == Disturbed(w.cell, Since(w, Step(v, a)))
  {
    var u := Step(v, a);
    StepCommits(v, a);
    if u.commits != v.commits {
      var commit := u.commits[|u.commits| - 1];
      assert Since(w, u) == Since(w, v) + [commit];
      DisturbedSnoc(w.cell, Since(w, v), commit);
    }
  }

  /** While others act, a call stands still and the cell takes their commits. */
  lemma {:induction false} OthersDisturb(w: World, actions: seq<Action>, i: nat)
    requires i < |w.tasks| && Leaves(actions, i)
    ensures var v := RunFrom(w, actions);
      && i < |v.tasks| && v.tasks[i] == w.tasks[i]
      && |w.commits| <= |v.commits| && v.cell == Disturbed(w.cell, Since(w, v))
  {
    if actions == [] {
      assert Since(w, w) == [];
    } else {
      var front := actions[..|actions| - 1];
      OthersDisturb(w, front, i);
      StepDisturbs(w, RunFrom(w, front), actions[|actions| - 1]);
    }
  }

  /** An attempt of an optimistic call, whatever others do between its two turns:
      short of funds it returns, with no commit in between it commits, and otherwise
      it goes round again, or reports a conflict after the fifth. */
  lemma AttemptIsTwoTurns(w: World, i: nat, actions: seq<Action>)
    requires i < |w.tasks| && w.tasks[i].mode.Optimistic? && w.tasks[i].pc.Ready? && Leaves(actions, i)
    ensures var attempt, op := w.tasks[i].pc.attempt, w.tasks[i].op;
      var v := RunFrom(TurnOf(w, i), actions);
      && |w.commits| <= |v.commits| && i < |v.tasks|
      && var gap, u := Since(w, v), TurnOf(v, i);
      && (!Covered(w.cell, op) ==> u == v && v.tasks[i].pc == Returned(Insufficient, |w.commits|))
      && (Covered(w.cell, op) && gap == [] ==>
         u.cell == Applied(w.cell, op) && u.tasks[i].pc == Returned(Succeeded, |w.commits|))
      && (Covered(w.cell, op) && gap != [] ==> u.cell == Disturbed(w.cell, gap))
      && (Covered(w.cell, op) && gap != [] && attempt + 1 < MAX_RETRIES ==> u.tasks[i].pc == Ready(attempt + 1))
      && (Covered(w.cell, op) && gap != [] && attempt + 1 >= MAX_RETRIES ==>
         u.tasks[i].pc == Returned(Conflict, |v.commits|))
  {
    var read := TurnOf(w, i);
    OthersDisturb(read, actions, i);
    var v := RunFrom(read, actions);
    assert Since(w, v) == Since(read, v);
    DisturbedVersion(w.cell, Since(w, v));
  }

  /** Where a call stands after its turn, and when it is optimistic, after others have
      then acted and it has had another turn. */
  function Tried(w: World, i: nat, actions: seq<Action>): World
    requires i < |w.tasks| && Leaves(actions, i)
  {
    if w.tasks[i].mode.Locked? then TurnOf(w, i)
    else
      OthersDisturb(TurnOf(w, i), actions, i);
      TurnOf(RunFrom(TurnOf(w, i), actions), i)
  }

  /** In any world and mode, a call about to read that nobody overtakes succeeds exactly
      when it is a refund or a deduction of at most the balance, and moves the balance by
      its amount; otherwise it answers that the funds are short and moves nothing. */
  lemma NotOvertaken(w: World, i: nat, actions: seq<Action>)
    requires i < |w.tasks| && w.tasks[i].pc.Ready? && Leaves(actions, i)
    requires RunFrom(TurnOf(w, i), actions).commits == TurnOf(w, i).commits
    ensures var op, v := w.tasks[i].op, Tried(w, i, actions);
      && i < |v.tasks|
      && (if op.Deduct? && op.amount > w.cell.balance then
            v.tasks[i].pc == Returned(Insufficient, |w.commits|) && v.cell == w.cell
          else
            && v.tasks[i].pc == Returned(Succeeded, |w.commits|)
            && v.cell.version == w.cell.version + 1 && v.cell.transactionCount == w.cell.transactionCount + 1
            && v.cell.balance == (if op.Deduct? then w.cell.balance - op.amount else w.cell.balance + op.amount))
  {
    if w.tasks[i].mode.Optimistic? {
      var read := TurnOf(w, i);
      var v := RunFrom(read, actions);
      OthersDisturb(read, actions, i);
      assert Since(read, v) == [];
      AttemptIsTwoTurns(w, i, actions);
      assert Since(w, v) == [];
    }
  }

  class WalletBalance {
    var balance: int
    var version: int
    var transactionCount: int

    constructor ()
      ensures Value() == NEW_CELL
    {
      balance, version, transactionCount := 0, 1, 0;
    }

    function Value(): Cell
      reads this
    {
      Cell(balance, version, transactionCount)
    }

    /** The write that a deduction or refund makes, its lock held. */
    method Update(op: Op)
      modifies this
      ensures Value() == Applied(old(Value()), op)
    {
      if op.Deduct? {
        balance := balance - op.amount;
      } else {
        balance := balance + op.amount;
      }
      version := version + 1;
      transactionCount := transactionCount + 1;
    }

    method Assign(amount: int)
      modifies this
      ensures Value() == Assigned(old(Value()), amount)
      ensures balance == amount && version == old(version) + 1 && transactionCount == old(transactionCount)
    {
      balance := amount;
      version := version + 1;
    }

    /** What others commit while no lock is held. */
    method Disturb(commits: seq<Commit>)
      modifies this
      ensures Value() == Disturbed(old(Value()), commits)
    {
      ghost var c := Value();
      for k := 0 to |commits|
        invariant Value() == Disturbed(c, commits[..k])
      {
        DisturbedNext(c, commits, k);
        match commits[k] {
          case ByTask(_, op) => Update(op);
          case ByAssignment(amount) => Assign(amount);
        }
      }
      assert commits[..|commits|] == commits;
    }

    /** Check and write under one lock. */
    method LockedUpdate(op: Op) returns (outcome: Outcome)
      modifies this
      ensures Call(Value(), outcome) == LockedCall(old(Value()), op)
      ensures outcome == if op.Deduct? && op.amount > old(balance) then Insufficient else Succeeded
      ensures balance == if outcome.Insufficient? then old(balance)
        else if op.Deduct? then old(balance) - op.amount else old(balance) + op.amount
    {
      if op.Deduct? && balance < op.amount {
        return Insufficient;
      }
      Update(op);
      return Succeeded;
    }

    /** One attempt: read and check, then write if the version has not moved. */
    method Attempt(op: Op, gap: seq<Commit>) returns (outcome: Outcome)
      modifies this
      ensures outcome == if !Covered(old(Value()), op) then Insufficient else if gap == [] then Succeeded else Conflict
      ensures Value() == match outcome
        case Insufficient => old(Value())
        case Succeeded => Applied(old(Value()), op)
        case Conflict => Disturbed(old(Value()), gap)
    {
      var currentVersion, currentBalance := version, balance;
      if op.Deduct? && currentBalance < op.amount {
        return Insufficient;
      }
      DisturbedVersion(Value(), gap);
      Disturb(gap);
      if version != currentVersion {
        return Conflict;
      }
      Update(op);
      return Succeeded;
    }

    /** Attempts until one does not find the version moved; five at most. */
    method OptimisticUpdate(op: Op, gaps: seq<seq<Commit>>) returns (outcome: Outcome)
      modifies this
      ensures EndsAs(old(Value()), op, gaps, Call(Value(), outcome))
    {
      ghost var c := Value();
      var attempt := 0;
      while attempt < MAX_RETRIES
        invariant attempt <= MAX_RETRIES
        invariant Value() == Seen(c, gaps, attempt) && OvertakenBefore(c, op, gaps, attempt)
      {
        outcome := Attempt(op, Gap(gaps, attempt));
        if outcome != Conflict {
          Ends(c, op, gaps, attempt, Call(Value(), outcome));
          return;
        }
        OvertakenNext(c, op, gaps, attempt);
        attempt := attempt + 1;
      }
      Ends(c, op, gaps, attempt, Call(Value(), Conflict));
      return Conflict;
    }
  }

  function CellAt(view: map<Key, Cell>, key: Key): Cell
  {
    if key in view then view[key] else NEW_CELL
  }

  class ConcurrentWalletService {
    const strategy: Strategy
    var balances: map<Key, WalletBalance>

    constructor (strategy: Strategy)
      ensures Valid() && View() == map[] && this.strategy == strategy
    {
      this.strategy, balances := strategy, map[];
    }

    /** No two keys share a balance. */
    ghost predicate Valid()
      reads this
    {
      forall k, l :: k in balances && l in balances && k != l ==> balances[k] != balances[l]
    }

    ghost function View(): map<Key, Cell>
      reads this, balances.Values
    {
      map k | k in balances :: balances[k].Value()
    }

    lemma OneChanged(before: map<Key, Cell>, key: Key)
      requires key in balances && before.Keys == balances.Keys
      requires forall k :: k in balances && k != key ==> balances[k].Value() == before[k]
      ensures View() == before[key := balances[key].Value()]
    {
    }

    /** The key's balance object, made at 0 with version 1 if there was none. */
    method GetOrCreateBalance(userID: string, currency: string) returns (b: WalletBalance)
      requires Valid()
      modifies this`balances
      ensures Valid() && (userID, currency) in balances && balances[(userID, currency)] == b
      ensures View() == old(View())[(userID, currency) := CellAt(old(View()), (userID, currency))]
      ensures b.Value() == CellAt(old(View()), (userID, currency))
      ensures b in old(balances.Values) || fresh(b)
    {
      if (userID, currency) !in balances {
        b := new WalletBalance();
        ghost var before := View();
        balances := balances[(userID, currency) := b];
        assert View() == before[(userID, currency) := NEW_CELL];
      }
      b := balances[(userID, currency)];
      assert View() == old(View())[(userID, currency) := CellAt(old(View()), (userID, currency))];
    }

    /** Pessimistic and partitioned deducting and refunding. */
    method ChangeLocked(userID: string, currency: string, op: Op) returns (outcome: Outcome)
      requires Valid()
      modifies this`balances, balances.Values
      ensures Valid()
      ensures View() == old(View())[(userID, currency) := LockedCall(CellAt(old(View()), (userID, currency)), op).cell]
      ensures outcome == LockedCall(CellAt(old(View()), (userID, currency)), op).outcome
    {
      var balance := GetOrCreateBalance(userID, currency);
      ghost var before := View();
      outcome := balance.LockedUpdate(op);
      OneChanged(before, (userID, currency));
    }

    /** Optimistic deducting and refunding. */
    method ChangeOptimistic(userID: string, currency: string, op: Op, gaps: seq<seq<Commit>>) returns (outcome: Outcome)
      requires Valid()
      modifies this`balances, balances.Values
      ensures Valid() && (userID, currency) in View()
      ensures View() == old(View())[(userID, currency) := View()[(userID, currency)]]
      ensures EndsAs(CellAt(old(View()), (userID, currency)), op, gaps, Call(View()[(userID, currency)], outcome))
    {
      var balance := GetOrCreateBalance(userID, currency);
      ghost var before, cell := View(), balance.Value();
      outcome := balance.OptimisticUpdate(op, gaps);
      assert EndsAs(cell, op, gaps, Call(balance.Value(), outcome));
      OneChanged(before, (userID, currency));
    }

    /** Deducting or refunding under the service's strategy: only the key's own cell
        changes, and as its strategy says. */
    method ChangeFunds(userID: string, currency: string, op: Op, gaps: seq<seq<Commit>>) returns (r: Answer)
      requires Valid()
      modifies this`balances, balances.Values
      ensures Valid()
      ensures r.UnknownStrategy? <==> strategy.OtherStrategy?
      ensures r.UnknownStrategy? ==> View() == old(View())
      ensures r.Answered? ==> (userID, currency) in View()
      ensures r.Answered? ==> View() == old(View())[(userID, currency) := View()[(userID, currency)]]
      ensures r.Answered? && !strategy.OptimisticLocking? ==>
        Call(View()[(userID, currency)], r.outcome) == LockedCall(CellAt(old(View()), (userID, currency)), op)
      ensures r.Answered? && strategy.OptimisticLocking? ==>
        EndsAs(CellAt(old(View()), (userID, currency)), op, gaps, Call(View()[(userID, currency)], r.outcome))
      ensures r == Answered(Insufficient) ==> op.Deduct? && op.amount > View()[(userID, currency)].balance
      ensures r.Answered? && (strategy.OptimisticLocking? ==> Gap(gaps, 0) == []) ==>
        var before, after := CellAt(old(View()), (userID, currency)).balance, View()[(userID, currency)].balance;
        if op.Deduct? && op.amount > before then r.outcome.Insufficient? && after == before
        else r.outcome.Succeeded? && after == if op.Deduct? then before - op.amount else before + op.amount
    {
      match strategy {
        case PessimisticLocking =>
          var outcome := ChangeLocked(userID, currency, op);
          r := Answered(outcome);
        case OptimisticLocking =>
          var outcome := ChangeOptimistic(userID, currency, op, gaps);
          r := Answered(outcome);
          EndsPlainly(CellAt(old(View()), (userID, currency)), op, gaps, Call(View()[(userID, currency)], outcome));
          if Gap(gaps, 0) == [] {
            EndsAtOnce(CellAt(old(View()), (userID, currency)), op, gaps, Call(View()[(userID, currency)], outcome));
          }
        case PartitionBased =>
          var outcome := ChangeLocked(userID, currency, op);
          r := Answered(outcome);
        case OtherStrategy => r := UnknownStrategy;
      }
    }

    method SetBalance(userID: string, currency: string, amount: int)
      requires Valid()
      modifies this`balances, balances.Values
      ensures Valid()
      ensures View() == old(View())[(userID, currency) := Assigned(CellAt(old(View()), (userID, currency)), amount)]
      ensures var before, after := CellAt(old(View()), (userID, currency)), View()[(userID, currency)];
        && after.balance == amount && after.version == before.version + 1
        && after.transactionCount == before.transactionCount
    {
      var balance := GetOrCreateBalance(userID, currency);
      ghost var before := View();
      balance.Assign(amount);
      OneChanged(before, (userID, currency));
    }
  }
}
