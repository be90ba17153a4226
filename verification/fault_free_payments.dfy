/** Runs in which no repository call fails: who turned a payment away, and what the
    stored status says in the end. */
module FaultFreePayments {
  import opened WalletRepository
  import opened PaymentMachine
  import opened PaymentLedger

  /** No repository call fails; the gateway may still decline. */
  predicate FaultFree(w: World, actions: seq<Action>)
    decreases |actions|
  {
    actions != [] ==>
      && (actions[0].Call? && actions[0].i < |w.payments| && !actions[0].reply ==>
         w.payments[actions[0].i].pc.AtGateway?)
      && FaultFree(Next(w, actions[0]), actions[1..])
  }

  /** Refused at the deduction although validated, or left unrefunded after a decline. */
  predicate CrossedAnother(p: Payment)
  {
    || p.pc == MarkingFailed(DeductionFailed)
    || p.pc == Done(Rejected(DeductionFailed))
    || ((p.pc == MarkingFailed(GatewayError) || p.pc == Done(Rejected(GatewayError))) && !p.refunded)
  }

  predicate Validated(p: Payment)
  {
    p.pc.DeductReading? || p.pc.DeductInserting? || p.pc.DeductUpdating?
  }

  // ---------- points of a run ----------

  /** The world after the first `n` actions. */
  function Point(start: map<WalletKey, Wallet>, actions: seq<Action>, n: nat): World
    requires n <= |actions|
  {
    Run(Initial(start), actions[..n])
  }

  predicate Solvent(start: map<WalletKey, Wallet>)
  {
    forall k :: k in start ==> start[k].balance >= 0
  }

  lemma PointInv(start: map<WalletKey, Wallet>, actions: seq<Action>, n: nat)
    requires n <= |actions| && Solvent(start)
    ensures Inv(Point(start, actions, n), start)
  {
    InitialInv(start);
    RunKeepsInv(Initial(start), start, actions[..n]);
  }

  lemma PointNext(start: map<WalletKey, Wallet>, actions: seq<Action>, n: nat)
    requires n < |actions|
    ensures Point(start, actions, n + 1) == Next(Point(start, actions, n), actions[n])
  {
    assert actions[..n + 1] == actions[..n] + [actions[n]];
    RunSplits(Initial(start), actions[..n], [actions[n]]);
    assert [actions[n]][1..] == [];
  }

  lemma {:induction false} FaultFreeFrom(w: World, actions: seq<Action>, n: nat)
    requires FaultFree(w, actions) && n < |actions|
    requires actions[n].Call? && actions[n].i < |Run(w, actions[..n]).payments|
    ensures actions[n].reply || Run(w, actions[..n]).payments[actions[n].i].pc.AtGateway?
    decreases n
  {
    if n > 0 {
      assert actions[..n][1..] == actions[1..][..n - 1];
      FaultFreeFrom(Next(w, actions[0]), actions[1..], n - 1);
    }
  }

  /** What one action leaves: wallets whose version did not move are as they were,
      and payments are the same ones. */
  predicate Follows(w: World, v: World)
  {
    && w.db.wallets.Keys <= v.db.wallets.Keys
    && (forall key :: key in w.db.wallets ==> w.db.wallets[key].version <= v.db.wallets[key].version)
    && (forall key :: key in w.db.wallets && w.db.wallets[key].version == v.db.wallets[key].version ==>
       w.db.wallets[key] == v.db.wallets[key])
    && |w.payments| <= |v.payments|
    && (forall j :: 0 <= j < |w.payments| ==> SamePayment(w.payments[j], v.payments[j]))
  }

  predicate SamePayment(p: Payment, q: Payment)
  {
    q.id == p.id && q.key == p.key && q.amount == p.amount && (p.debited ==> q.debited)
  }

  lemma NextFollows(w: World, start: map<WalletKey, Wallet>, a: Action)
    requires Inv(w, start)
    ensures Follows(w, Next(w, a))
  {
    if a.Call? && a.i < |w.payments| {
      StepKeepsIdentity(w.db, w.payments[a.i], a.reply);
      CallKeepsInv(w, start, a.i, a.reply);
      forall key | key in w.db.wallets
        ensures key in Next(w, a).db.wallets
        ensures w.db.wallets[key].version <= Next(w, a).db.wallets[key].version
        ensures w.db.wallets[key].version == Next(w, a).db.wallets[key].version ==>
          w.db.wallets[key] == Next(w, a).db.wallets[key]
      {
        CallMovesWallet(w, start, a.i, a.reply, key);
      }
    }
  }

  lemma FollowsOn(w: World, v: World, u: World)
    requires Follows(w, v) && Follows(v, u)
    ensures Follows(w, u)
  {
    forall j | 0 <= j < |w.payments|
      ensures SamePayment(w.payments[j], u.payments[j])
    {
      assert SamePayment(w.payments[j], v.payments[j]) && SamePayment(v.payments[j], u.payments[j]);
    }
  }

  lemma {:induction false} LaterFollows(start: map<WalletKey, Wallet>, actions: seq<Action>, m: nat, n: nat)
    requires m <= n <= |actions| && Solvent(start)
    ensures Follows(Point(start, actions, m), Point(start, actions, n))
    decreases n - m
  {
    if m < n {
      LaterFollows(start, actions, m, n - 1);
      PointInv(start, actions, n - 1);
      PointNext(start, actions, n - 1);
      NextFollows(Point(start, actions, n - 1), start, actions[n - 1]);
      FollowsOn(Point(start, actions, m), Point(start, actions, n - 1), Point(start, actions, n));
    }
  }

  // ---------- where a payment came from ----------

  /** Action `n` is a call of payment `i` that answers. */
  predicate Calls(start: map<WalletKey, Wallet>, actions: seq<Action>, n: nat, i: nat)
  {
    n < |actions| && actions[n] == Call(i, true) && i < |Point(start, actions, n).payments|
  }

  /** Action `n` moves payment `i`, or leaves it where it was. */
  lemma MovedOrStays(start: map<WalletKey, Wallet>, actions: seq<Action>, n: nat, i: nat)
    requires n < |actions| && FaultFree(Initial(start), actions) && i < |Point(start, actions, n + 1).payments|
    ensures var w, v := Point(start, actions, n), Point(start, actions, n + 1);
      || (i < |w.payments| && v.payments[i] == w.payments[i])
      || (i >= |w.payments| && v.payments[i].pc.Saving?)
      || (i < |w.payments| && actions[n].Call? && actions[n].i == i
          && (actions[n].reply || w.payments[i].pc.AtGateway?)
          && v.payments[i] == Step(w.db, w.payments[i], actions[n].reply).1)
  {
    PointNext(start, actions, n);
    var w := Point(start, actions, n);
    if actions[n].Call? && actions[n].i < |w.payments| {
      FaultFreeFrom(Initial(start), actions, n);
    }
  }

  /** The version a payment that validated has read since, if it has read. */
  predicate ReadAfter(p: Payment, version: int)
  {
    (p.pc.DeductInserting? || p.pc.DeductUpdating?) ==> p.pc.seen.version >= version
  }

  predicate Covering(w: World, i: nat)
    requires i < |w.payments|
  {
    var p := w.payments[i];
    p.key in w.db.wallets && w.db.wallets[p.key].balance >= p.amount
  }

  /** Payment `i`, before its validation or past it, one action later. */
  lemma ValidatedOneLater(start: map<WalletKey, Wallet>, actions: seq<Action>, n: nat, i: nat)
    requires n < |actions| && Solvent(start) && FaultFree(Initial(start), actions)
    requires i < |Point(start, actions, n + 1).payments| && Validated(Point(start, actions, n + 1).payments[i])
    ensures i < |Point(start, actions, n).payments|
    ensures var w, v := Point(start, actions, n), Point(start, actions, n + 1);
      || (w.payments[i].pc.Validating? && Calls(start, actions, n, i) && Covering(w, i)
         && v.payments[i].pc.DeductReading?
          && v.payments[i].key == w.payments[i].key)
      || (Validated(w.payments[i]) && v.payments[i].key == w.payments[i].key
          && (v.payments[i].pc == w.payments[i].pc || SeenNow(w, i, v.payments[i])
             || SeenBefore(w.payments[i], v.payments[i])))
  {
    MovedOrStays(start, actions, n, i);
  }

  /** The wallet was read just now. */
  predicate SeenNow(w: World, i: nat, q: Payment)
    requires i < |w.payments|
  {
    q.pc.DeductInserting? && w.payments[i].key in w.db.wallets && q.pc.seen == w.db.wallets[w.payments[i].key]
  }

  predicate SeenBefore(p: Payment, q: Payment)
  {
    p.pc.DeductInserting? && q.pc.DeductUpdating? && q.pc.seen == p.pc.seen
  }

  /** A payment past its validation validated once, against a wallet that covered it. */
  lemma {:induction false} FindValidation(start: map<WalletKey, Wallet>, actions: seq<Action>, n: nat, i: nat)
    returns (m: nat)
    requires n <= |actions| && Solvent(start) && FaultFree(Initial(start), actions)
    requires i < |Point(start, actions, n).payments| && Validated(Point(start, actions, n).payments[i])
    ensures m < n && Calls(start, actions, m, i)
    ensures Point(start, actions, m).payments[i].pc.Validating? && Covering(Point(start, actions, m), i)
    ensures ReadAfter(Point(start, actions, n).payments[i],
      Point(start, actions, m).db.wallets[Point(start, actions, m).payments[i].key].version)
    decreases n
  {
    assert n > 0;
    ValidatedOneLater(start, actions, n - 1, i);
    if Point(start, actions, n - 1).payments[i].pc.Validating? {
      return n - 1;
    }
    m := FindValidation(start, actions, n - 1, i);
    LaterFollows(start, actions, m, n - 1);
    assert SamePayment(Point(start, actions, m).payments[i], Point(start, actions, n - 1).payments[i]);
  }

  /** A refund about to be written read the wallet once. */
  lemma {:induction false} FindRefundRead(start: map<WalletKey, Wallet>, actions: seq<Action>, n: nat, i: nat)
    returns (m: nat)
    requires n <= |actions| && FaultFree(Initial(start), actions)
    requires i < |Point(start, actions, n).payments|
    requires Point(start, actions, n).payments[i].pc.RefundInserting?
      || Point(start, actions, n).payments[i].pc.RefundUpdating?
    ensures m < n && Calls(start, actions, m, i)
    ensures var w := Point(start, actions, m);
      && w.payments[i].pc.RefundReading? && w.payments[i].key in w.db.wallets
      && w.db.wallets[w.payments[i].key] == Point(start, actions, n).payments[i].pc.seen
    decreases n
  {
    assert n > 0;
    MovedOrStays(start, actions, n - 1, i);
    if Point(start, actions, n - 1).payments[i].pc.RefundReading? {
      return n - 1;
    }
    m := FindRefundRead(start, actions, n - 1, i);
  }

  /** The call that turned a payment away. */
  lemma {:induction false} FindTurn(start: map<WalletKey, Wallet>, actions: seq<Action>, n: nat, i: nat)
    returns (t: nat)
    requires n <= |actions| && FaultFree(Initial(start), actions)
    requires i < |Point(start, actions, n).payments| && CrossedAnother(Point(start, actions, n).payments[i])
    ensures t < n && Calls(start, actions, t, i)
    ensures !CrossedAnother(Point(start, actions, t).payments[i])
    ensures i < |Point(start, actions, t + 1).payments| && CrossedAnother(Point(start, actions, t + 1).payments[i])
    decreases n
  {
    assert n > 0;
    MovedOrStays(start, actions, n - 1, i);
    if !CrossedAnother(Point(start, actions, n - 1).payments[i]) {
      return n - 1;
    }
    t := FindTurn(start, actions, n - 1, i);
  }

  // ---------- the rival ----------

  lemma {:induction false} SomeShare(ps: seq<Payment>, f: Payment -> int) returns (j: nat)
    requires Total(ps, f) > 0
    ensures j < |ps| && f(ps[j]) > 0
  {
    if f(ps[0]) > 0 {
      return 0;
    }
    var k := SomeShare(ps[1..], f);
    return k + 1;
  }

  function ShareOf(ps: seq<Payment>, j: nat, f: Payment -> int): int
  {
    if j < |ps| then f(ps[j]) else 0
  }

  lemma {:induction false} SomeGrowth(a: seq<Payment>, b: seq<Payment>, f: Payment -> int) returns (j: nat)
    requires |a| <= |b| && Total(b, f) > Total(a, f)
    ensures j < |b| && f(b[j]) > ShareOf(a, j, f)
    decreases |a|
  {
    if a == [] {
      j := SomeShare(b, f);
    } else if f(b[0]) > f(a[0]) {
      j := 0;
    } else {
      var k := SomeGrowth(a[1..], b[1..], f);
      j := k + 1;
    }
  }

  /** Between its call at `m`, which relied on the wallet, and its call at `t`, which
      turned it away, payment `i` was crossed: the wallet was updated, not by `i`, and `j` is a
      payment on that wallet with a debit whose updates grew in between. */
  ghost predicate CrossedBy(start: map<WalletKey, Wallet>, actions: seq<Action>, i: nat, m: nat, t: nat, j: nat)
  {
    && Calls(start, actions, m, i) && Calls(start, actions, t, i) && m < t
    && var w, v, u := Point(start, actions, m), Point(start, actions, t), Point(start, actions, t + 1);
    && var key := w.payments[i].key;
    && i < |u.payments|
    && (|| (w.payments[i].pc.Validating? && Validated(v.payments[i])
       && u.payments[i].pc == MarkingFailed(DeductionFailed))
        || (w.payments[i].pc.RefundReading? && v.payments[i].pc.RefundUpdating?
           && u.payments[i].pc == MarkingFailed(GatewayError)))
    && !CrossedAnother(v.payments[i]) && CrossedAnother(u.payments[i])
    && Total(v.payments, Updates(key)) > Total(w.payments, Updates(key))
    && Updates(key)(v.payments[i]) == Updates(key)(w.payments[i])
    && j != i && j < |v.payments| && v.payments[j].key == key && v.payments[j].debited
    && Updates(key)(v.payments[j]) > ShareOf(w.payments, j, Updates(key))
    && var last := Run(Initial(start), actions);
    && j < |last.payments| && last.payments[j].key == key && last.payments[j].debited
  }

  /** At the turning away, the wallet had moved since the payment relied on it. */
  lemma TurnedByAMove(start: map<WalletKey, Wallet>, actions: seq<Action>, t: nat, i: nat) returns (m: nat)
    requires Solvent(start) && FaultFree(Initial(start), actions) && Calls(start, actions, t, i)
    requires !CrossedAnother(Point(start, actions, t).payments[i])
    requires i < |Point(start, actions, t + 1).payments| && CrossedAnother(Point(start, actions, t + 1).payments[i])
    ensures m < t && Calls(start, actions, m, i)
    ensures var w, v, u := Point(start, actions, m), Point(start, actions, t), Point(start, actions, t + 1);
      && var key := w.payments[i].key;
      && key in w.db.wallets && key in v.db.wallets && v.payments[i].key == key
      && w.db.wallets[key].version < v.db.wallets[key].version
      && (|| (w.payments[i].pc.Validating? && Validated(v.payments[i])
         && u.payments[i].pc == MarkingFailed(DeductionFailed))
          || (w.payments[i].pc.RefundReading? && v.payments[i].pc.RefundUpdating?
             && u.payments[i].pc == MarkingFailed(GatewayError)))
  {
    var v := Point(start, actions, t);
    PointInv(start, actions, t);
    PointNext(start, actions, t);
    assert PaymentAgrees(v.db, start, v.payments[i]);
    if Validated(v.payments[i]) {
      m := FindValidation(start, actions, t, i);
    } else {
      assert v.payments[i].pc.RefundUpdating?;
      m := FindRefundRead(start, actions, t, i);
    }
    LaterFollows(start, actions, m, t);
    assert SamePayment(Point(start, actions, m).payments[i], v.payments[i]);
  }

  /** Without database errors, a payment refused at its deduction after passing
      validation, or left unrefunded after a decline, was crossed in between by another
      payment that updated the same wallet. */
  lemma LosersHaveRivals(start: map<WalletKey, Wallet>, actions: seq<Action>, i: nat)
    requires Solvent(start) && FaultFree(Initial(start), actions)
    requires i < |Run(Initial(start), actions).payments|
    requires CrossedAnother(Run(Initial(start), actions).payments[i])
    ensures exists m: nat, t: nat, j: nat :: CrossedBy(start, actions, i, m, t, j)
  {
    assert actions[..|actions|] == actions;
    var t := FindTurn(start, actions, |actions|, i);
    var m := TurnedByAMove(start, actions, t, i);
    var j := FindRival(start, actions, m, t, i);
    LaterFollows(start, actions, t, |actions|);
    assert SamePayment(Point(start, actions, t).payments[j], Point(start, actions, |actions|).payments[j]);
    assert CrossedBy(start, actions, i, m, t, j);
  }

  lemma FindRival(start: map<WalletKey, Wallet>, actions: seq<Action>, m: nat, t: nat, i: nat) returns (j: nat)
    requires Solvent(start) && m < t <= |actions| && i < |Point(start, actions, m).payments|
    requires i < |Point(start, actions, t).payments|
    requires var w, v := Point(start, actions, m), Point(start, actions, t);
      && var key := w.payments[i].key;
      && key in w.db.wallets && key in v.db.wallets && w.db.wallets[key].version < v.db.wallets[key].version
      && ((w.payments[i].pc.Validating? && Validated(v.payments[i]))
         || (w.payments[i].pc.RefundReading? && v.payments[i].pc.RefundUpdating?))
    ensures var w, v := Point(start, actions, m), Point(start, actions, t);
      && var key := w.payments[i].key;
      && Total(v.payments, Updates(key)) > Total(w.payments, Updates(key))
      && Updates(key)(v.payments[i]) == Updates(key)(w.payments[i])
      && j != i && j < |v.payments| && v.payments[j].key == key && v.payments[j].debited
      && Updates(key)(v.payments[j]) > ShareOf(w.payments, j, Updates(key))
  {
    var w, v := Point(start, actions, m), Point(start, actions, t);
    var key := w.payments[i].key;
    PointInv(start, actions, m);
    PointInv(start, actions, t);
    LaterFollows(start, actions, m, t);
    assert SamePayment(w.payments[i], v.payments[i]);
    assert WalletAgrees(w, start, key) && WalletAgrees(v, start, key);
    assert PaymentAgrees(w.db, start, w.payments[i]) && PaymentAgrees(v.db, start, v.payments[i]);
    j := SomeGrowth(w.payments, v.payments, Updates(key));
    assert PaymentAgrees(v.db, start, v.payments[j]);
    if j < |w.payments| {
      SharesNonNegative(w, start, key);
    }
  }

  // ---------- the stored status ----------

  /** The row of a payment whose every status write has worked. */
  predicate RowFollows(db: Db, p: Payment)
  {
    match p.pc
    case Saving => p.id !in db.payments
    case Validating => StatusIs(db, p.id, {Pending})
    case DeductReading => StatusIs(db, p.id, {Pending})
    case DeductInserting(_) => StatusIs(db, p.id, {Pending})
    case DeductUpdating(_) => StatusIs(db, p.id, {Pending})
    case MarkingProcessing => StatusIs(db, p.id, {Pending})
    case MarkingFailed(_) => StatusIs(db, p.id, {Pending, Processing})
    case Done(NotSaved) => false
    case Done(Succeeded) => StatusIs(db, p.id, {Completed})
    case Done(Rejected(_)) => StatusIs(db, p.id, {Failed})
    case _ => StatusIs(db, p.id, {Processing})
  }

  predicate StatusIs(db: Db, id: nat, statuses: set<PaymentStatus>)
  {
    id in db.payments && db.payments[id] in statuses
  }

  lemma StepFollows(db: Db, p: Payment, reply: bool)
    requires RowFollows(db, p) && (reply || p.pc.AtGateway?)
    ensures RowFollows(Step(db, p, reply).0, Step(db, p, reply).1)
  {
  }

  lemma OthersRowStays(db: Db, p: Payment, reply: bool, other: Payment)
    requires RowFollows(db, other) && other.id != p.id
    ensures RowFollows(Step(db, p, reply).0, other)
  {
    OtherRowsStay(db, p, reply, other.id);
  }

  lemma {:induction false} RowsFollow(start: map<WalletKey, Wallet>, actions: seq<Action>, n: nat, i: nat)
    requires n <= |actions| && Solvent(start) && FaultFree(Initial(start), actions)
    requires i < |Point(start, actions, n).payments|
    ensures RowFollows(Point(start, actions, n).db, Point(start, actions, n).payments[i])
    decreases n
  {
    assert n > 0;
    var w, a := Point(start, actions, n - 1), actions[n - 1];
    PointInv(start, actions, n - 1);
    PointNext(start, actions, n - 1);
    if i < |w.payments| {
      RowsFollow(start, actions, n - 1, i);
      if a.Call? && a.i < |w.payments| {
        FaultFreeFrom(Initial(start), actions, n - 1);
        if a.i == i {
          StepFollows(w.db, w.payments[i], a.reply);
        } else {
          assert w.payments[a.i].id == a.i && w.payments[i].id == i;
          OthersRowStays(w.db, w.payments[a.i], a.reply, w.payments[i]);
        }
      }
    }
  }

  /** Without database errors, an ended payment was saved and its stored status is
      exactly its verdict. */
  lemma EndedRowIsVerdict(start: map<WalletKey, Wallet>, actions: seq<Action>, i: nat)
    requires Solvent(start) && FaultFree(Initial(start), actions)
    requires i < |Run(Initial(start), actions).payments| && Run(Initial(start), actions).payments[i].pc.Done?
    ensures var w := Run(Initial(start), actions);
      && !w.payments[i].pc.verdict.NotSaved?
      && i in w.db.payments
      && w.db.payments[i] == if w.payments[i].pc.verdict.Succeeded? then Completed else Failed
  {
    assert actions[..|actions|] == actions;
    PointInv(start, actions, |actions|);
    RowsFollow(start, actions, |actions|, i);
  }
}
