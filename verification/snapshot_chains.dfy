/** When clients with snapshots on keep a wallet's log a chain: exactly as long as no
    accepted save goes back to a load through a snapshot that the log has not passed. */
module SnapshotChains {
  import opened Optional
  import opened EventLog
  import opened WalletEvents
  import opened SnapshotClients
  import WalletClients

  // ---------- one load ----------

  /** Loading through a snapshot recorded at version `r`, which holds the state after
      `r - 1` events, then commanding and saving on a chained log of `n`: it keeps the
      chain exactly when r < n, breaks it exactly when r == n, and is refused exactly
      when r == n + 1; there is no other case. */
  lemma SaveThroughSnapshot(s: Store, id: string, made: WalletState, c: Command, eventID: string, at: int, now: int)
    requires Inv(s) && Chained(EventsOf(s.log, id)) && made.id == id
    requires id in s.snapshots && s.snapshots[id].version >= 1
    requires WalletClients.TakenAfter(s, id, made, s.snapshots[id].version - 1)
    requires Load(s, id, made).Some? && Allowed(Load(s, id, made).value, c)
    ensures var e := Emitted(Load(s, id, made).value, c, eventID, at);
      var r, n := s.snapshots[id].version, |EventsOf(s.log, id)|;
      var after := EventsOf(Append(s, [e], now).log, id);
      && (WalletClients.Fits(s, e) && Chained(after) <==> r < n)
      && (WalletClients.Fits(s, e) && !Chained(after) <==> r == n)
      && (!WalletClients.Fits(s, e) <==> r == n + 1)
  {
    var own, r := EventsOf(s.log, id), s.snapshots[id].version;
    var w := Load(s, id, made).value;
    assert IndexAgrees(s, id);
    LoadedThrough(s, Client(id, made.userID, made.currency, Idle));
    assert w.id == id && w.version == if r < |own| then |own| else r;
    CommandChainsIff(s, id, w, c, eventID, at, now);
    if r == |own| {
      LastEventMoves(own);
      assert w.balance == BalanceAfter(own[..r - 1]);
    }
  }

  /** A command on a wallet of version `v` fits a log of `v` events only, and then keeps
      its chain exactly when the balance is the log's. */
  lemma CommandChainsIff(s: Store, id: string, w: WalletState, c: Command, eventID: string, at: int, now: int)
    requires Inv(s) && Chained(EventsOf(s.log, id)) && w.id == id && w.version >= 0 && Allowed(w, c)
    ensures var e := Emitted(w, c, eventID, at); var own := EventsOf(s.log, id);
      && (WalletClients.Fits(s, e) <==> w.version == |own|)
      && (WalletClients.Fits(s, e) ==>
         (Chained(EventsOf(Append(s, [e], now).log, id)) <==> w.balance == BalanceAfter(own)))
  {
    var own, e := EventsOf(s.log, id), Emitted(w, c, eventID, at);
    assert IndexAgrees(s, id);
    ChainBalances(own);
    if WalletClients.Fits(s, e) {
      WalletClients.SaveExtends(s, e, now, id);
      ChainedSnoc(own, Stamp(e, s.counter + 1, VersionOf(s, id) + 1, now));
    }
  }

  lemma LastEventMoves(own: seq<EventRecord>)
    requires Chained(own) && own != []
    ensures BalanceAfter(own) != BalanceAfter(own[..|own| - 1])
  {
    ChainedFront(own);
  }

  // ---------- any run ----------

  /** The wallet has no snapshot, or one that its log has passed: what a caller can
      check before it loads. */
  predicate Passed(s: Store, id: string)
  {
    id in s.snapshots ==> s.snapshots[id].version < VersionOf(s, id)
  }

  /** The clients whose last load was through a snapshot that the log had not passed. */
  function Careless(w: World, actions: seq<Action>): set<nat>
  {
    if actions == [] then {}
    else
      var front, a := actions[..|actions| - 1], actions[|actions| - 1];
      var before, so := Run(w, front), Careless(w, front);
      if a.Reload? && a.c < |before.clients| && !before.clients[a.c].phase.Snapshotting? then
        if Passed(before.store, before.clients[a.c].walletID) then so - {a.c} else so + {a.c}
      else so
  }

  /** The save of a client is accepted. */
  predicate Accepted(w: World, a: Action)
  {
    && a.Save? && a.c < |w.clients|
    && w.clients[a.c].phase.Commanding? && WalletClients.Fits(w.store, w.clients[a.c].phase.event)
  }

  /** Some accepted save on the wallet goes back to a careless load. */
  predicate SavesCarelessly(w: World, actions: seq<Action>, id: string)
  {
    actions != [] &&
    var front, a := actions[..|actions| - 1], actions[|actions| - 1];
    || SavesCarelessly(w, front, id)
    || (Accepted(Run(w, front), a) && a.c in Careless(w, front) && Run(w, front).clients[a.c].walletID == id)
  }

  // ---------- the invariant of one wallet ----------

  /** The balance after `k` events of a history that is long enough. */
  predicate BalanceAt(own: seq<EventRecord>, k: int, balance: int)
  {
    0 <= k <= |own| && balance == BalanceAfter(own[..k])
  }

  predicate ContinuesAt(own: seq<EventRecord>, k: int, e: EventRecord)
  {
    0 <= k <= |own| && Continues(e, BalanceAfter(own[..k]))
  }

  /** What a client of the wallet holds: right for its version, or, when its load was
      careless, one event short of it. */
  predicate Holds(own: seq<EventRecord>, phase: Phase, careless: bool)
  {
    var short := if careless then 1 else 0;
    match phase
    case Idle => true
    case Loaded(w) => BalanceAt(own, w.version - short, w.balance)
    case Commanding(w, e) =>
      && w.version == e.version + 1 && e.payload.BalanceChange? && w.balance == e.payload.newBalance
      && e.version >= 1 && ContinuesAt(own, e.version - 1 - short, e)
    case Snapshotting(w) => BalanceAt(own, w.version - 1, w.balance)
  }

  predicate SnapshotHolds(s: Store, id: string)
  {
    id in s.snapshots ==> BalanceAt(EventsOf(s.log, id), s.snapshots[id].version - 1, s.snapshots[id].data.balance)
  }

  predicate ClientHolds(w: World, id: string, careless: set<nat>, c: nat)
    requires c < |w.clients|
  {
    HoldsOwn(w.clients[c])
    && (w.clients[c].walletID == id ==> Holds(EventsOf(w.store.log, id), w.clients[c].phase, c in careless))
  }

  ghost predicate ChainInv(w: World, id: string, careless: set<nat>)
  {
    && Inv(w.store) && OwnSnapshots(w.store)
    && Chained(EventsOf(w.store.log, id)) && SnapshotHolds(w.store, id)
    && forall c :: 0 <= c < |w.clients| ==> ClientHolds(w, id, careless, c)
  }

  lemma BalanceStays(own: seq<EventRecord>, more: seq<EventRecord>, k: int, balance: int)
    requires BalanceAt(own, k, balance)
    ensures BalanceAt(own + more, k, balance)
  {
    assert (own + more)[..k] == own[..k];
  }

  lemma HoldsStays(own: seq<EventRecord>, more: seq<EventRecord>, phase: Phase, careless: bool)
    requires Holds(own, phase, careless)
    ensures Holds(own + more, phase, careless)
  {
    var short := if careless then 1 else 0;
    match phase {
      case Idle =>
      case Loaded(w) => BalanceStays(own, more, w.version - short, w.balance);
      case Commanding(_, e) => assert (own + more)[..e.version - 1 - short] == own[..e.version - 1 - short];
      case Snapshotting(w) => BalanceStays(own, more, w.version - 1, w.balance);
    }
  }

  lemma ReloadWithoutSnapshot(s: Store, client: Client)
    requires Inv(s) && Chained(EventsOf(s.log, client.walletID)) && client.walletID !in s.snapshots
    ensures Load(s, client.walletID, Made(client)).Some?
    ensures Holds(EventsOf(s.log, client.walletID), Loaded(Load(s, client.walletID, Made(client)).value), false)
  {
    var own := EventsOf(s.log, client.walletID);
    assert IndexAgrees(s, client.walletID);
    LoadIsReplay(s, client.walletID, Made(client));
    ReplayChain(Made(client), own);
    assert own[..|own|] == own;
  }

  lemma TailEnds(own: seq<EventRecord>, from: nat)
    requires from < |own|
    ensures BalanceAfter(own[from..]) == BalanceAfter(own) && own[from..][|own| - from - 1] == own[|own| - 1]
  {
  }

  /** What a load through a snapshot gives: the end of the log when the log has passed
      the snapshot, and otherwise the snapshot. */
  lemma LoadedThrough(s: Store, client: Client)
    requires Inv(s) && Chained(EventsOf(s.log, client.walletID)) && client.walletID in s.snapshots
    requires s.snapshots[client.walletID].version >= 0
    ensures var own := EventsOf(s.log, client.walletID);
      var from := FromSnapshot(s.snapshots[client.walletID]);
      Load(s, client.walletID, Made(client))
      == Some(if Passed(s, client.walletID) then from.(balance := BalanceAfter(own), version := |own|) else from)
  {
    var id := client.walletID;
    var own, r := EventsOf(s.log, id), s.snapshots[id].version;
    assert IndexAgrees(s, id);
    IndexedSuffix(s, id, r + 1);
    WalletClients.ChainTail(own, Clamp(r, |own|));
    WalletClients.ReplayTail(FromSnapshot(s.snapshots[id]), own[Clamp(r, |own|)..]);
    if r < |own| {
      TailEnds(own, r);
    }
  }

  /** A load through a snapshot is right exactly when the log has passed it. */
  lemma ReloadThroughSnapshot(s: Store, client: Client)
    requires Inv(s) && Chained(EventsOf(s.log, client.walletID)) && client.walletID in s.snapshots
    requires SnapshotHolds(s, client.walletID)
    ensures Load(s, client.walletID, Made(client)).Some?
    ensures Holds(EventsOf(s.log, client.walletID), Loaded(Load(s, client.walletID, Made(client)).value),
      !Passed(s, client.walletID))
  {
    var own := EventsOf(s.log, client.walletID);
    LoadedThrough(s, client);
    assert own[..|own|] == own;
  }

  lemma IssueHolds(own: seq<EventRecord>, w: WalletState, c: Command, eventID: string, at: int, careless: bool)
    requires Chained(own) && Holds(own, Loaded(w), careless) && Allowed(w, c)
    ensures Holds(own, Commanding(Commanded(w, c), Emitted(w, c, eventID, at)), careless)
  {
    var k := w.version - (if careless then 1 else 0);
    ChainedTake(own, k);
    ChainBalances(own[..k]);
  }

  lemma ChainedTake(own: seq<EventRecord>, k: nat)
    requires Chained(own) && k <= |own|
    ensures Chained(own[..k])
  {
    forall j | 0 <= j < k
      ensures Continues(own[..k][j], BalanceAfter(own[..k][..j]))
    {
      assert own[..k][..j] == own[..j];
    }
  }

  /** A step that appends nothing. */
  lemma QuietStepHolds(s: Store, client: Client, a: Action, frequency: int, careless: bool)
    requires Inv(s) && OwnSnapshots(s) && HoldsOwn(client)
    requires Chained(EventsOf(s.log, client.walletID)) && SnapshotHolds(s, client.walletID)
    requires Holds(EventsOf(s.log, client.walletID), client.phase, careless)
    requires !(a.Save? && client.phase.Commanding? && WalletClients.Fits(s, client.phase.event))
    ensures var (s', client') := Step(s, client, a, frequency);
      var careless' := if a.Reload? && !client.phase.Snapshotting? then !Passed(s, client.walletID) else careless;
      && s'.log == s.log && SnapshotHolds(s', client.walletID)
      && Holds(EventsOf(s.log, client.walletID), client'.phase, careless')
  {
    match a {
      case Reload(_) =>
        if !client.phase.Snapshotting? {
          if client.walletID in s.snapshots {
            ReloadThroughSnapshot(s, client);
          } else {
            ReloadWithoutSnapshot(s, client);
          }
        }
      case Issue(_, c, eventID, at) =>
        if client.phase.Loaded? && Allowed(client.phase.wallet, c) {
          IssueHolds(EventsOf(s.log, client.walletID), client.phase.wallet, c, eventID, at, careless);
        }
      case Save(_, _) =>
      case TakeSnapshot(_) =>
    }
  }

  /** A stamped event at the end of a history: it keeps the chain exactly when it
      continues from the history's end, which one event short it does not. */
  lemma StampedChainsIff(own: seq<EventRecord>, e: EventRecord, w: WalletState, sequence: int, version: int, now: int,
    careless: bool)
    requires Chained(own) && Holds(own, Commanding(w, e), careless) && e.version == |own| + 1
    ensures var own' := own + [Stamp(e, sequence, version, now)];
      && (Chained(own') <==> !careless)
      && Holds(own', Snapshotting(w), careless)
  {
    var stamped := Stamp(e, sequence, version, now);
    ChainedSnoc(own, stamped);
    assert own[..|own|] == own;
    assert (own + [stamped])[..|own| + 1] == own + [stamped];
    if careless {
      LastEventMoves(own);
    }
  }

  /** An accepted save keeps its wallet's chain exactly when its load was careful. */
  lemma SaveChainsIff(s: Store, client: Client, now: int, careless: bool)
    requires Inv(s) && HoldsOwn(client) && client.phase.Commanding? && WalletClients.Fits(s, client.phase.event)
    requires Chained(EventsOf(s.log, client.walletID))
      && Holds(EventsOf(s.log, client.walletID), client.phase, careless)
    ensures var s' := Append(s, [client.phase.event], now); var own' := EventsOf(s'.log, client.walletID);
      && EventsOf(s.log, client.walletID) <= own'
      && (Chained(own') <==> !careless)
      && Holds(own', Snapshotting(client.phase.wallet), careless)
  {
    var own, e := EventsOf(s.log, client.walletID), client.phase.event;
    var version := VersionOf(s, client.walletID) + 1;
    assert IndexAgrees(s, client.walletID);
    WalletClients.SaveExtends(s, e, now, client.walletID);
    StampedChainsIff(own, e, client.phase.wallet, s.counter + 1, version, now, careless);
  }

  // ---------- steps of the world ----------

  function CarelessAfter(w: World, careless: set<nat>, a: Action): set<nat>
  {
    if a.Reload? && a.c < |w.clients| && !w.clients[a.c].phase.Snapshotting? then
      if Passed(w.store, w.clients[a.c].walletID) then careless - {a.c} else careless + {a.c}
    else careless
  }

  lemma QuietNextHolds(w: World, id: string, careless: set<nat>, a: Action)
    requires ChainInv(w, id, careless) && a.c < |w.clients| && w.clients[a.c].walletID == id && !Accepted(w, a)
    ensures ChainInv(Next(w, a), id, CarelessAfter(w, careless, a))
  {
    var client, v := w.clients[a.c], Next(w, a);
    assert ClientHolds(w, id, careless, a.c);
    StepHoldsOwn(w.store, client, a, w.frequency);
    QuietStepHolds(w.store, client, a, w.frequency, a.c in careless);
    forall c | 0 <= c < |v.clients|
      ensures ClientHolds(v, id, CarelessAfter(w, careless, a), c)
    {
      if c != a.c {
        assert ClientHolds(w, id, careless, c);
      }
    }
  }

  lemma SavedNextBreaks(w: World, id: string, careless: set<nat>, a: Action)
    requires ChainInv(w, id, careless) && Accepted(w, a) && w.clients[a.c].walletID == id && a.c in careless
    ensures !Chained(EventsOf(Next(w, a).store.log, id))
  {
    assert ClientHolds(w, id, careless, a.c);
    SaveChainsIff(w.store, w.clients[a.c], a.now, true);
  }

  /** What others hold of a wallet stays true as its history grows. */
  lemma GrownClientHolds(w: World, v: World, id: string, careless: set<nat>, c: nat)
    requires c < |w.clients| == |v.clients| && v.clients[c] == w.clients[c] && ClientHolds(w, id, careless, c)
    requires EventsOf(w.store.log, id) <= EventsOf(v.store.log, id)
    ensures ClientHolds(v, id, careless, c)
  {
    var own, own' := EventsOf(w.store.log, id), EventsOf(v.store.log, id);
    assert own' == own + own'[|own|..];
    if w.clients[c].walletID == id {
      HoldsStays(own, own'[|own|..], w.clients[c].phase, c in careless);
    }
  }

  lemma GrownSnapshotHolds(s: Store, s': Store, id: string)
    requires SnapshotHolds(s, id) && s'.snapshots == s.snapshots && EventsOf(s.log, id) <= EventsOf(s'.log, id)
    ensures SnapshotHolds(s', id)
  {
    var own, own' := EventsOf(s.log, id), EventsOf(s'.log, id);
    assert own' == own + own'[|own|..];
    if id in s.snapshots {
      BalanceStays(own, own'[|own|..], s.snapshots[id].version - 1, s.snapshots[id].data.balance);
    }
  }

  lemma SavedNextHolds(w: World, id: string, careless: set<nat>, a: Action)
    requires ChainInv(w, id, careless) && Accepted(w, a) && w.clients[a.c].walletID == id && a.c !in careless
    ensures ChainInv(Next(w, a), id, CarelessAfter(w, careless, a))
  {
    var client, v := w.clients[a.c], Next(w, a);
    assert ClientHolds(w, id, careless, a.c);
    StepHoldsOwn(w.store, client, a, w.frequency);
    SaveChainsIff(w.store, client, a.now, false);
    GrownSnapshotHolds(w.store, v.store, id);
    forall c | 0 <= c < |v.clients|
      ensures ClientHolds(v, id, careless, c)
    {
      assert ClientHolds(w, id, careless, c);
      if c != a.c {
        GrownClientHolds(w, v, id, careless, c);
      }
    }
  }

  lemma OtherNextHolds(w: World, id: string, careless: set<nat>, a: Action)
    requires ChainInv(w, id, careless) && a.c < |w.clients| && w.clients[a.c].walletID != id
    ensures ChainInv(Next(w, a), id, CarelessAfter(w, careless, a))
  {
    var client, v := w.clients[a.c], Next(w, a);
    assert ClientHolds(w, id, careless, a.c);
    StepHoldsOwn(w.store, client, a, w.frequency);
    OthersLeave(w.store, client, a, w.frequency, id);
    assert SnapshotOf(v.store, id) == SnapshotOf(w.store, id);
    forall c | 0 <= c < |v.clients|
      ensures ClientHolds(v, id, CarelessAfter(w, careless, a), c)
    {
      assert ClientHolds(w, id, careless, c);
    }
  }

  // ---------- a broken chain stays broken ----------

  /** The store is sound and every client acts on its own wallet, whatever the chains. */
  ghost predicate Tidy(w: World)
  {
    Inv(w.store) && OwnSnapshots(w.store) && forall c :: 0 <= c < |w.clients| ==> HoldsOwn(w.clients[c])
  }

  lemma NextExtends(w: World, a: Action, id: string)
    requires Tidy(w)
    ensures Tidy(Next(w, a)) && EventsOf(w.store.log, id) <= EventsOf(Next(w, a).store.log, id)
  {
    if a.c < |w.clients| {
      var client := w.clients[a.c];
      StepHoldsOwn(w.store, client, a, w.frequency);
      if Accepted(w, a) {
        AppendExtends(w.store, [client.phase.event], a.now, id);
      }
    }
  }

  lemma {:induction false} RunIsTidy(w: World, actions: seq<Action>)
    requires Beginning(w)
    ensures Tidy(Run(w, actions))
  {
    if actions == [] {
      EmptyInv();
    } else {
      RunIsTidy(w, actions[..|actions| - 1]);
      NextExtends(Run(w, actions[..|actions| - 1]), actions[|actions| - 1], "");
    }
  }

  lemma ChainsArePrefixes(own: seq<EventRecord>, longer: seq<EventRecord>)
    requires own <= longer
    ensures Chained(longer) ==> Chained(own)
  {
    if Chained(longer) {
      ChainedTake(longer, |own|);
      assert longer[..|own|] == own;
    }
  }

  // ---------- main results ----------

  lemma {:induction false} RunKeepsChain(w: World, actions: seq<Action>, id: string)
    requires Beginning(w)
    ensures !SavesCarelessly(w, actions, id) ==> ChainInv(Run(w, actions), id, Careless(w, actions))
    ensures SavesCarelessly(w, actions, id) ==> !Chained(EventsOf(Run(w, actions).store.log, id))
  {
    if actions == [] {
      EmptyInv();
    } else {
      var front, a := actions[..|actions| - 1], actions[|actions| - 1];
      RunKeepsChain(w, front, id);
      NextKeepsChain(w, front, a, id);
      assert actions == front + [a];
    }
  }

  lemma NextKeepsChain(w: World, front: seq<Action>, a: Action, id: string)
    requires Beginning(w)
    requires !SavesCarelessly(w, front, id) ==> ChainInv(Run(w, front), id, Careless(w, front))
    requires SavesCarelessly(w, front, id) ==> !Chained(EventsOf(Run(w, front).store.log, id))
    ensures !SavesCarelessly(w, front + [a], id) ==> ChainInv(Run(w, front + [a]), id, Careless(w, front + [a]))
    ensures SavesCarelessly(w, front + [a], id) ==> !Chained(EventsOf(Run(w, front + [a]).store.log, id))
  {
    assert (front + [a])[..|front + [a]| - 1] == front;
    var before := Run(w, front);
    assert Careless(w, front + [a]) == CarelessAfter(before, Careless(w, front), a);
    RunIsTidy(w, front);
    NextExtends(before, a, id);
    if SavesCarelessly(w, front, id) {
      ChainsArePrefixes(EventsOf(before.store.log, id), EventsOf(Next(before, a).store.log, id));
    } else if a.c < |before.clients| {
      if before.clients[a.c].walletID != id {
        OtherNextHolds(before, id, Careless(w, front), a);
      } else if Accepted(before, a) && a.c in Careless(w, front) {
        SavedNextBreaks(before, id, Careless(w, front), a);
      } else if Accepted(before, a) {
        SavedNextHolds(before, id, Careless(w, front), a);
      } else {
        QuietNextHolds(before, id, Careless(w, front), a);
      }
    }
  }

  /** With snapshots at any frequency, any number of clients, each loading before its
      command, and any interleaving: a wallet's log is a chain if and only if no
      accepted save on it goes back to a load that found a snapshot recorded at the
      log's version or beyond. */
  lemma ChainedIff(w: World, actions: seq<Action>, id: string)
    requires Beginning(w)
    ensures Chained(EventsOf(Run(w, actions).store.log, id)) <==> !SavesCarelessly(w, actions, id)
  {
    RunKeepsChain(w, actions, id);
  }

  /** Every load finds no snapshot, or one that the log has passed. */
  predicate CarefulLoads(w: World, actions: seq<Action>)
  {
    actions != [] ==>
      var front, a := actions[..|actions| - 1], actions[|actions| - 1];
      && CarefulLoads(w, front)
      && (a.Reload? && a.c < |Run(w, front).clients| && !Run(w, front).clients[a.c].phase.Snapshotting? ==>
            Passed(Run(w, front).store, Run(w, front).clients[a.c].walletID))
  }

  lemma {:induction false} CarefulLoadsAreNotCareless(w: World, actions: seq<Action>, id: string)
    requires CarefulLoads(w, actions)
    ensures Careless(w, actions) == {} && !SavesCarelessly(w, actions, id)
  {
    if actions != [] {
      CarefulLoadsAreNotCareless(w, actions[..|actions| - 1], id);
    }
  }

  /** Clients that check before each load that the wallet has no snapshot, or one that
      its log has passed, lose no update: every wallet's log is a chain, and its balance
      is the sum added less the sum deducted and never negative. */
  lemma CarefulClientsLoseNothing(w: World, actions: seq<Action>, id: string)
    requires Beginning(w) && CarefulLoads(w, actions)
    ensures var own := EventsOf(Run(w, actions).store.log, id);
      Chained(own) && WalletEvents.BalanceAfter(own) == Added(own) - Deducted(own) >= 0
  {
    CarefulLoadsAreNotCareless(w, actions, id);
    ChainedIff(w, actions, id);
    ChainBalances(EventsOf(Run(w, actions).store.log, id));
  }

  // ---------- one client a wallet ----------

  lemma SnapshotsStay(w: World, a: Action, id: string)
    requires id in w.store.snapshots
    ensures id in Next(w, a).store.snapshots
  {
  }

  /** A careless client's wallet has a snapshot. */
  lemma {:induction false} CarelessHasSnapshot(w: World, actions: seq<Action>, c: nat)
    requires c in Careless(w, actions)
    ensures c < |Run(w, actions).clients| && Run(w, actions).clients[c].walletID in Run(w, actions).store.snapshots
  {
    if actions != [] {
      var front, a := actions[..|actions| - 1], actions[|actions| - 1];
      if c in Careless(w, front) {
        CarelessHasSnapshot(w, front, c);
        SnapshotsStay(Run(w, front), a, Run(w, front).clients[c].walletID);
      }
    }
  }

  lemma {:induction false} OneClientSavesCarefully(w: World, actions: seq<Action>, id: string)
    requires Beginning(w) && w.frequency >= 1 && OneClientAWallet(w.clients)
    ensures !SavesCarelessly(w, actions, id)
  {
    if actions != [] {
      var front, a := actions[..|actions| - 1], actions[|actions| - 1];
      OneClientSavesCarefully(w, front, id);
      RunKeepsTurns(w, front);
      var before := Run(w, front);
      if a.c in Careless(w, front) && a.c < |before.clients| {
        CarelessHasSnapshot(w, front, a.c);
        assert InTurn(before.store, before.clients[a.c], before.frequency);
        assert IndexAgrees(before.store, before.clients[a.c].walletID);
      }
    }
  }

  /** With snapshots every `frequency` versions, a wallet used by one client alone, who
      loads before each command, keeps a chained log, but never gets past
      `frequency - 1` events (one, if the frequency is one): its first snapshot blocks it. */
  lemma OneClientIsCapped(w: World, actions: seq<Action>, c: nat)
    requires Beginning(w) && w.frequency >= 1 && OneClientAWallet(w.clients) && c < |w.clients|
    ensures var own := EventsOf(Run(w, actions).store.log, w.clients[c].walletID);
      Chained(own) && |own| <= Cap(w.frequency)
  {
    RunKeepsTurns(w, actions);
    OneClientSavesCarefully(w, actions, w.clients[c].walletID);
    ChainedIff(w, actions, w.clients[c].walletID);
    var v := Run(w, actions);
    assert InTurn(v.store, v.clients[c], v.frequency);
    assert IndexAgrees(v.store, w.clients[c].walletID);
  }
}
