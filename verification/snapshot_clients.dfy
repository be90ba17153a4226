/** The clients of WalletClients with snapshots on: a save appends its event and then,
    as a step of its own, takes a snapshot if one is due. */
module SnapshotClients {
  import opened Optional
  import opened EventLog
  import opened WalletEvents
  import WalletClients

  /** Commanding and Snapshotting hold the wallet as its command left it. */
  datatype Phase =
    | Idle
    | Loaded(wallet: WalletState)
    | Commanding(wallet: WalletState, event: EventRecord)
    | Snapshotting(wallet: WalletState)

  datatype Client = Client(walletID: string, userID: string, currency: string, phase: Phase)

  datatype World = World(store: Store, clients: seq<Client>, frequency: int)

  datatype Action =
    | Reload(c: nat)
    | Issue(c: nat, command: Command, eventID: string, at: int)
    | Save(c: nat, now: int)
    | TakeSnapshot(c: nat)

  function Made(client: Client): WalletState
  {
    NewWallet(client.walletID, client.userID, client.currency)
  }

  /** A client whose save is not finished takes its snapshot before anything else. */
  function Step(s: Store, client: Client, a: Action, frequency: int): (Store, Client)
  {
    match a
    case Reload(_) =>
      if client.phase.Snapshotting? then (s, client)
      else
        var loaded := Load(s, client.walletID, Made(client));
        (s, client.(phase := if loaded.Some? then Loaded(loaded.value) else Idle))
    case Issue(_, command, eventID, at) =>
      if client.phase.Loaded? && Allowed(client.phase.wallet, command)
      then (s, client.(phase := Commanding(Commanded(client.phase.wallet, command),
        Emitted(client.phase.wallet, command, eventID, at))))
      else (s, client)
    case Save(_, now) =>
      if client.phase.Commanding? && WalletClients.Fits(s, client.phase.event)
      then (Append(s, [client.phase.event], now), client.(phase := Snapshotting(client.phase.wallet)))
      else (s, client)
    case TakeSnapshot(_) =>
      if client.phase.Snapshotting?
      then (WithSnapshot(s, client.phase.wallet, frequency), client.(phase := Idle))
      else (s, client)
  }

  function Next(w: World, a: Action): World
  {
    if a.c < |w.clients| then
      var (s, client) := Step(w.store, w.clients[a.c], a, w.frequency);
      World(s, w.clients[a.c := client], w.frequency)
    else w
  }

  function Run(w: World, actions: seq<Action>): World
  {
    if actions == [] then w else Next(Run(w, actions[..|actions| - 1]), actions[|actions| - 1])
  }

  // ---------- what a client holds ----------

  /** A snapshot is of the wallet it is kept for. */
  predicate OwnSnapshots(s: Store)
  {
    forall a :: a in s.snapshots ==> s.snapshots[a].data.id == a
  }

  predicate HoldsOwn(client: Client)
  {
    match client.phase
    case Idle => true
    case Loaded(w) => w.id == client.walletID
    case Commanding(w, e) => w.id == client.walletID && e.aggregateID == client.walletID
    case Snapshotting(w) => w.id == client.walletID
  }

  /** Replay keeps the wallet's id and ends at the last event's version. */
  lemma {:induction false} ReplayEnds(w: WalletState, events: seq<EventRecord>)
    requires Replay(w, events).Some?
    ensures Replay(w, events).value.id == w.id
    ensures Replay(w, events).value.version == if events == [] then w.version else events[|events| - 1].version
    decreases |events|
  {
    if events != [] {
      ReplayEnds(Apply(w, events[0]).value.(version := events[0].version), events[1..]);
    }
  }

  lemma LoadIsOwn(s: Store, client: Client)
    requires OwnSnapshots(s) && Load(s, client.walletID, Made(client)).Some?
    ensures Load(s, client.walletID, Made(client)).value.id == client.walletID
  {
    var snapshot := SnapshotOf(s, client.walletID);
    if snapshot.Some? {
      ReplayEnds(FromSnapshot(snapshot.value), IndexedQuery(s, client.walletID, snapshot.value.version + 1));
    } else {
      ReplayEnds(Made(client), IndexedQuery(s, client.walletID, 0));
    }
  }

  lemma StepHoldsOwn(s: Store, client: Client, a: Action, frequency: int)
    requires Inv(s) && OwnSnapshots(s) && HoldsOwn(client)
    ensures var (s', client') := Step(s, client, a, frequency);
      && Inv(s') && OwnSnapshots(s') && HoldsOwn(client')
      && client'.walletID == client.walletID
  {
    match a {
      case Reload(_) =>
        if !client.phase.Snapshotting? && Load(s, client.walletID, Made(client)).Some? {
          LoadIsOwn(s, client);
        }
      case Issue(_, _, _, _) =>
      case Save(_, now) =>
        if client.phase.Commanding? {
          AppendKeepsInv(s, [client.phase.event], now);
        }
      case TakeSnapshot(_) =>
        if client.phase.Snapshotting? {
          SnapshotsAreApart(s, WithSnapshot(s, client.phase.wallet, frequency).snapshots);
        }
    }
  }

  /** A step of a client of another wallet leaves a wallet's events and snapshot. */
  lemma OthersLeave(s: Store, client: Client, a: Action, frequency: int, id: string)
    requires Inv(s) && HoldsOwn(client) && client.walletID != id
    ensures var s' := Step(s, client, a, frequency).0;
      EventsOf(s'.log, id) == EventsOf(s.log, id) && VersionOf(s', id) == VersionOf(s, id)
        && SnapshotOf(s', id) == SnapshotOf(s, id)
  {
    if a.Save? && client.phase.Commanding? {
      AppendExtends(s, [client.phase.event], a.now, id);
      assert EventsOf(s.log, id) + [] == EventsOf(s.log, id);
    }
  }

  // ---------- a wallet blocked by its snapshot ----------

  /** The wallet's snapshot is recorded one version past its log. */
  predicate Blocked(s: Store, id: string)
  {
    id in s.snapshots && s.snapshots[id].version == VersionOf(s, id) + 1
  }

  /** A client of a blocked wallet holds what it loaded through that snapshot. */
  predicate Misled(client: Client, version: int)
  {
    match client.phase
    case Idle => true
    case Loaded(w) => w.version == version + 1
    case Commanding(_, e) => e.version == version + 2
    case Snapshotting(_) => false
  }

  lemma LoadMisleads(s: Store, client: Client)
    requires Inv(s) && Blocked(s, client.walletID)
    ensures Load(s, client.walletID, Made(client)) == Some(FromSnapshot(s.snapshots[client.walletID]))
  {
    var id := client.walletID;
    assert IndexAgrees(s, id);
    IndexedSuffix(s, id, VersionOf(s, id) + 2);
    assert IndexedQuery(s, id, VersionOf(s, id) + 2) == [];
  }

  /** No step of its own clients gets a blocked wallet any further. */
  lemma StepStaysBlocked(s: Store, client: Client, a: Action, frequency: int)
    requires Inv(s) && HoldsOwn(client) && Blocked(s, client.walletID) && Misled(client, VersionOf(s, client.walletID))
    ensures Step(s, client, a, frequency).0 == s
    ensures Misled(Step(s, client, a, frequency).1, VersionOf(s, client.walletID))
  {
    assert IndexAgrees(s, client.walletID);
    if a.Reload? {
      LoadMisleads(s, client);
    }
  }

  /** The wallet is blocked with these events, and its clients hold nothing else. */
  ghost predicate Stuck(w: World, id: string, own: seq<EventRecord>)
  {
    && Inv(w.store) && OwnSnapshots(w.store) && Blocked(w.store, id) && EventsOf(w.store.log, id) == own
    && forall c :: 0 <= c < |w.clients| ==>
         HoldsOwn(w.clients[c]) && (w.clients[c].walletID == id ==> Misled(w.clients[c], VersionOf(w.store, id)))
  }

  lemma NextStaysStuck(w: World, a: Action, id: string, own: seq<EventRecord>)
    requires Stuck(w, id, own)
    ensures Stuck(Next(w, a), id, own)
  {
    if a.c < |w.clients| {
      var client := w.clients[a.c];
      StepHoldsOwn(w.store, client, a, w.frequency);
      if client.walletID == id {
        StepStaysBlocked(w.store, client, a, w.frequency);
      } else {
        OthersLeave(w.store, client, a, w.frequency, id);
        assert SnapshotOf(Next(w, a).store, id) == SnapshotOf(w.store, id);
      }
    }
  }

  /** Once a wallet is blocked and no client still holds what it loaded before, no
      event of it is ever stored again, whatever its clients and all others do. */
  lemma {:induction false} SnapshotBlocksForever(w: World, actions: seq<Action>, id: string)
    requires Inv(w.store) && OwnSnapshots(w.store) && Blocked(w.store, id)
    requires forall c :: 0 <= c < |w.clients| ==>
      HoldsOwn(w.clients[c]) && (w.clients[c].walletID == id ==> w.clients[c].phase.Idle?)
    ensures EventsOf(Run(w, actions).store.log, id) == EventsOf(w.store.log, id)
    ensures Stuck(Run(w, actions), id, EventsOf(w.store.log, id))
  {
    if actions != [] {
      SnapshotBlocksForever(w, actions[..|actions| - 1], id);
      NextStaysStuck(Run(w, actions[..|actions| - 1]), actions[|actions| - 1], id, EventsOf(w.store.log, id));
    }
  }

  // ---------- a wallet with one client ----------

  /** How many events a wallet has when its first snapshot is due. */
  function Cap(frequency: int): int
  {
    if frequency == 1 then 1 else frequency - 1
  }

  lemma DueAtTheCap(n: nat, frequency: int)
    requires frequency >= 1 && 1 <= n <= Cap(frequency)
    ensures SnapshotDue(n + 1, frequency) <==> n == Cap(frequency)
  {
  }

  /** The only client of a wallet, before its first snapshot and after. */
  predicate InTurn(s: Store, client: Client, frequency: int)
  {
    var n := VersionOf(s, client.walletID);
    if client.walletID in s.snapshots then
      n == Cap(frequency) && Blocked(s, client.walletID) && Misled(client, n)
    else
      match client.phase
      case Idle => n < Cap(frequency)
      case Loaded(w) => n < Cap(frequency) && w.version == n
      case Commanding(w, e) => n < Cap(frequency) && w.version == n + 2
      case Snapshotting(w) => 1 <= n <= Cap(frequency) && w.version == n + 1
  }

  lemma LoadInTurn(s: Store, client: Client)
    requires Inv(s) && client.walletID !in s.snapshots && Load(s, client.walletID, Made(client)).Some?
    ensures Load(s, client.walletID, Made(client)).value.version == VersionOf(s, client.walletID)
  {
    var own := EventsOf(s.log, client.walletID);
    assert IndexAgrees(s, client.walletID);
    IndexedSuffix(s, client.walletID, 0);
    assert own[0..] == own;
    ReplayEnds(Made(client), own);
  }

  lemma StepInTurn(s: Store, client: Client, a: Action, frequency: int)
    requires frequency >= 1 && Inv(s) && HoldsOwn(client) && InTurn(s, client, frequency)
    ensures var (s', client') := Step(s, client, a, frequency);
      && client'.walletID == client.walletID
      && InTurn(s', client', frequency)
  {
    var id := client.walletID;
    assert IndexAgrees(s, id);
    if id in s.snapshots {
      StepStaysBlocked(s, client, a, frequency);
    } else if a.Reload? && Load(s, id, Made(client)).Some? {
      LoadInTurn(s, client);
    } else if a.TakeSnapshot? && client.phase.Snapshotting? {
      DueAtTheCap(VersionOf(s, id), frequency);
    }
  }

  predicate OneClientAWallet(clients: seq<Client>)
  {
    forall c, d :: 0 <= c < d < |clients| ==> clients[c].walletID != clients[d].walletID
  }

  ghost predicate TurnsInv(w: World)
  {
    && Inv(w.store) && OwnSnapshots(w.store) && OneClientAWallet(w.clients)
    && (forall c :: 0 <= c < |w.clients| ==> HoldsOwn(w.clients[c]) && InTurn(w.store, w.clients[c], w.frequency))
  }

  lemma OtherStaysInTurn(s: Store, client: Client, a: Action, frequency: int, other: Client)
    requires Inv(s) && HoldsOwn(client) && client.walletID != other.walletID && InTurn(s, other, frequency)
    ensures InTurn(Step(s, client, a, frequency).0, other, frequency)
  {
    OthersLeave(s, client, a, frequency, other.walletID);
    assert SnapshotOf(Step(s, client, a, frequency).0, other.walletID) == SnapshotOf(s, other.walletID);
  }

  lemma NextKeepsTurns(w: World, a: Action)
    requires w.frequency >= 1 && TurnsInv(w)
    ensures TurnsInv(Next(w, a))
  {
    if a.c < |w.clients| {
      var client, v := w.clients[a.c], Next(w, a);
      StepHoldsOwn(w.store, client, a, w.frequency);
      StepInTurn(w.store, client, a, w.frequency);
      forall d | 0 <= d < |v.clients|
        ensures HoldsOwn(v.clients[d]) && InTurn(v.store, v.clients[d], v.frequency)
      {
        if d != a.c {
          OtherStaysInTurn(w.store, client, a, w.frequency, w.clients[d]);
        }
      }
    }
  }

  predicate Beginning(w: World)
  {
    w.store == EmptyStore() && forall c :: 0 <= c < |w.clients| ==> w.clients[c].phase.Idle?
  }

  lemma {:induction false} RunKeepsTurns(w: World, actions: seq<Action>)
    requires Beginning(w) && w.frequency >= 1 && OneClientAWallet(w.clients)
    ensures TurnsInv(Run(w, actions)) && Run(w, actions).frequency == w.frequency
      && |Run(w, actions).clients| == |w.clients|
    ensures forall c :: 0 <= c < |w.clients| ==> Run(w, actions).clients[c].walletID == w.clients[c].walletID
  {
    if actions == [] {
      EmptyInv();
      assert Cap(w.frequency) >= 1;
    } else {
      var front := Run(w, actions[..|actions| - 1]);
      RunKeepsTurns(w, actions[..|actions| - 1]);
      NextKeepsTurns(front, actions[|actions| - 1]);
    }
  }

  // ---------- a client that loads between the append and the snapshot ----------

  /** An event that fits a blocked wallet, which only a client that loaded before the
      snapshot can hold, leaves the snapshot one event short of its recorded version. */
  lemma StaleSaveHidesItself(s: Store, id: string, made: WalletState, e: EventRecord, now: int)
    requires Inv(s) && Chained(EventsOf(s.log, id)) && e.aggregateID == id
    requires WalletClients.TakenAfter(s, id, made, |EventsOf(s.log, id)|)
      && s.snapshots[id].version == VersionOf(s, id) + 1
    requires WalletClients.Fits(s, e) && Continues(e, BalanceAfter(EventsOf(s.log, id)))
    ensures var s' := Append(s, [e], now); var own' := EventsOf(s'.log, id);
      && Inv(s') && Chained(own') && |own'| == |EventsOf(s.log, id)| + 1 && own'[..|own'| - 1] == EventsOf(s.log, id)
      && WalletClients.TakenAfter(s', id, made, |own'| - 1)
      && s'.snapshots[id].version == VersionOf(s', id)
  {
    SaveGrows(s, id, e, now);
    TakenStays(s, Append(s, [e], now), id, made, |EventsOf(s.log, id)|);
  }

  lemma TakenStays(s: Store, s': Store, id: string, made: WalletState, k: nat)
    requires WalletClients.TakenAfter(s, id, made, k) && k == |EventsOf(s.log, id)| && s'.snapshots == s.snapshots
    requires k < |EventsOf(s'.log, id)| && EventsOf(s'.log, id)[..k] == EventsOf(s.log, id)
    ensures WalletClients.TakenAfter(s', id, made, k)
  {
    assert EventsOf(s.log, id)[..k] == EventsOf(s.log, id);
  }

  lemma SaveGrows(s: Store, id: string, e: EventRecord, now: int)
    requires Inv(s) && Chained(EventsOf(s.log, id)) && e.aggregateID == id
    requires WalletClients.Fits(s, e) && Continues(e, BalanceAfter(EventsOf(s.log, id)))
    ensures var s' := Append(s, [e], now); var own' := EventsOf(s'.log, id);
      && Inv(s') && Chained(own') && |own'| == |EventsOf(s.log, id)| + 1 && own'[..|own'| - 1] == EventsOf(s.log, id)
      && VersionOf(s', id) == VersionOf(s, id) + 1 && s'.snapshots == s.snapshots
  {
    var own := EventsOf(s.log, id);
    var stamped := Stamp(e, s.counter + 1, VersionOf(s, id) + 1, now);
    WalletClients.SaveExtends(s, e, now, id);
    ChainedSnoc(own, stamped);
    assert (own + [stamped])[..|own|] == own;
  }

  /** A wallet's client `a` has appended event n and is about to take the snapshot that
      is due; client `b` of the same wallet holds nothing. */
  ghost predicate Racing(w: World, a: nat, b: nat)
  {
    && a < |w.clients| && b < |w.clients| && a != b
    && var id := w.clients[a].walletID; var own := EventsOf(w.store.log, id);
    && w.clients[b] == w.clients[a].(phase := Idle)
    && Inv(w.store) && Chained(own) && own != [] && w.store.snapshots == map[]
    && w.clients[a].phase == Snapshotting(Made(w.clients[a]).(balance := BalanceAfter(own), version := |own| + 1))
    && SnapshotDue(|own| + 1, w.frequency)
  }

  function LoadedAt(client: Client, own: seq<EventRecord>, version: int): WalletState
  {
    Made(client).(balance := BalanceAfter(own), version := version)
  }

  /** The race's load is of the whole log. */
  lemma RaceLoads(s: Store, client: Client)
    requires Inv(s) && Chained(EventsOf(s.log, client.walletID)) && s.snapshots == map[]
    ensures var own := EventsOf(s.log, client.walletID);
      Load(s, client.walletID, Made(client)) == Some(LoadedAt(client, own, |own|))
  {
    assert IndexAgrees(s, client.walletID);
    WalletClients.ReloadAgrees(s,
      WalletClients.Client(client.walletID, client.userID, client.currency, WalletClients.Idle));
  }

  /** The snapshot that comes after it: the state after the log, recorded one version on. */
  lemma RaceSnapshots(s: Store, client: Client, frequency: int)
    requires Inv(s) && client.phase.Snapshotting?
    requires var own := EventsOf(s.log, client.walletID);
      client.phase.wallet == LoadedAt(client, own, |own| + 1) && SnapshotDue(|own| + 1, frequency)
    ensures var s' := WithSnapshot(s, client.phase.wallet, frequency);
      Inv(s') && s'.log == s.log && TakenAtTheEnd(s', Made(client))
  {
    var id := client.walletID;
    var own := EventsOf(s.log, id);
    assert IndexAgrees(s, id);
    SnapshotsAreApart(s, WithSnapshot(s, client.phase.wallet, frequency).snapshots);
    assert own[..|own|] == own;
  }

  /** The wallet's snapshot holds the state after its log, recorded one version on. */
  predicate TakenAtTheEnd(s: Store, made: WalletState)
  {
    WalletClients.TakenAfter(s, made.id, made, |EventsOf(s.log, made.id)|) && Blocked(s, made.id)
  }

  /** A loaded client commands and saves. */
  lemma CommandAndSave(w: World, b: nat, c: Command, now: int)
    requires b < |w.clients| && w.clients[b].phase.Loaded? && Allowed(w.clients[b].phase.wallet, c)
    requires WalletClients.Fits(w.store, Emitted(w.clients[b].phase.wallet, c, "", now))
    ensures var v := Next(Next(w, Issue(b, c, "", now)), Save(b, now));
      && v.store == Append(w.store, [Emitted(w.clients[b].phase.wallet, c, "", now)], now)
      && |v.clients| == |w.clients| && (forall k :: 0 <= k < |w.clients| && k != b ==> v.clients[k] == w.clients[k])
      && v.clients[b] == w.clients[b].(phase := Snapshotting(Commanded(w.clients[b].phase.wallet, c)))
      && v.frequency == w.frequency
  {
    var w1 := Next(w, Issue(b, c, "", now));
    assert w1.store == w.store && w1.clients[b].phase.event == Emitted(w.clients[b].phase.wallet, c, "", now);
  }

  /** The race: `b` loads between `a`'s append and its snapshot, and saves after it.
      Its event is stored; the next load, through the snapshot, does not see it, and
      the next save breaks the chain. */
  lemma RaceBreaksTheChain(w: World, a: nat, b: nat, c: Command, d: Command, now: int)
    requires Racing(w, a, b)
    requires var w0 := LoadedAt(w.clients[a], EventsOf(w.store.log, w.clients[a].walletID), 0);
      && Allowed(w0, c) && Allowed(w0, d)
    ensures var race := [Reload(b), TakeSnapshot(a), Issue(b, c, "", now), Save(b, now), Reload(a),
      Issue(a, d, "", now), Save(a, now)];
      !Chained(EventsOf(Run(w, race).store.log, w.clients[a].walletID))
  {
    var client := w.clients[a];
    var own := EventsOf(w.store.log, client.walletID);
    var w2 := Next(Next(w, Reload(b)), TakeSnapshot(a));
    RaceLoads(w.store, client);
    RaceSnapshots(w.store, client, w.frequency);
    assert w2.clients[b].phase == Loaded(LoadedAt(client, own, |own|)) && w2.clients[a] == client.(phase := Idle);
    assert w2.store == WithSnapshot(w.store, client.phase.wallet, w.frequency);
    StaleSave(w2, a, b, Made(client), own, c, now);
    LastSaveBreaks(Next(Next(w2, Issue(b, c, "", now)), Save(b, now)), a, Made(client), d, now);
    RunsTheRace(w, a, b, c, d, now);
  }

  lemma StaleSave(w: World, a: nat, b: nat, made: WalletState, own: seq<EventRecord>, c: Command, now: int)
    requires a < |w.clients| && b < |w.clients| && a != b && w.clients[a].phase.Idle? && made == Made(w.clients[a])
    requires Inv(w.store) && own == EventsOf(w.store.log, made.id) && Chained(own)
    requires WalletClients.TakenAfter(w.store, made.id, made, |own|)
      && w.store.snapshots[made.id].version == VersionOf(w.store, made.id) + 1
    requires w.clients[b].phase == Loaded(made.(balance := BalanceAfter(own), version := |own|))
      && Allowed(w.clients[b].phase.wallet, c)
    ensures var v := Next(Next(w, Issue(b, c, "", now)), Save(b, now));
      var own' := EventsOf(v.store.log, made.id);
      && a < |v.clients| && v.clients[a] == w.clients[a]
      && Inv(v.store) && Chained(own') && OneEventShort(v.store, made) && own'[..|own'| - 1] == own
  {
    var e := Emitted(w.clients[b].phase.wallet, c, "", now);
    assert IndexAgrees(w.store, made.id);
    ChainBalances(own);
    CommandAndSave(w, b, c, now);
    StaleSaveHidesItself(w.store, made.id, made, e, now);
  }

  predicate OneEventShort(s: Store, made: WalletState)
  {
    var own := EventsOf(s.log, made.id);
    && own != [] && WalletClients.TakenAfter(s, made.id, made, |own| - 1)
    && s.snapshots[made.id].version == VersionOf(s, made.id)
  }

  /** Through a snapshot one event short, the next command is allowed by the balance
      before that event, fits, and breaks the chain. */
  lemma ShortSnapshotBreaks(s: Store, made: WalletState, d: Command, now: int)
    requires Inv(s) && Chained(EventsOf(s.log, made.id)) && made == NewWallet(made.id, made.userID, made.currency)
    requires OneEventShort(s, made)
    requires var own := EventsOf(s.log, made.id); Allowed(made.(balance := BalanceAfter(own[..|own| - 1])), d)
    ensures Load(s, made.id, made).Some? && Allowed(Load(s, made.id, made).value, d)
    ensures var e := Emitted(Load(s, made.id, made).value, d, "", now);
      WalletClients.Fits(s, e) && !Chained(EventsOf(Append(s, [e], now).log, made.id))
  {
    var own := EventsOf(s.log, made.id);
    assert IndexAgrees(s, made.id);
    WalletClients.LoadThroughSnapshot(s, made.id, made, |own| - 1);
    WalletClients.SnapshotLosesUpdates(s, made.id, made, d, "", now);
  }

  lemma ReloadOne(w: World, a: nat)
    requires a < |w.clients| && !w.clients[a].phase.Snapshotting?
    ensures var client := w.clients[a]; var v := Next(w, Reload(a));
      && v.store == w.store && |v.clients| == |w.clients| && v.frequency == w.frequency
      && (forall k :: 0 <= k < |w.clients| && k != a ==> v.clients[k] == w.clients[k])
      && (Load(w.store, client.walletID, Made(client)).Some? ==>
            v.clients[a] == client.(phase := Loaded(Load(w.store, client.walletID, Made(client)).value)))
  {
  }

  /** From there: load, command, save. */
  lemma LastSaveBreaks(w: World, a: nat, made: WalletState, d: Command, now: int)
    requires a < |w.clients| && w.clients[a].phase.Idle? && made == Made(w.clients[a])
    requires Inv(w.store) && Chained(EventsOf(w.store.log, made.id)) && OneEventShort(w.store, made)
    requires var own := EventsOf(w.store.log, made.id); Allowed(made.(balance := BalanceAfter(own[..|own| - 1])), d)
    ensures var v := Next(Next(Next(w, Reload(a)), Issue(a, d, "", now)), Save(a, now));
      !Chained(EventsOf(v.store.log, made.id))
  {
    ShortSnapshotBreaks(w.store, made, d, now);
    ReloadOne(w, a);
    CommandAndSave(Next(w, Reload(a)), a, d, now);
  }

  /** Such a race is reached from an empty store: at frequency 2, by one command. */
  lemma RaceIsReached(w: World, a: nat, b: nat, amount: int, now: int)
    requires Beginning(w) && w.frequency == 2 && a < |w.clients| && b < |w.clients| && a != b && amount > 0
    requires w.clients[a] == w.clients[b]
    ensures Racing(Run(w, [Reload(a), Issue(a, AddBalance(amount), "", now), Save(a, now)]), a, b)
  {
    var made, c := Made(w.clients[a]), AddBalance(amount);
    EmptyLoad(w.store, made);
    ReloadOne(w, a);
    CommandAndSave(Next(w, Reload(a)), a, c, now);
    FirstEvent(w.store, made, c, now);
    RunsOneCommand(w, a, c, now);
    var v := Run(w, [Reload(a), Issue(a, c, "", now), Save(a, now)]);
    assert v.store == Append(w.store, [Emitted(made, c, "", now)], now);
    assert v.clients[a].phase == Snapshotting(Commanded(made, c)) && v.clients[b] == w.clients[b];
    assert SnapshotDue(2, v.frequency);
  }

  lemma EmptyLoad(s: Store, made: WalletState)
    requires s == EmptyStore() && made == NewWallet(made.id, made.userID, made.currency)
    ensures Inv(s) && VersionOf(s, made.id) == 0 && Load(s, made.id, made) == Some(made)
  {
    EmptyInv();
    assert EventsOf(s.log, made.id) == [] && IndexAgrees(s, made.id);
    IndexedSuffix(s, made.id, 0);
  }

  lemma RunsOneCommand(w: World, a: nat, c: Command, now: int)
    ensures Run(w, [Reload(a), Issue(a, c, "", now), Save(a, now)])
      == Next(Next(Next(w, Reload(a)), Issue(a, c, "", now)), Save(a, now))
  {
    var x1, x2 := [Reload(a)], [Reload(a), Issue(a, c, "", now)];
    assert x1 == [] + [Reload(a)] && x2 == x1 + [Issue(a, c, "", now)];
    assert x2 + [Save(a, now)] == [Reload(a), Issue(a, c, "", now), Save(a, now)];
    RunNext(w, [], Reload(a));
    RunNext(w, x1, Issue(a, c, "", now));
    RunNext(w, x2, Save(a, now));
  }

  lemma FirstEvent(s: Store, made: WalletState, c: Command, now: int)
    requires s == EmptyStore() && Inv(s) && made == NewWallet(made.id, made.userID, made.currency) && Allowed(made, c)
    ensures var s' := Append(s, [Emitted(made, c, "", now)], now); var own := EventsOf(s'.log, made.id);
      Inv(s') && Chained(own) && |own| == 1 && BalanceAfter(own) == Outcome(0, c) && s'.snapshots == map[]
  {
    var e := Emitted(made, c, "", now);
    assert EventsOf(s.log, made.id) == [] && IndexAgrees(s, made.id);
    WalletClients.SaveExtends(s, e, now, made.id);
    ChainedSnoc([], Stamp(e, s.counter + 1, 1, now));
  }

  lemma RunNext(w: World, actions: seq<Action>, a: Action)
    ensures Run(w, actions + [a]) == Next(Run(w, actions), a)
  {
    assert (actions + [a])[..|actions + [a]| - 1] == actions;
  }

  lemma RunsTheRace(w: World, a: nat, b: nat, c: Command, d: Command, now: int)
    ensures Run(w, [Reload(b), TakeSnapshot(a), Issue(b, c, "", now), Save(b, now), Reload(a), Issue(a, d, "", now),
      Save(a, now)])
      == Next(Next(Next(Next(Next(Next(Next(w, Reload(b)), TakeSnapshot(a)), Issue(b, c, "", now)), Save(b, now)),
           Reload(a)), Issue(a, d, "", now)), Save(a, now))
  {
    var x1, x2, x3, x4 := [Reload(b)], [Reload(b), TakeSnapshot(a)],
      [Reload(b), TakeSnapshot(a), Issue(b, c, "", now)],
        [Reload(b), TakeSnapshot(a), Issue(b, c, "", now), Save(b, now)];
    var x5 := x4 + [Reload(a)];
    var x6 := x5 + [Issue(a, d, "", now)];
    assert x1 == [] + [Reload(b)] && x2 == x1 + [TakeSnapshot(a)] && x3 == x2 + [Issue(b, c, "", now)]
      && x4 == x3 + [Save(b, now)];
    RunNext(w, [], Reload(b));
    RunNext(w, x1, TakeSnapshot(a));
    RunNext(w, x2, Issue(b, c, "", now));
    RunNext(w, x3, Save(b, now));
    RunNext(w, x4, Reload(a));
    RunNext(w, x5, Issue(a, d, "", now));
    RunNext(w, x6, Save(a, now));
    assert x6 + [Save(a, now)]
      == [Reload(b), TakeSnapshot(a), Issue(b, c, "", now), Save(b, now), Reload(a), Issue(a, d, "", now),
        Save(a, now)];
  }
}
