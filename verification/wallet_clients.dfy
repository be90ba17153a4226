/** Clients that load a wallet, issue a command and save it, interleaved over one
    store: the log they build when each command follows a load, and what the
    double version step of a command does to those that skip it. */
module WalletClients {
  import opened Optional
  import opened EventLog
  import opened WalletEvents

  /** What a client holds: nothing, a wallet it has just loaded, or one commanded once and not yet saved. */
  datatype Phase = Idle | Loaded(wallet: WalletState) | Commanding(event: EventRecord)

  datatype Client = Client(walletID: string, userID: string, currency: string, phase: Phase)

  datatype World = World(store: Store, clients: seq<Client>)

  datatype Action =
    | Reload(c: nat)
    | Issue(c: nat, command: Command, eventID: string, at: int)
    | Save(c: nat, now: int)

  function Made(client: Client): WalletState
  {
    NewWallet(client.walletID, client.userID, client.currency)
  }

  /** The store accepts one event: it names no version, or the next. */
  predicate Fits(s: Store, e: EventRecord)
  {
    VersionFits(e, VersionOf(s, e.aggregateID) + 1)
  }

  function Step(s: Store, client: Client, a: Action): (Store, Client)
  {
    match a
    case Reload(_) =>
      var loaded := Load(s, client.walletID, Made(client));
      (s, client.(phase := if loaded.Some? then Loaded(loaded.value) else Idle))
    case Issue(_, command, eventID, at) =>
      if client.phase.Loaded? && Allowed(client.phase.wallet, command)
      then (s, client.(phase := Commanding(Emitted(client.phase.wallet, command, eventID, at))))
      else (s, client)
    case Save(_, now) =>
      if client.phase.Commanding? && Fits(s, client.phase.event)
      then (Append(s, [client.phase.event], now), client.(phase := Idle))
      else (s, client)
  }

  function Next(w: World, a: Action): World
  {
    if a.c < |w.clients| then
      var (s, client) := Step(w.store, w.clients[a.c], a);
      World(s, w.clients[a.c := client])
    else w
  }

  function Run(w: World, actions: seq<Action>): World
    decreases |actions|
  {
    if actions == [] then w else Run(Next(w, actions[0]), actions[1..])
  }

  // ---------- the invariant ----------

  predicate ClientAgrees(s: Store, client: Client)
  {
    var own := EventsOf(s.log, client.walletID);
    match client.phase
    case Idle => true
    case Loaded(w) =>
      0 <= w.version <= |own|
      && w == Made(client).(balance := BalanceAfter(own[..w.version]), version := w.version)
    case Commanding(e) =>
      e.aggregateID == client.walletID
      && 1 <= e.version <= |own| + 1
      && Continues(e, BalanceAfter(own[..e.version - 1]))
  }

  ghost predicate WorldInv(w: World)
  {
    && Inv(w.store) && w.store.snapshots == map[]
    && (forall a :: Chained(EventsOf(w.store.log, a)))
    && (forall c :: 0 <= c < |w.clients| ==> ClientAgrees(w.store, w.clients[c]))
  }

  lemma ReloadAgrees(s: Store, client: Client)
    requires Inv(s) && s.snapshots == map[] && Chained(EventsOf(s.log, client.walletID))
    ensures Load(s, client.walletID, Made(client))
      == Some(Made(client).(balance := BalanceAfter(EventsOf(s.log, client.walletID)),
        version := VersionOf(s, client.walletID)))
  {
    var own := EventsOf(s.log, client.walletID);
    assert IndexAgrees(s, client.walletID);
    LoadIsReplay(s, client.walletID, Made(client));
    ReplayChain(Made(client), own);
  }

  /** An accepted event becomes the last of its wallet, stamped; other wallets are not touched. */
  lemma SaveExtends(s: Store, e: EventRecord, now: int, a: string)
    requires Inv(s) && Fits(s, e)
    ensures Inv(Append(s, [e], now))
    ensures EventsOf(Append(s, [e], now).log, a)
      == EventsOf(s.log, a) + Saved(s, e, now, a)
  {
    AppendKeepsInv(s, [e], now);
    AppendExtends(s, [e], now, a);
    assert StampAll([e], s.counter, VersionOf(s, a), now) == [Stamp(e, s.counter + 1, VersionOf(s, a) + 1, now)];
  }

  function Saved(s: Store, e: EventRecord, now: int, a: string): seq<EventRecord>
  {
    if a == e.aggregateID then [Stamp(e, s.counter + 1, VersionOf(s, a) + 1, now)] else []
  }

  lemma SavedChain(own: seq<EventRecord>, e: EventRecord, sequence: int, version: int, now: int)
    requires Chained(own) && 1 <= e.version == |own| + 1 && Continues(e, BalanceAfter(own[..e.version - 1]))
    ensures Chained(own + [Stamp(e, sequence, version, now)])
  {
    assert own[..e.version - 1] == own;
    ChainedSnoc(own, Stamp(e, sequence, version, now));
  }

  lemma SavedKeepsChain(s: Store, client: Client, now: int, a: string)
    requires Inv(s) && ClientAgrees(s, client) && client.phase.Commanding? && Fits(s, client.phase.event)
    requires Chained(EventsOf(s.log, a))
    ensures Chained(EventsOf(s.log, a) + Saved(s, client.phase.event, now, a))
  {
    var e := client.phase.event;
    var own := EventsOf(s.log, a);
    if a == e.aggregateID {
      assert IndexAgrees(s, a);
      SavedChain(own, e, s.counter + 1, VersionOf(s, a) + 1, now);
    } else {
      assert own + [] == own;
    }
  }

  lemma SaveKeepsChain(s: Store, client: Client, now: int, a: string)
    requires Inv(s) && ClientAgrees(s, client) && client.phase.Commanding? && Fits(s, client.phase.event)
    requires Chained(EventsOf(s.log, a))
    ensures Chained(EventsOf(Append(s, [client.phase.event], now).log, a))
  {
    SavedKeepsChain(s, client, now, a);
    SaveExtends(s, client.phase.event, now, a);
  }

  /** What a client holds stays true as its wallet's history grows. */
  lemma GrowthKeepsClient(s: Store, s': Store, client: Client, more: seq<EventRecord>)
    requires ClientAgrees(s, client)
    requires EventsOf(s'.log, client.walletID) == EventsOf(s.log, client.walletID) + more
    ensures ClientAgrees(s', client)
  {
    var own, own' := EventsOf(s.log, client.walletID), EventsOf(s'.log, client.walletID);
    match client.phase
    case Idle =>
    case Loaded(w) => assert own'[..w.version] == own[..w.version];
    case Commanding(e) => assert own'[..e.version - 1] == own[..e.version - 1];
  }

  lemma SaveKeepsOther(s: Store, e: EventRecord, now: int, other: Client)
    requires Inv(s) && Fits(s, e) && ClientAgrees(s, other)
    ensures ClientAgrees(Append(s, [e], now), other)
  {
    var a := other.walletID;
    SaveExtends(s, e, now, a);
    GrowthKeepsClient(s, Append(s, [e], now), other, Saved(s, e, now, a));
  }

  lemma SaveKeepsInv(w: World, c: nat, now: int)
    requires WorldInv(w) && c < |w.clients| && w.clients[c].phase.Commanding? && Fits(w.store, w.clients[c].phase.event)
    ensures WorldInv(Next(w, Save(c, now)))
  {
    var w' := Next(w, Save(c, now));
    var e := w.clients[c].phase.event;
    assert w'.store == Append(w.store, [e], now);
    forall a
      ensures Chained(EventsOf(w'.store.log, a))
    {
      SaveKeepsChain(w.store, w.clients[c], now, a);
    }
    forall k | 0 <= k < |w'.clients|
      ensures ClientAgrees(w'.store, w'.clients[k])
    {
      if k != c {
        SaveKeepsOther(w.store, e, now, w.clients[k]);
      }
    }
    SaveExtends(w.store, e, now, e.aggregateID);
  }

  /** A step that saves nothing leaves the store alone and its client truthful. */
  lemma QuietStep(s: Store, client: Client, a: Action)
    requires Inv(s) && s.snapshots == map[] && Chained(EventsOf(s.log, client.walletID)) && ClientAgrees(s, client)
    requires a.Save? && client.phase.Commanding? ==> !Fits(s, client.phase.event)
    ensures Step(s, client, a).0 == s && ClientAgrees(s, Step(s, client, a).1)
  {
    if a.Reload? {
      var own := EventsOf(s.log, client.walletID);
      assert IndexAgrees(s, client.walletID);
      ReloadAgrees(s, client);
      assert own[..|own|] == own;
    }
  }

  lemma StepKeepsInv(w: World, a: Action)
    requires WorldInv(w)
    ensures WorldInv(Next(w, a))
  {
    if a.c < |w.clients| {
      var client := w.clients[a.c];
      if a.Save? && client.phase.Commanding? && Fits(w.store, client.phase.event) {
        SaveKeepsInv(w, a.c, a.now);
      } else {
        QuietStep(w.store, client, a);
      }
    }
  }

  lemma {:induction false} RunKeepsInv(w: World, actions: seq<Action>)
    requires WorldInv(w)
    ensures WorldInv(Run(w, actions))
    decreases |actions|
  {
    if actions != [] {
      StepKeepsInv(w, actions[0]);
      RunKeepsInv(Next(w, actions[0]), actions[1..]);
    }
  }

  predicate Beginning(w: World)
  {
    w.store == EmptyStore() && forall c :: 0 <= c < |w.clients| ==> w.clients[c].phase.Idle?
  }

  // ---------- main results ----------

  /** Clients that load before each command lose no update: whatever the
      interleaving, every wallet's log is a chain, and its balance is the sum added
      less the sum deducted and never negative. */
  lemma NoLostUpdate(w: World, actions: seq<Action>, id: string)
    requires Beginning(w)
    ensures var own := EventsOf(Run(w, actions).store.log, id);
      Chained(own) && BalanceAfter(own) == Added(own) - Deducted(own) >= 0
  {
    EmptyInv();
    RunKeepsInv(w, actions);
    ChainBalances(EventsOf(Run(w, actions).store.log, id));
  }

  lemma {:induction false} VersionsGrow(w: World, actions: seq<Action>, id: string)
    requires WorldInv(w)
    ensures VersionOf(w.store, id) <= VersionOf(Run(w, actions).store, id)
    decreases |actions|
  {
    if actions != [] {
      StepKeepsInv(w, actions[0]);
      VersionsGrow(Next(w, actions[0]), actions[1..], id);
    }
  }

  /** Of two clients that hold commands on a wallet loaded at the same version, once
      one has saved the other never can, however long it waits. */
  lemma OnlyOneSaves(w: World, c: nat, d: nat, now: int, actions: seq<Action>)
    requires WorldInv(w) && c < |w.clients| && d < |w.clients| && c != d
    requires w.clients[c].phase.Commanding? && w.clients[d].phase.Commanding?
    requires w.clients[c].walletID == w.clients[d].walletID
    requires w.clients[c].phase.event.version == w.clients[d].phase.event.version
    requires Fits(w.store, w.clients[c].phase.event)
    ensures !Fits(Run(Next(w, Save(c, now)), actions).store, w.clients[d].phase.event)
  {
    var w' := Next(w, Save(c, now));
    assert ClientAgrees(w.store, w.clients[c]) && ClientAgrees(w.store, w.clients[d]);
    StepKeepsInv(w, Save(c, now));
    VersionsGrow(w', actions, w.clients[d].walletID);
  }

  // ---------- a command counts twice ----------

  /** Commands issued one after another on the same loaded wallet; None if one is refused. */
  function Issued(w: WalletState, commands: seq<Command>, at: int): Option<seq<EventRecord>>
    decreases |commands|
  {
    if commands == [] then Some([])
    else if !Allowed(w, commands[0]) then None
    else
      var rest := Issued(Commanded(w, commands[0]), commands[1..], at);
      if rest.None? then None else Some([Emitted(w, commands[0], "", at)] + rest.value)
  }

  lemma {:induction false} IssuedVersions(w: WalletState, commands: seq<Command>, at: int)
    requires Issued(w, commands, at).Some?
    ensures var events := Issued(w, commands, at).value;
      |events| == |commands| && forall k :: 0 <= k < |events| ==> events[k].version == w.version + 1 + 2 * k
    decreases |commands|
  {
    if commands != [] {
      IssuedVersions(Commanded(w, commands[0]), commands[1..], at);
    }
  }

  /** Commands issued on one loaded wallet fit a store at version `v` as a batch if and
      only if there are none, or there is one and `v` is still the version loaded: a
      batch of two or more never fits. */
  lemma OneCommandALoad(w: WalletState, commands: seq<Command>, at: int, v: int)
    requires w.version >= 0 && v >= 0 && Issued(w, commands, at).Some?
    ensures BatchFits(Issued(w, commands, at).value, v) <==> commands == [] || (|commands| == 1 && v == w.version)
  {
    IssuedVersions(w, commands, at);
    var events := Issued(w, commands, at).value;
    if |commands| > 1 {
      assert !VersionFits(events[0], v + 1) || !VersionFits(events[1], v + 2);
    } else if |commands| == 1 {
      assert VersionFits(events[0], v + 1) <==> v == w.version;
    }
  }

  /** A client that saved a command and, without loading again, issues another:
      its event is accepted if and only if exactly one foreign event has been saved
      since its own, and then it overwrites that event's balance. */
  lemma ReuseLosesUpdates(s: Store, w: WalletState, mine: nat, c: Command, eventID: string, now: int)
    requires Inv(s) && Chained(EventsOf(s.log, w.id))
    requires mine < |EventsOf(s.log, w.id)| && w.version == mine + 2
    requires w.balance == BalanceAfter(EventsOf(s.log, w.id)[..mine + 1])
    requires Allowed(w, c)
    ensures var e := Emitted(w, c, eventID, now);
      && (Fits(s, e) <==> VersionOf(s, w.id) == mine + 2)
      && (Fits(s, e) ==> !Chained(EventsOf(Append(s, [e], now).log, w.id)))
  {
    var e := Emitted(w, c, eventID, now);
    var own := EventsOf(s.log, w.id);
    assert IndexAgrees(s, w.id);
    if Fits(s, e) {
      SaveExtends(s, e, now, w.id);
      var front, foreign := own[..mine + 1], own[mine + 1];
      assert Continues(foreign, BalanceAfter(front));
      assert BalanceAfter(own) == foreign.payload.newBalance != w.balance;
      ChainedSnoc(own, Stamp(e, s.counter + 1, VersionOf(s, w.id) + 1, now));
    }
  }

  // ---------- snapshots record the doubled version ----------

  /** A snapshot of a saved wallet: its data is the state after `k` events, its version is the wallet's own. */
  predicate TakenAfter(s: Store, id: string, made: WalletState, k: nat)
  {
    && id in s.snapshots && k <= |EventsOf(s.log, id)|
    && s.snapshots[id].data.(version := 0) == made.(balance := BalanceAfter(EventsOf(s.log, id)[..k]), version := 0)
  }

  predicate Readable(e: EventRecord)
  {
    e.payload.BalanceChange? && (e.eventType == ADDED || e.eventType == DEDUCTED)
  }

  lemma {:induction false} ReplayTail(w: WalletState, tail: seq<EventRecord>)
    requires forall k :: 0 <= k < |tail| ==> Readable(tail[k])
    ensures Replay(w, tail)
      == Some(if tail == [] then w else w.(balance := BalanceAfter(tail), version := tail[|tail| - 1].version))
  {
    if tail != [] {
      var front, last := tail[..|tail| - 1], tail[|tail| - 1];
      ReplayTail(w, front);
      assert tail == front + [last];
      ReplaySplits(w, front, [last]);
      assert [last][1..] == [];
    }
  }

  lemma ChainTail(own: seq<EventRecord>, from: nat)
    requires Chained(own) && from <= |own|
    ensures forall k :: 0 <= k < |own[from..]| ==> Readable(own[from..][k])
  {
    forall k | 0 <= k < |own[from..]|
      ensures Readable(own[from..][k])
    {
      assert Continues(own[from + k], BalanceAfter(own[..from + k]));
    }
  }

  /** Loading through a snapshot taken after `k` events and recorded at version `r`,
      on a chained log of `n`: the balance is right if and only if an event after
      `r` remains to be applied or nothing changed since `k`, and the version is
      right if and only if `r` is not beyond the log. */
  lemma LoadThroughSnapshot(s: Store, id: string, made: WalletState, k: nat)
    requires Inv(s) && Chained(EventsOf(s.log, id)) && TakenAfter(s, id, made, k) && s.snapshots[id].version >= 0
    ensures var own := EventsOf(s.log, id);
      var r := s.snapshots[id].version;
      var loaded := Load(s, id, made);
      && loaded.Some?
      && (loaded.value.balance == BalanceAfter(own) <==> r < |own| || BalanceAfter(own[..k]) == BalanceAfter(own))
      && (loaded.value.version == VersionOf(s, id) <==> r <= |own|)
      && (r >= |own| ==> loaded.value == made.(balance := BalanceAfter(own[..k]), version := r))
  {
    var own := EventsOf(s.log, id);
    var r := s.snapshots[id].version;
    var from := Clamp(r, |own|);
    assert IndexAgrees(s, id);
    IndexedSuffix(s, id, r + 1);
    ChainTail(own, from);
    ReplayTail(FromSnapshot(s.snapshots[id]), own[from..]);
    if r < |own| {
      assert own[from..][|own| - from - 1] == own[|own| - 1];
    }
  }

  /** The snapshot the code takes when it has saved a command as event `n` is
      recorded at version `n + 1`: a command issued on a wallet loaded through it does
      not fit.  SnapshotClients says what this does to whole runs. */
  lemma SnapshotBlocksTheWallet(s: Store, id: string, made: WalletState, c: Command, eventID: string, at: int)
    requires Inv(s) && Chained(EventsOf(s.log, id)) && made.id == id
    requires TakenAfter(s, id, made, |EventsOf(s.log, id)|) && s.snapshots[id].version == VersionOf(s, id) + 1
    requires Allowed(made.(balance := BalanceAfter(EventsOf(s.log, id))), c)
    ensures Load(s, id, made).Some? && Allowed(Load(s, id, made).value, c)
    ensures !Fits(s, Emitted(Load(s, id, made).value, c, eventID, at))
  {
    var own := EventsOf(s.log, id);
    assert IndexAgrees(s, id);
    LoadThroughSnapshot(s, id, made, |own|);
    assert own[..|own|] == own;
  }

  /** If a client that had loaded earlier saves event `n + 1` after that snapshot,
      loading skips it, and the next command is accepted over it: the chain breaks. */
  lemma SnapshotLosesUpdates(s: Store, id: string, made: WalletState, c: Command, eventID: string, now: int)
    requires Inv(s) && Chained(EventsOf(s.log, id)) && made.id == id && |EventsOf(s.log, id)| > 0
    requires TakenAfter(s, id, made, |EventsOf(s.log, id)| - 1) && s.snapshots[id].version == VersionOf(s, id)
    requires Load(s, id, made).Some? && Allowed(Load(s, id, made).value, c)
    ensures var e := Emitted(Load(s, id, made).value, c, eventID, now);
      Fits(s, e) && !Chained(EventsOf(Append(s, [e], now).log, id))
  {
    var own := EventsOf(s.log, id);
    var n := |own| - 1;
    assert IndexAgrees(s, id);
    LoadThroughSnapshot(s, id, made, n);
    var w := Load(s, id, made).value;
    var e := Emitted(w, c, eventID, now);
    assert Continues(own[n], BalanceAfter(own[..n]));
    SaveExtends(s, e, now, id);
    ChainedSnoc(own, Stamp(e, s.counter + 1, VersionOf(s, id) + 1, now));
  }
}
