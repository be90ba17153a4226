/** What becomes of one command of one client: when the wallet accepts it, when the
    store does, and what is then stored. */
module WalletCommands {
  import opened Optional
  import opened EventLog
  import opened WalletEvents
  import opened WalletClients

  /** Adding needs a positive amount, deducting one that the balance covers as well. */
  predicate Permitted(balance: int, command: Command)
  {
    match command
    case AddBalance(amount) => 0 < amount
    case DeductBalance(amount) => 0 < amount <= balance
  }

  function NewBalance(balance: int, command: Command): int
  {
    match command
    case AddBalance(amount) => balance + amount
    case DeductBalance(amount) => balance - amount
  }

  /** The event that records a command on a wallet at `balance`, as the `version`-th of its log. */
  predicate Records(e: EventRecord, command: Command, balance: int, version: int)
  {
    && e.eventType == (if command.AddBalance? then "BalanceAdded" else "BalanceDeducted")
    && e.payload == BalanceChange(command.amount, balance, NewBalance(balance, command))
    && e.version == version
  }

  /** Client `c` does nothing among these actions. */
  predicate Waits(c: nat, actions: seq<Action>)
  {
    forall a :: a in actions ==> a.c != c
  }

  lemma {:induction false} WaitingKeeps(w: World, c: nat, actions: seq<Action>)
    requires Waits(c, actions) && c < |w.clients|
    ensures |Run(w, actions).clients| == |w.clients| && Run(w, actions).clients[c] == w.clients[c]
    decreases |actions|
  {
    if actions != [] {
      assert actions[0] in actions;
      WaitingKeeps(Next(w, actions[0]), c, actions[1..]);
    }
  }

  lemma NextExtends(w: World, a: Action, id: string)
    requires WorldInv(w)
    ensures EventsOf(w.store.log, id) <= EventsOf(Next(w, a).store.log, id)
  {
    if a.c < |w.clients| {
      var client := w.clients[a.c];
      if a.Save? && client.phase.Commanding? && Fits(w.store, client.phase.event) {
        SaveExtends(w.store, client.phase.event, a.now, id);
      }
    }
  }

  /** A wallet's log only grows. */
  lemma {:induction false} RunExtends(w: World, actions: seq<Action>, id: string)
    requires WorldInv(w)
    ensures EventsOf(w.store.log, id) <= EventsOf(Run(w, actions).store.log, id)
    decreases |actions|
  {
    if actions != [] {
      NextExtends(w, actions[0], id);
      StepKeepsInv(w, actions[0]);
      RunExtends(Next(w, actions[0]), actions[1..], id);
    }
  }

  /** Client `c` loads its wallet, commands it after others have acted (`thinking`), and
      saves after others have acted again (`holding`). */
  datatype Attempt = Attempt(
    c: nat, command: Command, eventID: string, at: int, now: int,
    thinking: seq<Action>, holding: seq<Action>)

  /** Where the command is issued. */
  function Thinking(w: World, t: Attempt): World
  {
    Run(Next(w, Reload(t.c)), t.thinking)
  }

  /** Where the save is made. */
  function Holding(w: World, t: Attempt): World
  {
    Run(Next(Thinking(w, t), Issue(t.c, t.command, t.eventID, t.at)), t.holding)
  }

  function Finished(w: World, t: Attempt): World
  {
    Next(Holding(w, t), Save(t.c, t.now))
  }

  lemma AttemptLoads(w: World, t: Attempt)
    requires WorldInv(w) && t.c < |w.clients| && Waits(t.c, t.thinking)
    ensures var v, client := Thinking(w, t), w.clients[t.c];
      var own, n := EventsOf(w.store.log, client.walletID), VersionOf(w.store, client.walletID);
      && WorldInv(v) && |v.clients| == |w.clients|
      && v.clients[t.c]
         == client.(phase := Phase.Loaded(Made(client).(balance := BalanceAfter(own), version := n)))
  {
    ReloadAgrees(w.store, w.clients[t.c]);
    StepKeepsInv(w, Reload(t.c));
    WaitingKeeps(Next(w, Reload(t.c)), t.c, t.thinking);
    RunKeepsInv(Next(w, Reload(t.c)), t.thinking);
  }

  /** A client holds the command it issued on a wallet at `balance`, loaded after `n` events. */
  predicate Holds(client: Client, command: Command, balance: int, n: int)
  {
    && client.phase.Commanding? && client.phase.event.aggregateID == client.walletID
    && Records(client.phase.event, command, balance, n + 1)
  }

  lemma IssueHolds(s: Store, client: Client, a: Action)
    requires a.Issue? && client.phase.Loaded? && client.phase.wallet.id == client.walletID
    ensures var w := client.phase.wallet;
      var (s', client') := Step(s, client, a);
      && s' == s
      && (if Permitted(w.balance, a.command) then Holds(client', a.command, w.balance, w.version)
          else client' == client)
  {
  }

  lemma AttemptHolds(w: World, t: Attempt)
    requires WorldInv(w) && t.c < |w.clients| && Waits(t.c, t.thinking) && Waits(t.c, t.holding)
    ensures var client, v := w.clients[t.c], Holding(w, t);
      var balance, n := BalanceAfter(EventsOf(w.store.log, client.walletID)), VersionOf(w.store, client.walletID);
      && WorldInv(v) && |v.clients| == |w.clients| && v.clients[t.c].walletID == client.walletID
      && (if Permitted(balance, t.command) then Holds(v.clients[t.c], t.command, balance, n)
          else v.clients[t.c].phase.Loaded?)
  {
    AttemptLoads(w, t);
    var v := Thinking(w, t);
    var a := Issue(t.c, t.command, t.eventID, t.at);
    IssueHolds(v.store, v.clients[t.c], a);
    StepKeepsInv(v, a);
    WaitingKeeps(Next(v, a), t.c, t.holding);
    RunKeepsInv(Next(v, a), t.holding);
  }

  /** The store's side: what was stored of the wallet from the load to the save. */
  lemma AttemptGrows(w: World, t: Attempt, id: string)
    requires WorldInv(w) && t.c < |w.clients|
    ensures EventsOf(w.store.log, id) <= EventsOf(Holding(w, t).store.log, id)
  {
    var w1, a := Next(w, Reload(t.c)), Issue(t.c, t.command, t.eventID, t.at);
    var w2 := Run(w1, t.thinking);
    var w3 := Next(w2, a);
    StepKeepsInv(w, Reload(t.c));
    NextExtends(w, Reload(t.c), id);
    RunKeepsInv(w1, t.thinking);
    RunExtends(w1, t.thinking, id);
    StepKeepsInv(w2, a);
    NextExtends(w2, a, id);
    RunExtends(w3, t.holding, id);
  }

  /** One event is stored: the one that records the command, and the balance moves by the amount. */
  predicate Stored(own: seq<EventRecord>, own': seq<EventRecord>, command: Command)
  {
    && |own'| == |own| + 1 && own'[..|own|] == own
    && Records(own'[|own|], command, BalanceAfter(own), |own| + 1)
    && BalanceAfter(own') == NewBalance(BalanceAfter(own), command)
  }

  /** A client that holds a command issued after the first `n` events saves it. */
  lemma SaveStores(v: World, c: nat, now: int, command: Command, balance: int, n: nat)
    requires WorldInv(v) && c < |v.clients| && Holds(v.clients[c], command, balance, n)
    ensures var id := v.clients[c].walletID;
      var own, own' := EventsOf(v.store.log, id), EventsOf(Next(v, Save(c, now)).store.log, id);
      && (n == |own| && balance == BalanceAfter(own) ==> Stored(own, own', command))
      && (n != |own| ==> Next(v, Save(c, now)).store == v.store)
  {
    var e := v.clients[c].phase.event;
    assert IndexAgrees(v.store, e.aggregateID);
    if Fits(v.store, e) {
      SaveExtends(v.store, e, now, e.aggregateID);
    }
  }

  /** At any point of any run, a client loads its wallet, commands it and saves, with
      others acting in between.  If the command was permitted at the balance loaded and
      nobody else's event of the wallet was stored since the load, exactly one event is
      stored: the one that records the command, and the balance moves by the amount.
      Otherwise the save stores nothing. */
  lemma CommandIsStored(begin: World, before: seq<Action>, t: Attempt)
    requires Beginning(begin) && t.c < |Run(begin, before).clients|
    requires Waits(t.c, t.thinking) && Waits(t.c, t.holding)
    ensures var w, v, u := Run(begin, before), Holding(Run(begin, before), t), Finished(Run(begin, before), t);
      var id := w.clients[t.c].walletID;
      var own, balance := EventsOf(w.store.log, id), BalanceAfter(EventsOf(w.store.log, id));
      if Permitted(balance, t.command) && EventsOf(v.store.log, id) == own then
        Stored(own, EventsOf(u.store.log, id), t.command)
      else u.store == v.store
  {
    EmptyInv();
    RunKeepsInv(begin, before);
    AttemptStores(Run(begin, before), t);
  }

  lemma AttemptStores(w: World, t: Attempt)
    requires WorldInv(w) && t.c < |w.clients| && Waits(t.c, t.thinking) && Waits(t.c, t.holding)
    ensures var v, u := Holding(w, t), Finished(w, t);
      var id := w.clients[t.c].walletID;
      var own, balance := EventsOf(w.store.log, id), BalanceAfter(EventsOf(w.store.log, id));
      if Permitted(balance, t.command) && EventsOf(v.store.log, id) == own then
        Stored(own, EventsOf(u.store.log, id), t.command)
      else u.store == v.store
  {
    var id := w.clients[t.c].walletID;
    var own := EventsOf(w.store.log, id);
    AttemptHolds(w, t);
    AttemptGrows(w, t, id);
    assert IndexAgrees(w.store, id);
    if Permitted(BalanceAfter(own), t.command) {
      SaveStores(Holding(w, t), t.c, t.now, t.command, BalanceAfter(own), |own|);
    }
  }
}
