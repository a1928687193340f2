/** Single-threaded runs of a connection: whatever the application, other clients and the event loop
    do, and in whatever order, the registry stays consistent and the owner cache settles. */
module ConnectionRuns {
  import opened QtText
  import opened NameRules
  import opened MatchRule
  import opened SignalFilter
  import opened SignalBus
  import opened SignalRegistry
  import opened BusConnection
  import opened OwnerCache
  import opened RunHistory

  /** One command, from any consistent state. */
  method Step(c: BusConnection, command: Command)
    requires c.Valid() && CommandOk(command)
    modifies c, c.bus
    ensures c.Valid() && Effect(old(c.Now()), command, c.Now())
  {
    hide Consistent, NodesOk, OwnersOk, Genuine, UserHooks, Reached, Duplicate, Kept;
    match command
    case DoConnect(service, path, interface, name, args, signature, receiver, midx, meanwhile) =>
      var ok := c.Connect(service, path, interface, name, args, signature, receiver, midx, meanwhile);
    case DoConnectRelay(service, path, interface, isDynamic, name, signature, receiver, midx, minMIdx, meanwhile) =>
      c.ConnectNotify(service, path, interface, isDynamic, name, signature, receiver, midx, minMIdx, meanwhile);
    case DoDisconnect(service, path, interface, name, args, signature, receiver, midx) =>
      var found := c.Disconnect(service, path, interface, name, args, signature, receiver, midx);
    case DoDisconnectRelay(service, path, interface, isDynamic, name, signature, receiver, midx, minMIdx) =>
      c.DisconnectNotify(service, path, interface, isDynamic, name, signature, receiver, midx, minMIdx);
    case DoDestroy(receiver) => c.ObjectDestroyed(receiver);
    case DoChange(change) => ChangeHands(c, change);
    case DoDeliver(msg) => c.bus.Deliver(msg);
    case DoDispatch =>
      if c.bus.queue != [] {
        var posted := c.Dispatch();
      }
  }

  /** Another client changes the owner of a name; of a watched one the connection is told. */
  method ChangeHands(c: BusConnection, change: Change)
    requires c.Valid() && ChangeOk(change)
    modifies c.bus`owners, c.bus`queue
    ensures c.Valid() && Effect(old(c.Now()), DoChange(change), c.Now())
  {
    hide Consistent, NodesOk, OwnersOk, UserHooks, Wanted, Genuine, LastOwner;
    c.EveryWatchReports();
    ghost var rules, queue := c.bus.rules, c.bus.queue;
    ghost var msg := OwnerChanged(change.name, Owner(c.bus.owners, change.name), change.owner);
    assert queue + [] == queue;
    c.bus.ChangeOwner(change);
    assert change.name in WatchedByHook(c.watchedServices) ==> Reported(rules, change.name);
    assert change.name in WatchedByHook(c.watchedServices) ==> Wanted(rules, c.bus.owners, msg);
  }

  /** Any run of a new connection: when all signals have been dispatched, the cached owner of a watched
      service is right if and only if the history of the run does not leave the service unsettled. */
  method Run(bus: Bus, commands: seq<Command>) returns (c: BusConnection, ghost trace: seq<View>)
    requires bus.Valid() && bus.rules == multiset{} && bus.queue == []
    requires forall i | 0 <= i < |commands| :: CommandOk(commands[i])
    modifies bus
    ensures fresh(c) && c.bus == bus && c.Valid() && bus.queue == []
    ensures History(commands, trace) && trace[0].owners == old(bus.owners)
    ensures trace[|commands|].owners == bus.owners && trace[|commands|].watched.Keys == c.watchedServices.Keys
    ensures forall s | s in c.watchedServices && s != DBUS_SERVICE ::
      c.watchedServices[s].owner == Owner(bus.owners, s) <==> s !in Unsettled(commands, trace, |commands|)
  {
    hide Consistent, NodesOk, OwnersOk, Genuine, UserHooks, Effect, Unsettled;
    c := new BusConnection(bus);
    trace := [c.Now()];
    assert c.watchedServices.Keys == {DBUS_SERVICE};
    var i := 0;
    while i < |commands|
      invariant 0 <= i <= |commands| && fresh(c) && c.bus == bus && c.Valid()
      invariant |trace| == i + 1 && trace[i] == c.Now()
      invariant trace[0].owners == old(bus.owners) && trace[0].watched.Keys == {DBUS_SERVICE} && trace[0].queue == []
      invariant forall k | 0 <= k < i :: CommandOk(commands[k]) && Effect(trace[k], commands[k], trace[k + 1])
    {
      Step(c, commands[i]);
      trace := trace + [c.Now()];
      i := i + 1;
    }
    forall s | s in trace[i].watched && s != DBUS_SERVICE
      ensures trace[i].Settles(s) <==> s !in Unsettled(commands, trace, i)
    {
      UnsettledExactly(commands, trace, i, s);
    }
    c.DispatchAll();
  }

  // ---------- the cache that does not settle ----------

  /** Without hooks of the application, only watches keep rules, and these name the bus. */
  lemma WatchRule(hooks: Hooks, counts: Counts, expected: set<string>, r: string)
    requires CountsOk(hooks, counts) && InternalOk(hooks, expected) && UserHooks(hooks) == map[]
    requires r in counts && r != PREPOPULATED_RULE
    ensures NamedSender(r) == DBUS_SERVICE && expected != {}
  {
    hide NamedSender, RuleText;
    assert Uses(hooks, r) > 0;
    var named := HooksWithRule(hooks, r);
    assert named != {};
    var n :| n in named;
    assert n !in UserHooks(hooks);
    var t :| t in expected && hooks[n] == InternalEntry(t);
    RuleNamesService(OwnerChangedSubscription(t));
  }

  /** With the last hook of the application go all rules and all watches. */
  lemma NothingLeft(hooks: Hooks, counts: Counts, watched: Watched, rules: multiset<string>)
    requires Consistent(hooks, counts, watched, rules, {}, WatchedByHook(watched))
    requires UserHooks(hooks) == map[]
    ensures watched.Keys == {DBUS_SERVICE} && rules == multiset{}
  {
    hide NamedSender, RuleText, NoDuplicates, CountsOk, InternalOk, UserHooks;
    assert hooks - {} == hooks;
    BusStaysWatched(counts, watched);
    BusIsNamed();
    forall s | s in watched ensures s == DBUS_SERVICE {
      assert WatchedOkAt(counts, watched, s);
      var named := RulesNaming(counts, s);
      assert named != {};
      var r :| r in named;
      if r != PREPOPULATED_RULE {
        WatchRule(hooks, counts, WatchedByHook(watched), r);
      }
    }
    assert WatchedByHook(watched) == {};
    forall r | r in counts ensures r == PREPOPULATED_RULE {
      if r != PREPOPULATED_RULE {
        WatchRule(hooks, counts, WatchedByHook(watched), r);
      }
    }
    assert counts.Keys - {PREPOPULATED_RULE} == {};
  }

  lemma BusIsNamed()
    ensures NamedSender(PREPOPULATED_RULE) == DBUS_SERVICE
  {
    RuleNamesService(OwnerChangedSubscription(DBUS_SERVICE));
  }

  /** A hook that names a service keeps it watched. */
  lemma NamedIsWatched(hooks: Hooks, next: nat, counts: Counts, watched: Watched, rules: multiset<string>, n: nat)
    requires Consistent(hooks, counts, watched, rules, {}, WatchedByHook(watched)) && NodesOk(hooks, next)
    requires n in UserHooks(hooks) && ShouldWatchService(hooks[n].hook.service.Text())
    ensures hooks[n].hook.service.Text() in watched
  {
    hide NamedSender, RuleText, NoDuplicates;
    var rule, s := hooks[n].hook.matchRule, hooks[n].hook.service.Text();
    assert hooks - {} == hooks;
    assert EntryOk(hooks[n]);
    assert n in HooksWithRule(hooks, rule);
    assert rule in RulesNaming(counts, s);
    assert WatchedOkAt(counts, watched, s);
  }

  // ---------- stored hooks and their rules ----------

  /** Every hook of the application was made for some subscription. */
  lemma HookIsPrepared(c: BusConnection, n: nat)
    requires c.Valid() && n in UserHooks(c.signalHooks)
    ensures n in c.signalHooks && exists sub :: PreparedFor(c.signalHooks[n], sub)
  {
    hide Consistent, NamedSender;
    assert EntryOk(c.signalHooks[n]);
    assert c.signalHooks[n] !in INITIAL_ENTRIES;
  }

  /** In every consistent state in which the owner of the sender is cached rightly, a stored hook is
      reached by a signal if and only if the rule the bus holds for it selects the signal, up to the
      signature, the number of arguments and the type of the constrained ones. */
  lemma PostedIffSelected(c: BusConnection, msg: SignalMessage, n: nat, sub: Subscription)
    requires c.Valid() && Genuine(msg) && n in UserHooks(c.signalHooks) && PreparedFor(c.signalHooks[n], sub)
    requires QuoteFree(sub) && !(sub.member == "" && sub.interface == "")
    requires sub.service in c.watchedServices && sub.service != DBUS_SERVICE ==>
      c.watchedServices[sub.service].owner == Owner(c.bus.owners, sub.service)
    requires forall s | s in c.bus.owners :: s != "" && s[0] == ':' ==> c.bus.owners[s] == s
    ensures var hook := c.signalHooks[n].hook;
      (n in Reached(c.signalHooks, c.watchedServices, msg) && StringsWhereConstrained(sub, msg))
      <==> (RuleSelects(hook.matchRule, c.bus.owners, msg) && (hook.signature.Null? || hook.signature.text == msg.signature)
            && |sub.args| <= |msg.args|)
  {
    hide Consistent, NodesOk, Accepts, RuleSelects, Keys, Key, RuleText, StringsWhereConstrained, QuoteFree;
    if ShouldWatchService(sub.service) {
      NamedIsWatched(c.signalHooks, c.nextNode, c.matchRefCounts, c.watchedServices, c.bus.rules, n);
    }
    assert OwnerKnown(sub.service, c.watchedServices, c.bus.owners);
    FilterAgreesWithRule(sub, c.signalHooks[n].hook, msg, c.watchedServices, c.bus.owners);
  }

  /** The only hook of a connection: one for signal "n" of a service. */
  method Subscribe(c: BusConnection, s: string) returns (ghost n: nat)
    requires c.Valid() && UserHooks(c.signalHooks) == map[] && ShouldWatchService(s) && IsValidBusName(s)
    modifies c, c.bus
    ensures c.Valid() && s in c.watchedServices && c.WatchesKept(s, [])
    ensures UserHooks(c.signalHooks) == map[n := EntryFor(Str(s), Null, "", "n", [], Null, Receiver(0), 0)]
  {
    hide Consistent, NodesOk, OwnersOk, Genuine, IsValidBusName, RuleText, NamedSender;
    ghost var e := EntryFor(Str(s), Null, "", "n", [], Null, Receiver(0), 0);
    n := c.nextNode;
    forall m | m in c.signalHooks ensures !Duplicate(c.signalHooks[m], e, true) {
      assert m !in UserHooks(c.signalHooks);
    }
    var ok := c.Connect(Str(s), Null, "", "n", [], Null, 0, 0, []);
    assert n in UserHooks(c.signalHooks);
    NamedIsWatched(c.signalHooks, c.nextNode, c.matchRefCounts, c.watchedServices, c.bus.rules, n);
  }

  /** The hook found for a subscription is the only one there is. */
  lemma OnlyHookGoes(hooks: Hooks, n: nat, e: Entry)
    requires UserHooks(hooks) == map[n := e] && e.hook.obj != Connection
    ensures n in hooks && Duplicate(hooks[n], e, true)
    ensures forall m | m in hooks && Duplicate(hooks[m], e, true) :: UserHooks(hooks) - {m} == map[]
  {
    assert n in UserHooks(hooks);
    forall m | m in hooks && Duplicate(hooks[m], e, true) ensures UserHooks(hooks) - {m} == map[] {
      assert m in UserHooks(hooks);
    }
  }

  /** Gives the only hook up, and with it every rule. */
  method Unsubscribe(c: BusConnection, s: string, ghost n: nat)
    requires c.Valid()
    requires UserHooks(c.signalHooks) == map[n := EntryFor(Str(s), Null, "", "n", [], Null, Receiver(0), 0)]
    modifies c, c.bus`rules
    ensures c.Valid() && UserHooks(c.signalHooks) == map[] && c.bus.rules == multiset{}
    ensures c.watchedServices.Keys == {DBUS_SERVICE}
  {
    hide Consistent, NodesOk, OwnersOk, Genuine, UserHooks, Duplicate, RuleText, NamedSender;
    OnlyHookGoes(c.signalHooks, n, EntryFor(Str(s), Null, "", "n", [], Null, Receiver(0), 0));
    var found := c.Disconnect(Str(s), Null, "", "n", [], Null, 0, 0);
    NothingLeft(c.signalHooks, c.matchRefCounts, c.watchedServices, c.bus.rules);
  }

  lemma ChangeIsChange(s: string, before: string, after: string)
    ensures IsOwnerChange(OwnerChanged(s, before, after), s)
  {}

  /** A watched service changes hands, and the change stays queued. */
  method ChangeWatched(c: BusConnection, s: string, owner: string)
    requires c.Valid() && s in c.watchedServices && s != DBUS_SERVICE && owner != DBUS_SERVICE
    modifies c.bus`owners, c.bus`queue
    ensures c.Valid() && forall cached :: LastOwner(c.bus.queue, s, cached) == owner
  {
    hide Consistent, NodesOk, OwnersOk, UserHooks, Wanted, Genuine, LastOwner, IsOwnerChange;
    c.EveryWatchReports();
    ChangeIsChange(s, Owner(c.bus.owners, s), owner);
    ghost var change := OwnerChanged(s, Owner(c.bus.owners, s), owner);
    forall cached { LastOwnerAppend(c.bus.queue, change, s, cached); }
    assert Reported(c.bus.rules, s);
    ghost var queue, rules := c.bus.queue, c.bus.rules;
    c.bus.ChangeOwner(Change(s, owner));
    assert Wanted(rules, c.bus.owners, change);
    assert c.bus.queue == queue + [change];
  }

  /** An answer that a queued change contradicts does not settle. */
  lemma StaleAnswer(v: View, v': View, s: string)
    requires Kept(v, v', s, []) && Starts(v, v', s) && !v.AnswerSettles(s)
    ensures !v'.Settles(s)
  {
    hide Settled, ChangeQueued;
  }

  /** Unsubscribing while a change is queued, and subscribing again after another one: the queued
      change then overwrites the answer of the bus, and nothing corrects it. */
  method RewatchWithChangeQueued(s: string, first: string, second: string, third: string)
    returns (c: BusConnection)
    requires ShouldWatchService(s) && s != DBUS_SERVICE && IsValidBusName(s)
    requires first != "" && second != third && DBUS_SERVICE !in [first, second, third]
    ensures fresh(c) && fresh(c.bus) && c.Valid() && c.bus.queue == []
    ensures s in c.watchedServices && c.watchedServices[s].owner != Owner(c.bus.owners, s)
  {
    hide Consistent, NodesOk, OwnersOk, Genuine, UserHooks, IsValidBusName, EntryFor, RuleSelects, LastOwner,
      Duplicate, WatchedByHook;
    var bus := new Bus(map[s := first]);
    c := new BusConnection(bus);
    ghost var n := Subscribe(c, s);
    ChangeWatched(c, s, second);
    Unsubscribe(c, s, n);
    assert bus.queue + [] == bus.queue;
    bus.ChangeOwner(Change(s, third));
    assert !c.Now().AnswerSettles(s) by { assert Owner(bus.owners, s) == third; }
    ghost var v := c.Now();
    n := Subscribe(c, s);
    StaleAnswer(v, c.Now(), s);
    c.DispatchAll();
  }
}
