/** The connection object: subscribing, unsubscribing, following service owners, and handing
    incoming signals to hooks. */
module BusConnection {
  import opened QtText
  import opened NameRules
  import opened MatchRule
  import opened SignalFilter
  import opened SignalBus
  import opened OwnerCache
  import opened SignalRegistry

  function EntryFor(service: QString, path: QString, interface: string, name: string,
    args: seq<QString>, signature: QString, receiver: Obj, midx: int): Entry
  {
    Entry(Key(name, interface), SignalHook(service, path, signature, receiver, midx, args,
      RuleText(Subscription(service.Text(), path.Text(), interface, name, args))))
  }

  /** The rule of a watch reports every change of the watched name. */
  lemma WatchReports(rules: multiset<string>, service: string)
    requires InternalEntry(service).hook.matchRule in rules && '\'' !in service
    ensures Reported(rules, service)
  {
    hide RuleText, Pairs, ParseRule, QuoteFree, PairHolds, OwnerChanged, ArgPairs;
    var sub := OwnerChangedSubscription(service);
    WatchIsQuoteFree(service);
    RuleRoundTrip(sub);
    forall o: Owners, a, b ensures Wanted(rules, o, OwnerChanged(service, a, b)) {
      WatchFits(service, o, a, b);
      SelectsSubscription(sub, o, OwnerChanged(service, a, b));
      assert RuleSelects(RuleText(sub), o, OwnerChanged(service, a, b));
    }
  }

  lemma WatchIsQuoteFree(service: string)
    requires '\'' !in service
    ensures QuoteFree(OwnerChangedSubscription(service))
  {}

  lemma WatchFits(service: string, o: Owners, a: string, b: string)
    ensures var sub, msg := OwnerChangedSubscription(service), OwnerChanged(service, a, b);
      && PairHolds(("sender", sub.service), o, msg)
      && sub.path == "" && sub.interface == msg.interface && sub.member == msg.member
      && Selects(ArgPairs(sub.args, 0), o, msg)
  {
    SelectsArgs(OwnerChangedSubscription(service).args, 0, o, OwnerChanged(service, a, b));
  }

  /** Every stored node was numbered, and holds a well-formed hook. */
  ghost predicate NodesOk(hooks: Hooks, next: nat) {
    forall n | n in hooks :: n < next && EntryOk(hooks[n])
  }

  /** The bus owns its own name and no other. */
  ghost predicate OwnersOk(watched: Watched) {
    && DBUS_SERVICE in watched && watched[DBUS_SERVICE].owner == DBUS_SERVICE
    && forall s | s in watched && s != DBUS_SERVICE :: '\'' !in s && watched[s].owner != DBUS_SERVICE
  }

  class BusConnection {
    const bus: Bus
    var signalHooks: Hooks
    var nextNode: nat
    var matchRefCounts: Counts
    var watchedServices: Watched

    ghost predicate ValidWith(zombies: set<nat>, expected: set<string>)
      reads this, bus
    {
      && bus.Valid()
      && NodesOk(signalHooks, nextNode)
      && Consistent(signalHooks, matchRefCounts, watchedServices, bus.rules, zombies, expected)
      && OwnersOk(watchedServices)
    }

    ghost predicate Valid()
      reads this, bus
    {
      ValidWith({}, WatchedByHook(watchedServices))
    }

    /** The cached owners, the owners the bus has and the signals not dispatched yet. */
    function Now(): View
      reads this`watchedServices, bus`owners, bus`queue
    {
      View(watchedServices, bus.owners, bus.queue)
    }

    constructor (bus: Bus)
      requires bus.Valid() && bus.rules == multiset{}
      ensures Valid() && this.bus == bus
      ensures UserHooks(signalHooks) == map[] && watchedServices.Keys == {DBUS_SERVICE}
    {
      this.bus := bus;
      signalHooks := map[0 := INITIAL_ENTRIES[0], 1 := INITIAL_ENTRIES[1]];
      nextNode := 2;
      matchRefCounts := map[PREPOPULATED_RULE := 1];
      watchedServices := map[DBUS_SERVICE := WatchedService(DBUS_SERVICE, 1)];
      new;
      hide Consistent, NodesOk, OwnersOk, UserHooks, WatchedByHook, Genuine;
      InitialState(signalHooks, watchedServices);
    }

    /** Looks for an equal subscription under the key of the wanted one. */
    method FindEntry(wanted: Entry, compareArguments: bool) returns (found: bool, node: nat)
      ensures found ==> node in signalHooks && Duplicate(signalHooks[node], wanted, compareArguments)
      ensures !found ==> forall n | n in signalHooks :: !Duplicate(signalHooks[n], wanted, compareArguments)
    {
      found, node := false, 0;
      var todo := set n | n in signalHooks && signalHooks[n].key == wanted.key;
      while todo != {}
        invariant forall n | n in todo :: n in signalHooks
        invariant forall n | n in signalHooks && n !in todo :: !Duplicate(signalHooks[n], wanted, compareArguments)
      {
        node :| node in todo;
        if Duplicate(signalHooks[node], wanted, compareArguments) {
          return true, node;
        }
        todo := todo - {node};
      }
    }

    /** What subscribing does to the cached owners. */
    twostate predicate WatchesKept(service: string, meanwhile: seq<Change>)
      reads this, bus
    {
      Kept(old(Now()), Now(), service, meanwhile)
    }

    /** A hook of the application comes when every watched service has its internal hook; the
        internal hook of a service comes right after that service has been entered. */
    ghost predicate MayConnect(e: Entry, expected: set<string>)
      reads this
    {
      if e.hook.obj != Connection then expected == WatchedByHook(watchedServices)
      else exists s :: MayWatch(e, expected, s)
    }

    ghost predicate MayWatch(e: Entry, expected: set<string>, s: string)
      reads this
    {
      && s in WatchedByHook(watchedServices)
      && e == InternalEntry(s)
      && expected == WatchedByHook(watchedServices) - {s}
    }

    /** Stores a hook; a new rule goes to the bus, and a new service starts being watched: first the
        connection subscribes to its owner changes, then it asks for the present owner. `meanwhile`
        is what happens on the bus between these two requests. The recursion is at most one level
        deep because the bus itself is always watched already. */
    method ConnectHook(e: Entry, meanwhile: seq<Change>, ghost expected: set<string>)
      requires ValidWith({}, expected) && MayConnect(e, expected)
      requires EntryOk(e) && e.hook.matchRule != "" && '\'' !in e.hook.service.Text()
      requires forall n | n in signalHooks :: !Duplicate(signalHooks[n], e, true)
      requires forall i | 0 <= i < |meanwhile| :: ChangeOk(meanwhile[i])
      modifies this`signalHooks, this`nextNode, this`matchRefCounts, this`watchedServices, bus
      ensures Valid()
      ensures UserHooks(signalHooks) ==
        if e.hook.obj == Connection then old(UserHooks(signalHooks)) else old(UserHooks(signalHooks))[old(nextNode) := e]
      ensures WatchesKept(e.hook.service.Text(), meanwhile)
      decreases if e.hook.service.Text() == DBUS_SERVICE then 0 else 1, 1
    {
      hide Consistent, EntryOk, InternalEntry, Duplicate, Watching, NodesOk, OwnersOk, LastOwner, Genuine,
        Wanted, UserHooks, Mentioned, RuleText, Kept;
      var s := e.hook.service.Text();
      ghost var h, c, w := signalHooks, matchRefCounts, watchedServices;
      NothingHappened(Now(), s, meanwhile);
      NodesOkAfterAdd(h, nextNode, e);
      ConnectStep(h, c, w, bus.rules, expected, nextNode, e);
      UserHooksAfterAdd(h, nextNode, e);
      if e.hook.obj == Connection {
        ghost var watch :| MayWatch(e, expected, watch);
        ConnectWatchStep(h, c, w, bus.rules, WatchedByHook(w), nextNode, watch);
      }

      signalHooks := signalHooks[nextNode := e];
      nextNode := nextNode + 1;
      if e.hook.matchRule in matchRefCounts {
        matchRefCounts := matchRefCounts[e.hook.matchRule := matchRefCounts[e.hook.matchRule] + 1];
        return;
      }
      matchRefCounts := matchRefCounts[e.hook.matchRule := 1];
      AnnounceRule(e.hook.matchRule, s, meanwhile);
    }

    /** Sends a new rule to the bus and counts it for the service it names. */
    method AnnounceRule(rule: string, s: string, meanwhile: seq<Change>)
      requires bus.Valid() && NodesOk(signalHooks, nextNode) && OwnersOk(watchedServices) && '\'' !in s
      requires Consistent(signalHooks, matchRefCounts, Watching(watchedServices, s), bus.rules + multiset{rule},
        {}, WatchedByHook(watchedServices))
      requires ShouldWatchService(s) ==> (Watching(watchedServices, s)[s].refcount == 1 <==> s !in watchedServices)
      requires s == DBUS_SERVICE ==> s in watchedServices
      requires forall i | 0 <= i < |meanwhile| :: ChangeOk(meanwhile[i])
      modifies this`signalHooks, this`nextNode, this`matchRefCounts, this`watchedServices, bus
      ensures Valid()
      ensures UserHooks(signalHooks) == old(UserHooks(signalHooks))
      ensures WatchesKept(s, meanwhile)
      decreases if s == DBUS_SERVICE then 0 else 1, 0
    {
      hide Consistent, EntryOk, Watching, NodesOk, OwnersOk, LastOwner, Genuine, Wanted, UserHooks,
        Mentioned, Kept, Started;
      ghost var w, v := watchedServices, Now();
      WatchingEffect(w, s);
      NothingHappened(Now(), s, meanwhile);
      bus.AddMatch(rule);
      if ShouldWatchService(s) {
        var data := if s in watchedServices then watchedServices[s] else WatchedService("", 0);
        data := data.(refcount := data.refcount + 1);
        watchedServices := watchedServices[s := data];
        if data.refcount == 1 {
          StartWatching(s, meanwhile);
          StartedIsKept(v, Now(), s, meanwhile, data);
        } else {
          CountingIsKept(v, s, meanwhile, data);
        }
      }
    }

    /** A service has just been entered: subscribes to its owner changes, then asks who owns it. */
    method StartWatching(s: string, meanwhile: seq<Change>)
      requires s in WatchedByHook(watchedServices) && ValidWith({}, WatchedByHook(watchedServices) - {s})
      requires forall i | 0 <= i < |meanwhile| :: ChangeOk(meanwhile[i])
      modifies this`signalHooks, this`nextNode, this`matchRefCounts, this`watchedServices, bus
      ensures Valid()
      ensures UserHooks(signalHooks) == old(UserHooks(signalHooks))
      ensures Started(old(Now()), Now(), s, meanwhile)
      decreases 0, 4
    {
      hide Consistent, EntryOk, Genuine, NodesOk, UserHooks, Asked, Started, Kept;
      ghost var v := Now();
      SubscribeToOwner(s);
      ghost var v1 := Now();
      KeptForBus(v, v1, s);
      WatchOwner(s, meanwhile);
      AskedIsStarted(v, v1, Now(), s, meanwhile);
    }

    /** Installs the internal hook of a service that has just been entered. */
    method SubscribeToOwner(s: string)
      requires s in WatchedByHook(watchedServices) && ValidWith({}, WatchedByHook(watchedServices) - {s})
      modifies this`signalHooks, this`nextNode, this`matchRefCounts, this`watchedServices, bus
      ensures Valid()
      ensures UserHooks(signalHooks) == old(UserHooks(signalHooks))
      ensures WatchesKept(DBUS_SERVICE, [])
      decreases 0, 3
    {
      hide Consistent, EntryOk, InternalEntry, Duplicate, Genuine, NodesOk, OwnersOk, UserHooks, Kept;
      ghost var w := WatchedByHook(watchedServices);
      assert MayWatch(InternalEntry(s), w - {s}, s);
      InternalEntryFor(s);
      InterfaceHasNoColon();
      var ok := ConnectSignal(Str(DBUS_SERVICE), Null, DBUS_INTERFACE, "NameOwnerChanged", [Str(s)], Null,
        Connection, SLOT_OWNER_CHANGED, [], w - {s});
    }

    /** The bus tells the connection of every change of a watched service. */
    lemma EveryWatchReports()
      requires Valid()
      ensures forall s | s in WatchedByHook(watchedServices) :: Reported(bus.rules, s)
    {
      hide Consistent, InternalEntry, EntryOk, Wanted, Genuine;
      forall s | s in WatchedByHook(watchedServices) ensures Reported(bus.rules, s) {
        WatchedRuleIsHeld(signalHooks, matchRefCounts, watchedServices, bus.rules, {}, WatchedByHook(watchedServices), s);
        WatchReports(bus.rules, s);
      }
    }

    /** Asks the bus for the present owner of a service and caches the answer. */
    method WatchOwner(s: string, meanwhile: seq<Change>)
      requires Valid() && s in WatchedByHook(watchedServices)
      requires forall i | 0 <= i < |meanwhile| :: ChangeOk(meanwhile[i])
      modifies this`watchedServices, bus`owners, bus`queue
      ensures Valid() && Asked(old(Now()), Now(), s, meanwhile)
    {
      hide Consistent, NodesOk, OwnersOk, Genuine, Elapsed, Reported, Asked;
      ghost var v := Now();
      EveryWatchReports();
      bus.Elapse(meanwhile);
      var owner := bus.GetNameOwner(s);
      CacheOwner(s, owner);
      AskingSettles(bus.rules, v, Now(), s, meanwhile);
    }

    method CacheOwner(s: string, owner: string)
      requires Valid() && s in WatchedByHook(watchedServices) && owner != DBUS_SERVICE
      modifies this`watchedServices
      ensures Valid()
      ensures watchedServices == old(watchedServices)[s := old(watchedServices)[s].(owner := owner)]
    {
      hide Consistent, NodesOk, Genuine;
      ghost var w := watchedServices;
      watchedServices := watchedServices[s := watchedServices[s].(owner := owner)];
      assert WatchedByHook(watchedServices) == WatchedByHook(w);
      OwnersDoNotCount(signalHooks, matchRefCounts, w, bus.rules, {}, WatchedByHook(w), watchedServices);
    }

    /** Subscribes unless an equal subscription exists already. */
    method ConnectSignal(service: QString, path: QString, interface: string, name: string, args: seq<QString>,
      signature: QString, receiver: Obj, midx: int, meanwhile: seq<Change>, ghost expected: set<string>)
      returns (ok: bool)
      requires var e := EntryFor(service, path, interface, name, args, signature, receiver, midx);
        ValidWith({}, expected) && MayConnect(e, expected)
      requires '\'' !in service.Text() && ':' !in interface
      requires forall i | 0 <= i < |meanwhile| :: ChangeOk(meanwhile[i])
      modifies this`signalHooks, this`nextNode, this`matchRefCounts, this`watchedServices, bus
      ensures Valid()
      ensures ok == (midx >= 0)
      ensures var e := EntryFor(service, path, interface, name, args, signature, receiver, midx);
        UserHooks(signalHooks) ==
          if receiver == Connection || midx < 0 || (exists n :: n in old(signalHooks) && Duplicate(old(signalHooks)[n], e, true))
          then old(UserHooks(signalHooks)) else old(UserHooks(signalHooks))[old(nextNode) := e]
      ensures WatchesKept(service.Text(), meanwhile)
      decreases if service.Text() == DBUS_SERVICE then 0 else 1, 2
    {
      hide Consistent, EntryOk, Duplicate, RuleText, Wanted, LastOwner, Genuine, Kept;
      NothingHappened(Now(), service.Text(), meanwhile);
      if receiver == Connection {
        ghost var watch :| MayWatch(EntryFor(service, path, interface, name, args, signature, receiver, midx), expected, watch);
        WatchHasNoDuplicate(signalHooks, matchRefCounts, watchedServices, bus.rules, expected, watch);
      }
      if midx < 0 {
        return false;
      }
      var rule := BuildMatchRule(Subscription(service.Text(), path.Text(), interface, name, args));
      var e := Entry(Key(name, interface), SignalHook(service, path, signature, receiver, midx, args, rule));
      var found, node := FindEntry(e, true);
      if found {
        return true;
      }
      EntryIsOk(service, path, interface, name, args, signature, receiver, midx);
      ConnectHook(e, meanwhile, expected);
      return true;
    }

    /** What unsubscribing does to the cached owners: some services are dropped, no other changes. */
    twostate predicate WatchesDropped()
      reads this, bus
    {
      Dropped(old(Now()), Now())
    }

    /** A hook of the application goes when every watched service has its internal hook and there are
        no others; the internal hook of a service goes right after that service has been dropped,
        while the hook that caused this is still stored. */
    ghost predicate MayDisconnect(e: Entry, zombies: set<nat>, orphans: set<string>)
      reads this
    {
      && (forall z | z in zombies :: z in signalHooks && signalHooks[z].hook.obj != Connection)
      && if e.hook.obj != Connection then zombies == {} && orphans == {}
         else exists s :: MayUnwatch(e, orphans, s)
    }

    ghost predicate MayUnwatch(e: Entry, orphans: set<string>, s: string)
      reads this
    {
      s != DBUS_SERVICE && s !in watchedServices && e == InternalEntry(s) && orphans == {s}
    }

    /** Removes a hook; the last use of a rule takes the rule off the bus, and the last rule naming a
        service takes the service and its internal hook. As for connecting, the recursion is at most
        one level deep. */
    method DisconnectHook(n: nat, ghost zombies: set<nat>, ghost orphans: set<string>)
      requires ValidWith(zombies, WatchedByHook(watchedServices) + orphans)
      requires n in signalHooks && n !in zombies && signalHooks[n].hook.matchRule != ""
      requires MayDisconnect(signalHooks[n], zombies, orphans)
      modifies this`signalHooks, this`matchRefCounts, this`watchedServices, bus`rules
      ensures ValidWith(zombies, WatchedByHook(watchedServices))
      ensures UserHooks(signalHooks) == old(UserHooks(signalHooks)) - {n}
      ensures WatchesDropped()
      decreases if signalHooks[n].hook.service.Text() == DBUS_SERVICE then 0 else 1, 2
    {
      hide Consistent, EntryOk, InternalEntry, NodesOk, OwnersOk, Genuine, UserHooks, Unwatching;
      ghost var dropped := "";
      if signalHooks[n].hook.obj == Connection {
        dropped :| MayUnwatch(signalHooks[n], orphans, dropped);
        InternalEntryService(dropped);
      }
      DiscountHook(n, zombies, orphans);
      EraseHook(n, dropped, zombies, orphans);
    }

    /** Counts one use less of the rule of a hook that is about to be erased. */
    method DiscountHook(n: nat, ghost zombies: set<nat>, ghost orphans: set<string>)
      requires ValidWith(zombies, WatchedByHook(watchedServices) + orphans)
      requires n in signalHooks && n !in zombies && signalHooks[n].hook.matchRule != ""
      requires if signalHooks[n].hook.obj != Connection then zombies == {} && orphans == {}
        else signalHooks[n].hook.service.Text() == DBUS_SERVICE
      modifies this`signalHooks, this`matchRefCounts, this`watchedServices, bus`rules
      ensures bus.Valid() && NodesOk(signalHooks, nextNode) && OwnersOk(watchedServices)
      ensures Consistent(signalHooks, matchRefCounts, watchedServices, bus.rules, zombies + {n},
        WatchedByHook(watchedServices) + orphans)
      ensures UserHooks(signalHooks) == old(UserHooks(signalHooks))
      ensures n in signalHooks && signalHooks[n] == old(signalHooks[n])
      ensures WatchesDropped()
      decreases if signalHooks[n].hook.service.Text() == DBUS_SERVICE then 0 else 1, 1
    {
      hide Consistent, EntryOk, InternalEntry, NodesOk, OwnersOk, Genuine, UserHooks, Unwatching;
      var rule := signalHooks[n].hook.matchRule;
      DiscountStep(signalHooks, nextNode, matchRefCounts, watchedServices, bus.rules, zombies,
        WatchedByHook(watchedServices) + orphans, n);
      if rule in matchRefCounts {
        if matchRefCounts[rule] == 1 {
          matchRefCounts := matchRefCounts - {rule};
          WithdrawRule(rule, signalHooks[n].hook.service.Text(), n, zombies, orphans);
        } else {
          matchRefCounts := matchRefCounts[rule := matchRefCounts[rule] - 1];
        }
      }
    }

    /** Forgets a hook that has been discounted. */
    method EraseHook(n: nat, ghost dropped: string, ghost zombies: set<nat>, ghost orphans: set<string>)
      requires bus.Valid() && NodesOk(signalHooks, nextNode) && OwnersOk(watchedServices)
      requires n in signalHooks && n !in zombies
      requires Consistent(signalHooks, matchRefCounts, watchedServices, bus.rules, zombies + {n},
        WatchedByHook(watchedServices) + orphans)
      requires if signalHooks[n].hook.obj != Connection then zombies == {} && orphans == {}
        else MayUnwatch(signalHooks[n], orphans, dropped)
      modifies this`signalHooks
      ensures ValidWith(zombies, WatchedByHook(watchedServices))
      ensures UserHooks(signalHooks) == old(UserHooks(signalHooks)) - {n}
    {
      hide Consistent, EntryOk, InternalEntry, NodesOk, OwnersOk, Genuine, UserHooks;
      if signalHooks[n].hook.obj == Connection {
        EraseWatchStep(signalHooks, nextNode, matchRefCounts, watchedServices, bus.rules, zombies, n, dropped);
      } else {
        EraseStep(signalHooks, nextNode, matchRefCounts, watchedServices, bus.rules, zombies, orphans, n);
      }
      signalHooks := signalHooks - {n};
    }

    /** Takes a rule off the bus and discounts it for the service it names. */
    method WithdrawRule(rule: string, s: string, n: nat, ghost zombies: set<nat>, ghost orphans: set<string>)
      requires bus.Valid() && NodesOk(signalHooks, nextNode) && OwnersOk(watchedServices)
      requires n in signalHooks && n !in zombies
      requires Consistent(signalHooks, matchRefCounts, Unwatching(watchedServices, s), bus.rules - multiset{rule},
        zombies + {n}, WatchedByHook(watchedServices) + orphans)
      requires s in watchedServices ==> watchedServices[s].refcount >= if s == DBUS_SERVICE then 2 else 1
      requires s != DBUS_SERVICE ==> signalHooks[n].hook.obj != Connection && zombies == {} && orphans == {}
      modifies this`signalHooks, this`matchRefCounts, this`watchedServices, bus`rules
      ensures bus.Valid() && NodesOk(signalHooks, nextNode) && OwnersOk(watchedServices)
      ensures Consistent(signalHooks, matchRefCounts, watchedServices, bus.rules, zombies + {n},
        WatchedByHook(watchedServices) + orphans)
      ensures UserHooks(signalHooks) == old(UserHooks(signalHooks))
      ensures n in signalHooks && signalHooks[n] == old(signalHooks[n])
      ensures WatchesDropped()
      ensures s == DBUS_SERVICE ==> signalHooks == old(signalHooks) && watchedServices.Keys == old(watchedServices.Keys)
      decreases if s == DBUS_SERVICE then 0 else 1, 0
    {
      hide Consistent, EntryOk, InternalEntry, NodesOk, OwnersOk, Genuine, UserHooks, Unwatching;
      ghost var h, w := signalHooks, watchedServices;
      UnwatchingEffect(w, s);
      bus.RemoveMatch(rule);
      if s in watchedServices {
        var refcount := watchedServices[s].refcount - 1;
        if refcount == 0 {
          watchedServices := watchedServices - {s};
          DropStep(w, s, n, zombies, orphans);
          StopWatching(s, n);
          assert zombies + {n} == {n} && WatchedByHook(watchedServices) + orphans == WatchedByHook(watchedServices);
        } else {
          watchedServices := watchedServices[s := watchedServices[s].(refcount := refcount)];
        }
      }
    }

    /** A service has just been dropped: its internal hook goes too, and is always found. */
    method StopWatching(s: string, n: nat)
      requires s != DBUS_SERVICE && s !in watchedServices
      requires ValidWith({n}, WatchedByHook(watchedServices) + {s})
      requires n in signalHooks && signalHooks[n].hook.obj != Connection
      modifies this`signalHooks, this`matchRefCounts, this`watchedServices, bus`rules
      ensures ValidWith({n}, WatchedByHook(watchedServices))
      ensures UserHooks(signalHooks) == old(UserHooks(signalHooks))
      ensures n in signalHooks && signalHooks[n] == old(signalHooks[n])
      ensures WatchesDropped()
      decreases 0, 4
    {
      hide Consistent, EntryOk, InternalEntry, NodesOk, OwnersOk, Genuine, UserHooks, Duplicate;
      ghost var h := signalHooks;
      InternalEntryFor(s);
      assert MayUnwatch(InternalEntry(s), {s}, s);
      var found := DisconnectSignal(Str(DBUS_SERVICE), Null, DBUS_INTERFACE, "NameOwnerChanged", [Str(s)], Null,
        Connection, SLOT_OWNER_CHANGED, {n}, {s});
      assert found;
      UserHookStays(h, signalHooks, n);
    }

    /** Unsubscribes from an equal subscription, if there is one. */
    method DisconnectSignal(service: QString, path: QString, interface: string, name: string, args: seq<QString>,
      signature: QString, receiver: Obj, midx: int, ghost zombies: set<nat>, ghost orphans: set<string>)
      returns (found: bool)
      requires ValidWith(zombies, WatchedByHook(watchedServices) + orphans)
      requires MayDisconnect(EntryFor(service, path, interface, name, args, signature, receiver, midx), zombies, orphans)
      modifies this`signalHooks, this`matchRefCounts, this`watchedServices, bus`rules
      ensures ValidWith(zombies, WatchedByHook(watchedServices))
      ensures receiver == Connection ==> found && UserHooks(signalHooks) == old(UserHooks(signalHooks))
      ensures var e := EntryFor(service, path, interface, name, args, signature, receiver, midx);
        receiver != Connection ==>
          if midx >= 0 && exists n :: n in old(signalHooks) && Duplicate(old(signalHooks)[n], e, true)
          then found && (exists n :: n in old(signalHooks) && Duplicate(old(signalHooks)[n], e, true)
                           && UserHooks(signalHooks) == old(UserHooks(signalHooks)) - {n})
          else !found && UserHooks(signalHooks) == old(UserHooks(signalHooks))
      ensures WatchesDropped()
      decreases if service.Text() == DBUS_SERVICE then 0 else 1, 3
    {
      hide Consistent, EntryOk, InternalEntry, Duplicate, NodesOk, OwnersOk, Genuine, UserHooks, RuleText;
      ghost var e0 := EntryFor(service, path, interface, name, args, signature, receiver, midx);
      ghost var h := signalHooks;
      ghost var dropped := "";
      if receiver == Connection {
        dropped :| MayUnwatch(e0, orphans, dropped);
        OrphanIsFound(signalHooks, matchRefCounts, watchedServices, bus.rules, zombies,
          WatchedByHook(watchedServices) + orphans, dropped);
      }
      if midx < 0 {
        assert WatchedByHook(watchedServices) + orphans == WatchedByHook(watchedServices);
        return false;
      }
      var rule := BuildMatchRule(Subscription(service.Text(), path.Text(), interface, name, args));
      var e := Entry(Key(name, interface), SignalHook(service, path, signature, receiver, midx, args, rule));
      assert e == e0;
      var node;
      found, node := FindEntry(e, true);
      if found {
        FoundHook(signalHooks, nextNode, node, e);
        UserHooksWithout(signalHooks, node);
        DisconnectHook(node, zombies, orphans);
      }
    }

    // ---------- what applications call ----------

    /** QDBusConnection::connect: the names are checked first. The quote-free service name this
        guarantees is what makes the rule name the service. */
    method Connect(service: QString, path: QString, interface: string, name: string, args: seq<QString>,
      signature: QString, receiver: nat, midx: int, meanwhile: seq<Change>)
      returns (ok: bool)
      requires Valid()
      requires forall i | 0 <= i < |meanwhile| :: ChangeOk(meanwhile[i])
      modifies this`signalHooks, this`nextNode, this`matchRefCounts, this`watchedServices, bus
      ensures Valid()
      ensures ok == (NamesAreValid(service, path, interface, name) && midx >= 0)
      ensures var e := EntryFor(service, path, interface, name, args, signature, Receiver(receiver), midx);
        UserHooks(signalHooks) ==
          if !ok || (exists n :: n in old(signalHooks) && Duplicate(old(signalHooks)[n], e, true))
          then old(UserHooks(signalHooks)) else old(UserHooks(signalHooks))[old(nextNode) := e]
      ensures var e := EntryFor(service, path, interface, name, args, signature, Receiver(receiver), midx);
        ok && (forall n | n in old(signalHooks) :: Differs(old(signalHooks)[n], e)) ==>
          UserHooks(signalHooks) == old(UserHooks(signalHooks))[old(nextNode) := e]
      ensures WatchesKept(service.Text(), meanwhile)
    {
      ghost var e := EntryFor(service, path, interface, name, args, signature, Receiver(receiver), midx);
      DifferentAreNoDuplicates(signalHooks, e);
      NothingHappened(Now(), service.Text(), meanwhile);
      hide Differs, IsValidInterfaceName, IsValidObjectPath, Kept, Consistent, EntryOk, InternalEntry, Duplicate, NodesOk, OwnersOk, Genuine, UserHooks,
        RuleText, LastOwner, Wanted, IsValidBusName;
      if interface == "" && name == "" {
        return false;
      }
      if interface != "" && !IsValidInterfaceName(interface) {
        return false;
      }
      if !service.IsEmpty() && !IsValidBusName(service.text) {
        return false;
      }
      if !path.IsEmpty() && !IsValidObjectPath(path.text) {
        return false;
      }
      if !service.IsEmpty() {
        BusNameHasNoQuote(service.text);
      }
      if interface != "" {
        InterfaceNameHasNoColon(interface);
      }
      ok := ConnectSignal(service, path, interface, name, args, signature, Receiver(receiver), midx, meanwhile,
        WatchedByHook(watchedServices));
    }

    /** QDBusConnection::disconnect, which does not look at the service and the path. */
    method Disconnect(service: QString, path: QString, interface: string, name: string, args: seq<QString>,
      signature: QString, receiver: nat, midx: int)
      returns (found: bool)
      requires Valid()
      modifies this`signalHooks, this`matchRefCounts, this`watchedServices, bus`rules
      ensures Valid()
      ensures var e := EntryFor(service, path, interface, name, args, signature, Receiver(receiver), midx);
        if (interface != "" || name != "") && (interface == "" || IsValidInterfaceName(interface)) && midx >= 0
           && exists n :: n in old(signalHooks) && Duplicate(old(signalHooks)[n], e, true)
        then found && (exists n :: n in old(signalHooks) && Duplicate(old(signalHooks)[n], e, true)
                         && UserHooks(signalHooks) == old(UserHooks(signalHooks)) - {n})
        else !found && UserHooks(signalHooks) == old(UserHooks(signalHooks))
      ensures WatchesDropped()
    {
      hide Consistent, EntryOk, InternalEntry, Duplicate, NodesOk, OwnersOk, Genuine, UserHooks, RuleText,
        WatchedByHook;
      if interface != "" && !IsValidInterfaceName(interface) {
        return false;
      }
      if interface == "" && name == "" {
        return false;
      }
      assert WatchedByHook(watchedServices) + {} == WatchedByHook(watchedServices);
      found := DisconnectSignal(service, path, interface, name, args, signature, Receiver(receiver), midx, {}, {});
    }

    /** Relays a signal into an interface proxy, unless one with any argument constraints exists. The
        names have been checked with the proxy. */
    method ConnectRelay(service: QString, path: QString, interface: string, name: string,
      signature: QString, receiver: nat, midx: int, minMIdx: nat, meanwhile: seq<Change>)
      requires Valid() && '\'' !in service.Text() && ':' !in interface
      requires forall i | 0 <= i < |meanwhile| :: ChangeOk(meanwhile[i])
      modifies this`signalHooks, this`nextNode, this`matchRefCounts, this`watchedServices, bus
      ensures Valid()
      ensures var e := EntryFor(service, path, interface, name, [], signature, Receiver(receiver), midx);
        UserHooks(signalHooks) ==
          if midx < minMIdx || (exists n :: n in old(signalHooks) && Duplicate(old(signalHooks)[n], e, false))
          then old(UserHooks(signalHooks)) else old(UserHooks(signalHooks))[old(nextNode) := e]
      ensures WatchesKept(service.Text(), meanwhile)
    {
      NothingHappened(Now(), service.Text(), meanwhile);
      hide Kept, Consistent, EntryOk, Duplicate, RuleText, Wanted, LastOwner, Genuine, UserHooks, NodesOk,
        OwnersOk, InternalEntry;
      if midx < minMIdx {
        return;
      }
      var rule := BuildMatchRule(Subscription(service.Text(), path.Text(), interface, name, []));
      var e := Entry(Key(name, interface), SignalHook(service, path, signature, Receiver(receiver), midx, [], rule));
      var found, node := FindEntry(e, false);
      if found {
        return;
      }
      EntryIsOk(service, path, interface, name, [], signature, Receiver(receiver), midx);
      NoLooseDuplicate(signalHooks, e);
      ConnectHook(e, meanwhile, WatchedByHook(watchedServices));
    }

    /** QDBusAbstractInterface::connectNotify: a proxy with valid names relays the signals its user
        connects to. */
    method ConnectNotify(service: QString, path: QString, interface: string, isDynamic: bool, name: string,
      signature: QString, receiver: nat, midx: int, minMIdx: nat, meanwhile: seq<Change>)
      requires Valid()
      requires forall i | 0 <= i < |meanwhile| :: ChangeOk(meanwhile[i])
      modifies this`signalHooks, this`nextNode, this`matchRefCounts, this`watchedServices, bus
      ensures Valid()
      ensures var e := EntryFor(service, path, interface, name, [], signature, Receiver(receiver), midx);
        UserHooks(signalHooks) ==
          if !ProxyIsValid(service, path, interface, isDynamic) || midx < minMIdx
             || (exists n :: n in old(signalHooks) && Duplicate(old(signalHooks)[n], e, false))
          then old(UserHooks(signalHooks)) else old(UserHooks(signalHooks))[old(nextNode) := e]
      ensures WatchesKept(service.Text(), meanwhile)
    {
      NothingHappened(Now(), service.Text(), meanwhile);
      hide Kept, Consistent, EntryOk, InternalEntry, Duplicate, NodesOk, OwnersOk, Genuine, UserHooks,
        RuleText, LastOwner, Wanted, IsValidBusName, IsValidInterfaceName;
      var valid := CheckIfValid(service, path, interface, isDynamic);
      if !valid {
        return;
      }
      if !service.IsEmpty() {
        BusNameHasNoQuote(service.text);
      }
      if interface != "" {
        InterfaceNameHasNoColon(interface);
      }
      ConnectRelay(service, path, interface, name, signature, receiver, midx, minMIdx, meanwhile);
    }

    /** QDBusAbstractInterface::disconnectNotify. */
    method DisconnectNotify(service: QString, path: QString, interface: string, isDynamic: bool, name: string,
      signature: QString, receiver: nat, midx: int, minMIdx: nat)
      requires Valid()
      modifies this`signalHooks, this`matchRefCounts, this`watchedServices, bus`rules
      ensures Valid()
      ensures var e := EntryFor(service, path, interface, name, [], signature, Receiver(receiver), midx);
        if ProxyIsValid(service, path, interface, isDynamic) && midx >= minMIdx
           && exists n :: n in old(signalHooks) && Duplicate(old(signalHooks)[n], e, false)
        then exists n :: n in old(signalHooks) && Duplicate(old(signalHooks)[n], e, false)
                         && UserHooks(signalHooks) == old(UserHooks(signalHooks)) - {n}
        else UserHooks(signalHooks) == old(UserHooks(signalHooks))
      ensures WatchesDropped()
    {
      hide Consistent, EntryOk, InternalEntry, Duplicate, NodesOk, OwnersOk, Genuine, UserHooks, RuleText;
      var valid := CheckIfValid(service, path, interface, isDynamic);
      if valid {
        DisconnectRelay(service, path, interface, name, signature, receiver, midx, minMIdx);
      }
    }

    method DisconnectRelay(service: QString, path: QString, interface: string, name: string,
      signature: QString, receiver: nat, midx: int, minMIdx: nat)
      requires Valid()
      modifies this`signalHooks, this`matchRefCounts, this`watchedServices, bus`rules
      ensures Valid()
      ensures var e := EntryFor(service, path, interface, name, [], signature, Receiver(receiver), midx);
        if midx >= minMIdx && exists n :: n in old(signalHooks) && Duplicate(old(signalHooks)[n], e, false)
        then exists n :: n in old(signalHooks) && Duplicate(old(signalHooks)[n], e, false)
                         && UserHooks(signalHooks) == old(UserHooks(signalHooks)) - {n}
        else UserHooks(signalHooks) == old(UserHooks(signalHooks))
      ensures WatchesDropped()
    {
      hide Consistent, EntryOk, InternalEntry, Duplicate, NodesOk, OwnersOk, Genuine, UserHooks, RuleText,
        WatchedByHook;
      if midx < minMIdx {
        return;
      }
      var rule := BuildMatchRule(Subscription(service.Text(), path.Text(), interface, name, []));
      var e := Entry(Key(name, interface), SignalHook(service, path, signature, Receiver(receiver), midx, [], rule));
      var found, node := FindEntry(e, false);
      if found {
        FoundRelay(signalHooks, nextNode, node, e);
        assert WatchedByHook(watchedServices) + {} == WatchedByHook(watchedServices);
        DisconnectHook(node, {}, {});
      }
    }

    /** An object of the application is gone: so are its hooks, and no others. */
    method ObjectDestroyed(receiver: nat)
      requires Valid()
      modifies this`signalHooks, this`matchRefCounts, this`watchedServices, bus`rules
      ensures Valid()
      ensures UserHooks(signalHooks) == WithoutReceiver(old(UserHooks(signalHooks)), Receiver(receiver))
      ensures WatchesDropped()
    {
      hide Consistent, EntryOk, InternalEntry, NodesOk, OwnersOk, Genuine, UserHooks, WatchedByHook, HooksOf,
        WithoutReceiver;
      var obj := Receiver(receiver);
      var todo := HooksOf(signalHooks, obj);
      while todo != {}
        invariant Valid()
        invariant todo == HooksOf(signalHooks, obj)
        invariant WithoutReceiver(UserHooks(signalHooks), obj) == WithoutReceiver(old(UserHooks(signalHooks)), obj)
        invariant WatchesDropped()
        decreases |todo|
      {
        var n :| n in todo;
        ghost var h := signalHooks;
        HookOf(h, nextNode, n, obj);
        assert WatchedByHook(watchedServices) + {} == WatchedByHook(watchedServices);
        DisconnectHook(n, {}, {});
        HooksOfAfterErase(h, signalHooks, n, obj);
        todo := todo - {n};
      }
      NothingOf(signalHooks, obj);
    }

    // ---------- incoming signals ----------

    /** Hands a signal to every hook stored under a key that accepts it: `posted` are the hooks of
        the application, each as often as it is reached. */
    method HandleKey(key: string, msg: SignalMessage) returns (posted: multiset<nat>)
      requires Valid() && Genuine(msg) && key in Keys(msg)
      modifies this`watchedServices
      ensures Valid()
      ensures watchedServices == if key == OWNER_CHANGED_KEY then Noticed(old(watchedServices), msg) else old(watchedServices)
      ensures posted == multiset(ReachedUnder(signalHooks, old(watchedServices), msg, key))
    {
      hide Consistent, NodesOk, OwnersOk, Genuine, Noticed, WatchedByHook, Keys, ReachedUnder, Key, Offered;
      ghost var w := watchedServices;
      ghost var heard;
      NoticedEffect(w, msg);
      posted, heard := OfferToAll(key, msg);
      OfferedAll(signalHooks, matchRefCounts, w, bus.rules, msg, key, heard, posted);
      OwnersDoNotCount(signalHooks, matchRefCounts, w, bus.rules, {}, WatchedByHook(w), watchedServices);
    }

    /** The loop over the hooks stored under a key. */
    method OfferToAll(key: string, msg: SignalMessage) returns (posted: multiset<nat>, ghost heard: bool)
      requires Valid() && Genuine(msg) && key in Keys(msg)
      modifies this`watchedServices
      ensures watchedServices == if heard then Noticed(old(watchedServices), msg) else old(watchedServices)
      ensures Offered(signalHooks, old(watchedServices), msg, key, {}, heard, posted)
    {
      hide Consistent, NodesOk, OwnersOk, Genuine, Accepts, Noticed, WatchedByHook, Keys, ReachedUnder, Key,
        Hears, Offered;
      ghost var w := watchedServices;
      heard := false;
      posted := multiset{};
      var todo := NodesUnder(signalHooks, key);
      OfferedFirst(signalHooks, w, msg, key);
      while todo != {}
        invariant watchedServices == if heard then Noticed(w, msg) else w
        invariant Offered(signalHooks, w, msg, key, todo, heard, posted)
        decreases |todo|
      {
        var n :| n in todo;
        ghost var before := posted;
        OfferedIsStored(signalHooks, matchRefCounts, w, bus.rules, msg, key, todo, heard, posted, n);
        var reached := HandleHook(signalHooks[n].hook, msg, w);
        if reached {
          posted := posted + multiset{n};
        }
        OfferedNext(signalHooks, w, msg, key, todo, heard, before, n);
        heard := heard || Hears(signalHooks[n].hook, w, msg);
        todo := todo - {n};
      }
    }

    /** Offers a signal to one hook. A hook of the connection acts at once, any other call is posted. */
    method HandleHook(hook: SignalHook, msg: SignalMessage, ghost w: Watched) returns (reached: bool)
      requires OwnersOk(w) && Genuine(msg)
      requires watchedServices == w || watchedServices == Noticed(w, msg)
      requires Hears(hook, w, msg) ==>
        |msg.args| == 3 && IsOwnerChange(msg, msg.args[0].text) && msg.args[0].text in w
      modifies this`watchedServices
      ensures watchedServices == if Hears(hook, w, msg) then Noticed(w, msg) else old(watchedServices)
      ensures reached == (hook.obj != Connection && Accepts(hook, w, msg))
    {
      hide OwnersOk, Genuine, Accepts;
      AcceptanceIsStable(hook, w, msg);
      reached := false;
      var wanted := IsWanted(hook, watchedServices, msg);
      if wanted {
        if hook.obj == Connection {
          if hook.midx == SLOT_OWNER_CHANGED {
            ServiceOwnerChanged(msg.args[0].text, msg.args[2].text);
          }
        } else {
          reached := true;
        }
      }
    }

    /** serviceOwnerChangedNoLock. */
    method ServiceOwnerChanged(name: string, newOwner: string)
      modifies this`watchedServices
      ensures watchedServices == if name in old(watchedServices)
        then old(watchedServices)[name := old(watchedServices)[name].(owner := newOwner)] else old(watchedServices)
    {
      if name in watchedServices {
        watchedServices := watchedServices[name := watchedServices[name].(owner := newOwner)];
      }
    }

    /** The three lookups together reach each accepting hook once, although the cached owners may
        change in between. */
    method HandleSignal(msg: SignalMessage) returns (posted: multiset<nat>)
      requires Valid() && Genuine(msg)
      modifies this`watchedServices
      ensures Valid()
      ensures watchedServices == Noticed(old(watchedServices), msg) && watchedServices.Keys == old(watchedServices.Keys)
      ensures posted == multiset(Reached(signalHooks, old(watchedServices), msg))
      ensures forall n | n in posted :: posted[n] == 1 && n in signalHooks && signalHooks[n].hook.obj != Connection
      ensures forall n | n in posted ::
        match signalHooks[n].hook.signature
        case Null => true
        case Str(signature) => signature == msg.signature
    {
      hide Consistent, NodesOk, OwnersOk, Genuine, Accepts, Noticed, UserHooks, WatchedByHook, ReachedUnder, Reached;
      ghost var w := watchedServices;
      ReachedExactly(signalHooks, w, msg);
      NoticedEffect(w, msg);
      ReachedUnderIsStable(signalHooks, w, msg);
      ReachedByKeys(signalHooks, w, msg);
      var first := HandleKey(Key(msg.member, msg.interface), msg);
      var second := HandleKey(Key(msg.member, ""), msg);
      var third := HandleKey(Key("", msg.interface), msg);
      posted := first + second + third;
    }

    /** One step of doDispatch. */
    method Dispatch() returns (posted: multiset<nat>)
      requires Valid() && bus.queue != []
      modifies this`watchedServices, bus`queue
      ensures Valid() && bus.queue == old(bus.queue)[1..]
      ensures posted == multiset(Reached(signalHooks, old(watchedServices), old(bus.queue)[0]))
      ensures watchedServices.Keys == old(watchedServices.Keys)
      ensures forall s | s in watchedServices ::
        watchedServices[s].owner == OwnerAfter(old(bus.queue)[0], s, old(watchedServices)[s].owner)
      ensures forall s | s in watchedServices :: Now().Settles(s) <==> old(Now().Settles(s))
    {
      hide Consistent, NodesOk, Genuine, Accepts, UserHooks, WatchedByHook, Reached, Noticed, OwnersOk;
      var msg := bus.TakeFirst();
      posted := HandleSignal(msg);
      forall s | s in watchedServices
        ensures watchedServices[s].owner == OwnerAfter(msg, s, old(watchedServices)[s].owner)
      {
        NoticedAt(old(watchedServices), msg, s);
      }
    }

    /** doDispatch: when the queue is empty, the caches that were bound to settle are right, and no others. */
    method DispatchAll()
      requires Valid()
      modifies this`watchedServices, bus`queue
      ensures Valid() && bus.queue == []
      ensures watchedServices.Keys == old(watchedServices.Keys)
      ensures forall s | s in watchedServices :: old(Now().Settles(s)) <==> watchedServices[s].owner == Owner(bus.owners, s)
    {
      hide Consistent, NodesOk, OwnersOk, Genuine, UserHooks;
      while bus.queue != []
        invariant Valid() && watchedServices.Keys == old(watchedServices.Keys)
        invariant forall s | s in watchedServices :: Now().Settles(s) <==> old(Now().Settles(s))
        decreases |bus.queue|
      {
        var posted := Dispatch();
      }
      assert forall s | s in watchedServices :: Now().Settles(s) <==> watchedServices[s].owner == Owner(bus.owners, s);
    }
  }

  // ---------- the steps of disconnecting ----------

  lemma DiscountStep(
    hooks: Hooks, next: nat, counts: Counts, watched: Watched, rules: multiset<string>,
    zombies: set<nat>, expected: set<string>, n: nat)
    requires Consistent(hooks, counts, watched, rules, zombies, expected) && NodesOk(hooks, next)
    requires n in hooks && n !in zombies && hooks[n].hook.matchRule != ""
    ensures var rule, s := hooks[n].hook.matchRule, hooks[n].hook.service.Text();
      && rule in counts && counts[rule] >= 1
      && (counts[rule] > 1 ==>
            Consistent(hooks, counts[rule := counts[rule] - 1], watched, rules, zombies + {n}, expected))
      && (counts[rule] == 1 ==>
            && Consistent(hooks, counts - {rule}, Unwatching(watched, s), rules - multiset{rule}, zombies + {n}, expected)
            && (s in watched ==> watched[s].refcount >= if s == DBUS_SERVICE then 2 else 1))
  {
    hide NamedSender, RuleText, NoDuplicates, InternalOk, CountsOk;
    var rule, s := hooks[n].hook.matchRule, hooks[n].hook.service.Text();
    assert EntryOk(hooks[n]);
    DiscountOneUse(hooks, counts, watched, rules, zombies, expected, n);
    BusStaysWatched(counts, watched);
    assert WatchedOkAt(counts, watched, s);
    if counts[rule] == 1 {
      DiscountLastUse(hooks, counts, watched, rules, zombies, expected, n, s);
      assert rule in RulesNaming(counts, s);
    }
  }

  lemma EraseStep(
    hooks: Hooks, next: nat, counts: Counts, watched: Watched, rules: multiset<string>,
    zombies: set<nat>, orphans: set<string>, n: nat)
    requires zombies == {} && orphans == {} && NodesOk(hooks, next)
    requires Consistent(hooks, counts, watched, rules, zombies + {n}, WatchedByHook(watched) + orphans)
    requires n in hooks && hooks[n].hook.obj != Connection
    ensures Consistent(hooks - {n}, counts, watched, rules, zombies, WatchedByHook(watched))
    ensures NodesOk(hooks - {n}, next) && UserHooks(hooks - {n}) == UserHooks(hooks) - {n}
  {
    var expected := WatchedByHook(watched);
    assert expected + orphans == expected;
    InternalAfterErase(hooks, expected, n);
    NodesOkAfterErase(hooks, next, n);
    UserHooksAfterErase(hooks, n);
    EraseDiscounted(hooks, counts, watched, rules, zombies, n, expected, expected);
  }

  lemma UserHooksAfterErase(hooks: Hooks, n: nat)
    ensures UserHooks(hooks - {n}) == UserHooks(hooks) - {n}
  {}

  lemma DropStep(watched: Watched, s: string, n: nat, zombies: set<nat>, orphans: set<string>)
    requires OwnersOk(watched) && s in watched && s != DBUS_SERVICE
    requires zombies == {} && orphans == {}
    ensures OwnersOk(watched - {s}) && zombies + {n} == {n}
    ensures WatchedByHook(watched) + orphans == WatchedByHook(watched - {s}) + {s}
    ensures WatchedByHook(watched - {s}) + orphans == WatchedByHook(watched - {s})
  {}

  lemma EraseWatchStep(
    hooks: Hooks, next: nat, counts: Counts, watched: Watched, rules: multiset<string>,
    zombies: set<nat>, n: nat, s: string)
    requires Consistent(hooks, counts, watched, rules, zombies + {n}, WatchedByHook(watched) + {s}) && NodesOk(hooks, next)
    requires n in hooks && n !in zombies && hooks[n] == InternalEntry(s) && s !in watched
    ensures Consistent(hooks - {n}, counts, watched, rules, zombies, WatchedByHook(watched)) && NodesOk(hooks - {n}, next)
    ensures UserHooks(hooks - {n}) == UserHooks(hooks) == UserHooks(hooks) - {n}
  {
    var expected := WatchedByHook(watched) + {s};
    InternalAfterUnwatch(hooks, expected, n, s);
    assert expected - {s} == WatchedByHook(watched);
    InternalIsNoUserHook(hooks, n, s);
    NodesOkAfterErase(hooks, next, n);
    EraseDiscounted(hooks, counts, watched, rules, zombies, n, expected, WatchedByHook(watched));
  }

  lemma InternalIsNoUserHook(hooks: Hooks, n: nat, s: string)
    requires n in hooks && hooks[n] == InternalEntry(s)
    ensures UserHooks(hooks - {n}) == UserHooks(hooks) == UserHooks(hooks) - {n}
  {
    InternalEntryService(s);
    UserHooksWithout(hooks, n);
  }

  lemma NodesOkAfterErase(hooks: Hooks, next: nat, n: nat)
    requires NodesOk(hooks, next)
    ensures NodesOk(hooks - {n}, next)
  {}

  lemma UnwatchingEffect(watched: Watched, s: string)
    ensures s !in watched ==> Unwatching(watched, s) == watched
    ensures s in watched && watched[s].refcount <= 1 ==> Unwatching(watched, s) == watched - {s}
    ensures s in watched && watched[s].refcount <= 1 && s != DBUS_SERVICE ==>
      WatchedByHook(watched) == WatchedByHook(watched - {s}) + {s}
    ensures s in watched && watched[s].refcount > 1 ==>
      Unwatching(watched, s) == watched[s := watched[s].(refcount := watched[s].refcount - 1)]
    ensures s in watched && watched[s].refcount > 1 ==>
      (OwnersOk(watched) ==> OwnersOk(Unwatching(watched, s)))
      && Unwatching(watched, s).Keys == watched.Keys
  {}

  lemma UserHookStays(before: Hooks, after: Hooks, n: nat)
    requires UserHooks(before) == UserHooks(after) && n in before && before[n].hook.obj != Connection
    ensures n in after && after[n] == before[n]
  {
    assert UserHooks(before)[n] == UserHooks(after)[n];
  }

  lemma UserHooksWithout(hooks: Hooks, n: nat)
    ensures n in hooks && hooks[n].hook.obj == Connection ==> UserHooks(hooks) - {n} == UserHooks(hooks)
  {}

  lemma InternalEntryService(s: string)
    ensures InternalEntry(s).hook.service.Text() == DBUS_SERVICE && InternalEntry(s).hook.obj == Connection
  {}

  /** The internal hook of a dropped service is still there to be found, and nothing else looks like it. */
  lemma OrphanIsFound(
    hooks: Hooks, counts: Counts, watched: Watched, rules: multiset<string>,
    zombies: set<nat>, expected: set<string>, s: string)
    requires Consistent(hooks, counts, watched, rules, zombies, expected) && s in expected
    ensures exists n :: n in hooks && Duplicate(hooks[n], InternalEntry(s), true)
    ensures forall n | n in hooks && Duplicate(hooks[n], InternalEntry(s), true) :: hooks[n] == InternalEntry(s)
    ensures InternalEntry(s).hook.midx >= 0
  {
    var e := InternalEntry(s);
    assert e.hook.argumentMatch == [Str(s)];
    var internal := InternalNodes(hooks, s);
    assert internal != {};
    var n :| n in internal;
    assert Duplicate(hooks[n], e, true);
    forall m | m in hooks && hooks[m] != e ensures !Duplicate(hooks[m], e, true) {
      if hooks[m].hook.obj == Connection && hooks[m] !in INITIAL_ENTRIES {
        var t :| t in expected && hooks[m] == InternalEntry(t);
        assert hooks[m].hook.argumentMatch == [Str(t)];
        assert !Str(t).Same(Str(s));
      }
    }
  }

  /** What the search found has a rule and the receiver that was asked for. */
  lemma FoundHook(hooks: Hooks, next: nat, n: nat, e: Entry)
    requires NodesOk(hooks, next) && n in hooks && Duplicate(hooks[n], e, true)
    ensures hooks[n].hook.obj == e.hook.obj && hooks[n].hook.service.Text() == e.hook.service.Text()
    ensures e.hook.obj != Connection ==> hooks[n].hook.matchRule != ""
    ensures forall s | e == InternalEntry(s) && hooks[n] == e :: hooks[n].hook.matchRule != ""
  {
    hide NamedSender, RuleText;
    assert EntryOk(hooks[n]);
    forall s | e == InternalEntry(s) && hooks[n] == e ensures hooks[n].hook.matchRule != "" {
      RuleNamesService(OwnerChangedSubscription(s));
    }
  }

  /** The two outcomes of storing a hook of the application: one more use of a rule, or a new rule. */
  lemma ConnectStep(
    hooks: Hooks, counts: Counts, watched: Watched, rules: multiset<string>, expected: set<string>,
    n: nat, e: Entry)
    requires Consistent(hooks, counts, watched, rules, {}, expected)
    requires n !in hooks && e.hook.matchRule != "" && EntryOk(e)
    requires forall m | m in hooks :: !Duplicate(hooks[m], e, true)
    ensures var s := e.hook.service.Text();
      && (ShouldWatchService(s) && e.hook.matchRule !in counts ==>
            (Watching(watched, s)[s].refcount == 1 <==> s !in watched))
      && (s == DBUS_SERVICE ==> s in watched)
      && (e.hook.obj != Connection ==>
            var rule := e.hook.matchRule;
            && (rule in counts ==>
                  Consistent(hooks[n := e], Incremented(counts, rule), watched, rules, {}, expected))
            && (rule !in counts ==>
                  Consistent(hooks[n := e], counts[rule := 1], Watching(watched, s), rules + multiset{rule}, {}, expected)))
  {
    var s := e.hook.service.Text();
    BusStaysWatched(counts, watched);
    assert WatchedOkAt(counts, watched, s);
    if e.hook.obj != Connection {
      NoDuplicatesAfterConnect(hooks, n, e);
      InternalAfterUser(hooks, expected, n, e);
      if e.hook.matchRule in counts {
        ConnectAnotherUse(hooks, counts, watched, rules, expected, n, e, expected);
      } else {
        ConnectNewRule(hooks, counts, watched, rules, expected, n, e, s, expected);
      }
    }
  }

  /** The same for the internal hook of a service that has none yet. */
  lemma ConnectWatchStep(
    hooks: Hooks, counts: Counts, watched: Watched, rules: multiset<string>, all: set<string>,
    n: nat, service: string)
    requires service in all && Consistent(hooks, counts, watched, rules, {}, all - {service})
    requires n !in hooks
    ensures InternalEntry(service).hook.service == Str(DBUS_SERVICE)
    ensures var e := InternalEntry(service);
      var rule := e.hook.matchRule;
      && (rule in counts ==>
            Consistent(hooks[n := e], Incremented(counts, rule), watched, rules, {}, all))
      && (rule !in counts ==>
            Consistent(hooks[n := e], counts[rule := 1], Watching(watched, DBUS_SERVICE), rules + multiset{rule}, {}, all))
  {
    hide NamedSender, RuleText;
    var e := InternalEntry(service);
    RuleNamesService(OwnerChangedSubscription(service));
    WatchIsNoDuplicate(hooks, all - {service}, service);
    NoDuplicatesAfterConnect(hooks, n, e);
    InternalAfterWatch(hooks, all - {service}, n, service);
    assert (all - {service}) + {service} == all;
    if e.hook.matchRule in counts {
      ConnectAnotherUse(hooks, counts, watched, rules, all - {service}, n, e, all);
    } else {
      ConnectNewRule(hooks, counts, watched, rules, all - {service}, n, e, DBUS_SERVICE, all);
    }
  }

  lemma InternalEntryFor(s: string)
    ensures InternalEntry(s) == EntryFor(Str(DBUS_SERVICE), Null, DBUS_INTERFACE, "NameOwnerChanged", [Str(s)], Null,
      Connection, SLOT_OWNER_CHANGED)
    ensures '\'' !in DBUS_SERVICE
  {}

  function EnterService(watched: Watched, s: string): Watched {
    var data := if s in watched then watched[s] else WatchedService("", 0);
    watched[s := data.(refcount := data.refcount + 1)]
  }

  lemma WatchingEffect(watched: Watched, s: string)
    ensures ShouldWatchService(s) ==> Watching(watched, s) == EnterService(watched, s)
    ensures !ShouldWatchService(s) ==> Watching(watched, s) == watched
    ensures s in watched || !ShouldWatchService(s) ==> WatchedByHook(Watching(watched, s)) == WatchedByHook(watched)
    ensures s != DBUS_SERVICE && s !in watched && ShouldWatchService(s) ==>
      s in WatchedByHook(Watching(watched, s)) && WatchedByHook(Watching(watched, s)) - {s} == WatchedByHook(watched)
    ensures OwnersOk(watched) && '\'' !in s ==> OwnersOk(Watching(watched, s))
  {}

  lemma NodesOkAfterAdd(hooks: Hooks, n: nat, e: Entry)
    requires NodesOk(hooks, n) && EntryOk(e)
    ensures n !in hooks && NodesOk(hooks[n := e], n + 1)
  {}

  lemma UserHooksAfterAdd(hooks: Hooks, n: nat, e: Entry)
    requires n !in hooks
    ensures UserHooks(hooks[n := e]) == if e.hook.obj == Connection then UserHooks(hooks) else UserHooks(hooks)[n := e]
  {}

  /** Every watched service other than the bus has its owner-change rule on the bus. */
  lemma WatchedRuleIsHeld(
    hooks: Hooks, counts: Counts, watched: Watched, rules: multiset<string>,
    zombies: set<nat>, expected: set<string>, s: string)
    requires Consistent(hooks, counts, watched, rules, zombies, expected)
    requires s in expected && s != DBUS_SERVICE && '\'' !in s
    requires forall n | n in zombies :: hooks[n].hook.obj != Connection
    ensures InternalEntry(s).hook.matchRule in rules
  {
    hide NamedSender, RuleText;
    var rule := InternalEntry(s).hook.matchRule;
    var internal := InternalNodes(hooks, s);
    assert internal != {};
    var n :| n in internal;
    var live := hooks - zombies;
    assert n in HooksWithRule(live, rule);
    RuleNamesService(OwnerChangedSubscription(s));
    assert rule in counts;
    OwnerRulesDiffer(s);
  }

  /** A service without its internal hook has nothing like it. */
  lemma WatchIsNoDuplicate(hooks: Hooks, expected: set<string>, s: string)
    requires InternalOk(hooks, expected) && s !in expected
    ensures forall n | n in hooks :: !Duplicate(hooks[n], InternalEntry(s), true)
  {
    var e := InternalEntry(s);
    assert e.hook.argumentMatch == [Str(s)];
    forall n | n in hooks ensures !Duplicate(hooks[n], e, true) {
      if hooks[n].hook.obj == Connection && hooks[n] !in INITIAL_ENTRIES {
        var t :| t in expected && hooks[n] == InternalEntry(t);
        assert hooks[n].hook.argumentMatch == [Str(t)] && !Str(t).Same(Str(s));
      }
    }
  }

  lemma WatchHasNoDuplicate(
    hooks: Hooks, counts: Counts, watched: Watched, rules: multiset<string>, expected: set<string>, s: string)
    requires Consistent(hooks, counts, watched, rules, {}, expected) && s !in expected
    ensures forall n | n in hooks :: !Duplicate(hooks[n], InternalEntry(s), true)
  {
    WatchIsNoDuplicate(hooks, expected, s);
  }

  lemma EntryIsOk(service: QString, path: QString, interface: string, name: string,
    args: seq<QString>, signature: QString, receiver: Obj, midx: int)
    requires '\'' !in service.Text() && ':' !in interface
    ensures var e := EntryFor(service, path, interface, name, args, signature, receiver, midx);
      EntryOk(e) && e.hook.matchRule != ""
  {
    hide NamedSender, RuleText;
    var sub := Subscription(service.Text(), path.Text(), interface, name, args);
    RuleNamesService(sub);
    assert PreparedFor(EntryFor(service, path, interface, name, args, signature, receiver, midx), sub);
  }

  lemma OwnerRulesDiffer(s: string)
    requires s != DBUS_SERVICE && '\'' !in s
    ensures InternalEntry(s).hook.matchRule != PREPOPULATED_RULE
  {
    var a, b := OwnerChangedSubscription(s), OwnerChangedSubscription(DBUS_SERVICE);
    RulesShared(a, b);
    assert ArgAt(a.args, 0) != ArgAt(b.args, 0);
  }

  /** Cached owners are not part of the counting. */
  lemma OwnersDoNotCount(
    hooks: Hooks, counts: Counts, watched: Watched, rules: multiset<string>,
    zombies: set<nat>, expected: set<string>, watched': Watched)
    requires Consistent(hooks, counts, watched, rules, zombies, expected)
    requires watched.Keys == watched'.Keys
    requires forall s | s in watched :: watched'[s].refcount == watched[s].refcount
    ensures Consistent(hooks, counts, watched', rules, zombies, expected)
  {
    forall s ensures WatchedOkAt(counts, watched', s) {
      assert WatchedOkAt(counts, watched, s);
      assert s in watched <==> s in watched.Keys;
    }
  }

  lemma InitialCounts(hooks: Hooks)
    requires forall n | n in hooks :: hooks[n].hook.matchRule == ""
    ensures CountsOk(hooks, map[PREPOPULATED_RULE := 1]) && PREPOPULATED_RULE != ""
  {
    RuleNamesService(OwnerChangedSubscription(DBUS_SERVICE));
    forall r | r != "" ensures Uses(hooks, r) == if r == PREPOPULATED_RULE then 1 else 0 {
      assert HooksWithRule(hooks, r) == {};
    }
  }

  lemma InitialWatch(watched: Watched)
    requires watched.Keys == {DBUS_SERVICE} && watched[DBUS_SERVICE].refcount == 1
    ensures WatchedOk(map[PREPOPULATED_RULE := 1], watched)
  {
    var none: Counts := map[];
    RuleNamesService(OwnerChangedSubscription(DBUS_SERVICE));
    forall s ensures WatchedOkAt(none, map[], s) {
      assert RulesNaming(none, s) == {};
    }
    WatchedAfterNewRule(none, map[], PREPOPULATED_RULE, DBUS_SERVICE);
    var counts := none[PREPOPULATED_RULE := 1];
    forall s ensures WatchedOkAt(counts, watched, s) {
      assert WatchedOkAt(counts, Watching(map[], DBUS_SERVICE), s);
    }
  }

  lemma InitialState(hooks: Hooks, watched: Watched)
    requires hooks == map[0 := INITIAL_ENTRIES[0], 1 := INITIAL_ENTRIES[1]]
    requires watched == map[DBUS_SERVICE := WatchedService(DBUS_SERVICE, 1)]
    ensures Consistent(hooks, map[PREPOPULATED_RULE := 1], watched, multiset{}, {}, WatchedByHook(watched))
    ensures NodesOk(hooks, 2) && OwnersOk(watched) && UserHooks(hooks) == map[] && WatchedByHook(watched) == {}
  {
    hide RuleText, CountsOk, WatchedOk, InternalOk, NamedSender;
    assert hooks - {} == hooks && WatchedByHook(watched) == {};
    InitialCounts(hooks);
    InitialWatch(watched);
    InitialHooks(hooks);
    assert map[PREPOPULATED_RULE := 1].Keys - {PREPOPULATED_RULE} == {};
  }

  lemma InitialHooks(hooks: Hooks)
    requires hooks == map[0 := INITIAL_ENTRIES[0], 1 := INITIAL_ENTRIES[1]]
    ensures InternalOk(hooks, {}) && NoDuplicates(hooks) && NodesOk(hooks, 2) && UserHooks(hooks) == map[]
  {}

  // ---------- applications ----------

  predicate NamesAreValid(service: QString, path: QString, interface: string, name: string) {
    && !(interface == "" && name == "")
    && (interface != "" ==> IsValidInterfaceName(interface))
    && (!service.IsEmpty() ==> IsValidBusName(service.text))
    && (!path.IsEmpty() ==> IsValidObjectPath(path.text))
  }

  /** checkIfValid. */
  method CheckIfValid(service: QString, path: QString, interface: string, isDynamic: bool) returns (valid: bool)
    ensures valid == ProxyIsValid(service, path, interface, isDynamic)
  {
    if service.IsEmpty() {
      if isDynamic {
        return false;
      }
    } else if !IsValidBusName(service.text) {
      return false;
    }
    if path.IsEmpty() {
      if isDynamic {
        return false;
      }
    } else if !IsValidObjectPath(path.text) {
      return false;
    }
    if interface != "" && !IsValidInterfaceName(interface) {
      return false;
    }
    return true;
  }

  /** Dynamic proxies need a service and a path; an empty interface stands for all. */
  predicate ProxyIsValid(service: QString, path: QString, interface: string, isDynamic: bool) {
    && (if service.IsEmpty() then !isDynamic else IsValidBusName(service.text))
    && (if path.IsEmpty() then !isDynamic else IsValidObjectPath(path.text))
    && (interface == "" || IsValidInterfaceName(interface))
  }

  /** Two subscriptions differ in member or interface, receiver, slot, service, path, signature or
      arguments, where null is the same as empty. */
  predicate Differs(a: Entry, b: Entry) {
    || a.key != b.key || a.hook.obj != b.hook.obj || a.hook.midx != b.hook.midx
    || (a.hook.service != b.hook.service && !(a.hook.service in [Null, Str("")] && b.hook.service in [Null, Str("")]))
    || (a.hook.path != b.hook.path && !(a.hook.path in [Null, Str("")] && b.hook.path in [Null, Str("")]))
    || (a.hook.signature != b.hook.signature && !(a.hook.signature in [Null, Str("")] && b.hook.signature in [Null, Str("")]))
    || DifferIn(a.hook.argumentMatch, b.hook.argumentMatch)
  }

  predicate DifferIn(a: seq<QString>, b: seq<QString>) {
    |a| != |b| || exists i :: 0 <= i < |a| && a[i] != b[i] && !(a[i] in [Null, Str("")] && b[i] in [Null, Str("")])
  }

  /** Whatever differs is no duplicate, and the other way round. */
  lemma DuplicateExactly(a: Entry, b: Entry)
    ensures Duplicate(a, b, true) <==> !Differs(a, b)
  {}

  lemma DifferentAreNoDuplicates(hooks: Hooks, e: Entry)
    ensures forall n | n in hooks && Differs(hooks[n], e) :: !Duplicate(hooks[n], e, true)
  {
    forall n | n in hooks && Differs(hooks[n], e) ensures !Duplicate(hooks[n], e, true) {
      DuplicateExactly(hooks[n], e);
    }
  }

  /** Asking for an empty argument is taken for a duplicate of not asking for one, although it would need
      another rule. */
  lemma EmptyTakenForNull(service: QString, path: QString, interface: string, name: string,
    signature: QString, receiver: Obj, midx: int)
    requires QuoteFree(Subscription(service.Text(), path.Text(), interface, name, []))
    ensures var any := EntryFor(service, path, interface, name, [Null], signature, receiver, midx);
      var empty := EntryFor(service, path, interface, name, [Str("")], signature, receiver, midx);
      Duplicate(any, empty, true) && any.hook.matchRule != empty.hook.matchRule
  {
    hide RuleText;
    var any := Subscription(service.Text(), path.Text(), interface, name, [Null]);
    var empty := any.(args := [Str("")]);
    RulesShared(any, empty);
    assert ArgAt(any.args, 0) != ArgAt(empty.args, 0);
  }

  lemma NoLooseDuplicate(hooks: Hooks, e: Entry)
    requires forall n | n in hooks :: !Duplicate(hooks[n], e, false)
    ensures forall n | n in hooks :: !Duplicate(hooks[n], e, true)
  {}

  lemma FoundRelay(hooks: Hooks, next: nat, n: nat, e: Entry)
    requires NodesOk(hooks, next) && n in hooks && Duplicate(hooks[n], e, false) && e.hook.obj != Connection
    ensures hooks[n].hook.obj != Connection && hooks[n].hook.matchRule != ""
  {
    hide NamedSender;
    assert EntryOk(hooks[n]);
  }

  function HooksOf(hooks: Hooks, obj: Obj): set<nat> {
    set n | n in hooks && hooks[n].hook.obj == obj
  }

  function WithoutReceiver(hooks: Hooks, obj: Obj): Hooks {
    map n | n in hooks && hooks[n].hook.obj != obj :: hooks[n]
  }

  lemma HookOf(hooks: Hooks, next: nat, n: nat, obj: Obj)
    requires NodesOk(hooks, next) && n in HooksOf(hooks, obj) && obj != Connection
    ensures n in hooks && hooks[n].hook.obj == obj && hooks[n].hook.matchRule != ""
  {
    hide NamedSender;
    assert EntryOk(hooks[n]);
  }

  lemma HooksOfAfterErase(before: Hooks, after: Hooks, n: nat, obj: Obj)
    requires UserHooks(after) == UserHooks(before) - {n} && n in HooksOf(before, obj) && obj != Connection
    ensures HooksOf(after, obj) == HooksOf(before, obj) - {n}
    ensures WithoutReceiver(UserHooks(after), obj) == WithoutReceiver(UserHooks(before), obj)
  {
    assert HooksOf(after, obj) == HooksOf(UserHooks(after), obj);
    assert HooksOf(before, obj) == HooksOf(UserHooks(before), obj);
  }

  lemma NothingOf(hooks: Hooks, obj: Obj)
    requires HooksOf(hooks, obj) == {}
    ensures WithoutReceiver(UserHooks(hooks), obj) == UserHooks(hooks)
  {
    forall n | n in hooks ensures hooks[n].hook.obj != obj {
      assert n !in HooksOf(hooks, obj);
    }
  }

  // ---------- incoming signals ----------

  /** What a genuine change of an owner does to the cache. */
  function Noticed(watched: Watched, msg: SignalMessage): Watched {
    if |msg.args| == 3 && IsOwnerChange(msg, msg.args[0].text) && msg.args[0].text in watched
    then watched[msg.args[0].text := watched[msg.args[0].text].(owner := msg.args[2].text)]
    else watched
  }

  /** The hooks of the application that a signal reaches under one key, and under all three. */
  function ReachedUnder(hooks: Hooks, watched: Watched, msg: SignalMessage, key: string): set<nat> {
    set n | n in hooks && hooks[n].key == key && hooks[n].hook.obj != Connection && Accepts(hooks[n].hook, watched, msg)
  }

  function Reached(hooks: Hooks, watched: Watched, msg: SignalMessage): set<nat> {
    set n | n in hooks && hooks[n].key in Keys(msg) && hooks[n].hook.obj != Connection && Accepts(hooks[n].hook, watched, msg)
  }

  /** In plain words: a signal reaches the hooks of the application for its member and interface, or for
      one of them and any other, that accept it. */
  lemma ReachedExactly(hooks: Hooks, watched: Watched, msg: SignalMessage)
    ensures forall n :: n in Reached(hooks, watched, msg) <==>
      n in hooks && hooks[n].hook.obj != Connection && Accepts(hooks[n].hook, watched, msg)
      && (hooks[n].key == msg.member + ":" + msg.interface || hooks[n].key == msg.member + ":"
          || hooks[n].key == ":" + msg.interface)
    ensures forall n | n in Reached(hooks, watched, msg) ::
      match hooks[n].hook.signature
      case Null => true
      case Str(signature) => signature == msg.signature
  {
    assert msg.member + ":" + "" == msg.member + ":" && "" + ":" + msg.interface == ":" + msg.interface;
    forall n | n in hooks && Accepts(hooks[n].hook, watched, msg)
      ensures hooks[n].hook.signature.Null? || hooks[n].hook.signature.text == msg.signature
    {
      AcceptedExactly(hooks[n].hook, watched, msg);
    }
  }

  predicate Hears(hook: SignalHook, watched: Watched, msg: SignalMessage) {
    hook.obj == Connection && hook.midx == SLOT_OWNER_CHANGED && Accepts(hook, watched, msg)
  }

  lemma NoticedAt(watched: Watched, msg: SignalMessage, s: string)
    requires s in watched
    ensures s in Noticed(watched, msg)
    ensures Noticed(watched, msg)[s].owner == OwnerAfter(msg, s, watched[s].owner)
  {
    if IsOwnerChange(msg, s) {
      assert msg.args[0] == OwnerChanged(s, msg.args[1].text, msg.args[2].text).args[0];
    }
  }

  lemma NoticedEffect(watched: Watched, msg: SignalMessage)
    requires OwnersOk(watched) && Genuine(msg)
    ensures OwnersOk(Noticed(watched, msg)) && Noticed(watched, msg).Keys == watched.Keys
    ensures forall s | s in watched :: Noticed(watched, msg)[s].refcount == watched[s].refcount
    ensures Noticed(Noticed(watched, msg), msg) == Noticed(watched, msg)
    ensures Key(msg.member, msg.interface) != OWNER_CHANGED_KEY ==> Noticed(watched, msg) == watched
    ensures WatchedByHook(Noticed(watched, msg)) == WatchedByHook(watched)
  {}

  /** The owner of no service but the bus is the bus, so its own signals do not change who accepts them. */
  lemma AcceptanceIsStable(hook: SignalHook, watched: Watched, msg: SignalMessage)
    requires OwnersOk(watched) && Genuine(msg)
    ensures Accepts(hook, Noticed(watched, msg), msg) == Accepts(hook, watched, msg)
  {
    hide ArgumentsMatch, SignatureMatches;
    var noticed := Noticed(watched, msg);
    if noticed != watched && !hook.service.IsEmpty() {
      var s := hook.service.text;
      assert msg.service == DBUS_SERVICE;
      if ShouldWatchService(s) && s in watched && s != DBUS_SERVICE {
        NoticedAt(watched, msg, s);
        NoticedEffect(watched, msg);
      }
    }
  }

  /** The watch that hears a signal is the one of the name that changed hands. */
  lemma WatchHears(hooks: Hooks, counts: Counts, watched: Watched, rules: multiset<string>, msg: SignalMessage, n: nat)
    requires Consistent(hooks, counts, watched, rules, {}, WatchedByHook(watched)) && OwnersOk(watched)
    requires Genuine(msg) && n in hooks && hooks[n].key in Keys(msg)
    requires Hears(hooks[n].hook, watched, msg)
    ensures |msg.args| == 3 && IsOwnerChange(msg, msg.args[0].text) && msg.args[0].text in watched
    ensures hooks[n].key == OWNER_CHANGED_KEY
  {
    hide CountsOk, WatchedOk, NoDuplicates, RuleText;
    var s :| s in WatchedByHook(watched) && hooks[n] == InternalEntry(s);
    var hook := hooks[n].hook;
    assert hook.service.text == DBUS_SERVICE && hook.argumentMatch == [Str(s)];
    assert hook.argumentMatch[0] == Str(s);
    assert msg.service == DBUS_SERVICE && msg.args[0].text == s;
    if |msg.args| != 3 {
      OwnerChangedHasItsOwnKey(msg);
    }
  }

  lemma OwnerChangedHasItsOwnKey(msg: SignalMessage)
    requires msg.interface == DBUS_INTERFACE && msg.member in ["NameAcquired", "NameLost"]
    ensures OWNER_CHANGED_KEY !in Keys(msg)
  {
    InterfaceHasNoColon();
    KeyReached("NameOwnerChanged", DBUS_INTERFACE, msg);
  }

  /** When a watched name changes hands, its watch hears of it. */
  lemma NobodyHeard(hooks: Hooks, counts: Counts, watched: Watched, rules: multiset<string>,
    msg: SignalMessage, done: set<nat>)
    requires Consistent(hooks, counts, watched, rules, {}, WatchedByHook(watched)) && OwnersOk(watched) && Genuine(msg)
    requires done == set n | n in hooks && hooks[n].key == OWNER_CHANGED_KEY
    requires forall n | n in done :: !Hears(hooks[n].hook, watched, msg)
    ensures Noticed(watched, msg) == watched
  {
    hide CountsOk, WatchedOk, NoDuplicates, RuleText;
    if |msg.args| == 3 && IsOwnerChange(msg, msg.args[0].text) && msg.args[0].text in watched {
      var s := msg.args[0].text;
      assert s in WatchedByHook(watched);
      var internal := InternalNodes(hooks, s);
      assert internal != {};
      var n :| n in internal;
      assert n in done;
      WatchAccepts(watched, msg, s);
    }
  }

  lemma WatchAccepts(watched: Watched, msg: SignalMessage, s: string)
    requires OwnersOk(watched) && IsOwnerChange(msg, s)
    ensures Accepts(InternalEntry(s).hook, watched, msg) && InternalEntry(s).key == OWNER_CHANGED_KEY
  {
    var hook := InternalEntry(s).hook;
    assert hook.argumentMatch == [Str(s)] && msg.args[0].text == s;
    assert ArgumentsMatch(hook.argumentMatch, msg.args);
  }

  function NodesUnder(hooks: Hooks, key: string): set<nat> {
    set n | n in hooks && hooks[n].key == key
  }

  /** The hooks under a key that are not in `todo` have been offered the signal. */
  ghost predicate Offered(hooks: Hooks, watched: Watched, msg: SignalMessage, key: string,
    todo: set<nat>, heard: bool, posted: multiset<nat>)
  {
    && todo <= NodesUnder(hooks, key)
    && (heard <==> exists n :: n in NodesUnder(hooks, key) - todo && Hears(hooks[n].hook, watched, msg))
    && posted == multiset(ReachedUnder(hooks, watched, msg, key) - todo)
  }

  lemma OfferedFirst(hooks: Hooks, watched: Watched, msg: SignalMessage, key: string)
    ensures Offered(hooks, watched, msg, key, NodesUnder(hooks, key), false, multiset{})
  {
    assert ReachedUnder(hooks, watched, msg, key) - NodesUnder(hooks, key) == {};
  }

  lemma OfferedIsStored(hooks: Hooks, counts: Counts, watched: Watched, rules: multiset<string>, msg: SignalMessage,
    key: string, todo: set<nat>, heard: bool, posted: multiset<nat>, n: nat)
    requires Consistent(hooks, counts, watched, rules, {}, WatchedByHook(watched)) && OwnersOk(watched) && Genuine(msg)
    requires Offered(hooks, watched, msg, key, todo, heard, posted) && n in todo && key in Keys(msg)
    ensures n in hooks
    ensures Hears(hooks[n].hook, watched, msg) ==>
      |msg.args| == 3 && IsOwnerChange(msg, msg.args[0].text) && msg.args[0].text in watched
  {
    hide Consistent, OwnersOk, Genuine, Accepts, Keys;
    if Hears(hooks[n].hook, watched, msg) {
      WatchHears(hooks, counts, watched, rules, msg, n);
    }
  }

  lemma OfferedNext(hooks: Hooks, watched: Watched, msg: SignalMessage, key: string,
    todo: set<nat>, heard: bool, posted: multiset<nat>, n: nat)
    requires Offered(hooks, watched, msg, key, todo, heard, posted) && n in todo
    ensures n in hooks
    ensures Offered(hooks, watched, msg, key, todo - {n}, heard || Hears(hooks[n].hook, watched, msg),
      if hooks[n].hook.obj != Connection && Accepts(hooks[n].hook, watched, msg) then posted + multiset{n} else posted)
  {
    hide Accepts, Hears;
    var reached := ReachedUnder(hooks, watched, msg, key);
    if hooks[n].hook.obj != Connection && Accepts(hooks[n].hook, watched, msg) {
      assert reached - (todo - {n}) == (reached - todo) + {n};
    } else {
      assert reached - (todo - {n}) == reached - todo;
    }
  }

  lemma OfferedAll(hooks: Hooks, counts: Counts, watched: Watched, rules: multiset<string>, msg: SignalMessage,
    key: string, heard: bool, posted: multiset<nat>)
    requires Consistent(hooks, counts, watched, rules, {}, WatchedByHook(watched)) && OwnersOk(watched)
    requires Genuine(msg) && key in Keys(msg) && Offered(hooks, watched, msg, key, {}, heard, posted)
    ensures posted == multiset(ReachedUnder(hooks, watched, msg, key))
    ensures heard ==> key == OWNER_CHANGED_KEY
    ensures key == OWNER_CHANGED_KEY && !heard ==> Noticed(watched, msg) == watched
  {
    hide Consistent, OwnersOk, Genuine, Accepts, Keys, Hears, Noticed;
    assert NodesUnder(hooks, key) - {} == NodesUnder(hooks, key);
    assert ReachedUnder(hooks, watched, msg, key) - {} == ReachedUnder(hooks, watched, msg, key);
    if heard {
      var n :| n in NodesUnder(hooks, key) && Hears(hooks[n].hook, watched, msg);
      WatchHears(hooks, counts, watched, rules, msg, n);
    } else if key == OWNER_CHANGED_KEY {
      NobodyHeard(hooks, counts, watched, rules, msg, NodesUnder(hooks, key));
    }
  }

  lemma ReachedUnderIsStable(hooks: Hooks, watched: Watched, msg: SignalMessage)
    requires OwnersOk(watched) && Genuine(msg)
    ensures forall key :: ReachedUnder(hooks, Noticed(watched, msg), msg, key) == ReachedUnder(hooks, watched, msg, key)
  {
    hide Accepts, Noticed, OwnersOk, Genuine;
    forall n | n in hooks ensures Accepts(hooks[n].hook, Noticed(watched, msg), msg) == Accepts(hooks[n].hook, watched, msg) {
      AcceptanceIsStable(hooks[n].hook, watched, msg);
    }
  }

  /** No hook is stored under two of the keys. */
  lemma ReachedByKeys(hooks: Hooks, watched: Watched, msg: SignalMessage)
    requires Genuine(msg)
    ensures multiset(Reached(hooks, watched, msg)) ==
      multiset(ReachedUnder(hooks, watched, msg, Key(msg.member, msg.interface)))
      + multiset(ReachedUnder(hooks, watched, msg, Key(msg.member, "")))
      + multiset(ReachedUnder(hooks, watched, msg, Key("", msg.interface)))
  {
    hide Accepts;
    KeyReached(msg.member, msg.interface, msg);
    assert Keys(msg) == [Key(msg.member, msg.interface), Key(msg.member, ""), Key("", msg.interface)];
    var a := ReachedUnder(hooks, watched, msg, Keys(msg)[0]);
    var b := ReachedUnder(hooks, watched, msg, Keys(msg)[1]);
    var c := ReachedUnder(hooks, watched, msg, Keys(msg)[2]);
    assert a !! b && b !! c && a !! c;
    assert Reached(hooks, watched, msg) == a + b + c;
  }
}
