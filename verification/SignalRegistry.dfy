/** Signal subscriptions of one bus connection (client mode, connected): hooks, reference counts of
    match rules, watched services with their cached owners, and the rules held by the bus. */
module SignalRegistry {
  import opened QtText
  import opened MatchRule
  import opened SignalFilter
  import opened SignalBus

  /** A node of the multi-hash; its address is the map key it is stored under. */
  datatype Entry = Entry(key: string, hook: SignalHook)

  type Hooks = map<nat, Entry>
  type Counts = map<string, nat>
  type Watched = map<string, WatchedService>

  /** Slots of the connection itself. */
  const SLOT_OWNER_CHANGED := 0
  const SLOT_REGISTER := 1
  const SLOT_UNREGISTER := 2

  function OwnerChangedSubscription(service: string): Subscription {
    Subscription(DBUS_SERVICE, "", DBUS_INTERFACE, "NameOwnerChanged", [Str(service)])
  }

  const OWNER_CHANGED_KEY := Key("NameOwnerChanged", DBUS_INTERFACE)

  /** The hook through which the connection watches a service. */
  function InternalEntry(service: string): Entry {
    Entry(OWNER_CHANGED_KEY,
      SignalHook(Str(DBUS_SERVICE), Null, Null, Connection, SLOT_OWNER_CHANGED, [Str(service)],
        RuleText(OwnerChangedSubscription(service))))
  }

  /** The two hooks setConnection inserts without a rule. */
  const INITIAL_ENTRIES := [
    Entry(Key("NameAcquired", DBUS_INTERFACE), SignalHook(Str(DBUS_SERVICE), Null, Null, Connection, SLOT_REGISTER, [], "")),
    Entry(Key("NameLost", DBUS_INTERFACE), SignalHook(Str(DBUS_SERVICE), Null, Null, Connection, SLOT_UNREGISTER, [], ""))]

  const PREPOPULATED_RULE := RuleText(OwnerChangedSubscription(DBUS_SERVICE))

  // ---------- the service a rule names ----------

  /** The sender constraint, which a rule carries right after its type or not at all. */
  function NamedSender(rule: string): string {
    var (okType, _, afterType) := ReadKey(rule);
    var (okValue, _, rest) := ReadValue(afterType, false);
    if !okType || !okValue || rest == "" then "" else
    var (okKey, key, afterKey) := ReadKey(rest[1..]);
    if !okKey || key != "sender" then "" else ReadValue(afterKey, false).1
  }

  /** What follows the first pair of a rule. */
  function AfterPair(pairs: seq<Pair>): string
    requires pairs != []
  {
    if |pairs| == 1 then "" else "," + Joined(pairs[1..])
  }

  lemma ReadPairKey(pairs: seq<Pair>)
    requires pairs != [] && '=' !in pairs[0].0
    ensures ReadKey(Joined(pairs)) == (true, pairs[0].0, "'" + (pairs[0].1 + "'" + AfterPair(pairs)))
  {
    assert Joined(pairs) == pairs[0].0 + "=" + ("'" + (pairs[0].1 + "'" + AfterPair(pairs)));
    ReadWrittenKey(pairs[0].0, "'" + (pairs[0].1 + "'" + AfterPair(pairs)));
  }

  lemma ReadPairValue(pairs: seq<Pair>)
    requires pairs != [] && '\'' !in pairs[0].1
    ensures ReadValue("'" + (pairs[0].1 + "'" + AfterPair(pairs)), false) == (true, pairs[0].1, AfterPair(pairs))
  {
    ReadQuoted(pairs[0].1, AfterPair(pairs));
    assert ("'" + (pairs[0].1 + "'" + AfterPair(pairs)))[1..] == pairs[0].1 + "'" + AfterPair(pairs);
  }

  lemma {:induction false} ArgKeys(args: seq<QString>, from: nat)
    requires from <= |args|
    ensures forall i | 0 <= i < |ArgPairs(args, from)| ::
      '=' !in ArgPairs(args, from)[i].0 && ArgPairs(args, from)[i].0 != "sender"
    decreases |args| - from
  {
    if from < |args| {
      ArgKeys(args, from + 1);
      assert ArgKey(from)[0] == 'a';
    }
  }

  lemma SenderAmongPairs(pairs: seq<Pair>)
    requires |pairs| >= 1 && pairs[0] == ("type", "signal")
    requires |pairs| > 1 ==> '=' !in pairs[1].0 && (pairs[1].0 == "sender" ==> '\'' !in pairs[1].1)
    ensures NamedSender(Joined(pairs)) == if |pairs| > 1 && pairs[1].0 == "sender" then pairs[1].1 else ""
  {
    hide ReadKey, ReadValue, Joined;
    ReadPairKey(pairs);
    ReadPairValue(pairs);
    if |pairs| > 1 {
      var fields := pairs[1..];
      assert AfterPair(pairs)[1..] == Joined(fields);
      ReadPairKey(fields);
      if fields[0].0 == "sender" {
        ReadPairValue(fields);
      }
    }
  }

  /** The constraints after the one for the sender. */
  function OtherPairs(sub: Subscription): seq<Pair> {
    FieldPair("path", sub.path) + FieldPair("interface", sub.interface) + FieldPair("member", sub.member) + ArgPairs(sub.args, 0)
  }

  /** Whatever the other fields contain, a rule names the service it was built for. */
  lemma RuleNamesService(sub: Subscription)
    requires '\'' !in sub.service
    ensures NamedSender(RuleText(sub)) == sub.service
    ensures RuleText(sub) != ""
  {
    hide NamedSender, OtherPairs;
    OtherKeys(sub);
    SenderComesFirst(sub);
    SenderAmongPairs(Pairs(sub));
  }

  lemma SenderComesFirst(sub: Subscription)
    ensures Pairs(sub) == [("type", "signal")] + (FieldPair("sender", sub.service) + OtherPairs(sub))
  {
    hide ArgPairs, FieldPair;
  }

  lemma OtherKeys(sub: Subscription)
    ensures forall i | 0 <= i < |OtherPairs(sub)| :: '=' !in OtherPairs(sub)[i].0 && OtherPairs(sub)[i].0 != "sender"
  {
    ArgKeys(sub.args, 0);
    var a := FieldPair("path", sub.path);
    var b := a + FieldPair("interface", sub.interface);
    var c := b + FieldPair("member", sub.member);
    assert forall i | 0 <= i < |a| :: a[i].0 == "path";
    assert forall i | 0 <= i < |b| :: b[i].0 in ["path", "interface"];
    assert forall i | 0 <= i < |c| :: c[i].0 in ["path", "interface", "member"];
  }

  // ---------- the counting invariant, on values ----------

  function HooksWithRule(hooks: Hooks, rule: string): set<nat> {
    set n | n in hooks && hooks[n].hook.matchRule == rule
  }

  /** How often a rule is in use. */
  function Uses(hooks: Hooks, rule: string): nat {
    |HooksWithRule(hooks, rule)| + if rule == PREPOPULATED_RULE then 1 else 0
  }

  function RulesNaming(counts: Counts, service: string): set<string> {
    set r | r in counts && NamedSender(r) == service
  }

  /** Every rule in use, and no other, is counted with its number of uses. */
  ghost predicate CountsOk(hooks: Hooks, counts: Counts) {
    && "" !in counts
    && forall r | r != "" :: (r in counts <==> Uses(hooks, r) > 0) && (r in counts ==> counts[r] == Uses(hooks, r))
  }

  ghost predicate WatchedOkAt(counts: Counts, watched: Watched, s: string) {
    && (s in watched <==> ShouldWatchService(s) && RulesNaming(counts, s) != {})
    && (s in watched ==> watched[s].refcount == |RulesNaming(counts, s)|)
  }

  /** Exactly the services named by a counted rule are watched, once for each such rule. */
  ghost predicate WatchedOk(counts: Counts, watched: Watched) {
    forall s :: WatchedOkAt(counts, watched, s)
  }

  function InternalNodes(hooks: Hooks, service: string): set<nat> {
    set n | n in hooks && hooks[n] == InternalEntry(service)
  }

  /** Each expected service has one internal hook, and the connection owns no other hooks. */
  ghost predicate InternalOk(hooks: Hooks, expected: set<string>) {
    && (forall s | s in expected :: |InternalNodes(hooks, s)| == 1)
    && forall n | n in hooks && hooks[n].hook.obj == Connection ::
         hooks[n] in INITIAL_ENTRIES || exists s :: s in expected && hooks[n] == InternalEntry(s)
  }

  /** What prepareHook makes of a subscription, whose interface has been validated. */
  predicate PreparedFor(e: Entry, sub: Subscription) {
    e.key == Key(sub.member, sub.interface) && HookFor(e.hook, sub) && ':' !in sub.interface
  }

  ghost predicate EntryOk(e: Entry) {
    if e.hook.matchRule == "" then e in INITIAL_ENTRIES
    else NamedSender(e.hook.matchRule) == e.hook.service.Text() && exists sub :: PreparedFor(e, sub)
  }

  /** Hooks of the application. */
  function UserHooks(hooks: Hooks): Hooks {
    map n | n in hooks && hooks[n].hook.obj != Connection :: hooks[n]
  }

  /** Equality of two subscriptions as the duplicate search sees it. */
  predicate Duplicate(a: Entry, b: Entry, compareArguments: bool) {
    && a.key == b.key
    && a.hook.service.Same(b.hook.service)
    && a.hook.path.Same(b.hook.path)
    && a.hook.signature.Same(b.hook.signature)
    && a.hook.obj == b.hook.obj
    && a.hook.midx == b.hook.midx
    && (compareArguments ==> SameList(a.hook.argumentMatch, b.hook.argumentMatch))
  }

  /** The application never holds the same subscription twice. */
  ghost predicate NoDuplicates(hooks: Hooks) {
    forall m, n | m in hooks && n in hooks && m != n && hooks[m].hook.obj != Connection ::
      !Duplicate(hooks[m], hooks[n], true)
  }

  lemma UsesAfterAdd(hooks: Hooks, n: nat, e: Entry, rule: string)
    requires n !in hooks
    ensures Uses(hooks[n := e], rule) == Uses(hooks, rule) + if e.hook.matchRule == rule then 1 else 0
  {
    assert HooksWithRule(hooks[n := e], rule) ==
      HooksWithRule(hooks, rule) + (if e.hook.matchRule == rule then {n} else {});
  }

  lemma InternalAfterAdd(hooks: Hooks, n: nat, e: Entry, service: string)
    requires n !in hooks
    ensures InternalNodes(hooks[n := e], service) ==
      InternalNodes(hooks, service) + if e == InternalEntry(service) then {n} else {}
  {
    var internal := InternalEntry(service);
    assert forall m :: m in hooks[n := e] <==> m == n || m in hooks;
  }

  lemma AddHook(hooks: Hooks, n: nat, e: Entry)
    requires n !in hooks
    ensures forall r :: Uses(hooks[n := e], r) == Uses(hooks, r) + if e.hook.matchRule == r then 1 else 0
    ensures forall s :: InternalNodes(hooks[n := e], s) == InternalNodes(hooks, s) + if e == InternalEntry(s) then {n} else {}
  {
    forall r ensures Uses(hooks[n := e], r) == Uses(hooks, r) + if e.hook.matchRule == r then 1 else 0 {
      UsesAfterAdd(hooks, n, e, r);
    }
    forall s ensures InternalNodes(hooks[n := e], s) == InternalNodes(hooks, s) + if e == InternalEntry(s) then {n} else {} {
      InternalAfterAdd(hooks, n, e, s);
    }
  }

  lemma AddRule(counts: Counts, rule: string, sender: string, service: string)
    requires rule !in counts && NamedSender(rule) == sender
    ensures RulesNaming(counts[rule := 1], service) ==
      RulesNaming(counts, service) + if sender == service then {rule} else {}
    ensures |RulesNaming(counts[rule := 1], service)| ==
      |RulesNaming(counts, service)| + if sender == service then 1 else 0
  {
    assert RulesNaming(counts[rule := 1], service) ==
      RulesNaming(counts, service) + if sender == service then {rule} else {};
  }

  lemma RemoveHook(hooks: Hooks, n: nat)
    requires n in hooks
    ensures forall r :: Uses(hooks, r) == Uses(hooks - {n}, r) + if hooks[n].hook.matchRule == r then 1 else 0
    ensures forall s :: InternalNodes(hooks, s) == InternalNodes(hooks - {n}, s) + if hooks[n] == InternalEntry(s) then {n} else {}
  {
    AddHook(hooks - {n}, n, hooks[n]);
    assert (hooks - {n})[n := hooks[n]] == hooks;
  }

  lemma RemoveRule(counts: Counts, rule: string, sender: string, service: string)
    requires rule in counts && NamedSender(rule) == sender
    ensures RulesNaming(counts, service) ==
      RulesNaming(counts - {rule}, service) + if sender == service then {rule} else {}
    ensures |RulesNaming(counts, service)| ==
      |RulesNaming(counts - {rule}, service)| + if sender == service then 1 else 0
  {
    AddRule(counts - {rule}, rule, sender, service);
    assert RulesNaming(counts, service) == RulesNaming((counts - {rule})[rule := 1], service);
  }

  // ---------- one step of the counts ----------

  function Incremented(counts: Counts, rule: string): Counts {
    counts[rule := (if rule in counts then counts[rule] else 0) + 1]
  }

  function Decremented(counts: Counts, rule: string): Counts {
    if rule !in counts then counts
    else if counts[rule] <= 1 then counts - {rule}
    else counts[rule := counts[rule] - 1]
  }

  lemma CountsAfterConnect(hooks: Hooks, counts: Counts, n: nat, e: Entry)
    requires CountsOk(hooks, counts) && n !in hooks && e.hook.matchRule != ""
    ensures CountsOk(hooks[n := e], Incremented(counts, e.hook.matchRule))
  {
    AddHook(hooks, n, e);
  }

  lemma CountsAfterDisconnect(hooks: Hooks, counts: Counts, n: nat)
    requires CountsOk(hooks, counts) && n in hooks && hooks[n].hook.matchRule != ""
    ensures hooks[n].hook.matchRule in counts
    ensures CountsOk(hooks - {n}, Decremented(counts, hooks[n].hook.matchRule))
  {
    RemoveHook(hooks, n);
  }

  /** Watches a service named by a new rule, or one more rule. */
  function Watching(watched: Watched, service: string): Watched {
    if !ShouldWatchService(service) then watched
    else if service in watched then watched[service := watched[service].(refcount := watched[service].refcount + 1)]
    else watched[service := WatchedService("", 1)]
  }

  /** One rule less names a service. */
  function Unwatching(watched: Watched, service: string): Watched {
    if service !in watched then watched
    else if watched[service].refcount <= 1 then watched - {service}
    else watched[service := watched[service].(refcount := watched[service].refcount - 1)]
  }

  lemma WatchedAfterNewRule(counts: Counts, watched: Watched, rule: string, sender: string)
    requires WatchedOk(counts, watched) && rule !in counts && NamedSender(rule) == sender
    ensures WatchedOk(counts[rule := 1], Watching(watched, sender))
  {
    var counts', watched' := counts[rule := 1], Watching(watched, sender);
    forall s ensures WatchedOkAt(counts', watched', s) {
      assert WatchedOkAt(counts, watched, s);
      AddRule(counts, rule, sender, s);
    }
  }

  lemma UnwatchedAt(counts: Counts, watched: Watched, rule: string, sender: string, s: string)
    requires WatchedOkAt(counts, watched, s) && WatchedOkAt(counts, watched, sender)
    requires rule in counts && NamedSender(rule) == sender
    ensures WatchedOkAt(counts - {rule}, Unwatching(watched, sender), s)
  {
    var fewer := RulesNaming(counts - {rule}, s);
    RemoveRule(counts, rule, sender, s);
    assert fewer != {} <==> |fewer| > 0;
  }

  lemma WatchedAfterLastUse(counts: Counts, watched: Watched, rule: string, sender: string)
    requires WatchedOk(counts, watched) && rule in counts && NamedSender(rule) == sender
    ensures WatchedOk(counts - {rule}, Unwatching(watched, sender))
  {
    var counts', watched' := counts - {rule}, Unwatching(watched, sender);
    forall s ensures WatchedOkAt(counts', watched', s) {
      UnwatchedAt(counts, watched, rule, sender, s);
    }
  }

  lemma WatchedSameRules(counts: Counts, watched: Watched, counts': Counts)
    requires WatchedOk(counts, watched) && counts'.Keys == counts.Keys
    ensures WatchedOk(counts', watched)
  {
    forall s ensures WatchedOkAt(counts', watched, s) {
      assert WatchedOkAt(counts, watched, s);
      assert forall r :: r in counts' <==> r in counts'.Keys;
      assert RulesNaming(counts', s) == RulesNaming(counts, s);
    }
  }

  lemma InternalEntryInjective(a: string, b: string)
    requires InternalEntry(a) == InternalEntry(b)
    ensures a == b
  {
    assert InternalEntry(a).hook.argumentMatch[0] == InternalEntry(b).hook.argumentMatch[0];
  }

  lemma InternalAfterUser(hooks: Hooks, expected: set<string>, n: nat, e: Entry)
    requires InternalOk(hooks, expected) && n !in hooks && e.hook.obj != Connection
    ensures InternalOk(hooks[n := e], expected)
  {
    AddHook(hooks, n, e);
  }

  lemma NoInternalNode(hooks: Hooks, expected: set<string>, service: string)
    requires InternalOk(hooks, expected) && service !in expected
    ensures InternalNodes(hooks, service) == {}
  {
    forall m | m in hooks ensures hooks[m] != InternalEntry(service) {
      if hooks[m].hook.obj == Connection && hooks[m] !in INITIAL_ENTRIES {
        var t :| t in expected && hooks[m] == InternalEntry(t);
        if hooks[m] == InternalEntry(service) {
          InternalEntryInjective(service, t);
        }
      }
    }
  }

  lemma InternalAfterWatch(hooks: Hooks, expected: set<string>, n: nat, service: string)
    requires InternalOk(hooks, expected) && n !in hooks && service !in expected
    ensures InternalOk(hooks[n := InternalEntry(service)], expected + {service})
  {
    var e := InternalEntry(service);
    NoInternalNode(hooks, expected, service);
    InternalAfterAdd(hooks, n, e, service);
    forall s | s in expected ensures |InternalNodes(hooks[n := e], s)| == 1 {
      InternalAfterAdd(hooks, n, e, s);
      if e == InternalEntry(s) {
        InternalEntryInjective(s, service);
      }
    }
  }

  lemma InternalAfterErase(hooks: Hooks, expected: set<string>, n: nat)
    requires InternalOk(hooks, expected) && n in hooks && hooks[n].hook.obj != Connection
    ensures InternalOk(hooks - {n}, expected)
  {
    RemoveHook(hooks, n);
  }

  lemma InternalAfterUnwatch(hooks: Hooks, expected: set<string>, n: nat, service: string)
    requires InternalOk(hooks, expected) && service in expected && n in hooks && hooks[n] == InternalEntry(service)
    ensures InternalOk(hooks - {n}, expected - {service})
  {
    RemoveHook(hooks, n);
    forall s | s in expected - {service} ensures |InternalNodes(hooks - {n}, s)| == 1 {
      if hooks[n] == InternalEntry(s) {
        InternalEntryInjective(s, service);
      }
    }
    var others := InternalNodes(hooks - {n}, service);
    assert InternalNodes(hooks, service) == others + {n} && n !in others;
    assert |InternalNodes(hooks, service)| == |others| + 1;
    assert others == {};
    forall m | m in hooks - {n} ensures hooks[m] != InternalEntry(service) {
      assert m !in others;
    }
  }

  // ---------- the whole invariant ----------

  /** The state of a registry: `zombies` are hooks already discounted but not yet erased, `expected`
      the services that have their internal hook. */
  ghost predicate Consistent(
    hooks: Hooks, counts: Counts, watched: Watched, rules: multiset<string>,
    zombies: set<nat>, expected: set<string>)
  {
    && zombies <= hooks.Keys
    && CountsOk(hooks - zombies, counts)
    && WatchedOk(counts, watched)
    && InternalOk(hooks, expected)
    && NoDuplicates(hooks)
    && PREPOPULATED_RULE in counts
    && rules == multiset(counts.Keys - {PREPOPULATED_RULE})
  }

  function WatchedByHook(watched: Watched): set<string> {
    watched.Keys - {DBUS_SERVICE}
  }

  lemma ConnectAnotherUse(
    hooks: Hooks, counts: Counts, watched: Watched, rules: multiset<string>, expected: set<string>,
    n: nat, e: Entry, expected': set<string>)
    requires Consistent(hooks, counts, watched, rules, {}, expected)
    requires n !in hooks && e.hook.matchRule in counts
    requires NoDuplicates(hooks[n := e]) && InternalOk(hooks[n := e], expected')
    ensures Consistent(hooks[n := e], Incremented(counts, e.hook.matchRule), watched, rules, {}, expected')
  {
    assert hooks - {} == hooks && hooks[n := e] - {} == hooks[n := e];
    CountsAfterConnect(hooks, counts, n, e);
    var counts' := Incremented(counts, e.hook.matchRule);
    assert counts'.Keys == counts.Keys;
    WatchedSameRules(counts, watched, counts');
  }

  lemma ConnectNewRule(
    hooks: Hooks, counts: Counts, watched: Watched, rules: multiset<string>, expected: set<string>,
    n: nat, e: Entry, sender: string, expected': set<string>)
    requires Consistent(hooks, counts, watched, rules, {}, expected)
    requires n !in hooks && e.hook.matchRule !in counts && e.hook.matchRule != ""
    requires NamedSender(e.hook.matchRule) == sender
    requires NoDuplicates(hooks[n := e]) && InternalOk(hooks[n := e], expected')
    ensures Consistent(hooks[n := e], counts[e.hook.matchRule := 1],
      Watching(watched, sender), rules + multiset{e.hook.matchRule}, {}, expected')
  {
    var rule := e.hook.matchRule;
    assert hooks - {} == hooks && hooks[n := e] - {} == hooks[n := e];
    CountsAfterConnect(hooks, counts, n, e);
    WatchedAfterNewRule(counts, watched, rule, sender);
    BusRules(counts, rule);
  }

  lemma BusRules(counts: Counts, rule: string)
    ensures rule !in counts && PREPOPULATED_RULE in counts ==>
      multiset(counts[rule := 1].Keys - {PREPOPULATED_RULE}) == multiset(counts.Keys - {PREPOPULATED_RULE}) + multiset{rule}
    ensures rule in counts && rule != PREPOPULATED_RULE ==>
      multiset((counts - {rule}).Keys - {PREPOPULATED_RULE}) == multiset(counts.Keys - {PREPOPULATED_RULE}) - multiset{rule}
  {
    var prepopulated := PREPOPULATED_RULE;
    var held := counts.Keys - {prepopulated};
    assert counts[rule := 1].Keys == counts.Keys + {rule};
    assert (counts - {rule}).Keys == counts.Keys - {rule};
    if rule !in counts && prepopulated in counts {
      assert counts[rule := 1].Keys - {prepopulated} == held + {rule};
    } else if rule in counts && rule != prepopulated {
      assert (counts - {rule}).Keys - {prepopulated} == held - {rule};
    }
  }

  lemma NoDuplicatesAfterConnect(hooks: Hooks, n: nat, e: Entry)
    requires NoDuplicates(hooks) && n !in hooks
    requires forall m | m in hooks :: !Duplicate(hooks[m], e, true)
    ensures NoDuplicates(hooks[n := e])
  {
    forall m | m in hooks ensures !Duplicate(e, hooks[m], true) {
      if Duplicate(e, hooks[m], true) {
        assert Duplicate(hooks[m], e, true);
      }
    }
  }

  /** A hook is discounted: either its rule has other uses, or this was the last one. */
  lemma DiscountOneUse(
    hooks: Hooks, counts: Counts, watched: Watched, rules: multiset<string>,
    zombies: set<nat>, expected: set<string>, n: nat)
    requires Consistent(hooks, counts, watched, rules, zombies, expected)
    requires n in hooks && n !in zombies && hooks[n].hook.matchRule != ""
    ensures var rule := hooks[n].hook.matchRule;
      && rule in counts && counts[rule] >= 1
      && (counts[rule] > 1 ==>
            Consistent(hooks, Decremented(counts, rule), watched, rules, zombies + {n}, expected))
  {
    var rule := hooks[n].hook.matchRule;
    CountsAfterDisconnect(hooks - zombies, counts, n);
    assert hooks - (zombies + {n}) == (hooks - zombies) - {n};
    if counts[rule] > 1 {
      assert Decremented(counts, rule).Keys == counts.Keys;
      WatchedSameRules(counts, watched, Decremented(counts, rule));
    }
  }

  lemma DiscountLastUse(
    hooks: Hooks, counts: Counts, watched: Watched, rules: multiset<string>,
    zombies: set<nat>, expected: set<string>, n: nat, sender: string)
    requires Consistent(hooks, counts, watched, rules, zombies, expected)
    requires n in hooks && n !in zombies && hooks[n].hook.matchRule != ""
    requires NamedSender(hooks[n].hook.matchRule) == sender
    requires hooks[n].hook.matchRule in counts && counts[hooks[n].hook.matchRule] == 1
    ensures var rule := hooks[n].hook.matchRule;
      && rule != PREPOPULATED_RULE
      && Consistent(hooks, counts - {rule}, Unwatching(watched, sender), rules - multiset{rule}, zombies + {n}, expected)
  {
    hide NamedSender;
    var rule := hooks[n].hook.matchRule;
    var live := hooks - zombies;
    CountsAfterDisconnect(live, counts, n);
    assert hooks - (zombies + {n}) == live - {n};
    assert Uses(live, rule) == 1 && n in HooksWithRule(live, rule);
    WatchedAfterLastUse(counts, watched, rule, sender);
    BusRules(counts, rule);
  }

  lemma EraseDiscounted(
    hooks: Hooks, counts: Counts, watched: Watched, rules: multiset<string>,
    zombies: set<nat>, n: nat, expected: set<string>, expected': set<string>)
    requires Consistent(hooks, counts, watched, rules, zombies + {n}, expected)
    requires n in hooks && n !in zombies && InternalOk(hooks - {n}, expected')
    ensures Consistent(hooks - {n}, counts, watched, rules, zombies, expected')
  {
    assert (hooks - {n}) - zombies == hooks - (zombies + {n});
  }

  /** The entry of the bus itself starts at one, counted for the prepopulated rule, and that rule
      stays: the reference count of the bus never drops to zero. */
  lemma BusStaysWatched(counts: Counts, watched: Watched)
    requires WatchedOk(counts, watched) && PREPOPULATED_RULE in counts
    ensures DBUS_SERVICE in watched && watched[DBUS_SERVICE].refcount >= 1
    ensures Watching(watched, DBUS_SERVICE)[DBUS_SERVICE].refcount >= 2
    ensures forall rule | rule in counts && rule != PREPOPULATED_RULE && NamedSender(rule) == DBUS_SERVICE ::
      watched[DBUS_SERVICE].refcount >= 2
  {
    hide NamedSender, RuleText;
    RuleNamesService(OwnerChangedSubscription(DBUS_SERVICE));
    assert WatchedOkAt(counts, watched, DBUS_SERVICE);
    var named := RulesNaming(counts, DBUS_SERVICE);
    assert PREPOPULATED_RULE in named;
    forall rule | rule in counts && rule != PREPOPULATED_RULE && NamedSender(rule) == DBUS_SERVICE
      ensures |named| >= 2
    {
      assert {rule, PREPOPULATED_RULE} <= named;
      assert |named - {rule, PREPOPULATED_RULE}| == |named| - |{rule, PREPOPULATED_RULE}|;
    }
  }
}
