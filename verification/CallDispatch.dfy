/** Incoming method calls: finding the object, trying adaptors, internal interfaces and the object
    itself, and answering. */
module CallDispatch {
  import opened Wrappers
  import opened NameRules
  import opened ObjectPaths
  import opened ObjectTree
  import opened SlotMatching
  import opened SlotCache

  datatype Adaptor = Adaptor(interface: string, methods: seq<Method>)

  /** An object of the application. Objects have children of their own, which are found by name. */
  datatype Target = Target(
    name: string, children: seq<nat>, hasThread: bool, interfaces: set<string>,
    methods: seq<Method>, hasConnector: bool, adaptors: seq<Adaptor>)

  type World = map<nat, Target>

  /** A call. `delayed` says whether the slot that gets it asks to answer later, `fails` whether
      invoking the slot fails. */
  datatype Call = Call(
    serial: nat, path: string, interface: string, member: string, signature: string,
    isLocal: bool, replyRequired: bool, delayed: bool, fails: bool)

  /** An automatic answer is due. */
  predicate ExpectsReply(c: Call) {
    c.replyRequired && !c.delayed
  }

  datatype AnswerKind =
    | SlotReply | SlotFailed | EmptyReply | Introspection | PropertyReply
    | UnknownObject | UnknownInterface | UnknownMethod | NoThread

  datatype Answer = Answer(call: Call, kind: AnswerKind)

  const INTROSPECTABLE := "org.freedesktop.DBus.Introspectable"
  const PROPERTIES := "org.freedesktop.DBus.Properties"

  // ---------- where a call goes ----------

  /** Following names through the children of objects. */
  function Descend(world: World, obj: nat, names: seq<string>): Option<nat>
    decreases |names|
  {
    if names == [] then Some(obj)
    else if obj !in world then None
    else
      match ChildNamed(world, world[obj].children, names[0])
      case Some(next) => Descend(world, next, names[1..])
      case None => None
  }

  function ChildNamed(world: World, children: seq<nat>, name: string): Option<nat> {
    if children == [] then None
    else if children[0] in world && world[children[0]].name == name then Some(children[0])
    else ChildNamed(world, children[1..], name)
  }

  datatype Route = ToSlot | ToNobody | ToError(kind: AnswerKind) | ToFilter(kind: AnswerKind)

  /** Whoever has slots: an object, or one of its adaptors. */
  datatype SlotOwner = Own(obj: nat) | OfAdaptor(obj: nat, i: nat)

  function MethodsOf(world: World, owner: SlotOwner): seq<Method> {
    if owner.obj !in world then []
    else
      match owner
      case Own(obj) => world[obj].methods
      case OfAdaptor(obj, i) => if i < |world[obj].adaptors| then world[obj].adaptors[i].methods else []
  }

  type Caches = map<SlotOwner, seq<Entry>>

  function CacheOf(caches: Caches, owner: SlotOwner): seq<Entry> {
    if owner in caches then caches[owner] else []
  }

  /** A call like this one has been looked up before. */
  predicate Known(caches: Caches, owner: SlotOwner, flags: set<Flag>, c: Call) {
    Cached(CacheOf(caches, owner), CacheKey(c.member, c.signature), flags).Some?
  }

  /** What the slots of an owner make of a call: the first time, a search that is misled delivers the
      call to nobody. */
  function SlotRoute(world: World, caches: Caches, owner: SlotOwner, flags: set<Flag>, c: Call, table: Table): Option<Route> {
    var methods, exports := MethodsOf(world, owner), SlotExports(flags);
    if HasSlot(methods, exports, c.member, c.signature, table) then Some(ToSlot)
    else if Misled(methods, exports, c.member, c.signature, table) && !Known(caches, owner, flags, c) then Some(ToNobody)
    else None
  }

  const ALL_SLOTS := {ExportScriptableSlots, ExportNonScriptableSlots}
  const ALL_SIGNALS := {ExportScriptableSignals, ExportNonScriptableSignals}

  /** What the adaptors of an object make of a call; nothing if it is not for them. */
  function AdaptorRoute(world: World, caches: Caches, obj: nat, flags: set<Flag>, c: Call, table: Table): Option<Route>
    requires obj in world
  {
    var t := world[obj];
    if ExportAdaptors !in flags || !t.hasConnector then None
    else if c.interface == "" then FirstTaker(world, caches, obj, 0, flags + ALL_SLOTS, c, table)
    else
      match AdaptorFor(t.adaptors, c.interface)
      case None => None
      case Some(i) =>
        var route := SlotRoute(world, caches, OfAdaptor(obj, i), flags + ALL_SLOTS, c, table);
        if route.Some? then route else Some(ToError(UnknownMethod))
  }

  /** The first adaptor, from a number on, that takes the call. */
  function FirstTaker(world: World, caches: Caches, obj: nat, i: nat, flags: set<Flag>, c: Call, table: Table): Option<Route>
    requires obj in world && i <= |world[obj].adaptors|
    decreases |world[obj].adaptors| - i
  {
    if i == |world[obj].adaptors| then None
    else
      var route := SlotRoute(world, caches, OfAdaptor(obj, i), flags, c, table);
      if route.Some? then route else FirstTaker(world, caches, obj, i + 1, flags, c, table)
  }

  function AdaptorFor(adaptors: seq<Adaptor>, interface: string): (i: Option<nat>)
    ensures i.Some? ==> i.value < |adaptors|
  {
    if adaptors == [] then None
    else if adaptors[0].interface == interface then Some(0)
    else
      match AdaptorFor(adaptors[1..], interface)
      case Some(i) => Some(i + 1)
      case None => None
  }

  /** The interfaces every object, or every node, has by itself. */
  function FilterRoute(hasObject: bool, c: Call): Option<Route> {
    if (c.interface == "" || c.interface == INTROSPECTABLE) && c.member == "Introspect" && c.signature == "" then
      Some(ToFilter(Introspection))
    else if c.interface == INTROSPECTABLE then Some(ToError(UnknownMethod))
    else if hasObject && (c.interface == "" || c.interface == PROPERTIES)
            && ((c.member == "Get" && c.signature == "ss") || (c.member == "Set" && c.signature == "ssv")
                || (c.member == "GetAll" && c.signature == "s")) then
      Some(ToFilter(PropertyReply))
    else if hasObject && c.interface == PROPERTIES then Some(ToError(UnknownMethod))
    else None
  }

  predicate ExportsCalls(flags: set<Flag>) {
    || ExportScriptableSlots in flags || ExportNonScriptableSlots in flags
    || ExportScriptableInvokables in flags || ExportNonScriptableInvokables in flags
  }

  function ObjectRoute(world: World, caches: Caches, obj: nat, flags: set<Flag>, c: Call, table: Table): Route
    requires obj in world
  {
    if ExportsCalls(flags) && (c.interface == "" || c.interface in world[obj].interfaces) then
      var route := SlotRoute(world, caches, Own(obj), flags, c, table);
      if route.Some? then route.value else ToError(UnknownMethod)
    else if c.interface == "" then ToError(UnknownMethod)
    else ToError(UnknownInterface)
  }

  /** The whole cascade, for a node that may have no object. */
  function RouteAt(world: World, caches: Caches, obj: Option<nat>, flags: set<Flag>, c: Call, table: Table): Route {
    if obj.Some? && obj.value in world then
      var first := AdaptorRoute(world, caches, obj.value, flags, c, table);
      if first.Some? then first.value
      else
        var second := FilterRoute(true, c);
        if second.Some? then second.value else ObjectRoute(world, caches, obj.value, flags, c, table)
    else
      var second := FilterRoute(false, c);
      if second.Some? then second.value
      else if c.interface == "" then ToError(UnknownMethod) else ToError(UnknownInterface)
  }

  /** The route of a call from the node the tree gave for it and the names left over. */
  function RouteFrom(world: World, caches: Caches, node: Node, names: seq<string>, c: Call, table: Table): Route {
    if names == [] then RouteAt(world, caches, node.obj, node.flags, c, table)
    else
      var child := if ExportChildObjects in node.flags && node.obj.Some? then Descend(world, node.obj.value, names) else None;
      if child.None? then ToError(UnknownObject) else RouteAt(world, caches, child, node.flags - ALL_SIGNALS, c, table)
  }

  // ---------- the connection ----------

  datatype Posted = Posted(receiver: nat, node: Node, pathStart: nat, call: Call)

  function AnsweredCalls(sent: seq<Answer>): seq<Call> {
    seq(|sent|, i requires 0 <= i < |sent| => sent[i].call)
  }

  function PostedCalls(posted: seq<Posted>): seq<Call> {
    seq(|posted|, i requires 0 <= i < |posted| => posted[i].call)
  }

  /** Every call received has been answered once, waits in an event, or was given to a slot that
      answers itself or need not. */
  ghost predicate Balanced(sent: seq<Answer>, posted: seq<Posted>, silent: multiset<Call>, received: multiset<Call>) {
    && multiset(AnsweredCalls(sent)) + multiset(PostedCalls(posted)) + silent == received
    && (forall c | c in silent :: !ExpectsReply(c))
  }

  function KindOf(c: Call, route: Route): AnswerKind {
    match route
    case ToSlot => if c.fails then SlotFailed else SlotReply
    case ToNobody => EmptyReply
    case ToError(kind) => kind
    case ToFilter(kind) => kind
  }

  /** No automatic answer comes of this route. Where there is no slot, none can ask for a delay. */
  predicate IsSilent(c: Call, route: Route) {
    (route.ToSlot? && !ExpectsReply(c)) || (route.ToNobody? && !c.replyRequired)
  }

  /** A call has been taken along its route: there is one answer more, or none is due. */
  ghost predicate Taken(sent: seq<Answer>, silent: multiset<Call>, sent': seq<Answer>,
    silent': multiset<Call>, c: Call, route: Route) {
    if IsSilent(c, route) then sent' == sent && silent' == silent + multiset{c}
    else silent' == silent && sent' == sent + [Answer(c, KindOf(c, route))]
  }

  lemma TakenIsBalanced(sent: seq<Answer>, silent: multiset<Call>, sent': seq<Answer>, silent': multiset<Call>,
    posted: seq<Posted>, received: multiset<Call>, c: Call, route: Route)
    requires Balanced(sent, posted, silent, received) && Taken(sent, silent, sent', silent', c, route)
    ensures Balanced(sent', posted, silent', received + multiset{c})
  {
    if !IsSilent(c, route) {
      assert AnsweredCalls(sent') == AnsweredCalls(sent) + [c];
    }
  }

  lemma PostedIsBalanced(sent: seq<Answer>, posted: seq<Posted>, silent: multiset<Call>,
    received: multiset<Call>, p: Posted)
    requires Balanced(sent, posted, silent, received)
    ensures Balanced(sent, posted + [p], silent, received + multiset{p.call})
  {
    assert PostedCalls(posted + [p]) == PostedCalls(posted) + [p.call];
  }

  /** An event taken out of the queue leaves its call to be accounted for. */
  lemma UnpostedIsBalanced(sent: seq<Answer>, posted: seq<Posted>, silent: multiset<Call>,
    received: multiset<Call>, i: nat)
    requires Balanced(sent, posted, silent, received) && i < |posted|
    ensures posted[i].call in received
    ensures Balanced(sent, posted[..i] + posted[i + 1..], silent, received - multiset{posted[i].call})
  {
    var calls := PostedCalls(posted);
    assert calls == calls[..i] + [calls[i]] + calls[i + 1..];
    assert PostedCalls(posted[..i] + posted[i + 1..]) == calls[..i] + calls[i + 1..];
  }

  /** An event goes to the object of its node, and refers to a place in the path of its call. */
  predicate PostedOk(p: Posted) {
    && IsValidObjectPath(p.call.path) && p.pathStart <= |p.call.path| && '.' !in p.call.member
    && p.node.obj == Some(p.receiver)
    && exists k :: 0 <= k <= |Components(p.call.path)| && NamesFrom(p.call.path, p.pathStart, Components(p.call.path)[k..])
  }

  class CallDispatcher {
    var rootNode: Node
    var world: World
    var table: Table
    var sent: seq<Answer>
    var posted: seq<Posted>
    /** What objects and adaptors remember about slots. */
    var caches: Caches
    /** All calls that have come in, and those handed to slots that answer themselves or need not. */
    ghost var received: multiset<Call>
    ghost var silent: multiset<Call>

    /** Nothing is lost and nothing answered twice. */
    ghost predicate Accounted()
      reads this
    {
      Balanced(sent, posted, silent, received)
    }

    /** Caches hold what searching would find. */
    ghost predicate CachesFresh()
      reads this
    {
      forall owner | owner in caches :: Fresh(caches[owner], MethodsOf(world, owner), table)
    }

    /** Caches and events belong to objects that exist. */
    ghost predicate OwnersExist()
      reads this
    {
      && (forall owner | owner in caches :: owner.obj in world)
      && (forall i | 0 <= i < |posted| :: posted[i].receiver in world)
    }

    ghost predicate Valid()
      reads this
    {
      && TreeOk(rootNode) && Accounted() && CachesFresh() && OwnersExist()
      && forall i | 0 <= i < |posted| :: PostedOk(posted[i])
    }

    constructor (rootNode: Node, world: World, table: Table)
      requires TreeOk(rootNode)
      ensures Valid() && received == multiset{} && posted == [] && sent == [] && caches == map[]
      ensures this.rootNode == rootNode && this.world == world && this.table == table
    {
      this.rootNode, this.world, this.table := rootNode, world, table;
      sent, posted, received, silent, caches := [], [], multiset{}, multiset{}, map[];
    }

    method Send(c: Call, kind: AnswerKind)
      modifies this`sent
      ensures sent == old(sent) + [Answer(c, kind)]
    {
      sent := sent + [Answer(c, kind)];
    }

    /** A call has been taken along its route. */
    twostate predicate Took(c: Call, route: Route)
      reads this
    {
      Taken(old(sent), old(silent), sent, silent, c, route)
    }

    /** deliverCall, from the point where the slot has run, if there is one. */
    method Deliver(c: Call, slotIdx: int)
      modifies this`sent, this`silent
      ensures Took(c, if slotIdx >= 0 then ToSlot else ToNobody)
    {
      var delayed := slotIdx >= 0 && c.delayed;
      if c.replyRequired && !delayed {
        if slotIdx < 0 {
          Send(c, EmptyReply);
        } else if !c.fails {
          Send(c, SlotReply);
        } else {
          Send(c, SlotFailed);
        }
      } else {
        silent := silent + multiset{c};
      }
    }

    /** The search of activateCall where the cache does not help. */
    method FindSlot(methods: seq<Method>, flags: set<Export>, c: Call) returns (data: SlotData)
      ensures data == Search(methods, flags, c.member, c.signature, table)
    {
      hide Matches, Ids, Examined;
      var idx, metaTypes := FindMetaSlot(methods, c.member, flags, c.signature, table, []);
      LastIsFound(methods, c.member, flags, c.signature, table, idx);
      if idx == -1 {
        LeftoverTwice(methods, c.member, [], table);
        idx, metaTypes := FindMetaSlot(methods, c.member, flags, "", table, metaTypes);
        LastIsFound(methods, c.member, flags, "", table, idx);
        if |metaTypes| != 2 || metaTypes[1] != MessageType {
          return SlotData(-1, []);
        }
      }
      data := SlotData(idx, metaTypes);
    }

    /** activateCall: whatever is remembered or found delivers the call or not. */
    method ActivateCall(owner: SlotOwner, flags: set<Flag>, c: Call) returns (found: bool)
      requires CachesFresh() && '.' !in c.member
      modifies this`sent, this`silent, this`caches
      ensures CachesFresh() && (owner.obj in world ==> Known(caches, owner, flags, c))
      ensures forall o | o != owner :: CacheOf(caches, o) == old(CacheOf(caches, o))
      ensures caches.Keys <= old(caches).Keys + if owner.obj in world then {owner} else {}
      ensures var route := SlotRoute(world, old(caches), owner, flags, c, table);
        found == route.Some? && if found then Took(c, route.value) else sent == old(sent) && silent == old(silent)
    {
      hide Search, Misled, HasSlot, SlotExports, CacheKey, Cached, Fresh;
      if owner.obj !in world {
        NothingFound(SlotExports(flags), c.member, c.signature, table);
        return false;
      }
      ghost var methods := MethodsOf(world, owner);
      var cacheKey := CacheKey(c.member, c.signature);
      var cached := FindCached(CacheOf(caches, owner), cacheKey, flags);
      OwnerIsFresh(owner);
      CachedIsFresh(CacheOf(caches, owner), methods, flags, c.member, c.signature, table);
      SearchFinds(methods, SlotExports(flags), c.member, c.signature, table);
      if cached.None? {
        var data := FindSlot(MethodsOf(world, owner), SlotExports(flags), c);
        StaysFresh(CacheOf(caches, owner), methods, flags, c.member, c.signature, table);
        caches := caches[owner := [Entry(cacheKey, flags, data)] + CacheOf(caches, owner)];
        if data.metaTypes == [] {
          return false;
        }
        Deliver(c, data.slotIdx);
        return true;
      } else if cached.value.slotIdx == -1 {
        return false;
      } else {
        Deliver(c, cached.value.slotIdx);
        return true;
      }
    }

    /** Caches are only added for objects that exist. */
    twostate predicate CachesGrow()
      reads this
    {
      forall o | o in caches :: o in old(caches) || o.obj in world
    }

    lemma OwnerIsFresh(owner: SlotOwner)
      requires CachesFresh()
      ensures Fresh(CacheOf(caches, owner), MethodsOf(world, owner), table)
    {}

    /** findChildObject. */
    method FindChildObject(node: Node, path: string, start: nat, ghost names: seq<string>) returns (child: Option<nat>)
      requires NamesFrom(path, start, names) && forall i | 0 <= i < |names| :: names[i] != ""
      ensures child == if ExportChildObjects in node.flags && node.obj.Some? then Descend(world, node.obj.value, names) else None
    {
      hide NamesFrom;
      if ExportChildObjects !in node.flags {
        return None;
      }
      child := node.obj;
      var pos: nat := start;
      ghost var k := 0;
      assert names[0..] == names;
      while child.Some?
        invariant k <= |names| && NamesFrom(path, pos, names[k..])
        invariant node.obj.Some? ==>
          Descend(world, node.obj.value, names) == if child.Some? then Descend(world, child.value, names[k..]) else None
        invariant node.obj.None? ==> child.None?
        decreases |names| - k, child.Some?
      {
        NamesRemain(path, pos, names[k..]);
        if pos >= |path| {
          return child;
        }
        var end := EndOfName(path, pos);
        NextName(path, pos, names[k..], end);
        assert names[k..][1..] == names[k + 1..];
        var next: Option<nat> := None;
        if child.value in world {
          next := ChildWithName(world[child.value].children, path[pos..end]);
        }
        child := next;
        k := k + 1;
        pos := end + 1;
      }
    }

    method ChildWithName(children: seq<nat>, name: string) returns (child: Option<nat>)
      ensures child == ChildNamed(world, children, name)
    {
      var i := 0;
      while i < |children|
        invariant 0 <= i <= |children| && ChildNamed(world, children, name) == ChildNamed(world, children[i..], name)
      {
        assert children[i..][0] == children[i] && children[i..][1..] == children[i + 1..];
        if children[i] in world && world[children[i]].name == name {
          return Some(children[i]);
        }
        i := i + 1;
      }
      child := None;
    }

    /** The adaptors of an object: whether they have dealt with the call. */
    method TryAdaptors(obj: nat, flags: set<Flag>, c: Call) returns (done: bool)
      requires CachesFresh() && '.' !in c.member && obj in world
      modifies this`sent, this`silent, this`caches
      ensures CachesFresh() && CachesGrow() && CacheOf(caches, Own(obj)) == old(CacheOf(caches, Own(obj)))
      ensures var route := AdaptorRoute(world, old(caches), obj, flags, c, table);
        done == route.Some? && if done then Took(c, route.value) else sent == old(sent) && silent == old(silent)
    {
      hide SlotRoute;
      var t := world[obj];
      if ExportAdaptors !in flags || !t.hasConnector {
        return false;
      }
      if c.interface == "" {
        done := TryEachAdaptor(obj, flags + ALL_SLOTS, c);
        return;
      }
      var i := AdaptorFor(t.adaptors, c.interface);
      if i.Some? {
        var found := ActivateCall(OfAdaptor(obj, i.value), flags + ALL_SLOTS, c);
        if !found {
          Send(c, UnknownMethod);
        }
        return true;
      }
      return false;
    }

    method TryEachAdaptor(obj: nat, flags: set<Flag>, c: Call) returns (done: bool)
      requires CachesFresh() && '.' !in c.member && obj in world
      modifies this`sent, this`silent, this`caches
      ensures CachesFresh() && CachesGrow() && CacheOf(caches, Own(obj)) == old(CacheOf(caches, Own(obj)))
      ensures var route := FirstTaker(world, old(caches), obj, 0, flags, c, table);
        done == route.Some? && if done then Took(c, route.value) else sent == old(sent) && silent == old(silent)
    {
      hide SlotRoute, Fresh, CacheOf;
      var i := 0;
      while i < |world[obj].adaptors|
        invariant 0 <= i <= |world[obj].adaptors| && CachesFresh() && CachesGrow() && sent == old(sent) && silent == old(silent)
        invariant CacheOf(caches, Own(obj)) == old(CacheOf(caches, Own(obj)))
        invariant forall j: nat | j >= i :: CacheOf(caches, OfAdaptor(obj, j)) == old(CacheOf(caches, OfAdaptor(obj, j)))
        invariant FirstTaker(world, old(caches), obj, 0, flags, c, table) == FirstTaker(world, old(caches), obj, i, flags, c, table)
      {
        SameCacheSameRoute(old(caches), caches, OfAdaptor(obj, i), flags, c);
        done := ActivateCall(OfAdaptor(obj, i), flags, c);
        if done {
          return;
        }
        i := i + 1;
      }
      return false;
    }

    lemma SameCacheSameRoute(before: Caches, now: Caches, owner: SlotOwner, flags: set<Flag>, c: Call)
      requires CacheOf(now, owner) == CacheOf(before, owner)
      ensures SlotRoute(world, now, owner, flags, c, table) == SlotRoute(world, before, owner, flags, c, table)
    {}

    /** activateInternalFilters. */
    method ActivateInternalFilters(hasObject: bool, c: Call) returns (done: bool)
      modifies this`sent
      ensures var route := FilterRoute(hasObject, c);
        done == route.Some? && if done then sent == old(sent) + [Answer(c, route.value.kind)] else sent == old(sent)
    {
      if c.interface == "" || c.interface == INTROSPECTABLE {
        if c.member == "Introspect" && c.signature == "" {
          Send(c, Introspection);
          return true;
        }
        if c.interface != "" {
          Send(c, UnknownMethod);
          return true;
        }
      }
      if hasObject && (c.interface == "" || c.interface == PROPERTIES) {
        if c.member == "Get" && c.signature == "ss" {
          Send(c, PropertyReply);
          return true;
        } else if c.member == "Set" && c.signature == "ssv" {
          Send(c, PropertyReply);
          return true;
        } else if c.member == "GetAll" && c.signature == "s" {
          Send(c, PropertyReply);
          return true;
        }
        if c.interface != "" {
          Send(c, UnknownMethod);
          return true;
        }
      }
      return false;
    }

    /** activateObject: on whatever object the node or the rest of the path leads to. */
    method ActivateObject(node: Node, c: Call, pathStart: nat, ghost names: seq<string>)
      requires CachesFresh() && '.' !in c.member
      requires pathStart <= |c.path| && NamesFrom(c.path, pathStart, names)
      requires forall i | 0 <= i < |names| :: names[i] != ""
      modifies this`sent, this`silent, this`caches
      ensures CachesFresh() && CachesGrow() && Took(c, RouteFrom(world, old(caches), node, names, c, table))
    {
      hide AdaptorRoute, FilterRoute, ObjectRoute, NamesFrom;
      NamesRemain(c.path, pathStart, names);
      var obj, flags := node.obj, node.flags;
      if pathStart != |c.path| {
        flags := flags - ALL_SIGNALS;
        obj := FindChildObject(node, c.path, pathStart, names);
        if obj.None? {
          Send(c, UnknownObject);
          return;
        }
      }
      Activate(obj, flags, c);
    }

    method Activate(obj: Option<nat>, flags: set<Flag>, c: Call)
      requires CachesFresh() && '.' !in c.member
      modifies this`sent, this`silent, this`caches
      ensures CachesFresh() && CachesGrow() && Took(c, RouteAt(world, old(caches), obj, flags, c, table))
    {
      hide AdaptorRoute, SlotRoute, FilterRoute, Fresh, CacheOf;
      var live := obj.Some? && obj.value in world;
      if live {
        var adapted := TryAdaptors(obj.value, flags, c);
        if adapted {
          return;
        }
        SameCacheSameRoute(old(caches), caches, Own(obj.value), flags, c);
      }
      FilterIsNoSlot(live, c);
      var filtered := ActivateInternalFilters(live, c);
      if filtered {
        return;
      }
      if live && (ExportScriptableSlots in flags || ExportNonScriptableSlots in flags
        || ExportScriptableInvokables in flags || ExportNonScriptableInvokables in flags)
      {
        if c.interface == "" || c.interface in world[obj.value].interfaces {
          var found := ActivateCall(Own(obj.value), flags, c);
          if !found {
            Send(c, UnknownMethod);
          }
          return;
        }
      }
      if c.interface == "" {
        Send(c, UnknownMethod);
      } else {
        Send(c, UnknownInterface);
      }
    }

    // ---------- calls come in, events go out ----------

    /** handleObjectCall: an error at once, a filter at once, or the object's own thread. */
    method HandleObjectCall(c: Call, sameThread: bool)
      requires Valid() && IsValidObjectPath(c.path) && '.' !in c.member
      modifies this`sent, this`silent, this`posted, this`received, this`caches
      ensures Valid() && received == old(received) + multiset{c}
      ensures Handled(c, sameThread)
    {
      hide NamesFrom, IsValidObjectPath, RouteFrom, Components, TreeOk, Find, Balanced, Taken, Fresh;
      ghost var names := Components(c.path);
      ghost var sent0, silent0 := sent, silent;
      StartsWithSlash(c.path);
      var found, usedLength, node := FindObject(rootNode, c.path);
      if !found {
        Send(c, UnknownObject);
        SentIsTaken(sent0, silent0, c, UnknownObject);
        TakenIsBalanced(sent0, silent0, sent, silent, posted, received, c, ToError(UnknownObject));
        received := received + multiset{c};
        return;
      }
      DispatchTo(node, usedLength, c, sameThread, Walk(rootNode, names).value.1);
    }

    method DispatchTo(node: Node, usedLength: nat, c: Call, sameThread: bool, ghost k: nat)
      requires Valid() && IsValidObjectPath(c.path) && '.' !in c.member
      requires usedLength <= |c.path| && k <= |Components(c.path)|
      requires NamesFrom(c.path, usedLength, Components(c.path)[k..])
      modifies this`sent, this`silent, this`posted, this`received, this`caches
      ensures Valid() && received == old(received) + multiset{c}
      ensures HandledAt(c, sameThread, node, k)
    {
      hide NamesFrom, IsValidObjectPath, RouteFrom, Components, TreeOk, Balanced, Taken, Fresh;
      ghost var sent0, silent0, caches0 := sent, silent, caches;
      ghost var rest := Components(c.path)[k..];
      StartsWithSlash(c.path);
      if node.obj.Some? && (node.obj.value !in world || !world[node.obj.value].hasThread) {
        Send(c, NoThread);
        SentIsTaken(sent0, silent0, c, NoThread);
        TakenIsBalanced(sent0, silent0, sent, silent, posted, received, c, ToError(NoThread));
      } else if node.obj.Some? && (!c.isLocal || !sameThread) {
        var p := Posted(node.obj.value, node, usedLength, c);
        PostedIsBalanced(sent, posted, silent, received, p);
        posted := posted + [p];
      } else {
        ActivateObject(node, c, usedLength, rest);
        TakenIsBalanced(sent0, silent0, sent, silent, posted, received, c,
          RouteFrom(world, caches0, node, rest, c, table));
      }
      received := received + multiset{c};
    }

    twostate predicate HandledAt(c: Call, sameThread: bool, node: Node, k: nat)
      requires IsValidObjectPath(c.path) && k <= |Components(c.path)|
      reads this
    {
      if node.obj.Some? && (node.obj.value !in world || !world[node.obj.value].hasThread) then
        Took(c, ToError(NoThread)) && posted == old(posted)
      else if node.obj.Some? && (!c.isLocal || !sameThread) then
        && sent == old(sent) && silent == old(silent)
        && |posted| == |old(posted)| + 1 && posted[..|old(posted)|] == old(posted)
        && posted[|posted| - 1].call == c && posted[|posted| - 1].node == node
      else Took(c, RouteFrom(world, old(caches), node, Components(c.path)[k..], c, table)) && posted == old(posted)
    }

    /** What becomes of a call right away: an error, its route, or an event for the object's thread. */
    twostate predicate Handled(c: Call, sameThread: bool)
      requires IsValidObjectPath(c.path)
      reads this
    {
      var names := Components(c.path);
      var end := Walk(rootNode, names);
      if end.None? || (end.value.0.obj.None? && end.value.0.children == []) then
        Took(c, ToError(UnknownObject)) && posted == old(posted)
      else HandledAt(c, sameThread, end.value.0, end.value.1)
    }

    /** The event of a call reaches its object, in whatever state the tree and the objects are by then. */
    method DeliverEvent(i: nat) returns (ghost rest: seq<string>)
      requires Valid() && i < |posted|
      modifies this`sent, this`silent, this`posted, this`caches
      ensures Valid() && received == old(received) && posted == old(posted[..i] + posted[i + 1..])
      ensures var p := old(posted)[i];
        NamesFrom(p.call.path, p.pathStart, rest) && Took(p.call, RouteFrom(world, old(caches), p.node, rest, p.call, table))
    {
      hide NamesFrom, IsValidObjectPath, RouteFrom, Components, TreeOk, Balanced, Taken, Fresh;
      var p := posted[i];
      assert PostedOk(p);
      StartsWithSlash(p.call.path);
      ghost var names := Components(p.call.path);
      ghost var k :| 0 <= k <= |names| && NamesFrom(p.call.path, p.pathStart, names[k..]);
      rest := names[k..];
      ghost var sent0, silent0, caches0 := sent, silent, caches;
      UnpostedIsBalanced(sent, posted, silent, received, i);
      posted := posted[..i] + posted[i + 1..];
      ActivateObject(p.node, p.call, p.pathStart, rest);
      TakenIsBalanced(sent0, silent0, sent, silent, posted, received - multiset{p.call}, p.call,
        RouteFrom(world, caches0, p.node, rest, p.call, table));
      assert received - multiset{p.call} + multiset{p.call} == received;
    }

    /** The event is destroyed instead, because its object has been deleted. */
    method DestroyEvent(i: nat)
      requires Valid() && i < |posted|
      modifies this`sent, this`posted
      ensures Valid() && received == old(received) && posted == old(posted[..i] + posted[i + 1..])
      ensures sent == old(sent) + [Answer(old(posted[i].call), UnknownObject)]
    {
      hide PostedOk, TreeOk, Balanced;
      var p := posted[i];
      ghost var sent0 := sent;
      UnpostedIsBalanced(sent, posted, silent, received, i);
      posted := posted[..i] + posted[i + 1..];
      Send(p.call, UnknownObject);
      SentIsTaken(sent0, silent, p.call, UnknownObject);
      TakenIsBalanced(sent0, silent, sent, silent, posted, received - multiset{p.call}, p.call, ToError(UnknownObject));
      assert received - multiset{p.call} + multiset{p.call} == received;
    }

    // ---------- the tree and the objects change ----------

    /** Objects are registered and unregistered. */
    method ChangeTree(root: Node)
      requires Valid() && TreeOk(root)
      modifies this`rootNode
      ensures Valid() && rootNode == root
    {
      hide Balanced, Fresh, PostedOk;
      rootNode := root;
    }

    /** A new object, which nothing refers to yet. */
    method CreateObject(obj: nat, t: Target)
      requires Valid() && obj !in world
      modifies this`world
      ensures Valid() && world == old(world)[obj := t]
    {
      hide Balanced, Fresh, PostedOk, TreeOk;
      world := world[obj := t];
    }

    /** An object changes, but neither its class nor its adaptors. */
    method ChangeObject(obj: nat, t: Target)
      requires Valid() && obj in world && t.methods == world[obj].methods && t.adaptors == world[obj].adaptors
      modifies this`world
      ensures Valid() && world == old(world)[obj := t]
    {
      hide Balanced, Fresh, PostedOk, TreeOk;
      ghost var before := world;
      world := world[obj := t];
      assert forall owner :: MethodsOf(world, owner) == MethodsOf(before, owner);
    }

    /** An object is destroyed: its events answer with errors, and nothing refers to it any more. */
    method DestroyObject(obj: nat)
      requires Valid()
      modifies this`rootNode, this`world, this`caches, this`sent, this`posted
      ensures Valid() && received == old(received) && silent == old(silent)
      ensures rootNode == Hunted(old(rootNode), obj) && world == WithoutObject(old(world), obj)
      ensures caches == map owner | owner in old(caches) && owner.obj != obj :: old(caches)[owner]
      ensures posted == Others(old(posted), obj) && sent == old(sent) + Errors(old(posted), obj)
    {
      hide Balanced, Fresh, PostedOk, TreeOk, Find, Hunted, WithoutObject;
      DestroyEvents(obj);
      OthersHaveOthers(old(posted), obj);
      HuntedUnbinds(rootNode, obj);
      var root := HuntAndDestroy(obj, rootNode);
      ChangeTree(root);
      ForgetObject(obj);
    }

    /** An object without events goes, with its caches. */
    method ForgetObject(obj: nat)
      requires Valid() && forall i | 0 <= i < |posted| :: posted[i].receiver != obj
      modifies this`world, this`caches
      ensures Valid() && world == WithoutObject(old(world), obj)
      ensures caches == map owner | owner in old(caches) && owner.obj != obj :: old(caches)[owner]
    {
      hide Balanced, Fresh, PostedOk, TreeOk;
      ghost var before := world;
      world := WithoutObject(world, obj);
      caches := map owner | owner in caches && owner.obj != obj :: caches[owner];
      assert forall owner: SlotOwner | owner.obj != obj :: MethodsOf(world, owner) == MethodsOf(before, owner);
    }

    method DestroyEvents(obj: nat)
      requires Valid()
      modifies this`sent, this`posted
      ensures Valid() && received == old(received)
      ensures posted == Others(old(posted), obj) && sent == old(sent) + Errors(old(posted), obj)
    {
      hide PostedOk, TreeOk, Balanced, Fresh;
      var i := 0;
      ghost var k := 0;
      ghost var events := posted;
      assert events[..0] == [] && events[0..] == events;
      while i < |posted|
        invariant Valid() && received == old(received) && i <= |posted| && k <= |events|
        invariant posted[..i] == Others(events[..k], obj) && posted[i..] == events[k..]
        invariant sent == old(sent) + Errors(events[..k], obj)
      {
        OneMoreEvent(events, k, obj);
        assert posted[i] == posted[i..][0] == events[k];
        assert posted[i + 1..] == posted[i..][1..] == events[k + 1..];
        ghost var queue := posted;
        if posted[i].receiver == obj {
          DestroyEvent(i);
          assert posted[..i] == queue[..i] && posted[i..] == queue[i + 1..];
        } else {
          assert posted[..i + 1] == posted[..i] + [posted[i]];
          i := i + 1;
        }
        k := k + 1;
      }
      assert posted[..i] == posted && events[..k] == events;
    }

    /** Once no event is left, every call that expects an automatic reply has as many answers as it was
        received: one for each time. */
    lemma AnsweredExactlyOnce(c: Call)
      requires Valid() && posted == [] && ExpectsReply(c)
      ensures multiset(AnsweredCalls(sent))[c] == received[c]
    {
      assert PostedCalls(posted) == [];
      assert c !in silent;
    }
  }

  lemma SentIsTaken(sent: seq<Answer>, silent: multiset<Call>, c: Call, kind: AnswerKind)
    ensures Taken(sent, silent, sent + [Answer(c, kind)], silent, c, ToError(kind))
  {}

  lemma FilterIsNoSlot(hasObject: bool, c: Call)
    ensures var route := FilterRoute(hasObject, c); route.Some? ==> route.value.ToError? || route.value.ToFilter?
  {}
  /** A call that is misled is answered as if a slot had run, and an error only the second time. */
  method AnsweredByNobody(d: CallDispatcher, owner: SlotOwner, flags: set<Flag>, c: Call) returns (first: bool, second: bool)
    requires d.CachesFresh() && '.' !in c.member && c.replyRequired && !Known(d.caches, owner, flags, c)
    requires Misled(MethodsOf(d.world, owner), SlotExports(flags), c.member, c.signature, d.table)
    modifies d`sent, d`silent, d`caches
    ensures first && !second && d.sent == old(d.sent) + [Answer(c, EmptyReply)]
  {
    hide CacheOf, Known;
    MisledIsNoSlot(MethodsOf(d.world, owner), SlotExports(flags), c.member, c.signature, d.table);
    first := d.ActivateCall(owner, flags, c);
    second := d.ActivateCall(owner, flags, c);
  }

  lemma MisledIsNoSlot(methods: seq<Method>, flags: set<Export>, member: string, signature: string, table: Table)
    requires Misled(methods, flags, member, signature, table)
    ensures !HasSlot(methods, flags, member, signature, table)
  {}
  lemma NothingFound(flags: set<Export>, member: string, signature: string, table: Table)
    ensures !HasSlot([], flags, member, signature, table) && !Misled([], flags, member, signature, table)
  {}

  // ---------- destroyed objects ----------

  function Without(children: seq<nat>, obj: nat): seq<nat> {
    if children == [] then []
    else (if children[0] == obj then [] else [children[0]]) + Without(children[1..], obj)
  }

  /** The other children stay, as often as before. */
  lemma {:induction false} WithoutExactly(children: seq<nat>, obj: nat)
    ensures multiset(Without(children, obj)) == multiset(children)[obj := 0]
  {
    if children != [] {
      WithoutExactly(children[1..], obj);
      assert children == [children[0]] + children[1..];
    }
  }

  lemma WithoutFirst(child: nat, rest: seq<nat>, obj: nat)
    ensures Without([child] + rest, obj) == (if child == obj then [] else [child]) + Without(rest, obj)
  {
    assert ([child] + rest)[1..] == rest;
  }

  /** And in their order. */
  lemma {:induction false} WithoutAppend(a: seq<nat>, b: seq<nat>, obj: nat)
    ensures Without(a + b, obj) == Without(a, obj) + Without(b, obj)
  {
    if a == [] {
      assert a + b == b && Without([], obj) == [];
    } else {
      hide Without;
      WithoutAppend(a[1..], b, obj);
      WithoutFirst(a[0], a[1..] + b, obj);
      WithoutFirst(a[0], a[1..], obj);
      assert a + b == [a[0]] + (a[1..] + b) && a == [a[0]] + a[1..];
    }
  }

  /** Its parent forgets it as well. */
  function WithoutObject(world: World, obj: nat): World {
    map n | n in world && n != obj :: world[n].(children := Without(world[n].children, obj))
  }

  /** The events for other objects. */
  function Others(events: seq<Posted>, obj: nat): seq<Posted> {
    if events == [] then []
    else
      var n := |events| - 1;
      Others(events[..n], obj) + if events[n].receiver == obj then [] else [events[n]]
  }

  /** The answers of the events for an object. */
  function Errors(events: seq<Posted>, obj: nat): seq<Answer> {
    if events == [] then []
    else
      var n := |events| - 1;
      Errors(events[..n], obj) + if events[n].receiver == obj then [Answer(events[n].call, UnknownObject)] else []
  }

  lemma OneMoreEvent(events: seq<Posted>, k: nat, obj: nat)
    requires k < |events|
    ensures Others(events[..k + 1], obj) == Others(events[..k], obj) + if events[k].receiver == obj then [] else [events[k]]
    ensures Errors(events[..k + 1], obj) ==
      Errors(events[..k], obj) + if events[k].receiver == obj then [Answer(events[k].call, UnknownObject)] else []
  {
    assert events[..k + 1][..k] == events[..k];
  }

  lemma {:induction false} OthersHaveOthers(events: seq<Posted>, obj: nat)
    ensures forall p | p in Others(events, obj) :: p.receiver != obj
  {
    if events != [] {
      OthersHaveOthers(events[..|events| - 1], obj);
    }
  }

  // ---------- whole runs ----------

  datatype Command =
    | Comes(call: Call, sameThread: bool)
    | Delivered(i: nat)
    | TreeChanged(root: Node)
    | Created(obj: nat, target: Target)
    | Changed(obj: nat, target: Target)
    | Destroyed(obj: nat)

  predicate CommandOk(command: Command) {
    match command
    case Comes(c, _) => IsValidObjectPath(c.path) && '.' !in c.member
    case TreeChanged(root) => TreeOk(root)
    case _ => true
  }

  /** The calls that come in. */
  function Incoming(commands: seq<Command>): multiset<Call> {
    if commands == [] then multiset{}
    else
      var n := |commands| - 1;
      Incoming(commands[..n]) + if commands[n].Comes? then multiset{commands[n].call} else multiset{}
  }

  /** One command; those that make no sense in this state do nothing. */
  method Step(d: CallDispatcher, command: Command)
    requires d.Valid() && CommandOk(command)
    modifies d
    ensures d.Valid()
    ensures d.received == old(d.received) + if command.Comes? then multiset{command.call} else multiset{}
  {
    hide NamesFrom, IsValidObjectPath, RouteFrom, Components, TreeOk, Find, Balanced, Taken, Fresh, PostedOk, Hunted;
    match command
    case Comes(c, sameThread) => d.HandleObjectCall(c, sameThread);
    case Delivered(i) =>
      if i < |d.posted| {
        ghost var rest := d.DeliverEvent(i);
      }
    case TreeChanged(root) => d.ChangeTree(root);
    case Created(obj, t) =>
      if obj !in d.world {
        d.CreateObject(obj, t);
      }
    case Changed(obj, t) =>
      if obj in d.world && t.methods == d.world[obj].methods && t.adaptors == d.world[obj].adaptors {
        d.ChangeObject(obj, t);
      }
    case Destroyed(obj) => d.DestroyObject(obj);
  }

  /** Whatever comes, is delivered, changes and is destroyed, in whatever order: when the events that are
      left have been delivered, every call that expects an automatic answer has exactly one for each
      time it came in. */
  method Run(rootNode: Node, world: World, table: Table, commands: seq<Command>) returns (d: CallDispatcher)
    requires TreeOk(rootNode) && forall i | 0 <= i < |commands| :: CommandOk(commands[i])
    ensures fresh(d) && d.Valid() && d.posted == [] && d.received == Incoming(commands)
    ensures forall c | ExpectsReply(c) :: multiset(AnsweredCalls(d.sent))[c] == Incoming(commands)[c]
  {
    hide TreeOk, Balanced, Fresh, PostedOk, CommandOk, RouteFrom, NamesFrom, Taken, IsValidObjectPath;
    d := new CallDispatcher(rootNode, world, table);
    var i := 0;
    while i < |commands|
      invariant 0 <= i <= |commands| && fresh(d) && d.Valid() && d.received == Incoming(commands[..i])
    {
      Step(d, commands[i]);
      assert commands[..i + 1][..i] == commands[..i];
      i := i + 1;
    }
    assert commands[..i] == commands;
    while d.posted != []
      invariant fresh(d) && d.Valid() && d.received == Incoming(commands)
      decreases |d.posted|
    {
      ghost var rest := d.DeliverEvent(0);
    }
    forall c | ExpectsReply(c) ensures multiset(AnsweredCalls(d.sent))[c] == Incoming(commands)[c] {
      d.AnsweredExactlyOnce(c);
    }
  }
  // ---------- who answers ----------

  /** The object that a node and the names left over lead to. */
  predicate LeadsTo(world: World, node: Node, names: seq<string>, obj: nat) {
    obj in world
    && if names == [] then node.obj == Some(obj)
       else ExportChildObjects in node.flags && node.obj.Some? && Descend(world, node.obj.value, names) == Some(obj)
  }

  /** The adaptors of the object do not take the call: they are not exported, or there are none, or none
      has a slot for it or the interface it asks for. */
  predicate NoAdaptorTakes(world: World, caches: Caches, obj: nat, flags: set<Flag>, c: Call, table: Table)
    requires obj in world
  {
    var adaptors := world[obj].adaptors;
    || ExportAdaptors !in flags
    || !world[obj].hasConnector
    || (c.interface == "" && forall i | 0 <= i < |adaptors| :: AdaptorRefuses(world, caches, obj, i, flags, c, table))
    || (c.interface != "" && forall i | 0 <= i < |adaptors| :: adaptors[i].interface != c.interface)
  }

  /** One adaptor, for which all slots count as exported, has no slot for the call, nor a misleading one. */
  predicate AdaptorRefuses(world: World, caches: Caches, obj: nat, i: nat, flags: set<Flag>, c: Call, table: Table)
    requires obj in world && i < |world[obj].adaptors|
  {
    var methods := world[obj].adaptors[i].methods;
    var exports := SlotExports(flags + {ExportScriptableSlots, ExportNonScriptableSlots});
    && !HasSlot(methods, exports, c.member, c.signature, table)
    && (Misled(methods, exports, c.member, c.signature, table) ==>
          Known(caches, OfAdaptor(obj, i), flags + {ExportScriptableSlots, ExportNonScriptableSlots}, c))
  }

  predicate IsIntrospection(c: Call) {
    c.member == "Introspect" && c.signature == ""
  }

  predicate IsPropertyAccess(c: Call) {
    || (c.member == "Get" && c.signature == "ss")
    || (c.member == "Set" && c.signature == "ssv")
    || (c.member == "GetAll" && c.signature == "s")
  }

  /** Neither the introspection nor the properties interface takes the call. */
  predicate NoInternalTakes(c: Call) {
    && c.interface != INTROSPECTABLE && c.interface != PROPERTIES
    && (c.interface == "" ==> !IsIntrospection(c) && !IsPropertyAccess(c))
  }

  lemma {:induction false} NobodyFrom(world: World, caches: Caches, obj: nat, i: nat, flags: set<Flag>, c: Call, table: Table)
    requires obj in world && i <= |world[obj].adaptors|
    requires forall j | i <= j < |world[obj].adaptors| :: AdaptorRefuses(world, caches, obj, j, flags, c, table)
    ensures FirstTaker(world, caches, obj, i, flags + ALL_SLOTS, c, table) == None
    decreases |world[obj].adaptors| - i
  {
    hide HasSlot, Misled, Known, SlotExports;
    if i < |world[obj].adaptors| {
      assert AdaptorRefuses(world, caches, obj, i, flags, c, table);
      NobodyFrom(world, caches, obj, i + 1, flags, c, table);
    }
  }

  lemma {:induction false} NoneFor(adaptors: seq<Adaptor>, interface: string)
    requires forall i | 0 <= i < |adaptors| :: adaptors[i].interface != interface
    ensures AdaptorFor(adaptors, interface) == None
  {
    if adaptors != [] {
      assert forall i | 0 <= i < |adaptors| - 1 :: adaptors[1..][i] == adaptors[i + 1];
      NoneFor(adaptors[1..], interface);
    }
  }

  lemma {:induction false} FirstFor(adaptors: seq<Adaptor>, interface: string, k: nat)
    requires k < |adaptors| && adaptors[k].interface == interface
    requires forall i | 0 <= i < k :: adaptors[i].interface != interface
    ensures AdaptorFor(adaptors, interface) == Some(k)
  {
    if k > 0 {
      assert forall i | 0 <= i < |adaptors| - 1 :: adaptors[1..][i] == adaptors[i + 1];
      FirstFor(adaptors[1..], interface, k - 1);
    }
  }

  lemma AdaptorsStepAside(world: World, caches: Caches, obj: nat, flags: set<Flag>, c: Call, table: Table)
    requires obj in world && NoAdaptorTakes(world, caches, obj, flags, c, table)
    ensures AdaptorRoute(world, caches, obj, flags, c, table) == None
  {
    hide AdaptorRefuses, SlotRoute;
    if ExportAdaptors in flags && world[obj].hasConnector {
      if c.interface == "" {
        NobodyFrom(world, caches, obj, 0, flags, c, table);
      } else {
        NoneFor(world[obj].adaptors, c.interface);
      }
    }
  }

  /** How many answers a slot gives, and which. */
  twostate predicate SlotHasAnswered(d: CallDispatcher, c: Call)
    reads d
  {
    if c.replyRequired && !c.delayed then d.sent == old(d.sent) + [Answer(c, if c.fails then SlotFailed else SlotReply)]
    else d.sent == old(d.sent)
  }

  /** The flags with which a call arrives at an object: those of the node, without the ones for signals
      if the object is a child found by name. */
  function ArrivingFlags(node: Node, names: seq<string>): set<Flag> {
    if names == [] then node.flags else node.flags - {ExportScriptableSignals, ExportNonScriptableSignals}
  }

  /** What a call needs to get to an object. */
  ghost predicate Arrives(d: CallDispatcher, node: Node, c: Call, pathStart: nat, names: seq<string>, obj: nat)
    reads d
  {
    && d.CachesFresh() && '.' !in c.member
    && pathStart <= |c.path| && NamesFrom(c.path, pathStart, names)
    && (forall i | 0 <= i < |names| :: names[i] != "")
    && LeadsTo(d.world, node, names, obj)
  }

  lemma RouteOfArrival(world: World, caches: Caches, node: Node, names: seq<string>, obj: nat, c: Call, table: Table)
    requires LeadsTo(world, node, names, obj)
    ensures RouteFrom(world, caches, node, names, c, table)
      == RouteAt(world, caches, Some(obj), ArrivingFlags(node, names), c, table)
  {
    hide RouteAt;
  }

  /** An adaptor comes first: the first one with the interface the call asks for answers if it has a
      public slot that suits it, whatever the internal interfaces and the object could do. */
  method AdaptorAnswers(d: CallDispatcher, node: Node, c: Call, pathStart: nat, ghost names: seq<string>,
    ghost obj: nat, ghost i: nat, ghost k: nat)
    requires Arrives(d, node, c, pathStart, names, obj)
    requires ExportAdaptors in node.flags && d.world[obj].hasConnector
    requires i < |d.world[obj].adaptors| && c.interface != "" && d.world[obj].adaptors[i].interface == c.interface
    requires forall j | 0 <= j < i :: d.world[obj].adaptors[j].interface != c.interface
    requires k < |d.world[obj].adaptors[i].methods|
    requires d.world[obj].adaptors[i].methods[k].kind == Slot
    requires Suits(d.world[obj].adaptors[i].methods[k], c.member, c.signature, d.table)
    modifies d`sent, d`silent, d`caches
    ensures SlotHasAnswered(d, c)
  {
    hide Suits, HasSlot, Fresh, SlotExports, NamesFrom, RouteFrom, Misled;
    RouteOfArrival(d.world, d.caches, node, names, obj, c, d.table);
    FirstFor(d.world[obj].adaptors, c.interface, i);
    OpenMethodIsFound(d.world[obj].adaptors[i].methods, k, ArrivingFlags(node, names) + ALL_SLOTS, c.member, c.signature, d.table);
    d.ActivateObject(node, c, pathStart, names);
  }

  /** If the adaptor with that interface has no slot for the call, the call fails: neither the internal
      interfaces nor the object are asked. */
  method AdaptorFails(d: CallDispatcher, node: Node, c: Call, pathStart: nat, ghost names: seq<string>,
    ghost obj: nat, ghost i: nat)
    requires Arrives(d, node, c, pathStart, names, obj)
    requires ExportAdaptors in node.flags && d.world[obj].hasConnector
    requires i < |d.world[obj].adaptors| && c.interface != "" && d.world[obj].adaptors[i].interface == c.interface
    requires forall j | 0 <= j < i :: d.world[obj].adaptors[j].interface != c.interface
    requires AdaptorRefuses(d.world, d.caches, obj, i, ArrivingFlags(node, names), c, d.table)
    modifies d`sent, d`silent, d`caches
    ensures d.sent == old(d.sent) + [Answer(c, UnknownMethod)] && d.silent == old(d.silent)
  {
    hide HasSlot, Fresh, SlotExports, NamesFrom, RouteFrom, Misled, Known;
    RouteOfArrival(d.world, d.caches, node, names, obj, c, d.table);
    FirstFor(d.world[obj].adaptors, c.interface, i);
    d.ActivateObject(node, c, pathStart, names);
  }

  lemma {:induction false} FirstTakes(world: World, caches: Caches, obj: nat, i: nat, k: nat, flags: set<Flag>, c: Call, table: Table)
    requires obj in world && i <= k < |world[obj].adaptors|
    requires forall j | i <= j < k :: AdaptorRefuses(world, caches, obj, j, flags, c, table)
    requires HasSlot(world[obj].adaptors[k].methods, SlotExports(flags + ALL_SLOTS), c.member, c.signature, table)
    ensures FirstTaker(world, caches, obj, i, flags + ALL_SLOTS, c, table) == Some(ToSlot)
    decreases k - i
  {
    hide HasSlot, Misled, Known, SlotExports;
    if i < k {
      assert AdaptorRefuses(world, caches, obj, i, flags, c, table);
      FirstTakes(world, caches, obj, i + 1, k, flags, c, table);
    }
  }

  /** A call that asks for no interface goes to the first adaptor with a slot for it, whatever the
      internal interfaces and the object could do. */
  method AnyAdaptorAnswers(d: CallDispatcher, node: Node, c: Call, pathStart: nat, ghost names: seq<string>,
    ghost obj: nat, ghost i: nat, ghost k: nat)
    requires Arrives(d, node, c, pathStart, names, obj)
    requires ExportAdaptors in node.flags && d.world[obj].hasConnector && c.interface == ""
    requires i < |d.world[obj].adaptors| && k < |d.world[obj].adaptors[i].methods|
    requires forall j | 0 <= j < i :: AdaptorRefuses(d.world, d.caches, obj, j, ArrivingFlags(node, names), c, d.table)
    requires d.world[obj].adaptors[i].methods[k].kind == Slot
    requires Suits(d.world[obj].adaptors[i].methods[k], c.member, c.signature, d.table)
    modifies d`sent, d`silent, d`caches
    ensures SlotHasAnswered(d, c)
  {
    hide Suits, HasSlot, Fresh, SlotExports, NamesFrom, RouteFrom, AdaptorRefuses;
    RouteOfArrival(d.world, d.caches, node, names, obj, c, d.table);
    OpenMethodIsFound(d.world[obj].adaptors[i].methods, k, ArrivingFlags(node, names) + ALL_SLOTS, c.member, c.signature, d.table);
    FirstTakes(d.world, d.caches, obj, 0, i, ArrivingFlags(node, names), c, d.table);
    d.ActivateObject(node, c, pathStart, names);
  }

  /** Next come the internal interfaces, whatever the object could do: introspection and properties, under
      their own names or none. */
  method InternalAnswers(d: CallDispatcher, node: Node, c: Call, pathStart: nat, ghost names: seq<string>, ghost obj: nat)
    requires Arrives(d, node, c, pathStart, names, obj)
    requires NoAdaptorTakes(d.world, d.caches, obj, ArrivingFlags(node, names), c, d.table) && !NoInternalTakes(c)
    modifies d`sent, d`silent, d`caches
    ensures d.silent == old(d.silent)
    ensures d.sent == old(d.sent) + [Answer(c,
      if c.interface in ["", INTROSPECTABLE] && IsIntrospection(c) then Introspection
      else if c.interface in ["", PROPERTIES] && IsPropertyAccess(c) then PropertyReply
      else UnknownMethod)]
  {
    hide Fresh, NamesFrom, RouteFrom, NoAdaptorTakes, AdaptorRoute, ObjectRoute;
    RouteOfArrival(d.world, d.caches, node, names, obj, c, d.table);
    AdaptorsStepAside(d.world, d.caches, obj, ArrivingFlags(node, names), c, d.table);
    d.ActivateObject(node, c, pathStart, names);
  }

  /** The object comes last: where no adaptor and no internal interface takes the call, and the call asks
      for no interface or for one of the object's, a method that suits it and is open to it answers. */
  method ObjectAnswers(d: CallDispatcher, node: Node, c: Call, pathStart: nat, ghost names: seq<string>,
    ghost obj: nat, ghost k: nat)
    requires Arrives(d, node, c, pathStart, names, obj)
    requires NoAdaptorTakes(d.world, d.caches, obj, ArrivingFlags(node, names), c, d.table) && NoInternalTakes(c)
    requires c.interface == "" || c.interface in d.world[obj].interfaces
    requires k < |d.world[obj].methods|
    requires Suits(d.world[obj].methods[k], c.member, c.signature, d.table) && IsOpen(d.world[obj].methods[k], node.flags)
    modifies d`sent, d`silent, d`caches
    ensures SlotHasAnswered(d, c)
  {
    hide Suits, HasSlot, Fresh, NoAdaptorTakes, AdaptorRoute, SlotExports, NamesFrom, RouteFrom;
    RouteOfArrival(d.world, d.caches, node, names, obj, c, d.table);
    AdaptorsStepAside(d.world, d.caches, obj, ArrivingFlags(node, names), c, d.table);
    OpenMethodIsFound(d.world[obj].methods, k, ArrivingFlags(node, names), c.member, c.signature, d.table);
    d.ActivateObject(node, c, pathStart, names);
  }

  predicate NothingExported(flags: set<Flag>) {
    && ExportScriptableSlots !in flags && ExportNonScriptableSlots !in flags
    && ExportScriptableInvokables !in flags && ExportNonScriptableInvokables !in flags
  }

  /** An object that exports something, and has the interface, but no slot for the call. */
  method ObjectFails(d: CallDispatcher, node: Node, c: Call, pathStart: nat, ghost names: seq<string>, ghost obj: nat)
    requires Arrives(d, node, c, pathStart, names, obj)
    requires NoAdaptorTakes(d.world, d.caches, obj, ArrivingFlags(node, names), c, d.table) && NoInternalTakes(c)
    requires !NothingExported(node.flags) && (c.interface == "" || c.interface in d.world[obj].interfaces)
    requires SlotRoute(d.world, d.caches, Own(obj), ArrivingFlags(node, names), c, d.table) == None
    modifies d`sent, d`silent, d`caches
    ensures d.sent == old(d.sent) + [Answer(c, UnknownMethod)] && d.silent == old(d.silent)
  {
    hide Fresh, NoAdaptorTakes, AdaptorRoute, NamesFrom, RouteFrom, SlotRoute;
    RouteOfArrival(d.world, d.caches, node, names, obj, c, d.table);
    AdaptorsStepAside(d.world, d.caches, obj, ArrivingFlags(node, names), c, d.table);
    d.ActivateObject(node, c, pathStart, names);
  }

  /** Names that lead nowhere. */
  method NobodyThere(d: CallDispatcher, node: Node, c: Call, pathStart: nat, ghost names: seq<string>)
    requires d.CachesFresh() && '.' !in c.member
    requires pathStart <= |c.path| && NamesFrom(c.path, pathStart, names) && names != []
    requires forall i | 0 <= i < |names| :: names[i] != ""
    requires ExportChildObjects !in node.flags || node.obj.None? || Descend(d.world, node.obj.value, names) == None
    modifies d`sent, d`silent, d`caches
    ensures d.sent == old(d.sent) + [Answer(c, UnknownObject)] && d.silent == old(d.silent)
  {
    hide Fresh, NamesFrom;
    d.ActivateObject(node, c, pathStart, names);
  }

  /** With none of the four flags, or for an interface the object does not have, the object's own methods
      never get the call. */
  method ObjectIsClosed(d: CallDispatcher, node: Node, c: Call, pathStart: nat, ghost names: seq<string>, ghost obj: nat)
    requires Arrives(d, node, c, pathStart, names, obj)
    requires NoAdaptorTakes(d.world, d.caches, obj, ArrivingFlags(node, names), c, d.table) && NoInternalTakes(c)
    requires NothingExported(node.flags) || (c.interface != "" && c.interface !in d.world[obj].interfaces)
    modifies d`sent, d`silent, d`caches
    ensures d.sent == old(d.sent) + [Answer(c, if c.interface == "" then UnknownMethod else UnknownInterface)]
    ensures d.silent == old(d.silent)
  {
    hide Fresh, NoAdaptorTakes, AdaptorRoute, NamesFrom, RouteFrom;
    RouteOfArrival(d.world, d.caches, node, names, obj, c, d.table);
    AdaptorsStepAside(d.world, d.caches, obj, ArrivingFlags(node, names), c, d.table);
    d.ActivateObject(node, c, pathStart, names);
  }
}
