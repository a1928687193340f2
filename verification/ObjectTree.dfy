/** The tree of registered objects: nodes with sorted children that stand for a map from object
    paths to objects. */
module ObjectTree {
  import opened Wrappers
  import opened NameRules
  import opened ObjectPaths

  datatype Flag =
    | ExportAdaptors
    | ExportScriptableSlots | ExportScriptableSignals | ExportScriptableProperties | ExportScriptableInvokables
    | ExportNonScriptableSlots | ExportNonScriptableSignals | ExportNonScriptableProperties | ExportNonScriptableInvokables
    | ExportChildObjects

  datatype Node = Node(name: string, obj: Option<nat>, flags: set<Flag>, children: seq<Node>)

  datatype Binding = Binding(obj: nat, flags: set<Flag>)

  // ---------- the order of names ----------

  /** operator< of QString. */
  predicate Less(a: string, b: string) {
    b != "" && (a == "" || a[0] < b[0] || (a[0] == b[0] && Less(a[1..], b[1..])))
  }

  lemma {:induction false} LessTotal(a: string, b: string)
    ensures a == b || Less(a, b) || Less(b, a)
    ensures Less(a, b) ==> a != b && !Less(b, a)
  {
    if a != "" && b != "" && a[0] == b[0] {
      LessTotal(a[1..], b[1..]);
      assert a == [a[0]] + a[1..] && b == [b[0]] + b[1..];
    }
  }

  lemma {:induction false} LessTransitive(a: string, b: string, c: string)
    requires Less(a, b) && Less(b, c)
    ensures Less(a, c)
  {
    if a != "" && a[0] == b[0] == c[0] {
      LessTransitive(a[1..], b[1..], c[1..]);
    }
  }

  predicate Sorted(nodes: seq<Node>) {
    forall i, j | 0 <= i < j < |nodes| :: Less(nodes[i].name, nodes[j].name)
  }

  /** What every operation keeps. Below the root, names are valid parts of a path, and a node that
      exports its own child objects has no children in the tree. */
  predicate TreeOk(node: Node) {
    && Sorted(node.children)
    && (node.obj == None ==> node.flags == {})
    && forall i | 0 <= i < |node.children| :: TreeOk(node.children[i]) && ChildOk(node.children[i])
  }

  predicate ChildOk(node: Node) {
    ClosedToChildren(node) && ValidPart(node.name)
  }

  predicate ClosedToChildren(node: Node) {
    ExportChildObjects in node.flags ==> node.children == []
  }

  // ---------- the map ----------

  /** The place of a child, or the number of children. */
  function IndexOf(nodes: seq<Node>, name: string): (i: nat)
    ensures i <= |nodes| && (i < |nodes| ==> nodes[i].name == name)
    ensures forall j | 0 <= j < i :: nodes[j].name != name
  {
    if nodes == [] || nodes[0].name == name then 0 else 1 + IndexOf(nodes[1..], name)
  }

  lemma IndexUnique(nodes: seq<Node>, name: string, i: nat)
    requires Sorted(nodes) && i < |nodes| && nodes[i].name == name
    ensures IndexOf(nodes, name) == i
  {
    var k := IndexOf(nodes, name);
    if k < i {
      LessTotal(nodes[k].name, nodes[i].name);
    }
  }

  function Find(node: Node, path: seq<string>): Option<Node>
    decreases path
  {
    if path == [] then Some(node)
    else
      var i := IndexOf(node.children, path[0]);
      if i == |node.children| then None else Find(node.children[i], path[1..])
  }

  /** The object registered at a path, with its flags. */
  function Lookup(node: Node, path: seq<string>): Option<Binding> {
    match Find(node, path)
    case Some(n) => if n.obj.Some? then Some(Binding(n.obj.value, n.flags)) else None
    case None => None
  }

  predicate Exports(node: Node, path: seq<string>) {
    var n := Find(node, path);
    n.Some? && ExportChildObjects in n.value.flags
  }

  lemma {:induction false} FoundIsOk(node: Node, path: seq<string>)
    requires TreeOk(node) && Find(node, path).Some?
    ensures TreeOk(Find(node, path).value)
    ensures path != [] ==> ClosedToChildren(Find(node, path).value)
    decreases path
  {
    if path != [] {
      var child := node.children[IndexOf(node.children, path[0])];
      FoundIsOk(child, path[1..]);
    }
  }

  /** Below a node of the tree that exports its child objects, nothing is registered. */
  lemma NothingBelowExporter(root: Node, path: seq<string>, below: seq<string>)
    requires TreeOk(root) && path != [] && Exports(root, path) && below != []
    ensures Lookup(root, path + below) == None
  {
    FoundIsOk(root, path);
    FindAppend(root, path, below);
  }

  lemma {:induction false} FindAppend(node: Node, a: seq<string>, b: seq<string>)
    ensures Find(node, a + b) == if Find(node, a).Some? then Find(Find(node, a).value, b) else None
    decreases a
  {
    if a == [] {
      assert a + b == b;
    } else {
      var i := IndexOf(node.children, a[0]);
      assert (a + b)[1..] == a[1..] + b;
      if i < |node.children| {
        FindAppend(node.children[i], a[1..], b);
      }
    }
  }

  // ---------- replacing and inserting a child ----------

  /** One child is replaced or added, and nothing else changes. */
  ghost predicate WithChild(before: Node, after: Node, child: Node) {
    && after == before.(children := after.children)
    && (forall path | path != [] && path[0] == child.name :: Find(after, path) == Find(child, path[1..]))
    && (forall path | path != [] && path[0] != child.name :: Find(after, path) == Find(before, path))
  }

  lemma ReplaceChild(node: Node, i: nat, child: Node)
    requires Sorted(node.children) && i < |node.children| && child.name == node.children[i].name
    ensures Sorted(node.children[i := child])
    ensures WithChild(node, node.(children := node.children[i := child]), child)
  {
    var kids := node.children[i := child];
    forall name ensures IndexOf(kids, name) == IndexOf(node.children, name) {
      var k := IndexOf(node.children, name);
      if k < |kids| {
        IndexUnique(kids, name, k);
      } else if IndexOf(kids, name) < |kids| {
        IndexUnique(node.children, name, IndexOf(kids, name));
      }
    }
    IndexUnique(node.children, child.name, i);
  }

  function Inserted(nodes: seq<Node>, i: nat, child: Node): seq<Node>
    requires i <= |nodes|
  {
    nodes[..i] + [child] + nodes[i..]
  }

  /** Where a name belongs among sorted nodes. */
  predicate IsLowerBound(nodes: seq<Node>, name: string, i: nat) {
    && i <= |nodes|
    && (forall j | 0 <= j < i :: Less(nodes[j].name, name))
    && (forall j | i <= j < |nodes| :: !Less(nodes[j].name, name))
  }

  /** The name is among the nodes exactly if it is at its lower bound. */
  lemma LowerBoundFinds(nodes: seq<Node>, name: string, i: nat)
    requires Sorted(nodes) && IsLowerBound(nodes, name, i)
    ensures if i < |nodes| && nodes[i].name == name then IndexOf(nodes, name) == i else IndexOf(nodes, name) == |nodes|
  {
    var k := IndexOf(nodes, name);
    if i < |nodes| && nodes[i].name == name {
      IndexUnique(nodes, name, i);
    } else if k < |nodes| {
      LessTotal(nodes[k].name, name);
    }
  }

  lemma InsertSorted(nodes: seq<Node>, i: nat, child: Node)
    requires Sorted(nodes) && IsLowerBound(nodes, child.name, i)
    requires i < |nodes| ==> nodes[i].name != child.name
    ensures Sorted(Inserted(nodes, i, child))
  {
    var more := Inserted(nodes, i, child);
    forall j | i <= j < |nodes| ensures Less(child.name, nodes[j].name) {
      LessTotal(child.name, nodes[j].name);
      if j > i {
        LessTotal(child.name, nodes[i].name);
        LessTransitive(child.name, nodes[i].name, nodes[j].name);
      }
    }
    forall a, b | 0 <= a < b < |more| ensures Less(more[a].name, more[b].name) {
      if a != i && b != i {
        assert more[a] == nodes[if a < i then a else a - 1];
        assert more[b] == nodes[if b < i then b else b - 1];
      }
    }
  }

  lemma IndexAfterInsert(nodes: seq<Node>, i: nat, child: Node, name: string)
    requires Sorted(nodes) && IsLowerBound(nodes, child.name, i)
    requires i < |nodes| ==> nodes[i].name != child.name
    ensures Sorted(Inserted(nodes, i, child))
    ensures var k := IndexOf(nodes, name);
      IndexOf(Inserted(nodes, i, child), name) == if name == child.name then i else if k < i then k else k + 1
  {
    hide IndexOf;
    var k, more := IndexOf(nodes, name), Inserted(nodes, i, child);
    InsertSorted(nodes, i, child);
    if name == child.name {
      IndexUnique(more, name, i);
    } else if k < |nodes| {
      IndexUnique(more, name, if k < i then k else k + 1);
    }
  }

  lemma InsertChild(node: Node, i: nat, child: Node)
    requires Sorted(node.children) && IsLowerBound(node.children, child.name, i)
    requires i < |node.children| ==> node.children[i].name != child.name
    ensures Sorted(Inserted(node.children, i, child))
    ensures WithChild(node, node.(children := Inserted(node.children, i, child)), child)
  {
    hide IndexOf;
    var kids := node.children;
    var after := node.(children := Inserted(kids, i, child));
    InsertSorted(kids, i, child);
    forall path: seq<string> | path != []
      ensures Find(after, path) == if path[0] == child.name then Find(child, path[1..]) else Find(node, path)
    {
      IndexAfterInsert(kids, i, child, path[0]);
    }
  }

  // ---------- registering ----------

  /** qLowerBound. */
  method LowerBound(nodes: seq<Node>, name: string) returns (begin: nat)
    requires Sorted(nodes)
    ensures IsLowerBound(nodes, name, begin)
  {
    begin := 0;
    var n: nat := |nodes|;
    while n > 0
      invariant begin + n <= |nodes|
      invariant forall j | 0 <= j < begin :: Less(nodes[j].name, name)
      invariant forall j | begin + n <= j < |nodes| :: !Less(nodes[j].name, name)
    {
      var half := n / 2;
      var middle := begin + half;
      BelowAndAbove(nodes, name, middle);
      if Less(nodes[middle].name, name) {
        begin := middle + 1;
        n := n - half - 1;
      } else {
        n := half;
      }
    }
  }

  lemma BelowAndAbove(nodes: seq<Node>, name: string, k: nat)
    requires Sorted(nodes) && k < |nodes|
    ensures Less(nodes[k].name, name) ==> forall j | 0 <= j <= k :: Less(nodes[j].name, name)
    ensures !Less(nodes[k].name, name) ==> forall j | k <= j < |nodes| :: !Less(nodes[j].name, name)
  {
    if Less(nodes[k].name, name) {
      forall j | 0 <= j < k ensures Less(nodes[j].name, name) {
        LessTransitive(nodes[j].name, nodes[k].name, name);
      }
    } else {
      forall j | k < j < |nodes| ensures !Less(nodes[j].name, name) {
        if Less(nodes[j].name, name) {
          LessTransitive(nodes[k].name, nodes[j].name, name);
        }
      }
    }
  }

  function HasNoChildren(node: Node, path: seq<string>): bool {
    Find(node, path).Some? ==> Find(node, path).value.children == []
  }

  /** When an object can be registered: the place is free, no node on the way down, nor the place
      itself, exports its own child objects - the root is not asked - and whoever wants to export
      child objects has no nodes below. */
  predicate MayRegister(node: Node, path: seq<string>, options: set<Flag>) {
    && Lookup(node, path) == None
    && (forall k | 0 < k <= |path| :: !Exports(node, path[..k]))
    && (ExportChildObjects in options ==> HasNoChildren(node, path))
  }

  lemma MayRegisterBelow(node: Node, path: seq<string>, options: set<Flag>)
    requires path != []
    ensures var i := IndexOf(node.children, path[0]);
      MayRegister(node, path, options) <==>
        (i == |node.children|
        || (ExportChildObjects !in node.children[i].flags && MayRegister(node.children[i], path[1..], options)))
  {
    var i := IndexOf(node.children, path[0]);
    assert forall k | 0 < k <= |path| :: path[..k][0] == path[0] && path[..k][1..] == path[1..][..k - 1];
    if i < |node.children| {
      var child := node.children[i];
      assert forall k | 0 < k <= |path| :: Exports(node, path[..k]) == Exports(child, path[1..][..k - 1]);
      assert Exports(node, path[..1]) == (ExportChildObjects in child.flags);
      assert forall k | 0 < k <= |path| - 1 :: Exports(child, path[1..][..k]) == Exports(node, path[..k + 1]);
    }
  }

  /** One binding is added. */
  ghost predicate Bound(before: Node, after: Node, path: seq<string>, binding: Option<Binding>) {
    forall q :: Lookup(after, q) == if q == path then binding else Lookup(before, q)
  }

  lemma BoundBelow(before: Node, after: Node, child: Node, child': Node, path: seq<string>, binding: Option<Binding>)
    requires path != [] && WithChild(before, after, child') && child'.name == path[0]
    requires Bound(child, child', path[1..], binding)
    requires forall q | q != [] && q[0] == path[0] :: Lookup(before, q) == Lookup(child, q[1..])
    ensures Bound(before, after, path, binding)
  {
    forall q ensures Lookup(after, q) == if q == path then binding else Lookup(before, q) {
      if q != [] && q[0] == path[0] {
        assert q == path <==> q[1..] == path[1..];
      }
    }
  }

  /** The walk of registerObject below one node. */
  method RegisterIn(node: Node, path: seq<string>, obj: nat, options: set<Flag>) returns (ok: bool, node': Node)
    requires TreeOk(node) && ValidParts(path)
    ensures ok == MayRegister(node, path, options)
    ensures !ok ==> node' == node
    ensures ok ==> TreeOk(node') && Bound(node, node', path, Some(Binding(obj, options)))
    ensures ok ==> node'.name == node.name
    ensures ok && path == [] ==> node' == node.(obj := Some(obj), flags := options) && ClosedToChildren(node')
    ensures ok && path != [] ==> node'.flags == node.flags
    decreases |path|
  {
    hide Find, IndexOf, MayRegister, Bound, Sorted, IsLowerBound, WithChild;
    node' := node;
    if path == [] {
      RegisteredHere(node, obj, options);
      if node.obj.Some? {
        return false, node;
      }
      if ExportChildObjects in options && node.children != [] {
        return false, node;
      }
      node' := node.(obj := Some(obj), flags := options);
      return true, node';
    }
    var i := LowerBound(node.children, path[0]);
    LowerBoundFinds(node.children, path[0], i);
    LowerBoundInRange(node.children, path[0], i);
    MayRegisterBelow(node, path, options);
    if i < |node.children| && node.children[i].name == path[0] {
      var child := node.children[i];
      if ExportChildObjects in child.flags {
        return false, node;
      }
      var child';
      ok, child' := RegisterIn(child, path[1..], obj, options);
      if ok {
        node' := node.(children := node.children[i := child']);
        ChildReplaced(node, i, child', path, Some(Binding(obj, options)));
      }
    } else {
      var child := Node(path[0], None, {}, []);
      var child';
      NewNodeIsFree(child, path[1..], options);
      ok, child' := RegisterIn(child, path[1..], obj, options);
      node' := node.(children := Inserted(node.children, i, child'));
      ChildInserted(node, i, child, child', path, Some(Binding(obj, options)));
    }
  }

  lemma LowerBoundInRange(nodes: seq<Node>, name: string, i: nat)
    requires IsLowerBound(nodes, name, i)
    ensures i <= |nodes|
  {}

  lemma RegisteredHere(node: Node, obj: nat, options: set<Flag>)
    requires TreeOk(node)
    ensures MayRegister(node, [], options) <==> node.obj.None? && (ExportChildObjects in options ==> node.children == [])
    ensures TreeOk(node.(obj := Some(obj), flags := options))
    ensures Bound(node, node.(obj := Some(obj), flags := options), [], Some(Binding(obj, options)))
  {
    var after := node.(obj := Some(obj), flags := options);
    forall q: seq<string> | q != [] ensures Find(after, q) == Find(node, q) {}
  }

  lemma ChildReplaced(node: Node, i: nat, child: Node, path: seq<string>, binding: Option<Binding>)
    requires TreeOk(node) && TreeOk(child) && ClosedToChildren(child)
    requires i < |node.children| && child.name == node.children[i].name
    requires path != [] && path[0] == child.name && Bound(node.children[i], child, path[1..], binding)
    ensures TreeOk(node.(children := node.children[i := child]))
    ensures Bound(node, node.(children := node.children[i := child]), path, binding)
  {
    hide Bound, WithChild;
    ReplaceChild(node, i, child);
    IndexUnique(node.children, child.name, i);
    BoundBelow(node, node.(children := node.children[i := child]), node.children[i], child, path, binding);
  }

  lemma ChildInserted(node: Node, i: nat, empty: Node, child: Node, path: seq<string>, binding: Option<Binding>)
    requires TreeOk(node) && TreeOk(child) && ChildOk(child)
    requires i <= |node.children| && IsLowerBound(node.children, child.name, i)
    requires IndexOf(node.children, child.name) == |node.children|
    requires forall q :: Lookup(empty, q) == None
    requires path != [] && path[0] == child.name && Bound(empty, child, path[1..], binding)
    ensures TreeOk(node.(children := Inserted(node.children, i, child)))
    ensures Bound(node, node.(children := Inserted(node.children, i, child)), path, binding)
  {
    var after := node.(children := Inserted(node.children, i, child));
    InsertChild(node, i, child);
    InsertedOk(node, i, child);
    BoundBelow(node, after, empty, child, path, binding);
  }

  lemma InsertedOk(node: Node, i: nat, child: Node)
    requires TreeOk(node) && TreeOk(child) && ChildOk(child)
    requires i <= |node.children| && Sorted(Inserted(node.children, i, child))
    ensures TreeOk(node.(children := Inserted(node.children, i, child)))
  {
    var after := node.(children := Inserted(node.children, i, child));
    forall j | 0 <= j < |after.children| ensures TreeOk(after.children[j]) && ChildOk(after.children[j]) {
      assert after.children[j] == if j < i then node.children[j] else if j == i then child else node.children[j - 1];
    }
  }

  lemma NewNodeIsFree(node: Node, path: seq<string>, options: set<Flag>)
    requires node.children == [] && node.obj == None && node.flags == {}
    ensures TreeOk(node) && MayRegister(node, path, options)
    ensures forall q :: Lookup(node, q) == None
  {}

  /** The root is not asked: neither its object nor its flags keep one from being registered below. */
  lemma RootIsNotAsked(root: Node, other: Node, path: seq<string>, options: set<Flag>)
    requires root.children == other.children && path != []
    ensures MayRegister(root, path, options) <==> MayRegister(other, path, options)
  {
    assert forall q: seq<string> | q != [] :: Find(other, q) == Find(root, q);
    assert forall k | 0 < k <= |path| :: path[..k] != [];
  }

  /** So any path can be taken below a root that exports its child objects. The object is bound there,
      while the walk of a call to it ends at the root. */
  method RegisterBelowExportingRoot(path: seq<string>, parent: nat, obj: nat, options: set<Flag>) returns (root: Node)
    requires path != [] && ValidParts(path)
    ensures TreeOk(root) && Exports(root, [])
    ensures Lookup(root, []) == Some(Binding(parent, {ExportChildObjects}))
    ensures Lookup(root, path) == Some(Binding(obj, options))
    ensures forall q | q != [] && q != path :: Lookup(root, q) == None
    ensures Walk(root, path) == Some((root, 0))
  {
    hide MayRegister;
    var empty := Node("/", None, {}, []);
    NewNodeIsFree(empty, [], {ExportChildObjects});
    NewNodeIsFree(empty, path, options);
    var ok;
    ok, root := RegisterIn(empty, [], parent, {ExportChildObjects});
    RootIsNotAsked(empty, root, path, options);
    ok, root := RegisterIn(root, path, obj, options);
  }

  // ---------- unregistering ----------

  /** A binding goes, with everything below it if `tree` is set. */
  ghost predicate Unbound(before: Node, after: Node, path: seq<string>, tree: bool) {
    forall q :: Lookup(after, q) == if q == path || (tree && path <= q) then None else Lookup(before, q)
  }

  method UnregisterIn(node: Node, path: seq<string>, tree: bool) returns (node': Node)
    requires TreeOk(node)
    ensures TreeOk(node') && Unbound(node, node', path, tree) && node'.name == node.name
    ensures ClosedToChildren(node) ==> ClosedToChildren(node')
    decreases |path|
  {
    hide Find, IndexOf, Unbound, Sorted, IsLowerBound;
    node' := node;
    if path == [] {
      node' := node.(obj := None, flags := {});
      if tree {
        node' := node'.(children := []);
      }
      UnregisteredHere(node, tree);
      return;
    }
    var i := LowerBound(node.children, path[0]);
    LowerBoundFinds(node.children, path[0], i);
    LowerBoundInRange(node.children, path[0], i);
    if i == |node.children| || node.children[i].name != path[0] {
      NothingToUnregister(node, path, tree);
      return;
    }
    var child := UnregisterIn(node.children[i], path[1..], tree);
    node' := node.(children := node.children[i := child]);
    ChildUnbound(node, i, child, path, tree);
  }

  lemma UnregisteredHere(node: Node, tree: bool)
    requires TreeOk(node)
    ensures var after := node.(obj := None, flags := {}, children := if tree then [] else node.children);
      TreeOk(after) && Unbound(node, after, [], tree)
  {
    if !tree {
      forall q: seq<string> | q != [] ensures Find(node.(obj := None, flags := {}), q) == Find(node, q) {}
    }
  }

  lemma NothingToUnregister(node: Node, path: seq<string>, tree: bool)
    requires path != [] && IndexOf(node.children, path[0]) == |node.children|
    ensures Unbound(node, node, path, tree)
  {
    forall q | q == path || path <= q ensures Lookup(node, q) == None {
      assert q[0] == path[0];
    }
  }

  lemma ChildUnbound(node: Node, i: nat, child: Node, path: seq<string>, tree: bool)
    requires TreeOk(node) && TreeOk(child) && i < |node.children| && child.name == node.children[i].name
    requires ClosedToChildren(child)
    requires path != [] && path[0] == child.name && Unbound(node.children[i], child, path[1..], tree)
    ensures TreeOk(node.(children := node.children[i := child]))
    ensures Unbound(node, node.(children := node.children[i := child]), path, tree)
  {
    hide Unbound;
    ReplaceChild(node, i, child);
    IndexUnique(node.children, child.name, i);
    UnboundBelow(node, node.(children := node.children[i := child]), node.children[i], child, path, tree);
  }

  lemma UnboundBelow(before: Node, after: Node, child: Node, child': Node, path: seq<string>, tree: bool)
    requires path != [] && WithChild(before, after, child') && child'.name == path[0]
    requires Unbound(child, child', path[1..], tree)
    requires forall q | q != [] && q[0] == path[0] :: Lookup(before, q) == Lookup(child, q[1..])
    ensures Unbound(before, after, path, tree)
  {
    forall q ensures Lookup(after, q) == if q == path || (tree && path <= q) then None else Lookup(before, q) {
      if q != [] && q[0] == path[0] {
        assert q == path <==> q[1..] == path[1..];
        assert path <= q <==> path[1..] <= q[1..];
        assert Lookup(after, q) == Lookup(child', q[1..]);
      }
    }
  }

  // ---------- removing deleted nodes, and deleted objects ----------

  /** cleanupDeletedNodes: what it does to the children of a node. */
  function Cleaned(node: Node): Node {
    node.(children := CleanedAll(node.children))
  }

  function CleanedAll(nodes: seq<Node>): seq<Node> {
    if nodes == [] then []
    else
      (if nodes[0].obj == None && nodes[0].children == [] then [] else [Cleaned(nodes[0])]) + CleanedAll(nodes[1..])
  }

  predicate HasName(nodes: seq<Node>, name: string) {
    exists k :: 0 <= k < |nodes| && nodes[k].name == name
  }

  lemma {:induction false} CleanedKeepsOrder(nodes: seq<Node>)
    requires Sorted(nodes)
    ensures Sorted(CleanedAll(nodes))
    ensures forall i | 0 <= i < |CleanedAll(nodes)| :: HasName(nodes, CleanedAll(nodes)[i].name)
  {
    hide Less;
    if nodes != [] {
      CleanedKeepsOrder(nodes[1..]);
      var rest := CleanedAll(nodes[1..]);
      assert HasName(nodes, nodes[0].name);
      forall i | 0 <= i < |rest| ensures HasName(nodes, rest[i].name) && Less(nodes[0].name, rest[i].name) {
        FirstIsLeast(nodes, rest[i].name);
      }
    }
  }

  lemma FirstIsLeast(nodes: seq<Node>, name: string)
    requires Sorted(nodes) && nodes != [] && HasName(nodes[1..], name)
    ensures HasName(nodes, name) && Less(nodes[0].name, name)
  {
    var k :| 0 <= k < |nodes| - 1 && nodes[1..][k].name == name;
    assert nodes[k + 1].name == name;
  }

  /** Cleaning up changes no binding and keeps the tree in order. */
  lemma {:induction false} CleanedBindsTheSame(node: Node)
    requires TreeOk(node)
    ensures TreeOk(Cleaned(node)) && forall q :: Lookup(Cleaned(node), q) == Lookup(node, q)
    decreases node, 0
  {
    hide Find, Lookup;
    CleanedKeepsOrder(node.children);
    CleanedChildren(node.children);
    forall q ensures Lookup(Cleaned(node), q) == Lookup(node, q) {
      if q == [] {
        LookupHere(node, Cleaned(node));
      } else {
        LookupBelow(node, q);
        LookupBelow(Cleaned(node), q);
      }
    }
  }

  predicate IsCleaned(after: Node, before: Node) {
    after == Cleaned(before)
  }

  predicate IsUsed(node: Node) {
    node.obj.Some? || node.children != []
  }

  function UsedNames(nodes: seq<Node>): seq<string> {
    if nodes == [] then []
    else (if IsUsed(nodes[0]) then [nodes[0].name] else []) + UsedNames(nodes[1..])
  }

  /** Cleaning up takes away exactly the children that are neither used nor have children. */
  lemma {:induction false} CleanedAreUsed(nodes: seq<Node>)
    ensures |CleanedAll(nodes)| == |UsedNames(nodes)|
    ensures forall i | 0 <= i < |CleanedAll(nodes)| :: CleanedAll(nodes)[i].name == UsedNames(nodes)[i]
  {
    if nodes != [] {
      CleanedAreUsed(nodes[1..]);
    }
  }

  lemma LookupHere(a: Node, b: Node)
    requires a.obj == b.obj && a.flags == b.flags
    ensures Lookup(a, []) == Lookup(b, [])
  {}

  function LookupAmong(nodes: seq<Node>, q: seq<string>): Option<Binding>
    requires q != []
  {
    var i := IndexOf(nodes, q[0]);
    if i == |nodes| then None else Lookup(nodes[i], q[1..])
  }

  lemma LookupBelow(node: Node, q: seq<string>)
    requires q != []
    ensures Lookup(node, q) == LookupAmong(node.children, q)
  {}

  lemma {:induction false} CleanedChildren(nodes: seq<Node>)
    requires forall i | 0 <= i < |nodes| :: TreeOk(nodes[i]) && ChildOk(nodes[i])
    requires Sorted(nodes)
    ensures forall i | 0 <= i < |CleanedAll(nodes)| :: TreeOk(CleanedAll(nodes)[i]) && ChildOk(CleanedAll(nodes)[i])
    ensures forall q | q != [] :: LookupAmong(CleanedAll(nodes), q) == LookupAmong(nodes, q)
    decreases nodes, 1
  {
    hide Find, Lookup, Sorted;
    if nodes != [] {
      var first, rest := nodes[0], CleanedAll(nodes[1..]);
      SortedTail(nodes);
      CleanedChildren(nodes[1..]);
      CleanedBindsTheSame(first);
      forall q: seq<string> | q != [] ensures LookupAmong(CleanedAll(nodes), q) == LookupAmong(nodes, q) {
        LookupFirst(nodes, q);
        if first.obj == None && first.children == [] {
          EmptyNodeBindsNothing(first, q[1..]);
          assert CleanedAll(nodes) == rest;
          if q[0] == first.name {
            NotInTail(nodes);
          }
        } else {
          LookupFirst(CleanedAll(nodes), q);
          assert CleanedAll(nodes)[1..] == rest;
        }
      }
    }
  }

  lemma SortedTail(nodes: seq<Node>)
    requires Sorted(nodes) && nodes != []
    ensures Sorted(nodes[1..])
  {}

  lemma NotInTail(nodes: seq<Node>)
    requires Sorted(nodes) && nodes != []
    ensures IndexOf(nodes[1..], nodes[0].name) == |nodes| - 1
  {
    var k := IndexOf(nodes[1..], nodes[0].name);
    if k < |nodes| - 1 {
      LessTotal(nodes[0].name, nodes[k + 1].name);
    }
  }

  lemma LookupFirst(nodes: seq<Node>, q: seq<string>)
    requires nodes != [] && q != []
    ensures LookupAmong(nodes, q) == if nodes[0].name == q[0] then Lookup(nodes[0], q[1..]) else LookupAmong(nodes[1..], q)
  {}

  lemma EmptyNodeBindsNothing(node: Node, q: seq<string>)
    requires node.obj == None && node.children == []
    ensures Lookup(node, q) == None
  {}

  method Cleanup(parent: Node) returns (cleaned: Node)
    ensures cleaned == Cleaned(parent)
    decreases parent
  {
    var kept: seq<Node> := [];
    var i := 0;
    while i < |parent.children|
      invariant 0 <= i <= |parent.children|
      invariant kept + CleanedAll(parent.children[i..]) == CleanedAll(parent.children)
    {
      var node := parent.children[i];
      assert parent.children[i..][0] == node && parent.children[i..][1..] == parent.children[i + 1..];
      if !(node.obj == None && node.children == []) {
        node := Cleanup(node);
        kept := kept + [node];
      }
      i := i + 1;
    }
    cleaned := parent.(children := kept);
  }

  /** What huntAndDestroy leaves. */
  function Hunted(node: Node, needle: nat): (hunted: Node)
    ensures hunted.name == node.name && |hunted.children| == |node.children|
  {
    var kids := seq(|node.children|, i requires 0 <= i < |node.children| => Hunted(node.children[i], needle));
    if node.obj == Some(needle) then Node(node.name, None, {}, kids) else node.(children := kids)
  }

  function Unless(b: Option<Binding>, needle: nat): Option<Binding> {
    if b.Some? && b.value.obj == needle then None else b
  }

  /** It takes away exactly the bindings of the object. */
  lemma {:induction false} HuntedUnbinds(node: Node, needle: nat)
    requires TreeOk(node)
    ensures TreeOk(Hunted(node, needle)) && (ClosedToChildren(node) ==> ClosedToChildren(Hunted(node, needle)))
    ensures forall q :: Lookup(Hunted(node, needle), q) == Unless(Lookup(node, q), needle)
    decreases node
  {
    hide Find, Lookup, Sorted;
    var after := Hunted(node, needle);
    SameNames(node.children, after.children);
    forall i | 0 <= i < |node.children|
      ensures TreeOk(after.children[i]) && ChildOk(after.children[i])
    {
      HuntedUnbinds(node.children[i], needle);
    }
    forall q ensures Lookup(after, q) == Unless(Lookup(node, q), needle) {
      if q == [] {
        HuntedHere(node, needle);
      } else {
        LookupBelow(node, q);
        LookupBelow(after, q);
        SameIndex(node.children, after.children, q[0]);
        var i := IndexOf(node.children, q[0]);
        if i < |node.children| {
          HuntedUnbinds(node.children[i], needle);
        }
      }
    }
  }

  lemma HuntedHere(node: Node, needle: nat)
    ensures Lookup(Hunted(node, needle), []) == Unless(Lookup(node, []), needle)
  {}

  lemma SameNames(a: seq<Node>, b: seq<Node>)
    requires Sorted(a) && |a| == |b| && forall i | 0 <= i < |a| :: a[i].name == b[i].name
    ensures Sorted(b)
  {}

  lemma {:induction false} SameIndex(a: seq<Node>, b: seq<Node>, name: string)
    requires |a| == |b| && forall i | 0 <= i < |a| :: a[i].name == b[i].name
    ensures IndexOf(a, name) == IndexOf(b, name)
  {
    if a != [] {
      SameIndex(a[1..], b[1..], name);
    }
  }

  method HuntAndDestroy(needle: nat, haystack: Node) returns (hunted: Node)
    ensures hunted == Hunted(haystack, needle)
    decreases haystack
  {
    var kids: seq<Node> := [];
    while |kids| < |haystack.children|
      invariant |kids| <= |haystack.children|
      invariant kids == Hunted(haystack, needle).children[..|kids|]
    {
      var kid := HuntAndDestroy(needle, haystack.children[|kids|]);
      kids := kids + [kid];
    }
    hunted := haystack.(children := kids);
    if haystack.obj == Some(needle) {
      hunted := hunted.(obj := None, flags := {});
    }
  }

  // ---------- relaying signals ----------

  /** Whether a signal of an object registered with these flags is relayed. */
  predicate Relays(flags: set<Flag>, isScriptable: bool, isAdaptor: bool) {
    if isAdaptor then ExportAdaptors in flags
    else if isScriptable then ExportScriptableSignals in flags
    else ExportNonScriptableSignals in flags
  }

  predicate RelaysAt(node: Node, q: seq<string>, needle: nat, isScriptable: bool, isAdaptor: bool) {
    var b := Lookup(node, q);
    b.Some? && b.value.obj == needle && Relays(b.value.flags, isScriptable, isAdaptor)
  }

  /** The paths at which huntAndEmit sends, children first. */
  function Emissions(node: Node, needle: nat, isScriptable: bool, isAdaptor: bool): seq<seq<string>>
    decreases node, |node.children| + 1
  {
    EmissionsBelow(node, needle, isScriptable, isAdaptor, |node.children|)
    + if node.obj == Some(needle) && Relays(node.flags, isScriptable, isAdaptor) then [[]] else []
  }

  function EmissionsBelow(node: Node, needle: nat, isScriptable: bool, isAdaptor: bool, n: nat): seq<seq<string>>
    requires n <= |node.children|
    decreases node, n
  {
    if n == 0 then []
    else
      EmissionsBelow(node, needle, isScriptable, isAdaptor, n - 1)
      + Under(node.children[n - 1].name, Emissions(node.children[n - 1], needle, isScriptable, isAdaptor))
  }

  function Under(name: string, paths: seq<seq<string>>): seq<seq<string>> {
    seq(|paths|, i requires 0 <= i < |paths| => [name] + paths[i])
  }

  predicate NoRepeats(paths: seq<seq<string>>) {
    forall i, j | 0 <= i < j < |paths| :: paths[i] != paths[j]
  }

  /** It sends exactly once at each path where the object is bound with flags that allow it. */
  lemma {:induction false} EmitsOnceEach(node: Node, needle: nat, isScriptable: bool, isAdaptor: bool)
    requires TreeOk(node)
    ensures var paths := Emissions(node, needle, isScriptable, isAdaptor);
      NoRepeats(paths) && forall q :: q in paths <==> RelaysAt(node, q, needle, isScriptable, isAdaptor)
    decreases node, |node.children| + 1
  {
    hide Find, Relays, NoRepeats;
    var below := EmissionsBelow(node, needle, isScriptable, isAdaptor, |node.children|);
    NoRepeatsAppend(below, [[]]);
    assert NoRepeats([[]]) by { OneIsNoRepeat(); }
    RelaysHere(node, needle, isScriptable, isAdaptor);
    EmitsBelow(node, needle, isScriptable, isAdaptor, |node.children|);
    assert below + [] == below;
    assert forall q :: q in below + [[]] <==> q in below || q == [];
    assert [] !in below;
  }

  lemma {:induction false} EmitsBelow(node: Node, needle: nat, isScriptable: bool, isAdaptor: bool, n: nat)
    requires TreeOk(node) && n <= |node.children|
    ensures var paths := EmissionsBelow(node, needle, isScriptable, isAdaptor, n);
      NoRepeats(paths)
      && forall q :: q in paths <==> q != [] && IndexOf(node.children, q[0]) < n && RelaysAt(node, q, needle, isScriptable, isAdaptor)
    decreases node, n
  {
    hide Find, Lookup, RelaysAt, NoRepeats, Under, Emissions, Sorted;
    if n > 0 {
      var child := node.children[n - 1];
      var before := EmissionsBelow(node, needle, isScriptable, isAdaptor, n - 1);
      var inner := Emissions(child, needle, isScriptable, isAdaptor);
      var last := Under(child.name, inner);
      EmitsBelow(node, needle, isScriptable, isAdaptor, n - 1);
      EmitsOnceEach(child, needle, isScriptable, isAdaptor);
      UnderPaths(child.name, inner);
      IndexUnique(node.children, child.name, n - 1);
      NoRepeatsAppend(before, last);
      forall q ensures q in before + last <==>
        q != [] && IndexOf(node.children, q[0]) < n && RelaysAt(node, q, needle, isScriptable, isAdaptor)
      {
        if q != [] {
          RelaysBelow(node, q, n - 1, needle, isScriptable, isAdaptor);
        }
      }
    } else {
      NoRepeatsAppend([], []);
    }
  }

  lemma RelaysBelow(node: Node, q: seq<string>, n: nat, needle: nat, isScriptable: bool, isAdaptor: bool)
    requires Sorted(node.children) && n < |node.children| && q != []
    ensures IndexOf(node.children, q[0]) == n <==> q[0] == node.children[n].name
    ensures IndexOf(node.children, q[0]) == n ==>
      (RelaysAt(node, q, needle, isScriptable, isAdaptor) <==> RelaysAt(node.children[n], q[1..], needle, isScriptable, isAdaptor))
  {
    IndexUnique(node.children, node.children[n].name, n);
  }

  lemma OneIsNoRepeat()
    ensures NoRepeats([[]])
  {}

  lemma RelaysHere(node: Node, needle: nat, isScriptable: bool, isAdaptor: bool)
    ensures RelaysAt(node, [], needle, isScriptable, isAdaptor) <==>
      node.obj == Some(needle) && Relays(node.flags, isScriptable, isAdaptor)
    ensures forall q | q != [] && RelaysAt(node, q, needle, isScriptable, isAdaptor) :: IndexOf(node.children, q[0]) < |node.children|
  {}

  lemma NoRepeatsAppend(a: seq<seq<string>>, b: seq<seq<string>>)
    ensures NoRepeats([])
    ensures NoRepeats(a) && NoRepeats(b) && (forall q | q in a :: q !in b) ==> NoRepeats(a + b)
  {
    if NoRepeats(a) && NoRepeats(b) && (forall q | q in a :: q !in b) {
      forall i, j | 0 <= i < j < |a + b| ensures (a + b)[i] != (a + b)[j] {
        if i < |a| <= j {
          assert a[i] in a && b[j - |a|] in b;
        }
      }
    }
  }

  lemma UnderPaths(name: string, paths: seq<seq<string>>)
    ensures forall q :: q in Under(name, paths) <==> q != [] && q[0] == name && q[1..] in paths
    ensures NoRepeats(paths) ==> NoRepeats(Under(name, paths))
  {
    var under := Under(name, paths);
    forall q | q in under ensures q != [] && q[0] == name && q[1..] in paths {
      var i :| 0 <= i < |under| && under[i] == q;
      assert q == [name] + paths[i] && q[1..] == paths[i];
    }
    forall q: seq<string> | q != [] && q[0] == name && q[1..] in paths ensures q in under {
      var i :| 0 <= i < |paths| && paths[i] == q[1..];
      assert under[i] == [name] + q[1..] == q;
    }
    if NoRepeats(paths) {
      forall i, j | 0 <= i < j < |under| ensures under[i] != under[j] {
        assert under[i][1..] == paths[i] && under[j][1..] == paths[j];
      }
    }
  }

  function ShownPaths(prefix: string, qs: seq<seq<string>>): seq<string> {
    seq(|qs|, i requires 0 <= i < |qs| => ShownPath(PathFrom(prefix, qs[i])))
  }

  method HuntAndEmit(needle: nat, haystack: Node, isScriptable: bool, isAdaptor: bool, path: string)
    returns (sent: seq<string>)
    ensures sent == ShownPaths(path, Emissions(haystack, needle, isScriptable, isAdaptor))
    decreases haystack
  {
    sent := [];
    var i := 0;
    while i < |haystack.children|
      invariant 0 <= i <= |haystack.children|
      invariant sent == ShownPaths(path, EmissionsBelow(haystack, needle, isScriptable, isAdaptor, i))
    {
      var child := haystack.children[i];
      var below := HuntAndEmit(needle, child, isScriptable, isAdaptor, path + "/" + child.name);
      ShownBelow(path, child.name, Emissions(child, needle, isScriptable, isAdaptor));
      sent := sent + below;
      i := i + 1;
    }
    if haystack.obj == Some(needle) {
      if isAdaptor && ExportAdaptors !in haystack.flags {
        return;
      } else if !isAdaptor {
        var mask := if isScriptable then ExportScriptableSignals else ExportNonScriptableSignals;
        if mask !in haystack.flags {
          return;
        }
      }
      var p := path;
      if p == "" {
        p := "/";
      }
      sent := sent + [p];
    }
  }

  lemma ShownBelow(path: string, name: string, qs: seq<seq<string>>)
    ensures ShownPaths(path, Under(name, qs)) == ShownPaths(path + "/" + name, qs)
  {
    forall i | 0 <= i < |qs| ensures PathFrom(path, Under(name, qs)[i]) == PathFrom(path + "/" + name, qs[i]) {
      assert ([name] + qs[i])[1..] == qs[i];
    }
  }

  predicate NoTextTwice(texts: seq<string>) {
    forall i, j | 0 <= i < j < |texts| :: texts[i] != texts[j]
  }

  /** A bound path below the root is spelled with valid names. */
  lemma {:induction false} BoundPathIsValid(node: Node, q: seq<string>)
    requires TreeOk(node) && Find(node, q).Some?
    ensures ValidParts(q)
    decreases q
  {
    if q != [] {
      BoundPathIsValid(node.children[IndexOf(node.children, q[0])], q[1..]);
      forall i | 0 <= i < |q| ensures ValidPart(q[i]) {
        if i > 0 {
          assert q[i] == q[1..][i - 1];
        }
      }
    }
  }

  lemma RelayingPathIsValid(node: Node, q: seq<string>, needle: nat, isScriptable: bool, isAdaptor: bool)
    requires TreeOk(node) && RelaysAt(node, q, needle, isScriptable, isAdaptor)
    ensures ValidParts(q)
  {
    BoundPathIsValid(node, q);
  }

  /** Walked from the root, the texts sent are the valid paths at which the object is bound with flags
      that allow it, each once. */
  lemma SentExactly(root: Node, needle: nat, isScriptable: bool, isAdaptor: bool)
    requires TreeOk(root)
    ensures var sent := ShownPaths("", Emissions(root, needle, isScriptable, isAdaptor));
      && NoTextTwice(sent)
      && forall p :: p in sent <==> IsValidObjectPath(p) && RelaysAt(root, Components(p), needle, isScriptable, isAdaptor)
  {
    hide IsValidObjectPath, Components, PathFrom, ShownPath, Emissions;
    var paths := Emissions(root, needle, isScriptable, isAdaptor);
    var sent := ShownPaths("", paths);
    EmitsOnceEach(root, needle, isScriptable, isAdaptor);
    forall i | 0 <= i < |paths|
      ensures IsValidObjectPath(sent[i]) && Components(sent[i]) == paths[i] && paths[i] in paths
    {
      RelayingPathIsValid(root, paths[i], needle, isScriptable, isAdaptor);
      TextOfNames(paths[i]);
    }
    forall p | IsValidObjectPath(p) && Components(p) in paths ensures p in sent {
      NamesOfText(p);
      var i :| 0 <= i < |paths| && paths[i] == Components(p);
      assert sent[i] == p;
    }
  }

  // ---------- looking up ----------

  /** objectRegisteredAt below the root. */
  method ObjectAt(root: Node, path: seq<string>) returns (obj: Option<nat>)
    requires TreeOk(root)
    ensures obj == if Lookup(root, path).Some? then Some(Lookup(root, path).value.obj) else None
  {
    hide IndexOf, Sorted, IsLowerBound;
    var node := root;
    var i := 0;
    while true
      invariant 0 <= i <= |path| && TreeOk(node) && Find(root, path) == Find(node, path[i..])
      decreases |path| - i
    {
      if |path| == i {
        return node.obj;
      }
      var k := LowerBound(node.children, path[i]);
      LowerBoundFinds(node.children, path[i], k);
      LowerBoundInRange(node.children, path[i], k);
      assert path[i..][0] == path[i] && path[i..][1..] == path[i + 1..];
      if k == |node.children| || node.children[k].name != path[i] {
        return None;
      }
      node := node.children[k];
      i := i + 1;
    }
  }

  /** Where the walk of findObject ends: at a node that exports its own child objects, at the end of
      the path, or nowhere. The number counts the names consumed. */
  function Walk(node: Node, path: seq<string>): (end: Option<(Node, nat)>)
    ensures end.Some? ==> end.value.1 <= |path|
    decreases path
  {
    if path == [] || ExportChildObjects in node.flags then Some((node, 0))
    else
      var i := IndexOf(node.children, path[0]);
      if i == |node.children| then None
      else
        match Walk(node.children[i], path[1..])
        case Some(end) => Some((end.0, end.1 + 1))
        case None => None
  }

  /** The walk stops at the first strict ancestor that exports its child objects, or at the end of the
      path if there is none. */
  lemma {:induction false} WalkStops(node: Node, path: seq<string>, k: nat)
    requires k <= |path|
    requires forall j | 0 <= j < k :: !Exports(node, path[..j])
    requires k == |path| || Exports(node, path[..k])
    ensures Walk(node, path) == if Find(node, path[..k]).Some? then Some((Find(node, path[..k]).value, k)) else None
    decreases path
  {
    if k == 0 {
      assert path[..0] == [];
    } else {
      assert path[..0] == [] && !Exports(node, path[..0]);
      assert path[..k][0] == path[0] && path[..k][1..] == path[1..][..k - 1];
      var i := IndexOf(node.children, path[0]);
      if i < |node.children| {
        var child := node.children[i];
        forall j | 0 <= j < k - 1 ensures !Exports(child, path[1..][..j]) {
          ExportsBelow(node, path, j);
        }
        assert k < |path| ==> Exports(child, path[1..][..k - 1]);
        WalkStops(child, path[1..], k - 1);
      }
    }
  }

  lemma ExportsBelow(node: Node, path: seq<string>, j: nat)
    requires j < |path| && IndexOf(node.children, path[0]) < |node.children|
    ensures Exports(node.children[IndexOf(node.children, path[0])], path[1..][..j]) == Exports(node, path[..j + 1])
  {
    assert path[..j + 1][0] == path[0] && path[..j + 1][1..] == path[1..][..j];
  }

  /** QString::indexOf, or the length if there is none. */
  method EndOfName(s: string, start: nat) returns (end: nat)
    requires start <= |s|
    ensures start <= end <= |s| && '/' !in s[start..end] && (end < |s| ==> s[end] == '/')
  {
    end := start;
    while end < |s| && s[end] != '/'
      invariant start <= end <= |s| && '/' !in s[start..end]
    {
      end := end + 1;
    }
  }

  /** The first separator ends the first part. */
  lemma {:induction false} SplitFirst(s: string, end: nat)
    requires end <= |s| && '/' !in s[..end] && (end < |s| ==> s[end] == '/')
    ensures Split(s, '/')[0] == s[..end]
    ensures if end < |s| then Split(s, '/')[1..] == Split(s[end + 1..], '/') else |Split(s, '/')| == 1
  {
    if end > 0 {
      assert s[0] == s[..end][0] && s[0] != '/';
      assert s[1..][..end - 1] == s[..end][1..];
      SplitFirst(s[1..], end - 1);
      if end < |s| {
        assert s[end + 1..] == s[1..][end..];
      }
      assert s[..end] == [s[0]] + s[1..][..end - 1];
    }
  }

  lemma ComponentsOfPath(path: string)
    requires IsValidObjectPath(path) && path != "/"
    ensures path[0] == '/' && Components(path) == Split(path[1..], '/')
    ensures forall i | 0 <= i < |Components(path)| :: Components(path)[i] != ""
  {}

  /** Where the text of the names from number k on begins. */
  predicate NamesFrom(path: string, start: nat, names: seq<string>) {
    if names == [] then start >= |path|
    else 0 < start < |path| && path[start - 1] == '/' && Split(path[start..], '/') == names
  }

  lemma NamesRemain(path: string, start: nat, names: seq<string>)
    requires NamesFrom(path, start, names)
    ensures names != [] <==> start < |path|
  {}

  lemma NextName(path: string, start: nat, names: seq<string>, end: nat)
    requires names != [] && NamesFrom(path, start, names) && forall i | 0 <= i < |names| :: names[i] != ""
    requires start <= end <= |path| && '/' !in path[start..end] && (end < |path| ==> path[end] == '/')
    ensures path[start..end] == names[0] && NamesFrom(path, end + 1, names[1..])
  {
    var s := path[start..];
    assert s[..end - start] == path[start..end];
    SplitFirst(s, end - start);
    if end < |path| {
      assert s[end - start + 1..] == path[end + 1..];
      assert names[1..][0] == names[1];
    }
  }

  function Shifted(end: Option<(Node, nat)>, k: nat): Option<(Node, nat)> {
    match end
    case Some(e) => Some((e.0, e.1 + k))
    case None => None
  }

  lemma RootPath(root: Node)
    ensures Components("/") == [] && Walk(root, []) == Some((root, 0))
  {}

  lemma WalkBegins(node: Node, names: seq<string>)
    ensures Shifted(Walk(node, names), 0) == Walk(node, names)
  {}

  /** The end of the walk at a node that k names lead to. */
  lemma WalkEnds(node: Node, names: seq<string>, k: nat)
    requires k <= |names| && (k == |names| || ExportChildObjects in node.flags)
    ensures Shifted(Walk(node, names[k..]), k) == Some((node, k))
  {}

  /** One step of the walk from a node that k names lead to. */
  lemma WalkGoesOn(node: Node, names: seq<string>, k: nat)
    requires k < |names| && ExportChildObjects !in node.flags
    ensures var i := IndexOf(node.children, names[k]);
      Shifted(Walk(node, names[k..]), k) ==
        if i == |node.children| then None else Shifted(Walk(node.children[i], names[k + 1..]), k + 1)
  {
    assert names[k..][0] == names[k] && names[k..][1..] == names[k + 1..];
  }

  /** findObject: the node where the walk ends, unless it is unused; and how much of the path has
      been consumed, which is all of it or everything before the remaining names. */
  method FindObject(root: Node, fullpath: string) returns (found: bool, usedLength: nat, result: Node)
    requires TreeOk(root) && IsValidObjectPath(fullpath)
    ensures var w := Walk(root, Components(fullpath));
      && (found <==> w.Some? && (w.value.0.obj.Some? || w.value.0.children != []))
      && (found ==> result == w.value.0)
      && (found ==> usedLength <= |fullpath| && NamesFrom(fullpath, usedLength, Components(fullpath)[w.value.1..]))
  {
    hide IndexOf, Sorted, IsLowerBound, Split, IsValidObjectPath, Walk, Shifted;
    result := root;
    if fullpath == "/" && root.obj.Some? {
      RootPath(root);
      return true, 1, root;
    }
    ghost var names := Components(fullpath);
    var start := 0;
    StartsWithSlash(fullpath);
    if fullpath[0] == '/' {
      start := 1;
    }
    var node := Some(root);
    ghost var k := 0;
    assert names[0..] == names;
    WalkBegins(root, names);
    while start < |fullpath| && node.Some?
      invariant k <= |names|
      invariant NamesFrom(fullpath, start, names[k..])
      invariant forall i | 0 <= i < |names| :: names[i] != ""
      invariant node.Some? ==> TreeOk(node.value) && Walk(root, names) == Shifted(Walk(node.value, names[k..]), k)
      invariant node.None? ==> Walk(root, names) == None
      decreases |fullpath| - start
    {
      if ExportChildObjects in node.value.flags {
        break;
      }
      NamesRemain(fullpath, start, names[k..]);
      WalkGoesOn(node.value, names, k);
      var end := EndOfName(fullpath, start);
      var name := fullpath[start..end];
      NextName(fullpath, start, names[k..], end);
      assert names[k..][1..] == names[k + 1..];
      var i := LowerBound(node.value.children, name);
      LowerBoundFinds(node.value.children, name, i);
      LowerBoundInRange(node.value.children, name, i);
      if i < |node.value.children| && node.value.children[i].name == name {
        node := Some(node.value.children[i]);
      } else {
        node := None;
      }
      k := k + 1;
      start := end + 1;
    }
    NamesRemain(fullpath, start, names[k..]);
    if node.Some? {
      WalkEnds(node.value, names, k);
    }
    usedLength := if start > |fullpath| then |fullpath| else start;
    found := false;
    if node.Some? {
      if node.value.obj.Some? || node.value.children != [] {
        result := node.value;
        found := true;
      }
    }
  }

  lemma StartsWithSlash(path: string)
    requires IsValidObjectPath(path)
    ensures path != "" && path[0] == '/'
    ensures NamesFrom(path, 1, Components(path))
    ensures forall i | 0 <= i < |Components(path)| :: Components(path)[i] != ""
  {
    if path != "/" {
      ComponentsOfPath(path);
    }
  }

  // ---------- the tree of a connection ----------

  class RegisteredObjects {
    var rootNode: Node
    var counter: nat

    ghost predicate Valid()
      reads this
    {
      TreeOk(rootNode)
    }

    /** The map the tree stands for. */
    function At(path: seq<string>): Option<Binding>
      reads this
    {
      Lookup(rootNode, path)
    }

    constructor ()
      ensures Valid() && forall q :: At(q) == None
    {
      rootNode := Node("/", None, {}, []);
      counter := 0;
    }

    method RegisterObject(path: string, obj: Option<nat>, options: set<Flag>) returns (ok: bool)
      requires Valid()
      modifies this
      ensures Valid()
      ensures ok == (obj.Some? && options != {} && IsValidObjectPath(path)
        && MayRegister(old(rootNode), Components(path), options))
      ensures forall q :: At(q) == if ok && q == Components(path) then Some(Binding(obj.value, options)) else old(At(q))
      ensures !ok ==> rootNode == old(rootNode)
      ensures counter == old(counter) + if ok then 1 else 0
      ensures ok && counter % 20 == 0 ==> exists root :: IsCleaned(rootNode, root)
    {
      hide Find, MayRegister, IsValidObjectPath, Components, Cleaned;
      if obj.None? || options == {} || !IsValidObjectPath(path) {
        return false;
      }
      NamesOfText(path);
      var root;
      ok, root := RegisterIn(rootNode, Components(path), obj.value, options);
      if ok {
        rootNode := root;
        counter := counter + 1;
        if counter % 20 == 0 {
          CleanedBindsTheSame(root);
          rootNode := Cleanup(root);
          assert IsCleaned(rootNode, root);
        }
      }
    }

    /** The paths that unregistering a path frees. */
    static predicate Covers(path: string, q: seq<string>, tree: bool) {
      IsValidObjectPath(path) && (q == Components(path) || (tree && Components(path) <= q))
    }

    method UnregisterObject(path: string, tree: bool)
      requires Valid()
      modifies this
      ensures Valid()
      ensures forall q :: At(q) == if Covers(path, q, tree) then None else old(At(q))
    {
      hide Find, IsValidObjectPath, Components;
      if !IsValidObjectPath(path) {
        return;
      }
      rootNode := UnregisterIn(rootNode, Components(path), tree);
    }

    method ObjectRegisteredAt(path: string) returns (obj: Option<nat>)
      requires Valid()
      ensures obj == if IsValidObjectPath(path) && At(Components(path)).Some? then Some(At(Components(path)).value.obj) else None
    {
      if !IsValidObjectPath(path) {
        return None;
      }
      obj := ObjectAt(rootNode, Components(path));
    }

    /** The part of relaySignal that concerns the tree: where the signal is sent. */
    method RelaySignal(obj: nat, isScriptable: bool, isAdaptor: bool) returns (sent: seq<string>)
      requires Valid()
      ensures NoTextTwice(sent)
      ensures forall p :: p in sent <==>
        IsValidObjectPath(p) && At(Components(p)).Some? && At(Components(p)).value.obj == obj
        && (isAdaptor ==> ExportAdaptors in At(Components(p)).value.flags)
        && (!isAdaptor && isScriptable ==> ExportScriptableSignals in At(Components(p)).value.flags)
        && (!isAdaptor && !isScriptable ==> ExportNonScriptableSignals in At(Components(p)).value.flags)
    {
      hide IsValidObjectPath, Components, Find;
      SentExactly(rootNode, obj, isScriptable, isAdaptor);
      sent := HuntAndEmit(obj, rootNode, isScriptable, isAdaptor, "");
    }

    /** The part of objectDestroyed that concerns the tree. */
    method ObjectDestroyed(obj: nat)
      requires Valid()
      modifies this
      ensures Valid() && forall q :: At(q) == Unless(old(At(q)), obj)
    {
      hide Find;
      HuntedUnbinds(rootNode, obj);
      rootNode := HuntAndDestroy(obj, rootNode);
    }
  }
}
