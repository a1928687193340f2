/** Values as applications see them, what reading a message makes of its values, and what writing
    them back appends: the specification of the demarshaller and the marshaller. */
module Variants {
  import opened Wrappers
  import opened WireTypes
  import opened WireValues

  /** What a QDBusArgument holds: nothing, a place in a received message, or a message being written. */
  datatype Argument = Nothing | Reading(it: Iter) | Writing(body: seq<Tree>)

  datatype QVariant =
    | Invalid
    | Scalar(code: char, value: Value)
    | ByteArray(bytes: seq<Value>)
    | StringList(strings: seq<string>)
    | DBusVariant(inner: QVariant)
    | ArgumentVariant(arg: Argument)
    | VoidPointer(code: char)
  {
    predicate Ok() {
      match this
      case ArgumentVariant(Reading(it)) => IterOk(it) && !it.AtEnd()
      case ArgumentVariant(Writing(body)) => IsBody(body)
      case Scalar(code, value) => IsBasicCode(code) && (value.Text? <==> IsTextCode(code))
      case DBusVariant(inner) => inner.Ok()
      case _ => true
    }
  }

  // ---------- reading ----------

  function Strings(items: seq<Tree>): seq<string> {
    seq(|items|, i requires 0 <= i < |items| =>
      if items[i].BasicValue? && items[i].value.Text? then items[i].value.s else "")
  }

  /** The value an iterator is at. */
  function VariantOf(it: Iter, fdPassing: bool): QVariant
    requires !it.AtEnd()
    decreases it.Current()
  {
    match it.Current()
    case BasicValue(code, value) =>
      if code == 'h' && !fdPassing then VoidPointer(code) else Scalar(code, value)
    case VariantValue(_, items) =>
      if items == [] then DBusVariant(Invalid) else DBusVariant(VariantOf(Iter(items, 0, NO_ELEMENT), fdPassing))
    case ArrayValue(element, items) =>
      if element == Basic('y') then ByteArray(Values(items))
      else if element == Basic('s') then StringList(Strings(items))
      else ArgumentVariant(Reading(it))
    case StructValue(_) => ArgumentVariant(Reading(it))
    case EntryValue(_) => VoidPointer('e')
  }

  /** The arguments of a received message. */
  function Arguments(body: seq<Tree>, fdPassing: bool): seq<QVariant> {
    seq(|body|, i requires 0 <= i < |body| => VariantOf(Iter(body, i, NO_ELEMENT), fdPassing))
  }

  // ---------- writing ----------

  /** What one call appends, whether it stays free of errors, and what it returns. */
  datatype Outcome = Outcome(trees: seq<Tree>, ok: bool, returned: bool)

  /** typeToSignature for the types of received values. */
  function TypeSignature(v: QVariant): Option<string> {
    match v
    case Scalar(code, _) => Some([code])
    case ByteArray(_) => Some("ay")
    case StringList(_) => Some("as")
    case DBusVariant(_) => Some("v")
    case _ => None
  }

  function ArgumentSignature(arg: Argument): string {
    match arg
    case Nothing => ""
    case Reading(it) => it.CurrentSignature()
    case Writing(body) => Signatures(seq(|body|, i requires 0 <= i < |body| => body[i].TypeOf()))
  }

  function StringTrees(strings: seq<string>): seq<Tree> {
    seq(|strings|, i requires 0 <= i < |strings| => BasicValue('s', Text(strings[i])))
  }

  function WrittenScalar(code: char, value: Value, fdPassing: bool): Outcome {
    if (code == 'o' || code == 'g') && value.Text? && value.s == "" then Outcome([], false, true)
    else if code == 'h' && !fdPassing then Outcome([], true, false)
    else if code == 'h' && value == Num(-1) then Outcome([], false, true)
    else Outcome([BasicValue(code, value)], true, true)
  }

  function Written(v: QVariant, fdPassing: bool): Outcome
    requires v.Ok()
  {
    match v
    case Invalid => Outcome([], false, false)
    case VoidPointer(_) => Outcome([], false, false)
    case Scalar(code, value) => WrittenScalar(code, value, fdPassing)
    case ByteArray(bytes) => Outcome([ArrayValue(Basic('y'), FixedArray('y', bytes))], true, true)
    case StringList(strings) => Outcome([ArrayValue(Basic('s'), StringTrees(strings))], true, true)
    case ArgumentVariant(arg) => WrittenArgument(arg)
    case DBusVariant(inner) =>
      var sig := if inner.ArgumentVariant? then Some(ArgumentSignature(inner.arg)) else TypeSignature(inner);
      if sig.None? then Outcome([], false, false)
      else
        var w := Written(inner, fdPassing);
        Outcome([VariantValue(ElementOf(sig.value), w.trees)], w.ok, w.returned)
  }

  function WrittenArgument(arg: Argument): Outcome
    requires ArgumentVariant(arg).Ok()
  {
    match arg
    case Nothing => Outcome([], true, false)
    case Reading(it) => Outcome([it.Current()], true, true)
    case Writing(body) => if body == [] then Outcome([], true, false) else Outcome([body[0]], true, true)
  }

  /** The body of a message with these arguments, unless one of them cannot be written. */
  function Body(args: seq<QVariant>, fdPassing: bool): Outcome
    requires forall i | 0 <= i < |args| :: args[i].Ok()
  {
    if args == [] then Outcome([], true, true)
    else
      var w, rest := Written(args[0], fdPassing), Body(args[1..], fdPassing);
      Outcome(w.trees + rest.trees, w.ok && rest.ok, true)
  }

  lemma BodyOfOne(v: QVariant, fdPassing: bool)
    requires v.Ok()
    ensures var w := Written(v, fdPassing);
      Body([v], fdPassing) == Outcome([] + w.trees, w.ok, true)
  {
    hide Written;
    assert [v][1..] == [];
  }

  lemma {:induction false} BodyAppend(args: seq<QVariant>, v: QVariant, fdPassing: bool)
    requires v.Ok() && forall i | 0 <= i < |args| :: args[i].Ok()
    ensures forall i | 0 <= i < |args| + 1 :: (args + [v])[i].Ok()
    ensures var b, w := Body(args, fdPassing), Written(v, fdPassing);
      Body(args + [v], fdPassing) == Outcome(b.trees + w.trees, b.ok && w.ok, true)
  {
    hide Written;
    assert forall i | 0 <= i < |args| + 1 :: (args + [v])[i].Ok();
    if args == [] {
      assert args + [v] == [v];
      BodyOfOne(v, fdPassing);
    } else {
      BodyAppend(args[1..], v, fdPassing);
      assert (args + [v])[1..] == args[1..] + [v];
    }
  }

  // ---------- the round trip ----------

  /** A received value that can be sent on: outside of arrays and structs, which are copied as they
      are, signatures must not be empty and file descriptors must be negotiated and open. */
  predicate Survives(t: Tree, fdPassing: bool) {
    match t
    case BasicValue(code, value) =>
      && (code == 'g' ==> value != Text(""))
      && (code == 'h' ==> fdPassing && value != Num(-1))
    case VariantValue(_, items) => forall i | 0 <= i < |items| :: Survives(items[i], fdPassing)
    case _ => true
  }

  lemma VariantSignature(it: Iter, fdPassing: bool)
    requires IterOk(it) && !it.AtEnd() && it.element == NO_ELEMENT && !it.Current().EntryValue?
    ensures var v := VariantOf(it, fdPassing);
      if it.Current().BasicValue? && it.Current().code == 'h' && !fdPassing then v == VoidPointer('h')
      else if v.ArgumentVariant? then ArgumentSignature(v.arg) == Signature(it.Current().TypeOf())
      else TypeSignature(v) == Some(Signature(it.Current().TypeOf()))
  {
    hide IsBasicCode;
    assert Signature(Array(Basic('y'))) == "a" + ['y'] == "ay";
    assert Signature(Array(Basic('s'))) == "a" + ['s'] == "as";
  }

  predicate ComesBack(v: QVariant, t: Tree, fdPassing: bool)
    requires v.Ok()
  {
    if Survives(t, fdPassing) then Written(v, fdPassing) == Outcome([t], true, true) else !Written(v, fdPassing).ok
  }

  /** Reading a value and writing it again gives the same value if it survives, and an error if not. */
  lemma {:induction false} ValueRoundTrip(it: Iter, fdPassing: bool)
    requires IterOk(it) && !it.AtEnd() && !it.Current().EntryValue?
    ensures VariantOf(it, fdPassing).Ok() && ComesBack(VariantOf(it, fdPassing), it.Current(), fdPassing)
    decreases it.Current()
  {
    hide IsBasicCode;
    var t := it.Current();
    assert t.WellFormed();
    match t
    case VariantValue(content, items) =>
      var inner := Iter(items, 0, NO_ELEMENT);
      TypeIsElement(items[0]);
      ValueRoundTrip(inner, fdPassing);
      VariantSignature(inner, fdPassing);
      ElementOfSignature(content);
      if Survives(t, fdPassing) {
        assert Survives(items[0], fdPassing) && items == [items[0]];
      }
    case ArrayValue(element, items) =>
      if element == Basic('y') {
        FixedArrayCopied(t, 'y');
      } else if element == Basic('s') {
        StringsCopied(t);
      }
    case _ =>
  }

  lemma StringsCopied(t: Tree)
    requires t.WellFormed() && t.ArrayValue? && t.element == Basic('s')
    ensures StringTrees(Strings(t.items)) == t.items
  {
    forall i | 0 <= i < |t.items| ensures t.items[i] == BasicValue('s', Text(Strings(t.items)[i])) {
      assert t.items[i].TypeOf() == Basic('s') && t.items[i].WellFormed();
    }
  }

  /** A received message can be sent on unchanged exactly when all its values survive. */
  lemma BodyRoundTrip(body: seq<Tree>, fdPassing: bool)
    requires IsBody(body)
    ensures forall v | v in Arguments(body, fdPassing) :: v.Ok()
    ensures var b := Body(Arguments(body, fdPassing), fdPassing);
      && (b.ok <==> forall t | t in body :: Survives(t, fdPassing))
      && (b.ok ==> b.trees == body)
  {
    var args := Arguments(body, fdPassing);
    forall i | 0 <= i < |args| ensures args[i].Ok() && ComesBack(args[i], body[i], fdPassing) {
      BodyIter(body, i);
      ValueRoundTrip(Iter(body, i, NO_ELEMENT), fdPassing);
    }
    BodyPrefix(body, args, fdPassing, |body|);
    assert args[..|body|] == args && body[..|body|] == body;
  }

  lemma BodyIter(body: seq<Tree>, i: nat)
    requires IsBody(body) && i < |body|
    ensures IterOk(Iter(body, i, NO_ELEMENT)) && !body[i].EntryValue?
  {
    TypeIsElement(body[i]);
  }

  lemma {:induction false} BodyPrefix(body: seq<Tree>, args: seq<QVariant>, fdPassing: bool, k: nat)
    requires k <= |body| == |args|
    requires forall i | 0 <= i < |args| :: args[i].Ok() && ComesBack(args[i], body[i], fdPassing)
    ensures var b := Body(args[..k], fdPassing);
      && (b.ok <==> forall t | t in body[..k] :: Survives(t, fdPassing))
      && (b.ok ==> b.trees == body[..k])
  {
    hide Survives, Written;
    if k > 0 {
      BodyPrefix(body, args, fdPassing, k - 1);
      BodyAppend(args[..k - 1], args[k - 1], fdPassing);
      assert args[..k - 1] + [args[k - 1]] == args[..k];
      assert body[..k] == body[..k - 1] + [body[k - 1]];
      assert ComesBack(args[k - 1], body[k - 1], fdPassing);
      assert body[k - 1] in body[..k];
      assert forall t :: t in body[..k] <==> t in body[..k - 1] || t == body[k - 1];
    }
  }
}
