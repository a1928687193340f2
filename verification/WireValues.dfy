/** Message bodies as trees of typed values, and the libdbus iterator over them. */
module WireValues {
  import opened WireTypes

  datatype Value = Num(n: int) | Text(s: string)

  datatype Tree =
    | BasicValue(code: char, value: Value)
    | ArrayValue(element: Type, items: seq<Tree>)
    | StructValue(items: seq<Tree>)
    | EntryValue(items: seq<Tree>)
    | VariantValue(content: Type, items: seq<Tree>)
  {
    function TypeOf(): Type {
      match this
      case BasicValue(code, _) => Basic(code)
      case ArrayValue(element, _) => Array(element)
      case StructValue(items) => Struct(seq(|items|, i requires 0 <= i < |items| => items[i].TypeOf()))
      case EntryValue(items) =>
        if |items| == 2 && items[0].BasicValue? then DictEntry(items[0].code, items[1].TypeOf()) else Struct([])
      case VariantValue(_, _) => Type.Variant
    }

    /** What a message can contain. Object paths are never empty; signatures may be. */
    predicate WellFormed() {
      match this
      case BasicValue(code, value) =>
        && IsBasicCode(code)
        && (value.Text? <==> IsTextCode(code))
        && (code == 'o' ==> value.s != "")
      case ArrayValue(element, items) =>
        element.Element() && forall i | 0 <= i < |items| :: items[i].WellFormed() && items[i].TypeOf() == element
      case StructValue(items) =>
        items != [] && forall i | 0 <= i < |items| :: items[i].WellFormed() && items[i].TypeOf().Complete()
      case EntryValue(items) =>
        && |items| == 2
        && items[0].BasicValue? && items[0].WellFormed()
        && items[1].WellFormed() && items[1].TypeOf().Complete()
      case VariantValue(content, items) =>
        |items| == 1 && items[0].WellFormed() && items[0].TypeOf() == content && content.Complete()
    }
  }

  /** The values of one message. */
  predicate IsBody(body: seq<Tree>) {
    forall i | 0 <= i < |body| :: body[i].WellFormed() && body[i].TypeOf().Complete()
  }

  lemma {:induction false} TypeIsElement(t: Tree)
    requires t.WellFormed()
    ensures t.TypeOf().Element() && (t.TypeOf().Complete() <==> !t.EntryValue?)
  {
    hide IsBasicCode;
    match t
    case StructValue(items) =>
      assert t.TypeOf().fields[0] == items[0].TypeOf();
    case _ =>
  }

  datatype Iter = Iter(items: seq<Tree>, pos: nat, element: Type)
  {
    predicate AtEnd() {
      pos >= |items|
    }

    function Current(): Tree
      requires !AtEnd()
    {
      items[pos]
    }

    function Next(): Iter {
      if AtEnd() then this else this.(pos := pos + 1)
    }

    /** dbus_message_iter_get_arg_type. */
    function ArgType(): char {
      if AtEnd() then NO_TYPE
      else match Current()
        case BasicValue(code, _) => code
        case ArrayValue(_, _) => 'a'
        case StructValue(_) => 'r'
        case EntryValue(_) => 'e'
        case VariantValue(_, _) => 'v'
    }

    /** dbus_message_iter_get_element_type, for an array. */
    function ElementType(): char
      requires !AtEnd() && Current().ArrayValue?
    {
      match Current().element
      case Basic(code) => code
      case Variant => 'v'
      case Array(_) => 'a'
      case Struct(_) => 'r'
      case DictEntry(_, _) => 'e'
    }

    /** dbus_message_iter_get_signature: inside an array it is known even where no element is left. */
    function CurrentSignature(): string {
      if element != NO_ELEMENT then Signature(element)
      else if AtEnd() then ""
      else Signature(Current().TypeOf())
    }

    function Recurse(): Iter
      requires !AtEnd() && !Current().BasicValue?
    {
      Iter(Current().items, 0, if Current().ArrayValue? then Current().element else NO_ELEMENT)
    }
  }

  const NO_TYPE := '\0'

  /** Stands for "not inside an array": no type is like this. */
  const NO_ELEMENT := Struct([])

  /** What an iterator may walk over. */
  predicate IterOk(it: Iter) {
    && (forall i | 0 <= i < |it.items| :: it.items[i].WellFormed())
    && (it.element != NO_ELEMENT ==>
          it.element.Element() && forall i | 0 <= i < |it.items| :: it.items[i].TypeOf() == it.element)
  }

  lemma RecurseOk(it: Iter)
    requires IterOk(it) && !it.AtEnd() && !it.Current().BasicValue?
    ensures IterOk(it.Recurse())
  {
    hide IsBasicCode;
    assert it.Current().WellFormed();
  }

  // ---------- appending ----------

  predicate IsContainerCode(code: char) {
    code == 'a' || code == 'r' || code == 'e' || code == 'v'
  }

  /** The value a container becomes when it is closed: `sig` is the signature it was opened with. */
  function Closed(code: char, sig: string, items: seq<Tree>): Tree
    requires IsContainerCode(code)
  {
    if code == 'a' then ArrayValue(ElementOf(sig), items)
    else if code == 'v' then VariantValue(ElementOf(sig), items)
    else if code == 'r' then StructValue(items)
    else EntryValue(items)
  }

  function ElementOf(sig: string): Type {
    match ReadType(sig, true)
    case Parsed(t, rest) => if rest == "" then t else NO_ELEMENT
    case Fail => NO_ELEMENT
  }

  lemma ElementOfSignature(t: Type)
    requires t.Element()
    ensures ElementOf(Signature(t)) == t
  {
    ReadSignature(t, "", true);
    assert Signature(t) + "" == Signature(t);
  }

  /** A container opened like the one an iterator is at, and given the same items, is the same value. */
  lemma ClosedAgain(it: Iter)
    requires IterOk(it) && !it.AtEnd() && !it.Current().BasicValue?
    ensures IsContainerCode(it.ArgType())
    ensures var sig := if (it.ArgType() == 'a' || it.ArgType() == 'v') then it.Recurse().CurrentSignature() else "";
      Closed(it.ArgType(), sig, it.Current().items) == it.Current()
  {
    hide IsBasicCode, ElementOf;
    assert it.Current().WellFormed();
    match it.Current()
    case ArrayValue(e, items) => ElementOfSignature(e);
    case VariantValue(content, items) =>
      TypeIsElement(items[0]);
      ElementOfSignature(content);
    case _ =>
  }

  function Values(items: seq<Tree>): seq<Value> {
    seq(|items|, i requires 0 <= i < |items| => if items[i].BasicValue? then items[i].value else Num(0))
  }

  function FixedArray(code: char, values: seq<Value>): seq<Tree> {
    seq(|values|, i requires 0 <= i < |values| => BasicValue(code, values[i]))
  }

  /** dbus_message_iter_get_fixed_array and dbus_message_iter_append_fixed_array are inverse. */
  lemma FixedArrayCopied(t: Tree, code: char)
    requires t.WellFormed() && t.ArrayValue? && t.element == Basic(code)
    ensures FixedArray(code, Values(t.items)) == t.items
  {
    forall i | 0 <= i < |t.items| ensures t.items[i] == BasicValue(code, Values(t.items)[i]) {
      assert t.items[i].TypeOf() == Basic(code);
    }
  }
}
