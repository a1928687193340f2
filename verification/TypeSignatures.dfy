/** Types registered with the D-Bus type system: how their marshalling operators, run once on a
    default value, give the signature of everything they write later. */
module TypeSignatures {
  import opened WireTypes
  import opened WireValues
  import opened Variants
  import opened Marshalling

  /** A C++ type by what its marshalling operator does. The first four are built in, the others are
      registered; a map may be declared with any key type. */
  datatype CType =
    | CBasic(code: char)
    | CByteArray
    | CStringList
    | CVariant
    | CList(element: CType)
    | CMap(key: CType, value: CType)
    | CStruct(fields: seq<CType>)
  {
    predicate Ok() {
      match this
      case CBasic(code) => IsBasicCode(code)
      case CList(element) => element.Ok()
      case CMap(key, value) => key.Ok() && value.Ok()
      case CStruct(fields) => forall i | 0 <= i < |fields| :: fields[i].Ok()
      case _ => true
    }

    predicate BuiltIn() {
      CBasic? || CByteArray? || CStringList? || CVariant?
    }
  }

  datatype MapEntry = MapEntry(key: CValue, value: CValue)

  datatype CValue =
    | VScalar(value: Value)
    | VBytes(bytes: seq<Value>)
    | VStrings(strings: seq<string>)
    | VVariant(inner: QVariant)
    | VSeq(items: seq<CValue>)
    | VMap(entries: seq<MapEntry>)
  {
    // The parts of a value, for an operator that knows its type.

    function Scalar(): Value {
      if VScalar? then value else Num(0)
    }

    function Bytes(): seq<Value> {
      if VBytes? then bytes else []
    }

    function Strings(): seq<string> {
      if VStrings? then strings else []
    }

    function Inner(): (v: QVariant)
      ensures v.Ok()
    {
      if VVariant? && inner.Ok() then inner else Invalid
    }

    function Items(): seq<CValue> {
      if VSeq? then items else []
    }

    function Field(i: nat): CValue {
      if VSeq? && i < |items| then items[i] else VSeq([])
    }

    function Entries(): seq<MapEntry> {
      if VMap? then entries else []
    }
  }

  predicate HasType(v: CValue, t: CType)
    decreases t
  {
    match t
    case CBasic(code) => v.VScalar? && (v.value.Text? <==> IsTextCode(code))
    case CByteArray => v.VBytes? && forall b | b in v.bytes :: b.Num?
    case CStringList => v.VStrings?
    case CVariant => v.VVariant? && v.inner.Ok()
    case CList(element) => v.VSeq? && forall x | x in v.items :: HasType(x, element)
    case CMap(key, value) => v.VMap? && forall e | e in v.entries :: HasType(e.key, key) && HasType(e.value, value)
    case CStruct(fields) =>
      v.VSeq? && |v.items| == |fields| && forall i | 0 <= i < |fields| :: HasType(v.Field(i), fields[i])
  }

  /** The default-constructed value of a type. */
  function Default(t: CType): CValue {
    match t
    case CBasic(code) => VScalar(if IsTextCode(code) then Text("") else if code == 'h' then Num(-1) else Num(0))
    case CByteArray => VBytes([])
    case CStringList => VStrings([])
    case CVariant => VVariant(Invalid)
    case CList(_) => VSeq([])
    case CMap(_, _) => VMap([])
    case CStruct(fields) => VSeq(seq(|fields|, i requires 0 <= i < |fields| => Default(fields[i])))
  }

  // ---------- the signature the code finds ----------

  /** typeToSignature. */
  function KnownSignature(t: CType): string
    decreases t, 1
  {
    match t
    case CBasic(code) => [code]
    case CByteArray => "ay"
    case CStringList => "as"
    case CVariant => "v"
    case _ => Accepted(DefaultText(t), DefaultOk(t))
  }

  /** The guard of createSignature. */
  function Accepted(text: string, ok: bool): string {
    if text == "" || !ok || !IsValidSingleSignature(text) then ""
    else if text[0] != 'a' && text[0] != '(' then ""
    else if text[0] == 'a' && |text| > 1 && (text[1] == 'y' || text[1] == 's') then ""
    else text
  }

  /** What the operator of a type appends to the buffer for the default value. */
  function DefaultText(t: CType): string
    decreases t, 0
  {
    match t
    case CBasic(code) => [code]
    case CByteArray => "ay"
    case CStringList => "as"
    case CVariant => "v"
    case CList(element) => "a" + KnownSignature(element)
    case CMap(key, value) =>
      if KeyOk(key) then "a" + ("{" + KnownSignature(key) + KnownSignature(value) + "}") else ""
    case CStruct(fields) => "(" + DefaultTexts(fields) + ")"
  }

  function DefaultTexts(ts: seq<CType>): string {
    if ts == [] then "" else DefaultText(ts[0]) + DefaultTexts(ts[1..])
  }

  predicate DefaultOk(t: CType)
    decreases t, 0
  {
    match t
    case CMap(key, _) => KeyOk(key)
    case CStruct(fields) => forall i | 0 <= i < |fields| :: DefaultOk(fields[i])
    case _ => true
  }

  predicate KeyOk(key: CType)
    decreases key, 2
  {
    var sig := KnownSignature(key);
    |sig| == 1 && IsBasicCode(sig[0])
  }

  // ---------- the type the values have ----------

  function WireType(t: CType): Type {
    match t
    case CBasic(code) => Basic(code)
    case CByteArray => Array(Basic('y'))
    case CStringList => Array(Basic('s'))
    case CVariant => Type.Variant
    case CList(element) => Array(WireType(element))
    case CMap(key, value) => Array(DictEntry(if key.CBasic? then key.code else 's', WireType(value)))
    case CStruct(fields) => Struct(seq(|fields|, i requires 0 <= i < |fields| => WireType(fields[i])))
  }

  /** Every element type, key type and value type inside is known by its own signature. */
  predicate Regular(t: CType)
    decreases t, 0
  {
    match t
    case CList(element) => Known(element)
    case CMap(key, value) => key.CBasic? && Known(value)
    case CStruct(fields) => fields != [] && forall i | 0 <= i < |fields| :: Regular(fields[i])
    case _ => true
  }

  /** The types the guard lets through. */
  predicate Known(t: CType)
    decreases t, 1
  {
    t.BuiltIn()
    || (&& Regular(t)
        && WireType(t) != Array(Basic('y')) && WireType(t) != Array(Basic('s'))
        && WireType(t).WithinLimits())
  }

  lemma {:induction false} RegularIsComplete(t: CType)
    requires t.Ok() && Regular(t)
    ensures WireType(t).Complete()
  {
    hide IsBasicCode;
    assert IsBasicCode('y') && IsBasicCode('s') by { TextCodes(); }
    match t
    case CList(element) =>
      KnownIsRegular(element);
      RegularIsComplete(element);
      CompleteIsElement(WireType(element));
    case CMap(key, value) =>
      KnownIsRegular(value);
      RegularIsComplete(value);
    case CStruct(fields) =>
      forall i | 0 <= i < |fields| ensures WireType(fields[i]).Complete() {
        RegularIsComplete(fields[i]);
      }
    case _ =>
  }

  lemma TextCodes()
    ensures IsBasicCode('y') && IsBasicCode('s') && IsBasicCode('i')
  {}

  lemma KnownIsRegular(t: CType)
    requires Known(t)
    ensures Regular(t)
  {}

  /** Run on the default value, the operator of a regular type spells the type of its values. */
  lemma {:induction false} DefaultSpellsType(t: CType)
    requires t.Ok() && Regular(t)
    ensures DefaultText(t) == Signature(WireType(t)) && DefaultOk(t)
    decreases t, 0
  {
    hide IsBasicCode, Accepted;
    match t
    case CByteArray => assert Signature(Array(Basic('y'))) == "a" + ['y'];
    case CStringList => assert Signature(Array(Basic('s'))) == "a" + ['s'];
    case CList(element) => KnownSpellsType(element);
    case CMap(key, value) =>
      KnownSpellsType(value);
      assert KeyOk(key);
    case CStruct(fields) =>
      forall i | 0 <= i < |fields| ensures DefaultText(fields[i]) == Signature(WireType(fields[i])) && DefaultOk(fields[i]) {
        DefaultSpellsType(fields[i]);
      }
      DefaultTextsSpell(fields, WireType(t).fields);
    case _ =>
  }

  lemma {:induction false} DefaultTextsSpell(cs: seq<CType>, ts: seq<Type>)
    requires |cs| == |ts| && forall i | 0 <= i < |cs| :: DefaultText(cs[i]) == Signature(ts[i])
    ensures DefaultTexts(cs) == Signatures(ts)
  {
    if cs != [] {
      DefaultTextsSpell(cs[1..], ts[1..]);
    }
  }

  /** The guard lets exactly the known ones of the regular types through, with the right signature. */
  lemma {:induction false} KnownSpellsType(t: CType)
    requires t.Ok() && Regular(t)
    ensures KnownSignature(t) == if Known(t) then Signature(WireType(t)) else ""
    ensures Known(t) && !t.BuiltIn() ==> IsValidSingleSignature(KnownSignature(t))
    decreases t, 1
  {
    DefaultSpellsType(t);
    if !t.BuiltIn() {
      RegularIsComplete(t);
      GuardIsExact(WireType(t));
    }
  }

  lemma GuardIsExact(t: Type)
    requires t.Complete() && (t.Array? || t.Struct?)
    ensures Accepted(Signature(t), true) ==
      if t.WithinLimits() && t != Array(Basic('y')) && t != Array(Basic('s')) then Signature(t) else ""
    ensures t.WithinLimits() ==> IsValidSingleSignature(Signature(t))
  {
    hide IsBasicCode;
    NotBasic();
    ReadSignature(t, "", false);
    assert Signature(t) + "" == Signature(t);
    if t.Array? {
      SignatureStart(t.element);
      assert Signature(t)[1] == Signature(t.element)[0];
      assert t.element.Basic? ==> Signature(t.element) == [t.element.code];
    }
  }

  // ---------- no other type is spelled ----------

  /** Refusing a type shortens the text, and nothing makes up for it. */
  lemma {:induction false} NeverTooLong(t: CType)
    ensures |DefaultText(t)| <= |Signature(WireType(t))|
    ensures |KnownSignature(t)| <= |Signature(WireType(t))|
  {
    hide IsValidSingleSignature;
    match t
    case CList(element) => NeverTooLong(element);
    case CMap(key, value) => NeverTooLong(value);
    case CStruct(fields) =>
      forall i | 0 <= i < |fields| ensures |DefaultText(fields[i])| <= |Signature(WireType(fields[i]))| {
        NeverTooLong(fields[i]);
      }
      TextsNeverTooLong(fields, WireType(t).fields);
    case _ =>
  }

  lemma {:induction false} TextsNeverTooLong(cs: seq<CType>, ts: seq<Type>)
    requires |cs| == |ts| && forall i | 0 <= i < |cs| :: |DefaultText(cs[i])| <= |Signature(ts[i])|
    ensures |DefaultTexts(cs)| <= |Signatures(ts)|
  {
    if cs != [] {
      TextsNeverTooLong(cs[1..], ts[1..]);
    }
  }

  lemma {:induction false} TextsSpellEach(cs: seq<CType>, ts: seq<Type>)
    requires |cs| == |ts| && forall i | 0 <= i < |cs| :: |DefaultText(cs[i])| <= |Signature(ts[i])|
    requires DefaultTexts(cs) == Signatures(ts)
    ensures forall i | 0 <= i < |cs| :: DefaultText(cs[i]) == Signature(ts[i])
  {
    if cs != [] {
      TextsNeverTooLong(cs[1..], ts[1..]);
      var n := |DefaultText(cs[0])|;
      assert DefaultTexts(cs)[..n] == DefaultText(cs[0]) && Signatures(ts)[..n] == Signature(ts[0]);
      assert DefaultTexts(cs)[n..] == DefaultTexts(cs[1..]) && Signatures(ts)[n..] == Signatures(ts[1..]);
      TextsSpellEach(cs[1..], ts[1..]);
    }
  }

  /** A key is basic if and only if it is a built-in basic type: registered ones have longer signatures. */
  lemma BasicKeys(key: CType)
    requires key.Ok()
    ensures KeyOk(key) <==> key.CBasic?
  {
    hide IsValidSingleSignature, IsBasicCode;
    NotBasic();
  }

  /** Only for a regular type does the operator spell the type of its values. */
  lemma {:induction false} OnlyRegularIsSpelled(t: CType)
    requires t.Ok() && WireType(t).Complete()
    requires DefaultOk(t) && DefaultText(t) == Signature(WireType(t))
    ensures Regular(t)
    decreases t, 0
  {
    hide IsBasicCode, Accepted;
    match t
    case CList(element) =>
      assert DefaultText(t)[1..] == KnownSignature(element) && Signature(WireType(t))[1..] == Signature(WireType(element));
      OnlyKnownIsSpelled(element);
    case CMap(key, value) =>
      BasicKeys(key);
      MapText(key, value);
      OnlyKnownIsSpelled(value);
    case CStruct(fields) =>
      var ts := WireType(t).fields;
      forall i | 0 <= i < |fields| ensures |DefaultText(fields[i])| <= |Signature(ts[i])| {
        NeverTooLong(fields[i]);
      }
      StructText(fields, ts);
      TextsSpellEach(fields, ts);
      forall i | 0 <= i < |fields| ensures Regular(fields[i]) {
        OnlyRegularIsSpelled(fields[i]);
      }
    case _ =>
  }

  lemma MapText(key: CType, value: CType)
    requires key.CBasic? && KeyOk(key) && DefaultText(CMap(key, value)) == Signature(WireType(CMap(key, value)))
    ensures KnownSignature(value) == Signature(WireType(value))
  {
    hide KnownSignature, KeyOk;
    KeyText(key);
    DictText(key.code, KnownSignature(value));
    DictText(key.code, Signature(WireType(value)));
    MapTexts(key, value);
  }

  lemma MapTexts(key: CType, value: CType)
    requires key.CBasic? && KeyOk(key) && KnownSignature(key) == [key.code]
    ensures DefaultText(CMap(key, value)) == "a{" + [key.code] + KnownSignature(value) + "}"
    ensures Signature(WireType(CMap(key, value))) == "a{" + [key.code] + Signature(WireType(value)) + "}"
  {
    hide KnownSignature, KeyOk;
  }

  lemma DictText(code: char, text: string)
    ensures var s := "a{" + [code] + text + "}"; s[3..|s| - 1] == text
  {}

  lemma KeyText(key: CType)
    requires key.CBasic?
    ensures KnownSignature(key) == [key.code]
  {}

  lemma StructText(fields: seq<CType>, ts: seq<Type>)
    requires DefaultText(CStruct(fields)) == Signature(Struct(ts))
    ensures DefaultTexts(fields) == Signatures(ts)
  {
    var a, b := DefaultText(CStruct(fields)), Signature(Struct(ts));
    assert a[1..|a| - 1] == DefaultTexts(fields) && b[1..|b| - 1] == Signatures(ts);
  }

  /** The signature found for a type is the one of its values if and only if the type is known. */
  lemma {:induction false} OnlyKnownIsSpelled(t: CType)
    requires t.Ok() && WireType(t).Complete()
    ensures KnownSignature(t) == Signature(WireType(t)) <==> Known(t)
    decreases t, 1
  {
    hide IsBasicCode, IsValidSingleSignature;
    CompleteIsElement(WireType(t));
    SignatureStart(WireType(t));
    if KnownSignature(t) == Signature(WireType(t)) && !t.BuiltIn() {
      OnlyRegularIsSpelled(t);
      KnownSpellsType(t);
    }
    if Known(t) {
      KnownIsRegular(t);
      KnownSpellsType(t);
    }
  }

  // ---------- writing values ----------

  /** Nothing in a value is refused: object paths, signatures, descriptors and variants. */
  predicate Writable(v: CValue, t: CType, fdPassing: bool)
    decreases t
  {
    match t
    case CBasic(code) => WrittenBasic(code, v.Scalar()).ok
    case CVariant => Written(DBusVariant(v.Inner()), fdPassing).ok
    case CList(element) => forall x | x in v.Items() :: Writable(x, element, fdPassing)
    case CMap(key, value) =>
      && KeyOk(key)
      && forall e | e in v.Entries() :: Writable(e.key, key, fdPassing) && Writable(e.value, value, fdPassing)
    case CStruct(fields) => forall i | 0 <= i < |fields| :: Writable(v.Field(i), fields[i], fdPassing)
    case _ => true
  }

  function MapSignature(key: CType, value: CType): string {
    "{" + KnownSignature(key) + KnownSignature(value) + "}"
  }

  /** The value a writable C++ value becomes. */
  function TreeOf(v: CValue, t: CType, fdPassing: bool): Tree
    decreases t, 1
  {
    match t
    case CBasic(code) => BasicValue(code, v.Scalar())
    case CByteArray => ArrayValue(Basic('y'), FixedArray('y', v.Bytes()))
    case CStringList => ArrayValue(Basic('s'), StringTrees(v.Strings()))
    case CVariant => VariantTree(Written(DBusVariant(v.Inner()), fdPassing))
    case CList(element) => ArrayValue(ElementOf(KnownSignature(element)), ListTrees(v.Items(), element, fdPassing))
    case CMap(key, value) => ArrayValue(ElementOf(MapSignature(key, value)), EntryTrees(v.Entries(), key, value, fdPassing))
    case CStruct(fields) => StructValue(FieldTrees(v, fields, fdPassing))
  }

  function FieldTrees(v: CValue, ts: seq<CType>, fdPassing: bool): seq<Tree>
    decreases ts, 0
  {
    seq(|ts|, i requires 0 <= i < |ts| => TreeOf(v.Field(i), ts[i], fdPassing))
  }

  function VariantTree(w: Outcome): Tree {
    if w.trees == [] then VariantValue(NO_ELEMENT, []) else w.trees[0]
  }

  function ListTrees(vs: seq<CValue>, element: CType, fdPassing: bool): seq<Tree>
    decreases CList(element), 0
  {
    seq(|vs|, i requires 0 <= i < |vs| => TreeOf(vs[i], element, fdPassing))
  }

  function EntryTrees(es: seq<MapEntry>, key: CType, value: CType, fdPassing: bool): seq<Tree>
    decreases CMap(key, value), 0
  {
    seq(|es|, i requires 0 <= i < |es| =>
      EntryValue([TreeOf(es[i].key, key, fdPassing), TreeOf(es[i].value, value, fdPassing)]))
  }

  lemma WrittenVariant(inner: QVariant, fdPassing: bool)
    requires inner.Ok()
    ensures var w := Written(DBusVariant(inner), fdPassing);
      w.ok ==> w.trees == [VariantTree(w)] && VariantTree(w).TypeOf() == Type.Variant
  {}

  /** The variants inside a value hold something that can be written. */
  predicate FullVariants(v: CValue, t: CType, fdPassing: bool)
    decreases t
  {
    match t
    case CVariant => VariantTree(Written(DBusVariant(v.Inner()), fdPassing)).WellFormed()
    case CList(element) => forall x | x in v.Items() :: FullVariants(x, element, fdPassing)
    case CMap(key, value) =>
      forall e | e in v.Entries() :: FullVariants(e.key, key, fdPassing) && FullVariants(e.value, value, fdPassing)
    case CStruct(fields) => forall i | 0 <= i < |fields| :: FullVariants(v.Field(i), fields[i], fdPassing)
    case _ => true
  }

  predicate WellTyped(tree: Tree, t: Type) {
    tree.WellFormed() && tree.TypeOf() == t
  }

  /** What is written for a regular type is a well-formed value of the type its signature was built for. */
  lemma {:induction false} WrittenIsWellTyped(v: CValue, t: CType, fdPassing: bool)
    requires t.Ok() && Regular(t) && HasType(v, t)
    requires Writable(v, t, fdPassing) && FullVariants(v, t, fdPassing)
    ensures WellTyped(TreeOf(v, t, fdPassing), WireType(t))
    decreases t
  {
    hide IsBasicCode, ElementOf, WellTyped, TreeOf;
    match t
    case CList(element) =>
      KnownIsRegular(element);
      forall x | x in v.items ensures WellTyped(TreeOf(x, element, fdPassing), WireType(element)) {
        WrittenIsWellTyped(x, element, fdPassing);
      }
      ListIsWellTyped(v, element, fdPassing);
    case CMap(key, value) =>
      KnownIsRegular(value);
      forall e | e in v.entries
        ensures WellTyped(TreeOf(e.key, key, fdPassing), Basic(key.code))
        ensures WellTyped(TreeOf(e.value, value, fdPassing), WireType(value))
      {
        WrittenIsWellTyped(e.key, key, fdPassing);
        WrittenIsWellTyped(e.value, value, fdPassing);
      }
      MapIsWellTyped(v, key, value, fdPassing);
    case CStruct(fields) =>
      forall i | 0 <= i < |fields| ensures WellTyped(TreeOf(v.Field(i), fields[i], fdPassing), WireType(fields[i])) {
        WrittenIsWellTyped(v.Field(i), fields[i], fdPassing);
      }
      StructIsWellTyped(v, fields, fdPassing);
    case _ => LeafIsWellTyped(v, t, fdPassing);
  }

  lemma LeafIsWellTyped(v: CValue, t: CType, fdPassing: bool)
    requires t.Ok() && t.BuiltIn() && HasType(v, t) && Writable(v, t, fdPassing) && FullVariants(v, t, fdPassing)
    ensures WellTyped(TreeOf(v, t, fdPassing), WireType(t))
  {
    hide Written;
    match t
    case CByteArray =>
      forall i | 0 <= i < |v.bytes| ensures FixedArray('y', v.bytes)[i].WellFormed() {
        assert v.bytes[i] in v.bytes;
      }
    case CVariant => WrittenVariant(v.inner, fdPassing);
    case CStringList =>
      forall i | 0 <= i < |v.strings| ensures StringTrees(v.strings)[i].WellFormed() {}
    case _ =>
  }

  lemma ListIsWellTyped(v: CValue, element: CType, fdPassing: bool)
    requires element.Ok() && Known(element)
    requires forall x | x in v.Items() :: WellTyped(TreeOf(x, element, fdPassing), WireType(element))
    ensures WellTyped(TreeOf(v, CList(element), fdPassing), WireType(CList(element)))
  {
    hide IsBasicCode, ElementOf, Known, Regular, WellTyped;
    KnownIsRegular(element);
    KnownSpellsType(element);
    RegularIsComplete(element);
    CompleteIsElement(WireType(element));
    ElementOfSignature(WireType(element));
    var trees, xs := ListTrees(v.Items(), element, fdPassing), v.Items();
    forall i | 0 <= i < |xs| ensures WellTyped(trees[i], WireType(element)) {
      assert xs[i] in xs;
    }
    ArrayIsWellTyped(WireType(element), trees);
  }

  lemma MapIsWellTyped(v: CValue, key: CType, value: CType, fdPassing: bool)
    requires key.CBasic? && key.Ok() && value.Ok() && Known(value)
    requires forall e | e in v.Entries() ::
      WellTyped(TreeOf(e.key, key, fdPassing), Basic(key.code)) && WellTyped(TreeOf(e.value, value, fdPassing), WireType(value))
    ensures WellTyped(TreeOf(v, CMap(key, value), fdPassing), WireType(CMap(key, value)))
  {
    hide IsBasicCode, ElementOf, Known, Regular, WellTyped;
    KnownIsRegular(value);
    KnownSpellsType(value);
    RegularIsComplete(value);
    var entry := DictEntry(key.code, WireType(value));
    ElementOfSignature(entry);
    assert MapSignature(key, value) == Signature(entry);
    var trees, es := EntryTrees(v.Entries(), key, value, fdPassing), v.Entries();
    forall i | 0 <= i < |es| ensures WellTyped(trees[i], entry) {
      assert es[i] in es;
      EntryIsWellTyped(TreeOf(es[i].key, key, fdPassing), TreeOf(es[i].value, value, fdPassing), key.code, WireType(value));
    }
    ArrayIsWellTyped(entry, trees);
  }

  lemma ArrayIsWellTyped(element: Type, items: seq<Tree>)
    requires element.Element() && forall i | 0 <= i < |items| :: WellTyped(items[i], element)
    ensures WellTyped(ArrayValue(element, items), Array(element))
  {}

  lemma EntryIsWellTyped(k: Tree, v: Tree, code: char, value: Type)
    requires WellTyped(k, Basic(code)) && WellTyped(v, value) && value.Complete()
    ensures WellTyped(EntryValue([k, v]), DictEntry(code, value))
  {
    hide IsBasicCode;
    var entry := EntryValue([k, v]);
    assert entry.items[0] == k && entry.items[1] == v;
  }

  lemma StructIsWellTyped(v: CValue, fields: seq<CType>, fdPassing: bool)
    requires fields != [] && forall i | 0 <= i < |fields| :: fields[i].Ok() && Regular(fields[i])
    requires forall i | 0 <= i < |fields| :: WellTyped(TreeOf(v.Field(i), fields[i], fdPassing), WireType(fields[i]))
    ensures WellTyped(TreeOf(v, CStruct(fields), fdPassing), WireType(CStruct(fields)))
  {
    hide IsBasicCode, ElementOf, Regular;
    forall i | 0 <= i < |fields| ensures WireType(fields[i]).Complete() {
      RegularIsComplete(fields[i]);
    }
  }

  /** Outside the regular types the guard can be deceived: a list whose element type was refused adds
      just "a" to the struct around it, and swallows the field that follows, whatever both are. */
  lemma RefusedElementType(refused: CType, field: CType)
    requires field.Ok() && Regular(field) && KnownSignature(refused) == ""
    requires Struct([Array(WireType(field))]).WithinLimits()
    ensures var t, taken := CStruct([CList(refused), field]), Struct([Array(WireType(field))]);
      KnownSignature(t) == Signature(taken) && WireType(t) == Struct([Array(WireType(refused)), WireType(field)])
  {
    hide IsBasicCode, Accepted, IsValidSingleSignature, Regular, KnownSignature;
    var t, taken := CStruct([CList(refused), field]), Struct([Array(WireType(field))]);
    DefaultSpellsType(field);
    RegularIsComplete(field);
    CompleteIsElement(WireType(field));
    TwoFields(refused, field);
    OneField(Array(WireType(field)));
    GuardIsExact(taken);
    TextIsAccepted(t);
  }

  lemma TextIsAccepted(t: CType)
    requires !t.BuiltIn()
    ensures KnownSignature(t) == Accepted(DefaultText(t), DefaultOk(t))
  {}

  lemma TwoFields(refused: CType, field: CType)
    requires KnownSignature(refused) == "" && DefaultOk(field)
    ensures var t := CStruct([CList(refused), field]);
      DefaultText(t) == "(a" + DefaultText(field) + ")" && DefaultOk(t)
      && WireType(t) == Struct([Array(WireType(refused)), WireType(field)])
  {
    hide KnownSignature;
    var fields := [CList(refused), field];
    assert fields[1..] == [field] && [field][1..] == [];
    assert DefaultTexts([field]) == DefaultText(field) + "";
    assert DefaultTexts(fields) == "a" + "" + DefaultTexts([field]);
  }

  lemma OneField(t: Type)
    requires t.Array?
    ensures Signature(Struct([t])) == "(a" + Signature(t.element) + ")"
  {
    assert [t][1..] == [];
    assert Signatures([t]) == Signature(t) + "";
  }

  /** A registered list of strings is refused, because string lists are built in. */
  lemma StringListIsRefused()
    ensures KnownSignature(CList(CBasic('s'))) == ""
  {
    hide IsValidSingleSignature;
    KnownSpellsType(CList(CBasic('s')));
  }
}
