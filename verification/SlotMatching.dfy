/** Choosing the slot for a method call, and handing it the arguments. */
module SlotMatching {
  import opened Wrappers
  import opened WireTypes
  import opened WireValues
  import opened Variants
  import opened TypeSignatures

  /** A meta type id. NoType stands for zero: an unknown type, or no return value. */
  datatype MetaType =
    | NoType
    | MessageType
    | ArgumentType
    | VoidStar
    | BasicType(code: char)
    | VariantType
    | ByteArrayType
    | StringListType
    | Registered(name: string)

  /** Signatures of the registered types; a refused type has an empty one. */
  type Table = map<string, string>

  function SignatureOf(id: MetaType, table: Table): Option<string> {
    match id
    case BasicType(code) => if IsBasicCode(code) then Some([code]) else None
    case VariantType => Some("v")
    case ByteArrayType => Some("ay")
    case StringListType => Some("as")
    case Registered(name) => if name in table then Some(table[name]) else None
    case _ => None
  }

  /** What the guard of createSignature leaves in the table. */
  ghost predicate TableOk(table: Table) {
    forall n | n in table :: table[n] == "" || IsRegistrable(table[n])
  }

  ghost predicate IsRegistrable(sig: string) {
    exists t: Type :: IsRegistrableType(t) && sig == Signature(t)
  }

  predicate IsRegistrableType(t: Type) {
    t.Complete() && (t.Array? || t.Struct?) && t != Array(Basic('y')) && t != Array(Basic('s'))
  }

  lemma GuardKeepsTable(text: string, ok: bool)
    ensures Accepted(text, ok) == "" || IsRegistrable(Accepted(text, ok))
  {
    hide IsBasicCode;
    if Accepted(text, ok) != "" {
      NotBasic();
      ValidSingleSignatures(text);
      var t: Type :| t.Complete() && text == Signature(t);
      if t.Array? {
        assert Signature(t)[1] == Signature(t.element)[0];
      }
      assert IsRegistrableType(t);
    }
  }

  // ---------- the parameters of a method ----------

  datatype Parameter = Pointer | Reference(id: MetaType) | ByValue(id: MetaType)

  datatype Kind = Slot | Invokable | Other

  datatype Method = Method(
    name: string, isPublic: bool, kind: Kind, scriptable: bool, returnType: MetaType, parameters: seq<Parameter>)

  /** Values, then at most one message, then references; every type known to the bus. */
  predicate WellShaped(ps: seq<Parameter>, table: Table) {
    && (forall i | 0 <= i < |ps| :: ParameterOk(ps[i], table))
    && (forall i, j | 0 <= i < j < |ps| && ps[j].ByValue? :: ps[i].ByValue? && ps[i].id != MessageType)
  }

  predicate ParameterOk(p: Parameter, table: Table) {
    match p
    case Pointer => false
    case Reference(id) => SignatureOf(id, table).Some?
    case ByValue(id) => id == MessageType || SignatureOf(id, table).Some?
  }

  function Ids(ps: seq<Parameter>): seq<MetaType> {
    seq(|ps|, i requires 0 <= i < |ps| => if ps[i].Pointer? then NoType else ps[i].id)
  }

  /** How many parameters come first and by value. */
  function InputCount(ps: seq<Parameter>): (n: nat)
    ensures n <= |ps|
  {
    if ps != [] && ps[0].ByValue? then 1 + InputCount(ps[1..]) else 0
  }

  lemma {:induction false} InputsComeFirst(ps: seq<Parameter>, table: Table)
    requires WellShaped(ps, table)
    ensures InputCount(ps) <= |ps| && forall i | 0 <= i < |ps| :: ps[i].ByValue? <==> i < InputCount(ps)
  {
    if ps != [] {
      assert forall i | 0 <= i < |ps| - 1 :: ps[1..][i] == ps[i + 1];
      InputsComeFirst(ps[1..], table);
    }
  }

  /** How many parameters have the required form, up to the first that does not fit. */
  function GoodPrefix(ps: seq<Parameter>, table: Table): (n: nat)
    ensures n <= |ps|
  {
    if ps == [] || WellShaped(ps, table) then |ps| else GoodPrefix(ps[..|ps| - 1], table)
  }

  lemma {:induction false} GoodUpTo(ps: seq<Parameter>, i: nat, table: Table)
    requires i < |ps| && WellShaped(ps[..i], table) && !WellShaped(ps[..i + 1], table)
    ensures GoodPrefix(ps, table) == i
    decreases |ps|
  {
    ShapeOfPrefix(ps, i, table);
    hide WellShaped;
    var less := ps[..|ps| - 1];
    if i < |less| {
      assert less[..i] == ps[..i] && less[..i + 1] == ps[..i + 1];
      GoodUpTo(less, i, table);
    }
  }

  /** qDBusParametersForMethod: -1 if the parameters do not have the required form, otherwise the
      number of input parameters, a message included. The types are listed as far as they were read. */
  method ParametersForMethod(m: Method, table: Table) returns (inputCount: int, metaTypes: seq<MetaType>)
    ensures inputCount == if WellShaped(m.parameters, table) then InputCount(m.parameters) else -1
    ensures metaTypes == [NoType] + Ids(m.parameters[..GoodPrefix(m.parameters, table)])
    ensures inputCount >= 0 ==> metaTypes == [NoType] + Ids(m.parameters)
  {
    hide WellShaped, SignatureOf, InputCount, Ids;
    var ps := m.parameters;
    ShapeOfNothing(ps, table);
    metaTypes := [NoType];
    inputCount := 0;
    var seenMessage := false;
    var i := 0;
    while i < |ps|
      invariant 0 <= i <= |ps| && 0 <= inputCount <= i
      invariant WellShaped(ps[..i], table)
      invariant metaTypes == [NoType] + Ids(ps[..i])
      invariant seenMessage <==> !(forall k | 0 <= k < i :: ps[k].ByValue? && ps[k].id != MessageType)
      invariant inputCount == InputCount(ps[..i]) && (!seenMessage ==> inputCount == i)
    {
      var p := ps[i];
      ShapeOfPrefix(ps, i, table);
      if !WellShaped(ps[..i + 1], table) {
        GoodUpTo(ps, i, table);
      }
      match p {
        case Pointer => return -1, metaTypes;
        case Reference(id) =>
          if SignatureOf(id, table).None? {
            return -1, metaTypes;
          }
          metaTypes := metaTypes + [id];
          seenMessage := true;
        case ByValue(id) =>
          if seenMessage {
            return -1, metaTypes;
          }
          if id == MessageType {
            seenMessage := true;
          } else if SignatureOf(id, table).None? {
            return -1, metaTypes;
          }
          metaTypes := metaTypes + [id];
          inputCount := inputCount + 1;
      }
      i := i + 1;
    }
    assert ps[..i] == ps;
    assert GoodPrefix(ps, table) == |ps|;
  }

  lemma ShapeOfNothing(ps: seq<Parameter>, table: Table)
    ensures WellShaped(ps[..0], table) && InputCount(ps[..0]) == 0 && Ids(ps[..0]) == []
  {}

  lemma {:induction false} CountOfPrefix(ps: seq<Parameter>, i: nat)
    requires i < |ps|
    requires ps[i].ByValue? ==> forall k | 0 <= k < i :: ps[k].ByValue?
    ensures InputCount(ps[..i + 1]) == InputCount(ps[..i]) + if ps[i].ByValue? then 1 else 0
    decreases i
  {
    if i > 0 {
      if ps[0].ByValue? {
        CountOfPrefix(ps[1..], i - 1);
      }
      assert ps[..i + 1][1..] == ps[1..][..i] && ps[..i][1..] == ps[1..][..i - 1];
    } else {
      assert ps[..1][1..] == [];
    }
  }

  /** One more parameter keeps the shape if it fits itself and comes at a place where it may. */
  lemma ShapeOfPrefix(ps: seq<Parameter>, i: nat, table: Table)
    requires i < |ps| && WellShaped(ps[..i], table)
    ensures WellShaped(ps[..i + 1], table) <==>
      ParameterOk(ps[i], table)
      && (ps[i].ByValue? ==> forall k | 0 <= k < i :: ps[k].ByValue? && ps[k].id != MessageType)
    ensures !WellShaped(ps[..i + 1], table) ==> !WellShaped(ps, table)
    ensures Ids(ps[..i + 1]) == Ids(ps[..i]) + [if ps[i].Pointer? then NoType else ps[i].id]
    ensures WellShaped(ps[..i + 1], table) ==>
      InputCount(ps[..i + 1]) == InputCount(ps[..i]) + if ps[i].ByValue? then 1 else 0
  {
    hide SignatureOf, InputCount;
    if ps[i].ByValue? ==> forall k | 0 <= k < i :: ps[k].ByValue? {
      CountOfPrefix(ps, i);
    }
    var less, more := ps[..i], ps[..i + 1];
    assert forall k | 0 <= k < i :: less[k] == ps[k] && more[k] == ps[k];
    assert more[i] == ps[i];
    if ParameterOk(ps[i], table) && (ps[i].ByValue? ==> forall k | 0 <= k < i :: ps[k].ByValue? && ps[k].id != MessageType) {
      forall a, b | 0 <= a < b < |more| && more[b].ByValue? ensures more[a].ByValue? && more[a].id != MessageType {
        if b < i { assert less[a] == more[a] && less[b] == more[b]; }
      }
    }
  }

  // ---------- choosing a slot ----------

  datatype Export = ScriptableSlots | NonScriptableSlots | ScriptableInvokables | NonScriptableInvokables

  predicate Exported(m: Method, flags: set<Export>) {
    match m.kind
    case Slot => if m.scriptable then ScriptableSlots in flags else NonScriptableSlots in flags
    case Invokable => if m.scriptable then ScriptableInvokables in flags else NonScriptableInvokables in flags
    case Other => false
  }

  predicate EndsWithMessage(ps: seq<Parameter>) {
    InputCount(ps) > 0 && ps[InputCount(ps) - 1] == ByValue(MessageType)
  }

  /** The types of the input parameters, without the message. */
  function InputTypes(ps: seq<Parameter>): seq<MetaType> {
    Ids(ps)[..InputCount(ps) - if EndsWithMessage(ps) then 1 else 0]
  }

  function Spelling(ids: seq<MetaType>, table: Table): string {
    if ids == [] then ""
    else
      var sig := SignatureOf(ids[0], table);
      (if sig.Some? then sig.value else "") + Spelling(ids[1..], table)
  }

  /** A slot that may be called by this name, with these flags, for a message of this signature. */
  predicate Matches(m: Method, name: string, flags: set<Export>, signature: string, table: Table) {
    Suits(m, name, signature, table) && Exported(m, flags)
  }

  /** A method that is right in all but the flags. */
  predicate Suits(m: Method, name: string, signature: string, table: Table) {
    && m.isPublic && m.kind != Other && m.name == name
    && WellShaped(m.parameters, table)
    && Spelling(InputTypes(m.parameters), table) == signature
    && (m.returnType == NoType || SignatureOf(m.returnType, table).Some?)
    && (m.returnType == NoType ==> |m.parameters| <= InputCount(m.parameters) + 1)
  }

  lemma {:induction false} SpellingAppend(ids: seq<MetaType>, i: nat, table: Table)
    requires i < |ids|
    ensures var sig := SignatureOf(ids[i], table);
      Spelling(ids[..i + 1], table) == Spelling(ids[..i], table) + if sig.Some? then sig.value else ""
    decreases i
  {
    hide SignatureOf;
    if i > 0 {
      SpellingAppend(ids[1..], i - 1, table);
      assert ids[..i + 1][1..] == ids[1..][..i] && ids[..i][1..] == ids[1..][..i - 1];
    } else {
      assert ids[..1][1..] == [];
    }
  }

  lemma {:induction false} SpellingGrows(ids: seq<MetaType>, i: nat, table: Table)
    requires i <= |ids|
    ensures Spelling(ids[..i], table) <= Spelling(ids, table)
    decreases |ids| - i
  {
    hide SignatureOf;
    if i < |ids| {
      SpellingAppend(ids, i, table);
      SpellingGrows(ids, i + 1, table);
    } else {
      assert ids[..i] == ids;
    }
  }

  /** Puts the signature together from the parameters, giving up as soon as it cannot fit. */
  method SpellsSignature(ids: seq<MetaType>, signature: string, table: Table) returns (same: bool)
    requires forall i | 0 <= i < |ids| :: SignatureOf(ids[i], table).Some?
    ensures same == (Spelling(ids, table) == signature)
  {
    hide SignatureOf;
    var reconstructed := "";
    var i := 0;
    while i < |ids|
      invariant 0 <= i <= |ids| && reconstructed == Spelling(ids[..i], table)
    {
      SpellingAppend(ids, i, table);
      SpellingGrows(ids, i + 1, table);
      var sig := SignatureOf(ids[i], table);
      if sig.None? {
        break;
      }
      reconstructed := reconstructed + sig.value;
      if !(reconstructed <= signature) {
        return false;
      }
      i := i + 1;
    }
    assert i == |ids| ==> ids[..i] == ids;
    same := reconstructed == signature;
  }

  predicate IsCandidate(m: Method, name: string) {
    m.isPublic && m.kind != Other && m.name == name
  }

  /** The types listed for a candidate, whether it matches or not. */
  function Examined(m: Method, table: Table): seq<MetaType> {
    if WellShaped(m.parameters, table) then [m.returnType] + Ids(m.parameters)
    else [NoType] + Ids(m.parameters[..GoodPrefix(m.parameters, table)])
  }

  /** What the list of types contains after a search in vain: the types of the candidate looked at last,
      or what was in it before. */
  function Leftover(methods: seq<Method>, name: string, before: seq<MetaType>, table: Table): seq<MetaType> {
    if methods == [] then before
    else if IsCandidate(methods[0], name) then Examined(methods[0], table)
    else Leftover(methods[1..], name, before, table)
  }

  /** findMetaSlot: the last method that matches, if any does. */
  method FindMetaSlot(methods: seq<Method>, name: string, flags: set<Export>, signature: string, table: Table,
    before: seq<MetaType>)
    returns (idx: int, metaTypes: seq<MetaType>)
    ensures -1 <= idx < |methods|
    ensures forall k | idx < k < |methods| :: !Matches(methods[k], name, flags, signature, table)
    ensures idx >= 0 ==>
      && Matches(methods[idx], name, flags, signature, table)
      && metaTypes == [methods[idx].returnType] + Ids(methods[idx].parameters)
    ensures idx == -1 ==> metaTypes == Leftover(methods, name, before, table)
  {
    hide Matches, Examined, Ids;
    metaTypes := before;
    idx := |methods| - 1;
    while idx >= 0
      invariant -1 <= idx < |methods|
      invariant forall k | idx < k < |methods| :: !Matches(methods[k], name, flags, signature, table)
      invariant metaTypes == Leftover(methods[idx + 1..], name, before, table)
    {
      var found;
      found, metaTypes := TryMethod(methods[idx], name, flags, signature, table, metaTypes);
      if found {
        return;
      }
      assert methods[idx..][1..] == methods[idx + 1..];
      idx := idx - 1;
    }
    assert methods[0..] == methods;
  }

  method TryMethod(m: Method, name: string, flags: set<Export>, signature: string, table: Table, before: seq<MetaType>)
    returns (found: bool, metaTypes: seq<MetaType>)
    ensures found == Matches(m, name, flags, signature, table)
    ensures metaTypes == if IsCandidate(m, name) then Examined(m, table) else before
    ensures found ==> metaTypes == [m.returnType] + Ids(m.parameters)
  {
    hide WellShaped, SignatureOf, InputCount, Spelling, InputTypes, Exported;
    metaTypes := before;
    if !m.isPublic || m.kind == Other || m.name != name {
      return false, metaTypes;
    }
    var inputCount;
    inputCount, metaTypes := ParametersForMethod(m, table);
    if inputCount == -1 {
      return false, metaTypes;
    }
    metaTypes := metaTypes[0 := m.returnType];
    found := MatchesTypes(m, flags, signature, table, inputCount, metaTypes);
  }

  /** The rest of the test, for a method of the required form. */
  method MatchesTypes(m: Method, flags: set<Export>, signature: string, table: Table, inputs: nat, metaTypes: seq<MetaType>)
    returns (found: bool)
    requires WellShaped(m.parameters, table) && m.isPublic && m.kind != Other
    requires inputs == InputCount(m.parameters) && metaTypes == [m.returnType] + Ids(m.parameters)
    ensures found == Matches(m, m.name, flags, signature, table)
  {
    hide WellShaped, SignatureOf, InputCount, Spelling;
    var inputCount := inputs;
    if inputCount > 0 {
      LastInput(m.parameters, table);
      if metaTypes[inputCount] == MessageType {
        inputCount := inputCount - 1;
      }
    }
    assert EndsWithMessage(m.parameters) <==> inputCount == inputs - 1;
    InputsHaveSignatures(m.parameters, table);
    assert metaTypes[1..inputCount + 1] == InputTypes(m.parameters);
    var same := SpellsSignature(metaTypes[1..inputCount + 1], signature, table);
    if !same {
      return false;
    }
    if m.returnType != NoType && SignatureOf(m.returnType, table).None? {
      return false;
    }
    var i := inputs + 1;
    if i < |metaTypes| && SignatureOf(metaTypes[i], table).None? {
      OutputsHaveSignatures(m.parameters, table);
      assert false;
    }
    if m.returnType == NoType && |metaTypes| > i + 1 {
      return false;
    }
    if m.kind == Slot {
      if m.scriptable && ScriptableSlots !in flags {
        return false;
      }
      if !m.scriptable && NonScriptableSlots !in flags {
        return false;
      }
    } else {
      if m.scriptable && ScriptableInvokables !in flags {
        return false;
      }
      if !m.scriptable && NonScriptableInvokables !in flags {
        return false;
      }
    }
    return true;
  }

  lemma LeftoverTwice(methods: seq<Method>, name: string, before: seq<MetaType>, table: Table)
    ensures Leftover(methods, name, Leftover(methods, name, before, table), table) == Leftover(methods, name, before, table)
  {}

  lemma LastInput(ps: seq<Parameter>, table: Table)
    requires WellShaped(ps, table) && InputCount(ps) > 0
    ensures ps[InputCount(ps) - 1].ByValue? && Ids(ps)[InputCount(ps) - 1] == ps[InputCount(ps) - 1].id
  {
    InputsComeFirst(ps, table);
  }

  lemma InputsHaveSignatures(ps: seq<Parameter>, table: Table)
    requires WellShaped(ps, table)
    ensures forall i | 0 <= i < |InputTypes(ps)| :: SignatureOf(InputTypes(ps)[i], table).Some?
  {
    hide SignatureOf;
    InputsComeFirst(ps, table);
    var ids := InputTypes(ps);
    forall i | 0 <= i < |ids| ensures SignatureOf(ids[i], table).Some? {
      var last := InputCount(ps) - 1;
      assert ParameterOk(ps[i], table) && ps[i].ByValue? && ps[last].ByValue?;
      assert ps[i].id != MessageType;
    }
  }

  /** The test of the output types, which looks at the first of them again and again, cannot fail. */
  lemma OutputsHaveSignatures(ps: seq<Parameter>, table: Table)
    requires WellShaped(ps, table)
    ensures forall i | InputCount(ps) <= i < |ps| :: SignatureOf(Ids(ps)[i], table).Some?
  {
    hide SignatureOf;
    InputsComeFirst(ps, table);
    forall i | InputCount(ps) <= i < |ps| ensures SignatureOf(Ids(ps)[i], table).Some? {
      assert ParameterOk(ps[i], table) && !ps[i].ByValue?;
    }
  }

  // ---------- handing over the arguments ----------

  /** The user type of a received value. */
  function UserTypeOf(v: QVariant): MetaType {
    match v
    case Invalid => NoType
    case Scalar(code, _) => BasicType(code)
    case ByteArray(_) => ByteArrayType
    case StringList(_) => StringListType
    case DBusVariant(_) => VariantType
    case ArgumentVariant(_) => ArgumentType
    case VoidPointer(_) => VoidStar
  }

  /** The same, told from the type on the wire. */
  function UserType(t: Type, fdPassing: bool): MetaType {
    match t
    case Basic(code) => if code == 'h' && !fdPassing then VoidStar else BasicType(code)
    case Variant => VariantType
    case Array(element) =>
      if element == Basic('y') then ByteArrayType
      else if element == Basic('s') then StringListType
      else ArgumentType
    case Struct(_) => ArgumentType
    case DictEntry(_, _) => VoidStar
  }

  lemma UserTypeOfValue(it: Iter, fdPassing: bool)
    requires IterOk(it) && !it.AtEnd()
    ensures UserTypeOf(VariantOf(it, fdPassing)) == UserType(it.Current().TypeOf(), fdPassing)
  {
    assert it.Current().WellFormed();
  }

  /** What a place of the parameter list points to. */
  datatype Passed = ReturnValue(id: MetaType) | PassedAsIs(k: nat) | Converted(k: nat, id: MetaType) | ThisMessage | Output(id: MetaType)

  /** An argument can be used for a parameter: it has the type already, or can be demarshalled. */
  predicate Fits(argument: MetaType, id: MetaType, table: Table) {
    argument == id || (argument == ArgumentType && id.Registered? && id.name in table)
  }

  /** Where the loop over the arguments stops. */
  function Stop(count: nat, metaTypes: seq<MetaType>, i: nat): (stop: nat)
    requires 1 <= i
    ensures stop >= i
    decreases |metaTypes| - i
  {
    if i > count || i >= |metaTypes| || metaTypes[i] == MessageType then i else Stop(count, metaTypes, i + 1)
  }

  /** Some argument before the stop does not fit: the program is aborted. */
  predicate Aborts(arguments: seq<MetaType>, metaTypes: seq<MetaType>, table: Table) {
    exists i :: 1 <= i < Stop(|arguments|, metaTypes, 1) && i <= |arguments| && i < |metaTypes|
      && !Fits(arguments[i - 1], metaTypes[i], table)
  }

  function Place(arguments: seq<MetaType>, metaTypes: seq<MetaType>, i: nat): Passed
    requires i < |metaTypes|
  {
    var stop := Stop(|arguments|, metaTypes, 1);
    if i == 0 then ReturnValue(metaTypes[0])
    else if i < stop && i <= |arguments| then
      if arguments[i - 1] == metaTypes[i] then PassedAsIs(i - 1) else Converted(i - 1, metaTypes[i])
    else if i == stop && metaTypes[i] == MessageType then ThisMessage
    else Output(metaTypes[i])
  }

  /** deliverCall up to the call: the parameter list, or nothing where the program would be aborted. */
  method DeliverCall(arguments: seq<MetaType>, metaTypes: seq<MetaType>, table: Table)
    returns (params: Option<seq<Passed>>)
    requires |metaTypes| >= 1
    ensures params.None? <==> Aborts(arguments, metaTypes, table)
    ensures params.Some? ==>
      |params.value| == |metaTypes| && forall i | 0 <= i < |metaTypes| :: params.value[i] == Place(arguments, metaTypes, i)
  {
    var list := [ReturnValue(metaTypes[0])];
    var i := 1;
    while i <= |arguments| && i < |metaTypes|
      invariant 1 <= i <= |metaTypes| && i <= |arguments| + 1 && |list| == i
      invariant Stop(|arguments|, metaTypes, 1) == Stop(|arguments|, metaTypes, i)
      invariant forall k | 0 <= k < i :: list[k] == Place(arguments, metaTypes, k)
      invariant forall k | 1 <= k < i :: Fits(arguments[k - 1], metaTypes[k], table)
    {
      var id := metaTypes[i];
      if id == MessageType {
        break;
      }
      if arguments[i - 1] == id {
        list := list + [PassedAsIs(i - 1)];
      } else if arguments[i - 1] == ArgumentType {
        if !(id.Registered? && id.name in table) {
          return None;
        }
        list := list + [Converted(i - 1, id)];
      } else {
        return None;
      }
      i := i + 1;
    }
    ghost var stop := i;
    assert stop == Stop(|arguments|, metaTypes, 1);
    if i < |metaTypes| && metaTypes[i] == MessageType {
      list := list + [ThisMessage];
      i := i + 1;
    }
    while i < |metaTypes|
      invariant stop <= i <= |metaTypes| && |list| == i
      invariant i == stop ==> i == |metaTypes| || metaTypes[i] != MessageType
      invariant forall k | 0 <= k < i :: list[k] == Place(arguments, metaTypes, k)
    {
      list := list + [Output(metaTypes[i])];
      i := i + 1;
    }
    params := Some(list);
  }

  // ---------- the chosen slot fits the message ----------

  predicate Refused(id: MetaType, table: Table) {
    SignatureOf(id, table) == Some("")
  }

  /** The wire type a meta type stands for. */
  ghost function TypeFor(id: MetaType, table: Table): (t: Type)
    requires TableOk(table) && SignatureOf(id, table).Some? && !Refused(id, table)
    ensures t.Complete() && SignatureOf(id, table) == Some(Signature(t))
    ensures id.Registered? ==> IsRegistrableType(t)
  {
    match id
    case BasicType(code) => Basic(code)
    case VariantType => Type.Variant
    case ByteArrayType => TextArrays(); Array(Basic('y'))
    case StringListType => TextArrays(); Array(Basic('s'))
    case Registered(name) =>
      assert IsRegistrable(table[name]);
      var t: Type :| IsRegistrableType(t) && table[name] == Signature(t);
      t
  }

  /** The wire types that a list of meta types spells; refused types spell nothing. */
  ghost function TypesFor(ids: seq<MetaType>, table: Table): (ts: seq<Type>)
    requires TableOk(table) && forall i | 0 <= i < |ids| :: SignatureOf(ids[i], table).Some?
    ensures forall i | 0 <= i < |ts| :: ts[i].Complete()
    ensures |ts| <= |ids| && (|ts| == |ids| <==> forall i | 0 <= i < |ids| :: !Refused(ids[i], table))
  {
    if ids == [] then []
    else if Refused(ids[0], table) then TypesFor(ids[1..], table)
    else [TypeFor(ids[0], table)] + TypesFor(ids[1..], table)
  }

  lemma {:induction false} SpellingIsSignatures(ids: seq<MetaType>, table: Table)
    requires TableOk(table) && forall i | 0 <= i < |ids| :: SignatureOf(ids[i], table).Some?
    ensures Spelling(ids, table) == Signatures(TypesFor(ids, table))
  {
    hide SignatureOf, TableOk, TypeFor;
    if ids != [] {
      SpellingIsSignatures(ids[1..], table);
      var ts := TypesFor(ids[1..], table);
      if Refused(ids[0], table) {
        assert TypesFor(ids, table) == ts;
      } else {
        assert TypesFor(ids, table)[1..] == ts;
      }
    }
  }

  /** Up to the first refused type, meta types and wire types go together. */
  lemma {:induction false} TypesUpTo(ids: seq<MetaType>, k: nat, table: Table)
    requires TableOk(table) && forall i | 0 <= i < |ids| :: SignatureOf(ids[i], table).Some?
    requires k < |ids| && forall i | 0 <= i <= k :: !Refused(ids[i], table)
    ensures k < |TypesFor(ids, table)| && TypesFor(ids, table)[k] == TypeFor(ids[k], table)
    decreases k
  {
    hide SignatureOf, TableOk, TypeFor, Refused;
    if k > 0 {
      TypesUpTo(ids[1..], k - 1, table);
    }
  }

  /** What the input types of a chosen slot stand for are the types of the message. */
  lemma InputsSpell(m: Method, name: string, flags: set<Export>, ts: seq<Type>, table: Table)
    requires TableOk(table) && forall i | 0 <= i < |ts| :: ts[i].Complete()
    requires Matches(m, name, flags, Signatures(ts), table)
    ensures var ids := InputTypes(m.parameters);
      && (forall i | 0 <= i < |ids| :: SignatureOf(ids[i], table).Some?)
      && TypesFor(ids, table) == ts && |ts| <= |ids|
      && (|ids| == |ts| <==> forall i | 0 <= i < |ids| :: !Refused(ids[i], table))
  {
    hide SignatureOf, TableOk, WellShaped, InputTypes, Exported, Refused;
    var ids := InputTypes(m.parameters);
    InputsHaveSignatures(m.parameters, table);
    SpellingIsSignatures(ids, table);
    UniquelyDecodable(TypesFor(ids, table), ts);
  }

  /** A slot chosen for an exact signature has at least one parameter for each argument, and exactly one
      if and only if none of its input types was refused a signature. Up to the first refused one they
      have the types the arguments have on the wire. */
  lemma SlotFitsSignature(
    m: Method, name: string, flags: set<Export>, ts: seq<Type>, table: Table)
    requires TableOk(table) && forall i | 0 <= i < |ts| :: ts[i].Complete()
    requires Matches(m, name, flags, Signatures(ts), table)
    ensures var ids := InputTypes(m.parameters);
      && |ts| <= |ids|
      && (|ids| == |ts| <==> forall i | 0 <= i < |ids| :: !Refused(ids[i], table))
      && (forall k | 0 <= k < |ids| && (forall i | 0 <= i <= k :: !Refused(ids[i], table)) ::
            k < |ts| && SignatureOf(ids[k], table) == Some(Signature(ts[k]))
            && (ids[k].Registered? ==> IsRegistrableType(ts[k])))
  {
    hide SignatureOf, TableOk, InputTypes, Refused, Matches, TypesFor;
    var ids := InputTypes(m.parameters);
    InputsSpell(m, name, flags, ts, table);
    InputsUpTo(ids, ts, table);
  }

  lemma InputsUpTo(ids: seq<MetaType>, ts: seq<Type>, table: Table)
    requires TableOk(table) && (forall i | 0 <= i < |ids| :: SignatureOf(ids[i], table).Some?) && TypesFor(ids, table) == ts
    ensures forall k | 0 <= k < |ids| && (forall i | 0 <= i <= k :: !Refused(ids[i], table)) ::
      k < |ts| && SignatureOf(ids[k], table) == Some(Signature(ts[k]))
      && (ids[k].Registered? ==> IsRegistrableType(ts[k]))
  {
    hide SignatureOf, TableOk, Refused, TypesFor, IsRegistrableType;
    forall k | 0 <= k < |ids| && (forall i | 0 <= i <= k :: !Refused(ids[i], table))
      ensures k < |ts| && SignatureOf(ids[k], table) == Some(Signature(ts[k]))
        && (ids[k].Registered? ==> IsRegistrableType(ts[k]))
    {
      TypesUpTo(ids, k, table);
    }
  }

  /** An argument of a type fits a parameter with the signature of this type, unless it is a file
      descriptor that was not negotiated. */
  lemma ArgumentFits(t: Type, id: MetaType, fdPassing: bool, table: Table)
    requires t.Complete() && SignatureOf(id, table) == Some(Signature(t))
    requires id.Registered? ==> IsRegistrableType(t)
    ensures Fits(UserType(t, fdPassing), id, table) <==> fdPassing || t != Basic('h')
  {
    hide IsBasicCode;
    NotBasic();
    TextArrays();
    TextCodes();
    match id
    case ByteArrayType => SignatureInjective(t, Array(Basic('y')));
    case StringListType => SignatureInjective(t, Array(Basic('s')));
    case VariantType => SignatureInjective(t, Type.Variant);
    case BasicType(code) => SignatureInjective(t, Basic(code));
    case _ =>
  }

  lemma TextArrays()
    ensures Signature(Array(Basic('y'))) == "ay" && Signature(Array(Basic('s'))) == "as"
  {
    assert "a" + ['y'] == "ay" && "a" + ['s'] == "as";
  }

  /** The arguments of a message, by their types. */
  function UserTypes(ts: seq<Type>, fdPassing: bool): seq<MetaType> {
    seq(|ts|, i requires 0 <= i < |ts| => UserType(ts[i], fdPassing))
  }

  /** Calling a chosen slot: the loop stops right after the last argument, so the program is aborted
      exactly if some argument does not fit the input parameter at its place. Before the first refused
      type, only a file descriptor that was not negotiated does not fit. */
  lemma CallAborts(m: Method, name: string, flags: set<Export>, ts: seq<Type>, fdPassing: bool, table: Table)
    requires TableOk(table) && forall i | 0 <= i < |ts| :: ts[i].Complete()
    requires Matches(m, name, flags, Signatures(ts), table)
    ensures var ids, metaTypes := InputTypes(m.parameters), [m.returnType] + Ids(m.parameters);
      && |ts| <= |ids| && |ts| < |metaTypes| && Stop(|ts|, metaTypes, 1) == |ts| + 1
      && (forall i | 1 <= i <= |ts| :: metaTypes[i] == ids[i - 1])
      && (Aborts(UserTypes(ts, fdPassing), metaTypes, table) <==>
            exists k :: 0 <= k < |ts| && !Fits(UserType(ts[k], fdPassing), ids[k], table))
      && (forall k | 0 <= k < |ts| && (forall i | 0 <= i <= k :: !Refused(ids[i], table)) ::
            Fits(UserType(ts[k], fdPassing), ids[k], table) <==> fdPassing || ts[k] != Basic('h'))
  {
    hide SignatureOf, TableOk, Matches, UserType, Fits, Refused;
    var ps, ids := m.parameters, InputTypes(m.parameters);
    var metaTypes, arguments := [m.returnType] + Ids(ps), UserTypes(ts, fdPassing);
    MatchesIsShaped(m, name, flags, Signatures(ts), table);
    SlotFitsSignature(m, name, flags, ts, table);
    InputsHaveSignatures(ps, table);
    NoSignatureForMessage(table);
    assert forall i | 1 <= i <= |ts| :: metaTypes[i] == ids[i - 1];
    StopsAt(|ts|, metaTypes, 1);
    AbortsAtArgument(arguments, metaTypes, ids, table);
    forall k | 0 <= k < |ts| && (forall i | 0 <= i <= k :: !Refused(ids[i], table))
      ensures Fits(UserType(ts[k], fdPassing), ids[k], table) <==> fdPassing || ts[k] != Basic('h')
    {
      ArgumentFits(ts[k], ids[k], fdPassing, table);
    }
  }

  lemma AbortsAtArgument(arguments: seq<MetaType>, metaTypes: seq<MetaType>, ids: seq<MetaType>, table: Table)
    requires |arguments| <= |ids| && |arguments| < |metaTypes| && Stop(|arguments|, metaTypes, 1) == |arguments| + 1
    requires forall i | 1 <= i <= |arguments| :: metaTypes[i] == ids[i - 1]
    ensures Aborts(arguments, metaTypes, table) <==>
      exists k :: 0 <= k < |arguments| && !Fits(arguments[k], ids[k], table)
  {
    hide Fits;
    if k :| 0 <= k < |arguments| && !Fits(arguments[k], ids[k], table) {
      assert !Fits(arguments[k + 1 - 1], metaTypes[k + 1], table);
    }
  }

  lemma CallAbortsOnDescriptor(m: Method, name: string, flags: set<Export>, ts: seq<Type>, fdPassing: bool, table: Table)
    requires TableOk(table) && forall i | 0 <= i < |ts| :: ts[i].Complete()
    requires Matches(m, name, flags, Signatures(ts), table)
    requires forall i | 0 <= i < |InputTypes(m.parameters)| :: !Refused(InputTypes(m.parameters)[i], table)
    ensures var metaTypes := [m.returnType] + Ids(m.parameters);
      |ts| < |metaTypes| && (Aborts(UserTypes(ts, fdPassing), metaTypes, table) <==> !fdPassing && Basic('h') in ts)
  {
    hide SignatureOf, TableOk, Matches, UserType, Fits, Aborts, UserTypes, Stop, Refused;
    CallAborts(m, name, flags, ts, fdPassing, table);
    SlotFitsSignature(m, name, flags, ts, table);
  }

  /** A slot without refused input types is called safely: every argument reaches its own parameter, then
      comes the message if the slot wants it, then the outputs. */
  lemma CallReachesSlot(m: Method, name: string, flags: set<Export>, ts: seq<Type>, fdPassing: bool, table: Table)
    requires TableOk(table) && forall i | 0 <= i < |ts| :: ts[i].Complete()
    requires Matches(m, name, flags, Signatures(ts), table)
    requires forall i | 0 <= i < |InputTypes(m.parameters)| :: !Refused(InputTypes(m.parameters)[i], table)
    ensures var metaTypes := [m.returnType] + Ids(m.parameters);
      && |InputTypes(m.parameters)| == |ts| < |metaTypes|
      && (Aborts(UserTypes(ts, fdPassing), metaTypes, table) <==> !fdPassing && Basic('h') in ts)
      && (EndsWithMessage(m.parameters) <==> |ts| + 1 < |metaTypes| && metaTypes[|ts| + 1] == MessageType)
  {
    hide SignatureOf, TableOk, Matches, UserType, Fits, Aborts, UserTypes, Stop, Refused;
    CallAbortsOnDescriptor(m, name, flags, ts, fdPassing, table);
    SlotFitsSignature(m, name, flags, ts, table);
    MatchesIsShaped(m, name, flags, Signatures(ts), table);
    MessageComesNext(m, table);
  }

  /** The message, if wanted, comes right after the other inputs. */
  lemma MessageComesNext(m: Method, table: Table)
    requires WellShaped(m.parameters, table)
    ensures var metaTypes, n := [m.returnType] + Ids(m.parameters), |InputTypes(m.parameters)|;
      EndsWithMessage(m.parameters) <==> n + 1 < |metaTypes| && metaTypes[n + 1] == MessageType
  {
    hide SignatureOf;
    var ps, n := m.parameters, |InputTypes(m.parameters)|;
    InputsComeFirst(ps, table);
    NoSignatureForMessage(table);
    if n < |ps| {
      assert Ids(ps)[n] == ps[n].id;
      assert ParameterOk(ps[n], table);
    }
  }

  lemma MatchesIsShaped(m: Method, name: string, flags: set<Export>, signature: string, table: Table)
    requires Matches(m, name, flags, signature, table)
    ensures WellShaped(m.parameters, table)
  {}

  lemma NoSignatureForMessage(table: Table)
    ensures SignatureOf(MessageType, table).None?
  {}

  lemma {:induction false} StopsAt(count: nat, metaTypes: seq<MetaType>, i: nat)
    requires 1 <= i <= count + 1 && count < |metaTypes|
    requires forall k | i <= k <= count :: metaTypes[k] != MessageType
    ensures Stop(count, metaTypes, i) == count + 1
    decreases count + 1 - i
  {
    if i <= count {
      StopsAt(count, metaTypes, i + 1);
    }
  }

  /** With a refused parameter type the fatal branch can be reached: the slot f(Refused, int) is chosen
      for one integer, which does not fit its first parameter. The slot f(int, Refused) is chosen too,
      but is safe. */
  lemma RefusedTypeAborts(table: Table)
    requires table == map["Refused" := KnownSignature(CList(CBasic('s')))]
    ensures TableOk(table)
    ensures var m := Method("f", true, Slot, false, NoType, [ByValue(Registered("Refused")), ByValue(BasicType('i'))]);
      Matches(m, "f", {NonScriptableSlots}, Signatures([Basic('i')]), table)
      && Aborts(UserTypes([Basic('i')], true), [NoType] + Ids(m.parameters), table)
    ensures var m := Method("f", true, Slot, false, NoType, [ByValue(BasicType('i')), ByValue(Registered("Refused"))]);
      Matches(m, "f", {NonScriptableSlots}, Signatures([Basic('i')]), table)
      && !Aborts(UserTypes([Basic('i')], true), [NoType] + Ids(m.parameters), table)
  {
    StringListIsRefused();
    RefusedIsSkipped(table);
    var refused, number := Registered("Refused"), BasicType('i');
    assert UserTypes([Basic('i')], true) == [number];
    var first := [NoType] + Ids([ByValue(refused), ByValue(number)]);
    assert first == [NoType, refused, number];
    assert Stop(1, first, 1) == Stop(1, first, 2) == 2;
    assert !Fits([number][1 - 1], first[1], table);
    var second := [NoType] + Ids([ByValue(number), ByValue(refused)]);
    assert second == [NoType, number, refused];
    assert Stop(1, second, 1) == Stop(1, second, 2) == 2;
  }

  /** A refused parameter type does not show in the signature of a slot. */
  lemma RefusedIsSkipped(table: Table)
    requires table == map["Refused" := ""]
    ensures var m := Method("f", true, Slot, false, NoType, [ByValue(Registered("Refused")), ByValue(BasicType('i'))]);
      Matches(m, "f", {NonScriptableSlots}, Signatures([Basic('i')]), table)
    ensures var m := Method("f", true, Slot, false, NoType, [ByValue(BasicType('i')), ByValue(Registered("Refused"))]);
      Matches(m, "f", {NonScriptableSlots}, Signatures([Basic('i')]), table)
  {
    var refused, number := Registered("Refused"), BasicType('i');
    assert Signatures([Basic('i')]) == "i" + Signatures([]);
    assert Spelling([number], table) == "i" + Spelling([], table);
    assert Spelling([refused], table) == "" + Spelling([], table);
    SpellsPair(refused, number, table);
    SpellsPair(number, refused, table);
  }

  lemma SpellsPair(a: MetaType, b: MetaType, table: Table)
    requires a != MessageType && b != MessageType
    ensures var ps := [ByValue(a), ByValue(b)];
      && InputTypes(ps) == [a, b] && InputCount(ps) == 2
      && Spelling([a, b], table) == (if SignatureOf(a, table).Some? then SignatureOf(a, table).value else "") + Spelling([b], table)
  {
    var ps := [ByValue(a), ByValue(b)];
    assert ps[1..] == [ByValue(b)] && [ByValue(b)][1..] == [];
    assert [a, b][1..] == [b];
    assert InputCount(ps) == 2;
    assert Ids(ps) == [a, b] && !EndsWithMessage(ps);
    assert InputTypes(ps) == [a, b][..2];
  }
}
