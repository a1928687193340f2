/** The table of registered types and their marshalling operators. The same operator runs in both
    modes: into a message, or into a buffer that only collects type codes. */
module TypeRegistry {
  import opened WireTypes
  import opened WireValues
  import opened Variants
  import opened Marshalling
  import opened TypeSignatures

  // ---------- what an operator does to a marshaller ----------

  /** A marshaller: what it has written, whether it is free of errors, and the type codes collected. */
  datatype State = State(items: seq<Tree>, ok: bool, text: string)

  function StateOf(m: Marshaller): State
    reads m, m.ba
  {
    State(m.items, m.ok, if m.ba == null then "" else m.ba.text)
  }

  function Add(s: State, collect: bool, w: Outcome, text: string): State {
    if collect then s.(text := s.text + text) else s.(items := s.items + w.trees, ok := s.ok && w.ok)
  }

  function Opened(s: State, collect: bool, code: char, sig: string): State {
    State([], true, if collect then s.text + OpenText(code, sig) else s.text)
  }

  function Ended(s: State, sub: State, collect: bool, code: char, sig: string): State
    requires IsContainerCode(code)
  {
    if collect then State(s.items, s.ok && sub.ok, sub.text + CloseText(code))
    else State(s.items + [Closed(code, sig, sub.items)], s.ok && sub.ok, sub.text)
  }

  /** One run of the marshalling operator of a type. */
  function Run(s: State, collect: bool, t: CType, v: CValue, fdPassing: bool): State
    decreases t, 1
  {
    match t
    case CBasic(code) => Add(s, collect, WrittenBasic(code, v.Scalar()), [code])
    case CByteArray => Add(s, collect, Outcome([ArrayValue(Basic('y'), FixedArray('y', v.Bytes()))], true, true), "ay")
    case CStringList => Add(s, collect, Outcome([ArrayValue(Basic('s'), StringTrees(v.Strings()))], true, true), "as")
    case CVariant => Add(s, collect, Written(DBusVariant(v.Inner()), fdPassing), "v")
    case CList(element) =>
      var sig := KnownSignature(element);
      Ended(s, RunList(Opened(s, collect, 'a', sig), collect, element, v.Items(), fdPassing), collect, 'a', sig)
    case CMap(key, value) =>
      if !KeyOk(key) then s.(ok := false)
      else
        RunMapAs(s, collect, key, value, v.Entries(), MapSignature(key, value), fdPassing)
    case CStruct(fields) =>
      Ended(s, RunFields(Opened(s, collect, 'r', ""), collect, fields, v, fdPassing), collect, 'r', "")
  }

  function RunList(s: State, collect: bool, element: CType, vs: seq<CValue>, fdPassing: bool): State
    decreases CList(element), 0, |vs|
  {
    if vs == [] then s
    else Run(RunList(s, collect, element, vs[..|vs| - 1], fdPassing), collect, element, vs[|vs| - 1], fdPassing)
  }

  function RunFields(s: State, collect: bool, ts: seq<CType>, v: CValue, fdPassing: bool): State
    decreases ts, 0
  {
    if ts == [] then s
    else
      var n := |ts| - 1;
      Run(RunFields(s, collect, ts[..n], v, fdPassing), collect, ts[n], v.Field(n), fdPassing)
  }

  function RunMapAs(s: State, collect: bool, key: CType, value: CType, es: seq<MapEntry>, sig: string, fdPassing: bool): State
    decreases CMap(key, value), 0, |es| + 2
  {
    Ended(s, RunMap(Opened(s, collect, 'a', sig), collect, key, value, es, fdPassing), collect, 'a', sig)
  }

  function RunMap(s: State, collect: bool, key: CType, value: CType, es: seq<MapEntry>, fdPassing: bool): State
    decreases CMap(key, value), 0, |es| + 1
  {
    if es == [] then s
    else
      var n := |es| - 1;
      RunEntry(RunMap(s, collect, key, value, es[..n], fdPassing), collect, key, value, es[n], fdPassing)
  }

  function RunEntry(s: State, collect: bool, key: CType, value: CType, e: MapEntry, fdPassing: bool): State
    decreases CMap(key, value), 0, 0
  {
    var inside := Run(Opened(s, collect, 'e', ""), collect, key, e.key, fdPassing);
    Ended(s, Run(inside, collect, value, e.value, fdPassing), collect, 'e', "")
  }

  /** What opening, filling and closing come to. */
  lemma MapEnded(s: State, sub: State, end: State, collect: bool, key: CType, value: CType, es: seq<MapEntry>,
    sig: string, fdPassing: bool)
    requires sub == RunMap(Opened(s, collect, 'a', sig), collect, key, value, es, fdPassing)
    requires end.ok == (s.ok && sub.ok)
    requires collect ==> end.text == sub.text + CloseText('a') && end.items == s.items
    requires !collect ==> end.text == sub.text && end.items == s.items + [Closed('a', sig, sub.items)]
    ensures end == RunMapAs(s, collect, key, value, es, sig, fdPassing)
  {}

  lemma EntryEnded(s: State, sub: State, end: State, collect: bool, key: CType, value: CType, e: MapEntry, fdPassing: bool)
    requires sub == Run(Run(Opened(s, collect, 'e', ""), collect, key, e.key, fdPassing), collect, value, e.value, fdPassing)
    requires end.ok == (s.ok && sub.ok)
    requires collect ==> end.text == sub.text + CloseText('e') && end.items == s.items
    requires !collect ==> end.text == sub.text && end.items == s.items + [Closed('e', "", sub.items)]
    ensures end == RunEntry(s, collect, key, value, e, fdPassing)
  {
    hide Run;
  }

  lemma RunMapStart(s: State, collect: bool, key: CType, value: CType, es: seq<MapEntry>, fdPassing: bool)
    ensures RunMap(s, collect, key, value, es[..0], fdPassing) == s
  {}

  lemma RunMapStep(s: State, collect: bool, key: CType, value: CType, es: seq<MapEntry>, i: nat, fdPassing: bool)
    requires i < |es|
    ensures RunMap(s, collect, key, value, es[..i + 1], fdPassing) ==
      RunEntry(RunMap(s, collect, key, value, es[..i], fdPassing), collect, key, value, es[i], fdPassing)
  {
    hide RunEntry;
    assert es[..i + 1][..i] == es[..i];
  }

  // ---------- the two modes ----------

  /** The trees are appended if the value is writable; otherwise an error is noted. */
  predicate Writes(s: State, r: State, writable: bool, trees: seq<Tree>) {
    r.ok == (s.ok && writable) && (writable ==> r.items == s.items + trees) && r.text == s.text
  }

  /** Into a message, the operator appends the value and nothing else, or reports an error. */
  lemma {:induction false} RunWrites(s: State, t: CType, v: CValue, fdPassing: bool)
    ensures Writes(s, Run(s, false, t, v, fdPassing), Writable(v, t, fdPassing), [TreeOf(v, t, fdPassing)])
    decreases t, 1
  {
    hide ElementOf, KnownSignature, Written, ListTrees, EntryTrees, FieldTrees;
    match t
    case CVariant => WrittenVariant(v.Inner(), fdPassing);
    case CList(element) =>
      ListWrites(Opened(s, false, 'a', KnownSignature(element)), element, v.Items(), fdPassing);
      assert [] + ListTrees(v.Items(), element, fdPassing) == ListTrees(v.Items(), element, fdPassing);
    case CMap(key, value) =>
      if KeyOk(key) {
        MapWrites(Opened(s, false, 'a', MapSignature(key, value)), key, value, v.Entries(), fdPassing);
        assert [] + EntryTrees(v.Entries(), key, value, fdPassing) == EntryTrees(v.Entries(), key, value, fdPassing);
      }
    case CStruct(fields) =>
      FieldsWrite(Opened(s, false, 'r', ""), fields, v, fdPassing);
      assert [] + FieldTrees(v, fields, fdPassing) == FieldTrees(v, fields, fdPassing);
    case _ =>
  }

  lemma {:induction false} ListWrites(s: State, element: CType, vs: seq<CValue>, fdPassing: bool)
    ensures Writes(s, RunList(s, false, element, vs, fdPassing),
      forall x | x in vs :: Writable(x, element, fdPassing), ListTrees(vs, element, fdPassing))
    decreases CList(element), 0, |vs|
  {
    hide TreeOf, Writable, Run;
    if vs != [] {
      var n := |vs| - 1;
      ListWrites(s, element, vs[..n], fdPassing);
      RunWrites(RunList(s, false, element, vs[..n], fdPassing), element, vs[n], fdPassing);
      assert ListTrees(vs, element, fdPassing) == ListTrees(vs[..n], element, fdPassing) + [TreeOf(vs[n], element, fdPassing)];
      assert vs == vs[..n] + [vs[n]];
    }
  }

  lemma {:induction false} FieldsWrite(s: State, ts: seq<CType>, v: CValue, fdPassing: bool)
    ensures Writes(s, RunFields(s, false, ts, v, fdPassing),
      forall i | 0 <= i < |ts| :: Writable(v.Field(i), ts[i], fdPassing),
      FieldTrees(v, ts, fdPassing))
    decreases ts, 0
  {
    hide TreeOf, Writable, Run;
    if ts != [] {
      var n := |ts| - 1;
      FieldsWrite(s, ts[..n], v, fdPassing);
      RunWrites(RunFields(s, false, ts[..n], v, fdPassing), ts[n], v.Field(n), fdPassing);
      assert FieldTrees(v, ts, fdPassing) == FieldTrees(v, ts[..n], fdPassing) + [TreeOf(v.Field(n), ts[n], fdPassing)];
      assert forall i | 0 <= i < n :: ts[..n][i] == ts[i];
    }
  }

  predicate EntryWritable(e: MapEntry, key: CType, value: CType, fdPassing: bool) {
    Writable(e.key, key, fdPassing) && Writable(e.value, value, fdPassing)
  }

  lemma {:induction false} MapWrites(s: State, key: CType, value: CType, es: seq<MapEntry>, fdPassing: bool)
    ensures Writes(s, RunMap(s, false, key, value, es, fdPassing),
      forall e | e in es :: EntryWritable(e, key, value, fdPassing), EntryTrees(es, key, value, fdPassing))
    decreases CMap(key, value), 0, |es| + 1
  {
    hide EntryTrees, EntryWritable, RunEntry, RunMap;
    if es != [] {
      var n := |es| - 1;
      MapWrites(s, key, value, es[..n], fdPassing);
      EntryWrites(RunMap(s, false, key, value, es[..n], fdPassing), key, value, es[n], fdPassing);
      EntryTreesStep(es, key, value, fdPassing);
      RunMapStep(s, false, key, value, es, n, fdPassing);
      assert es[..n + 1] == es == es[..n] + [es[n]];
    } else {
      RunMapStart(s, false, key, value, es, fdPassing);
      EntryTreesStart(key, value, fdPassing);
    }
  }

  lemma EntryTreesStart(key: CType, value: CType, fdPassing: bool)
    ensures EntryTrees([], key, value, fdPassing) == []
  {}

  lemma EntryTreesStep(es: seq<MapEntry>, key: CType, value: CType, fdPassing: bool)
    requires es != []
    ensures var n := |es| - 1;
      EntryTrees(es, key, value, fdPassing) == EntryTrees(es[..n], key, value, fdPassing)
        + [EntryValue([TreeOf(es[n].key, key, fdPassing), TreeOf(es[n].value, value, fdPassing)])]
  {
    hide TreeOf;
  }

  lemma {:induction false} EntryWrites(s: State, key: CType, value: CType, e: MapEntry, fdPassing: bool)
    ensures Writes(s, RunEntry(s, false, key, value, e, fdPassing), EntryWritable(e, key, value, fdPassing),
      [EntryValue([TreeOf(e.key, key, fdPassing), TreeOf(e.value, value, fdPassing)])])
    decreases CMap(key, value), 0, 0
  {
    hide TreeOf, Writable, Run;
    var start := Opened(s, false, 'e', "");
    RunWrites(start, key, e.key, fdPassing);
    RunWrites(Run(start, false, key, e.key, fdPassing), value, e.value, fdPassing);
    var k, v := TreeOf(e.key, key, fdPassing), TreeOf(e.value, value, fdPassing);
    assert [] + [k] + [v] == [k, v];
  }

  /** Into a buffer, and for the default value, the operator spells a type. */
  lemma {:induction false} RunSpells(s: State, t: CType, fdPassing: bool)
    ensures Run(s, true, t, Default(t), fdPassing) ==
      s.(ok := s.ok && DefaultOk(t), text := s.text + DefaultText(t))
    decreases t, 0
  {
    hide KnownSignature, Run, DefaultText;
    match t
    case CStruct(fields) =>
      var sub := Opened(s, true, 'r', "");
      FieldsSpell(sub, fields, Default(t), fdPassing);
      StructSpells(s, fields, fdPassing);
    case CList(element) => ListSpells(s, element, fdPassing);
    case CMap(key, value) => MapSpells(s, key, value, fdPassing);
    case _ => LeafSpells(s, t, fdPassing);
  }

  lemma LeafSpells(s: State, t: CType, fdPassing: bool)
    requires t.BuiltIn()
    ensures Run(s, true, t, Default(t), fdPassing) == s.(text := s.text + DefaultText(t))
  {}

  lemma ListSpells(s: State, element: CType, fdPassing: bool)
    ensures Run(s, true, CList(element), Default(CList(element)), fdPassing) == s.(text := s.text + DefaultText(CList(element)))
  {
    hide KnownSignature;
    assert s.text + DefaultText(CList(element)) == s.text + ("a" + KnownSignature(element)) + "";
  }

  lemma MapSpells(s: State, key: CType, value: CType, fdPassing: bool)
    ensures var t := CMap(key, value);
      Run(s, true, t, Default(t), fdPassing) == s.(ok := s.ok && DefaultOk(t), text := s.text + DefaultText(t))
  {
    hide KnownSignature;
    if KeyOk(key) {
      RunMapStart(Opened(s, true, 'a', MapSignature(key, value)), true, key, value, [], fdPassing);
      assert s.text + DefaultText(CMap(key, value)) == s.text + ("a" + MapSignature(key, value)) + "";
    }
  }

  lemma StructSpells(s: State, fields: seq<CType>, fdPassing: bool)
    requires var sub := Opened(s, true, 'r', "");
      RunFields(sub, true, fields, Default(CStruct(fields)), fdPassing) ==
        sub.(ok := sub.ok && DefaultOk(CStruct(fields)), text := sub.text + DefaultTexts(fields))
    ensures var t := CStruct(fields);
      Run(s, true, t, Default(t), fdPassing) == s.(ok := s.ok && DefaultOk(t), text := s.text + DefaultText(t))
  {
    hide RunFields, DefaultTexts, DefaultOk, Default;
    assert s.text + DefaultText(CStruct(fields)) == s.text + "(" + DefaultTexts(fields) + ")";
  }

  lemma {:induction false} FieldsSpell(s: State, ts: seq<CType>, v: CValue, fdPassing: bool)
    requires forall i | 0 <= i < |ts| :: v.Field(i) == Default(ts[i])
    ensures RunFields(s, true, ts, v, fdPassing) ==
      s.(ok := s.ok && forall i | 0 <= i < |ts| :: DefaultOk(ts[i]), text := s.text + DefaultTexts(ts))
    decreases ts, 1
  {
    hide Run, DefaultOk, DefaultText, Default;
    if ts != [] {
      var n := |ts| - 1;
      FieldsSpell(s, ts[..n], v, fdPassing);
      RunSpells(RunFields(s, true, ts[..n], v, fdPassing), ts[n], fdPassing);
      DefaultTextsAppend(ts, n);
      assert ts[..n + 1] == ts;
      assert s.text + DefaultTexts(ts[..n]) + DefaultText(ts[n]) == s.text + DefaultTexts(ts);
      assert forall i | 0 <= i < n :: ts[..n][i] == ts[i];
    }
  }

  /** A type the guard let through: every writable value is written as one well-formed value, and its
      signature is the one found beforehand from the default value. */
  lemma WrittenAsAnnounced(s: State, t: CType, v: CValue, fdPassing: bool)
    requires t.Ok() && Known(t) && HasType(v, t) && Writable(v, t, fdPassing) && FullVariants(v, t, fdPassing)
    ensures var tree := TreeOf(v, t, fdPassing);
      && Run(s, false, t, v, fdPassing) == s.(items := s.items + [tree])
      && tree.WellFormed() && Signature(tree.TypeOf()) == KnownSignature(t)
  {
    hide Run, TreeOf, Writable, HasType, FullVariants;
    KnownIsRegular(t);
    KnownSpellsType(t);
    RunWrites(s, t, v, fdPassing);
    WrittenIsWellTyped(v, t, fdPassing);
  }

  lemma {:induction false} DefaultTextsAppend(ts: seq<CType>, i: nat)
    requires i < |ts|
    ensures DefaultTexts(ts[..i + 1]) == DefaultTexts(ts[..i]) + DefaultText(ts[i])
    decreases i
  {
    hide DefaultText;
    if i > 0 {
      DefaultTextsAppend(ts[1..], i - 1);
      assert ts[..i + 1][1..] == ts[1..][..i] && ts[..i][1..] == ts[1..][..i - 1];
    } else {
      assert ts[..1][1..] == [];
    }
  }

  // ---------- the table ----------

  class MetaTypes {
    /** Signatures found so far; a refused type is remembered as an empty one. */
    var signatures: map<CType, string>

    ghost predicate Valid()
      reads this
    {
      forall t | t in signatures :: signatures[t] == KnownSignature(t)
    }

    constructor ()
      ensures Valid()
    {
      signatures := map[];
    }

    method TypeToSignature(t: CType) returns (sig: string)
      requires Valid() && t.Ok()
      modifies this
      ensures Valid() && sig == KnownSignature(t)
      ensures t.BuiltIn() || t in signatures
      decreases t, 4
    {
      match t
      case CBasic(code) => return [code];
      case CByteArray => return "ay";
      case CStringList => return "as";
      case CVariant => return "v";
      case _ =>
      if t in signatures {
        return signatures[t];
      }
      sig := CreateSignature(t);
      signatures := signatures[t := sig];
    }

    /** Runs the operator of a type on its default value, collecting type codes only. */
    method CreateSignature(t: CType) returns (sig: string)
      requires Valid() && t.Ok() && !t.BuiltIn()
      modifies this
      ensures Valid() && sig == KnownSignature(t)
      decreases t, 3
    {
      hide IsValidSingleSignature, Run, DefaultText, DefaultOk;
      var ba := new SignatureBuffer();
      var marshaller := new Marshaller(false, ba);
      RunSpells(StateOf(marshaller), t, false);
      Marshal(marshaller, t, Default(t));
      var text := ba.text;
      assert text == DefaultText(t);
      if text == "" || !marshaller.ok || !IsValidSingleSignature(text) {
        return "";
      } else if text[0] != 'a' && text[0] != '(' {
        return "";
      } else if text[0] == 'a' && |text| > 1 && (text[1] == 'y' || text[1] == 's') {
        return "";
      }
      return text;
    }

    /** The marshalling operator of a type, in either mode. */
    method Marshal(m: Marshaller, t: CType, v: CValue)
      requires Valid() && t.Ok()
      modifies this, m, m.ba
      ensures Valid() && StateOf(m) == Run(old(StateOf(m)), m.ba != null, t, v, m.fdPassing)
      decreases t, 2
    {
      hide RunList, RunMapAs, RunFields, Written, WrittenBasic, KnownSignature, KeyOk;
      match t
      case CBasic(code) => m.Append(code, v.Scalar());
      case CByteArray => m.AppendByteArray(v.Bytes());
      case CStringList => m.AppendStringList(v.Strings());
      case CVariant =>
        var returned := m.AppendDBusVariant(v.Inner());
      case CList(element) => MarshalList(m, element, v.Items());
      case CMap(key, value) => MarshalMap(m, key, value, v.Entries());
      case CStruct(fields) => MarshalStruct(m, fields, v);
    }

    method MarshalList(m: Marshaller, element: CType, vs: seq<CValue>)
      requires Valid() && element.Ok()
      modifies this, m, m.ba
      ensures Valid()
      ensures var s, collect, sig := old(StateOf(m)), m.ba != null, KnownSignature(element);
        StateOf(m) == Ended(s, RunList(Opened(s, collect, 'a', sig), collect, element, vs, m.fdPassing), collect, 'a', sig)
      decreases CList(element), 1
    {
      hide Run, KnownSignature, Closed, Valid;
      var sig := TypeToSignature(element);
      var sub := m.Open('a', sig);
      ghost var start := StateOf(sub);
      var i := 0;
      while i < |vs|
        invariant 0 <= i <= |vs| && Valid() && fresh(sub) && sub.ba == m.ba && sub.fdPassing == m.fdPassing
        invariant unchanged(m)
        invariant StateOf(sub) == RunList(start, m.ba != null, element, vs[..i], m.fdPassing)
      {
        Marshal(sub, element, vs[i]);
        assert vs[..i + 1][..i] == vs[..i];
        i := i + 1;
      }
      assert vs[..i] == vs;
      m.Close(sub, 'a', sig);
    }

    method MarshalStruct(m: Marshaller, fields: seq<CType>, v: CValue)
      requires Valid() && CStruct(fields).Ok()
      modifies this, m, m.ba
      ensures Valid()
      ensures var s, collect := old(StateOf(m)), m.ba != null;
        StateOf(m) == Ended(s, RunFields(Opened(s, collect, 'r', ""), collect, fields, v, m.fdPassing), collect, 'r', "")
      decreases CStruct(fields), 1
    {
      hide Run, Closed, Valid;
      var sub := m.Open('r', "");
      ghost var start := StateOf(sub);
      var i := 0;
      while i < |fields|
        invariant 0 <= i <= |fields| && Valid() && fresh(sub) && sub.ba == m.ba && sub.fdPassing == m.fdPassing
        invariant unchanged(m)
        invariant StateOf(sub) == RunFields(start, m.ba != null, fields[..i], v, m.fdPassing)
      {
        Marshal(sub, fields[i], v.Field(i));
        assert fields[..i + 1][..i] == fields[..i];
        i := i + 1;
      }
      assert fields[..i] == fields;
      m.Close(sub, 'r', "");
    }

    method MarshalMap(m: Marshaller, key: CType, value: CType, es: seq<MapEntry>)
      requires Valid() && key.Ok() && value.Ok()
      modifies this, m, m.ba
      ensures Valid()
      ensures var s, collect, sig := old(StateOf(m)), m.ba != null, MapSignature(key, value);
        StateOf(m) == if !KeyOk(key) then s.(ok := false) else RunMapAs(s, collect, key, value, es, sig, m.fdPassing)
      decreases CMap(key, value), 1
    {
      hide RunMapAs, KnownSignature, IsBasicCode, Closed, Valid;
      var ksig := TypeToSignature(key);
      if |ksig| != 1 || !IsBasicCode(ksig[0]) {
        m.Error();
        return;
      }
      var vsig := TypeToSignature(value);
      MarshalMapAs(m, key, value, es, "{" + ksig + vsig + "}");
    }

    /** A map under its signature: opened, filled and closed. */
    method MarshalMapAs(m: Marshaller, key: CType, value: CType, es: seq<MapEntry>, sig: string)
      requires Valid() && key.Ok() && value.Ok()
      modifies this, m, m.ba
      ensures Valid() && StateOf(m) == RunMapAs(old(StateOf(m)), m.ba != null, key, value, es, sig, m.fdPassing)
      decreases CMap(key, value), 0, 2
    {
      hide RunMap, Closed, Valid;
      ghost var start := StateOf(m);
      var sub := m.Open('a', sig);
      MarshalEntries(sub, key, value, es);
      m.Close(sub, 'a', sig);
      MapEnded(start, StateOf(sub), StateOf(m), m.ba != null, key, value, es, sig, m.fdPassing);
    }

    method MarshalEntries(m: Marshaller, key: CType, value: CType, es: seq<MapEntry>)
      requires Valid() && key.Ok() && value.Ok()
      modifies this, m, m.ba
      ensures Valid() && StateOf(m) == RunMap(old(StateOf(m)), m.ba != null, key, value, es, m.fdPassing)
      decreases CMap(key, value), 0, 1
    {
      hide RunEntry, RunMap, Valid, StateOf;
      ghost var start := StateOf(m);
      RunMapStart(start, m.ba != null, key, value, es, m.fdPassing);
      var i := 0;
      while i < |es|
        invariant 0 <= i <= |es| && Valid()
        invariant StateOf(m) == RunMap(start, m.ba != null, key, value, es[..i], m.fdPassing)
      {
        MarshalEntry(m, key, value, es[i]);
        RunMapStep(start, m.ba != null, key, value, es, i, m.fdPassing);
        i := i + 1;
      }
      assert es[..i] == es;
    }

    method MarshalEntry(m: Marshaller, key: CType, value: CType, e: MapEntry)
      requires Valid() && key.Ok() && value.Ok()
      modifies this, m, m.ba
      ensures Valid() && StateOf(m) == RunEntry(old(StateOf(m)), m.ba != null, key, value, e, m.fdPassing)
      decreases CMap(key, value), 0, 0
    {
      hide Run, RunEntry, Closed, Valid;
      ghost var start := StateOf(m);
      var entry := m.Open('e', "");
      Marshal(entry, key, e.key);
      Marshal(entry, value, e.value);
      m.Close(entry, 'e', "");
      EntryEnded(start, StateOf(entry), StateOf(m), m.ba != null, key, value, e, m.fdPassing);
    }
  }
}
