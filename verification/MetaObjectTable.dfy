/** The run-time meta object of a D-Bus interface: one table of integers and one string of
    NUL-terminated pieces, written through three cursors and read back by index arithmetic. */
module MetaObjectTable {
  import opened Wrappers

  /** An entry of the method map or the signal map; `prototype` is its key. */
  datatype MethodInfo = MethodInfo(
    prototype: string, parameters: string, typeName: string, name: string,
    inputSignature: string, outputSignature: string,
    inputTypes: seq<int>, outputTypes: seq<int>, flags: int)

  /** An entry of the property map; `name` is its key. */
  datatype PropertyInfo = PropertyInfo(name: string, typeName: string, signature: string, typeId: int, flags: int)

  const HEADER_SIZE := 16
  const REVISION := 6
  const REQUIRES_VARIANT_META_OBJECT := 2
  const NUL := '\0'

  /** Where the regions of the table start. */
  datatype Layout = Layout(methodCount: nat, propertyCount: nat)
  {
    function MethodData(): nat { HEADER_SIZE }
    function PropertyData(): nat { MethodData() + methodCount * 5 }
    function PropertyDBusData(): nat { PropertyData() + propertyCount * 3 }
    function MethodDBusData(): nat { PropertyDBusData() + propertyCount * 2 }
    function Types(): nat { MethodDBusData() + methodCount * 5 }
  }

  function TypesSize(ms: seq<MethodInfo>): nat {
    if ms == [] then 0
    else TypesSize(ms[..|ms| - 1]) + TypeCells(ms[|ms| - 1])
  }

  function TypeCells(m: MethodInfo): nat {
    2 + |m.inputTypes| + |m.outputTypes|
  }

  lemma {:induction false} TypesSizeAppend(a: seq<MethodInfo>, b: seq<MethodInfo>)
    ensures TypesSize(a + b) == TypesSize(a) + TypesSize(b)
  {
    if b == [] {
      assert a + b == a;
    } else {
      var n := |b| - 1;
      TypesSizeAppend(a, b[..n]);
      assert (a + b)[..|a + b| - 1] == a + b[..n];
    }
  }

  /** Dots become double colons. */
  function ClassName(interface: string): string {
    if interface == "" then "QDBusInterface" else Dotless(interface)
  }

  function Dotless(s: string): string {
    if s == "" then "" else (if s[0] == '.' then "::" else [s[0]]) + Dotless(s[1..])
  }

  lemma DotlessFirst(c: char, rest: string)
    ensures Dotless([c] + rest) == (if c == '.' then "::" else [c]) + Dotless(rest)
  {
    assert ([c] + rest)[1..] == rest;
  }

  lemma {:induction false} DotlessAppend(a: string, b: string)
    ensures Dotless(a + b) == Dotless(a) + Dotless(b)
  {
    hide Dotless;
    if a == "" {
      NothingIsDotless();
      assert a + b == b && "" + Dotless(b) == Dotless(b);
    } else {
      DotlessAppend(a[1..], b);
      DotlessFirst(a[0], a[1..] + b);
      DotlessFirst(a[0], a[1..]);
      var first := if a[0] == '.' then "::" else [a[0]];
      assert a + b == [a[0]] + (a[1..] + b) && a == [a[0]] + a[1..];
      assert first + (Dotless(a[1..]) + Dotless(b)) == first + Dotless(a[1..]) + Dotless(b);
    }
  }

  lemma NothingIsDotless()
    ensures Dotless("") == ""
  {}

  lemma {:induction false} DotlessSame(a: string)
    requires '.' !in a
    ensures Dotless(a) == a
  {
    if a != "" {
      DotlessSame(a[1..]);
      assert a == [a[0]] + a[1..] && a[0] in a;
    }
  }

  /** The class is named like the interface, with "::" for every dot, and has a name in any case. */
  lemma ClassNames(first: string, rest: string)
    requires '.' !in first
    ensures ClassName("") == "QDBusInterface"
    ensures first != "" ==> ClassName(first) == first
    ensures ClassName(first + "." + rest) == first + "::" + if rest == "" then "" else Dotless(rest)
    ensures rest != "" ==> Dotless(rest) == ClassName(rest)
  {
    DotlessSame(first);
    DotlessAppend(first, "." + rest);
    DotlessFirst('.', rest);
    assert first + "." + rest == first + ("." + rest) && "." + rest == ['.'] + rest;
    assert first + "::" + Dotless(rest) == first + ("::" + Dotless(rest));
  }

  // ---------- what a finished table says ----------

  /** The text holds a piece at a place, with its terminator. */
  predicate PieceAt(text: string, offset: int, piece: string) {
    && 0 <= offset && offset + |piece| < |text|
    && text[offset..offset + |piece|] == piece
    && text[offset + |piece|] == NUL
  }

  /** A counted list of types, all of it between `start` and `end`. */
  predicate ListAt(data: seq<int>, place: int, list: seq<int>, start: nat, end: int) {
    && start <= place && place + 1 + |list| <= end <= |data|
    && data[place] == |list|
    && data[place + 1..place + 1 + |list|] == list
  }

  /** The five cells of a method for Qt, and its five cells for D-Bus. */
  predicate MethodAt(data: seq<int>, text: string, qt: nat, dbus: nat, m: MethodInfo, start: nat, end: int)
    requires qt + 5 <= |data| && dbus + 5 <= |data|
  {
    && PieceAt(text, data[qt], m.prototype)
    && PieceAt(text, data[qt + 1], m.parameters)
    && PieceAt(text, data[qt + 2], m.typeName)
    && PieceAt(text, data[qt + 3], "")
    && data[qt + 4] == m.flags
    && PieceAt(text, data[dbus], m.name)
    && PieceAt(text, data[dbus + 1], m.inputSignature)
    && PieceAt(text, data[dbus + 2], m.outputSignature)
    && ListAt(data, data[dbus + 3], m.inputTypes, start, end)
    && ListAt(data, data[dbus + 4], m.outputTypes, start, end)
  }

  predicate PropertyAt(data: seq<int>, text: string, qt: nat, dbus: nat, p: PropertyInfo)
    requires qt + 3 <= |data| && dbus + 2 <= |data|
  {
    && PieceAt(text, data[qt], p.name)
    && PieceAt(text, data[qt + 1], p.typeName)
    && data[qt + 2] == p.flags
    && PieceAt(text, data[dbus], p.signature)
    && data[dbus + 1] == p.typeId
  }

  predicate HeaderAt(data: seq<int>, l: Layout, signalCount: nat)
    requires |data| >= HEADER_SIZE
  {
    && data[0] == REVISION && data[1] == data[2] == data[3] == 0
    && data[4] == l.methodCount && data[5] == l.MethodData()
    && data[6] == l.propertyCount && data[7] == l.PropertyData()
    && data[8] == data[9] == data[10] == data[11] == 0
    && data[12] == REQUIRES_VARIANT_META_OBJECT && data[13] == signalCount
    && data[14] == l.PropertyDBusData() && data[15] == l.MethodDBusData()
  }

  predicate MethodsAt(data: seq<int>, text: string, l: Layout, ms: seq<MethodInfo>, end: int)
    requires |ms| <= l.methodCount && |data| >= l.Types()
  {
    forall k | 0 <= k < |ms| :: MethodAt(data, text, l.MethodData() + 5 * k, l.MethodDBusData() + 5 * k, ms[k], l.Types(), end)
  }

  predicate PropertiesAt(data: seq<int>, text: string, l: Layout, ps: seq<PropertyInfo>)
    requires |ps| <= l.propertyCount && |data| >= l.Types()
  {
    forall k | 0 <= k < |ps| :: PropertyAt(data, text, l.PropertyData() + 3 * k, l.PropertyDBusData() + 2 * k, ps[k])
  }

  // ---------- nothing written later disturbs what is there ----------

  lemma PieceStays(text: string, more: string, offset: int, piece: string)
    requires PieceAt(text, offset, piece) && text <= more
    ensures PieceAt(more, offset, piece)
  {
    assert more[..|text|] == text;
    assert more[offset..offset + |piece|] == text[offset..offset + |piece|];
  }

  lemma PieceWritten(text: string, piece: string)
    ensures PieceAt(text + piece + [NUL], |text|, piece)
  {}

  lemma MethodStays(data: seq<int>, data': seq<int>, text: string, text': string, qt: nat, dbus: nat,
    m: MethodInfo, start: nat, end: int, end': int)
    requires qt + 5 <= |data| && dbus + 5 <= |data| && |data'| == |data| && text <= text'
    requires MethodAt(data, text, qt, dbus, m, start, end) && end <= end' <= |data|
    requires data'[qt..qt + 5] == data[qt..qt + 5] && data'[dbus..dbus + 5] == data[dbus..dbus + 5]
    requires data'[start..end] == data[start..end]
    ensures MethodAt(data', text', qt, dbus, m, start, end')
  {
    hide PieceAt;
    var q, q' := data[qt..qt + 5], data'[qt..qt + 5];
    var d, d' := data[dbus..dbus + 5], data'[dbus..dbus + 5];
    assert q'[0] == q[0] && q'[1] == q[1] && q'[2] == q[2] && q'[3] == q[3] && q'[4] == q[4];
    assert d'[0] == d[0] && d'[1] == d[1] && d'[2] == d[2] && d'[3] == d[3] && d'[4] == d[4];
    PieceStays(text, text', data[qt], m.prototype);
    PieceStays(text, text', data[qt + 1], m.parameters);
    PieceStays(text, text', data[qt + 2], m.typeName);
    PieceStays(text, text', data[qt + 3], "");
    PieceStays(text, text', data[dbus], m.name);
    PieceStays(text, text', data[dbus + 1], m.inputSignature);
    PieceStays(text, text', data[dbus + 2], m.outputSignature);
    ListStays(data, data', data[dbus + 3], m.inputTypes, start, end, end');
    ListStays(data, data', data[dbus + 4], m.outputTypes, start, end, end');
  }

  lemma ListStays(data: seq<int>, data': seq<int>, place: int, list: seq<int>, start: nat, end: int, end': int)
    requires ListAt(data, place, list, start, end) && |data'| == |data| && end <= end' <= |data|
    requires data'[start..end] == data[start..end]
    ensures ListAt(data', place, list, start, end')
  {
    assert forall j | start <= j < end :: data'[j] == data'[start..end][j - start] == data[start..end][j - start] == data[j];
    assert data'[place + 1..place + 1 + |list|] == data[place + 1..place + 1 + |list|];
  }

  // ---------- writing ----------

  /** Appends a piece to the text; the cell gets its place. */
  method AppendString(data: array<int>, cell: nat, text: string, piece: string) returns (text': string)
    requires cell < data.Length
    modifies data
    ensures text' == text + piece + [NUL]
    ensures data[cell] == |text| && forall j | 0 <= j < data.Length && j != cell :: data[j] == old(data[j])
  {
    data[cell] := |text|;
    text' := text + piece;
    text' := text' + [NUL];
  }

  /** Copies a counted list of types to a place. */
  method AppendTypes(data: array<int>, place: nat, list: seq<int>) returns (place': nat)
    requires place + 1 + |list| <= data.Length
    modifies data
    ensures place' == place + 1 + |list|
    ensures forall j | 0 <= j < data.Length && !(place <= j < place') :: data[j] == old(data[j])
    ensures ListAt(data[..], place, list, place, place')
  {
    data[place] := |list|;
    var i := 0;
    while i < |list|
      invariant 0 <= i <= |list|
      invariant data[place] == |list|
      invariant forall j | 0 <= j < data.Length && !(place <= j < place + 1 + i) :: data[j] == old(data[j])
      invariant forall j | 0 <= j < i :: data[place + 1 + j] == list[j]
    {
      data[place + 1 + i] := list[i];
      i := i + 1;
    }
    place' := place + 1 + |list|;
    assert data[..][place + 1..place'] == list;
  }

  predicate QtPieces(data: seq<int>, text: string, qt: nat, m: MethodInfo)
    requires qt + 5 <= |data|
  {
    && PieceAt(text, data[qt], m.prototype)
    && PieceAt(text, data[qt + 1], m.parameters)
    && PieceAt(text, data[qt + 2], m.typeName)
    && PieceAt(text, data[qt + 3], "")
  }

  method WriteQtCells(data: array<int>, qt: nat, text: string, m: MethodInfo) returns (text': string)
    requires qt + 5 <= data.Length
    modifies data
    ensures text <= text' && QtPieces(data[..], text', qt, m) && data[qt + 4] == m.flags
    ensures forall j | 0 <= j < data.Length && !(qt <= j < qt + 5) :: data[j] == old(data[j])
  {
    hide PieceAt;
    var t1 := AppendString(data, qt, text, m.prototype);
    var t2 := AppendString(data, qt + 1, t1, m.parameters);
    var t3 := AppendString(data, qt + 2, t2, m.typeName);
    text' := AppendString(data, qt + 3, t3, "");
    data[qt + 4] := m.flags;
    PieceWritten(text, m.prototype);
    PieceWritten(t1, m.parameters);
    PieceWritten(t2, m.typeName);
    PieceWritten(t3, "");
    PieceStays(t1, text', |text|, m.prototype);
    PieceStays(t2, text', |t1|, m.parameters);
    PieceStays(t3, text', |t2|, m.typeName);
  }

  predicate DBusPieces(data: seq<int>, text: string, dbus: nat, m: MethodInfo)
    requires dbus + 5 <= |data|
  {
    && PieceAt(text, data[dbus], m.name)
    && PieceAt(text, data[dbus + 1], m.inputSignature)
    && PieceAt(text, data[dbus + 2], m.outputSignature)
  }

  method WriteDBusNames(data: array<int>, dbus: nat, text: string, m: MethodInfo) returns (text': string)
    requires dbus + 5 <= data.Length
    modifies data
    ensures text <= text' && DBusPieces(data[..], text', dbus, m)
    ensures forall j | 0 <= j < data.Length && !(dbus <= j < dbus + 3) :: data[j] == old(data[j])
  {
    hide PieceAt;
    var t1 := AppendString(data, dbus, text, m.name);
    var t2 := AppendString(data, dbus + 1, t1, m.inputSignature);
    text' := AppendString(data, dbus + 2, t2, m.outputSignature);
    PieceWritten(text, m.name);
    PieceWritten(t1, m.inputSignature);
    PieceWritten(t2, m.outputSignature);
    PieceStays(t1, text', |text|, m.name);
    PieceStays(t2, text', |t1|, m.inputSignature);
  }

  method WriteTypeLists(data: array<int>, dbus: nat, types: nat, m: MethodInfo, ghost start: nat) returns (types': nat)
    requires dbus + 5 <= start <= types && types + TypeCells(m) <= data.Length
    modifies data
    ensures types' == types + TypeCells(m)
    ensures ListAt(data[..], data[dbus + 3], m.inputTypes, start, types')
    ensures ListAt(data[..], data[dbus + 4], m.outputTypes, start, types')
    ensures forall j | 0 <= j < data.Length && j != dbus + 3 && j != dbus + 4 && !(types <= j < types') :: data[j] == old(data[j])
  {
    data[dbus + 3] := types;
    types' := AppendTypes(data, types, m.inputTypes);
    ghost var d := data[..];
    data[dbus + 4] := types';
    var second := types';
    types' := AppendTypes(data, second, m.outputTypes);
    assert data[..][types..second] == d[types..second];
    ListStays(d, data[..], types, m.inputTypes, types, second, second);
  }

  /** The cells of one method; every other cell stays as it is. */
  method WriteMethod(data: array<int>, qt: nat, dbus: nat, types: nat, text: string, m: MethodInfo, ghost start: nat)
    returns (text': string, types': nat)
    requires qt + 5 <= dbus && dbus + 5 <= start <= types && types + TypeCells(m) <= data.Length
    modifies data
    ensures types' == types + TypeCells(m) && text <= text'
    ensures MethodAt(data[..], text', qt, dbus, m, start, types')
    ensures forall j | 0 <= j < data.Length && !(qt <= j < qt + 5) && !(dbus <= j < dbus + 5) && !(types <= j < types') ::
      data[j] == old(data[j])
  {
    hide PieceAt, ListAt;
    var t1 := WriteQtCells(data, qt, text, m);
    ghost var d := data[..];
    text' := WriteDBusNames(data, dbus, t1, m);
    types' := WriteTypeLists(data, dbus, types, m, start);
    PieceStays(t1, text', d[qt], m.prototype);
    PieceStays(t1, text', d[qt + 1], m.parameters);
    PieceStays(t1, text', d[qt + 2], m.typeName);
    PieceStays(t1, text', d[qt + 3], "");
  }

  lemma MethodsStay(data: seq<int>, data': seq<int>, text: string, text': string, l: Layout,
    ms: seq<MethodInfo>, end: int, end': int)
    requires |ms| <= l.methodCount && |data'| == |data| >= l.Types() && text <= text' && l.Types() <= end <= end' <= |data|
    requires MethodsAt(data, text, l, ms, end)
    requires forall j | l.MethodData() <= j < l.MethodData() + 5 * |ms| :: data'[j] == data[j]
    requires forall j | l.MethodDBusData() <= j < l.MethodDBusData() + 5 * |ms| :: data'[j] == data[j]
    requires forall j | l.Types() <= j < end :: data'[j] == data[j]
    ensures MethodsAt(data', text', l, ms, end')
  {
    hide MethodAt;
    forall k | 0 <= k < |ms|
      ensures MethodAt(data', text', l.MethodData() + 5 * k, l.MethodDBusData() + 5 * k, ms[k], l.Types(), end')
    {
      var qt, dbus := l.MethodData() + 5 * k, l.MethodDBusData() + 5 * k;
      assert data'[qt..qt + 5] == data[qt..qt + 5] && data'[dbus..dbus + 5] == data[dbus..dbus + 5];
      assert data'[l.Types()..end] == data[l.Types()..end];
      MethodStays(data, data', text, text', qt, dbus, ms[k], l.Types(), end, end');
    }
  }

  /** Writes the entries of one map; `before` are the entries written already. */
  method WriteMap(data: array<int>, l: Layout, ghost before: seq<MethodInfo>, entries: seq<MethodInfo>,
    qt0: nat, dbus0: nat, types0: nat, text0: string)
    returns (qt: nat, dbus: nat, types: nat, text: string)
    requires |before| + |entries| <= l.methodCount
    requires qt0 == l.MethodData() + 5 * |before| && dbus0 == l.MethodDBusData() + 5 * |before|
    requires types0 == l.Types() + 1 + TypesSize(before)
    requires l.Types() + 1 + TypesSize(before + entries) <= data.Length
    requires types0 <= data.Length
    requires MethodsAt(data[..], text0, l, before, types0)
    modifies data
    ensures qt == l.MethodData() + 5 * |before + entries| && dbus == l.MethodDBusData() + 5 * |before + entries|
    ensures types == l.Types() + 1 + TypesSize(before + entries)
    ensures text0 <= text && MethodsAt(data[..], text, l, before + entries, types)
    ensures data[l.Types()] == old(data[l.Types()])
    ensures forall j | 0 <= j < HEADER_SIZE :: data[j] == old(data[j])
  {
    hide MethodsAt, MethodAt;
    qt, dbus, types, text := qt0, dbus0, types0, text0;
    var i := 0;
    assert before + entries[..0] == before;
    while i < |entries|
      invariant 0 <= i <= |entries|
      invariant qt == qt0 + 5 * i && dbus == dbus0 + 5 * i
      invariant types == l.Types() + 1 + TypesSize(before + entries[..i])
      invariant text0 <= text && types <= data.Length && MethodsAt(data[..], text, l, before + entries[..i], types)
      invariant data[l.Types()] == old(data[l.Types()])
      invariant forall j | 0 <= j < HEADER_SIZE :: data[j] == old(data[j])
    {
      TypesSizeStep(before, entries, i);
      text, types := WriteNext(data, l, before + entries[..i], entries[i], qt, dbus, types, text);
      qt, dbus := qt + 5, dbus + 5;
      i := i + 1;
      assert before + entries[..i] == before + entries[..i - 1] + [entries[i - 1]];
    }
    assert entries[..i] == entries;
  }

  /** One entry after those written already. */
  method WriteNext(data: array<int>, l: Layout, ghost done: seq<MethodInfo>, m: MethodInfo, qt: nat, dbus: nat, types0: nat,
    text0: string)
    returns (text: string, types: nat)
    requires |done| < l.methodCount && l.Types() < types0 && types0 + TypeCells(m) <= data.Length
    requires qt == l.MethodData() + 5 * |done| && dbus == l.MethodDBusData() + 5 * |done|
    requires MethodsAt(data[..], text0, l, done, types0)
    modifies data
    ensures types == types0 + TypeCells(m) && text0 <= text && MethodsAt(data[..], text, l, done + [m], types)
    ensures data[l.Types()] == old(data[l.Types()])
    ensures forall j | 0 <= j < HEADER_SIZE :: data[j] == old(data[j])
  {
    hide MethodsAt, MethodAt;
    ghost var d := data[..];
    text, types := WriteMethod(data, qt, dbus, types0, text0, m, l.Types());
    MethodsGrow(d, data[..], text0, text, l, done, m, types0, types);
  }

  lemma TypesSizeStep(before: seq<MethodInfo>, entries: seq<MethodInfo>, i: nat)
    requires i < |entries|
    ensures TypesSize(before + entries[..i + 1]) == TypesSize(before + entries[..i]) + TypeCells(entries[i])
    ensures TypesSize(before + entries[..i + 1]) <= TypesSize(before + entries)
  {
    var next := before + entries[..i + 1];
    assert next[..|next| - 1] == before + entries[..i];
    assert before + entries == next + entries[i + 1..];
    TypesSizeAppend(next, entries[i + 1..]);
  }

  lemma MethodsGrow(data: seq<int>, data': seq<int>, text: string, text': string, l: Layout,
    ms: seq<MethodInfo>, m: MethodInfo, end: nat, end': nat)
    requires |ms| < l.methodCount && |data'| == |data| && text <= text' && l.Types() <= end <= end' <= |data|
    requires MethodsAt(data, text, l, ms, end)
    requires var qt, dbus := l.MethodData() + 5 * |ms|, l.MethodDBusData() + 5 * |ms|;
      && MethodAt(data', text', qt, dbus, m, l.Types(), end')
      && forall j | 0 <= j < |data| && !(qt <= j < qt + 5) && !(dbus <= j < dbus + 5) && !(end <= j < end') :: data'[j] == data[j]
    ensures MethodsAt(data', text', l, ms + [m], end')
  {
    hide MethodAt;
    MethodsStay(data, data', text, text', l, ms, end, end');
  }

  lemma PropertyStays(data: seq<int>, data': seq<int>, text: string, text': string, qt: nat, dbus: nat, p: PropertyInfo)
    requires qt + 3 <= |data| && dbus + 2 <= |data| && |data'| == |data| && text <= text'
    requires PropertyAt(data, text, qt, dbus, p)
    requires data'[qt] == data[qt] && data'[qt + 1] == data[qt + 1] && data'[qt + 2] == data[qt + 2]
    requires data'[dbus] == data[dbus] && data'[dbus + 1] == data[dbus + 1]
    ensures PropertyAt(data', text', qt, dbus, p)
  {
    hide PieceAt;
    PieceStays(text, text', data[qt], p.name);
    PieceStays(text, text', data[qt + 1], p.typeName);
    PieceStays(text, text', data[dbus], p.signature);
  }

  method WriteQtProperty(data: array<int>, qt: nat, text: string, p: PropertyInfo) returns (text': string)
    requires qt + 3 <= data.Length
    modifies data
    ensures text <= text'
    ensures PieceAt(text', data[qt], p.name) && PieceAt(text', data[qt + 1], p.typeName) && data[qt + 2] == p.flags
    ensures forall j | 0 <= j < data.Length && !(qt <= j < qt + 3) :: data[j] == old(data[j])
  {
    hide PieceAt;
    var t1 := AppendString(data, qt, text, p.name);
    text' := AppendString(data, qt + 1, t1, p.typeName);
    data[qt + 2] := p.flags;
    PieceWritten(text, p.name);
    PieceWritten(t1, p.typeName);
    PieceStays(t1, text', |text|, p.name);
  }

  /** The cells of one property; every other cell stays as it is. */
  method WriteProperty(data: array<int>, qt: nat, dbus: nat, text: string, p: PropertyInfo) returns (text': string)
    requires qt + 3 <= dbus && dbus + 2 <= data.Length
    modifies data
    ensures text <= text' && PropertyAt(data[..], text', qt, dbus, p)
    ensures forall j | 0 <= j < data.Length && !(qt <= j < qt + 3) && !(dbus <= j < dbus + 2) :: data[j] == old(data[j])
  {
    hide PieceAt;
    var t1 := WriteQtProperty(data, qt, text, p);
    text' := AppendString(data, dbus, t1, p.signature);
    data[dbus + 1] := p.typeId;
    PieceWritten(t1, p.signature);
    PieceStays(t1, text', data[qt], p.name);
    PieceStays(t1, text', data[qt + 1], p.typeName);
  }

  method WriteProperties(data: array<int>, l: Layout, ps: seq<PropertyInfo>, text0: string)
    returns (qt: nat, dbus: nat, text: string)
    requires |ps| == l.propertyCount && l.Types() <= data.Length
    modifies data
    ensures qt == l.PropertyDBusData() && dbus == l.MethodDBusData()
    ensures text0 <= text && PropertiesAt(data[..], text, l, ps)
    ensures forall j | 0 <= j < data.Length && !(l.PropertyData() <= j < l.MethodDBusData()) :: data[j] == old(data[j])
  {
    hide PropertyAt;
    qt, dbus, text := l.PropertyData(), l.PropertyDBusData(), text0;
    var i := 0;
    while i < |ps|
      invariant 0 <= i <= |ps|
      invariant qt == l.PropertyData() + 3 * i && dbus == l.PropertyDBusData() + 2 * i
      invariant text0 <= text
      invariant forall k | 0 <= k < i ::
        PropertyAt(data[..], text, l.PropertyData() + 3 * k, l.PropertyDBusData() + 2 * k, ps[k])
      invariant forall j | 0 <= j < data.Length && !(l.PropertyData() <= j < l.MethodDBusData()) :: data[j] == old(data[j])
    {
      ghost var d, t := data[..], text;
      text := WriteProperty(data, qt, dbus, text, ps[i]);
      forall k | 0 <= k < i
        ensures PropertyAt(data[..], text, l.PropertyData() + 3 * k, l.PropertyDBusData() + 2 * k, ps[k])
      {
        PropertyStays(d, data[..], t, text, l.PropertyData() + 3 * k, l.PropertyDBusData() + 2 * k, ps[k]);
      }
      qt, dbus := qt + 3, dbus + 2;
      i := i + 1;
    }
  }

  method WriteHeader(data: array<int>, l: Layout, signalCount: nat)
    requires data.Length >= HEADER_SIZE
    modifies data
    ensures HeaderAt(data[..], l, signalCount)
    ensures forall j | HEADER_SIZE <= j < data.Length :: data[j] == old(data[j])
  {
    data[0] := REVISION;
    data[1] := 0;
    data[2] := 0;
    data[3] := 0;
    data[4] := l.methodCount;
    data[5] := l.MethodData();
    data[6] := l.propertyCount;
    data[7] := l.PropertyData();
    data[8] := 0;
    data[9] := 0;
    data[10] := 0;
    data[11] := 0;
    data[12] := REQUIRES_VARIANT_META_OBJECT;
    data[13] := signalCount;
    data[14] := l.PropertyDBusData();
    data[15] := l.MethodDBusData();
  }

  datatype MetaObject = MetaObject(data: seq<int>, text: string)

  /** The table is exactly as long as needed, and says of every entry what the entry is. */
  predicate Describes(o: MetaObject, interface: string, signals: seq<MethodInfo>, methods: seq<MethodInfo>,
    ps: seq<PropertyInfo>) {
    var ms := signals + methods;
    var l := Layout(|ms|, |ps|);
    && |o.data| == l.Types() + 1 + TypesSize(ms)
    && HeaderAt(o.data, l, |signals|)
    && PieceAt(o.text, 0, ClassName(interface))
    && o.data[l.Types()] == 0
    && MethodsAt(o.data, o.text, l, ms, |o.data|)
    && PropertiesAt(o.data, o.text, l, ps)
  }

  /** QDBusMetaObjectGenerator::write. The maps come as their entries in key order. */
  method Write(interface: string, signals: seq<MethodInfo>, methods: seq<MethodInfo>, properties: seq<PropertyInfo>)
    returns (o: MetaObject)
    ensures Describes(o, interface, signals, methods, properties)
  {
    hide HeaderAt, PieceAt, MethodsAt, PropertiesAt, ClassName, TypesSize, MethodAt;
    ghost var ms := signals + methods;
    var l := Layout(|signals| + |methods|, |properties|);
    assert l == Layout(|ms|, |properties|);
    var dataSize := HEADER_SIZE + l.methodCount * 10 + l.propertyCount * 5;
    var extra := TypesSizes(signals);
    dataSize := dataSize + extra;
    extra := TypesSizes(methods);
    dataSize := dataSize + extra;
    TypesSizeAppend(signals, methods);
    var idata := new int[dataSize + 1];
    WriteHeader(idata, l, |signals|);
    ghost var h := idata[..];

    var text := ClassName(interface);
    text := text + [NUL];
    ghost var t := text;
    PieceWritten("", ClassName(interface));
    assert "" + ClassName(interface) + [NUL] == t;

    text := WriteEntries(idata, l, signals, methods, properties, text);
    PieceStays(t, text, 0, ClassName(interface));
    HeaderStays(h, idata[..], l, |signals|);
    o := MetaObject(idata[..], text);
    assert |o.data| == l.Types() + 1 + TypesSize(ms);
  }

  /** Everything after the header: the cursors end where the next region begins. */
  method WriteEntries(data: array<int>, l: Layout, signals: seq<MethodInfo>, methods: seq<MethodInfo>,
    properties: seq<PropertyInfo>, text0: string)
    returns (text: string)
    requires l == Layout(|signals + methods|, |properties|)
    requires data.Length == l.Types() + 1 + TypesSize(signals + methods)
    modifies data
    ensures text0 <= text && forall j | 0 <= j < HEADER_SIZE :: data[j] == old(data[j])
    ensures MethodsAt(data[..], text, l, signals + methods, data.Length) && PropertiesAt(data[..], text, l, properties)
    ensures data[l.Types()] == 0
  {
    hide MethodsAt, PropertiesAt, TypesSize, MethodAt;
    text := text0;
    TypesSizeAppend(signals, methods);
    var offset := l.MethodData();
    var signatureOffset := l.MethodDBusData();
    var typeidOffset := l.Types();
    data[typeidOffset] := 0;
    typeidOffset := typeidOffset + 1;
    NothingWritten(data[..], text, l, typeidOffset);
    assert typeidOffset == l.Types() + 1 + TypesSize([]) by { NoTypes(); }
    assert [] + signals == signals;
    offset, signatureOffset, typeidOffset, text :=
      WriteMap(data, l, [], signals, offset, signatureOffset, typeidOffset, text);
    offset, signatureOffset, typeidOffset, text :=
      WriteMap(data, l, signals, methods, offset, signatureOffset, typeidOffset, text);
    assert offset == l.PropertyData();
    assert signatureOffset == l.MethodDBusData() + l.methodCount * 5;
    assert typeidOffset == data.Length;

    ghost var d, t := data[..], text;
    offset, signatureOffset, text := WriteProperties(data, l, properties, text);
    assert offset == l.PropertyDBusData();
    assert signatureOffset == l.MethodDBusData();
    MethodsStay(d, data[..], t, text, l, signals + methods, data.Length, data.Length);
  }

  lemma NoTypes()
    ensures TypesSize([]) == 0
  {}

  method TypesSizes(ms: seq<MethodInfo>) returns (size: nat)
    ensures size == TypesSize(ms)
  {
    size := 0;
    var i := 0;
    while i < |ms|
      invariant 0 <= i <= |ms| && size == TypesSize(ms[..i])
    {
      size := size + 2 + |ms[i].inputTypes| + |ms[i].outputTypes|;
      i := i + 1;
      assert ms[..i][..i - 1] == ms[..i - 1];
    }
    assert ms[..i] == ms;
  }

  lemma NothingWritten(data: seq<int>, text: string, l: Layout, end: int)
    requires |data| >= l.Types()
    ensures MethodsAt(data, text, l, [], end)
  {}

  lemma HeaderStays(data: seq<int>, data': seq<int>, l: Layout, signalCount: nat)
    requires |data| == |data'| >= HEADER_SIZE && HeaderAt(data, l, signalCount)
    requires forall j | 0 <= j < HEADER_SIZE :: data'[j] == data[j]
    ensures HeaderAt(data', l, signalCount)
  {}

  // ---------- reading ----------

  /** What a C program reads at a place of the text. */
  function CString(text: string, offset: int): string
    decreases |text| - offset
  {
    if offset < 0 || offset >= |text| || text[offset] == NUL then "" else [text[offset]] + CString(text, offset + 1)
  }

  /** The cell of a method's D-Bus data, if there is such a method. */
  function MethodCell(o: MetaObject, id: int, field: nat): Option<int>
    requires |o.data| >= HEADER_SIZE
  {
    if 0 <= id < o.data[4] && 0 <= o.data[15] + id * 5 + field < |o.data| then Some(o.data[o.data[15] + id * 5 + field]) else None
  }

  function MethodText(o: MetaObject, id: int, field: nat): Option<string>
    requires |o.data| >= HEADER_SIZE
  {
    var cell := MethodCell(o, id, field);
    if cell.Some? then Some(CString(o.text, cell.value)) else None
  }

  function MethodTypes(o: MetaObject, id: int, field: nat): Option<seq<int>>
    requires |o.data| >= HEADER_SIZE
  {
    var cell := MethodCell(o, id, field);
    if cell.Some? && 0 <= cell.value < |o.data| && 0 <= o.data[cell.value] < |o.data| - cell.value
    then Some(o.data[cell.value + 1..cell.value + 1 + o.data[cell.value]]) else None
  }

  function DBusNameForMethod(o: MetaObject, id: int): Option<string>
    requires |o.data| >= HEADER_SIZE
  {
    MethodText(o, id, 0)
  }

  function InputSignatureForMethod(o: MetaObject, id: int): Option<string>
    requires |o.data| >= HEADER_SIZE
  {
    MethodText(o, id, 1)
  }

  function OutputSignatureForMethod(o: MetaObject, id: int): Option<string>
    requires |o.data| >= HEADER_SIZE
  {
    MethodText(o, id, 2)
  }

  function InputTypesForMethod(o: MetaObject, id: int): Option<seq<int>>
    requires |o.data| >= HEADER_SIZE
  {
    MethodTypes(o, id, 3)
  }

  function OutputTypesForMethod(o: MetaObject, id: int): Option<seq<int>>
    requires |o.data| >= HEADER_SIZE
  {
    MethodTypes(o, id, 4)
  }

  function PropertyMetaType(o: MetaObject, id: int): int
    requires |o.data| >= HEADER_SIZE
  {
    if 0 <= id < o.data[6] && 0 <= o.data[14] + id * 2 + 1 < |o.data| then o.data[o.data[14] + id * 2 + 1] else 0
  }

  lemma {:induction false} PieceRead(text: string, offset: int, piece: string)
    requires PieceAt(text, offset, piece) && NUL !in piece
    ensures CString(text, offset) == piece
    decreases |piece|
  {
    var s := text[offset..offset + |piece|];
    if piece != "" {
      assert text[offset] == s[0] == piece[0];
      assert text[offset + 1..offset + 1 + |piece[1..]|] == s[1..];
      PieceRead(text, offset + 1, piece[1..]);
    }
  }

  predicate NulFree(m: MethodInfo) {
    NUL !in m.name && NUL !in m.inputSignature && NUL !in m.outputSignature
  }

  lemma MethodCells(o: MetaObject, l: Layout, signalCount: nat, id: int)
    requires |o.data| >= l.Types() && HeaderAt(o.data, l, signalCount)
    ensures 0 <= id < l.methodCount ==>
      forall f: nat | f < 5 :: MethodCell(o, id, f) == Some(o.data[l.MethodDBusData() + 5 * id + f])
    ensures !(0 <= id < l.methodCount) ==> forall f: nat | f < 5 :: MethodCell(o, id, f) == None
  {}

  lemma TextReadBack(o: MetaObject, id: int, field: nat, piece: string)
    requires |o.data| >= HEADER_SIZE && MethodCell(o, id, field).Some?
    requires PieceAt(o.text, MethodCell(o, id, field).value, piece) && NUL !in piece
    ensures MethodText(o, id, field) == Some(piece)
  {
    hide MethodCell;
    PieceRead(o.text, MethodCell(o, id, field).value, piece);
  }

  lemma TypesReadBack(o: MetaObject, id: int, field: nat, list: seq<int>, start: nat)
    requires |o.data| >= HEADER_SIZE && MethodCell(o, id, field).Some?
    requires ListAt(o.data, MethodCell(o, id, field).value, list, start, |o.data|)
    ensures MethodTypes(o, id, field) == Some(list)
  {
    hide MethodCell;
  }

  lemma MethodsAtOne(data: seq<int>, text: string, l: Layout, ms: seq<MethodInfo>, k: nat)
    requires |ms| == l.methodCount && |data| >= l.Types() && MethodsAt(data, text, l, ms, |data|) && k < |ms|
    ensures MethodAt(data, text, l.MethodData() + 5 * k, l.MethodDBusData() + 5 * k, ms[k], l.Types(), |data|)
  {}

  /** Every accessor gives back the field of the entry with this number, signals first; outside the
      range there is nothing. */
  lemma MethodsReadBack(o: MetaObject, interface: string, signals: seq<MethodInfo>, methods: seq<MethodInfo>,
    ps: seq<PropertyInfo>, id: int)
    requires Describes(o, interface, signals, methods, ps)
    requires forall m | m in signals + methods :: NulFree(m)
    ensures |o.data| >= HEADER_SIZE
    ensures var ms := signals + methods;
      if 0 <= id < |ms| then
        && DBusNameForMethod(o, id) == Some(ms[id].name)
        && InputSignatureForMethod(o, id) == Some(ms[id].inputSignature)
        && OutputSignatureForMethod(o, id) == Some(ms[id].outputSignature)
        && InputTypesForMethod(o, id) == Some(ms[id].inputTypes)
        && OutputTypesForMethod(o, id) == Some(ms[id].outputTypes)
      else
        && DBusNameForMethod(o, id) == InputSignatureForMethod(o, id) == OutputSignatureForMethod(o, id) == None
        && InputTypesForMethod(o, id) == OutputTypesForMethod(o, id) == None
  {
    hide PieceAt, ListAt, PropertiesAt, MethodsAt, ClassName, MethodCell, HeaderAt;
    var ms := signals + methods;
    var l := Layout(|ms|, |ps|);
    MethodCells(o, l, |signals|, id);
    if 0 <= id < |ms| {
      var dbus := l.MethodDBusData() + 5 * id;
      assert ms[id] in ms;
      MethodsAtOne(o.data, o.text, l, ms, id);
      TextReadBack(o, id, 0, ms[id].name);
      TextReadBack(o, id, 1, ms[id].inputSignature);
      TextReadBack(o, id, 2, ms[id].outputSignature);
      TypesReadBack(o, id, 3, ms[id].inputTypes, l.Types());
      TypesReadBack(o, id, 4, ms[id].outputTypes, l.Types());
    }
  }

  lemma PropertiesReadBack(o: MetaObject, interface: string, signals: seq<MethodInfo>,
    methods: seq<MethodInfo>, ps: seq<PropertyInfo>, id: int)
    requires Describes(o, interface, signals, methods, ps)
    ensures |o.data| >= HEADER_SIZE
    ensures PropertyMetaType(o, id) == if 0 <= id < |ps| then ps[id].typeId else 0
    ensures NUL !in ClassName(interface) ==> CString(o.text, 0) == ClassName(interface)
  {
    hide PieceAt, MethodsAt, ClassName;
    var l := Layout(|signals + methods|, |ps|);
    if 0 <= id < |ps| {
      assert PropertyAt(o.data, o.text, l.PropertyData() + 3 * id, l.PropertyDBusData() + 2 * id, ps[id]);
    }
    if NUL !in ClassName(interface) {
      PieceRead(o.text, 0, ClassName(interface));
    }
  }
}
