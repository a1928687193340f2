/** Looking up the slot for a method call, and remembering it with the object. */
module SlotCache {
  import opened Wrappers
  import opened ObjectTree
  import opened SlotMatching

  /** The flags that matter for slots. */
  function SlotExports(flags: set<Flag>): set<Export> {
    (if ExportScriptableSlots in flags then {ScriptableSlots} else {})
    + (if ExportNonScriptableSlots in flags then {NonScriptableSlots} else {})
    + (if ExportScriptableInvokables in flags then {ScriptableInvokables} else {})
    + (if ExportNonScriptableInvokables in flags then {NonScriptableInvokables} else {})
  }

  // ---------- the search ----------

  /** The last method that matches, or -1. */
  function LastMatch(methods: seq<Method>, name: string, flags: set<Export>, signature: string, table: Table): (i: int)
    ensures -1 <= i < |methods|
  {
    var n := |methods| - 1;
    if n < 0 then -1
    else if Matches(methods[n], name, flags, signature, table) then n
    else LastMatch(methods[..n], name, flags, signature, table)
  }

  lemma {:induction false} LastIsFound(methods: seq<Method>, name: string, flags: set<Export>,
    signature: string, table: Table, idx: int)
    requires -1 <= idx < |methods|
    requires forall k | idx < k < |methods| :: !Matches(methods[k], name, flags, signature, table)
    requires idx >= 0 ==> Matches(methods[idx], name, flags, signature, table)
    ensures LastMatch(methods, name, flags, signature, table) == idx
    decreases |methods|
  {
    hide Matches;
    if |methods| > 0 && idx < |methods| - 1 {
      LastIsFound(methods[..|methods| - 1], name, flags, signature, table, idx);
    }
  }

  /** Whatever matches is at or before the last match. */
  lemma {:induction false} LastIsLast(methods: seq<Method>, k: nat, name: string, flags: set<Export>, signature: string, table: Table)
    requires k < |methods| && Matches(methods[k], name, flags, signature, table)
    ensures k <= LastMatch(methods, name, flags, signature, table)
    decreases |methods|
  {
    hide Matches;
    if k < |methods| - 1 {
      LastIsLast(methods[..|methods| - 1], k, name, flags, signature, table);
    }
  }

  lemma {:induction false} LastMatches(methods: seq<Method>, name: string, flags: set<Export>, signature: string, table: Table)
    ensures var i := LastMatch(methods, name, flags, signature, table);
      i >= 0 ==> Matches(methods[i], name, flags, signature, table)
  {
    hide Matches;
    if methods != [] && !Matches(methods[|methods| - 1], name, flags, signature, table) {
      LastMatches(methods[..|methods| - 1], name, flags, signature, table);
    }
  }

  /** A chosen method is a slot or an invokable one, and its own flag is among those of the registration. */
  lemma ChosenHasItsFlag(methods: seq<Method>, name: string, flags: set<Flag>, signature: string, table: Table)
    requires LastMatch(methods, name, SlotExports(flags), signature, table) >= 0
    ensures var m := methods[LastMatch(methods, name, SlotExports(flags), signature, table)];
      && Suits(m, name, signature, table)
      && (m.kind == Slot && m.scriptable ==> ExportScriptableSlots in flags)
      && (m.kind == Slot && !m.scriptable ==> ExportNonScriptableSlots in flags)
      && (m.kind == Invokable && m.scriptable ==> ExportScriptableInvokables in flags)
      && (m.kind == Invokable && !m.scriptable ==> ExportNonScriptableInvokables in flags)
  {
    hide Suits;
    LastMatches(methods, name, SlotExports(flags), signature, table);
  }

  /** A method that suits a call and is the only one of its name is chosen if and only if its own flag,
      for each kind and scriptable or not, is given. */
  lemma ChosenByItsFlag(methods: seq<Method>, k: nat, name: string, flags: set<Flag>, signature: string, table: Table)
    requires k < |methods| && Suits(methods[k], name, signature, table)
    requires forall i | 0 <= i < |methods| && i != k :: methods[i].name != name
    ensures var m, i := methods[k], LastMatch(methods, name, SlotExports(flags), signature, table);
      && (m.kind == Slot && m.scriptable ==> (i == k <==> ExportScriptableSlots in flags))
      && (m.kind == Slot && !m.scriptable ==> (i == k <==> ExportNonScriptableSlots in flags))
      && (m.kind == Invokable && m.scriptable ==> (i == k <==> ExportScriptableInvokables in flags))
      && (m.kind == Invokable && !m.scriptable ==> (i == k <==> ExportNonScriptableInvokables in flags))
      && (i == k || i == -1)
  {
    var exports := SlotExports(flags);
    LastMatches(methods, name, exports, signature, table);
    if Matches(methods[k], name, exports, signature, table) {
      LastIsLast(methods, k, name, exports, signature, table);
    }
  }

  /** A slot or an invokable method whose own flag is given. */
  predicate IsOpen(m: Method, flags: set<Flag>) {
    || (m.kind == Slot && m.scriptable && ExportScriptableSlots in flags)
    || (m.kind == Slot && !m.scriptable && ExportNonScriptableSlots in flags)
    || (m.kind == Invokable && m.scriptable && ExportScriptableInvokables in flags)
    || (m.kind == Invokable && !m.scriptable && ExportNonScriptableInvokables in flags)
  }

  /** A method that suits a call and is open to it makes sure that there is a slot. */
  lemma OpenMethodIsFound(methods: seq<Method>, k: nat, flags: set<Flag>, member: string, signature: string, table: Table)
    requires k < |methods| && Suits(methods[k], member, signature, table) && IsOpen(methods[k], flags)
    ensures HasSlot(methods, SlotExports(flags), member, signature, table)
  {
    LastIsLast(methods, k, member, SlotExports(flags), signature, table);
  }

  function TypesOf(m: Method): seq<MetaType> {
    [m.returnType] + Ids(m.parameters)
  }

  predicate PassesMessage(metaTypes: seq<MetaType>) {
    |metaTypes| == 2 && metaTypes[1] == MessageType
  }

  /** A method for this signature, or one that takes the bare message. */
  predicate HasSlot(methods: seq<Method>, flags: set<Export>, member: string, signature: string, table: Table) {
    || LastMatch(methods, member, flags, signature, table) >= 0
    || (var i := LastMatch(methods, member, flags, "", table); i >= 0 && PassesMessage(TypesOf(methods[i])))
  }

  /** No method will do, but the types left over from the search look like those of a method that takes
      the bare message. */
  predicate Misled(methods: seq<Method>, flags: set<Export>, member: string, signature: string, table: Table) {
    && LastMatch(methods, member, flags, signature, table) < 0 && LastMatch(methods, member, flags, "", table) < 0
    && PassesMessage(Leftover(methods, member, [], table))
  }

  /** Exactly when there is a slot: a method suits the call and is open to it, or else the last one that
      does for no arguments takes the bare message. */
  lemma HasSlotExactly(methods: seq<Method>, flags: set<Flag>, member: string, signature: string, table: Table)
    ensures HasSlot(methods, SlotExports(flags), member, signature, table) <==>
      || (exists k :: 0 <= k < |methods| && Suits(methods[k], member, signature, table) && IsOpen(methods[k], flags))
      || (exists k :: 0 <= k < |methods| && TakesBareMessage(methods, k, member, flags, table))
  {
    hide Suits;
    var exports := SlotExports(flags);
    LastMatches(methods, member, exports, signature, table);
    LastMatches(methods, member, exports, "", table);
    if k :| 0 <= k < |methods| && Suits(methods[k], member, signature, table) && IsOpen(methods[k], flags) {
      LastIsLast(methods, k, member, exports, signature, table);
    }
    if k :| 0 <= k < |methods| && TakesBareMessage(methods, k, member, flags, table) {
      LastIsLast(methods, k, member, exports, "", table);
      assert LastMatch(methods, member, exports, "", table) == k;
    }
    var i := LastMatch(methods, member, exports, "", table);
    if i >= 0 && PassesMessage(TypesOf(methods[i])) {
      forall j | i < j < |methods| ensures !(Suits(methods[j], member, "", table) && IsOpen(methods[j], flags)) {
        if Suits(methods[j], member, "", table) && IsOpen(methods[j], flags) {
          LastIsLast(methods, j, member, exports, "", table);
        }
      }
      BareMessage(methods[i], member, table);
      assert TakesBareMessage(methods, i, member, flags, table);
    }
  }

  predicate TakesBareMessage(methods: seq<Method>, k: nat, member: string, flags: set<Flag>, table: Table)
    requires k < |methods|
  {
    && Suits(methods[k], member, "", table) && IsOpen(methods[k], flags)
    && methods[k].parameters == [ByValue(MessageType)]
    && forall j | k < j < |methods| :: !(Suits(methods[j], member, "", table) && IsOpen(methods[j], flags))
  }

  lemma BareMessage(m: Method, member: string, table: Table)
    requires Suits(m, member, "", table) && PassesMessage(TypesOf(m))
    ensures m.parameters == [ByValue(MessageType)]
  {
    hide SignatureOf;
    NoSignatureForMessage(table);
    assert ParameterOk(m.parameters[0], table);
  }

  datatype SlotData = SlotData(slotIdx: int, metaTypes: seq<MetaType>)
  {
    /** The call is delivered, to the slot with this index. */
    predicate Delivers() {
      metaTypes != []
    }
  }

  /** What the search comes to. */
  function Search(methods: seq<Method>, flags: set<Export>, member: string, signature: string, table: Table): SlotData {
    var i := LastMatch(methods, member, flags, signature, table);
    if i >= 0 then SlotData(i, TypesOf(methods[i]))
    else
      var j := LastMatch(methods, member, flags, "", table);
      var metaTypes := if j >= 0 then TypesOf(methods[j]) else Leftover(methods, member, [], table);
      if PassesMessage(metaTypes) then SlotData(j, metaTypes) else SlotData(-1, [])
  }

  lemma SearchFinds(methods: seq<Method>, flags: set<Export>, member: string, signature: string, table: Table)
    ensures var data := Search(methods, flags, member, signature, table);
      && (data.slotIdx >= 0 <==> HasSlot(methods, flags, member, signature, table))
      && (data.slotIdx < 0 && data.Delivers() <==> Misled(methods, flags, member, signature, table))
      && (data.slotIdx >= 0 ==> data.Delivers()) && data.slotIdx >= -1
  {
    hide LastMatch, Leftover;
  }

  /** The method looked at last by a search in vain. */
  function FirstCandidate(methods: seq<Method>, name: string): Option<Method> {
    if methods == [] then None
    else if IsCandidate(methods[0], name) then Some(methods[0])
    else FirstCandidate(methods[1..], name)
  }

  /** The search misleads exactly if the first method with the right name has a message as its first
      parameter and then nothing, or something that cannot follow. */
  lemma {:induction false} MisledExactly(methods: seq<Method>, name: string, table: Table)
    ensures PassesMessage(Leftover(methods, name, [], table)) <==>
      FirstCandidate(methods, name).Some? && EndsAfterMessage(FirstCandidate(methods, name).value.parameters, table)
  {
    hide Examined, EndsAfterMessage;
    if methods != [] {
      if IsCandidate(methods[0], name) {
        ExaminedPasses(methods[0], table);
      } else {
        MisledExactly(methods[1..], name, table);
      }
    }
  }

  predicate EndsAfterMessage(ps: seq<Parameter>, table: Table) {
    ps != [] && ps[0] == ByValue(MessageType) && (|ps| == 1 || !WellShaped(ps[..2], table))
  }

  lemma ExaminedPasses(m: Method, table: Table)
    ensures PassesMessage(Examined(m, table)) <==> EndsAfterMessage(m.parameters, table)
  {
    hide SignatureOf;
    var ps := m.parameters;
    var n := GoodPrefix(ps, table);
    GoodIsShaped(ps, table);
    NoSignatureForMessage(table);
    assert ps[..|ps|] == ps;
    if EndsAfterMessage(ps, table) {
      assert WellShaped(ps[..1], table);
      if |ps| > 1 {
        ShapeOfPrefix(ps, 1, table);
        GoodUpTo(ps, 1, table);
      }
    } else if n == 1 {
      assert ParameterOk(ps[..1][0], table);
    }
  }

  lemma {:induction false} GoodIsShaped(ps: seq<Parameter>, table: Table)
    ensures var n := GoodPrefix(ps, table);
      WellShaped(ps[..n], table) && (n < |ps| ==> !WellShaped(ps[..n + 1], table))
  {
    if ps != [] && !WellShaped(ps, table) {
      var less := ps[..|ps| - 1];
      GoodIsShaped(less, table);
      var n := GoodPrefix(less, table);
      assert less[..n] == ps[..n];
      if n < |less| {
        assert less[..n + 1] == ps[..n + 1];
      } else {
        assert ps[..n + 1] == ps;
      }
    } else {
      assert ps[..|ps|] == ps;
    }
  }

  /** For example, a method that takes the bare message but is not exported. */
  lemma UnexportedSlotMisleads(m: Method, flags: set<Export>, signature: string, table: Table)
    requires IsCandidate(m, m.name) && m.parameters == [ByValue(MessageType)] && !Exported(m, flags)
    ensures Misled([m], flags, m.name, signature, table)
  {
    ExaminedPasses(m, table);
  }

  // ---------- the cache of an object ----------

  datatype Entry = Entry(key: string, flags: set<Flag>, data: SlotData)

  function CacheKey(member: string, signature: string): string {
    if signature == "" then member else member + "." + signature
  }

  function UpToDot(s: string): string {
    if s == "" || s[0] == '.' then "" else [s[0]] + UpToDot(s[1..])
  }

  lemma {:induction false} MemberIsUpToDot(member: string, rest: string)
    requires '.' !in member && (rest == "" || rest[0] == '.')
    ensures UpToDot(member + rest) == member
  {
    if member != "" {
      MemberIsUpToDot(member[1..], rest);
      assert (member + rest)[1..] == member[1..] + rest;
    } else {
      assert member + rest == rest;
    }
  }

  /** As no member name has a dot, a key stands for one member and one signature. */
  lemma KeyDetermines(member: string, signature: string, member': string, signature': string)
    requires '.' !in member && '.' !in member' && CacheKey(member, signature) == CacheKey(member', signature')
    ensures member == member' && signature == signature'
  {
    RestOfKey(member, signature);
    RestOfKey(member', signature');
  }

  lemma RestOfKey(member: string, signature: string)
    requires '.' !in member
    ensures var key := CacheKey(member, signature);
      && UpToDot(key) == member && |member| <= |key|
      && signature == if key[|member|..] == "" then "" else key[|member|..][1..]
  {
    var rest := if signature == "" then "" else "." + signature;
    assert CacheKey(member, signature) == member + rest;
    MemberIsUpToDot(member, rest);
  }

  /** What the cache has for a key and flags; the newest entries come first. */
  function Cached(cache: seq<Entry>, key: string, flags: set<Flag>): Option<SlotData> {
    if cache == [] then None
    else if cache[0].key == key && cache[0].flags == flags then Some(cache[0].data)
    else Cached(cache[1..], key, flags)
  }

  /** The search in the cache. */
  method FindCached(cache: seq<Entry>, key: string, flags: set<Flag>) returns (data: Option<SlotData>)
    ensures data == Cached(cache, key, flags)
  {
    var i := 0;
    while i < |cache|
      invariant 0 <= i <= |cache| && Cached(cache, key, flags) == Cached(cache[i..], key, flags)
    {
      assert cache[i..][0] == cache[i] && cache[i..][1..] == cache[i + 1..];
      if cache[i].key == key && cache[i].flags == flags {
        return Some(cache[i].data);
      }
      i := i + 1;
    }
    data := None;
  }

  /** Every entry is what a search would come to now. */
  ghost predicate Fresh(cache: seq<Entry>, methods: seq<Method>, table: Table) {
    forall i, member, signature | 0 <= i < |cache| && '.' !in member && cache[i].key == CacheKey(member, signature) ::
      cache[i].data == Search(methods, SlotExports(cache[i].flags), member, signature, table)
  }

  /** So what is remembered is what would be found. */
  lemma {:induction false} CachedIsFresh(cache: seq<Entry>, methods: seq<Method>, flags: set<Flag>,
    member: string, signature: string, table: Table)
    requires Fresh(cache, methods, table) && '.' !in member
    ensures var data := Cached(cache, CacheKey(member, signature), flags);
      data.Some? ==> data.value == Search(methods, SlotExports(flags), member, signature, table)
  {
    hide Search, CacheKey, SlotExports;
    if cache != [] {
      assert forall i | 0 <= i < |cache| - 1 :: cache[1..][i] == cache[i + 1];
      CachedIsFresh(cache[1..], methods, flags, member, signature, table);
    }
  }

  /** A search that is remembered keeps the cache fresh. */
  lemma StaysFresh(cache: seq<Entry>, methods: seq<Method>, flags: set<Flag>, member: string, signature: string, table: Table)
    requires Fresh(cache, methods, table) && '.' !in member
    ensures var e := Entry(CacheKey(member, signature), flags, Search(methods, SlotExports(flags), member, signature, table));
      Fresh([e] + cache, methods, table) && Cached([e] + cache, e.key, flags) == Some(e.data)
  {
    hide Search, SlotExports, CacheKey;
    var e := Entry(CacheKey(member, signature), flags, Search(methods, SlotExports(flags), member, signature, table));
    forall i, member', signature' | 0 <= i < |[e] + cache| && '.' !in member' && ([e] + cache)[i].key == CacheKey(member', signature')
      ensures ([e] + cache)[i].data == Search(methods, SlotExports(([e] + cache)[i].flags), member', signature', table)
    {
      if i == 0 {
        KeyDetermines(member, signature, member', signature');
      } else {
        assert ([e] + cache)[i] == cache[i - 1];
      }
    }
  }
}
