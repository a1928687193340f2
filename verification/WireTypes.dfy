/** D-Bus types and their signatures (D-Bus Specification, sections "Type System" and
    "Valid Signatures"). */
module WireTypes {

  const MAXIMUM_SIGNATURE_LENGTH := 255
  const MAXIMUM_DEPTH := 32

  /** String, object path and signature. */
  predicate IsTextCode(c: char) {
    c == 's' || c == 'o' || c == 'g'
  }

  /** One of "ybnqiuxtdh". */
  predicate IsFixedCode(c: char) {
    || c == 'y' || c == 'b' || c == 'n' || c == 'q' || c == 'i'
    || c == 'u' || c == 'x' || c == 't' || c == 'd' || c == 'h'
  }

  predicate IsBasicCode(c: char) {
    IsTextCode(c) || IsFixedCode(c)
  }

  lemma NotBasic()
    ensures !IsBasicCode('v') && !IsBasicCode('a') && !IsBasicCode('(') && !IsBasicCode(')')
    ensures !IsBasicCode('{') && !IsBasicCode('}')
  {}

  datatype Type =
    | Basic(code: char)
    | Variant
    | Array(element: Type)
    | Struct(fields: seq<Type>)
    | DictEntry(key: char, value: Type)
  {
    /** A single complete type: no empty struct, and dict entries only inside arrays. */
    predicate Complete() {
      match this
      case Basic(code) => IsBasicCode(code)
      case Variant => true
      case Array(element) => element.Element()
      case Struct(fields) => fields != [] && forall i | 0 <= i < |fields| :: fields[i].Complete()
      case DictEntry(_, _) => false
    }

    /** What an array may be made of. */
    predicate Element() {
      match this
      case DictEntry(key, value) => IsBasicCode(key) && value.Complete()
      case Basic(code) => IsBasicCode(code)
      case Variant => true
      case Array(element) => element.Element()
      case Struct(fields) => fields != [] && forall i | 0 <= i < |fields| :: fields[i].Complete()
    }

    function Arrays(): nat {
      match this
      case Array(element) => 1 + element.Arrays()
      case Struct(fields) => MaxArrays(fields)
      case DictEntry(_, value) => value.Arrays()
      case _ => 0
    }

    function Structs(): nat {
      match this
      case Array(element) => element.Structs()
      case Struct(fields) => 1 + MaxStructs(fields)
      case DictEntry(_, value) => 1 + value.Structs()
      case _ => 0
    }

    predicate WithinLimits() {
      Arrays() <= MAXIMUM_DEPTH && Structs() <= MAXIMUM_DEPTH && |Signature(this)| <= MAXIMUM_SIGNATURE_LENGTH
    }
  }

  function MaxArrays(ts: seq<Type>): nat {
    if ts == [] then 0 else var (a, b) := (ts[0].Arrays(), MaxArrays(ts[1..])); if a < b then b else a
  }

  function MaxStructs(ts: seq<Type>): nat {
    if ts == [] then 0 else var (a, b) := (ts[0].Structs(), MaxStructs(ts[1..])); if a < b then b else a
  }

  function Signature(t: Type): string
    decreases t, 0
  {
    match t
    case Basic(code) => [code]
    case Variant => "v"
    case Array(element) => "a" + Signature(element)
    case Struct(fields) => "(" + Signatures(fields) + ")"
    case DictEntry(key, value) => "{" + [key] + Signature(value) + "}"
  }

  /** The signature of several values one after the other. */
  function Signatures(ts: seq<Type>): string {
    if ts == [] then "" else Signature(ts[0]) + Signatures(ts[1..])
  }

  // ---------- reading signatures ----------

  datatype Parsed<T> = Fail | Parsed(value: T, rest: string)

  /** Reads one complete type, or one array element type. */
  function ReadType(s: string, element: bool): (p: Parsed<Type>)
    ensures p.Parsed? ==> |p.rest| < |s|
    decreases |s|, 0
  {
    if s == "" then Fail
    else if IsBasicCode(s[0]) then Parsed(Basic(s[0]), s[1..])
    else if s[0] == 'v' then Parsed(Variant, s[1..])
    else if s[0] == 'a' then
      (match ReadType(s[1..], true)
       case Parsed(e, rest) => Parsed(Array(e), rest)
       case Fail => Fail)
    else if s[0] == '(' then
      (match ReadFields(s[1..])
       case Parsed(fields, rest) =>
         if fields == [] || rest == "" || rest[0] != ')' then Fail else Parsed(Struct(fields), rest[1..])
       case Fail => Fail)
    else if s[0] == '{' && element && |s| >= 2 && IsBasicCode(s[1]) then
      (match ReadType(s[2..], false)
       case Parsed(value, rest) => if rest == "" || rest[0] != '}' then Fail else Parsed(DictEntry(s[1], value), rest[1..])
       case Fail => Fail)
    else Fail
  }

  /** Reads complete types up to a closing parenthesis or the end. */
  function ReadFields(s: string): (p: Parsed<seq<Type>>)
    ensures p.Parsed? ==> |p.rest| <= |s|
    decreases |s|, 1
  {
    if s == "" || s[0] == ')' then Parsed([], s)
    else
      match ReadType(s, false)
      case Fail => Fail
      case Parsed(t, rest) =>
        match ReadFields(rest)
        case Fail => Fail
        case Parsed(ts, rest') => Parsed([t] + ts, rest')
  }

  /** dbus_signature_validate_single. */
  predicate IsValidSingleSignature(s: string) {
    var p := ReadType(s, false);
    p.Parsed? && p.rest == "" && p.value.WithinLimits()
  }

  /** No signature of a type begins like the end of a struct. */
  lemma SignatureStart(t: Type)
    requires t.Element()
    ensures Signature(t) != "" && Signature(t)[0] != ')' && Signature(t)[0] != '}'
    ensures !t.Complete() ==> Signature(t)[0] == '{'
    ensures t.Complete() ==> Signature(t)[0] != '{'
  {}

  lemma CompleteIsElement(t: Type)
    requires t.Complete()
    ensures t.Element()
  {}

  /** A signature is read back, whatever follows it. */
  lemma {:induction false} ReadSignature(t: Type, rest: string, element: bool)
    requires if element then t.Element() else t.Complete()
    ensures ReadType(Signature(t) + rest, element) == Parsed(t, rest)
    decreases t, 0
  {
    hide IsBasicCode;
    match t
    case Basic(code) => assert ([code] + rest)[1..] == rest;
    case Variant =>
      NotBasic();
      assert ("v" + rest)[1..] == rest;
    case Array(e) =>
      ReadSignature(e, rest, true);
      ReadArray(e, rest, element);
    case Struct(fields) =>
      ReadSignatures(fields, ")" + rest);
      ReadStruct(fields, rest, element);
    case DictEntry(key, value) =>
      ReadSignature(value, "}" + rest, false);
      ReadEntry(key, value, rest);
  }

  lemma ReadArray(e: Type, rest: string, element: bool)
    requires ReadType(Signature(e) + rest, true) == Parsed(e, rest)
    ensures ReadType(Signature(Array(e)) + rest, element) == Parsed(Array(e), rest)
  {
    NotBasic();
    assert (Signature(Array(e)) + rest)[1..] == Signature(e) + rest;
  }

  lemma ReadStruct(fields: seq<Type>, rest: string, element: bool)
    requires fields != [] && ReadFields(Signatures(fields) + (")" + rest)) == Parsed(fields, ")" + rest)
    ensures ReadType(Signature(Struct(fields)) + rest, element) == Parsed(Struct(fields), rest)
  {
    NotBasic();
    assert (Signature(Struct(fields)) + rest)[1..] == Signatures(fields) + (")" + rest);
    assert (")" + rest)[1..] == rest;
  }

  lemma ReadEntry(key: char, value: Type, rest: string)
    requires IsBasicCode(key) && ReadType(Signature(value) + ("}" + rest), false) == Parsed(value, "}" + rest)
    ensures ReadType(Signature(DictEntry(key, value)) + rest, true) == Parsed(DictEntry(key, value), rest)
  {
    hide IsBasicCode;
    NotBasic();
    assert (Signature(DictEntry(key, value)) + rest)[2..] == Signature(value) + ("}" + rest);
    assert ("}" + rest)[1..] == rest;
  }

  lemma {:induction false} ReadSignatures(ts: seq<Type>, rest: string)
    requires forall i | 0 <= i < |ts| :: ts[i].Complete()
    requires rest == "" || rest[0] == ')'
    ensures ReadFields(Signatures(ts) + rest) == Parsed(ts, rest)
    decreases ts
  {
    hide IsBasicCode, ReadType;
    if ts != [] {
      var s := Signatures(ts) + rest;
      var tail := Signatures(ts[1..]) + rest;
      assert ts[0].Complete();
      CompleteIsElement(ts[0]);
      SignatureStart(ts[0]);
      assert s == Signature(ts[0]) + tail;
      assert s[0] == Signature(ts[0])[0];
      ReadSignature(ts[0], tail, false);
      ReadSignatures(ts[1..], rest);
      assert [ts[0]] + ts[1..] == ts;
    } else {
      assert Signatures(ts) + rest == rest;
    }
  }

  /** Whatever is read is a type, and its signature is what was read. */
  lemma {:induction false} ReadIsComplete(s: string, element: bool)
    requires ReadType(s, element).Parsed?
    ensures var t := ReadType(s, element).value;
      (if element then t.Element() else t.Complete()) && s == Signature(t) + ReadType(s, element).rest
    decreases |s|, 0
  {
    hide IsBasicCode;
    NotBasic();
    if s[0] == 'a' {
      ReadIsComplete(s[1..], true);
    } else if s[0] == '(' {
      ReadFieldsComplete(s[1..]);
      StructIsRead(s, element);
    } else if s[0] == '{' {
      ReadIsComplete(s[2..], false);
      EntryIsRead(s, element);
    }
  }

  lemma StructIsRead(s: string, element: bool)
    requires ReadType(s, element).Parsed? && s[0] == '('
    requires var q := ReadFields(s[1..]);
      q.Parsed? && (forall i | 0 <= i < |q.value| :: q.value[i].Complete()) && s[1..] == Signatures(q.value) + q.rest
    ensures var p := ReadType(s, element); p.value.Complete() && s == Signature(p.value) + p.rest
  {
    hide IsBasicCode;
    NotBasic();
    var q := ReadFields(s[1..]);
    assert q.rest == ")" + ReadType(s, element).rest;
    assert s == "(" + (Signatures(q.value) + q.rest);
  }

  lemma EntryIsRead(s: string, element: bool)
    requires ReadType(s, element).Parsed? && s[0] == '{'
    requires |s| >= 2 && ReadType(s[2..], false).Parsed?
    requires var q := ReadType(s[2..], false); q.value.Complete() && s[2..] == Signature(q.value) + q.rest
    ensures var p := ReadType(s, element); element && p.value.Element() && s == Signature(p.value) + p.rest
  {
    hide IsBasicCode, ReadFields;
    NotBasic();
    var q := ReadType(s[2..], false);
    assert q.rest == "}" + ReadType(s, element).rest;
    assert s == "{" + [s[1]] + (Signature(q.value) + q.rest);
  }

  lemma {:induction false} ReadFieldsComplete(s: string)
    requires ReadFields(s).Parsed?
    ensures var p := ReadFields(s);
      (forall i | 0 <= i < |p.value| :: p.value[i].Complete()) && s == Signatures(p.value) + p.rest
    decreases |s|, 1
  {
    if s != "" && s[0] != ')' {
      ReadIsComplete(s, false);
      var p := ReadType(s, false);
      ReadFieldsComplete(p.rest);
      var ts := ReadFields(s).value;
      assert ts[0] == p.value && ts[1..] == ReadFields(p.rest).value;
    } else {
      assert Signatures([]) + s == s;
    }
  }

  /** The valid single signatures are exactly the signatures of complete types within the limits. */
  lemma ValidSingleSignatures(s: string)
    ensures IsValidSingleSignature(s) <==> exists t: Type :: t.Complete() && t.WithinLimits() && s == Signature(t)
  {
    if IsValidSingleSignature(s) {
      ReadIsComplete(s, false);
      assert s == Signature(ReadType(s, false).value);
    }
    forall t: Type | t.Complete() && t.WithinLimits() && s == Signature(t) ensures IsValidSingleSignature(s) {
      ReadSignature(t, "", false);
      assert Signature(t) + "" == s;
    }
  }

  /** A sequence of complete types is determined by the concatenation of its signatures. */
  lemma UniquelyDecodable(ts: seq<Type>, us: seq<Type>)
    requires forall i | 0 <= i < |ts| :: ts[i].Complete()
    requires forall i | 0 <= i < |us| :: us[i].Complete()
    ensures Signatures(ts) == Signatures(us) <==> ts == us
  {
    ReadSignatures(ts, "");
    ReadSignatures(us, "");
    assert Signatures(ts) + "" == Signatures(ts) && Signatures(us) + "" == Signatures(us);
  }

  lemma SignatureInjective(t: Type, u: Type)
    requires t.Complete() && u.Complete() && Signature(t) == Signature(u)
    ensures t == u
  {
    ReadSignature(t, "", false);
    ReadSignature(u, "", false);
  }
}
