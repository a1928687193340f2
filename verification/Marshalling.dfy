/** Reading and writing message bodies. */
module Marshalling {
  import opened Wrappers
  import opened WireTypes
  import opened WireValues
  import opened Variants

  // ---------- reading ----------

  class Demarshaller {
    const fdPassing: bool
    var place: Iter

    constructor (fdPassing: bool, place: Iter)
      ensures this.fdPassing == fdPassing && this.place == place
    {
      this.fdPassing, this.place := fdPassing, place;
    }

    method AtEnd() returns (end: bool)
      requires IterOk(place)
      ensures end == place.AtEnd()
    {
      if !place.AtEnd() {
        assert place.Current().WellFormed();
        assert !IsBasicCode(NO_TYPE);
      }
      end := place.ArgType() == NO_TYPE;
    }

    method ToBasic() returns (value: Value)
      requires !place.AtEnd() && place.Current().BasicValue?
      modifies this
      ensures value == old(place.Current().value) && place == old(place.Next())
    {
      value := place.Current().value;
      place := place.Next();
    }

    method BeginCommon() returns (sub: Demarshaller)
      requires !place.AtEnd() && !place.Current().BasicValue?
      modifies this
      ensures fresh(sub) && sub.fdPassing == fdPassing && sub.place == old(place.Recurse())
      ensures place == old(place.Next())
    {
      sub := new Demarshaller(fdPassing, place.Recurse());
      place := place.Next();
    }

    method Duplicate() returns (arg: Argument)
      requires !place.AtEnd()
      modifies this
      ensures arg == Reading(old(place)) && place == old(place.Next())
    {
      arg := Reading(place);
      place := place.Next();
    }

    method ToVariant() returns (v: QVariant)
      requires IterOk(place) && !place.AtEnd() && place.Current().VariantValue?
      modifies this
      ensures v == VariantOf(old(place), fdPassing) && place == old(place.Next())
      decreases place.Current(), 0
    {
      assert place.Current().WellFormed();
      RecurseOk(place);
      var sub := new Demarshaller(fdPassing, place.Recurse());
      place := place.Next();
      var inner := sub.ToVariantInternal();
      v := DBusVariant(inner);
    }

    method ToByteArrayUnchecked() returns (bytes: seq<Value>)
      requires !place.AtEnd() && place.Current().ArrayValue?
      modifies this
      ensures bytes == Values(old(place.Current().items)) && place == old(place.Next())
    {
      bytes := Values(place.Recurse().items);
      place := place.Next();
    }

    method ToStringListUnchecked() returns (list: seq<string>)
      requires IterOk(place) && !place.AtEnd()
      requires place.Current().ArrayValue? && place.Current().element == Basic('s')
      modifies this
      ensures list == Strings(old(place.Current().items)) && place == old(place.Next())
    {
      ghost var t := place.Current();
      assert t.WellFormed();
      list := [];
      var sub := BeginCommon();
      var end := sub.AtEnd();
      while !end
        invariant fresh(sub) && sub.place == Iter(t.items, |list|, t.element) && |list| <= |t.items|
        invariant list == Strings(t.items)[..|list|]
        invariant end == sub.place.AtEnd()
        invariant place == old(place.Next())
        decreases |t.items| - |list|
      {
        assert sub.place.Current().WellFormed() && sub.place.Current().TypeOf() == Basic('s');
        var s := sub.ToBasic();
        list := list + [s.s];
        end := sub.AtEnd();
      }
    }

    /** The application's view of the next value. */
    method ToVariantInternal() returns (v: QVariant)
      requires IterOk(place) && !place.AtEnd()
      modifies this
      ensures v == VariantOf(old(place), fdPassing) && place == old(place.Next())
      decreases place.Current(), 1
    {
      hide IsBasicCode;
      var code := place.ArgType();
      match place.Current()
      case BasicValue(_, _) =>
        if code == 'h' && !fdPassing {
          v := VoidPointer(code);
          place := place.Next();
        } else {
          var value := ToBasic();
          v := Scalar(code, value);
        }
      case VariantValue(_, _) => v := ToVariant();
      case ArrayValue(element, _) =>
        if place.ElementType() == 'y' {
          ElementTypeIs(place, 'y');
          var bytes := ToByteArrayUnchecked();
          v := ByteArray(bytes);
        } else if place.ElementType() == 's' {
          ElementTypeIs(place, 's');
          var list := ToStringListUnchecked();
          v := StringList(list);
        } else {
          var arg := Duplicate();
          v := ArgumentVariant(arg);
        }
      case StructValue(_) =>
        var arg := Duplicate();
        v := ArgumentVariant(arg);
      case EntryValue(_) =>
        v := VoidPointer(code);
        place := place.Next();
    }
  }

  /** Only a basic element type has a basic code. */
  lemma ElementTypeIs(it: Iter, code: char)
    requires !it.AtEnd() && it.Current().ArrayValue? && it.ElementType() == code
    requires IsBasicCode(code)
    ensures it.Current().element == Basic(code)
  {
    NotBasic();
    assert !IsBasicCode('r') && !IsBasicCode('e');
  }

  /** fromDBusMessage, as far as the arguments are concerned. */
  method FromDBusMessage(body: seq<Tree>, fdPassing: bool) returns (args: seq<QVariant>)
    requires IsBody(body)
    ensures args == Arguments(body, fdPassing)
  {
    var demarshaller := new Demarshaller(fdPassing, Iter(body, 0, NO_ELEMENT));
    args := [];
    var end := demarshaller.AtEnd();
    while !end
      invariant fresh(demarshaller) && demarshaller.fdPassing == fdPassing
      invariant demarshaller.place == Iter(body, |args|, NO_ELEMENT) && |args| <= |body|
      invariant args == Arguments(body, fdPassing)[..|args|]
      invariant end == demarshaller.place.AtEnd()
      decreases |body| - |args|
    {
      BodyIter(body, |args|);
      var v := demarshaller.ToVariantInternal();
      args := args + [v];
      end := demarshaller.AtEnd();
    }
  }

  // ---------- writing ----------

  /** Where a marshaller that only builds a signature puts it; shared with its sub-marshallers. */
  class SignatureBuffer {
    var text: string

    constructor ()
      ensures text == ""
    {
      text := "";
    }
  }

  function WrittenBasic(code: char, value: Value): Outcome {
    if (code == 'o' || code == 'g') && value.Text? && value.s == "" then Outcome([], false, true)
    else if code == 'h' && value == Num(-1) then Outcome([], false, true)
    else Outcome([BasicValue(code, value)], true, true)
  }

  function OpenText(code: char, sig: string): string {
    if code == 'a' then "a" + sig else if code == 'r' then "(" else ""
  }

  function CloseText(code: char): string {
    if code == 'r' then ")" else ""
  }

  class Marshaller {
    const fdPassing: bool
    const ba: SignatureBuffer?
    var items: seq<Tree>
    var ok: bool

    constructor (fdPassing: bool, ba: SignatureBuffer?)
      ensures this.fdPassing == fdPassing && this.ba == ba && items == [] && ok
    {
      this.fdPassing, this.ba, items, ok := fdPassing, ba, [], true;
    }

    method Error()
      modifies this`ok
      ensures !ok
    {
      ok := false;
    }

    /** Either the value is written to the message, or its type to the signature. */
    twostate predicate Wrote(w: Outcome, text: string)
      reads this, ba
    {
      if ba == null then items == old(items) + w.trees && ok == (old(ok) && w.ok)
      else items == old(items) && ok == old(ok) && ba.text == old(ba.text) + text
    }

    method Append(code: char, value: Value)
      modifies this, ba
      ensures Wrote(WrittenBasic(code, value), [code])
    {
      if ba != null {
        ba.text := ba.text + [code];
      } else if (code == 'o' || code == 'g') && value.Text? && value.s == "" {
        Error();
      } else if code == 'h' && value == Num(-1) {
        Error();
      } else {
        items := items + [BasicValue(code, value)];
      }
    }

    method AppendByteArray(bytes: seq<Value>)
      modifies this, ba
      ensures Wrote(Outcome([ArrayValue(Basic('y'), FixedArray('y', bytes))], true, true), "ay")
    {
      if ba != null {
        ba.text := ba.text + "ay";
        return;
      }
      ElementOfSignature(Basic('y'));
      items := items + [Closed('a', "y", FixedArray('y', bytes))];
    }

    method AppendStringList(strings: seq<string>)
      modifies this, ba
      ensures Wrote(Outcome([ArrayValue(Basic('s'), StringTrees(strings))], true, true), "as")
    {
      if ba != null {
        ba.text := ba.text + "as";
        return;
      }
      ElementOfSignature(Basic('s'));
      var sub := Open('a', "s");
      var i := 0;
      while i < |strings|
        invariant 0 <= i <= |strings| && fresh(sub) && sub.ba == ba && sub.ok
        invariant sub.items == StringTrees(strings)[..i]
        invariant unchanged(this)
      {
        sub.Append('s', Text(strings[i]));
        i := i + 1;
      }
      assert sub.items == StringTrees(strings) && "s" == Signature(Basic('s'));
      Close(sub, 'a', "s");
    }

    /** A container is started: its contents go to the sub-marshaller. */
    method Open(code: char, sig: string) returns (sub: Marshaller)
      modifies ba
      ensures fresh(sub) && sub.fdPassing == fdPassing && sub.ba == ba && sub.items == [] && sub.ok
      ensures ba != null ==> ba.text == old(ba.text) + OpenText(code, sig)
    {
      sub := new Marshaller(fdPassing, ba);
      if ba != null {
        if code == 'a' {
          ba.text := ba.text + "a" + sig;
        } else if code == 'r' {
          ba.text := ba.text + "(";
        }
      }
    }

    /** The sub-marshaller is destroyed: the container ends. Its errors were the parent's as well. */
    method Close(sub: Marshaller, code: char, sig: string)
      requires sub != this && sub.ba == ba && IsContainerCode(code)
      modifies this, ba
      ensures if ba == null then items == old(items) + [Closed(code, sig, sub.items)] else items == old(items)
      ensures ok == (old(ok) && sub.ok)
      ensures ba != null ==> ba.text == old(ba.text) + CloseText(code)
    {
      ok := ok && sub.ok;
      if ba != null {
        if code == 'r' {
          ba.text := ba.text + ")";
        }
      } else {
        items := items + [Closed(code, sig, sub.items)];
      }
    }

    method AppendDBusVariant(inner: QVariant) returns (returned: bool)
      requires inner.Ok()
      modifies this, ba
      ensures Wrote(Written(DBusVariant(inner), fdPassing), "v")
      ensures returned == if ba == null then Written(DBusVariant(inner), fdPassing).returned else true
      decreases inner, 3
    {
      hide IsBasicCode, ElementOf;
      if ba != null {
        ba.text := ba.text + "v";
        return true;
      }
      if inner.Invalid? {
        Error();
        return false;
      }
      var signature: string;
      if inner.ArgumentVariant? {
        signature := ArgumentSignature(inner.arg);
      } else if TypeSignature(inner).None? {
        Error();
        return false;
      } else {
        signature := TypeSignature(inner).value;
      }
      var sub := Open('v', signature);
      returned := sub.AppendVariantInternal(inner);
      assert sub.items == Written(inner, fdPassing).trees;
      Close(sub, 'v', signature);
    }

    method AppendVariantInternal(v: QVariant) returns (returned: bool)
      requires ba == null && v.Ok()
      modifies this
      ensures Wrote(Written(v, fdPassing), "")
      ensures returned == Written(v, fdPassing).returned
      decreases v, 2
    {
      hide IsBasicCode, ElementOf;
      match v
      case Invalid =>
        Error();
        returned := false;
      case VoidPointer(_) =>
        Error();
        returned := false;
      case ArgumentVariant(arg) =>
        var demarshaller: Demarshaller;
        match arg {
          case Nothing => return false;
          case Reading(it) => demarshaller := new Demarshaller(fdPassing, it);
          case Writing(body) =>
            if body == [] {
              return false;
            }
            BodyIter(body, 0);
            demarshaller := new Demarshaller(fdPassing, Iter(body, 0, NO_ELEMENT));
        }
        returned := AppendCrossMarshalling(demarshaller);
      case Scalar(code, value) =>
        if code == 'h' && !fdPassing {
          return false;
        }
        Append(code, value);
        returned := true;
      case ByteArray(bytes) =>
        AppendByteArray(bytes);
        returned := true;
      case StringList(strings) =>
        AppendStringList(strings);
        returned := true;
      case DBusVariant(inner) => returned := AppendDBusVariant(inner);
    }

    /** Copies the next value of a message that is being read, and nothing else. */
    method AppendCrossMarshalling(demarshaller: Demarshaller) returns (done: bool)
      requires ba == null && IterOk(demarshaller.place) && !demarshaller.place.AtEnd()
      modifies this, demarshaller
      ensures done && ok == old(ok)
      ensures items == old(items) + [old(demarshaller.place.Current())]
      ensures demarshaller.place == old(demarshaller.place.Next())
      decreases demarshaller.place.Current(), 1
    {
      hide IsBasicCode, ElementOf, ReadType;
      ghost var t := demarshaller.place.Current();
      var code := demarshaller.place.ArgType();
      CodeIsBasic(demarshaller.place);
      if IsBasicCode(code) {
        var value := demarshaller.ToBasic();
        items := items + [BasicValue(code, value)];
        return true;
      }
      if code == 'a' {
        var element := demarshaller.place.ElementType();
        if IsFixedCode(element) && element != 'h' {
          FixedElement(demarshaller.place);
          FixedArrayCopied(t, element);
          ElementOfSignature(Basic(element));
          var data := demarshaller.ToByteArrayUnchecked();
          items := items + [Closed('a', [element], FixedArray(element, data))];
          return true;
        }
      }
      done := CopyContainer(demarshaller);
    }

    /** The general way to copy a container. It is correct for arrays of fixed-size values as well,
        so the short cut for these changes nothing. */
    method CopyContainer(demarshaller: Demarshaller) returns (done: bool)
      requires ba == null && IterOk(demarshaller.place) && !demarshaller.place.AtEnd()
      requires !demarshaller.place.Current().BasicValue?
      modifies this, demarshaller
      ensures done && ok == old(ok)
      ensures items == old(items) + [old(demarshaller.place.Current())]
      ensures demarshaller.place == old(demarshaller.place.Next())
      decreases demarshaller.place.Current(), 0
    {
      hide IsBasicCode, ElementOf, ReadType, Closed;
      ghost var it := demarshaller.place;
      ghost var t := it.Current();
      var code := demarshaller.place.ArgType();
      RecurseOk(it);
      ClosedAgain(it);
      var source := demarshaller.BeginCommon();
      var sig := if code == 'v' || code == 'a' then source.place.CurrentSignature() else "";
      var copy := Open(code, sig);
      var end := source.AtEnd();
      while !end
        invariant fresh(source) && fresh(copy) && copy.ba == null && copy.ok && unchanged(this)
        invariant source.place == it.Recurse().(pos := |copy.items|) && |copy.items| <= |t.items|
        invariant copy.items == t.items[..|copy.items|]
        invariant end == source.place.AtEnd()
        invariant demarshaller.place == it.Next()
        decreases |t.items| - |copy.items|
      {
        var appended := copy.AppendCrossMarshalling(source);
        if !appended {
          return false;
        }
        end := source.AtEnd();
      }
      assert copy.items == t.items;
      Close(copy, code, sig);
      done := true;
    }
  }

  lemma CodeIsBasic(it: Iter)
    requires IterOk(it) && !it.AtEnd()
    ensures IsBasicCode(it.ArgType()) <==> it.Current().BasicValue?
    ensures it.ArgType() == 'a' <==> it.Current().ArrayValue?
  {
    NotBasic();
    assert !IsBasicCode('r') && !IsBasicCode('e');
    assert it.Current().WellFormed();
  }

  lemma FixedElement(it: Iter)
    requires IterOk(it) && !it.AtEnd() && it.Current().ArrayValue? && IsFixedCode(it.ElementType())
    ensures it.Current().element == Basic(it.ElementType()) && it.Current().WellFormed()
    ensures it.Current().element.Element()
  {
    assert it.Current().WellFormed();
    if it.Current().element.DictEntry? {
      assert false;
    }
  }

  /** toDBusMessage: the arguments, after the text of an error if there is one. */
  method ToDBusMessage(errorMessage: string, args: seq<QVariant>, fdPassing: bool) returns (body: Option<seq<Tree>>)
    requires forall i | 0 <= i < |args| :: args[i].Ok()
    ensures var b := Body(args, fdPassing);
      body == if b.ok then Some((if errorMessage == "" then [] else [BasicValue('s', Text(errorMessage))]) + b.trees) else None
  {
    hide Body, IsBasicCode;
    var marshaller := new Marshaller(fdPassing, null);
    if errorMessage != "" {
      marshaller.Append('s', Text(errorMessage));
    }
    assert marshaller.items == if errorMessage == "" then [] else [BasicValue('s', Text(errorMessage))];
    AppendAll(marshaller, args);
    if marshaller.ok {
      return Some(marshaller.items);
    }
    return None;
  }

  /** All arguments, one after the other. */
  method AppendAll(marshaller: Marshaller, args: seq<QVariant>)
    requires marshaller.ba == null && forall i | 0 <= i < |args| :: args[i].Ok()
    modifies marshaller
    ensures var b := Body(args, marshaller.fdPassing);
      marshaller.items == old(marshaller.items) + b.trees && marshaller.ok == (old(marshaller.ok) && b.ok)
  {
    hide Written, IsBasicCode;
    ghost var start := marshaller.items;
    assert start + [] == start;
    var i := 0;
    while i < |args|
      invariant 0 <= i <= |args| && marshaller.ba == null
      invariant marshaller.items == start + Body(args[..i], marshaller.fdPassing).trees
      invariant marshaller.ok == (old(marshaller.ok) && Body(args[..i], marshaller.fdPassing).ok)
    {
      BodyAppend(args[..i], args[i], marshaller.fdPassing);
      assert args[..i] + [args[i]] == args[..i + 1];
      var returned := marshaller.AppendVariantInternal(args[i]);
      i := i + 1;
    }
    assert args[..i] == args;
  }
}
