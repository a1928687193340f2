/** A received call from its body to the slot: the arguments that were decoded meet the parameters of
    the slot that was chosen by the signature. */
module CallArguments {
  import opened Wrappers
  import opened WireTypes
  import opened WireValues
  import opened Variants
  import opened TypeSignatures
  import opened SlotMatching
  import Marshalling

  /** The registered types of the application. */
  type Registry = map<string, CType>

  predicate RegistryOk(types: Registry) {
    forall n | n in types :: types[n].Ok() && !types[n].BuiltIn()
  }

  /** The signatures found for them. */
  function TableOf(types: Registry): Table {
    map n | n in types :: KnownSignature(types[n])
  }

  lemma TableOfIsOk(types: Registry)
    requires RegistryOk(types)
    ensures TableOk(TableOf(types))
  {
    forall n | n in types ensures KnownSignature(types[n]) == "" || IsRegistrable(KnownSignature(types[n])) {
      GuardKeepsTable(DefaultText(types[n]), DefaultOk(types[n]));
    }
  }

  function BodyTypes(body: seq<Tree>): seq<Type> {
    seq(|body|, i requires 0 <= i < |body| => body[i].TypeOf())
  }

  /** The arguments of a decoded message by their user types. */
  function UserTypesOf(args: seq<QVariant>): seq<MetaType> {
    seq(|args|, i requires 0 <= i < |args| => UserTypeOf(args[i]))
  }

  lemma DecodedTypes(body: seq<Tree>, fdPassing: bool)
    requires IsBody(body)
    ensures UserTypesOf(Arguments(body, fdPassing)) == UserTypes(BodyTypes(body), fdPassing)
  {
    hide UserType, UserTypeOf, VariantOf;
    forall i | 0 <= i < |body|
      ensures UserTypeOf(VariantOf(Iter(body, i, NO_ELEMENT), fdPassing)) == UserType(body[i].TypeOf(), fdPassing)
    {
      BodyIter(body, i);
      UserTypeOfValue(Iter(body, i, NO_ELEMENT), fdPassing);
    }
  }

  /** No input type of a method was refused a signature. */
  predicate NoneRefused(m: Method, table: Table) {
    forall i | 0 <= i < |InputTypes(m.parameters)| :: !Refused(InputTypes(m.parameters)[i], table)
  }

  predicate ValueFits(value: Tree, id: MetaType, fdPassing: bool, table: Table) {
    Fits(UserType(value.TypeOf(), fdPassing), id, table)
  }

  /** Decodes the body of a message and hands it to a slot that was chosen by the signature of the body.
      The program is aborted if and only if some value does not fit its parameter, and if no input type
      was refused, if and only if a descriptor comes that was not negotiated. Otherwise each argument is
      passed in its own place. */
  method HandOver(m: Method, name: string, flags: set<Export>, body: seq<Tree>, fdPassing: bool, types: Registry)
    returns (args: seq<QVariant>, params: Option<seq<Passed>>)
    requires IsBody(body) && RegistryOk(types)
    requires Matches(m, name, flags, Signatures(BodyTypes(body)), TableOf(types))
    ensures |body| <= |InputTypes(m.parameters)| && |args| == |body|
    ensures params.None? <==>
      exists k :: 0 <= k < |body| && !ValueFits(body[k], InputTypes(m.parameters)[k], fdPassing, TableOf(types))
    ensures NoneRefused(m, TableOf(types)) ==> (params.None? <==> !fdPassing && Basic('h') in BodyTypes(body))
    ensures params.Some? ==> |params.value| > |body| && forall k | 0 <= k < |body| ::
      params.value[k + 1] == if UserTypeOf(args[k]) == InputTypes(m.parameters)[k] then PassedAsIs(k)
                             else Converted(k, InputTypes(m.parameters)[k])
  {
    hide Matches, TableOk, UserType, UserTypeOf, Fits, Refused, SignatureOf, InputTypes, TableOf, Stop;
    var table, metaTypes := TableOf(types), [m.returnType] + Ids(m.parameters);
    TableOfIsOk(types);
    args := Marshalling.FromDBusMessage(body, fdPassing);
    DecodedTypes(body, fdPassing);
    CallAborts(m, name, flags, BodyTypes(body), fdPassing, table);
    if NoneRefused(m, table) {
      CallAbortsOnDescriptor(m, name, flags, BodyTypes(body), fdPassing, table);
    }
    params := DeliverCall(UserTypesOf(args), metaTypes, table);
  }
}
