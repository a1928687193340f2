# The QtDBus client runtime and SVG drawing, in Dafny

This project models the hard parts of the D-Bus client runtime (`src/dbus`) and of SVG drawing (`src/svg`) and proves
what they keep over every input, every step and every run. Run `dafny verify dfyconfig.toml` to check it.

Code that changes state step by step is modelled by classes and loops with invariants; each such method is proved
against a specification written as a function or predicate on values, and the properties below are lemmas about that
specification. Protocols between threads and the bus are step machines.

## What is modelled

**Signal subscriptions** (`QtText`, `NameRules`, `MatchRule`, `SignalFilter`, `SignalBus`, `OwnerCache`,
`SignalRegistry`, `BusConnection`, `RunHistory`, `ConnectionRuns`). One connection in client mode with a live bus. The class `BusConnection` holds the
hooks, the reference counts of match rules and the watched services with their cached owners; the class `Bus` holds the
rules it was given, the owners of names and the signals not yet dispatched. `Valid` says: the count of a rule is the
number of hooks with that rule, plus one for the rule every connection starts with; the count of a well-known service is
the number of counted rules that name it; every watched service except the bus itself has exactly one internal
NameOwnerChanged hook, and the connection owns no other hooks but the two it starts with, which have no rule and are not
counted; the bus holds each counted rule exactly once, except the first; no two hooks of the application are equal.
Subscribing and unsubscribing call themselves for the internal hooks. Their `decreases` clauses start from 1 for an
ordinary service and 0 for `org.freedesktop.DBus`, which is how the model states that the recursion nests one level deep
at most. The multi-hash is a map from node addresses to entries, so nothing depends on the order of equal keys.

**Messages and signatures** (`WireTypes`, `WireValues`, `Variants`, `Marshalling`, `TypeSignatures`, `TypeRegistry`,
`SlotMatching`, `CallArguments`). libdbus iterators are (values of the container, position, element type). The marshaller and the
demarshaller are classes; the signature-only mode of the marshaller is the same class with a shared buffer. A registered
type is described by what its marshalling operator does: basic values, strings, lists, maps, structs and variants.

**Meta objects** (`MetaObjectTable`). The table of integers is an array, written through three moving cursors; the
accessors are functions of the finished table.

**Objects and calls** (`ObjectPaths`, `ObjectTree`, `SlotCache`, `CallDispatch`). The tree of registered objects stands
for a map from paths to objects with flags. A call goes from the tree through child objects, adaptors, internal
interfaces and the object itself to an answer, directly or by way of an event posted to the thread of the object. Objects
and adaptors remember which slots were found or not found for a call.

**Pending calls and timeouts** (`PendingCall`, `Timeouts`). A pending call is a step machine for any number of waiting
threads and handles, the dispatcher and libdbus. A critical section under the mutex of the call is one step, and the
dispatch lock excludes blocking and dispatching from each other.

**SVG styles** (`Pens`, `SvgStyles`, `SvgDrawing`). The style properties are classes with their `m_old*` fields; drawing
is a recursive method over a tree of nodes, with the style objects as its footprint. A pen is a value; the copy a style
works on shares its data with the pen of the painter until something changes. Numbers are exact reals. `Wrappers` holds
the option type.

## Where the code limits a claim

- The duplicate search compares QString values, for which null equals empty; rules and filters tell the two apart. A
  subscription that differs from an existing one only in this way is therefore taken for a duplicate
  (`BusConnection.EmptyTakenForNull` is an example; `BusConnection.BusConnection.ConnectSignal` states it through
  `Duplicate`).
- A cached owner settles after a service starts being watched exactly if the last change of that service still queued,
  if any, names its present owner, or the service changes hands between subscribing and asking
  (`BusConnection.BusConnection.WatchOwner`). `RunHistory.Unsettled` collects the services for which it does not over a
  history; after any run, exactly these have a wrong owner cached (`ConnectionRuns.Run`).
  `ConnectionRuns.RewatchWithChangeQueued` is a run with such a service.
- Arguments in match rules are not escaped. A rule is read back as the subscription it was built for if and only if no
  field has a quote (`MatchRule.RuleRoundTrip`). With quotes two different subscriptions can share a rule
  (`MatchRule.QuotedArgumentsCanShareARule`); without them they cannot (`MatchRule.RulesShared`).
- The local filter compares the text of an argument, whatever its type; the rule on the bus selects strings only. The two
  agree up to that (`SignalFilter.FilterAgreesWithRule`), and a number can pass the filter alone
  (`SignalFilter.NumbersPassTheFilter`).
- The documentation of bus names asks for two parts. The validator accepts one (`NameRules.OnePartIsAccepted`); a name it
  accepts that is not unique is as documented if and only if it has a dot (`NameRules.DocumentedNames`).
- The documentation of `registerObject` says that nothing can be registered below an object that exports its child
  objects. The root is not checked, so this holds below the root only (`ObjectTree.NothingBelowExporter`). Below a root
  that exports its child objects any path can be taken, but calls to it end at the root
  (`ObjectTree.RegisterBelowExportingRoot`).
- The documentation of QDBusPendingCall says that dropping the last handle cancels the call. The reply holds a reference
  of its own, so the destructor never finds a call to cancel (`PendingCall.NeverCancelled`).
- A value that reaches the application directly, or through variants only, cannot be sent on if it is an empty signature
  or a file descriptor that was not negotiated; inside arrays and structs it can (`Variants.BodyRoundTrip`).
- A list whose element type was refused a signature writes only `a`, and can give a struct around it a valid but wrong
  signature (`TypeSignatures.RefusedElementType`). The signature found for a type is right if and only if the type is
  known, which means that neither it nor any type inside it was refused (`TypeSignatures.OnlyKnownIsSpelled`).
- A slot with a refused parameter type can be chosen for a call that does not fit it, and the program is then aborted
  (`SlotMatching.RefusedTypeAborts`). `SlotMatching.CallAborts` says exactly when a chosen slot aborts.
- Where no slot takes a call, the search leaves the types of the method it looked at last behind. If these look like a
  method that takes the bare message, the call is delivered to nobody and answered as if a slot had run; only from the
  second time on there is an error (`CallDispatch.AnsweredByNobody`). `SlotCache.MisledExactly` says when;
  `SlotCache.UnexportedSlotMisleads` is an example.
- The data of a pen are copied without the dash pattern. A pen without dashes of its own therefore loses those it inherits
  if and only if the style changes any other attribute of it, also where the code means to rescale them
  (`SvgStyles.StrokeStyle.InheritedDashes`, with `ChangesNothing` as the condition on the pen before). Setting nothing but
  another width is enough (`SvgStyles.WidthAloneLosesDashes`). A dash array is drawn as given unless the inherited pattern
  is the same, which is then not set again, and something else changes (`SvgStyles.StrokeStyle.GivenDashesAreDrawn`;
  `SvgStyles.GivenAgainIsLost` is an example).
- `QSvgStyle::revert` runs in the order of `apply`, so a node that sets both a fill and a viewport fill leaves its fill
  behind (`SvgDrawing.BrushOfNode`), until a node above that sets the brush once puts it right. What a whole tree leaves
  is `SvgDrawing.Leaves`; the brush comes back if and only if that is nothing or the same brush
  (`SvgDrawing.BrushComesBack`).

## Model

| member | source | states |
|---|---|---|
| NameRules.BusGrammar | src/dbus/qdbusutil.cpp:297-363 | the accepted bus names are those of at most 255 characters that read, character by character, as elements of the grammar, with dashes, and with leading digits after a colon only |
| NameRules.UniqueNameGrammar | src/dbus/qdbusutil.cpp:297-319 | the accepted unique names are those of at most 255 characters with a colon and elements with dashes and leading digits |
| NameRules.InterfaceGrammar | src/dbus/qdbusutil.cpp:274-288 | the accepted interface names are those of at most 255 characters that read as two or more elements without dashes or leading digits |
| NameRules.MemberGrammar | src/dbus/qdbusutil.cpp:370-382 | the accepted member names are those of at most 255 characters that read as one such element |
| NameRules.PathGrammar | src/dbus/qdbusutil.cpp:407-425 | the accepted paths are the root and those that read as a slash and elements with slashes between them |
| NameRules.BusNameHasNoQuote | src/dbus/qdbusutil.cpp:336-357 | a valid bus name cannot break out of a quoted rule value |
| NameRules.DocumentedNames | src/dbus/qdbusutil.cpp:325-363 | the documented names are exactly the accepted ones that are not unique and have a dot |
| NameRules.OnePartIsAccepted | src/dbus/qdbusutil.cpp:344-360 | a single part is accepted, which the documented rule excludes |
| NameRules.InterfaceNameHasNoColon | src/dbus/qdbusutil.cpp:274-288 | a valid interface name leaves "member:interface" unambiguous; every hook of the application is stored with such a name |
| NameRules.SplitJoin | src/dbus/qdbusutil.cpp:278-286 | splitting at a separator undoes joining parts that do not contain it |
| MatchRule.BuildMatchRule | src/dbus/qdbusintegrator.cpp:387-412 | the loop writes the constraints of the subscription in order, separated by commas, and nothing else |
| MatchRule.RuleRoundTrip | src/dbus/qdbusintegrator.cpp:387-412 | the bus reads back the constraints that were written if and only if no field has a quote, and then exactly the service, path, interface, member and indexed arguments |
| MatchRule.RulesShared | src/dbus/qdbusintegrator.cpp:387-412 | two quote-free subscriptions have the same rule if and only if they ask for the same, up to trailing null arguments |
| MatchRule.QuotedArgumentsCanShareARule | src/dbus/qdbusintegrator.cpp:400-408 | for any two texts, two different subscriptions, one with quotes in an argument, that get the same rule |
| SignalFilter.KeyInjective | src/dbus/qdbusintegrator.cpp:1246-1249 | the key determines member and interface |
| SignalFilter.KeyReached | src/dbus/qdbusintegrator.cpp:1539-1562 | a hook is stored under one of the three keys exactly if member and interface fit, wildcards included, and the keys differ |
| SignalFilter.AcceptedExactly | src/dbus/qdbusintegrator.cpp:1501-1534 | a hook accepts a signal if and only if service, path and arguments it names are met, a signature that is not null, empty or not, is the very same, and there are enough arguments |
| SignalFilter.IsWanted | src/dbus/qdbusintegrator.cpp:1501-1534 | the checks of the loop, in order, come to that |
| SignalFilter.FilterAgreesWithRule | src/dbus/qdbusintegrator.cpp:1494-1537 | a hook is reached, accepts a signal and finds strings wherever it constrains an argument, if and only if its rule, as the bus reads it, selects the signal, the signature fits and there are enough arguments |
| SignalFilter.NumbersPassTheFilter | src/dbus/qdbusintegrator.cpp:1515-1530 | for any text, a signal with an argument of this text that is no string passes the filter, and the rule does not select it |
| SignalBus.Bus.Elapse | src/dbus/qdbusintegrator.cpp:2064-2072 | after changes by other clients a name whose changes are reported settles exactly if it settled before or changed hands; only their changes are new in the queue |
| SignalRegistry.RuleNamesService | src/dbus/qdbusintegrator.cpp:387-412 | the sender in a rule is the service it was built for, whatever the other fields contain |
| SignalRegistry.CountsAfterConnect | src/dbus/qdbusintegrator.cpp:2047-2054 | one hook more, one use of its rule more: every count stays the number of hooks |
| SignalRegistry.CountsAfterDisconnect | src/dbus/qdbusintegrator.cpp:2119-2131 | one hook less, one use less, and the rule goes with the last |
| SignalRegistry.WatchedAfterNewRule | src/dbus/qdbusintegrator.cpp:2062-2073 | a new rule counts once for the service it names, and for no other |
| SignalRegistry.WatchedAfterLastUse | src/dbus/qdbusintegrator.cpp:2142-2149 | a withdrawn rule is discounted for its service, which goes with its last rule |
| SignalRegistry.ConnectNewRule | src/dbus/qdbusintegrator.cpp:2041-2078 | storing a hook with a new rule keeps the whole registry consistent with the bus |
| SignalRegistry.ConnectAnotherUse | src/dbus/qdbusintegrator.cpp:2047-2052 | storing a hook whose rule is known keeps the registry consistent without telling the bus |
| SignalRegistry.DiscountLastUse | src/dbus/qdbusintegrator.cpp:2115-2156 | taking the last use of a rule keeps the registry consistent, and that rule is never the prepopulated one |
| SignalRegistry.BusStaysWatched | src/dbus/qdbusintegrator.cpp:964-970 | the entry of the bus is at least 1, and at least 2 while any other rule names the bus: it never drops to 0 |
| BusConnection.BusConnection.constructor | src/dbus/qdbusintegrator.cpp:950-971 | a new connection is consistent, with the two hooks of setConnection outside the counts |
| BusConnection.BusConnection.FindEntry | src/dbus/qdbusintegrator.cpp:2022-2035 | the search finds an equal subscription if there is one |
| BusConnection.BusConnection.ConnectHook | src/dbus/qdbusintegrator.cpp:2041-2078 | a hook is added and nothing else changes for the application; all counts, watches and rules stay in step; a service watched before settles exactly if it did or changes hands meanwhile, a new one exactly if the answer would have settled or it changes hands meanwhile |
| BusConnection.BusConnection.StartWatching | src/dbus/qdbusintegrator.cpp:2064-2072 | subscribe, then ask: the internal hook is installed and other services keep their owners |
| BusConnection.BusConnection.WatchOwner | src/dbus/qdbusintegrator.cpp:2284-2295 | the new cache entry settles exactly if the queued changes agree with the bus now or the service changes hands meanwhile, and every other one exactly if it did or changes hands meanwhile |
| BusConnection.BusConnection.EveryWatchReports | src/dbus/qdbusintegrator.cpp:2066-2070 | the rules held by the bus select every owner change of every watched service |
| BusConnection.BusConnection.ConnectSignal | src/dbus/qdbusintegrator.cpp:2008-2039 | one hook more unless an equal one exists or the slot is bad, and the effect on every cached owner |
| BusConnection.DuplicateExactly | src/dbus/qdbusintegrator.cpp:2022-2035 | two subscriptions are duplicates if and only if they do not differ in member, interface, service, path, signature, receiver, slot or arguments, with null taken for empty |
| BusConnection.EmptyTakenForNull | src/dbus/qdbusintegrator.cpp:2022-2035 | for any quote-free subscription, one with an empty argument and one with a null argument are duplicates with different rules |
| BusConnection.BusConnection.DisconnectHook | src/dbus/qdbusintegrator.cpp:2114-2156 | exactly this hook is removed, and with it whatever only it needed: rule, watch and internal hook |
| BusConnection.BusConnection.StopWatching | src/dbus/qdbusintegrator.cpp:2144-2149 | the nested disconnect always finds the internal hook of a dropped service |
| BusConnection.BusConnection.DisconnectSignal | src/dbus/qdbusintegrator.cpp:2080-2112 | removes one equal hook if there is one, says whether it did, and changes no remaining owner |
| BusConnection.BusConnection.Connect | src/dbus/qdbusconnection.cpp:647-676 | true exactly for valid names and a slot that exists, and then at most one hook is added: always if the subscription differs from every stored one |
| BusConnection.BusConnection.Disconnect | src/dbus/qdbusconnection.cpp:720-733 | true exactly if an equal hook was there, which is then gone |
| BusConnection.BusConnection.ConnectRelay | src/dbus/qdbusintegrator.cpp:2200-2229 | as connectSignal, but arguments do not make a difference |
| BusConnection.BusConnection.ConnectNotify | src/dbus/qdbusabstractinterface.cpp:566-582 | a proxy relays a signal exactly if its names are valid, the signal is its own and no such relay exists |
| BusConnection.BusConnection.DisconnectRelay | src/dbus/qdbusintegrator.cpp:2231-2263 | removes one relay that is equal but for arguments, if there is one |
| BusConnection.BusConnection.DisconnectNotify | src/dbus/qdbusabstractinterface.cpp:588-599 | one relay of a valid proxy goes, if there is one |
| BusConnection.BusConnection.ObjectDestroyed | src/dbus/qdbusintegrator.cpp:1129-1143 | exactly the hooks of the destroyed object are removed, and the registry stays consistent |
| BusConnection.BusConnection.HandleKey | src/dbus/qdbusintegrator.cpp:1494-1537 | every accepting hook under the key is reached once, and the cached owner follows a genuine owner change |
| BusConnection.BusConnection.HandleSignal | src/dbus/qdbusintegrator.cpp:1539-1562 | the three lookups together reach each accepting hook of the application exactly once, although cached owners change in between; one with a signature, empty or not, only for the very same signature |
| BusConnection.ReachedExactly | src/dbus/qdbusintegrator.cpp:1539-1562 | a signal reaches exactly the accepting hooks of the application stored for its member and interface, or for one of them alone |
| BusConnection.BusConnection.Dispatch | src/dbus/qdbusintegrator.cpp:1092-1097 | dispatching one signal reaches the right hooks and neither spoils nor repairs the settling of any service |
| BusConnection.BusConnection.DispatchAll | src/dbus/qdbusintegrator.cpp:1187-1200 | when the queue is empty, exactly the caches that were bound to settle equal the owners the bus has |
| ConnectionRuns.Step | src/dbus/qdbusintegrator.cpp:2008-2156 | every command of the application, other clients or the event loop keeps the registry consistent and has the stated effect on owners, caches and queue |
| ConnectionRuns.Run | src/dbus/qdbusintegrator.cpp:2062-2073 | after any run and a drained queue, a watched service has its true owner cached if and only if the history of the run does not leave it unsettled |
| RunHistory.EffectOnCaches | src/dbus/qdbusintegrator.cpp:2062-2073 | in one command, a watched service settles exactly if it did before or changes hands, and a newly watched one exactly if no queued change contradicts the answer of the bus or it changes hands |
| RunHistory.UnsettledExactly | src/dbus/qdbusintegrator.cpp:2062-2073 | over a whole history, the services that do not settle are those watched anew over a contradicting queued change that have neither changed hands nor been dropped since |
| RunHistory.UnsettledChangedBefore | src/dbus/qdbusintegrator.cpp:2284-2295 | only a service that changed hands before a subscription to it can be among them |
| RunHistory.DrainedAnswerSettles | src/dbus/qdbusintegrator.cpp:1187-1200 | once the changes of a service have been dispatched, watching it anew is safe |
| ConnectionRuns.HookIsPrepared | src/dbus/qdbusintegrator.cpp:2008-2039 | every hook of the application in a consistent state was made for some subscription with a validated interface, with its key and its rule |
| ConnectionRuns.PostedIffSelected | src/dbus/qdbusintegrator.cpp:1494-1562 | in every consistent state with the right owner cached, a stored hook of a quote-free subscription is reached by a signal if and only if the rule held for it selects the signal, up to signature, number and type of arguments |
| ConnectionRuns.NothingLeft | src/dbus/qdbusintegrator.cpp:2114-2156 | without hooks of the application there are no rules on the bus and only the bus is watched |
| ConnectionRuns.RewatchWithChangeQueued | src/dbus/qdbusintegrator.cpp:2284-2295 | a reachable state with an empty queue and a wrong cached owner |
| WireTypes.ReadSignature | src/dbus/qdbusutil.cpp:478-482 | the signature of a type is read back as this type, whatever follows it |
| WireTypes.ValidSingleSignatures | src/dbus/qdbusutil.cpp:478-482 | the accepted texts are exactly the signatures of complete types within the limits of the D-Bus Specification |
| WireTypes.UniquelyDecodable | src/dbus/qdbusintegrator.cpp:650-664 | a sequence of complete types is determined by the concatenation of its signatures |
| WireValues.ClosedAgain | src/dbus/qdbusmarshaller.cpp:506-526 | a container opened with the signature taken from the source and filled with the same items is the same value, empty arrays included |
| WireValues.FixedArrayCopied | src/dbus/qdbusmarshaller.cpp:485-503 | reading a fixed array and appending it gives the same items |
| Marshalling.Demarshaller.ToVariantInternal | src/dbus/qdbusdemarshaller.cpp:222-285 | reads one value, whatever its type, and moves on by exactly one |
| Marshalling.Demarshaller.ToStringListUnchecked | src/dbus/qdbusdemarshaller.cpp:300-311 | the list of all strings of the array, in order |
| Marshalling.FromDBusMessage | src/dbus/qdbusmessage.cpp:201-223 | one argument for each value of the body, in order |
| Marshalling.Marshaller.AppendVariantInternal | src/dbus/qdbusmarshaller.cpp:335-460 | appends what the value stands for, or notes an error, or neither for an unnegotiated descriptor |
| Marshalling.Marshaller.AppendDBusVariant | src/dbus/qdbusmarshaller.cpp:155-193 | a variant of the signature and the value inside; in signature mode just its type |
| Marshalling.Marshaller.AppendCrossMarshalling | src/dbus/qdbusmarshaller.cpp:469-527 | always succeeds, advances the source by one value and appends an equal value of the same type |
| Marshalling.Marshaller.CopyContainer | src/dbus/qdbusmarshaller.cpp:506-527 | the general path has the same contract for every container, so the short cut for fixed arrays changes nothing |
| Marshalling.ToDBusMessage | src/dbus/qdbusmessage.cpp:154-173 | the values of all arguments in order after an error text, or nothing if one could not be written |
| Variants.ValueRoundTrip | src/dbus/qdbusdemarshaller.cpp:222-285 | a value read and written again is the same value if it survives, and an error if it does not |
| Variants.BodyRoundTrip | src/dbus/qdbusmessage.cpp:156-164 | a decoded body encodes to the same body if and only if all its values survive |
| TypeSignatures.DefaultSpellsType | src/dbus/qdbusargument.cpp:48-63 | run on a default value in signature mode, the operator of a regular type spells the type of its values |
| TypeSignatures.OnlyRegularIsSpelled | src/dbus/qdbusargument.cpp:48-63 | conversely, a type with complete values whose operator spells the type of its values is regular |
| TypeSignatures.KnownSpellsType | src/dbus/qdbusargument.cpp:65-82 | of the regular types the guard lets exactly those through that are within the limits and redefine neither byte arrays nor string lists, with the right signature |
| TypeSignatures.OnlyKnownIsSpelled | src/dbus/qdbusargument.cpp:65-82 | of all types with complete values, regular or not, exactly the known ones get the signature of their values |
| TypeSignatures.WrittenIsWellTyped | src/dbus/qdbusmarshaller.cpp:210-298 | what is written for a value of a regular type is well formed and of the type that was spelled |
| TypeSignatures.RefusedElementType | src/dbus/qdbusargument.cpp:65-80 | a list of any refused type followed by any regular type in a struct gets the signature of a struct with one array of the latter |
| TypeRegistry.RunWrites | src/dbus/qdbusmarshaller.cpp:210-324 | into a message an operator appends the one value and nothing else, or reports an error |
| TypeRegistry.RunSpells | src/dbus/qdbusmarshaller.cpp:38-46 | into a buffer, and for the default value, it appends the type codes only |
| TypeRegistry.WrittenAsAnnounced | src/dbus/qdbusargument.cpp:48-82 | for a type the guard let through, the signature found from the default value is the signature of every value written later |
| TypeRegistry.MetaTypes.TypeToSignature | src/dbus/qdbusmetatype.cpp:347-425 | with or without a cached entry, the signature is the same, it is in the table afterwards, and the table stays right |
| TypeRegistry.MetaTypes.CreateSignature | src/dbus/qdbusargument.cpp:48-82 | the recursive creation of signatures for nested types ends with the specified one |
| TypeRegistry.MetaTypes.Marshal | src/dbus/qdbusargument.h:228-283 | the operator does in either mode what its description says |
| TypeRegistry.MetaTypes.MarshalMap | src/dbus/qdbusmarshaller.cpp:230-266 | a map whose key type is not basic is an error; otherwise all entries are written under the combined signature |
| SlotMatching.GuardKeepsTable | src/dbus/qdbusargument.cpp:65-80 | what createSignature returns is empty or the signature of an array or struct that is not a byte array or string list |
| SlotMatching.ParametersForMethod | src/dbus/qdbusmisc.cpp:93-148 | accepts exactly values, then at most one message, then references, all of known types, counts the inputs, and lists the types up to the first parameter that does not fit |
| SlotMatching.SpellsSignature | src/dbus/qdbusintegrator.cpp:650-664 | giving up at the first misfit compares the whole reconstructed signature |
| SlotMatching.FindMetaSlot | src/dbus/qdbusintegrator.cpp:612-702 | the last method that matches by name, access, kind, shape, signature, outputs and flags, or -1 if none does, and then the types of the candidate looked at last |
| SlotMatching.OutputsHaveSignatures | src/dbus/qdbusintegrator.cpp:673-678 | the output types all have signatures, so testing the first one repeatedly does no harm |
| SlotMatching.DeliverCall | src/dbus/qdbusintegrator.cpp:845-913 | the program is aborted exactly if an argument fits neither directly nor by demarshalling; otherwise there is one place for each meta type, with the right contents |
| SlotMatching.SlotFitsSignature | src/dbus/qdbusintegrator.cpp:644-668 | a chosen slot has the types of the message one for one up to the first input type that was refused a signature, and altogether if and only if none was |
| SlotMatching.CallAborts | src/dbus/qdbusintegrator.cpp:852-893 | any chosen slot aborts the program if and only if some argument does not fit the input parameter at its place, and before the first refused type only a descriptor that was not negotiated does not fit |
| SlotMatching.CallReachesSlot | src/dbus/qdbusintegrator.cpp:852-913 | a chosen slot without refused input types aborts the program exactly if a file descriptor comes that was not negotiated; otherwise every argument reaches its parameter, and the message comes right after the arguments |
| SlotMatching.UserTypeOfValue | src/dbus/qdbusdemarshaller.cpp:222-285 | the user type of a received value is determined by its type on the wire |
| SlotMatching.RefusedTypeAborts | src/dbus/qdbusintegrator.cpp:863-893 | the slot f(Refused, int) is chosen for one integer and aborts the program; f(int, Refused) is chosen too and does not |
| CallArguments.TableOfIsOk | src/dbus/qdbusmetatype.cpp:347-425 | the table of all signatures found for registered types holds only empty or registrable ones |
| CallArguments.DecodedTypes | src/dbus/qdbusmessage.cpp:201-223 | the arguments decoded from a body have, in order, the user types of its values |
| CallArguments.HandOver | src/dbus/qdbusintegrator.cpp:845-893 | a message decoded and handed to a slot chosen by its signature aborts the program if and only if some value does not fit its parameter - without refused input types, if and only if a descriptor was not negotiated - and otherwise each argument is passed in its place |
| MetaObjectTable.ClassNames | src/dbus/qdbusmetaobject.cpp:338-342 | a class is named like its interface with "::" for every dot, or QDBusInterface |
| MetaObjectTable.WriteMethod | src/dbus/qdbusmetaobject.cpp:392-426 | the ten cells and the type lists of a method are right, the cursors move to their ends, and no other cell changes |
| MetaObjectTable.WriteMap | src/dbus/qdbusmetaobject.cpp:386-428 | all methods written so far stay readable while the three cursors advance |
| MetaObjectTable.WriteProperties | src/dbus/qdbusmetaobject.cpp:434-456 | both property cursors end where the next regions begin, and all properties are described |
| MetaObjectTable.Write | src/dbus/qdbusmetaobject.cpp:333-471 | the table is filled exactly, the assertions hold, the cell for no type is zero, and every region describes its entry |
| MetaObjectTable.MethodsReadBack | src/dbus/qdbusmetaobject.cpp:583-631 | each accessor returns the name, signatures or types of the entry with this number, signals first, and nothing outside the range |
| MetaObjectTable.PropertiesReadBack | src/dbus/qdbusmetaobject.cpp:633-641 | the type of the property with this number, and zero outside the range |
| ObjectPaths.TextOfNames | src/dbus/qdbusutil.cpp:407-425 | the text of any list of valid names is a valid object path, and its names are these |
| ObjectPaths.NamesOfText | src/dbus/qdbusutil.cpp:407-425 | the names of a valid object path are valid, and written out they are the path again |
| ObjectPaths.ComponentsInjective | src/dbus/qdbusconnection.cpp:754-756 | two valid object paths have the same names if and only if they are the same |
| ObjectTree.LowerBound | src/dbus/qdbusconnection.cpp:782-784 | the binary search finds the place where a name is or belongs |
| ObjectTree.RegisterIn | src/dbus/qdbusconnection.cpp:759-813 | registers if and only if the place is free, no non-root node on the way exports its children and an exporter has no nodes below; then exactly one binding is added, otherwise the tree is the same |
| ObjectTree.UnregisterIn | src/dbus/qdbusconnection.cpp:827-859 | removes the binding at the path, or all bindings from the path on, and no other |
| ObjectTree.ObjectAt | src/dbus/qdbusconnection.cpp:877-899 | walking down the tree is looking up the map |
| ObjectTree.NothingBelowExporter | src/dbus/qdbusconnection.cpp:769-799 | below a non-root exporter of child objects nothing is registered |
| ObjectTree.RegisterBelowExportingRoot | src/dbus/qdbusconnection.cpp:769-799 | below a root that exports its child objects any valid path can be registered and is found again, while the walk of a call to it ends at the root |
| ObjectTree.CleanedBindsTheSame | src/dbus/qdbusintegrator.cpp:2159-2169 | removing deleted nodes changes no binding and keeps the children sorted |
| ObjectTree.CleanedAreUsed | src/dbus/qdbusintegrator.cpp:2159-2169 | exactly the children without an object and without children are removed |
| ObjectTree.Cleanup | src/dbus/qdbusintegrator.cpp:2159-2169 | the loop that erases through an iterator leaves what the specification leaves |
| ObjectTree.HuntedUnbinds | src/dbus/qdbusintegrator.cpp:567-578 | exactly the bindings of the object are removed |
| ObjectTree.HuntAndDestroy | src/dbus/qdbusintegrator.cpp:567-578 | the recursion reaches every node |
| ObjectTree.EmitsOnceEach | src/dbus/qdbusintegrator.cpp:580-610 | a signal is sent exactly once at each path bound to the object with flags that allow it |
| ObjectTree.HuntAndEmit | src/dbus/qdbusintegrator.cpp:580-610 | the paths sent are these, written out from the root |
| ObjectTree.SentExactly | src/dbus/qdbusintegrator.cpp:580-610 | from the root, the paths sent are exactly the valid object paths at which the object is bound with flags that allow it, each once |
| ObjectTree.RegisteredObjects.RelaySignal | src/dbus/qdbusintegrator.cpp:1176-1184 | a signal is sent exactly at the valid paths where the object is registered with adaptors, scriptable signals or other signals exported, as the signal comes from an adaptor, is scriptable or neither, each once |
| ObjectTree.WalkStops | src/dbus/qdbusintegrator.cpp:428-449 | the walk ends at the shallowest strict ancestor that exports its children, or at the end of the path |
| ObjectTree.FindObject | src/dbus/qdbusintegrator.cpp:414-463 | finds the node where the walk ends unless it is unused, and the used length leaves exactly the remaining names |
| ObjectTree.RegisteredObjects.RegisterObject | src/dbus/qdbusconnection.cpp:747-814 | adds exactly this binding or changes nothing; every twentieth time it cleans up, which changes no binding |
| ObjectTree.RegisteredObjects.UnregisterObject | src/dbus/qdbusconnection.cpp:822-859 | frees the path, or the path and all below it |
| ObjectTree.RegisteredObjects.ObjectRegisteredAt | src/dbus/qdbusconnection.cpp:866-899 | the object bound to the path, if any |
| SlotCache.ChosenHasItsFlag | src/dbus/qdbusintegrator.cpp:683-694 | a chosen method suits the call, and of the four flags for scriptable and other slots and invokable methods its own is among those of the registration |
| SlotCache.ChosenByItsFlag | src/dbus/qdbusintegrator.cpp:683-694 | a method that suits a call and is the only one of its name is chosen if and only if its own flag is given |
| SlotCache.HasSlotExactly | src/dbus/qdbusintegrator.cpp:804-816 | there is a slot if and only if an open method suits the call, or the last open one that suits no arguments takes the bare message |
| SlotCache.MisledExactly | src/dbus/qdbusintegrator.cpp:812-824 | the leftover types pass for a method with the bare message if and only if the first method of this name has a message as first parameter and then nothing, or something that cannot follow |
| SlotCache.UnexportedSlotMisleads | src/dbus/qdbusintegrator.cpp:812-824 | a slot that takes the bare message but is not exported misleads the search for every signature |
| SlotCache.KeyDetermines | src/dbus/qdbusintegrator.cpp:789-794 | a key of the cache stands for one member and one signature |
| SlotCache.CachedIsFresh | src/dbus/qdbusintegrator.cpp:796-800 | what is remembered for a call is what a search would find |
| SlotCache.StaysFresh | src/dbus/qdbusintegrator.cpp:817-828 | remembering a search keeps the whole cache so |
| CallDispatch.CallDispatcher.ActivateCall | src/dbus/qdbusintegrator.cpp:755-841 | delivers to a slot if there is one for the signature or for the bare message, remembered or not; otherwise to nobody if the search is misled for the first time, and else does nothing |
| CallDispatch.AnsweredByNobody | src/dbus/qdbusintegrator.cpp:812-840 | a call that misleads the search gets the answer of a slot the first time and none the second |
| CallDispatch.CallDispatcher.FindChildObject | src/dbus/qdbusintegrator.cpp:465-506 | follows the remaining names through the children of objects |
| CallDispatch.CallDispatcher.TryAdaptors | src/dbus/qdbusintegrator.cpp:1350-1377 | the first adaptor that can, or the one with the interface, answers; otherwise nothing happens |
| CallDispatch.CallDispatcher.ActivateInternalFilters | src/dbus/qdbusintegrator.cpp:1285-1329 | introspection and properties answer once, errors included, or leave the call alone |
| CallDispatch.CallDispatcher.ActivateObject | src/dbus/qdbusintegrator.cpp:1331-1403 | on every path through the cascade the call takes one route, with one answer unless the slot answers itself or no answer is wanted |
| CallDispatch.AdaptorAnswers | src/dbus/qdbusintegrator.cpp:1360-1376 | a call for the interface of an exported adaptor is answered by its slot, whatever internal interfaces and object could do |
| CallDispatch.AdaptorFails | src/dbus/qdbusintegrator.cpp:1360-1376 | and fails if that adaptor has no slot for it |
| CallDispatch.AnyAdaptorAnswers | src/dbus/qdbusintegrator.cpp:1349-1359 | a call for no interface is answered by the first adaptor with a slot for it |
| CallDispatch.InternalAnswers | src/dbus/qdbusintegrator.cpp:1285-1329 | where no adaptor takes a call, introspection and properties answer before the object |
| CallDispatch.ObjectAnswers | src/dbus/qdbusintegrator.cpp:1385-1396 | where none of these takes a call for no interface or one of the object, a method of the object that suits it and is open by its own flag answers |
| CallDispatch.ObjectFails | src/dbus/qdbusintegrator.cpp:1385-1396 | an object that exports something but has no slot for the call answers that the method is unknown |
| CallDispatch.ObjectIsClosed | src/dbus/qdbusintegrator.cpp:1385-1402 | with none of the four flags, or for an interface the object does not have, its methods never get the call |
| CallDispatch.NobodyThere | src/dbus/qdbusintegrator.cpp:1340-1347 | names that lead to no child object are answered with an unknown object |
| CallDispatch.CallDispatcher.HandleObjectCall | src/dbus/qdbusintegrator.cpp:1405-1467 | a call is answered, delivered, or waits in exactly one event |
| CallDispatch.CallDispatcher.DeliverEvent | src/dbus/qdbusintegrator.cpp:1481-1492 | a delivered event takes its call along its route, once, in whatever state the tree and the objects are by then |
| CallDispatch.CallDispatcher.DestroyEvent | src/dbus/qdbusintegrator.cpp:1469-1479 | an event destroyed undelivered answers with an error |
| CallDispatch.CallDispatcher.DestroyObject | src/dbus/qdbusintegrator.cpp:1129-1143 | a destroyed object loses its bindings and its caches, its events answer with errors in order, and everything else stays |
| CallDispatch.Run | src/dbus/qdbusintegrator.cpp:1405-1492 | over any run in which calls come in, events are delivered, and the tree and the objects change or go, every call that expects an automatic answer ends up with exactly one for each time it came in |
| CallDispatch.CallDispatcher.AnsweredExactlyOnce | src/dbus/qdbusintegrator.cpp:934-947 | without events in the queue, a call that expects an automatic answer has exactly one for each time it came in |
| CallDispatch.TakenIsBalanced | src/dbus/qdbusintegrator.cpp:1285-1492 | calls answered, calls in events and calls left to their slots together are the calls received |
| PendingCall.BegunOk | src/dbus/qdbusintegrator.cpp:1936-1993 | the counts a call starts with, sent or failed, with or without callback, satisfy the invariant |
| PendingCall.StepKeepsInv | src/dbus/qdbusintegrator.cpp:1695-1774 | every step of every thread keeps the invariant |
| PendingCall.EveryRun | src/dbus/qdbusintegrator.cpp:1695-1774 | under every interleaving the count is handles plus one while the reply is unprocessed, the call is freed exactly when unused, its libdbus handle is released once, and waiting threads return with a checked reply |
| PendingCall.ReplySeen | src/dbus/qdbusintegrator.cpp:1722-1742 | under every interleaving, a thread that comes back saw the reply that was read, if it is an error, nothing was expected or it begins with the expected signature, and an error otherwise; for a call that could not be sent, the failure; and nobody comes back without a reply |
| PendingCall.HandlesCounted | src/dbus/qdbuspendingcall.cpp:231-250 | over every run, handles are the first one, constructed once, and the copies made and not dropped |
| PendingCall.ThreadsGetReply | src/dbus/qdbusintegrator.cpp:1695-1774 | there is a run in which one thread blocks, another sleeps, both come back with the reply, and dropping both handles frees the call |
| PendingCall.DispatcherGetsReply | src/dbus/qdbusintegrator.cpp:1686-1693 | there is a run in which the dispatcher reads the reply and a thread that asks later has it at once |
| PendingCall.WaitersFindPending | src/dbus/qdbuspendingcall.cpp:217-225 | a thread that finds no reply finds a libdbus handle, as waitForFinished asserts |
| PendingCall.NeverCancelled | src/dbus/qdbuspendingcall.cpp:112-119 | the destructor never has a pending call to cancel |
| PendingCall.WaitersGoOn | src/dbus/qdbusintegrator.cpp:1700-1720 | once the reply has been processed, waiting threads are never stuck |
| PendingCall.NeverStuck | src/dbus/qdbusintegrator.cpp:1700-1720 | before that, as long as somebody waits, some thread or the dispatcher can bring the reply nearer |
| Timeouts.TimeoutHandler.AddTimeoutFrom | src/dbus/qdbusintegrator.cpp:122-146 | an enabled timeout is running afterwards if it comes from the right thread, and otherwise the last pending one |
| Timeouts.TimeoutHandler.RealAddTimeout | src/dbus/qdbusintegrator.cpp:148-158 | the timeout runs with a timer of its own; it did not before |
| Timeouts.TimeoutHandler.RemoveTimeout | src/dbus/qdbusintegrator.cpp:160-201 | the timeout is neither pending nor running any more, the others run as before, and its timer is killed at once from the right thread and otherwise by an event |
| Timeouts.TimeoutHandler.ToggleTimeout | src/dbus/qdbusintegrator.cpp:203-212 | removed and, if enabled, placed once again |
| Timeouts.TimeoutHandler.DeliverEvent | src/dbus/qdbusintegrator.cpp:1058-1078 | delivering an event keeps every active timeout in exactly one place and the live timers accounted for |
| Timeouts.TimeoutHandler.DeliverAll | src/dbus/qdbusintegrator.cpp:1058-1078 | with no event left, the live timers are the running ones and the running timeouts are the active ones |
| Timeouts.TimeoutHandler.TimerEvent | src/dbus/qdbusintegrator.cpp:1046-1056 | only a timeout that is active is ever handled |
| Timeouts.TimeoutRemoved | src/dbus/qdbusintegrator.cpp:172-200 | one removal leaves every other timeout where it was |
| SvgStyles.FillStyle.Apply | src/svg/qsvgstyle.cpp:101-117 | saves brush, rule and opacity and changes only what the style sets |
| SvgStyles.FillStyle.Revert | src/svg/qsvgstyle.cpp:119-127 | restores only what the style set |
| SvgStyles.FontStyle.Apply | src/svg/qsvgstyle.cpp:187-221 | saves the font and changes exactly the parts that are set; weights stay between 100 and 900 if they were and absolute ones are |
| SvgStyles.RelativeWeights | src/svg/qsvgstyle.cpp:210-214 | relative weights stay between 100 and 900, go the right way, and undo each other in between |
| SvgStyles.WeightClasses | src/svg/qsvgstyle.cpp:167-185 | SVG weights fall into the five classes of Qt, and anything else is normal |
| SvgStyles.StrokeStyle.Apply | src/svg/qsvgstyle.cpp:252-336 | saves the pen and the states, and determines every attribute of the new pen: those that are set, style and dash offset, and dashes that are its own, inherited or lost |
| Pens.CopiedPen.SetDashPattern | src/gui/painting/qpen.cpp:433-446 | a new pattern makes a custom dash line of even length; an empty one, or the one the pen has, changes nothing |
| SvgStyles.StrokeStyle.TargetIsArray | src/svg/qsvgstyle.cpp:292-306 | whether scaled when it is given or when it is applied, a dash array times the width it is measured in comes to the lengths given |
| SvgStyles.StrokeStyle.GivenDashesAreDrawn | src/svg/qsvgstyle.cpp:292-306 | a dash array is drawn with the lengths given if and only if its pattern is set, or the pen has dashes and no attribute of it changes |
| SvgStyles.StrokeStyle.InheritedDashes | src/svg/qsvgstyle.cpp:307-335 | without a dash array a pen loses its dashes if and only if none are set and some attribute of it changes; lengths are kept by rescaling only for a width too close to the old one to be taken over |
| SvgStyles.WidthAloneLosesDashes | src/svg/qsvgstyle.cpp:282-314 | a style that sets nothing but another width takes the dashes away |
| SvgStyles.GivenAgainIsLost | src/svg/qsvgstyle.cpp:295-317 | a dash array that is drawn is lost below where it is given again with another line cap |
| SvgStyles.OpacityStyle.Revert | src/svg/qsvgstyle.cpp:550-553 | restores the saved opacity, up to the clamping of the painter |
| SvgStyles.ThenMaps | src/svg/qsvgstyle.cpp:403-407 | applying one transformation on top of another maps every point by one and then the other |
| SvgStyles.ClampIsNearest | src/svg/qsvgstyle.cpp:550-553 | the opacity a painter takes is the one nearest to what it is given |
| SvgDrawing.ApplyStyle | src/svg/qsvgstyle.cpp:476-505 | all style objects remember the state before, what no property sets is untouched, and painter and states look exactly as the properties make them one after the other |
| SvgDrawing.RevertStyle | src/svg/qsvgstyle.cpp:507-536 | everything but the brush is as before, and the brush is as stated |
| SvgDrawing.BrushOfNode | src/svg/qsvgstyle.cpp:507-515 | a node with fill and viewport fill restores the brush if and only if it was its own fill already; one that sets the brush once always does |
| SvgDrawing.LeavesBrush | src/svg/qsvgstyle.cpp:476-536 | a tree replaces the brush by the fill left behind last by a node that fills twice, below no node that sets the brush once, and otherwise keeps it |
| SvgDrawing.BrushComesBack | src/svg/qsvgstyle.cpp:476-536 | over a whole tree, the brush comes back if and only if the tree leaves nothing behind, or the same brush |
| SvgDrawing.FillsOnceLeavesNothing | src/svg/qsvgstyle.cpp:476-536 | in particular a tree in which nothing fills twice leaves nothing |
| SvgDrawing.DrawShape | src/svg/qsvggraphics.cpp:35-49 | paints the inside without a pen and, if the pen strokes, the outline without a brush, each with its own opacity, and leaves brush, pen and opacity as they were |
| SvgDrawing.DrawPolyline | src/svg/qsvggraphics.cpp:185-203 | the same for polylines, which are filled only with a brush |
| SvgDrawing.DrawLine | src/svg/qsvggraphics.cpp:122-132 | a line is painted with the stroke opacity if the pen has a width, and nothing is left behind |
| SvgDrawing.DrawText | src/svg/qsvggraphics.cpp:260-426 | the scaling and all spans of a text leave the painter as it was but for the brush of spans that fill twice; it is painted once, each span with its own format |
| SvgDrawing.DrawChosen | src/svg/qsvgstructure.cpp:142-198 | a switch draws and paints the first visible child whose conditions hold, and no other |
| SvgDrawing.MovedBack | src/svg/qsvggraphics.cpp:441-454 | moving the painter forth and back restores its transformation |
| SvgStyles.TranslatedMaps | src/svg/qsvggraphics.cpp:445-451 | a translated transformation moves every point before it maps it |
| SvgDrawing.Draw | src/svg/qsvgstructure.cpp:43-55 | drawing any tree leaves painter and states unchanged except for the brush, which is the stated function of the tree and the brush before, and paints exactly what is stated: figures in the state after their styles, shown children one after the other, the chosen child of a switch, and the link of a use with the painter moved |
| SvgDrawing.PaintsInOrder | src/svg/qsvgstructure.cpp:43-55 | a tree paints each figure that is reached once, in document order, with the commands of its kind, and nothing else |
| SvgDrawing.DrawCleanly | src/svg/qsvgstructure.cpp:43-55 | drawing a tree leaves the painter exactly as it was if and only if the tree leaves no other brush behind |

## Left out

- The list of names owned by the connection, kept by the two initial hooks: appending to and removing from a list.
- Peer and server mode, and connections without a bus: the counts are kept without rules or watches there.
- Receiver objects and slot lookup in `prepareHook`: the index of the slot and, for relays, the signature come as parameters; receivers are numbers.
- ConnectionRuns.Run: other clients do not take the name of the bus and the bus forges no signals; the reply to GetNameOwner is given as the owner at that moment.
- libdbus, sockets, threads and the event loop: queues, locks, value trees and timer identifiers stand for them; timers are assumed to start.
- QString conversions: texts are sequences of characters; the rule text is not narrowed to Latin-1.
- Marshalling.Marshaller.Close: an error in a container reaches the parent when the container is closed, not at once; the text of errors is not kept.
- Marshalling.Marshaller.AppendVariantInternal: variants that hold registered C++ types; `TypeRegistry.MetaTypes.Marshal` treats these where they are written directly.
- TypeRegistry.MetaTypes.Marshal: types whose operators write other sequences than a list, map or struct of their parts, and element types unknown to the type system.
- Reading registered types back, and the checks that detach a shared argument.
- The remaining parts of the header of a message and validation of names before sending.
- CallDispatch.CallDispatcher.ActivateCall: types registered after a lookup has been remembered, which the cache does not notice.
- CallDispatch.CallDispatcher.TryAdaptors: the binary search in the list of adaptors is a search by name, and building that list is not modelled.
- CallDispatch.CallDispatcher.HandleObjectCall: a local call from another thread waits for its event; waiting itself is not modelled. Member names are those libdbus lets through, which have no dots.
- CallDispatch.CallDispatcher.ChangeObject: an object keeps the adaptors it was created with.
- ObjectTree.RegisterIn: nodes are values that are rebuilt on the way back, not updated in place; the same holds for UnregisterIn, Cleanup and HuntAndDestroy.
- Connecting the signals of registered objects to their relays.
- PendingCall.EveryRun: watchers and their signals, delivery of the reply to a callback slot, and setting the expected signature after sending.
- The variant of sendWithReply that runs an event loop and deletes the call itself.
- Watches on file descriptors.
- Timeouts.TimeoutHandler.RealAddTimeout: the interval of a timeout is passed on to its timer and not looked at again.
- MetaObjectTable.Write: parsing of interface descriptions into the maps; the maps come as entries in key order.
- SvgDrawing.Draw: what painting commands put on the device (only the figure and the state of the painter at each command are stated), fill rules, text layout, bounds and gradient links; a painter keeps what it is given, as if fonts were not resolved against the device; videos, animations and nested documents.
- SvgDrawing.DrawChosen: the table of supported features and the system language are parameters.
- SvgStyles.Painter.SetPen: the short cut for a pen that QPen's comparison takes for the same.
- XML, property access, debug output, error names and servers: thin or easy.
