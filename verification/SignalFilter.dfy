/** Which hooks an incoming signal reaches, and how that relates to the rule sent to the bus. */
module SignalFilter {
  import opened QtText
  import opened MatchRule

  /** The connection itself, or an object of the application. */
  datatype Obj = Connection | Receiver(id: nat)

  datatype SignalHook = SignalHook(
    service: QString, path: QString, signature: QString,
    obj: Obj, midx: int, argumentMatch: seq<QString>, matchRule: string)

  datatype WatchedService = WatchedService(owner: string, refcount: nat)

  /** An argument with the text QVariant::toString gives for it. */
  datatype Argument = Argument(text: string, isString: bool)

  datatype SignalMessage = SignalMessage(
    service: string, path: string, interface: string, member: string,
    signature: string, args: seq<Argument>)

  predicate ShouldWatchService(service: string) {
    service != "" && service[0] != ':'
  }

  function Key(member: string, interface: string): string {
    member + ":" + interface
  }

  /** The three keys handleSignal looks up. */
  function Keys(msg: SignalMessage): seq<string> {
    [Key(msg.member, msg.interface), Key(msg.member, ""), Key("", msg.interface)]
  }

  function KnownOwner(watched: map<string, WatchedService>, service: string): string {
    if !ShouldWatchService(service) then service
    else if service in watched then watched[service].owner
    else ""
  }

  predicate ArgumentsMatch(wanted: seq<QString>, args: seq<Argument>) {
    |wanted| <= |args|
    && forall i | 0 <= i < |wanted| :: wanted[i].Null? || wanted[i].text == args[i].text
  }

  predicate SignatureMatches(signature: QString, got: string) {
    && (signature.IsEmpty() || signature.text == got)
    && (signature.IsEmpty() && !signature.Null? ==> got == "")
  }

  /** The filter of handleSignal, once a hook has been found under a key. */
  predicate Accepts(hook: SignalHook, watched: map<string, WatchedService>, msg: SignalMessage) {
    && (hook.service.IsEmpty() || KnownOwner(watched, hook.service.text) == msg.service)
    && (hook.path.IsEmpty() || hook.path.text == msg.path)
    && SignatureMatches(hook.signature, msg.signature)
    && (hook.argumentMatch == [] || ArgumentsMatch(hook.argumentMatch, msg.args))
  }

  /** The same in plain words: a constraint that is not empty must be met exactly, a signature that is
      empty but not null asks for an empty signature, and a null one for none in particular. */
  lemma AcceptedExactly(hook: SignalHook, watched: map<string, WatchedService>, msg: SignalMessage)
    ensures Accepts(hook, watched, msg) <==>
      && (match hook.service
          case Null => true
          case Str(name) =>
            name == ""
            || (name[0] == ':' && name == msg.service)
            || (name[0] != ':' && name in watched && watched[name].owner == msg.service)
            || (name[0] != ':' && name !in watched && msg.service == ""))
      && (match hook.path
          case Null => true
          case Str(path) => path == "" || path == msg.path)
      && (match hook.signature
          case Null => true
          case Str(signature) => signature == msg.signature)
      && |hook.argumentMatch| <= |msg.args|
      && (forall i | 0 <= i < |hook.argumentMatch| && hook.argumentMatch[i].Str? ::
            hook.argumentMatch[i].text == msg.args[i].text)
  {}

  /** handleSignal, for one hook. */
  method IsWanted(hook: SignalHook, watched: map<string, WatchedService>, msg: SignalMessage) returns (wanted: bool)
    ensures wanted == Accepts(hook, watched, msg)
  {
    if !hook.service.IsEmpty() {
      var owner := hook.service.text;
      if ShouldWatchService(owner) {
        owner := if owner in watched then watched[owner].owner else "";
      }
      if owner != msg.service {
        return false;
      }
    }
    if !hook.path.IsEmpty() && hook.path.text != msg.path {
      return false;
    }
    if !hook.signature.IsEmpty() && hook.signature.text != msg.signature {
      return false;
    }
    if hook.signature.IsEmpty() && !hook.signature.Null? && msg.signature != "" {
      return false;
    }
    if hook.argumentMatch != [] {
      if |hook.argumentMatch| > |msg.args| {
        return false;
      }
      var i := 0;
      while i < |hook.argumentMatch|
        invariant 0 <= i <= |hook.argumentMatch|
        invariant forall j | 0 <= j < i :: hook.argumentMatch[j].Null? || hook.argumentMatch[j].text == msg.args[j].text
      {
        var param := hook.argumentMatch[i];
        if !param.Null? && param.text != msg.args[i].text {
          return false;
        }
        i := i + 1;
      }
    }
    return true;
  }

  // ---------- the bus ----------

  predicate PairHolds(p: Pair, owners: map<string, string>, msg: SignalMessage) {
    if p.0 == "type" then p.1 == "signal"
    else if p.0 == "sender" then p.1 == msg.service || (p.1 in owners && owners[p.1] == msg.service)
    else if p.0 == "path" then p.1 == msg.path
    else if p.0 == "interface" then p.1 == msg.interface
    else if p.0 == "member" then p.1 == msg.member
    else exists i | 0 <= i < |msg.args| ::
      p.0 == ArgKey(i) && msg.args[i].isString && msg.args[i].text == p.1
  }

  /** Section "Match Rules" of the D-Bus Specification: every constraint must hold. */
  predicate Selects(pairs: seq<Pair>, owners: map<string, string>, msg: SignalMessage) {
    forall i | 0 <= i < |pairs| :: PairHolds(pairs[i], owners, msg)
  }

  predicate RuleSelects(rule: string, owners: map<string, string>, msg: SignalMessage) {
    var parsed := ParseRule(rule);
    parsed.Constraints? && Selects(parsed.pairs, owners, msg)
  }

  // ---------- keys ----------

  /** The interface has no colon, so the last colon of a key separates its two halves. */
  lemma KeyInjective(m: string, i: string, m': string, i': string)
    requires ':' !in i && ':' !in i'
    ensures Key(m, i) == Key(m', i') <==> m == m' && i == i'
  {
    var k, k' := Key(m, i), Key(m', i');
    assert k[|m|] == ':' && k'[|m'|] == ':';
    assert forall j | |m| < j < |k| :: k[j] == i[j - |m| - 1];
    assert forall j | |m'| < j < |k'| :: k'[j] == i'[j - |m'| - 1];
    assert k[..|m|] == m && k[|m| + 1..] == i;
    assert k'[..|m'|] == m' && k'[|m'| + 1..] == i';
  }

  /** An empty constraint is a wildcard. */
  predicate Names(wanted: string, got: string) {
    wanted == "" || wanted == got
  }

  /** A hook is stored under one of the three keys exactly when its member and interface fit,
      and the three keys differ, so the three lookups reach it at most once. */
  lemma KeyReached(member: string, interface: string, msg: SignalMessage)
    requires ':' !in interface && !(member == "" && interface == "")
    requires msg.member != "" && msg.interface != "" && ':' !in msg.interface
    ensures Key(member, interface) in Keys(msg) <==>
      Names(member, msg.member) && Names(interface, msg.interface)
    ensures var k := Keys(msg); k[0] != k[1] && k[1] != k[2] && k[0] != k[2]
  {
    KeyInjective(msg.member, msg.interface, member, interface);
    KeyInjective(msg.member, "", member, interface);
    KeyInjective("", msg.interface, member, interface);
    KeyInjective(msg.member, msg.interface, msg.member, "");
    KeyInjective(msg.member, msg.interface, "", msg.interface);
    KeyInjective(msg.member, "", "", msg.interface);
  }

  // ---------- the filter and the rule say the same ----------

  /** The hook prepareHook builds for a subscription. */
  predicate HookFor(hook: SignalHook, sub: Subscription) {
    && hook.service.Text() == sub.service
    && hook.path.Text() == sub.path
    && hook.argumentMatch == sub.args
    && hook.matchRule == RuleText(sub)
  }

  lemma SelectsAppend(a: seq<Pair>, b: seq<Pair>, owners: map<string, string>, msg: SignalMessage)
    ensures Selects(a + b, owners, msg) <==> Selects(a, owners, msg) && Selects(b, owners, msg)
  {
    if Selects(a + b, owners, msg) {
      forall i | 0 <= i < |a| ensures PairHolds(a[i], owners, msg) { assert (a + b)[i] == a[i]; }
      forall i | 0 <= i < |b| ensures PairHolds(b[i], owners, msg) { assert (a + b)[|a| + i] == b[i]; }
    }
  }

  lemma ArgPairHolds(i: nat, value: string, owners: map<string, string>, msg: SignalMessage)
    ensures PairHolds((ArgKey(i), value), owners, msg) <==>
      i < |msg.args| && msg.args[i].isString && msg.args[i].text == value
  {
    assert ArgKey(i)[0] == 'a';
    assert "type"[0] != 'a' && "sender"[0] != 'a' && "path"[0] != 'a' && "interface"[0] != 'a' && "member"[0] != 'a';
    forall j: nat | ArgKey(j) == ArgKey(i) ensures i == j {
      assert ArgKey(i)[3..] == Decimal(i) && ArgKey(j)[3..] == Decimal(j);
      DecimalInjective(i, j);
    }
  }

  lemma {:induction false} SelectsArgs(
    args: seq<QString>, from: nat, owners: map<string, string>, msg: SignalMessage)
    requires from <= |args|
    ensures Selects(ArgPairs(args, from), owners, msg) <==>
      forall i | from <= i < |args| ::
        args[i].Null? || (i < |msg.args| && msg.args[i].isString && msg.args[i].text == args[i].text)
    decreases |args| - from
  {
    if from < |args| {
      SelectsArgs(args, from + 1, owners, msg);
      SelectsAppend(ArgPair(args[from], from), ArgPairs(args, from + 1), owners, msg);
      if !args[from].Null? {
        ArgPairHolds(from, args[from].text, owners, msg);
        assert ArgPair(args[from], from)[0] == (ArgKey(from), args[from].text);
      }
    }
  }

  lemma SelectsSubscription(sub: Subscription, owners: map<string, string>, msg: SignalMessage)
    ensures Selects(Pairs(sub), owners, msg) <==>
      && (sub.service == "" || PairHolds(("sender", sub.service), owners, msg))
      && Names(sub.path, msg.path) && Names(sub.interface, msg.interface) && Names(sub.member, msg.member)
      && Selects(ArgPairs(sub.args, 0), owners, msg)
  {
    var a := [("type", "signal")] + FieldPair("sender", sub.service);
    var b := a + FieldPair("path", sub.path);
    var c := b + FieldPair("interface", sub.interface);
    var d := c + FieldPair("member", sub.member);
    SelectsAppend([("type", "signal")], FieldPair("sender", sub.service), owners, msg);
    SelectsAppend(a, FieldPair("path", sub.path), owners, msg);
    SelectsAppend(b, FieldPair("interface", sub.interface), owners, msg);
    SelectsAppend(c, FieldPair("member", sub.member), owners, msg);
    SelectsAppend(d, ArgPairs(sub.args, 0), owners, msg);
    FieldSelected("sender", sub.service, owners, msg);
    FieldSelected("path", sub.path, owners, msg);
    FieldSelected("interface", sub.interface, owners, msg);
    FieldSelected("member", sub.member, owners, msg);
  }

  lemma FieldSelected(key: string, value: string, owners: map<string, string>, msg: SignalMessage)
    ensures Selects(FieldPair(key, value), owners, msg) <==> value == "" || PairHolds((key, value), owners, msg)
  {
    if value != "" {
      assert FieldPair(key, value)[0] == (key, value);
    }
  }

  /** The cached owner of a service is the owner the bus has for it. */
  predicate OwnerKnown(service: string, watched: map<string, WatchedService>, owners: map<string, string>) {
    ShouldWatchService(service) ==>
      if service == DBUS_SERVICE then KnownOwner(watched, service) == DBUS_SERVICE && service !in owners
      else KnownOwner(watched, service) == if service in owners then owners[service] else ""
  }

  /** Messages come from a unique name or from the bus itself. */
  predicate SenderOk(msg: SignalMessage) {
    msg.service == DBUS_SERVICE || (msg.service != "" && msg.service[0] == ':')
  }

  /** The constrained arguments of a signal are strings, where it has them. */
  predicate StringsWhereConstrained(sub: Subscription, msg: SignalMessage) {
    forall i | 0 <= i < |sub.args| && i < |msg.args| :: sub.args[i].Null? || msg.args[i].isString
  }

  /** For a signal with valid names, a hook is reached and accepted exactly when its member, interface,
      sender, path, signature and arguments fit; compared with the rule as the bus reads it, the local
      filter is stricter in one point, as it wants an argument for every entry of the list, even a null
      one, and laxer in another, as it compares the text of arguments that are no strings. */
  lemma FilterAgreesWithRule(
    sub: Subscription, hook: SignalHook, msg: SignalMessage,
    watched: map<string, WatchedService>, owners: map<string, string>)
    requires HookFor(hook, sub) && QuoteFree(sub)
    requires ':' !in sub.interface && !(sub.member == "" && sub.interface == "")
    requires msg.member != "" && msg.interface != "" && ':' !in msg.interface
    requires SenderOk(msg) && OwnerKnown(sub.service, watched, owners)
    requires forall s | s in owners :: s != "" && s[0] == ':' ==> owners[s] == s
    ensures (Key(sub.member, sub.interface) in Keys(msg) && Accepts(hook, watched, msg) && StringsWhereConstrained(sub, msg))
      <==> (RuleSelects(hook.matchRule, owners, msg) && (hook.signature.Null? || hook.signature.text == msg.signature)
            && |sub.args| <= |msg.args|)
  {
    hide ParseRule, RuleText, ArgPairs, Selects, Keys, Key;
    RuleRoundTrip(sub);
    KeyReached(sub.member, sub.interface, msg);
    SelectsSubscription(sub, owners, msg);
    SelectsArgs(sub.args, 0, owners, msg);
  }

  /** Where the filter is laxer: it accepts a number whose text is the one asked for, and the rule does
      not select the signal. */
  lemma NumbersPassTheFilter(text: string, msg: SignalMessage, hook: SignalHook, watched: map<string, WatchedService>, owners: map<string, string>)
    requires '\'' !in text && msg.member != "" && msg.args == [Argument(text, false)] && '\'' !in msg.member
    requires hook == SignalHook(Null, Null, Null, Receiver(0), 0, [Str(text)],
      RuleText(Subscription("", "", "", msg.member, [Str(text)])))
    ensures Key(msg.member, "") in Keys(msg) && Accepts(hook, watched, msg) && !RuleSelects(hook.matchRule, owners, msg)
  {
    var sub := Subscription("", "", "", msg.member, [Str(text)]);
    RuleRoundTrip(sub);
    SelectsSubscription(sub, owners, msg);
    SelectsArgs(sub.args, 0, owners, msg);
    assert !(0 <= 0 < |msg.args| && msg.args[0].isString);
    assert sub.args[0] == Str(text);
  }
}
