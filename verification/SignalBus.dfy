/** The bus as the connection sees it: the rules it holds, the owners of names, and the messages
    it has sent that are not dispatched yet. */
module SignalBus {
  import opened MatchRule
  import opened SignalFilter

  type Owners = map<string, string>

  function Owner(owners: Owners, name: string): string {
    if name in owners then owners[name] else ""
  }

  function SetOwner(owners: Owners, name: string, owner: string): Owners {
    if owner == "" then owners - {name} else owners[name := owner]
  }

  function OwnerChanged(name: string, oldOwner: string, newOwner: string): SignalMessage {
    SignalMessage(DBUS_SERVICE, "/org/freedesktop/DBus", DBUS_INTERFACE, "NameOwnerChanged", "sss",
      [Argument(name, true), Argument(oldOwner, true), Argument(newOwner, true)])
  }

  predicate IsOwnerChange(msg: SignalMessage, name: string) {
    && |msg.args| == 3
    && msg == OwnerChanged(name, msg.args[1].text, msg.args[2].text)
  }

  /** The cached owner of a name after one signal. */
  function OwnerAfter(msg: SignalMessage, name: string, cached: string): string {
    if IsOwnerChange(msg, name) then msg.args[2].text else cached
  }

  /** A signal has a member and an interface. The bus forges nothing: its own signals are the ones its
      interface documents, and it never becomes the owner of another name. */
  predicate Genuine(msg: SignalMessage) {
    && SenderOk(msg)
    && msg.member != "" && msg.interface != "" && ':' !in msg.interface
    && (msg.service == DBUS_SERVICE ==>
          || (|msg.args| == 3 && msg.args[0].text != DBUS_SERVICE && msg.args[2].text != DBUS_SERVICE
              && IsOwnerChange(msg, msg.args[0].text))
          || (msg.interface == DBUS_INTERFACE && msg.member in ["NameAcquired", "NameLost"] && |msg.args| == 1))
  }

  lemma ChangeIsGenuine(c: Change, owner: string)
    requires ChangeOk(c)
    ensures Genuine(OwnerChanged(c.name, owner, c.owner))
  {
    InterfaceHasNoColon();
  }

  lemma InterfaceHasNoColon()
    ensures ':' !in DBUS_INTERFACE
  {}

  /** The owner a cached value becomes once the queue has been worked off. */
  function LastOwner(queue: seq<SignalMessage>, name: string, cached: string): string {
    if queue == [] then cached
    else LastOwner(queue[1..], name, OwnerAfter(queue[0], name, cached))
  }

  lemma {:induction false} LastOwnerAppend(queue: seq<SignalMessage>, msg: SignalMessage, name: string, cached: string)
    ensures LastOwner(queue + [msg], name, cached) ==
      OwnerAfter(msg, name, LastOwner(queue, name, cached))
  {
    if queue == [] {
      assert (queue + [msg])[1..] == [];
    } else {
      LastOwnerAppend(queue[1..], msg, name, OwnerAfter(queue[0], name, cached));
      assert (queue + [msg])[1..] == queue[1..] + [msg];
    }
  }

  /** Once the queue is worked off, a cached owner of a name will be the current owner. */
  predicate Settled(owners: Owners, queue: seq<SignalMessage>, name: string, cached: string) {
    LastOwner(queue, name, cached) == Owner(owners, name)
  }

  /** A change of the owner of a name has not been dispatched yet. */
  predicate ChangeQueued(queue: seq<SignalMessage>, name: string) {
    exists i :: 0 <= i < |queue| && IsOwnerChange(queue[i], name)
  }

  lemma ChangeQueuedAppend(queue: seq<SignalMessage>, msg: SignalMessage)
    ensures forall name :: ChangeQueued(queue + [msg], name) <==> ChangeQueued(queue, name) || IsOwnerChange(msg, name)
  {
    forall name ensures ChangeQueued(queue + [msg], name) <==> ChangeQueued(queue, name) || IsOwnerChange(msg, name) {
      var more := queue + [msg];
      assert more[|queue|] == msg;
      if ChangeQueued(queue, name) {
        var i :| 0 <= i < |queue| && IsOwnerChange(queue[i], name);
        assert IsOwnerChange(more[i], name);
      }
    }
  }

  predicate Wanted(rules: multiset<string>, owners: Owners, msg: SignalMessage) {
    exists r | r in rules :: RuleSelects(r, owners, msg)
  }

  datatype Change = Change(name: string, owner: string)

  predicate ChangeOk(c: Change) {
    c.name != DBUS_SERVICE && c.owner != DBUS_SERVICE
  }

  predicate Mentioned(changes: seq<Change>, name: string) {
    exists i :: 0 <= i < |changes| && changes[i].name == name
  }

  lemma MentionedStep(changes: seq<Change>, k: nat)
    requires k < |changes|
    ensures forall name :: Mentioned(changes[..k + 1], name) <==> name == changes[k].name || Mentioned(changes[..k], name)
  {
    var more, less := changes[..k + 1], changes[..k];
    forall name ensures Mentioned(more, name) <==> name == changes[k].name || Mentioned(less, name) {
      if Mentioned(less, name) {
        var i :| 0 <= i < |less| && less[i].name == name;
        assert more[i].name == name;
      }
      assert more[k] == changes[k];
      if Mentioned(more, name) && name != changes[k].name {
        var i :| 0 <= i < |more| && more[i].name == name;
        assert less[i].name == name;
      }
    }
  }

  /** The rules select every change of a name. */
  ghost predicate Reported(rules: multiset<string>, name: string) {
    forall o: Owners, a, b :: Wanted(rules, o, OwnerChanged(name, a, b))
  }

  /** What ownership changes by other clients do: a name with reported changes settles afterwards
      exactly when it settled before or changed hands; no other change is queued, and no other name
      changes hands. */
  ghost predicate Elapsed(rules: multiset<string>, o: Owners, q: seq<SignalMessage>, o': Owners,
    q': seq<SignalMessage>, changes: seq<Change>) {
    && (forall name, cached | Reported(rules, name) ::
          Settled(o', q', name, cached) <==> Settled(o, q, name, cached) || Mentioned(changes, name))
    && (forall name | ChangeQueued(q', name) :: ChangeQueued(q, name) || Mentioned(changes, name))
    && (forall name | !Mentioned(changes, name) :: Owner(o', name) == Owner(o, name))
  }

  lemma NoneElapsed(rules: multiset<string>, o: Owners, q: seq<SignalMessage>)
    ensures Elapsed(rules, o, q, o, q, [])
  {}

  lemma OneElapsed(rules: multiset<string>, o: Owners, q: seq<SignalMessage>, o': Owners,
    q': seq<SignalMessage>, c: Change)
    requires o' == SetOwner(o, c.name, c.owner)
    requires var msg := OwnerChanged(c.name, Owner(o, c.name), c.owner);
      q' == q + if Wanted(rules, o', msg) then [msg] else []
    ensures Elapsed(rules, o, q, o', q', [c])
  {
    hide Wanted, LastOwner;
    var msg := OwnerChanged(c.name, Owner(o, c.name), c.owner);
    assert [c][0].name == c.name;
    assert q + [] == q;
    ChangeQueuedAppend(q, msg);
    forall name, cached | Reported(rules, name)
      ensures Settled(o', q', name, cached) <==> name == c.name || Settled(o, q, name, cached)
    {
      LastOwnerAppend(q, msg, name, cached);
      assert name == c.name ==> Wanted(rules, o', msg);
    }
  }

  lemma MoreElapsed(rules: multiset<string>, o: Owners, q: seq<SignalMessage>, o1: Owners, q1: seq<SignalMessage>,
    o2: Owners, q2: seq<SignalMessage>, changes: seq<Change>, k: nat)
    requires k < |changes| && Elapsed(rules, o, q, o1, q1, changes[..k]) && Elapsed(rules, o1, q1, o2, q2, [changes[k]])
    ensures Elapsed(rules, o, q, o2, q2, changes[..k + 1])
  {
    hide Reported, Settled, ChangeQueued, Owner;
    forall name
      ensures Mentioned(changes[..k + 1], name) <==> Mentioned([changes[k]], name) || Mentioned(changes[..k], name)
    {
      MentionedStep(changes, k);
      assert [changes[k]][0] == changes[k];
    }
  }

  class Bus {
    var rules: multiset<string>
    var owners: Owners
    var queue: seq<SignalMessage>

    ghost predicate Valid()
      reads this
    {
      && DBUS_SERVICE !in owners
      && (forall n | n in owners :: owners[n] != DBUS_SERVICE && owners[n] != "")
      && forall i | 0 <= i < |queue| :: Genuine(queue[i])
    }

    constructor (owners: Owners)
      requires DBUS_SERVICE !in owners
      requires forall n | n in owners :: owners[n] != DBUS_SERVICE && owners[n] != ""
      ensures Valid() && this.owners == owners && rules == multiset{} && queue == []
    {
      this.owners, rules, queue := owners, multiset{}, [];
    }

    method AddMatch(rule: string)
      modifies this`rules
      ensures rules == old(rules) + multiset{rule}
    {
      rules := rules + multiset{rule};
    }

    method RemoveMatch(rule: string)
      modifies this`rules
      ensures rules == old(rules) - multiset{rule}
    {
      rules := rules - multiset{rule};
    }

    method GetNameOwner(name: string) returns (owner: string)
      ensures owner == Owner(owners, name)
    {
      owner := Owner(owners, name);
    }

    /** A name changes hands; whoever holds a rule that selects the signal is told. */
    method ChangeOwner(c: Change)
      requires Valid() && ChangeOk(c)
      modifies this`owners, this`queue
      ensures Valid() && owners == SetOwner(old(owners), c.name, c.owner)
      ensures var msg := OwnerChanged(c.name, Owner(old(owners), c.name), c.owner);
        queue == old(queue) + if Wanted(rules, owners, msg) then [msg] else []
    {
      hide Genuine, Wanted;
      ChangeIsGenuine(c, Owner(owners, c.name));
      var msg := OwnerChanged(c.name, Owner(owners, c.name), c.owner);
      owners := SetOwner(owners, c.name, c.owner);
      if Wanted(rules, owners, msg) {
        queue := queue + [msg];
      }
    }

    /** One ownership change by another client. */
    method ElapseOne(c: Change)
      requires Valid() && ChangeOk(c)
      modifies this`owners, this`queue
      ensures Valid() && Elapsed(rules, old(owners), old(queue), owners, queue, [c])
    {
      hide Wanted, LastOwner, Genuine, Elapsed;
      ghost var q, o := queue, owners;
      ChangeOwner(c);
      OneElapsed(rules, o, q, owners, queue, c);
    }

    /** Some ownership changes by other clients. */
    method Elapse(changes: seq<Change>)
      requires Valid() && forall i | 0 <= i < |changes| :: ChangeOk(changes[i])
      modifies this`owners, this`queue
      ensures Valid() && Elapsed(rules, old(owners), old(queue), owners, queue, changes)
      ensures changes == [] ==> owners == old(owners) && queue == old(queue)
    {
      hide Genuine, Elapsed;
      var k := 0;
      NoneElapsed(rules, owners, queue);
      assert changes[..0] == [];
      while k < |changes|
        invariant 0 <= k <= |changes| && Valid()
        invariant Elapsed(rules, old(owners), old(queue), owners, queue, changes[..k])
        invariant k == 0 ==> owners == old(owners) && queue == old(queue)
      {
        ghost var o, q := owners, queue;
        ElapseOne(changes[k]);
        MoreElapsed(rules, old(owners), old(queue), o, q, owners, queue, changes, k);
        k := k + 1;
      }
      assert changes[..k] == changes;
    }

    /** Any other signal that reaches the connection. */
    method Deliver(msg: SignalMessage)
      requires Valid() && Genuine(msg) && (msg.service == DBUS_SERVICE ==> msg.member != "NameOwnerChanged")
      modifies this`queue
      ensures Valid() && queue == old(queue) + [msg]
    {
      queue := queue + [msg];
    }

    method TakeFirst() returns (msg: SignalMessage)
      requires Valid() && queue != []
      modifies this`queue
      ensures Valid() && msg == old(queue)[0] && queue == old(queue)[1..]
    {
      msg, queue := queue[0], queue[1..];
    }
  }
}
