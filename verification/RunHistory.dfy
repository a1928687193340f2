/** Histories of a connection: which commands there are, what each may do to the cached owners, and
    which caches a history leaves wrong. */
module RunHistory {
  import opened QtText
  import opened MatchRule
  import opened SignalFilter
  import opened SignalBus
  import opened OwnerCache

  datatype Command =
    | DoConnect(service: QString, path: QString, interface: string, name: string, args: seq<QString>,
                signature: QString, receiver: nat, midx: int, meanwhile: seq<Change>)
    | DoDisconnect(service: QString, path: QString, interface: string, name: string, args: seq<QString>,
                   signature: QString, receiver: nat, midx: int)
    | DoConnectRelay(service: QString, path: QString, interface: string, isDynamic: bool, name: string,
                     signature: QString, receiver: nat, midx: int, minMIdx: nat, meanwhile: seq<Change>)
    | DoDisconnectRelay(service: QString, path: QString, interface: string, isDynamic: bool, name: string,
                        signature: QString, receiver: nat, midx: int, minMIdx: nat)
    | DoDestroy(receiver: nat)
    | DoChange(change: Change)
    | DoDeliver(msg: SignalMessage)
    | DoDispatch
  {
    predicate Subscribes() {
      DoConnect? || DoConnectRelay?
    }
  }

  /** Other clients do not take the name of the bus, and the bus tells the truth. */
  predicate CommandOk(c: Command) {
    match c
    case DoConnect(_, _, _, _, _, _, _, _, meanwhile) => forall i | 0 <= i < |meanwhile| :: ChangeOk(meanwhile[i])
    case DoConnectRelay(_, _, _, _, _, _, _, _, _, meanwhile) => forall i | 0 <= i < |meanwhile| :: ChangeOk(meanwhile[i])
    case DoChange(change) => ChangeOk(change)
    case DoDeliver(msg) => Genuine(msg) && (msg.service == DBUS_SERVICE ==> msg.member != "NameOwnerChanged")
    case _ => true
  }

  /** What a command may do: the changes of other clients take place, a queued signal is worked off,
      and nothing else happens to owners, caches and queue. */
  ghost predicate Effect(v: View, c: Command, v': View) {
    match c
    case DoConnect(service, _, _, _, _, _, _, _, meanwhile) => Kept(v, v', service.Text(), meanwhile)
    case DoConnectRelay(service, _, _, _, _, _, _, _, _, meanwhile) => Kept(v, v', service.Text(), meanwhile)
    case DoChange(change) =>
      var msg := OwnerChanged(change.name, Owner(v.owners, change.name), change.owner);
      && v'.watched == v.watched
      && v'.owners == SetOwner(v.owners, change.name, change.owner)
      && (v'.queue == v.queue || v'.queue == v.queue + [msg])
      && (change.name in v.watched && change.name != DBUS_SERVICE ==> v'.queue == v.queue + [msg])
    case DoDeliver(msg) => v' == v.(queue := v.queue + [msg])
    case DoDispatch =>
      if v.queue == [] then v' == v
      else
        && v'.owners == v.owners && v'.queue == v.queue[1..] && v'.watched.Keys == v.watched.Keys
        && forall s | s in v.watched :: v'.watched[s].owner == OwnerAfter(v.queue[0], s, v.watched[s].owner)
    case _ => Dropped(v, v')
  }

  /** The names that change hands in the course of a command. */
  function Happened(v: View, c: Command, v': View): seq<Change> {
    match c
    case DoConnect(service, _, _, _, _, _, _, _, meanwhile) => if Starts(v, v', service.Text()) then meanwhile else []
    case DoConnectRelay(service, _, _, _, _, _, _, _, _, meanwhile) => if Starts(v, v', service.Text()) then meanwhile else []
    case DoChange(change) => [change]
    case _ => []
  }

  /** A service whose cache was right, or bound to become so, or that changes hands while it is watched,
      is settled afterwards; a service watched anew is settled if no queued change contradicts the answer
      of the bus or it changes hands before it is asked for. No other service is. */
  lemma EffectOnCaches(v: View, c: Command, v': View, s: string)
    requires CommandOk(c) && Effect(v, c, v') && s in v'.watched && s != DBUS_SERVICE
    ensures v'.Settles(s) <==>
      (if s in v.watched then v.Settles(s) else v.AnswerSettles(s)) || Mentioned(Happened(v, c, v'), s)
  {
    hide Genuine;
    assert s in v'.watched.Keys;
    match c
    case DoChange(change) =>
      var msg := OwnerChanged(change.name, Owner(v.owners, change.name), change.owner);
      assert [change][0] == change;
      LastOwnerAppend(v.queue, msg, s, v.watched[s].owner);
    case DoDeliver(msg) => LastOwnerAppend(v.queue, msg, s, v.watched[s].owner);
    case _ =>
  }

  /** The states before and after each command. */
  ghost predicate History(commands: seq<Command>, trace: seq<View>) {
    && |trace| == |commands| + 1
    && (forall i | 0 <= i < |commands| :: CommandOk(commands[i]) && Effect(trace[i], commands[i], trace[i + 1]))
    && trace[0].watched.Keys == {DBUS_SERVICE} && trace[0].queue == []
  }

  /** The watched services whose caches will be wrong after the first k commands: watched anew while the
      last change of them still queued named another owner than the present one, and neither changed
      hands while watched nor dropped since. */
  ghost function Unsettled(commands: seq<Command>, trace: seq<View>, k: nat): set<string>
    requires |trace| == |commands| + 1 && k <= |commands|
  {
    if k == 0 then {}
    else
      var v, v', before := trace[k - 1], trace[k], Unsettled(commands, trace, k - 1);
      set s | s in v'.watched && s != DBUS_SERVICE
        && (if s in v.watched then s in before else !v.AnswerSettles(s))
        && !Mentioned(Happened(v, commands[k - 1], v'), s)
  }

  /** These are exactly the services that do not settle. */
  lemma {:induction false} UnsettledExactly(commands: seq<Command>, trace: seq<View>, k: nat, s: string)
    requires History(commands, trace) && k <= |commands| && s in trace[k].watched && s != DBUS_SERVICE
    ensures trace[k].Settles(s) <==> s !in Unsettled(commands, trace, k)
  {
    hide Effect, CommandOk, Happened;
    if k > 0 {
      EffectOnCaches(trace[k - 1], commands[k - 1], trace[k], s);
      if s in trace[k - 1].watched {
        UnsettledExactly(commands, trace, k - 1, s);
      }
    }
  }

  // ---------- when nothing can go wrong ----------

  lemma {:induction false} NothingQueued(queue: seq<SignalMessage>, name: string, cached: string)
    requires !ChangeQueued(queue, name)
    ensures LastOwner(queue, name, cached) == cached
  {
    if queue != [] {
      assert forall i :: 0 <= i < |queue| - 1 ==> queue[1..][i] == queue[i + 1];
      NothingQueued(queue[1..], name, cached);
    }
  }

  /** Watching anew is safe once the queued changes have been dispatched. */
  lemma DrainedAnswerSettles(v: View, s: string)
    ensures ChangeQueued(v.queue, s) || v.AnswerSettles(s)
  {
    if !ChangeQueued(v.queue, s) {
      NothingQueued(v.queue, s, Owner(v.owners, s));
    }
  }

  /** A service can only become unsettled by a subscription after it changed hands. */
  predicate ChangedBeforeConnect(commands: seq<Command>, trace: seq<View>, k: nat, s: string)
    requires |trace| == |commands| + 1 && k <= |commands|
  {
    exists i, j :: 0 <= i < j < k && Mentioned(Happened(trace[i], commands[i], trace[i + 1]), s)
      && commands[j].Subscribes() && commands[j].service.Text() == s
  }

  lemma QueueTail(queue: seq<SignalMessage>)
    requires queue != []
    ensures forall s | ChangeQueued(queue[1..], s) :: ChangeQueued(queue, s)
  {
    forall s | ChangeQueued(queue[1..], s) ensures ChangeQueued(queue, s) {
      var i :| 0 <= i < |queue| - 1 && IsOwnerChange(queue[1..][i], s);
      assert IsOwnerChange(queue[i + 1], s);
    }
  }

  lemma EffectOnQueue(v: View, c: Command, v': View, s: string)
    requires CommandOk(c) && Effect(v, c, v') && ChangeQueued(v'.queue, s)
    ensures ChangeQueued(v.queue, s) || Mentioned(Happened(v, c, v'), s)
  {
    hide Genuine, Settled;
    match c
    case DoChange(change) =>
      ChangeQueuedAppend(v.queue, OwnerChanged(change.name, Owner(v.owners, change.name), change.owner));
      assert [change][0] == change;
    case DoDeliver(msg) => ChangeQueuedAppend(v.queue, msg);
    case DoDispatch => if v.queue != [] { QueueTail(v.queue); }
    case _ =>
  }

  lemma {:induction false} QueuedChangeHappened(commands: seq<Command>, trace: seq<View>, k: nat, s: string)
    requires History(commands, trace) && k <= |commands| && ChangeQueued(trace[k].queue, s)
    ensures exists i :: 0 <= i < k && Mentioned(Happened(trace[i], commands[i], trace[i + 1]), s)
  {
    hide Effect, CommandOk, Happened, Mentioned;
    if k > 0 {
      EffectOnQueue(trace[k - 1], commands[k - 1], trace[k], s);
      if ChangeQueued(trace[k - 1].queue, s) {
        QueuedChangeHappened(commands, trace, k - 1, s);
      }
    }
  }

  lemma NewlyWatched(v: View, c: Command, v': View, s: string)
    requires CommandOk(c) && Effect(v, c, v') && s in v'.watched && s !in v.watched
    ensures c.Subscribes() && c.service.Text() == s
  {
    hide Genuine;
    assert s in v'.watched.Keys && s !in v.watched.Keys;
  }

  lemma {:induction false} UnsettledChangedBefore(commands: seq<Command>, trace: seq<View>, k: nat, s: string)
    requires History(commands, trace) && k <= |commands| && s in Unsettled(commands, trace, k)
    ensures ChangedBeforeConnect(commands, trace, k, s)
  {
    hide Effect, CommandOk, Happened, Mentioned;
    var v, v' := trace[k - 1], trace[k];
    if s in v.watched {
      UnsettledChangedBefore(commands, trace, k - 1, s);
    } else {
      DrainedAnswerSettles(v, s);
      NewlyWatched(v, commands[k - 1], v', s);
      QueuedChangeHappened(commands, trace, k - 1, s);
    }
  }
}
