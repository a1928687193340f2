/** The cached owners of watched services, seen together with the owners the bus has and the signals
    that are still queued. */
module OwnerCache {
  import opened MatchRule
  import opened SignalFilter
  import opened SignalBus

  datatype View = View(watched: map<string, WatchedService>, owners: Owners, queue: seq<SignalMessage>)
  {
    /** Once the queued signals are dispatched, the cached owner of a service will be right. */
    predicate Settles(s: string) {
      s in watched && Settled(owners, queue, s, watched[s].owner)
    }

    /** The present owner of a service would be a right answer now: no queued change contradicts it. */
    predicate AnswerSettles(s: string) {
      Settled(owners, queue, s, Owner(owners, s))
    }
  }

  /** Only the names in `changes` may have changed hands, and only their changes may be new in the queue. */
  ghost predicate OnlyChanged(v: View, v': View, changes: seq<Change>) {
    && (forall name | !Mentioned(changes, name) :: Owner(v'.owners, name) == Owner(v.owners, name))
    && (forall name | ChangeQueued(v'.queue, name) :: ChangeQueued(v.queue, name) || Mentioned(changes, name))
  }

  /** A subscription starts to watch a service. */
  predicate Starts(v: View, v': View, service: string) {
    service !in v.watched && service in v'.watched
  }

  /** What subscribing does. Cached owners stay. If a service starts being watched, the changes
      `meanwhile` happen before the bus is asked: the new service settles if the answer would have
      settled before or if it changed hands meanwhile; another one if it did before or changed hands
      meanwhile. Otherwise nothing happens on the bus. */
  ghost predicate Kept(v: View, v': View, service: string, meanwhile: seq<Change>) {
    var started := Starts(v, v', service);
    && v'.watched.Keys == v.watched.Keys + (if started then {service} else {})
    && (forall s | s in v.watched :: v'.watched[s].owner == v.watched[s].owner)
    && (forall s | s in v.watched && s != DBUS_SERVICE ::
          v'.Settles(s) <==> v.Settles(s) || (started && Mentioned(meanwhile, s)))
    && (started ==> (v'.Settles(service) <==> v.AnswerSettles(service) || Mentioned(meanwhile, service)))
    && (if started then OnlyChanged(v, v', meanwhile) else v'.owners == v.owners && v'.queue == v.queue)
  }

  /** What unsubscribing does: services go, and no other owner changes. */
  ghost predicate Dropped(v: View, v': View) {
    && (forall s | s in v'.watched :: s in v.watched && v'.watched[s].owner == v.watched[s].owner)
    && v'.owners == v.owners && v'.queue == v.queue
  }

  /** The owner of one service has been asked for. */
  ghost predicate Asked(v: View, v': View, s: string, meanwhile: seq<Change>)
    requires s in v.watched
  {
    && v'.watched == v.watched[s := v.watched[s].(owner := Owner(v'.owners, s))]
    && (forall t | t in v.watched && t != DBUS_SERVICE && t != s ::
          v'.Settles(t) <==> v.Settles(t) || Mentioned(meanwhile, t))
    && (v'.Settles(s) <==> v.AnswerSettles(s) || Mentioned(meanwhile, s))
    && OnlyChanged(v, v', meanwhile)
  }

  /** A service that had just been entered is watched, and the others are as before. */
  ghost predicate Started(v: View, v': View, s: string, meanwhile: seq<Change>) {
    && v'.watched.Keys == v.watched.Keys
    && (forall t | t in v.watched && t != s :: v'.watched[t].owner == v.watched[t].owner)
    && (forall t | t in v.watched && t != DBUS_SERVICE && t != s ::
          v'.Settles(t) <==> v.Settles(t) || Mentioned(meanwhile, t))
    && (v'.Settles(s) <==> v.AnswerSettles(s) || Mentioned(meanwhile, s))
    && OnlyChanged(v, v', meanwhile)
  }

  /** Asking after some changes of hands. */
  lemma AskingSettles(rules: multiset<string>, v: View, v': View, s: string, meanwhile: seq<Change>)
    requires s in v.watched && s != DBUS_SERVICE
    requires forall t | t in v.watched && t != DBUS_SERVICE :: Reported(rules, t)
    requires Elapsed(rules, v.owners, v.queue, v'.owners, v'.queue, meanwhile)
    requires v'.watched == v.watched[s := v.watched[s].(owner := Owner(v'.owners, s))]
    ensures Asked(v, v', s, meanwhile)
  {
    hide Mentioned, LastOwner, Reported, ChangeQueued, Settled;
    assert Settled(v'.owners, v'.queue, s, Owner(v'.owners, s))
      <==> Settled(v.owners, v.queue, s, Owner(v'.owners, s)) || Mentioned(meanwhile, s);
  }

  /** Subscribing to the owner changes of a service, then asking for its owner. */
  lemma AskedIsStarted(v: View, v1: View, v2: View, s: string, meanwhile: seq<Change>)
    requires Kept(v, v1, DBUS_SERVICE, []) && DBUS_SERVICE in v.watched && s in v.watched && s != DBUS_SERVICE
    requires s in v1.watched && Asked(v1, v2, s, meanwhile)
    ensures Started(v, v2, s, meanwhile)
  {
    hide Settled, ChangeQueued, Mentioned;
    assert forall t | t in v1.watched :: t in v1.watched.Keys;
    assert forall t | t in v2.watched :: t in v1.watched;
  }

  lemma KeptForBus(v: View, v': View, s: string)
    requires Kept(v, v', DBUS_SERVICE, []) && DBUS_SERVICE in v.watched && s in v.watched
    ensures v'.owners == v.owners && v'.queue == v.queue && s in v'.watched && v'.watched.Keys == v.watched.Keys
  {
    assert s in v'.watched.Keys;
  }

  /** Entering a service and starting to watch it. */
  lemma StartedIsKept(v: View, v': View, s: string, meanwhile: seq<Change>, data: WatchedService)
    requires s !in v.watched && s != DBUS_SERVICE && Started(v.(watched := v.watched[s := data]), v', s, meanwhile)
    ensures Kept(v, v', s, meanwhile)
  {
    hide Settled, ChangeQueued, Mentioned;
    assert s in v'.watched.Keys;
    assert v.watched[s := data].Keys == v.watched.Keys + {s};
  }

  /** Counting one more rule for a service that is watched. */
  lemma CountingIsKept(v: View, s: string, meanwhile: seq<Change>, data: WatchedService)
    requires s in v.watched && data.owner == v.watched[s].owner
    ensures Kept(v, v.(watched := v.watched[s := data]), s, meanwhile)
  {
    hide Settled, ChangeQueued, Mentioned;
    assert v.watched[s := data].Keys == v.watched.Keys;
  }

  lemma NothingHappened(v: View, service: string, meanwhile: seq<Change>)
    ensures Kept(v, v, service, meanwhile)
  {}
}
