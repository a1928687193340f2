/** The timeouts libdbus asks a connection for. They may be added and removed from any thread, but
    timers belong to the thread of the connection, so other threads leave their wishes behind. */
module Timeouts {
  import opened Wrappers

  datatype Event = AddTimeout | KillTimer(timerId: nat)

  datatype PendingTimeout = PendingTimeout(timeout: nat, ms: nat)

  function KillIds(events: seq<Event>): seq<nat> {
    if events == [] then []
    else (if events[0].KillTimer? then [events[0].timerId] else []) + KillIds(events[1..])
  }

  lemma {:induction false} KillIdsAppend(events: seq<Event>, e: Event)
    ensures KillIds(events + [e]) == KillIds(events) + if e.KillTimer? then [e.timerId] else []
  {
    if events == [] {
      assert events + [e] == [e];
    } else {
      KillIdsAppend(events[1..], e);
      assert (events + [e])[1..] == events[1..] + [e];
    }
  }

  predicate Distinct(s: seq<nat>) {
    forall i, j | 0 <= i < j < |s| :: s[i] != s[j]
  }

  function Names(pending: seq<PendingTimeout>): seq<nat> {
    seq(|pending|, i requires 0 <= i < |pending| => pending[i].timeout)
  }

  /** Every active timeout is pending or running, and not both; every other timeout is neither. */
  ghost predicate PlacedOnce(active: set<nat>, pending: seq<PendingTimeout>, running: map<nat, nat>) {
    && Distinct(Names(pending))
    && (forall i, j | i in running && j in running && running[i] == running[j] :: i == j)
    && (forall t :: t in active <==> t in Names(pending) || t in running.Values)
    && (forall t | t in Names(pending) :: t !in running.Values)
  }

  /** The live timers are the running ones and those that are about to be killed. */
  ghost predicate TimersOk(live: set<nat>, running: map<nat, nat>, events: seq<Event>) {
    && Distinct(KillIds(events))
    && (forall id :: id in live <==> id in running || id in KillIds(events))
    && (forall id | id in KillIds(events) :: id !in running)
  }

  class TimeoutHandler {
    var timeoutsPendingAdd: seq<PendingTimeout>
    var timeouts: map<nat, nat>
    var events: seq<Event>
    var liveTimers: set<nat>
    /** The enabled timeouts that libdbus has added and not removed. */
    ghost var active: set<nat>

    ghost predicate Valid()
      reads this
    {
      && PlacedOnce(active, timeoutsPendingAdd, timeouts)
      && TimersOk(liveTimers, timeouts, events)
      && (timeoutsPendingAdd != [] ==> AddTimeout in events)
    }

    constructor ()
      ensures Valid() && active == {} && liveTimers == {}
    {
      timeoutsPendingAdd, timeouts, events, liveTimers, active := [], map[], [], {}, {};
    }

    /** QObject::startTimer: any identifier that is not in use. */
    method StartTimer() returns (id: nat)
      modifies this`liveTimers
      ensures id !in old(liveTimers) && id > 0 && liveTimers == old(liveTimers) + {id}
    {
      id := 1;
      ghost var seen: set<nat> := {};
      while id in liveTimers
        invariant unchanged(this)
        invariant id > 0 && seen <= liveTimers && id !in seen && (forall x | x in seen :: x < id)
        decreases |liveTimers| - |seen|
      {
        seen := seen + {id};
        SubsetCount(seen, liveTimers);
        id := id + 1;
      }
      liveTimers := liveTimers + {id};
    }

    method PostEvent(e: Event)
      modifies this`events
      ensures events == old(events) + [e]
    {
      events := events + [e];
    }

    /** qDBusRealAddTimeout. */
    method RealAddTimeout(timeout: nat, ms: nat)
      requires Valid() && timeout !in active
      modifies this`timeouts, this`liveTimers, this`active
      ensures Valid() && active == old(active) + {timeout}
      ensures timeout in timeouts.Values
    {
      var timerId := StartTimer();
      assert timerId !in timeouts;
      RunningAdded(active, timeoutsPendingAdd, timeouts, timerId, timeout);
      timeouts := timeouts[timerId := timeout];
      active := active + {timeout};
    }

    /** qDBusAddTimeout. libdbus does not add a timeout twice. */
    method AddTimeoutFrom(timeout: nat, enabled: bool, ms: nat, correctThread: bool)
      requires Valid() && timeout !in active
      modifies this
      ensures Valid() && active == old(active) + if enabled then {timeout} else {}
      ensures if enabled && correctThread then timeout in timeouts.Values else timeouts == old(timeouts)
      ensures timeoutsPendingAdd == old(timeoutsPendingAdd) + if enabled && !correctThread then [PendingTimeout(timeout, ms)] else []
    {
      if !enabled {
        return;
      }
      if correctThread {
        RealAddTimeout(timeout, ms);
      } else {
        PendingAdded(active, timeoutsPendingAdd, timeouts, PendingTimeout(timeout, ms));
        timeoutsPendingAdd := timeoutsPendingAdd + [PendingTimeout(timeout, ms)];
        KillIdsAppend(events, AddTimeout);
        PostEvent(AddTimeout);
        active := active + {timeout};
      }
    }

    /** qDBusRemoveTimeout. */
    method RemoveTimeout(timeout: nat, correctThread: bool)
      requires Valid()
      modifies this
      ensures Valid() && active == old(active) - {timeout}
      ensures forall t | t != timeout :: t in timeouts.Values <==> t in old(timeouts.Values)
      ensures correctThread ==> events == old(events)
      ensures correctThread ==> forall id | id in liveTimers :: id in old(timeouts) ==> old(timeouts)[id] != timeout
      ensures !correctThread ==> liveTimers == old(liveTimers)
    {
      var kept: seq<PendingTimeout> := [];
      var i := 0;
      while i < |timeoutsPendingAdd|
        invariant 0 <= i <= |timeoutsPendingAdd|
        invariant kept == Without(timeoutsPendingAdd[..i], timeout)
      {
        assert timeoutsPendingAdd[..i + 1][..i] == timeoutsPendingAdd[..i];
        if timeoutsPendingAdd[i].timeout != timeout {
          kept := kept + [timeoutsPendingAdd[i]];
        }
        i := i + 1;
      }
      assert timeoutsPendingAdd[..i] == timeoutsPendingAdd;
      WithoutNames(timeoutsPendingAdd, timeout);

      ghost var pending, running := timeoutsPendingAdd, timeouts;
      timeoutsPendingAdd := kept;
      var todo := timeouts.Keys;
      while todo != {}
        invariant todo <= timeouts.Keys && timeouts == running
        invariant forall id | id in timeouts && id !in todo :: timeouts[id] != timeout
        invariant TimersOk(liveTimers, timeouts, events) && events == old(events) && active == old(active)
        invariant liveTimers == old(liveTimers)
        decreases |todo|
      {
        var id :| id in todo;
        if timeouts[id] == timeout {
          KillPosted(liveTimers, timeouts, events, id);
          if correctThread {
            liveTimers := liveTimers - {id};
          } else {
            PostEvent(KillTimer(id));
          }
          timeouts := timeouts - {id};
          break;
        }
        todo := todo - {id};
      }
      TimeoutRemoved(active, pending, running, timeout, timeouts);
      active := active - {timeout};
    }

    /** qDBusToggleTimeout. */
    method ToggleTimeout(timeout: nat, enabled: bool, ms: nat, correctThread: bool)
      requires Valid()
      modifies this
      ensures Valid() && active == old(active) - {timeout} + if enabled then {timeout} else {}
    {
      RemoveTimeout(timeout, correctThread);
      AddTimeoutFrom(timeout, enabled, ms, correctThread);
    }

    /** customEvent, for the first event in the queue. */
    method DeliverEvent()
      requires Valid() && events != []
      modifies this
      ensures Valid() && active == old(active) && events == old(events)[1..]
      ensures old(events)[0] == AddTimeout ==> timeoutsPendingAdd == []
    {
      var e := events[0];
      FirstEvent(liveTimers, timeouts, events);
      events := events[1..];
      match e
      case AddTimeout =>
        while timeoutsPendingAdd != []
          invariant PlacedOnce(active, timeoutsPendingAdd, timeouts) && TimersOk(liveTimers, timeouts, events)
          invariant active == old(active) && events == old(events)[1..]
          decreases |timeoutsPendingAdd|
        {
          var entry := timeoutsPendingAdd[0];
          var timerId := StartTimer();
          PendingRuns(active, timeoutsPendingAdd, timeouts, timerId);
          timeoutsPendingAdd := timeoutsPendingAdd[1..];
          timeouts := timeouts[timerId := entry.timeout];
        }
      case KillTimer(id) =>
        liveTimers := liveTimers - {id};
    }

    /** When all events have been delivered, exactly the active timeouts run, each with its own timer,
        and no other timer is left. */
    method DeliverAll()
      requires Valid()
      modifies this
      ensures Valid() && events == [] && active == old(active)
      ensures timeoutsPendingAdd == [] && liveTimers == timeouts.Keys && timeouts.Values == active
    {
      while events != []
        invariant Valid() && active == old(active)
        decreases |events|
      {
        DeliverEvent();
      }
      assert Names(timeoutsPendingAdd) == [];
    }

    /** timerEvent: a live timer has expired. */
    method TimerEvent(timerId: nat) returns (handled: Option<nat>)
      requires Valid() && timerId in liveTimers
      ensures handled == if timerId in timeouts then Some(timeouts[timerId]) else None
      ensures handled.Some? ==> handled.value in active
    {
      if timerId in timeouts {
        handled := Some(timeouts[timerId]);
      } else {
        handled := None;
      }
    }
  }

  // ---------- the steps on values ----------

  lemma SubsetCount(a: set<nat>, b: set<nat>)
    requires a <= b
    ensures |a| <= |b|
  {
    assert b == a + (b - a);
  }

  /** Taking the first event from the queue; a timer it kills is no longer live. */
  lemma FirstEvent(live: set<nat>, running: map<nat, nat>, events: seq<Event>)
    requires TimersOk(live, running, events) && events != []
    ensures events[0] == AddTimeout ==> TimersOk(live, running, events[1..])
    ensures events[0].KillTimer? ==> TimersOk(live - {events[0].timerId}, running, events[1..])
  {
    var ids, rest := KillIds(events), KillIds(events[1..]);
    if events[0].KillTimer? {
      assert ids == [events[0].timerId] + rest;
      assert ids[0] in ids;
      forall i | 0 <= i < |rest| ensures rest[i] == ids[i + 1] && rest[i] != ids[0] {}
      assert forall id :: id in ids <==> id == ids[0] || id in rest;
    } else {
      assert ids == rest;
    }
  }

  lemma KillPosted(live: set<nat>, running: map<nat, nat>, events: seq<Event>, id: nat)
    requires TimersOk(live, running, events) && id in running
    ensures TimersOk(live, running - {id}, events + [KillTimer(id)])
    ensures TimersOk(live - {id}, running - {id}, events)
  {
    KillIdsAppend(events, KillTimer(id));
    var ids := KillIds(events);
    assert forall i | 0 <= i < |ids| :: ids[i] in ids;
  }

  function Without(pending: seq<PendingTimeout>, timeout: nat): seq<PendingTimeout> {
    if pending == [] then []
    else
      var n := |pending| - 1;
      Without(pending[..n], timeout) + if pending[n].timeout != timeout then [pending[n]] else []
  }

  lemma {:induction false} WithoutNames(pending: seq<PendingTimeout>, timeout: nat)
    ensures forall t :: t in Names(Without(pending, timeout)) <==> t in Names(pending) && t != timeout
    ensures Distinct(Names(pending)) ==> Distinct(Names(Without(pending, timeout)))
  {
    if pending != [] {
      var n := |pending| - 1;
      WithoutNames(pending[..n], timeout);
      var less, last := Names(Without(pending[..n], timeout)), pending[n].timeout;
      assert Names(pending) == Names(pending[..n]) + [last];
      if Distinct(Names(pending)) {
        DistinctPrefix(Names(pending), n);
        assert Names(pending)[..n] == Names(pending[..n]);
      }
      if last != timeout {
        assert Names(Without(pending, timeout)) == less + [last];
        if Distinct(Names(pending)) {
          assert last !in Names(pending[..n]) by { DistinctLast(Names(pending[..n]), last); }
          assert forall i | 0 <= i < |less| :: less[i] in less;
        }
      } else {
        assert Names(Without(pending, timeout)) == less;
      }
    }
  }

  lemma DistinctPrefix(s: seq<nat>, n: nat)
    requires Distinct(s) && n <= |s|
    ensures Distinct(s[..n])
  {}

  lemma DistinctLast(s: seq<nat>, x: nat)
    requires Distinct(s + [x])
    ensures x !in s
  {
    forall i | 0 <= i < |s| ensures s[i] != x {
      assert (s + [x])[i] == s[i] && (s + [x])[|s|] == x;
    }
  }

  lemma PendingAdded(active: set<nat>, pending: seq<PendingTimeout>, running: map<nat, nat>, p: PendingTimeout)
    requires PlacedOnce(active, pending, running) && p.timeout !in active
    ensures PlacedOnce(active + {p.timeout}, pending + [p], running)
  {
    assert Names(pending + [p]) == Names(pending) + [p.timeout];
    assert forall i | 0 <= i < |pending| :: Names(pending)[i] in Names(pending);
  }

  lemma RunningAdded(active: set<nat>, pending: seq<PendingTimeout>, running: map<nat, nat>, id: nat, timeout: nat)
    requires PlacedOnce(active, pending, running) && timeout !in active && id !in running
    ensures PlacedOnce(active + {timeout}, pending, running[id := timeout])
  {
    ValuesAfterAdd(running, id, timeout);
  }

  lemma ValuesAfterAdd(running: map<nat, nat>, id: nat, timeout: nat)
    requires id !in running
    ensures running[id := timeout].Values == running.Values + {timeout}
  {
    var more := running[id := timeout];
    forall t | t in running.Values ensures t in more.Values {
      var k :| k in running && running[k] == t;
      assert more[k] == t;
    }
    assert more[id] == timeout;
  }

  lemma PendingRuns(active: set<nat>, pending: seq<PendingTimeout>, running: map<nat, nat>, id: nat)
    requires PlacedOnce(active, pending, running) && pending != [] && id !in running
    ensures PlacedOnce(active, pending[1..], running[id := pending[0].timeout])
  {
    ValuesAfterAdd(running, id, pending[0].timeout);
    var first, names, rest := pending[0].timeout, Names(pending), Names(pending[1..]);
    assert names == [first] + rest;
    assert names[0] in names;
    forall i | 0 <= i < |rest| ensures rest[i] == names[i + 1] && rest[i] != names[0] {}
    assert forall t :: t in names <==> t == first || t in rest;
    var more := running[id := first];
    forall i, j | i in more && j in more && more[i] == more[j] ensures i == j {
      assert i != id ==> running[i] in running.Values;
      assert j != id ==> running[j] in running.Values;
    }
  }

  lemma TimeoutRemoved(active: set<nat>, pending: seq<PendingTimeout>, running: map<nat, nat>, timeout: nat,
    running': map<nat, nat>)
    requires PlacedOnce(active, pending, running)
    requires if timeout in running.Values then exists id :: id in running && running[id] == timeout && running' == running - {id}
      else running' == running
    ensures PlacedOnce(active - {timeout}, Without(pending, timeout), running')
  {
    WithoutNames(pending, timeout);
    assert forall t :: t in running'.Values <==> t in running.Values && t != timeout by {
      forall t | t in running.Values && t != timeout ensures t in running'.Values {
        var k :| k in running && running[k] == t;
        assert k in running' && running'[k] == t;
      }
    }
  }
}
