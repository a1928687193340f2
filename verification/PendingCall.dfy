/** One asynchronous call, shared by its handles, by threads waiting for it, by the dispatcher and
    by libdbus. What happens under the mutex of the call is one step; blocking for the reply and
    dispatching exclude each other through the dispatch lock; there are no spurious wake-ups. */
module PendingCall {
  import opened Wrappers
  import opened QtText

  datatype Reply = Invalid | Normal(signature: string) | Error

  /** Who may run processFinishedCall: the thread that failed to send, the dispatcher, or a thread
      that blocks for the reply. */
  datatype Actor = Creator | Dispatcher | Thread(id: nat)

  /** How far processFinishedCall has come. */
  datatype Stage = Unprocessed | Entered(actor: Actor) | Unlocked(actor: Actor) | Processed

  /** A thread in waitForFinished. */
  datatype Waiter =
    | Entering
    | Blocking
    | InBlock
    | LeftBlock
    | Sleeping
    | Woken
    | Returned(saw: Reply)

  datatype State = State(
    sent: bool,
    expected: QString,
    ref: int,
    freed: nat,
    released: nat,
    owed: bool,
    handles: nat,
    reply: Reply,
    pending: bool,
    waitingForFinished: bool,
    owner: Option<nat>,
    stage: Stage,
    waiters: map<nat, Waiter>,
    dispatchLock: Option<Actor>)

  predicate Active(w: Waiter) {
    !w.Returned?
  }

  predicate SomeoneWaits(s: State) {
    exists t :: t in s.waiters && Active(s.waiters[t])
  }

  /** Between setting the flag and clearing the libdbus handle. The state remembers which thread this
      is; the program does not need to. */
  predicate Owns(w: Waiter) {
    w.Blocking? || w.InBlock? || w.LeftBlock?
  }

  // ---------- the steps ----------

  /** A call that libdbus accepted, or one that could not be sent. With a callback nobody holds a
      handle. */
  function Begun(sent: bool, expected: QString, withCallback: bool, failure: Reply): State {
    State(sent, expected, if withCallback then 1 else 2, 0, 0, !withCallback, 0,
      if sent then Invalid else failure, sent, false, None, if sent then Unprocessed else Entered(Creator), map[], None)
  }

  datatype Step =
    | ConstructHandle
    | CopyHandle
    | DropHandle
    | StartWaiting(t: nat)
    | CheckReply(t: nat)
    | LockDispatch(t: nat)
    | DispatcherLocks
    | DispatcherUnlocks
    | ReplyArrives(actor: Actor)
    | ProcessReply(got: Reply)
    | FinishProcessing
    | LeaveBlock(t: nat)
    | EndWaiting(t: nat)
    | WakeUp(t: nat)
  {
    /** Steps of a waiting thread, named `t`. */
    predicate ByWaiter() {
      StartWaiting? || CheckReply? || LockDispatch? || LeaveBlock? || EndWaiting? || WakeUp?
    }
  }

  predicate IsAt(s: State, t: nat, w: Waiter) {
    t in s.waiters && s.waiters[t] == w
  }

  /** The thread that failed to send is still working on the reply, before anyone gets a handle. */
  predicate ByCreator(s: State) {
    (s.stage.Entered? || s.stage.Unlocked?) && s.stage.actor == Creator
  }

  /** What the scheduler, the bus and well-behaved users of handles can do next. A thread waits only
      through a handle that stays in existence meanwhile. */
  predicate Enabled(s: State, step: Step) {
    match step
    case ConstructHandle => s.owed && !ByCreator(s)
    case CopyHandle => s.handles >= 1
    case DropHandle => s.handles >= 1 && (s.handles == 1 ==> !SomeoneWaits(s))
    case StartWaiting(t) => s.handles >= 1 && (t in s.waiters ==> !Active(s.waiters[t]))
    case CheckReply(t) => IsAt(s, t, Entering)
    case LockDispatch(t) => IsAt(s, t, Blocking) && s.dispatchLock == None
    case DispatcherLocks => s.dispatchLock == None
    case DispatcherUnlocks =>
      s.dispatchLock == Some(Dispatcher) && s.stage != Entered(Dispatcher) && s.stage != Unlocked(Dispatcher)
    case ReplyArrives(actor) => s.stage == Unprocessed && s.dispatchLock == Some(actor) && actor != Creator
    case ProcessReply(got) => s.stage.Entered? && got != Invalid
    case FinishProcessing => s.stage.Unlocked?
    case LeaveBlock(t) => IsAt(s, t, InBlock) && s.stage == Processed
    case EndWaiting(t) => IsAt(s, t, LeftBlock)
    case WakeUp(t) => IsAt(s, t, Woken)
  }

  /** The destructor, which would also give up a call that is still pending. */
  function Deleted(s: State): State {
    s.(freed := s.freed + 1, released := s.released + (if s.pending then 1 else 0), pending := false)
  }

  function Deref(s: State): State {
    var s' := s.(ref := s.ref - 1);
    if s'.ref == 0 then Deleted(s') else s'
  }

  function ReleasePending(s: State): State {
    if s.pending then s.(released := s.released + 1, pending := false) else s
  }

  /** checkReceivedSignature: a normal reply must begin with the expected signature. */
  function Checked(reply: Reply, expected: QString): Reply {
    if reply.Normal? && !expected.Null? && !(expected.text <= reply.signature) then Error else reply
  }

  function WokenAll(waiters: map<nat, Waiter>): map<nat, Waiter> {
    map t | t in waiters :: if waiters[t].Sleeping? then Woken else waiters[t]
  }

  function Apply(s: State, step: Step): State
    requires Enabled(s, step)
  {
    match step
    case ConstructHandle => s.(ref := s.ref + 1 - 1, owed := false, handles := s.handles + 1)
    case CopyHandle => s.(ref := s.ref + 1, handles := s.handles + 1)
    case DropHandle => Deref(s.(handles := s.handles - 1))
    case StartWaiting(t) => s.(waiters := s.waiters[t := Entering])
    case CheckReply(t) =>
      if s.reply != Invalid then s.(waiters := s.waiters[t := Returned(s.reply)])
      else if s.waitingForFinished then s.(waiters := s.waiters[t := Sleeping])
      else s.(waitingForFinished := true, owner := Some(t), waiters := s.waiters[t := Blocking])
    case LockDispatch(t) => s.(waiters := s.waiters[t := InBlock], dispatchLock := Some(Thread(t)))
    case DispatcherLocks => s.(dispatchLock := Some(Dispatcher))
    case DispatcherUnlocks => s.(dispatchLock := None)
    case ReplyArrives(actor) => s.(stage := Entered(actor))
    case ProcessReply(got) =>
      var read := s.(reply := Checked(if s.pending then got else s.reply, s.expected), stage := Unlocked(s.stage.actor));
      if !s.waitingForFinished then ReleasePending(read) else read
    case FinishProcessing => Deref(s.(stage := Processed))
    case LeaveBlock(t) => s.(waiters := s.waiters[t := LeftBlock], dispatchLock := None)
    case EndWaiting(t) =>
      var cleared := ReleasePending(s);
      cleared.(owner := None, waiters := WokenAll(s.waiters)[t := Returned(s.reply)])
    case WakeUp(t) => s.(waiters := s.waiters[t := Returned(s.reply)])
  }

  // ---------- what every step keeps ----------

  predicate Unread(s: State) {
    s.stage == Unprocessed || (s.stage.Entered? && s.stage.actor != Creator)
  }

  /** References are handles, the one owed to the first handle, and one for the reply. */
  predicate RefOk(s: State) {
    && s.ref == s.handles + (if s.owed then 1 else 0) + (if s.stage == Processed then 0 else 1)
    && s.freed == (if s.ref == 0 then 1 else 0)
    && (SomeoneWaits(s) ==> s.handles >= 1)
    && (ByCreator(s) ==> s.handles == 0)
  }

  /** The reply is there as soon as it has been read, and has the expected signature. */
  predicate ReplyOk(s: State) {
    && (s.reply == Invalid <==> Unread(s))
    && (s.sent || !Unread(s))
    && (Unread(s) || s.stage == Entered(Creator) || Checked(s.reply, s.expected) == s.reply)
  }

  /** The libdbus handle is released once, and kept only for a thread that will release it. */
  predicate PendingOk(s: State) {
    && s.released == (if s.sent && !s.pending then 1 else 0)
    && (s.pending ==> s.sent)
    && (Unread(s) ==> s.pending)
    && (s.pending && !Unread(s) ==> s.owner.Some?)
  }

  predicate WaiterOk(s: State, t: nat, w: Waiter) {
    && (Owns(w) <==> s.owner == Some(t))
    && (w.InBlock? <==> s.dispatchLock == Some(Thread(t)))
    && (w.LeftBlock? ==> s.stage == Processed)
    && (w.Woken? ==> !Unread(s) && s.reply != Invalid)
    && (w.Returned? ==> w.saw != Invalid && Checked(w.saw, s.expected) == w.saw)
    && (w.Sleeping? ==> s.owner.Some?)
  }

  /** Whoever processes the reply holds the dispatch lock, except the thread that failed to send. */
  predicate LockOk(s: State) {
    && (s.stage.Entered? || s.stage.Unlocked? ==> s.stage.actor == Creator || s.dispatchLock == Some(s.stage.actor))
    && (s.dispatchLock.Some? ==> s.dispatchLock.value != Creator)
    && (s.dispatchLock.Some? && s.dispatchLock.value.Thread? ==> IsAt(s, s.dispatchLock.value.id, InBlock))
    && (s.waitingForFinished && Unread(s) ==> s.owner.Some?)
    && (s.owner.Some? ==> s.waitingForFinished && s.owner.value in s.waiters)
  }

  predicate WaitersOk(s: State) {
    forall t | t in s.waiters :: WaiterOk(s, t, s.waiters[t])
  }

  predicate Inv(s: State) {
    RefOk(s) && ReplyOk(s) && PendingOk(s) && LockOk(s) && WaitersOk(s)
  }

  lemma BegunOk(sent: bool, expected: QString, withCallback: bool, failure: Reply)
    requires failure != Invalid
    ensures Inv(Begun(sent, expected, withCallback, failure))
  {}

  lemma WaitersAfter(s: State, t: nat, w: Waiter)
    ensures SomeoneWaits(s.(waiters := s.waiters[t := w])) ==> Active(w) || SomeoneWaits(s)
    ensures t in s.waiters && Active(s.waiters[t]) ==> SomeoneWaits(s)
  {
    var after := s.waiters[t := w];
    if SomeoneWaits(s.(waiters := after)) && !Active(w) {
      var u :| u in after && Active(after[u]);
      assert u in s.waiters && s.waiters[u] == after[u];
    }
  }

  lemma StepKeepsRef(s: State, step: Step)
    requires Inv(s) && Enabled(s, step)
    ensures RefOk(Apply(s, step))
  {
    hide Inv, RefOk, Apply, Enabled;
    if step.EndWaiting? {
      WaitingEndsKeepsRef(s, step.t);
    } else if step.ByWaiter() {
      WaiterKeepsRef(s, step);
    } else {
      OtherStepKeepsRef(s, step);
    }
  }

  lemma WaitingEndsKeepsRef(s: State, t: nat)
    requires Inv(s) && Enabled(s, EndWaiting(t))
    ensures RefOk(Apply(s, EndWaiting(t)))
  {
    WaitersAfter(s, t, s.waiters[t]);
  }

  /** A thread can only go on if it waits already, or through a handle. */
  lemma WaiterKeepsRef(s: State, step: Step)
    requires Inv(s) && Enabled(s, step) && step.ByWaiter() && !step.EndWaiting?
    ensures RefOk(Apply(s, step))
  {
    WaitersAfter(s, step.t, Apply(s, step).waiters[step.t]);
  }

  lemma OtherStepKeepsRef(s: State, step: Step)
    requires Inv(s) && Enabled(s, step) && !step.ByWaiter()
    ensures RefOk(Apply(s, step))
  {}

  lemma StepKeepsReply(s: State, step: Step)
    requires Inv(s) && Enabled(s, step)
    ensures ReplyOk(Apply(s, step))
  {}

  lemma StepKeepsPending(s: State, step: Step)
    requires Inv(s) && Enabled(s, step)
    ensures PendingOk(Apply(s, step))
  {}

  lemma StepKeepsLock(s: State, step: Step)
    requires Inv(s) && Enabled(s, step)
    ensures LockOk(Apply(s, step))
  {
    match step
    case ProcessReply(_) =>
    case FinishProcessing =>
    case _ => OtherStepKeepsLock(s, step);
  }

  lemma OtherStepKeepsLock(s: State, step: Step)
    requires Inv(s) && Enabled(s, step) && !step.ProcessReply? && !step.FinishProcessing?
    ensures LockOk(Apply(s, step))
  {}

  lemma StepKeepsWaiters(s: State, step: Step)
    requires Inv(s) && Enabled(s, step)
    ensures WaitersOk(Apply(s, step))
  {
    hide Inv, Apply, Enabled;
    if step.ByWaiter() {
      WaiterKeepsWaiters(s, step);
    } else {
      OtherStepKeepsWaiters(s, step);
    }
  }

  lemma WaiterKeepsWaiters(s: State, step: Step)
    requires Inv(s) && Enabled(s, step) && step.ByWaiter()
    ensures WaitersOk(Apply(s, step))
  {
    match step
    case StartWaiting(t) =>
    case CheckReply(t) => ReplyIsChecked(s, t);
    case LockDispatch(t) =>
    case LeaveBlock(t) =>
    case EndWaiting(t) => WaitingEnds(s, t);
    case WakeUp(t) =>
  }

  lemma ReplyIsChecked(s: State, t: nat)
    requires Inv(s) && Enabled(s, CheckReply(t))
    ensures WaitersOk(Apply(s, CheckReply(t)))
  {
    assert SomeoneWaits(s) by { WaitersAfter(s, t, s.waiters[t]); }
  }

  lemma WaitingEnds(s: State, t: nat)
    requires Inv(s) && Enabled(s, EndWaiting(t))
    ensures WaitersOk(Apply(s, EndWaiting(t)))
  {}

  lemma OtherStepKeepsWaiters(s: State, step: Step)
    requires Inv(s) && Enabled(s, step) && !step.ByWaiter()
    ensures WaitersOk(Apply(s, step))
  {}

  lemma StepKeepsInv(s: State, step: Step)
    requires Inv(s) && Enabled(s, step)
    ensures Inv(Apply(s, step))
  {
    StepKeepsRef(s, step);
    StepKeepsReply(s, step);
    StepKeepsPending(s, step);
    StepKeepsLock(s, step);
    StepKeepsWaiters(s, step);
  }

  // ---------- whole runs ----------

  predicate CanRun(s: State, steps: seq<Step>)
    decreases |steps|
  {
    steps == [] || (Enabled(s, steps[0]) && CanRun(Apply(s, steps[0]), steps[1..]))
  }

  function After(s: State, steps: seq<Step>): State
    requires CanRun(s, steps)
    decreases |steps|
  {
    if steps == [] then s else After(Apply(s, steps[0]), steps[1..])
  }

  lemma {:induction false} RunKeepsInv(s: State, steps: seq<Step>)
    requires Inv(s) && CanRun(s, steps)
    ensures Inv(After(s, steps))
    decreases |steps|
  {
    if steps != [] {
      StepKeepsInv(s, steps[0]);
      RunKeepsInv(Apply(s, steps[0]), steps[1..]);
    }
  }

  /** Somebody may still look at the call. */
  predicate InUse(s: State) {
    s.handles > 0 || s.owed || s.stage != Processed || SomeoneWaits(s)
  }

  /** Whatever the interleaving: the count is the number of handles, plus one until the reply has been
      processed; the call exists exactly as long as it is in use; the libdbus handle is released once
      at most, and has been when the call is gone; and a thread that comes back has a reply, a normal
      one only if it begins with the expected signature. */
  lemma EveryRun(sent: bool, expected: QString, withCallback: bool, failure: Reply, steps: seq<Step>)
    requires failure != Invalid && CanRun(Begun(sent, expected, withCallback, failure), steps)
    ensures var s := After(Begun(sent, expected, withCallback, failure), steps);
      && s.ref == s.handles + (if s.owed then 1 else 0) + (if s.stage == Processed then 0 else 1)
      && s.freed == (if InUse(s) then 0 else 1)
      && s.released <= 1
      && (!InUse(s) ==> s.released == if s.sent then 1 else 0)
      && (forall t | t in s.waiters && s.waiters[t].Returned? ::
            s.waiters[t].saw != Invalid
            && (s.waiters[t].saw.Normal? && !s.expected.Null? ==> s.expected.text <= s.waiters[t].saw.signature))
  {
    BegunOk(sent, expected, withCallback, failure);
    RunKeepsInv(Begun(sent, expected, withCallback, failure), steps);
    var s := After(Begun(sent, expected, withCallback, failure), steps);
    forall t | t in s.waiters && s.waiters[t].Returned?
      ensures s.waiters[t].saw != Invalid
        && (s.waiters[t].saw.Normal? && !s.expected.Null? ==> s.expected.text <= s.waiters[t].saw.signature)
    {
      assert WaiterOk(s, t, s.waiters[t]);
    }
  }

  // ---------- which reply a thread comes back with ----------

  /** What a waiting thread sees of the reply that came: the reply itself if it is an error, if nothing
      was expected of it, or if it begins with the expected signature; and an error otherwise. */
  predicate Sees(came: Reply, expected: QString, saw: Reply) {
    if came.Error? || expected.Null? || (came.Normal? && expected.text <= came.signature) then saw == came
    else saw == Error
  }

  /** `came` is the reply that has been read so far, if any; `failure` the one made up where nothing
      could be sent. */
  predicate Knows(s: State, came: Option<Reply>, failure: Reply) {
    && (came.Some? <==> s.stage.Unlocked? || s.stage == Processed)
    && (s.stage == Entered(Creator) ==> !s.sent && s.reply == failure)
    && (came.Some? ==> Sees(came.value, s.expected, s.reply))
    && (forall t | t in s.waiters && s.waiters[t].Returned? :: came.Some? && s.waiters[t].saw == s.reply)
  }

  /** The reply that one step reads. */
  function Read(s: State, step: Step, came: Option<Reply>, failure: Reply): Option<Reply> {
    if step.ProcessReply? then Some(if s.sent then step.got else failure) else came
  }

  lemma StepTells(s: State, step: Step, came: Option<Reply>, failure: Reply)
    requires Inv(s) && Enabled(s, step) && Knows(s, came, failure)
    ensures Knows(Apply(s, step), Read(s, step, came, failure), failure)
    ensures step.ProcessReply? ==> came.None?
    ensures Apply(s, step).sent == s.sent && Apply(s, step).expected == s.expected
  {
    hide Inv, Apply;
    if step.ByWaiter() {
      WaiterIsTold(s, step, came, failure);
    } else {
      OtherStepTells(s, step, came, failure);
    }
  }

  lemma WaiterIsTold(s: State, step: Step, came: Option<Reply>, failure: Reply)
    requires Inv(s) && Enabled(s, step) && Knows(s, came, failure) && step.ByWaiter()
    ensures Knows(Apply(s, step), came, failure)
    ensures Apply(s, step).sent == s.sent && Apply(s, step).expected == s.expected
  {
    if step.t in s.waiters {
      WaitersAfter(s, step.t, s.waiters[step.t]);
      assert WaiterOk(s, step.t, s.waiters[step.t]);
    }
  }

  lemma OtherStepTells(s: State, step: Step, came: Option<Reply>, failure: Reply)
    requires Inv(s) && Enabled(s, step) && Knows(s, came, failure) && !step.ByWaiter()
    ensures Knows(Apply(s, step), Read(s, step, came, failure), failure)
    ensures Apply(s, step).sent == s.sent && Apply(s, step).expected == s.expected
  {}

  /** Replies among the steps of a run. */
  predicate ReadsReply(steps: seq<Step>) {
    exists i :: 0 <= i < |steps| && steps[i].ProcessReply?
  }

  lemma {:induction false} RunTells(s: State, steps: seq<Step>, came: Option<Reply>, failure: Reply)
    requires Inv(s) && CanRun(s, steps) && Knows(s, came, failure)
    ensures !ReadsReply(steps) ==> Knows(After(s, steps), came, failure)
    ensures forall i | 0 <= i < |steps| && steps[i].ProcessReply? ::
      came.None? && Knows(After(s, steps), Some(if s.sent then steps[i].got else failure), failure)
    ensures After(s, steps).expected == s.expected
    decreases |steps|
  {
    hide Inv, Knows, Apply, Enabled;
    if steps != [] {
      var step, rest := steps[0], steps[1..];
      var read := Read(s, step, came, failure);
      StepTells(s, step, came, failure);
      StepKeepsInv(s, step);
      RunTells(Apply(s, step), rest, read, failure);
      assert forall i | 0 <= i < |rest| :: steps[i + 1] == rest[i];
      assert ReadsReply(rest) ==> ReadsReply(steps);
      assert step.ProcessReply? ==> !ReadsReply(rest);
    }
  }

  /** Whatever the interleaving: every thread that has come back saw the reply that was read in this run,
      as far as it has the expected signature, or the failure where the call could not be sent. Without
      a reply nobody comes back. */
  lemma ReplySeen(sent: bool, expected: QString, withCallback: bool, failure: Reply, steps: seq<Step>)
    requires failure != Invalid && CanRun(Begun(sent, expected, withCallback, failure), steps)
    ensures var s := After(Begun(sent, expected, withCallback, failure), steps);
      forall t | t in s.waiters && s.waiters[t].Returned? ::
        && ReadsReply(steps)
        && forall i | 0 <= i < |steps| && steps[i].ProcessReply? ::
             Sees(if sent then steps[i].got else failure, expected, s.waiters[t].saw)
  {
    var s := Begun(sent, expected, withCallback, failure);
    BegunOk(sent, expected, withCallback, failure);
    RunTells(s, steps, None, failure);
  }

  // ---------- runs that there are ----------

  /** Some run comes to this state. */
  ghost predicate ComesTo(begun: State, s: State) {
    exists steps: seq<Step> :: CanRun(begun, steps) && After(begun, steps) == s
  }

  lemma {:induction false} RunAppend(s: State, steps: seq<Step>, step: Step)
    requires CanRun(s, steps) && Enabled(After(s, steps), step)
    ensures CanRun(s, steps + [step]) && After(s, steps + [step]) == Apply(After(s, steps), step)
    decreases |steps|
  {
    hide Enabled, Apply;
    if steps == [] {
      assert steps + [step] == [step] && [step][1..] == [];
    } else {
      RunAppend(Apply(s, steps[0]), steps[1..], step);
      assert (steps + [step])[1..] == steps[1..] + [step];
    }
  }

  lemma Begin(begun: State) returns (s: State)
    ensures s == begun && ComesTo(begun, s)
  {
    s := begun;
    assert CanRun(begun, []) && After(begun, []) == begun;
  }

  lemma Go(begun: State, s: State, step: Step) returns (s': State)
    requires ComesTo(begun, s) && Enabled(s, step)
    ensures ComesTo(begun, s') && s' == Apply(s, step)
  {
    hide Enabled, Apply;
    var steps :| CanRun(begun, steps) && After(begun, steps) == s;
    RunAppend(begun, steps, step);
    s' := Apply(s, step);
  }

  /** Two threads wait through two handles: one blocks and reads the reply, whatever it is, the other
      sleeps. Both come back with it, and the last handle frees the call. */
  lemma ThreadsGetReply(got: Reply) returns (s: State)
    requires got != Invalid
    ensures ComesTo(Begun(true, Null, false, Error), s)
    ensures s.waiters == map[0 := Returned(got), 1 := Returned(got)]
    ensures s.freed == 1 && s.released == 1 && s.handles == 0
  {
    hide ComesTo;
    var begun := Begun(true, Null, false, Error);
    s := Begin(begun);
    s := Go(begun, s, ConstructHandle);
    s := Go(begun, s, StartWaiting(0));
    s := Go(begun, s, CopyHandle);
    s := Go(begun, s, StartWaiting(1));
    s := Go(begun, s, CheckReply(0));
    s := Go(begun, s, CheckReply(1));
    s := Go(begun, s, LockDispatch(0));
    s := Go(begun, s, ReplyArrives(Thread(0)));
    s := Go(begun, s, ProcessReply(got));
    s := Go(begun, s, FinishProcessing);
    s := Go(begun, s, LeaveBlock(0));
    s := Go(begun, s, EndWaiting(0));
    s := Go(begun, s, WakeUp(1));
    assert s.waiters == map[0 := Returned(got), 1 := Returned(got)];
    assert !SomeoneWaits(s);
    s := Go(begun, s, DropHandle);
    s := Go(begun, s, DropHandle);
  }

  /** The dispatcher reads the reply; a thread that asks later has it at once. */
  lemma DispatcherGetsReply(got: Reply) returns (s: State)
    requires got != Invalid
    ensures ComesTo(Begun(true, Null, false, Error), s)
    ensures s.waiters == map[0 := Returned(got)] && s.dispatchLock == None
    ensures s.freed == 0 && s.released == 1 && s.handles == 1
  {
    hide ComesTo;
    var begun := Begun(true, Null, false, Error);
    s := Begin(begun);
    s := Go(begun, s, ConstructHandle);
    s := Go(begun, s, DispatcherLocks);
    s := Go(begun, s, ReplyArrives(Dispatcher));
    s := Go(begun, s, ProcessReply(got));
    s := Go(begun, s, FinishProcessing);
    s := Go(begun, s, DispatcherUnlocks);
    s := Go(begun, s, StartWaiting(0));
    s := Go(begun, s, CheckReply(0));
    assert s.waiters == map[0 := Returned(got)];
  }

  /** How often a step of one kind is in a run. */
  function Constructed(steps: seq<Step>): nat {
    if steps == [] then 0 else (if steps[0].ConstructHandle? then 1 else 0) + Constructed(steps[1..])
  }

  function Copied(steps: seq<Step>): nat {
    if steps == [] then 0 else (if steps[0].CopyHandle? then 1 else 0) + Copied(steps[1..])
  }

  function Dropped(steps: seq<Step>): nat {
    if steps == [] then 0 else (if steps[0].DropHandle? then 1 else 0) + Dropped(steps[1..])
  }

  /** Handles are constructed once at most, and then copied and dropped. */
  lemma {:induction false} HandlesCounted(s: State, steps: seq<Step>)
    requires CanRun(s, steps)
    ensures After(s, steps).handles == s.handles + Constructed(steps) + Copied(steps) - Dropped(steps)
    ensures Constructed(steps) == (if s.owed && !After(s, steps).owed then 1 else 0)
    ensures !s.owed ==> !After(s, steps).owed
    decreases |steps|
  {
    hide Apply, Enabled;
    if steps != [] {
      StepHandles(s, steps[0]);
      HandlesCounted(Apply(s, steps[0]), steps[1..]);
    }
  }

  lemma StepHandles(s: State, step: Step)
    requires Enabled(s, step)
    ensures Apply(s, step).handles ==
      s.handles + if step.ConstructHandle? || step.CopyHandle? then 1 else if step.DropHandle? then -1 else 0
    ensures Apply(s, step).owed == (s.owed && !step.ConstructHandle?) && (step.ConstructHandle? ==> s.owed)
  {}

  /** At any stage, as long as somebody waits, one of the threads, or the dispatcher, can take a step
      that brings the reply nearer. */
  lemma NeverStuck(s: State)
    requires Inv(s) && SomeoneWaits(s) && s.stage != Processed
    ensures Enabled(s, ProcessReply(Error)) || Enabled(s, FinishProcessing) || Enabled(s, ReplyArrives(Dispatcher))
      || exists t :: Enabled(s, CheckReply(t)) || Enabled(s, LockDispatch(t)) || Enabled(s, ReplyArrives(Thread(t)))
          || Enabled(s, WakeUp(t))
  {
    if s.stage == Unprocessed {
      var t :| t in s.waiters && Active(s.waiters[t]);
      assert WaiterOk(s, t, s.waiters[t]);
      var u := if s.waiters[t].Sleeping? then s.owner.value else t;
      assert WaiterOk(s, u, s.waiters[u]);
      assert s.dispatchLock.Some? && s.dispatchLock.value.Thread? ==>
        Enabled(s, ReplyArrives(Thread(s.dispatchLock.value.id)));
      assert Enabled(s, CheckReply(u)) || Enabled(s, LockDispatch(u)) || Enabled(s, WakeUp(u)) || s.dispatchLock.Some?;
    }
  }

  /** A thread that finds no reply finds a libdbus handle to wait for. */
  lemma WaitersFindPending(s: State, t: nat)
    requires Inv(s) && Enabled(s, CheckReply(t)) && s.reply == Invalid
    ensures s.pending
  {}

  /** The destructor never has to give up a pending call: dropping the last handle early does not
      cancel anything, because the reply that is still to come has a reference of its own. */
  lemma NeverCancelled(s: State, step: Step)
    requires Inv(s) && Enabled(s, step) && s.freed == 0 && Apply(s, step).freed == 1
    ensures !s.pending
  {
    if s.owner.Some? {
      var t := s.owner.value;
      assert WaiterOk(s, t, s.waiters[t]);
      assert Active(s.waiters[t]);
      assert SomeoneWaits(s);
    }
  }

  /** Once the reply has been processed, waiting threads are not stuck: as long as one waits, one of
      them, or the dispatcher on its way out, can take a step. */
  lemma WaitersGoOn(s: State)
    requires Inv(s) && s.stage == Processed && SomeoneWaits(s)
    ensures Enabled(s, DispatcherUnlocks) || exists t ::
      Enabled(s, CheckReply(t)) || Enabled(s, LockDispatch(t)) || Enabled(s, LeaveBlock(t))
      || Enabled(s, EndWaiting(t)) || Enabled(s, WakeUp(t))
  {
    var t :| t in s.waiters && Active(s.waiters[t]);
    assert WaiterOk(s, t, s.waiters[t]);
    var u := if s.waiters[t].Sleeping? then s.owner.value else t;
    assert WaiterOk(s, u, s.waiters[u]);
    assert Enabled(s, DispatcherUnlocks) || Enabled(s, CheckReply(u)) || Enabled(s, LockDispatch(u))
      || Enabled(s, LeaveBlock(u)) || Enabled(s, EndWaiting(u)) || Enabled(s, WakeUp(u));
  }
}
