/**
  Starting and stopping the message handler, seen in the step system of the pipeline: which stops are
  lost, which return, and which deadlock.
 */
module Lifecycle {
  import opened Wrappers
  import opened Pipeline

  // ---- life of the worker ----

  /** A stop is waiting whose write of the flag came before the worker's own, and is lost. */
  predicate Lost(s: State) {
    s.stopper != Nobody && (s.worker == Starting || (!s.shouldFinish && s.worker != NoThread && s.worker != Exited))
  }

  /** A stop is waiting whose write came after the worker's own. */
  predicate Finishing(s: State) {
    s.stopper != Nobody && s.shouldFinish && s.worker != Starting && s.worker != NoThread
  }

  /** A stop is lost exactly when it is called before the worker has written the flag. */
  lemma {:induction false} StopLostIff(s: State, byMain: bool)
    requires Next(s, StopSetsFlag(byMain)).Some?
    ensures var s' := Next(s, StopSetsFlag(byMain)).value;
      (Lost(s') <==> s.worker == Starting) && (Finishing(s') <==> s.worker != Starting)
  {
  }

  lemma {:induction false} NextLost(s: State, a: Action)
    requires Lost(s) && Next(s, a).Some?
    ensures Lost(Next(s, a).value)
  {
    if OfMainThread(a) {
      MainKeepsWorker(s, a);
    } else if OfWorker(a) {
      WorkerKeepsOthers(s, a);
    }
  }

  /** A lost stop never returns. */
  lemma {:induction false} LostForever(s: State, actions: seq<Action>)
    requires Lost(s) && Run(s, actions).Some?
    ensures Lost(Run(s, actions).value)
    decreases |actions|
  {
    if actions != [] {
      NextLost(s, actions[0]);
      LostForever(Next(s, actions[0]).value, actions[1..]);
    }
  }

  function WorkerSteps(actions: seq<Action>): nat {
    if actions == [] then 0 else (if OfWorker(actions[0]) then 1 else 0) + WorkerSteps(actions[1..])
  }

  /** Steps of the worker until it leaves its loop, once the flag stays set. */
  function StepsLeft(w: Worker): nat {
    match w
    case Receiving => 5
    case Parsing => 4
    case Pushing => 3
    case Rejecting => 2
    case Head => 1
    case _ => 0
  }

  lemma {:induction false} NextFinishing(s: State, a: Action)
    requires Finishing(s) && Next(s, a).Some? && !a.JoinReturns?
    ensures var s' := Next(s, a).value;
      Finishing(s') && StepsLeft(s'.worker) + (if OfWorker(a) then 1 else 0) <= StepsLeft(s.worker)
  {
    if OfMainThread(a) {
      MainKeepsWorker(s, a);
    } else if OfWorker(a) {
      WorkerKeepsOthers(s, a);
    }
  }

  /** Unless a stop is lost the flag stays set, and after at most five more steps of the worker join can return. */
  lemma {:induction false} StopTakesEffect(s: State, actions: seq<Action>)
    requires Finishing(s) && Run(s, actions).Some? && forall i :: 0 <= i < |actions| ==> !actions[i].JoinReturns?
    ensures var t := Run(s, actions).value;
      && Finishing(t) && WorkerSteps(actions) + StepsLeft(t.worker) <= StepsLeft(s.worker)
      && (StepsLeft(t.worker) == 0 ==> Next(t, JoinReturns).Some?)
    decreases |actions|
  {
    if actions != [] {
      NextFinishing(s, actions[0]);
      StopTakesEffect(Next(s, actions[0]).value, actions[1..]);
    }
  }

  // ---- who can wait for whom ----

  /**
    The worker waits for the queue, which the main thread has locked; the main thread waits in join for the worker,
    or for the mutex of a thread that waits in join for the worker.
   */
  predicate Deadlocked(s: State) {
    !MainRuns(s) && s.queueLocked && s.worker == Pushing
  }

  /** The next step of a drain that holds the queue; the outcome of a call is left to the environment. */
  function DrainStep(s: State): Action {
    if At(s, Draining) then if s.queue == [] then UnlockQueue else BeginCall
    else if At(s, InCall) then EndCall(Threw)
    else if Finished(s) then Pop
    else Send(false)
  }

  lemma {:induction false} DrainCanStep(s: State)
    requires Conserved(s) && s.queueLocked && MainRuns(s)
    ensures Next(s, DrainStep(s)).Some? && OfMainThread(DrainStep(s))
  {
    var h := s.handlers[0];
    assert At(s, h);
    if h.Ended? && HasReply(h.call) {
      assert h == Ended(Succeeded) || h == Ended(IgorFailed);
    }
  }

  /** A step of the main thread when it holds no lock. */
  function MainNext(s: State): Action {
    if InUserCode(s) then IdleEvent
    else if At(s, Entered) then CheckQueue
    else if At(s, Checked) then LockQueue
    else IdleEnds
  }

  lemma {:induction false} SomeStep(s: State) returns (a: Action)
    requires Conserved(s) && !Deadlocked(s)
    ensures Next(s, a).Some?
  {
    if s.stopper == Nobody && s.worker != NoThread {
      a := StopSetsFlag(false);
    } else if s.worker == Exited {
      a := JoinReturns;
    } else if s.queueLocked && (s.stopper == Nobody || s.worker == Pushing) {
      DrainCanStep(s);
      a := DrainStep(s);
    } else {
      a := if s.stopper == Nobody then MainNext(s) else WorkerNext(s.worker);
    }
  }

  /** A step the worker can take where it is; only the push needs the queue. */
  function WorkerNext(w: Worker): Action {
    match w
    case Starting => ClearFlag
    case Head => CheckFlag
    case Receiving => Timeout
    case Parsing => Drop
    case Rejecting => Reject(false)
    case _ => Push
  }

  /** Main result: the system can take no step at all in exactly one kind of state. */
  lemma {:induction false} StuckIffDeadlocked(s: State)
    requires Conserved(s)
    ensures (forall a :: Next(s, a).None?) <==> Deadlocked(s)
  {
    if !Deadlocked(s) {
      var a := SomeStep(s);
      assert Next(s, a).Some?;
    }
  }

  // ---- runs ----

  lemma {:induction false} RunSnoc(s: State, actions: seq<Action>, a: Action)
    requires Run(s, actions).Some?
    ensures Run(s, actions + [a]) == Next(Run(s, actions).value, a)
    decreases |actions|
  {
    if actions == [] {
      assert [a][1..] == [];
    } else {
      RunSnoc(Next(s, actions[0]).value, actions[1..], a);
      assert (actions + [a])[1..] == actions[1..] + [a];
    }
  }

  /** The stop that is waiting goes on waiting: no step lets its join return. */
  predicate Waiting(actions: seq<Action>) {
    forall i :: 0 <= i < |actions| ==> !actions[i].JoinReturns?
  }

  lemma {:induction false} Then(start: State, actions: seq<Action>, s: State, a: Action)
    returns (more: seq<Action>, s': State)
    requires Run(start, actions) == Some(s) && Next(s, a).Some?
    ensures Run(start, more) == Some(s') && s' == Next(s, a).value && more == actions + [a]
  {
    RunSnoc(start, actions, a);
    more, s' := actions + [a], Next(s, a).value;
  }

  // ---- when a stop can return ----

  ghost predicate CanReturn(s: State) {
    exists actions :: Run(s, actions).Some? && Run(s, actions).value.stopper == Nobody
  }

  /** If the join can return after a step, it can return before it. */
  lemma {:induction false} ReturnsLater(s: State, a: Action)
    requires Next(s, a).Some? && CanReturn(Next(s, a).value)
    ensures CanReturn(s)
  {
    var actions :| Run(Next(s, a).value, actions).Some? && Run(Next(s, a).value, actions).value.stopper == Nobody;
    assert ([a] + actions)[1..] == actions;
    assert Run(s, [a] + actions) == Run(Next(s, a).value, actions);
  }

  lemma {:induction false} ReturnsNow(s: State)
    requires s.stopper != Nobody && s.worker == Exited
    ensures CanReturn(s)
  {
    var s' := Next(s, JoinReturns).value;
    assert Run(s', []) == Some(s');
    assert CanReturn(s');
    ReturnsLater(s, JoinReturns);
  }

  lemma {:induction false} ReturnsFromHead(s: State)
    requires Finishing(s) && s.worker == Head
    ensures CanReturn(s)
  {
    ReturnsNow(Next(s, CheckFlag).value);
    ReturnsLater(s, CheckFlag);
  }

  function Phase(s: State): nat {
    if At(s, Draining) then 3 else if At(s, InCall) then 2 else if Finished(s) then 0 else 1
  }

  /** The main thread finishes its drain, after which the worker can push. */
  lemma {:induction false} ReturnsAfterDrain(s: State)
    requires Conserved(s) && Finishing(s) && s.worker == Pushing && !Deadlocked(s)
    ensures CanReturn(s)
    decreases s.queueLocked, |s.queue|, Phase(s)
  {
    if !s.queueLocked {
      ReturnsFromHead(Next(s, Push).value);
      ReturnsLater(s, Push);
    } else {
      var a := DrainStep(s);
      DrainCanStep(s);
      NextKeepsConserved(s, a);
      DrainGoesOn(s);
      ReturnsAfterDrain(Next(s, a).value);
      ReturnsLater(s, a);
    }
  }

  lemma {:induction false} DrainGoesOn(s: State)
    requires Conserved(s) && s.queueLocked && MainRuns(s)
    ensures var s' := Next(s, DrainStep(s)).value;
      && s'.worker == s.worker && s'.stopper == s.stopper && s'.shouldFinish == s.shouldFinish && MainRuns(s')
      && (s'.queueLocked ==> |s'.queue| < |s.queue| || (|s'.queue| == |s.queue| && Phase(s') < Phase(s)))
  {
    DrainCanStep(s);
    var h := s.handlers[0];
    assert At(s, h);
  }

  /** A stop that is neither lost nor deadlocked can return. */
  lemma {:induction false} FinishingCanReturn(s: State)
    requires Conserved(s) && Finishing(s) && !Deadlocked(s)
    ensures CanReturn(s)
  {
    if s.worker == Exited {
      ReturnsNow(s);
    } else if s.worker == Head {
      ReturnsFromHead(s);
    } else if s.worker == Pushing {
      ReturnsAfterDrain(s);
    } else {
      ReturnsFromHead(Next(s, WorkerNext(s.worker)).value);
      ReturnsLater(s, WorkerNext(s.worker));
    }
  }

  lemma {:induction false} DeadlockedForever(s: State, actions: seq<Action>)
    requires Conserved(s) && Deadlocked(s) && Run(s, actions).Some?
    ensures Run(s, actions).value == s
  {
    StuckIffDeadlocked(s);
  }

  /** A stop can return in some run iff it comes after the worker's initial write and does not deadlock at once. */
  lemma {:induction false} StopCanReturnIff(s: State, byMain: bool)
    requires Conserved(s) && Next(s, StopSetsFlag(byMain)).Some?
    ensures CanReturn(Next(s, StopSetsFlag(byMain)).value) <==>
            s.worker != Starting && !(byMain && s.queueLocked && s.worker == Pushing)
  {
    var s' := Next(s, StopSetsFlag(byMain)).value;
    NextKeepsConserved(s, StopSetsFlag(byMain));
    if s.worker != Starting && !Deadlocked(s') {
      FinishingCanReturn(s');
    } else if actions :| Run(s', actions).Some? && Run(s', actions).value.stopper == Nobody {
      if s.worker == Starting {
        LostForever(s', actions);
      } else {
        DeadlockedForever(s', actions);
      }
    }
  }

  // ---- when a stop returns, whatever the threads do ----

  /** While this stop waits a deadlock can be reached. */
  ghost predicate MayDeadlock(s: State) {
    exists actions :: Waiting(actions) && Run(s, actions).Some? && Deadlocked(Run(s, actions).value)
  }

  /** The worker can still come to its push. */
  predicate MayPush(w: Worker) {
    w.Starting? || w.Receiving? || w.Parsing? || w.Pushing?
  }

  predicate CallOver(s: State) {
    s.handlers != [] && (s.handlers[|s.handlers| - 1].Ended? || s.handlers[|s.handlers| - 1].Sent?)
  }

  /** There is a request for which user code is running or still to be run. */
  predicate RequestToCall(s: State) {
    |s.queue| > if CallOver(s) then 1 else 0
  }

  /**
    A stop called here can end in a deadlock: the worker can still push, and the main thread is in a drain, or,
    if another thread stops, can come to run user code in one.
   */
  predicate MayBlock(s: State, byMain: bool) {
    && MayPush(s.worker)
    && if byMain then s.queueLocked else !Wedged(s) && (s.worker == Starting || RequestToCall(s))
  }

  // ---- states from which no deadlock is reached ----

  /** User code runs in no drain, nor will it before the worker has left its loop. */
  predicate NoCallAhead(s: State) {
    !RequestToCall(s) && !(s.mainWaits && s.queueLocked)
  }

  predicate Safe(s: State) {
    match s.stopper
    case Nobody => false
    case MainThread => !s.queueLocked || (s.shouldFinish && !MayPush(s.worker))
    case OtherThread =>
      Wedged(s) || (s.shouldFinish && s.worker != Starting && (!MayPush(s.worker) || NoCallAhead(s)))
  }

  /** Without a request to call the main thread does not come to run user code in a drain. */
  lemma {:induction false} MainSafe(s: State, a: Action)
    requires Guarded(s) && MainStep(true, s, a).Some?
    ensures !RequestToCall(s) ==> !RequestToCall(MainStep(true, s, a).value)
    ensures Wedged(s) ==> Wedged(MainStep(true, s, a).value)
  {
  }

  lemma {:induction false} WorkerSafe(s: State, a: Action)
    requires OfWorker(a) && Next(s, a).Some? && s.shouldFinish && s.worker != Starting
    ensures var s' := Next(s, a).value;
      && s'.worker != Starting && (!MayPush(s.worker) ==> !MayPush(s'.worker))
      && (s'.queue == s.queue || !MayPush(s'.worker))
  {
    hide MainStep, ControlStep, LastFate;
  }

  lemma {:induction false} NextSafe(s: State, a: Action)
    requires Shape(s) && Safe(s) && Next(s, a).Some? && !a.JoinReturns?
    ensures Safe(Next(s, a).value)
  {
    if OfMainThread(a) {
      MainKeepsWorker(s, a);
      MainSafe(s, a);
    } else if OfWorker(a) {
      WorkerKeepsOthers(s, a);
      if s.shouldFinish && s.worker != Starting {
        WorkerSafe(s, a);
      }
    }
  }

  lemma {:induction false} SafeForever(s: State, actions: seq<Action>)
    requires Conserved(s) && Safe(s) && Waiting(actions) && Run(s, actions).Some?
    ensures Safe(Run(s, actions).value) && !Deadlocked(Run(s, actions).value)
    decreases |actions|
  {
    if actions != [] {
      NextSafe(s, actions[0]);
      NextKeepsConserved(s, actions[0]);
      SafeForever(Next(s, actions[0]).value, actions[1..]);
    }
  }

  // ---- states from which a deadlock is reached ----

  /** The worker waits for a message, although the flag may be set. */
  lemma {:induction false} ComesToReceive(start: State, before: seq<Action>, s: State)
    returns (actions: seq<Action>, t: State)
    requires Run(start, before) == Some(s) && Waiting(before)
    requires s.worker == Starting || (s.worker == Head && !s.shouldFinish)
    ensures Run(start, actions) == Some(t) && Waiting(actions)
    ensures t == s.(worker := Receiving, shouldFinish := false)
  {
    actions, t := before, s;
    if t.worker == Starting {
      actions, t := Then(start, actions, t, ClearFlag);
    }
    actions, t := Then(start, actions, t, CheckFlag);
  }

  /** The worker takes a message and wants to push it. */
  lemma {:induction false} ComesToPush(start: State, before: seq<Action>, s: State)
    returns (actions: seq<Action>, t: State)
    requires Run(start, before) == Some(s) && Waiting(before) && s.stopper != Nobody
    requires MayPush(s.worker) || (s.worker == Head && !s.shouldFinish)
    ensures Run(start, actions) == Some(t) && Waiting(actions)
    ensures t == s.(worker := Pushing, fates := t.fates, shouldFinish := t.shouldFinish)
    ensures s.worker == Starting ==> !t.shouldFinish
  {
    actions, t := before, s;
    if t.worker == Starting || t.worker == Head {
      actions, t := ComesToReceive(start, actions, t);
    }
    if t.worker == Receiving {
      actions, t := Then(start, actions, t, Receive);
    }
    if t.worker == Parsing {
      actions, t := Then(start, actions, t, Accept);
    }
  }

  /** The way of the main thread to user code in a drain, or, without a request to call, out of its handler. */
  function Onward(s: State): Action {
    if s.handlers == [] then IdleEvent
    else if At(s, Entered) then CheckQueue
    else if At(s, Checked) then LockQueue
    else if At(s, Printing) then IdleEnds
    else DrainStep(s)
  }

  function StepsToCall(s: State): nat {
    if s.handlers == [] then 4
    else match s.handlers[|s.handlers| - 1]
      case Printing => 5
      case Entered => 3
      case Checked => 2
      case Draining => 1
      case InCall => 0
      case Ended(_) => 3
      case Sent(_, _) => 2
  }

  lemma {:induction false} DrainToCall(s: State)
    requires Conserved(s) && MainRuns(s) && RequestToCall(s) && s.queueLocked && !At(s, InCall)
    ensures Next(s, DrainStep(s)).Some? && OfMainThread(DrainStep(s)) && Onward(s) == DrainStep(s)
    ensures var s' := Next(s, DrainStep(s)).value;
      !Wedged(s') && RequestToCall(s') && StepsToCall(s') < StepsToCall(s)
  {
    assert At(s, s.handlers[0]);
    DrainCanStep(s);
  }

  /** One step towards user code. */
  lemma {:induction false} OnwardToCall(s: State)
    requires Conserved(s) && MainRuns(s) && !Wedged(s) && RequestToCall(s) && !At(s, InCall)
    ensures Next(s, Onward(s)).Some? && OfMainThread(Onward(s))
    ensures var s' := Next(s, Onward(s)).value;
      !Wedged(s') && RequestToCall(s') && StepsToCall(s') < StepsToCall(s)
  {
    if s.queueLocked {
      DrainToCall(s);
    } else if s.handlers != [] {
      assert At(s, s.handlers[0]);
    }
  }

  lemma {:induction false} ComesToCall(start: State, before: seq<Action>, s: State)
    returns (actions: seq<Action>, t: State)
    requires Run(start, before) == Some(s) && Waiting(before)
    requires Conserved(s) && MainRuns(s) && !Wedged(s) && RequestToCall(s)
    ensures Run(start, actions) == Some(t) && Waiting(actions) && Conserved(t) && MainRuns(t) && At(t, InCall)
    ensures t.worker == s.worker && t.stopper == s.stopper && t.shouldFinish == s.shouldFinish
    decreases StepsToCall(s)
  {
    if At(s, InCall) {
      return before, s;
    }
    OnwardToCall(s);
    MainKeepsWorker(s, Onward(s));
    NextKeepsConserved(s, Onward(s));
    actions, t := Then(start, before, s, Onward(s));
    actions, t := ComesToCall(start, actions, t);
  }

  function StepsOut(s: State): nat {
    if s.handlers == [] then 0
    else match s.handlers[|s.handlers| - 1]
      case Printing => 1
      case Ended(_) => 4
      case Sent(_, _) => 3
      case _ => 2
  }

  lemma {:induction false} DrainOut(s: State)
    requires Conserved(s) && MainRuns(s) && !RequestToCall(s) && s.queueLocked
    ensures Next(s, DrainStep(s)).Some? && OfMainThread(DrainStep(s)) && Onward(s) == DrainStep(s)
    ensures var s' := Next(s, DrainStep(s)).value;
      !Wedged(s') && !RequestToCall(s') && StepsOut(s') < StepsOut(s)
  {
    hide InOrder, OneInHand, RepliesCounted, WorkerStep, ControlStep;
    assert At(s, s.handlers[0]);
    DrainCanStep(s);
  }

  /** One step out of the handler. */
  lemma {:induction false} OnwardOut(s: State)
    requires Conserved(s) && MainRuns(s) && !RequestToCall(s) && s.handlers != []
    ensures Next(s, Onward(s)).Some? && OfMainThread(Onward(s))
    ensures var s' := Next(s, Onward(s)).value;
      !Wedged(s') && !RequestToCall(s') && StepsOut(s') < StepsOut(s)
  {
    if s.queueLocked {
      DrainOut(s);
    } else {
      assert At(s, s.handlers[0]);
    }
  }

  lemma {:induction false} ComesOut(start: State, before: seq<Action>, s: State)
    returns (actions: seq<Action>, t: State)
    requires Run(start, before) == Some(s) && Waiting(before)
    requires Conserved(s) && MainRuns(s) && !Wedged(s) && !RequestToCall(s)
    ensures Run(start, actions) == Some(t) && Waiting(actions) && Conserved(t) && MainRuns(t) && !Wedged(t)
    ensures t.handlers == [] && t.worker == s.worker && t.stopper == s.stopper
    decreases StepsOut(s)
  {
    if s.handlers == [] {
      return before, s;
    }
    OnwardOut(s);
    MainKeepsWorker(s, Onward(s));
    NextKeepsConserved(s, Onward(s));
    actions, t := Then(start, before, s, Onward(s));
    actions, t := ComesOut(start, actions, t);
  }

  /** A worker that has not yet cleared the flag goes on to queue a request. */
  lemma {:induction false} QueuesOne(start: State, before: seq<Action>, s: State)
    returns (actions: seq<Action>, t: State)
    requires Run(start, before) == Some(s) && Waiting(before)
    requires Conserved(start) && Conserved(s) && MainRuns(s) && !Wedged(s)
    requires s.handlers == [] && s.worker == Starting && s.stopper != Nobody
    ensures Run(start, actions) == Some(t) && Waiting(actions) && Conserved(t) && MainRuns(t) && !Wedged(t)
    ensures t.stopper == s.stopper && RequestToCall(t) && t.worker == Head && !t.shouldFinish
  {
    actions, t := ComesToPush(start, before, s);
    RunKeepsConserved(start, actions);
    actions, t := Then(start, actions, t, Push);
    RunKeepsConserved(start, actions);
  }

  /** User code in the drain waits for the mutex of the thread that stops; then the worker comes to its push. */
  lemma {:induction false} MainComesToWait(s: State) returns (actions: seq<Action>)
    requires Conserved(s) && s.stopper == OtherThread && MainRuns(s) && MayBlock(s, false)
    ensures Waiting(actions) && Run(s, actions).Some? && Deadlocked(Run(s, actions).value)
  {
    var t := s;
    actions := [];
    if !RequestToCall(s) {
      actions, t := ComesOut(s, actions, t);
      actions, t := QueuesOne(s, actions, t);
    }
    actions, t := ComesToCall(s, actions, t);
    assert t.queueLocked by {
      assert t.handlers == [InCall];
    }
    actions, t := Then(s, actions, t, WaitForMutex);
    actions, t := ComesToPush(s, actions, t);
  }

  lemma {:induction false} BlocksInRun(s: State, byMain: bool) returns (actions: seq<Action>)
    requires Conserved(s) && Next(s, StopSetsFlag(byMain)).Some? && MayBlock(s, byMain)
    ensures var s' := Next(s, StopSetsFlag(byMain)).value;
      Waiting(actions) && Run(s', actions).Some? && Deadlocked(Run(s', actions).value)
  {
    var s' := Next(s, StopSetsFlag(byMain)).value;
    NextKeepsConserved(s, StopSetsFlag(byMain));
    if byMain {
      var t;
      actions, t := ComesToPush(s', [], s');
    } else {
      actions := MainComesToWait(s');
    }
  }

  /**
    Main result: a waiting stop can end in a deadlock iff the worker can still push and either the stop is inside the
    drain, or another thread stops and the main thread can come to user code in a drain, which may start or stop too.
   */
  lemma {:induction false} StopMayDeadlockIff(s: State, byMain: bool)
    requires Conserved(s) && Next(s, StopSetsFlag(byMain)).Some?
    ensures MayDeadlock(Next(s, StopSetsFlag(byMain)).value) <==> MayBlock(s, byMain)
  {
    var s' := Next(s, StopSetsFlag(byMain)).value;
    NextKeepsConserved(s, StopSetsFlag(byMain));
    if MayBlock(s, byMain) {
      var actions := BlocksInRun(s, byMain);
    } else if actions :| Waiting(actions) && Run(s', actions).Some? && Deadlocked(Run(s', actions).value) {
      SafeForever(s', actions);
    }
  }

  /** However the threads run on, the stop that waits can still return. */
  ghost predicate AlwaysReturns(s: State) {
    forall actions :: Waiting(actions) && Run(s, actions).Some? ==> CanReturn(Run(s, actions).value)
  }

  lemma {:induction false} DeadlockedCannotReturn(t: State)
    requires Conserved(t) && Deadlocked(t)
    ensures !CanReturn(t)
  {
    if more :| Run(t, more).Some? && Run(t, more).value.stopper == Nobody {
      DeadlockedForever(t, more);
    }
  }

  lemma {:induction false} SafeCanReturn(s: State, actions: seq<Action>)
    requires Conserved(s) && Safe(s) && Finishing(s) && Waiting(actions) && Run(s, actions).Some?
    ensures CanReturn(Run(s, actions).value)
  {
    StopTakesEffect(s, actions);
    RunKeepsConserved(s, actions);
    SafeForever(s, actions);
    FinishingCanReturn(Run(s, actions).value);
  }

  /** Main result: no run can keep a stop from returning iff it is neither lost nor can end in a deadlock. */
  lemma {:induction false} StopAlwaysReturnsIff(s: State, byMain: bool)
    requires Conserved(s) && Next(s, StopSetsFlag(byMain)).Some?
    ensures AlwaysReturns(Next(s, StopSetsFlag(byMain)).value) <==> s.worker != Starting && !MayBlock(s, byMain)
  {
    var s' := Next(s, StopSetsFlag(byMain)).value;
    NextKeepsConserved(s, StopSetsFlag(byMain));
    if s.worker == Starting {
      StopCanReturnIff(s, byMain);
      assert Waiting([]) && Run(s', []) == Some(s');
    } else if MayBlock(s, byMain) {
      var actions := BlocksInRun(s, byMain);
      RunKeepsConserved(s', actions);
      DeadlockedCannotReturn(Run(s', actions).value);
    } else {
      forall actions | Waiting(actions) && Run(s', actions).Some?
        ensures CanReturn(Run(s', actions).value)
      {
        SafeCanReturn(s', actions);
      }
    }
  }

  /** User code neither starts nor stops the handler while another thread stops it. */
  predicate NeverWaits(actions: seq<Action>) {
    forall i :: 0 <= i < |actions| ==> !actions[i].WaitForMutex?
  }

  lemma {:induction false} MainGoesOn(s: State, actions: seq<Action>)
    requires s.stopper == OtherThread && MainRuns(s) && Run(s, actions).Some? && Waiting(actions) && NeverWaits(actions)
    ensures MainRuns(Run(s, actions).value)
    decreases |actions|
  {
    if actions != [] {
      var a := actions[0];
      if OfMainThread(a) {
        MainKeepsWorker(s, a);
      } else if OfWorker(a) {
        WorkerKeepsOthers(s, a);
      }
      MainGoesOn(Next(s, a).value, actions[1..]);
    }
  }

  lemma {:induction false} NoDeadlockAhead(s: State, byMain: bool, actions: seq<Action>)
    requires Conserved(s) && Next(s, StopSetsFlag(byMain)).Some? && s.worker != Starting
    requires Waiting(actions) && Run(Next(s, StopSetsFlag(byMain)).value, actions).Some?
    requires MayBlock(s, byMain) ==> !byMain && NeverWaits(actions)
    ensures !Deadlocked(Run(Next(s, StopSetsFlag(byMain)).value, actions).value)
  {
    var s' := Next(s, StopSetsFlag(byMain)).value;
    NextKeepsConserved(s, StopSetsFlag(byMain));
    if MayBlock(s, byMain) {
      MainGoesOn(s', actions);
    } else {
      SafeForever(s', actions);
    }
  }

  /**
    For the caller: a stop after the initial write returns if it cannot end in a deadlock, in particular on the
    main thread outside of the drain; on another thread also if user code does not start or stop meanwhile. While the
    join waits the worker has at most five steps left, and nothing but a drain that is going on delays the next one.
   */
  lemma {:induction false} StopReturns(s: State, byMain: bool, actions: seq<Action>)
    requires Conserved(s) && Next(s, StopSetsFlag(byMain)).Some? && s.worker != Starting
    requires Waiting(actions) && Run(Next(s, StopSetsFlag(byMain)).value, actions).Some?
    requires MayBlock(s, byMain) ==> !byMain && NeverWaits(actions)
    ensures var t := Run(Next(s, StopSetsFlag(byMain)).value, actions).value;
      && WorkerSteps(actions) + StepsLeft(t.worker) <= 5
      && CanReturn(t)
      && if StepsLeft(t.worker) == 0 then Next(t, JoinReturns).Some?
         else if t.worker == Pushing && t.queueLocked then MainRuns(t) && Next(t, DrainStep(t)).Some?
         else Next(t, WorkerNext(t.worker)).Some?
  {
    var s' := Next(s, StopSetsFlag(byMain)).value;
    var t := Run(s', actions).value;
    NextKeepsConserved(s, StopSetsFlag(byMain));
    RunKeepsConserved(s', actions);
    StopTakesEffect(s', actions);
    NoDeadlockAhead(s, byMain, actions);
    FinishingCanReturn(t);
    FinishingMoves(t);
  }

  /** Nothing but a drain keeps the worker, or the join, from its next step. */
  lemma {:induction false} FinishingMoves(t: State)
    requires Conserved(t) && Finishing(t) && !Deadlocked(t)
    ensures
      if StepsLeft(t.worker) == 0 then Next(t, JoinReturns).Some?
      else if t.worker == Pushing && t.queueLocked then MainRuns(t) && Next(t, DrainStep(t)).Some?
      else Next(t, WorkerNext(t.worker)).Some?
  {
    if t.worker == Pushing && t.queueLocked {
      DrainCanStep(t);
    }
  }

  // ---- the states that are stuck are reached ----

  /** From a loop head a new message gets as far as the push. */
  lemma {:induction false} NextMessage(actions: seq<Action>, s: State) returns (more: seq<Action>, s': State)
    requires Run(INIT, actions) == Some(s) && s.worker == Head && !s.shouldFinish
    ensures Run(INIT, more) == Some(s') && s' == s.(worker := Pushing, fates := s.fates + [InHand])
    ensures more == actions + [CheckFlag, Receive, Accept]
  {
    more, s' := Then(INIT, actions, s, CheckFlag);
    more, s' := Then(INIT, more, s', Receive);
    more, s' := Then(INIT, more, s', Accept);
  }

  lemma {:induction false} OneStarted() returns (actions: seq<Action>, s: State)
    ensures Run(INIT, actions) == Some(s) && s == INIT.(worker := Head) && actions == [Start, ClearFlag]
  {
    actions, s := Then(INIT, [], INIT, Start);
    actions, s := Then(INIT, actions, s, ClearFlag);
  }

  lemma {:induction false} OneQueued() returns (actions: seq<Action>, s: State)
    ensures Run(INIT, actions) == Some(s)
    ensures s == INIT.(worker := Head, fates := [Queued], queue := [0])
    ensures forall i :: 0 <= i < |actions| ==> !OfMainThread(actions[i])
  {
    actions, s := OneStarted();
    actions, s := NextMessage(actions, s);
    actions, s := Then(INIT, actions, s, Push);
  }

  /** The main thread runs user code for the front request. */
  lemma {:induction false} OneInCall() returns (actions: seq<Action>, s: State)
    ensures Run(INIT, actions) == Some(s)
    ensures s == INIT.(worker := Head, fates := [Queued], queue := [0], idleInProgress := true, handlers := [InCall],
                       queueLocked := true)
  {
    actions, s := OneQueued();
    actions, s := Then(INIT, actions, s, IdleEvent);
    actions, s := Then(INIT, actions, s, CheckQueue);
    actions, s := Then(INIT, actions, s, LockQueue);
    actions, s := Then(INIT, actions, s, BeginCall);
  }

  // ---- what can become of a message ----

  /** The call for the first request has ended. */
  lemma {:induction false} OneEnded(call: CallEnd) returns (actions: seq<Action>, s: State)
    ensures Run(INIT, actions) == Some(s)
    ensures s == INIT.(worker := Head, fates := [Queued], queue := [0], idleInProgress := true,
                       handlers := [Ended(call)], queueLocked := true)
  {
    hide Run, WorkerStep, ControlStep;
    actions, s := OneInCall();
    actions, s := Then(INIT, actions, s, EndCall(call));
  }

  /** The first request is handled. */
  lemma {:induction false} OneHandled(call: CallEnd, sent: bool) returns (actions: seq<Action>, s: State)
    requires HasReply(call) || !sent
    ensures Run(INIT, actions) == Some(s) && s.fates == [Handled(call, sent)] && s.queue == []
  {
    hide Run, WorkerStep, ControlStep;
    actions, s := OneEnded(call);
    if HasReply(call) {
      actions, s := Then(INIT, actions, s, Send(sent));
    }
    actions, s := Then(INIT, actions, s, Pop);
  }

  /** The first message is received and the worker decides about it at once. */
  lemma {:induction false} OneDecided(f: Fate) returns (actions: seq<Action>, s: State)
    requires f.InHand? || f.Dropped? || f.Answered?
    ensures Run(INIT, actions) == Some(s) && s.fates == [f]
  {
    hide Run, MainStep, ControlStep;
    actions, s := OneStarted();
    actions, s := Then(INIT, actions, s, CheckFlag);
    actions, s := Then(INIT, actions, s, Receive);
    if f.Dropped? {
      actions, s := Then(INIT, actions, s, Drop);
    } else if f.Answered? {
      actions, s := Then(INIT, actions, s, Refuse);
      actions, s := Then(INIT, actions, s, Reject(f.sent));
    }
  }

  /** Nothing is sent for a call that threw. */
  predicate PlainFates(s: State) {
    forall id :: 0 <= id < |s.fates| ==> s.fates[id] != Handled(Threw, true)
  }

  lemma {:induction false} NextKeepsPlain(s: State, a: Action)
    requires Conserved(s) && PlainFates(s) && Next(s, a).Some?
    ensures PlainFates(Next(s, a).value)
  {
    if Quiet(a) {
      QuietStep(s, a);
    } else if a.Pop? {
      PopStep(s);
    } else if a.Send? {
      SendStep(s, a.ok);
    } else if a.Receive? {
      ReceiveStep(s);
    } else {
      DecisionStep(s, a);
    }
  }

  lemma {:induction false} RunKeepsPlain(s: State, actions: seq<Action>)
    requires Conserved(s) && PlainFates(s) && Run(s, actions).Some?
    ensures PlainFates(Run(s, actions).value)
    decreases |actions|
  {
    if actions != [] {
      NextKeepsPlain(s, actions[0]);
      NextKeepsConserved(s, actions[0]);
      RunKeepsPlain(Next(s, actions[0]).value, actions[1..]);
    }
  }

  lemma {:induction false} NotPlain()
    ensures forall s: State :: s.fates == [Handled(Threw, true)] ==> !PlainFates(s)
  {
    forall s: State | s.fates == [Handled(Threw, true)]
      ensures !PlainFates(s)
    {
      assert s.fates[0] == Handled(Threw, true);
    }
  }

  /** In some run this becomes of the first message. */
  ghost predicate CanBecome(f: Fate) {
    exists actions :: Run(INIT, actions).Some? && Run(INIT, actions).value.fates == [f]
  }

  /** Main result: everything can become of a message except that a call throws and is replied to nevertheless. */
  lemma {:induction false} CanBecomeIff(f: Fate)
    ensures CanBecome(f) <==> f != Handled(Threw, true)
  {
    if f == Handled(Threw, true) {
      NotPlain();
      if actions :| Run(INIT, actions).Some? && Run(INIT, actions).value.fates == [f] {
        RunKeepsPlain(INIT, actions);
      }
    } else if f.Handled? {
      var actions, s := OneHandled(f.call, f.sent);
    } else if f.Queued? {
      var actions, s := OneQueued();
    } else {
      var actions, s := OneDecided(f);
    }
  }

  /** A stop called by user code while the worker has a request to push. */
  lemma {:induction false} DeadlockReachable() returns (actions: seq<Action>)
    ensures Run(INIT, actions).Some? && Deadlocked(Run(INIT, actions).value)
  {
    var s;
    actions, s := OneInCall();
    actions, s := NextMessage(actions, s);
    actions, s := Then(INIT, actions, s, StopSetsFlag(true));
  }

  /** Another thread stops and the main thread, in user code of a drain, wants to start or stop as well. */
  lemma {:induction false} OtherDeadlockReachable() returns (actions: seq<Action>)
    ensures Run(INIT, actions).Some? && Deadlocked(Run(INIT, actions).value)
    ensures Run(INIT, actions).value.stopper == OtherThread
  {
    var s;
    actions, s := OneInCall();
    actions, s := NextMessage(actions, s);
    actions, s := Then(INIT, actions, s, StopSetsFlag(false));
    actions, s := Then(INIT, actions, s, WaitForMutex);
  }

  /** A stop during a drain, while the worker still waits for a message: it can return, and it can deadlock. */
  lemma {:induction false} LaterDeadlockReachable(byMain: bool) returns (actions: seq<Action>)
    ensures Run(INIT, actions).Some?
    ensures var s := Run(INIT, actions).value;
      && s.worker == Receiving && s.stopper == (if byMain then MainThread else OtherThread)
      && CanReturn(s) && MayDeadlock(s)
  {
    var s, s';
    actions, s := OneInCall();
    actions, s := Then(INIT, actions, s, CheckFlag);
    var before := actions;
    actions, s' := Then(INIT, actions, s, StopSetsFlag(byMain));
    assert Conserved(s) by {
      InitConserved();
      RunKeepsConserved(INIT, before);
    }
    StopCanReturnIff(s, byMain);
    StopMayDeadlockIff(s, byMain);
  }

  lemma {:induction false} InitConserved()
    ensures Conserved(INIT)
  {
  }

  /** A stop called before the new worker has written the flag. */
  lemma {:induction false} LostReachable() returns (actions: seq<Action>)
    ensures Run(INIT, actions).Some? && Lost(Run(INIT, actions).value)
  {
    var s;
    actions, s := Then(INIT, [], INIT, Start);
    actions, s := Then(INIT, actions, s, StopSetsFlag(false));
    actions, s := Then(INIT, actions, s, ClearFlag);
  }
}
