/**
  Start and Stop with all threads they ever created (MessageHandler.cpp): the thread object tells whether
  there is a thread to join. Seen through the current thread this system takes the steps of Pipeline, so
  that what holds there for one worker holds here for any number of starts and stops.
 */
module Threads {
  import opened Wrappers
  import opened Pipeline

  /** `threads` are all threads created so far; `shared` is the rest of the state, its worker is not used. */
  datatype Process = Process(threads: seq<Worker>, joinable: bool, shared: State)

  datatype Step = StartThread | StopThread(byMain: bool) | MainBlocks | JoinThread | OfThread(t: nat, a: Action)
                | OfMain(a: Action)

  const INITIALLY := Process([], false, INIT)

  /** Every thread runs the worker's code; nothing but the thread object keeps a second one from being created. */
  function NextProcess(p: Process, step: Step): Option<Process> {
    match step
    case StartThread =>
      if p.joinable || p.shared.stopper != Nobody || !MainRuns(p.shared) || !InUserCode(p.shared) then None
      else Some(p.(threads := p.threads + [Starting], joinable := true))
    case StopThread(byMain) =>
      if !p.joinable || p.shared.stopper != Nobody then None
      else if byMain && (!MainRuns(p.shared) || !InUserCode(p.shared)) then None
      else Some(p.(shared := p.shared.(shouldFinish := true, stopper := if byMain then MainThread else OtherThread)))
    case MainBlocks =>
      if p.shared.stopper != OtherThread || !MainRuns(p.shared) || !InUserCode(p.shared) then None
      else Some(p.(shared := p.shared.(mainWaits := true)))
    case JoinThread =>
      if p.shared.stopper == Nobody || p.threads == [] || p.threads[|p.threads| - 1] != Exited then None
      else Some(p.(joinable := false, shared := p.shared.(stopper := Nobody, mainWaits := false)))
    case OfThread(t, a) =>
      if t >= |p.threads| || !OfWorker(a) then None
      else
        var s := Next(p.shared.(worker := p.threads[t]), a);
        if s.None? then None
        else Some(p.(threads := p.threads[t := s.value.worker], shared := s.value.(worker := NoThread)))
    case OfMain(a) =>
      if !OfMainThread(a) then None
      else
        var s := Next(p.shared, a);
        if s.None? then None else Some(p.(shared := s.value))
  }

  function RunProcess(p: Process, steps: seq<Step>): Option<Process>
    decreases |steps|
  {
    if steps == [] then Some(p)
    else
      var p' := NextProcess(p, steps[0]);
      if p'.None? then None else RunProcess(p'.value, steps[1..])
  }

  /** The thread that can be joined. */
  function Current(p: Process): Worker {
    if p.joinable && p.threads != [] then p.threads[|p.threads| - 1] else NoThread
  }

  /** The state as Pipeline sees it. */
  function Seen(p: Process): State {
    p.shared.(worker := Current(p))
  }

  function SeenStep(step: Step): Action {
    match step
    case StartThread => Start
    case StopThread(byMain) => StopSetsFlag(byMain)
    case MainBlocks => WaitForMutex
    case JoinThread => JoinReturns
    case OfThread(_, a) => a
    case OfMain(a) => a
  }

  /** All threads but the one that can be joined have exited. */
  predicate OneAlive(p: Process) {
    && p.shared.worker == NoThread
    && (p.joinable ==> p.threads != [] && p.threads[|p.threads| - 1] != NoThread)
    && (!p.joinable ==> p.shared.stopper == Nobody)
    && (forall t :: 0 <= t < |p.threads| && !(p.joinable && t == |p.threads| - 1) ==> p.threads[t] == Exited)
  }

  /** A thread that has exited, or does not exist, takes no step; any other never stops existing. */
  lemma {:induction false} OnlyAliveStep(s: State, a: Action)
    requires OfWorker(a) && Next(s, a).Some?
    ensures s.worker != Exited && s.worker != NoThread && Next(s, a).value.worker != NoThread
    ensures Next(s, a).value.stopper == s.stopper
  {
  }

  /** What the steps of the main thread do depends on everything but the worker's position, which stays. */
  predicate Independent(s: State, a: Action, w: Worker) {
    MainStep(true, s.(worker := w), a) ==
    if MainStep(true, s, a).None? then None else Some(MainStep(true, s, a).value.(worker := w))
  }

  lemma {:induction false} CallIgnoresWorker(s: State, a: Action, w: Worker)
    requires a.BeginCall? || a.EndCall?
    ensures Independent(s, a, w)
  {
  }

  lemma {:induction false} SendIgnoresWorker(s: State, ok: bool, w: Worker)
    ensures Independent(s, Send(ok), w)
  {
  }

  lemma {:induction false} PopIgnoresWorker(s: State, w: Worker)
    ensures Independent(s, Pop, w)
  {
  }

  lemma {:induction false} EventIgnoresWorker(s: State, a: Action, w: Worker)
    requires a.IdleEvent? || a.CheckQueue? || a.LockQueue? || a.UnlockQueue? || a.IdleEnds? || a.IdleThrows?
    ensures Independent(s, a, w)
  {
  }

  lemma {:induction false} MainIgnoresWorker(s: State, a: Action, w: Worker)
    requires OfMainThread(a)
    ensures Independent(s, a, w)
  {
    if a.Pop? {
      PopIgnoresWorker(s, w);
    } else if a.BeginCall? || a.EndCall? {
      CallIgnoresWorker(s, a, w);
    } else if a.Send? {
      SendIgnoresWorker(s, a.ok, w);
    } else {
      EventIgnoresWorker(s, a, w);
    }
  }

  lemma {:induction false} ThreadIsSeen(p: Process, t: nat, a: Action)
    requires OneAlive(p) && NextProcess(p, OfThread(t, a)).Some?
    ensures OneAlive(NextProcess(p, OfThread(t, a)).value)
    ensures Next(Seen(p), a) == Some(Seen(NextProcess(p, OfThread(t, a)).value))
  {
    OnlyAliveStep(p.shared.(worker := p.threads[t]), a);
    assert t == |p.threads| - 1 && p.joinable;
  }

  lemma {:induction false} MainIsSeen(p: Process, a: Action)
    requires OneAlive(p) && NextProcess(p, OfMain(a)).Some?
    ensures OneAlive(NextProcess(p, OfMain(a)).value)
    ensures Next(Seen(p), a) == Some(Seen(NextProcess(p, OfMain(a)).value))
  {
    MainIgnoresWorker(p.shared, a, Current(p));
    MainKeepsWorker(p.shared, a);
  }

  lemma {:induction false} StepIsSeen(p: Process, step: Step)
    requires OneAlive(p) && NextProcess(p, step).Some?
    ensures OneAlive(NextProcess(p, step).value)
    ensures Next(Seen(p), SeenStep(step)) == Some(Seen(NextProcess(p, step).value))
  {
    match step
    case OfThread(t, a) => ThreadIsSeen(p, t, a);
    case OfMain(a) => MainIsSeen(p, a);
    case _ =>
  }

  function SeenSteps(steps: seq<Step>): (actions: seq<Action>)
    ensures |actions| == |steps|
  {
    if steps == [] then [] else [SeenStep(steps[0])] + SeenSteps(steps[1..])
  }

  /** Main result: in every run at most one thread is alive, and the run is one of Pipeline's. */
  lemma {:induction false} RunIsSeen(p: Process, steps: seq<Step>)
    requires OneAlive(p) && RunProcess(p, steps).Some?
    ensures OneAlive(RunProcess(p, steps).value)
    ensures Run(Seen(p), SeenSteps(steps)) == Some(Seen(RunProcess(p, steps).value))
    decreases |steps|
  {
    if steps != [] {
      StepIsSeen(p, steps[0]);
      RunIsSeen(NextProcess(p, steps[0]).value, steps[1..]);
      assert SeenSteps(steps)[1..] == SeenSteps(steps[1..]);
    }
  }

  /** Conservation for any number of starts and stops, with all threads that were ever created. */
  lemma {:induction false} AllThreadsConserve(steps: seq<Step>)
    requires RunProcess(INITIALLY, steps).Some?
    ensures var s := Seen(RunProcess(INITIALLY, steps).value);
      Increasing(s.handled + s.queue) && forall id :: 0 <= id < |s.fates| ==> Accounted(s, id)
  {
    RunIsSeen(INITIALLY, steps);
    assert Seen(INITIALLY) == INIT;
    MessagesConserved(SeenSteps(steps));
  }

  /** Main result, the other way round: each step of Pipeline is one of these threads, so that nothing else is lost. */
  lemma {:induction false} StepIsTaken(p: Process, a: Action) returns (step: Step)
    requires OneAlive(p) && Next(Seen(p), a).Some?
    ensures NextProcess(p, step).Some? && SeenStep(step) == a
    ensures Some(Seen(NextProcess(p, step).value)) == Next(Seen(p), a)
  {
    if OfWorker(a) {
      OnlyAliveStep(Seen(p), a);
      step := OfThread(|p.threads| - 1, a);
    } else if OfMainThread(a) {
      MainIgnoresWorker(p.shared, a, Current(p));
      step := OfMain(a);
    } else {
      match a
      case Start => step := StartThread;
      case StopSetsFlag(byMain) => step := StopThread(byMain);
      case WaitForMutex => step := MainBlocks;
      case JoinReturns => step := JoinThread;
      case _ =>
    }
    StepIsSeen(p, step);
  }
}
