/**
  The flag `idleInProgress` of the IDLE handler (ZeroMQ.cpp): it alone keeps an IDLE event that arrives
  while user code runs inside the drain from locking the queue's mutex a second time.
 */
module IdleGuard {
  import opened Wrappers
  import opened Pipeline
  import opened Lifecycle

  /** Main result: in every run at most one activation exists and the holder of the queue never locks it again. */
  lemma {:induction false} NeverLockedAgain(actions: seq<Action>)
    requires Run(INIT, actions).Some?
    ensures var s := Run(INIT, actions).value; !s.relocked && |s.handlers| <= 1
  {
    RunKeepsConserved(INIT, actions);
  }

  /** An IDLE event that arrives during a call for a drained request changes nothing. */
  lemma {:induction false} NestedEventIgnored(actions: seq<Action>)
    requires Run(INIT, actions).Some? && Run(INIT, actions).value.handlers != []
    requires Next(Run(INIT, actions).value, IdleEvent).Some?
    ensures Next(Run(INIT, actions).value, IdleEvent) == Run(INIT, actions)
  {
    RunKeepsConserved(INIT, actions);
  }

  /** The same program with a handler that does not look at the flag. */
  function RunUnguarded(s: State, actions: seq<Action>): Option<State>
    decreases |actions|
  {
    if actions == [] then Some(s)
    else
      var s' := Step(false, s, actions[0]);
      if s'.None? then None else RunUnguarded(s'.value, actions[1..])
  }

  lemma {:induction false} RunUnguardedSnoc(s: State, actions: seq<Action>, a: Action)
    requires RunUnguarded(s, actions).Some?
    ensures RunUnguarded(s, actions + [a]) == Step(false, RunUnguarded(s, actions).value, a)
    decreases |actions|
  {
    if actions == [] {
      assert [a][1..] == [];
    } else {
      RunUnguardedSnoc(Step(false, s, actions[0]).value, actions[1..], a);
      assert (actions + [a])[1..] == actions[1..] + [a];
    }
  }

  lemma {:induction false} OthersKeepHandlers(s: State, a: Action)
    requires Guarded(s) && !OfMainThread(a) && Next(s, a).Some?
    ensures Guarded(Next(s, a).value)
  {
  }

  lemma {:induction false} CheckedWithoutGuard() returns (actions: seq<Action>, s: State)
    ensures RunUnguarded(INIT, actions) == Some(s)
    ensures s == INIT.(worker := Head, fates := [Queued], queue := [0], idleInProgress := true, handlers := [Checked])
  {
    actions, s := OneQueued();
    SameWithoutGuard(INIT, actions);
    actions, s := ThenUnguarded(actions, s, IdleEvent);
    actions, s := ThenUnguarded(actions, s, CheckQueue);
  }

  lemma {:induction false} InCallWithoutGuard() returns (actions: seq<Action>, s: State)
    ensures RunUnguarded(INIT, actions) == Some(s) && At(s, InCall) && s.queueLocked && MainRuns(s)
  {
    actions, s := CheckedWithoutGuard();
    actions, s := ThenUnguarded(actions, s, LockQueue);
    actions, s := ThenUnguarded(actions, s, BeginCall);
  }

  /** Without the flag the mutex is locked again by its holder: by the nested handler's look at the queue. */
  lemma {:induction false} LockedAgainWithoutGuard() returns (actions: seq<Action>)
    ensures RunUnguarded(INIT, actions).Some? && RunUnguarded(INIT, actions).value.relocked
  {
    var s;
    actions, s := InCallWithoutGuard();
    actions, s := ThenUnguarded(actions, s, IdleEvent);
    actions, s := ThenUnguarded(actions, s, CheckQueue);
  }

  /** The flag makes no difference to the other threads. */
  lemma {:induction false} SameWithoutGuard(s: State, actions: seq<Action>)
    requires Run(s, actions).Some? && forall i :: 0 <= i < |actions| ==> !OfMainThread(actions[i])
    ensures RunUnguarded(s, actions) == Run(s, actions)
    decreases |actions|
  {
    if actions != [] {
      assert !OfMainThread(actions[0]);
      SameWithoutGuard(Next(s, actions[0]).value, actions[1..]);
    }
  }

  lemma {:induction false} ThenUnguarded(actions: seq<Action>, s: State, a: Action)
    returns (more: seq<Action>, s': State)
    requires RunUnguarded(INIT, actions) == Some(s) && Step(false, s, a).Some?
    ensures RunUnguarded(INIT, more) == Some(s') && s' == Step(false, s, a).value
  {
    RunUnguardedSnoc(INIT, actions, a);
    more, s' := actions + [a], Step(false, s, a).value;
  }

  // ---- an exception in the handler ----

  /** The flag is left behind exactly by an exception in the handler. */
  lemma {:induction false} WedgedIff(s: State, a: Action)
    requires Conserved(s) && Next(s, a).Some?
    ensures Wedged(Next(s, a).value) <==> Wedged(s) || a == IdleThrows
  {
    hide InOrder, OneInHand, RepliesCounted, MainStep;
    if OfMainThread(a) {
      MainWedgedIff(s, a);
    }
  }

  lemma {:induction false} MainWedgedIff(s: State, a: Action)
    requires Guarded(s) && MainStep(true, s, a).Some?
    ensures Wedged(MainStep(true, s, a).value) <==> Wedged(s) || a == IdleThrows
    ensures Wedged(s) ==> MainStep(true, s, a).value == s
  {
  }

  /** From then on every IDLE event is ignored: no request is handled, whatever the queue holds. */
  lemma {:induction false} WedgedForever(s: State, actions: seq<Action>)
    requires Guarded(s) && Wedged(s) && Run(s, actions).Some?
    ensures Wedged(Run(s, actions).value) && Run(s, actions).value.handled == s.handled
    decreases |actions|
  {
    if actions != [] {
      var a := actions[0];
      if OfMainThread(a) {
        MainWedgedIff(s, a);
      } else {
        OthersKeepHandlers(s, a);
      }
      WedgedForever(Next(s, a).value, actions[1..]);
    }
  }

  /** An exception while the first request waits in the queue. */
  lemma {:induction false} WedgedReachable() returns (actions: seq<Action>)
    ensures Run(INIT, actions).Some?
    ensures var s := Run(INIT, actions).value; Wedged(s) && s.queue != []
  {
    var s;
    actions, s := OneQueued();
    actions, s := Then(INIT, actions, s, IdleEvent);
    actions, s := Then(INIT, actions, s, CheckQueue);
    actions, s := Then(INIT, actions, s, IdleThrows);
  }
}
