/**
  Output to Igor's history (ConcurrentXOPNotice.cpp). Only the main thread may print; other threads
  queue their notices, which the main thread prints before its own output and at IDLE events.
 */
module Notices {
  import opened Wrappers
  import opened Sequences
  import opened ConcurrentQueue

  /** Whether printing marks the experiment as modified. */
  datatype Notice = Notice(msg: string, modifies_: bool)

  /** What a notice adds to the history: nothing, or one line. */
  function Line(n: Notice): seq<Notice> {
    if n.msg == "" then [] else [Notice(n.msg + "\r", n.modifies_)]
  }

  /** Nothing is printed of an empty text; any other is one line, ended by a carriage return. */
  lemma {:induction false} LineMeans(msg: string, modifies_: bool)
    ensures msg == "" ==> Lines([Notice(msg, modifies_)]) == []
    ensures msg != "" ==> Lines([Notice(msg, modifies_)]) == [Notice(msg + "\r", modifies_)]
  {
    LinesOne(Notice(msg, modifies_));
  }

  function Lines(ns: seq<Notice>): seq<Notice> {
    if ns == [] then [] else Lines(ns[..|ns| - 1]) + Line(ns[|ns| - 1])
  }

  lemma {:induction false} LinesAppend(a: seq<Notice>, b: seq<Notice>)
    ensures Lines(a + b) == Lines(a) + Lines(b)
    decreases |b|
  {
    if b == [] {
      assert a + b == a;
    } else {
      var n := |b| - 1;
      LinesAppend(a, b[..n]);
      assert (a + b)[..|a + b| - 1] == a + b[..n];
      Reassociate(Lines(a), Lines(b[..n]), Line(b[n]));
    }
  }

  lemma {:induction false} LinesOne(n: Notice)
    ensures Lines([n]) == Line(n)
  {
    assert [n][..0] == [];
  }

  class History {
    var printed: seq<Notice>

    method OutputToHistory(n: Notice)
      modifies this
      ensures printed == old(printed) + Line(n)
    {
      if n.msg != "" {
        printed := printed + [Notice(n.msg + "\r", n.modifies_)];
      }
    }
  }

  /** OutputToHistory_TS when no other thread interferes: by then all queued notices are printed. */
  method OutputToHistory_TS(history: History, queue: Queue<Notice>, inMainThread: bool, n: Notice)
    modifies history, queue
    ensures inMainThread ==>
      queue.items == [] && history.printed == old(history.printed) + Lines(old(queue.items) + [n])
    ensures !inMainThread ==> queue.items == old(queue.items) + [n] && history.printed == old(history.printed)
  {
    if inMainThread {
      OutputQueuedNotices(history, queue, inMainThread);
      history.OutputToHistory(n);
      LinesAppend(old(queue.items), [n]);
      LinesOne(n);
    } else {
      queue.Push(n);
    }
  }

  method OutputQueuedNotices(history: History, queue: Queue<Notice>, inMainThread: bool)
    modifies history, queue
    ensures inMainThread ==> queue.items == [] && history.printed == old(history.printed) + Lines(old(queue.items))
    ensures !inMainThread ==> queue.items == old(queue.items) && history.printed == old(history.printed)
  {
    if !inMainThread {
      return;
    }
    var all := queue.ApplyToAll();
    for i := 0 to |all|
      invariant queue.items == [] && history.printed == old(history.printed) + Lines(all[..i])
    {
      history.OutputToHistory(all[i]);
      assert all[..i + 1][..i] == all[..i];
    }
    assert all[..|all|] == all;
  }

  // ---- several threads ----

  /** The main thread prints the queue holding its mutex, then its own notice without it. */
  datatype Main = Elsewhere | Draining(after: Option<Notice>) | Printing(own: Notice)

  type Thread = nat

  const MAIN: Thread := 0

  /**
    `log` lists the outputs in the order of the pushes and of the ends of the main thread's drains, `threads`
    the threads they come from.
   */
  datatype State = State(queue: seq<Notice>, printed: seq<Notice>, main: Main, log: seq<Notice>, threads: seq<Thread>)

  datatype Action = WorkerOutput(t: Thread, n: Notice) | MainOutput(own: Option<Notice>)
                  | PrintFront | DrainEnds | PrintOwn

  const INIT := State([], [], Elsewhere, [], [])

  function Next(s: State, a: Action): Option<State> {
    match a
    case WorkerOutput(t, n) => // any thread but the main thread
      if s.main.Draining? || t == MAIN then None
      else Some(s.(queue := s.queue + [n], log := s.log + [n], threads := s.threads + [t]))
    case MainOutput(own) => // an IDLE event has no notice of its own
      if s.main != Elsewhere then None else Some(s.(main := Draining(own)))
    case PrintFront =>
      if !s.main.Draining? || s.queue == [] then None
      else Some(s.(printed := s.printed + Line(s.queue[0]), queue := s.queue[1..]))
    case DrainEnds =>
      if !s.main.Draining? || s.queue != [] then None
      else if s.main.after.None? then Some(s.(main := Elsewhere))
      else
        var own := s.main.after.value;
        Some(s.(main := Printing(own), log := s.log + [own], threads := s.threads + [MAIN]))
    case PrintOwn =>
      if !s.main.Printing? then None else Some(s.(printed := s.printed + Line(s.main.own), main := Elsewhere))
  }

  function Run(s: State, actions: seq<Action>): Option<State>
    decreases |actions|
  {
    if actions == [] then Some(s)
    else
      var s' := Next(s, actions[0]);
      if s'.None? then None else Run(s'.value, actions[1..])
  }

  /** The notices still to be printed. */
  function ToPrint(s: State): seq<Notice> {
    (if s.main.Printing? then [s.main.own] else []) + s.queue
  }

  /** What has been printed and what is still to come are together all outputs in order. */
  predicate InOrder(log: seq<Notice>, printed: seq<Notice>, todo: seq<Notice>) {
    Lines(log) == printed + Lines(todo)
  }

  predicate HistoryInOrder(s: State) {
    InOrder(s.log, s.printed, ToPrint(s))
  }

  lemma {:induction false} OneLogged(log: seq<Notice>, printed: seq<Notice>, todo: seq<Notice>, n: Notice)
    requires InOrder(log, printed, todo)
    ensures InOrder(log + [n], printed, todo + [n]) && Lines(log) <= Lines(log + [n])
  {
    LinesAppend(log, [n]);
    LinesAppend(todo, [n]);
  }

  lemma {:induction false} OnePrinted(log: seq<Notice>, printed: seq<Notice>, todo: seq<Notice>)
    requires InOrder(log, printed, todo) && todo != []
    ensures InOrder(log, printed + Line(todo[0]), todo[1..])
  {
    assert todo == [todo[0]] + todo[1..];
    LinesAppend([todo[0]], todo[1..]);
    LinesOne(todo[0]);
  }

  lemma {:induction false} NextKeepsOrder(s: State, a: Action)
    requires HistoryInOrder(s) && Next(s, a).Some?
    ensures HistoryInOrder(Next(s, a).value) && Lines(s.log) <= Lines(Next(s, a).value.log)
  {
    StepsOfToPrint(s, a);
    var todo := ToPrint(s);
    if a.WorkerOutput? {
      OneLogged(s.log, s.printed, todo, a.n);
    } else if a.DrainEnds? && s.main.after.Some? {
      OneLogged(s.log, s.printed, todo, s.main.after.value);
    } else if a.PrintFront? || a.PrintOwn? {
      OnePrinted(s.log, s.printed, todo);
    }
  }

  lemma {:induction false} StepsOfToPrint(s: State, a: Action)
    requires Next(s, a).Some?
    ensures ToPrint(Next(s, a).value) ==
      if a.WorkerOutput? then ToPrint(s) + [a.n]
      else if a.DrainEnds? && s.main.after.Some? then ToPrint(s) + [s.main.after.value]
      else if a.PrintFront? || a.PrintOwn? then ToPrint(s)[1..]
      else ToPrint(s)
    ensures a.PrintFront? || a.PrintOwn? ==> ToPrint(s) != []
  {
  }

  /** Main result: at every moment the history is a prefix of the logged outputs; the rest is pending or queued. */
  lemma {:induction false} HistoryFollowsLog(s: State, actions: seq<Action>)
    requires HistoryInOrder(s) && Run(s, actions).Some?
    ensures var t := Run(s, actions).value; HistoryInOrder(t) && Lines(s.log) <= Lines(t.log)
    decreases |actions|
  {
    if actions != [] {
      NextKeepsOrder(s, actions[0]);
      var s' := Next(s, actions[0]).value;
      HistoryFollowsLog(s', actions[1..]);
      PrefixTransitive(Lines(s.log), Lines(s'.log), Lines(Run(s, actions).value.log));
    }
  }

  /** The steps by which the main thread, in the drain, prints the queue, leaves it and prints its own notice. */
  function Finish(queue: seq<Notice>, own: Option<Notice>): seq<Action> {
    if queue != [] then [PrintFront] + Finish(queue[1..], own)
    else if own.Some? then [DrainEnds, PrintOwn]
    else [DrainEnds]
  }

  /** Main result: a drain can always be finished; then all queued notices and the main thread's own are printed. */
  lemma {:induction false} DrainFinishes(s: State)
    requires s.main.Draining?
    ensures var t := Run(s, Finish(s.queue, s.main.after));
      && t.Some? && t.value.queue == [] && t.value.main == Elsewhere
      && t.value.printed == s.printed + Lines(s.queue + if s.main.after.Some? then [s.main.after.value] else [])
    decreases |s.queue|
  {
    var own := if s.main.after.Some? then [s.main.after.value] else [];
    if s.queue != [] {
      var s' := Next(s, PrintFront).value;
      DrainFinishes(s');
      assert Finish(s.queue, s.main.after)[1..] == Finish(s'.queue, s.main.after);
      LinesAppend([s.queue[0]], s'.queue + own);
      LinesOne(s.queue[0]);
      assert [s.queue[0]] + (s'.queue + own) == s.queue + own;
      Reassociate(s.printed, Line(s.queue[0]), Lines(s'.queue + own));
    } else if s.main.after.Some? {
      assert [DrainEnds, PrintOwn][1..] == [PrintOwn] && [PrintOwn][1..] == [];
      LinesOne(s.main.after.value);
      assert s.queue + own == own;
    } else {
      assert [DrainEnds][1..] == [] && s.queue + own == [];
    }
  }

  /** A thread other than the main thread can queue a notice whenever the queue is not being drained. */
  lemma {:induction false} OutputPossible(s: State, t: Thread, n: Notice, own: Option<Notice>)
    ensures Next(s, WorkerOutput(t, n)).Some? <==> t != 0 && !s.main.Draining?
    ensures Next(s, WorkerOutput(t, n)).Some? ==> Next(s, WorkerOutput(t, n)).value.queue == s.queue + [n]
    ensures s.main == Elsewhere ==> Next(s, MainOutput(own)) == Some(s.(main := Draining(own)))
  {
  }

  /** When the main thread turns to its own notice, everything logged before has been printed. */
  lemma {:induction false} AllPrinted(s: State, a: Action)
    requires HistoryInOrder(s) && Next(s, a).Some? && !s.main.Printing? && Next(s, a).value.main.Printing?
    ensures Next(s, a).value.printed == Lines(s.log)
  {
    assert ToPrint(s) == [];
  }

  /** Whatever was logged before a main-thread output starts is printed before that output. */
  lemma {:induction false} EarlierNoticesFirst(s: State, actions: seq<Action>)
    requires HistoryInOrder(s) && Run(s, actions).Some? && Run(s, actions).value.main.Printing?
    requires !s.main.Printing?
    ensures Lines(s.log) <= Run(s, actions).value.printed
    decreases |actions|
  {
    if actions != [] {
      NextKeepsOrder(s, actions[0]);
      var s' := Next(s, actions[0]).value;
      var t := Run(s, actions).value;
      if s'.main.Printing? {
        AllPrinted(s, actions[0]);
        PrintedGrows(s', actions[1..]);
      } else {
        EarlierNoticesFirst(s', actions[1..]);
        PrefixTransitive(Lines(s.log), Lines(s'.log), t.printed);
      }
    }
  }

  lemma {:induction false} PrintedGrows(s: State, actions: seq<Action>)
    requires Run(s, actions).Some?
    ensures s.printed <= Run(s, actions).value.printed
    decreases |actions|
  {
    if actions != [] {
      var s' := Next(s, actions[0]).value;
      PrintedGrows(s', actions[1..]);
      PrefixTransitive(s.printed, s'.printed, Run(s, actions).value.printed);
    }
  }

  // ---- the order within one thread ----

  /** What one thread has logged. */
  function Project(log: seq<Notice>, threads: seq<Thread>, t: Thread): seq<Notice>
    requires |log| == |threads|
  {
    if log == [] then []
    else
      var n := |log| - 1;
      Project(log[..n], threads[..n], t) + if threads[n] == t then [log[n]] else []
  }

  lemma {:induction false} ProjectSnoc(log: seq<Notice>, threads: seq<Thread>, n: Notice, u: Thread, t: Thread)
    requires |log| == |threads|
    ensures Project(log + [n], threads + [u], t) == Project(log, threads, t) + if u == t then [n] else []
  {
    assert (log + [n])[..|log|] == log && (threads + [u])[..|threads|] == threads;
  }

  /** The output the main thread has begun and not yet logged. */
  function Begun(s: State, t: Thread): seq<Notice> {
    if t == MAIN && s.main.Draining? && s.main.after.Some? then [s.main.after.value] else []
  }

  /** What one thread has output so far. */
  function Made(s: State, t: Thread): seq<Notice>
    requires |s.log| == |s.threads|
  {
    Project(s.log, s.threads, t) + Begun(s, t)
  }

  /** The output of a step that belongs to the program of one thread. */
  function OutputOf(a: Action, t: Thread): seq<Notice> {
    if a.WorkerOutput? && a.t == t then [a.n]
    else if a.MainOutput? && a.own.Some? && t == MAIN then [a.own.value]
    else []
  }

  /** The outputs of one thread in the order of its program. */
  function Program(actions: seq<Action>, t: Thread): seq<Notice> {
    if actions == [] then [] else OutputOf(actions[0], t) + Program(actions[1..], t)
  }

  lemma {:induction false} StepMakes(s: State, a: Action, t: Thread)
    requires |s.log| == |s.threads| && Next(s, a).Some?
    ensures var s' := Next(s, a).value; |s'.log| == |s'.threads| && Made(s', t) == Made(s, t) + OutputOf(a, t)
  {
    if a.WorkerOutput? {
      ProjectSnoc(s.log, s.threads, a.n, a.t, t);
    } else if a.DrainEnds? && s.main.after.Some? {
      ProjectSnoc(s.log, s.threads, s.main.after.value, MAIN, t);
    }
  }

  /** Main result: each thread's outputs are logged, and hence printed, in the order of its program; none is lost. */
  lemma {:induction false} ProgramOrderKept(s: State, actions: seq<Action>, t: Thread)
    requires |s.log| == |s.threads| && Run(s, actions).Some?
    ensures var s' := Run(s, actions).value;
      |s'.log| == |s'.threads| && Made(s', t) == Made(s, t) + Program(actions, t)
    decreases |actions|
  {
    if actions != [] {
      StepMakes(s, actions[0], t);
      ProgramOrderKept(Next(s, actions[0]).value, actions[1..], t);
      Reassociate(Made(s, t), OutputOf(actions[0], t), Program(actions[1..], t));
    }
  }
}
