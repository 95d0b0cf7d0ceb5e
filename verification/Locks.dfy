/**
  The mutexes of the program and their order. The joining of the worker thread is one more lock, which
  the worker holds from its creation to its end.

  A thread runs blocks of code that take a lock, run further blocks and release the lock. Any number of
  threads run any such code; the only assumption is that the code the user calls while the request queue
  is being drained neither starts nor stops the message handler.
 */
module Locks {
  import opened Sockets
  import opened Wrappers

  datatype Lock = ThreadMutex | Join | QueueMutex | FinishMutex | SocketMutex(st: SocketType)
                | SettingsMutex | LoggingMutex | NoticeMutex

  function Rank(l: Lock): nat {
    match l
    case ThreadMutex => 0
    case Join => 1
    case QueueMutex => 2
    case FinishMutex => 3
    case SocketMutex(_) => 4
    case SettingsMutex => 5
    case LoggingMutex => 6
    case NoticeMutex => 7
  }

  /** The queues have a plain mutex. */
  predicate Recursive(l: Lock) {
    !l.Join? && !l.QueueMutex? && !l.NoticeMutex?
  }

  // ---- the blocks of code ----

  /** Create stands for the creation of the worker thread; its code runs in that thread. */
  datatype Block = Locked(lock: Lock, body: seq<Block>) | Create(body: seq<Block>)

  /** Output of a notice, DEBUG_OUTPUT included. */
  predicate Notice(b: Block) {
    b == Locked(NoticeMutex, [])
  }

  predicate Notices(bs: seq<Block>) {
    forall i :: 0 <= i < |bs| ==> Notice(bs[i])
  }

  /** Writing to the log file, or replacing it. */
  predicate LogUse(b: Block) {
    b.Locked? && b.lock == LoggingMutex && Notices(b.body)
  }

  /** Use of one socket, which may itself lock that socket again, and log. */
  predicate SocketUse(b: Block, st: SocketType) {
    b.Locked? && b.lock == SocketMutex(st) && SocketBody(b.body, st)
  }

  predicate SocketBody(bs: seq<Block>, st: SocketType) {
    forall i :: 0 <= i < |bs| ==> Notice(bs[i]) || LogUse(bs[i]) || SocketUse(bs[i], st)
  }

  /** What any function offered to the user may do, apart from starting and stopping the handler. */
  predicate UserCode(b: Block) {
    b.Locked? && match b.lock
      case SocketMutex(st) => SocketUse(b, st)
      case SettingsMutex => Notices(b.body)
      case LoggingMutex => LogUse(b)
      case NoticeMutex => Notice(b)
      case _ => false
  }

  /** The worker's code: receive, send, log, output, check the flag, push. */
  predicate WorkerCode(b: Block) {
    UserCode(b) || b == Locked(QueueMutex, []) || (b.Locked? && b.lock == FinishMutex && Notices(b.body))
  }

  /** HandleAllQueuedMessages: the queue is locked alone, or while requests are handled. */
  predicate DrainCode(b: Block) {
    b.Locked? && b.lock == QueueMutex && forall i :: 0 <= i < |b.body| ==> UserCode(b.body[i])
  }

  /** MessageHandler::Start */
  predicate StartCode(b: Block) {
    b.Locked? && b.lock == ThreadMutex && forall i :: 0 <= i < |b.body| ==>
      || UserCode(b.body[i])
      || (b.body[i].Create? && forall j :: 0 <= j < |b.body[i].body| ==> WorkerCode(b.body[i].body[j]))
  }

  /** MessageHandler::Stop */
  predicate StopCode(b: Block) {
    b.Locked? && b.lock == ThreadMutex && forall i :: 0 <= i < |b.body| ==>
      Notice(b.body[i]) || b.body[i] == Locked(FinishMutex, []) || b.body[i] == Locked(Join, [])
  }

  predicate ThreadCode(b: Block) {
    UserCode(b) || DrainCode(b) || StartCode(b) || StopCode(b)
  }

  /** A log entry with a notice about it. */
  const LOGS: seq<Block> := [Locked(LoggingMutex, [Locked(NoticeMutex, [])])]

  /** Starting: a look at the sockets, then the worker, which checks its flag, receives, queues and replies. */
  const STARTING: Block :=
    Locked(ThreadMutex, [Locked(NoticeMutex, []), Locked(SettingsMutex, []), Create([
      Locked(FinishMutex, [Locked(NoticeMutex, [])]), Locked(SocketMutex(Server), LOGS), Locked(QueueMutex, [])])])

  const STOPPING: Block :=
    Locked(ThreadMutex, [Locked(NoticeMutex, []), Locked(FinishMutex, []), Locked(Join, [])])

  /** Draining: any use of a socket by the called function, the log, and the reply. */
  function Draining(st: SocketType): Block {
    Locked(QueueMutex, [Locked(SocketMutex(st), LOGS), LOGS[0], Locked(SocketMutex(Server), LOGS)])
  }

  lemma {:induction false} SocketCovered(st: SocketType)
    ensures UserCode(Locked(SocketMutex(st), LOGS)) && UserCode(LOGS[0])
  {
    assert Notices(LOGS[0].body) && LogUse(LOGS[0]);
    assert SocketBody(LOGS, st);
  }

  /** The program's own threads run code of the forms above. */
  lemma {:induction false} ProgramIsCovered(st: SocketType)
    ensures ThreadCode(Locked(SocketMutex(st), LOGS)) && ThreadCode(Draining(st))
    ensures ThreadCode(STARTING) && ThreadCode(STOPPING)
  {
    SocketCovered(st);
    SocketCovered(Server);
    hide SocketUse, SocketBody, LogUse;
  }

  // ---- every lock is taken above those already held ----

  predicate Holds(held: seq<Lock>, l: Lock) {
    exists i :: 0 <= i < |held| && held[i] == l
  }

  predicate Admissible(held: seq<Lock>, l: Lock) {
    (Recursive(l) && Holds(held, l)) || forall i :: 0 <= i < |held| ==> Rank(held[i]) < Rank(l)
  }

  predicate Ranked(held: seq<Lock>, b: Block)
    decreases b
  {
    match b
    case Locked(l, body) => Admissible(held, l) && forall i :: 0 <= i < |body| ==> Ranked(held + [l], body[i])
    case Create(body) => forall i :: 0 <= i < |body| ==> Ranked([Join], body[i])
  }

  predicate Below(held: seq<Lock>, bound: nat) {
    forall i :: 0 <= i < |held| ==> Rank(held[i]) < bound
  }

  lemma {:induction false} SocketUseRanked(held: seq<Lock>, b: Block, st: SocketType)
    requires SocketUse(b, st) && (Below(held, 4) || (Below(held, 5) && Holds(held, SocketMutex(st))))
    ensures Ranked(held, b)
    decreases b
  {
    var inner := held + [SocketMutex(st)];
    assert inner[|held|] == SocketMutex(st);
    forall i | 0 <= i < |b.body|
      ensures Ranked(inner, b.body[i])
    {
      if SocketUse(b.body[i], st) {
        SocketUseRanked(inner, b.body[i], st);
      }
    }
  }

  lemma {:induction false} UserCodeRanked(held: seq<Lock>, b: Block)
    requires UserCode(b) && Below(held, 4)
    ensures Ranked(held, b)
  {
    if b.lock.SocketMutex? {
      SocketUseRanked(held, b, b.lock.st);
    }
  }

  lemma {:induction false} WorkerCodeRanked(b: Block)
    requires WorkerCode(b)
    ensures Ranked([Join], b)
  {
    if UserCode(b) {
      UserCodeRanked([Join], b);
    }
  }

  /** Main result: all code of the program takes locks in the order of their ranks. */
  lemma {:induction false} ThreadCodeRanked(b: Block)
    requires ThreadCode(b)
    ensures Ranked([], b)
  {
    if UserCode(b) {
      UserCodeRanked([], b);
    } else {
      forall i | 0 <= i < |b.body|
        ensures Ranked([] + [b.lock], b.body[i])
      {
        if UserCode(b.body[i]) {
          UserCodeRanked([] + [b.lock], b.body[i]);
        } else if b.body[i].Create? {
          forall j | 0 <= j < |b.body[i].body|
            ensures Ranked([Join], b.body[i].body[j])
          {
            WorkerCodeRanked(b.body[i].body[j]);
          }
        }
      }
    }
  }

  // ---- running the blocks ----

  datatype Op = Acquire(lock: Lock) | Release(lock: Lock) | Spawn(ops: seq<Op>)

  /** The operations of some blocks, followed by `rest`. */
  function Ops(bs: seq<Block>, rest: seq<Op>): seq<Op>
    decreases bs
  {
    if bs == [] then rest
    else
      var tail := Ops(bs[1..], rest);
      match bs[0]
      case Locked(l, body) => [Acquire(l)] + Ops(body, [Release(l)] + tail)
      case Create(body) => [Spawn(Ops(body, [Release(Join)]))] + tail
  }

  datatype Thread = Thread(held: seq<Lock>, todo: seq<Op>)

  type State = seq<Thread>

  predicate FreeFor(s: State, t: nat, l: Lock)
    requires t < |s|
  {
    && (forall u :: 0 <= u < |s| && u != t ==> !Holds(s[u].held, l))
    && (Recursive(l) || !Holds(s[t].held, l))
  }

  predicate Free(s: State, l: Lock) {
    forall u :: 0 <= u < |s| ==> !Holds(s[u].held, l)
  }

  /** One step of thread `t`; None when it has to wait or has finished. */
  function Next(s: State, t: nat): Option<State> {
    if t >= |s| || s[t].todo == [] then None
    else
      var held, todo := s[t].held, s[t].todo;
      match todo[0]
      case Acquire(l) => if !FreeFor(s, t, l) then None else Some(s[t := Thread(held + [l], todo[1..])])
      case Release(l) => if held == [] then None else Some(s[t := Thread(held[..|held| - 1], todo[1..])])
      case Spawn(ops) => // refused with an error while there is a worker
        var s' := s[t := Thread(held, todo[1..])];
        if Free(s, Join) then Some(s' + [Thread([Join], ops)]) else Some(s')
  }

  function Run(s: State, schedule: seq<nat>): Option<State>
    decreases |schedule|
  {
    if schedule == [] then Some(s)
    else
      var s' := Next(s, schedule[0]);
      if s'.None? then None else Run(s'.value, schedule[1..])
  }

  /** The remaining operations respect the order and release what is held, innermost first. */
  predicate Disciplined(held: seq<Lock>, todo: seq<Op>)
    decreases todo
  {
    if todo == [] then held == []
    else
      match todo[0]
      case Acquire(l) => Admissible(held, l) && Disciplined(held + [l], todo[1..])
      case Release(l) => held != [] && held[|held| - 1] == l && Disciplined(held[..|held| - 1], todo[1..])
      case Spawn(ops) => Disciplined([Join], ops) && Disciplined(held, todo[1..])
  }

  predicate AllDisciplined(s: State) {
    forall t :: 0 <= t < |s| ==> Disciplined(s[t].held, s[t].todo)
  }

  lemma {:induction false} NextKeepsDiscipline(s: State, t: nat)
    requires AllDisciplined(s) && Next(s, t).Some?
    ensures AllDisciplined(Next(s, t).value)
  {
    assert Disciplined(s[t].held, s[t].todo);
  }

  /** No lock is held by two threads. */
  predicate Exclusive(s: State) {
    forall t, u :: 0 <= t < |s| && 0 <= u < |s| && t != u ==> Disjoint(s[t].held, s[u].held)
  }

  predicate Disjoint(a: seq<Lock>, b: seq<Lock>) {
    forall i, j :: 0 <= i < |a| && 0 <= j < |b| ==> a[i] != b[j]
  }

  lemma {:induction false} NotShared(a: seq<Lock>, b: seq<Lock>, l: Lock)
    requires Disjoint(a, b)
    ensures !Holds(a, l) || !Holds(b, l)
  {
  }

  /** A thread that takes a free lock, or releases one, still shares none with any other thread. */
  lemma {:induction false} StillDisjoint(held: seq<Lock>, other: seq<Lock>, held': seq<Lock>)
    requires Disjoint(held, other)
    requires held' <= held || (exists l :: held' == held + [l] && !Holds(other, l))
    ensures Disjoint(held', other) && Disjoint(other, held')
  {
  }

  lemma {:induction false} NextKeepsExclusive(s: State, t: nat)
    requires Exclusive(s) && Next(s, t).Some?
    ensures Exclusive(Next(s, t).value)
  {
    var s' := Next(s, t).value;
    assert s[t].todo[0].Acquire? ==> s'[t].held == s[t].held + [s[t].todo[0].lock];
    forall u | 0 <= u < |s| && u != t
      ensures Disjoint(s'[t].held, s'[u].held) && Disjoint(s'[u].held, s'[t].held)
    {
      StillDisjoint(s[t].held, s[u].held, s'[t].held);
    }
    if |s'| > |s| {
      assert s'[|s|].held == [Join];
      forall u | 0 <= u < |s|
        ensures Disjoint(s'[u].held, [Join]) && Disjoint([Join], s'[u].held)
      {
        assert !Holds(s[u].held, Join);
      }
    }
  }

  predicate Ordered(s: State) {
    AllDisciplined(s) && Exclusive(s)
  }

  lemma {:induction false} RunKeepsOrdered(s: State, schedule: seq<nat>)
    requires Ordered(s) && Run(s, schedule).Some?
    ensures Ordered(Run(s, schedule).value)
    decreases |schedule|
  {
    if schedule != [] {
      NextKeepsDiscipline(s, schedule[0]);
      NextKeepsExclusive(s, schedule[0]);
      RunKeepsOrdered(Next(s, schedule[0]).value, schedule[1..]);
    }
  }

  /** Blocks in rank order, followed by disciplined operations, are disciplined. */
  lemma {:induction false} OpsDisciplined(held: seq<Lock>, bs: seq<Block>, rest: seq<Op>)
    requires forall i :: 0 <= i < |bs| ==> Ranked(held, bs[i])
    requires Disciplined(held, rest)
    ensures Disciplined(held, Ops(bs, rest))
    decreases bs
  {
    if bs != [] {
      var tail := Ops(bs[1..], rest);
      OpsDisciplined(held, bs[1..], rest);
      assert Ranked(held, bs[0]);
      match bs[0]
      case Locked(l, body) =>
        ReleaseDisciplined(held, l, tail);
        OpsDisciplined(held + [l], body, [Release(l)] + tail);
        assert Ops(bs, rest)[1..] == Ops(body, [Release(l)] + tail);
      case Create(body) =>
        ReleaseDisciplined([], Join, []);
        assert [] + [Join] == [Join] && [Release(Join)] + [] == [Release(Join)];
        OpsDisciplined([Join], body, [Release(Join)]);
        assert Ops(bs, rest)[1..] == tail;
    }
  }

  lemma {:induction false} ReleaseDisciplined(held: seq<Lock>, l: Lock, rest: seq<Op>)
    requires Disciplined(held, rest)
    ensures Disciplined(held + [l], [Release(l)] + rest)
  {
    assert (held + [l])[..|held|] == held && ([Release(l)] + rest)[1..] == rest;
  }

  // ---- no cycle ----

  predicate Wanting(s: State, t: nat) {
    t < |s| && s[t].todo != [] && s[t].todo[0].Acquire?
  }

  function Wanted(s: State, t: nat): Lock
    requires Wanting(s, t)
  {
    s[t].todo[0].lock
  }

  function WantedRank(s: State, t: nat): nat {
    if Wanting(s, t) then Rank(Wanted(s, t)) else 0
  }

  /** Thread `t` cannot go on because `u` holds the lock it wants; `u` can be `t` itself. */
  predicate WaitsFor(s: State, t: nat, u: nat) {
    Wanting(s, t) && u < |s| && Holds(s[u].held, Wanted(s, t)) && (t == u ==> !Recursive(Wanted(s, t)))
  }

  /** A thread that waits wants a lock of a higher rank than each one it holds. */
  lemma {:induction false} WaitingIsAbove(s: State, u: nat, v: nat, l: Lock)
    requires Ordered(s) && WaitsFor(s, u, v) && Holds(s[u].held, l)
    ensures Rank(l) < Rank(Wanted(s, u))
  {
    var l' := Wanted(s, u);
    assert Disciplined(s[u].held, s[u].todo);
    assert Admissible(s[u].held, l');
    if u != v {
      NotShared(s[u].held, s[v].held, l');
    }
  }

  /** A path in the waits-for graph. */
  predicate Path(s: State, p: seq<nat>) {
    |p| >= 2 && forall i :: 0 <= i < |p| - 1 ==> WaitsFor(s, p[i], p[i + 1])
  }

  /** Along a path the ranks of the wanted locks grow. */
  lemma {:induction false} RanksGrow(s: State, p: seq<nat>, last: nat)
    requires Ordered(s) && Path(s, p) && last < |p| - 1
    ensures WantedRank(s, p[0]) + last <= WantedRank(s, p[last])
    decreases last
  {
    if last > 0 {
      RanksGrow(s, p, last - 1);
      assert WaitsFor(s, p[last - 1], p[last]) && WaitsFor(s, p[last], p[last + 1]);
      WaitingIsAbove(s, p[last], p[last + 1], Wanted(s, p[last - 1]));
    }
  }

  /** No path leads back to where it starts. */
  lemma {:induction false} NoCycle(s: State, p: seq<nat>)
    requires Ordered(s) && Path(s, p)
    ensures p[0] != p[|p| - 1]
  {
    var n := |p| - 1;
    RanksGrow(s, p, n - 1);
    if p[0] == p[n] {
      assert WaitsFor(s, p[n - 1], p[n]) && WaitsFor(s, p[0], p[1]);
      WaitingIsAbove(s, p[0], p[1], Wanted(s, p[n - 1]));
    }
  }

  /** The initial state: threads hold nothing and run code of the program. */
  predicate Started(s: State, code: seq<seq<Block>>) {
    && |s| == |code|
    && forall t :: 0 <= t < |s| ==>
         s[t] == Thread([], Ops(code[t], [])) && forall i :: 0 <= i < |code[t]| ==> ThreadCode(code[t][i])
  }

  lemma {:induction false} StartedIsOrdered(s: State, code: seq<seq<Block>>)
    requires Started(s, code)
    ensures Ordered(s)
  {
    forall t | 0 <= t < |s|
      ensures Disciplined(s[t].held, s[t].todo)
    {
      forall i | 0 <= i < |code[t]|
        ensures Ranked([], code[t][i])
      {
        ThreadCodeRanked(code[t][i]);
      }
      OpsDisciplined([], code[t], []);
    }
  }

  /**
    Main result: whatever code the threads run and however they interleave, the waits-for graph
    never has a cycle.
   */
  lemma {:induction false} WaitsForIsAcyclic(s: State, code: seq<seq<Block>>, schedule: seq<nat>, p: seq<nat>)
    requires Started(s, code) && Run(s, schedule).Some? && Path(Run(s, schedule).value, p)
    ensures p[0] != p[|p| - 1]
  {
    StartedIsOrdered(s, code);
    RunKeepsOrdered(s, schedule);
    NoCycle(Run(s, schedule).value, p);
  }

  // ---- progress ----

  /** Following the waits-for graph from an unfinished thread leads to one that can take a step. */
  lemma {:induction false} Progress(s: State, t: nat) returns (u: nat)
    requires Ordered(s) && t < |s| && s[t].todo != []
    ensures Next(s, u).Some?
    decreases 8 - if Wanting(s, t) then Rank(Wanted(s, t)) else 8
  {
    assert Disciplined(s[t].held, s[t].todo);
    if Next(s, t).Some? {
      return t;
    }
    var l := Wanted(s, t);
    var v :| 0 <= v < |s| && Holds(s[v].held, l) && (v == t ==> !Recursive(l));
    assert WaitsFor(s, t, v);
    assert Disciplined(s[v].held, s[v].todo);
    if Next(s, v).Some? {
      return v;
    }
    var w :| 0 <= w < |s| && Holds(s[w].held, Wanted(s, v)) && (w == v ==> !Recursive(Wanted(s, v)));
    WaitingIsAbove(s, v, w, l);
    u := Progress(s, v);
  }

  /** Main result: as long as some thread has not finished, some thread can take a step. */
  lemma {:induction false} DeadlockFree(s: State, code: seq<seq<Block>>, schedule: seq<nat>, t: nat) returns (u: nat)
    requires Started(s, code) && Run(s, schedule).Some?
    requires t < |Run(s, schedule).value| && Run(s, schedule).value[t].todo != []
    ensures Next(Run(s, schedule).value, u).Some?
  {
    StartedIsOrdered(s, code);
    RunKeepsOrdered(s, schedule);
    u := Progress(Run(s, schedule).value, t);
  }

  // ---- why the assumption and the guard of the IDLE event are needed ----

  /** Stopping the handler, or entering the drain again, while the queue is being drained is out of order. */
  lemma {:induction false} OutOfOrder(b: Block, inner: Block)
    requires DrainCode(b) && (inner == Locked(ThreadMutex, [Locked(Join, [])]) || inner == Locked(QueueMutex, []))
    ensures !Ranked([], Locked(QueueMutex, b.body + [inner]))
  {
    var body := b.body + [inner];
    assert body[|b.body|] == inner;
    var held := [] + [QueueMutex];
    assert held[0] == QueueMutex;
    assert !Admissible(held, inner.lock);
    assert !Ranked(held, body[|b.body|]);
  }
}
