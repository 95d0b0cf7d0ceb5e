/**
  The pipeline and the sends through its server socket as one step system. The main thread sends the reply to the
  front request, the worker the answer to a message that is no request; any other thread may send what it wants.
  Between any two steps of one thread the others may take theirs.
 */
module ReplyPath {
  import opened Wrappers
  import opened Sequences
  import opened Frames
  import P = Pipeline
  import S = SendAtomicity

  const MAIN: S.Thread := 0
  const WORKER: S.Thread := 1

  /** `answered` tells for each completed send which message it answers; None for one that is no answer. */
  datatype State = State(p: P.State, s: S.State, answered: seq<Option<P.Id>>)

  datatype Move =
    | Plain(action: P.Action)          // a step of the pipeline that sends nothing
    | Begin(t: S.Thread)               // main thread or worker call ZeroMQServerSend
    | Sending(a: S.Action)             // a step of the two in there
    | Finish(t: S.Thread, ok: bool)    // they return from it, or it throws
    | Elsewhere(a: S.Action)           // a step of a send by any other thread

  const INIT := State(P.INIT, S.INIT, [])

  predicate Busy(s: S.State, t: S.Thread) {
    t in s.waiting || S.Holds(s, t)
  }

  function ThreadOf(a: S.Action): S.Thread {
    a.thread
  }

  /** The main thread has a document for the front request; the worker has one for the message in its hand. */
  predicate MaySend(p: P.State, t: S.Thread) {
    if t == MAIN then p.queue != [] && (P.At(p, P.Ended(P.Succeeded)) || P.At(p, P.Ended(P.IgorFailed)))
    else t == WORKER && p.worker == P.Rejecting && p.fates != []
  }

  /** The message that is answered. */
  function MessageOf(p: P.State, t: S.Thread): P.Id
    requires MaySend(p, t)
  {
    if t == MAIN then p.queue[0] else |p.fates| - 1
  }

  /** What the pipeline does when the send is over. */
  function Outcome(t: S.Thread, ok: bool): P.Action {
    if t == MAIN then P.Send(ok) else P.Reject(ok)
  }

  /** `done` has grown by a send for `id`. */
  function Noted(before: S.State, after: S.State, answered: seq<Option<P.Id>>, id: Option<P.Id>): seq<Option<P.Id>> {
    if |after.done| > |before.done| then answered + [id] else answered
  }

  /** One step; `envelope` gives the envelope of the answer to a message. */
  function Next(envelope: P.Id -> Request, j: State, m: Move): Option<State> {
    match m
    case Plain(a) =>
      if a == P.Send(true) || a == P.Reject(true) then None
      else if (P.OfMainThread(a) && Busy(j.s, MAIN)) || (P.OfWorker(a) && Busy(j.s, WORKER)) then None
      else
        var p := P.Next(j.p, a);
        if p.None? then None else Some(j.(p := p.value))
    case Begin(t) =>
      if !MaySend(j.p, t) then None
      else
        var s := S.Next(j.s, S.Enter(t, envelope(MessageOf(j.p, t))));
        if s.None? then None else Some(j.(s := s.value))
    case Sending(a) =>
      if !(a.Lock? || a.Emit?) || !MaySend(j.p, ThreadOf(a)) then None
      else
        var s := S.Next(j.s, a);
        if s.None? then None
        else Some(j.(s := s.value, answered := Noted(j.s, s.value, j.answered, Some(MessageOf(j.p, ThreadOf(a))))))
    case Finish(t, ok) =>
      if t != MAIN && t != WORKER then None
      else
        var s, p := S.Next(j.s, if ok then S.Unlock(t) else S.Refused(t)), P.Next(j.p, Outcome(t, ok));
        if s.None? || p.None? then None else Some(j.(s := s.value, p := p.value))
    case Elsewhere(a) =>
      if ThreadOf(a) == MAIN || ThreadOf(a) == WORKER then None
      else
        var s := S.Next(j.s, a);
        if s.None? then None else Some(j.(s := s.value, answered := Noted(j.s, s.value, j.answered, None)))
  }

  function Run(envelope: P.Id -> Request, j: State, moves: seq<Move>): Option<State>
    decreases |moves|
  {
    if moves == [] then Some(j)
    else
      var j' := Next(envelope, j, moves[0]);
      if j'.None? then None else Run(envelope, j'.value, moves[1..])
  }

  // ---- what every run keeps ----

  /** A send of the two threads is that of the answer to their message. */
  predicate SendsAnswer(envelope: P.Id -> Request, j: State, t: S.Thread) {
    && (t in j.s.waiting ==> MaySend(j.p, t) && j.s.waiting[t] == envelope(MessageOf(j.p, t)))
    && (S.Holds(j.s, t) ==> MaySend(j.p, t) && j.s.holder.value.envelope == envelope(MessageOf(j.p, t)))
  }

  /** The message whose answer is out although its sender has not returned yet. */
  function Underway(j: State): Option<P.Id> {
    if j.s.holder.Some? && j.s.holder.value.emitted == 3 && MaySend(j.p, j.s.holder.value.thread)
    then Some(MessageOf(j.p, j.s.holder.value.thread))
    else None
  }

  /** How many completed sends answer a message. */
  function Count(answered: seq<Option<P.Id>>, id: P.Id): nat {
    multiset(answered)[Some(id)]
  }

  ghost predicate Counted(j: State) {
    forall id: P.Id {:trigger Count(j.answered, id)} {:trigger j.p.replies[id]} ::
      Count(j.answered, id) == j.p.replies[id] + if Underway(j) == Some(id) then 1 else 0
  }

  /** Each noted answer is the envelope of that message. */
  ghost predicate Faithful(envelope: P.Id -> Request, j: State) {
    && |j.answered| == |j.s.done|
    && forall k :: 0 <= k < |j.answered| && j.answered[k].Some? ==> j.s.done[k] == envelope(j.answered[k].value)
  }

  ghost predicate Matched(envelope: P.Id -> Request, j: State) {
    && SendsAnswer(envelope, j, MAIN) && SendsAnswer(envelope, j, WORKER)
    && (j.s.holder.Some? ==> j.s.holder.value.thread !in j.s.waiting)
    && Counted(j) && Faithful(envelope, j) && S.Atomic(j.s)
  }

  /** Other steps do not take away what a thread is about to send. */
  lemma {:induction false} StepKeepsMessage(p: P.State, a: P.Action, t: S.Thread)
    requires P.Next(p, a).Some? && MaySend(p, t)
    requires if t == MAIN then !P.OfMainThread(a) else !P.OfWorker(a)
    ensures MaySend(P.Next(p, a).value, t) && MessageOf(P.Next(p, a).value, t) == MessageOf(p, t)
  {
  }

  lemma {:induction false} RepliesAfter(p: P.State, a: P.Action)
    requires P.Next(p, a).Some?
    ensures a != P.Send(true) && a != P.Reject(true) ==> P.Next(p, a).value.replies == p.replies
    ensures a == P.Send(true) ==> MaySend(p, MAIN) && P.Next(p, a).value.replies == p.replies + multiset{p.queue[0]}
    ensures a == P.Reject(true) ==>
      MaySend(p, WORKER) && P.Next(p, a).value.replies == p.replies + multiset{|p.fates| - 1}
  {
  }

  lemma {:induction false} StepMatched(envelope: P.Id -> Request, j: State, a: P.Action)
    requires Matched(envelope, j) && Next(envelope, j, Plain(a)).Some?
    ensures Matched(envelope, Next(envelope, j, Plain(a)).value)
  {
    RepliesAfter(j.p, a);
    if Busy(j.s, MAIN) {
      StepKeepsMessage(j.p, a, MAIN);
    }
    if Busy(j.s, WORKER) {
      StepKeepsMessage(j.p, a, WORKER);
    }
    SameCount(j, Next(envelope, j, Plain(a)).value);
  }

  lemma {:induction false} SameCount(j: State, j': State)
    requires Counted(j) && j'.answered == j.answered && j'.p.replies == j.p.replies && Underway(j') == Underway(j)
    ensures Counted(j')
  {
    forall id: P.Id
      ensures Count(j'.answered, id) == j'.p.replies[id] + if Underway(j') == Some(id) then 1 else 0
    {
      assert Count(j.answered, id) == j.p.replies[id] + if Underway(j) == Some(id) then 1 else 0;
    }
  }

  lemma {:induction false} BeginMatched(envelope: P.Id -> Request, j: State, t: S.Thread)
    requires Matched(envelope, j) && Next(envelope, j, Begin(t)).Some?
    ensures Matched(envelope, Next(envelope, j, Begin(t)).value)
  {
    SameCount(j, Next(envelope, j, Begin(t)).value);
  }

  lemma {:induction false} EmitCounted(j: State, j': State, a: Option<P.Id>)
    requires Counted(j) && j'.p == j.p && j'.answered == j.answered + [a]
    requires Underway(j) == None && Underway(j') == a
    ensures Counted(j')
  {
    forall id: P.Id
      ensures Count(j'.answered, id) == j'.p.replies[id] + if Underway(j') == Some(id) then 1 else 0
    {
      assert Count(j.answered, id) == j.p.replies[id] + if Underway(j) == Some(id) then 1 else 0;
    }
  }

  lemma {:induction false} SendKeepsAnswers(envelope: P.Id -> Request, j: State, m: Move)
    requires SendsAnswer(envelope, j, MAIN) && SendsAnswer(envelope, j, WORKER)
    requires j.s.holder.Some? ==> j.s.holder.value.thread !in j.s.waiting
    requires Next(envelope, j, m).Some? && (m.Sending? || m.Elsewhere?)
    ensures var j' := Next(envelope, j, m).value;
      && SendsAnswer(envelope, j', MAIN) && SendsAnswer(envelope, j', WORKER)
      && (j'.s.holder.Some? ==> j'.s.holder.value.thread !in j'.s.waiting)
  {
    hide MaySend, MessageOf, P.Next;
  }

  lemma {:induction false} SendMatched(envelope: P.Id -> Request, j: State, m: Move)
    requires Matched(envelope, j) && Next(envelope, j, m).Some? && (m.Sending? || m.Elsewhere?)
    ensures Matched(envelope, Next(envelope, j, m).value)
  {
    var j' := Next(envelope, j, m).value;
    SendKeepsAnswers(envelope, j, m);
    hide P.Next, P.At, SendsAnswer;
    S.NextKeepsAtomic(j.s, m.a);
    hide S.Atomic;
    if |j'.s.done| > |j.s.done| {
      EmitCounted(j, j', j'.answered[|j.answered|]);
    } else {
      SameCount(j, j');
    }
  }

  lemma {:induction false} FinishMatched(envelope: P.Id -> Request, j: State, t: S.Thread, ok: bool)
    requires Matched(envelope, j) && Next(envelope, j, Finish(t, ok)).Some?
    ensures Matched(envelope, Next(envelope, j, Finish(t, ok)).value)
  {
    var j' := Next(envelope, j, Finish(t, ok)).value;
    RepliesAfter(j.p, Outcome(t, ok));
    var other := if t == MAIN then WORKER else MAIN;
    if other in j.s.waiting {
      StepKeepsMessage(j.p, Outcome(t, ok), other);
    }
    if ok {
      forall id: P.Id
        ensures Count(j'.answered, id) == j'.p.replies[id] + if Underway(j') == Some(id) then 1 else 0
      {
        assert Count(j.answered, id) == j.p.replies[id] + if Underway(j) == Some(id) then 1 else 0;
      }
    } else {
      SameCount(j, j');
    }
  }

  lemma {:induction false} NextKeepsMatched(envelope: P.Id -> Request, j: State, m: Move)
    requires Matched(envelope, j) && P.Conserved(j.p) && Next(envelope, j, m).Some?
    ensures Matched(envelope, Next(envelope, j, m).value) && P.Conserved(Next(envelope, j, m).value.p)
  {
    match m
    case Plain(a) =>
      StepMatched(envelope, j, a);
      P.NextKeepsConserved(j.p, a);
    case Begin(t) => BeginMatched(envelope, j, t);
    case Sending(_) => SendMatched(envelope, j, m);
    case Finish(t, ok) =>
      FinishMatched(envelope, j, t, ok);
      P.NextKeepsConserved(j.p, Outcome(t, ok));
    case Elsewhere(_) => SendMatched(envelope, j, m);
  }

  lemma {:induction false} RunKeepsMatched(envelope: P.Id -> Request, j: State, moves: seq<Move>)
    requires Matched(envelope, j) && P.Conserved(j.p) && Run(envelope, j, moves).Some?
    ensures Matched(envelope, Run(envelope, j, moves).value) && P.Conserved(Run(envelope, j, moves).value.p)
    decreases |moves|
  {
    if moves != [] {
      NextKeepsMatched(envelope, j, moves[0]);
      RunKeepsMatched(envelope, Next(envelope, j, moves[0]).value, moves[1..]);
    }
  }

  /**
    Main result, for every interleaving: when no send is under way, the completed answers are exactly the replies the
    pipeline counts, each with the envelope of its message, and the stream consists of whole envelopes.
   */
  lemma {:induction false} AnswersAreReplies(envelope: P.Id -> Request, moves: seq<Move>)
    requires Run(envelope, INIT, moves).Some? && Run(envelope, INIT, moves).value.s.holder.None?
    ensures var j := Run(envelope, INIT, moves).value;
      && (forall id: P.Id :: Count(j.answered, id) == j.p.replies[id])
      && Faithful(envelope, j) && j.s.out == S.Envelopes(j.s.done) && P.Conserved(j.p)
  {
    RunKeepsMatched(envelope, INIT, moves);
    var j := Run(envelope, INIT, moves).value;
    assert Underway(j) == None;
  }

  // ---- which moves are possible ----

  /** What a thread that has an answer can do next: begin, get the mutex, write frame by frame, and finish or fail. */
  lemma {:induction false} AnswerCanMove(envelope: P.Id -> Request, j: State, t: S.Thread)
    requires Matched(envelope, j) && P.Conserved(j.p) && (t == 0 ==> P.MainRuns(j.p)) && MaySend(j.p, t)
    ensures t !in j.s.waiting && !S.Holds(j.s, t) ==> Next(envelope, j, Begin(t)).Some?
    ensures t in j.s.waiting && j.s.holder.None? ==> Next(envelope, j, Sending(S.Lock(t))).Some?
    ensures S.Holds(j.s, t) && j.s.holder.value.emitted < 3 ==>
      && Next(envelope, j, Sending(S.Emit(t))).Some?
      && Next(envelope, j, Sending(S.Emit(t))).value.answered ==
         j.answered + if j.s.holder.value.emitted == 2 then [Some(MessageOf(j.p, t))] else []
    ensures S.Holds(j.s, t) && j.s.holder.value.emitted == 0 ==> Next(envelope, j, Finish(t, false)).Some?
    ensures S.Holds(j.s, t) && j.s.holder.value.emitted == 3 ==> Next(envelope, j, Finish(t, true)).Some?
  {
    hide Counted, Faithful, S.Atomic, P.InOrder, P.RepliesCounted;
  }

  /** Other threads send, and the pipeline goes on, as if there were no answers, but for the threads that send. */
  lemma {:induction false} OthersCanMove(envelope: P.Id -> Request, j: State, a: P.Action, b: S.Action)
    requires b.thread > 1
    ensures Next(envelope, j, Elsewhere(b)).Some? <==> S.Next(j.s, b).Some?
    ensures P.Next(j.p, a).Some? && a != P.Send(true) && a != P.Reject(true) &&
            (P.OfMainThread(a) ==> 0 !in j.s.waiting && !S.Holds(j.s, 0)) &&
            (P.OfWorker(a) ==> 1 !in j.s.waiting && !S.Holds(j.s, 1)) ==>
      Next(envelope, j, Plain(a)) == Some(j.(p := P.Next(j.p, a).value))
  {
    hide P.Next;
  }
}
