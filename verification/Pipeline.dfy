/**
  The request pipeline (MessageHandler.cpp, ConcurrentQueue.h, the IDLE event of ZeroMQ.cpp) as a step
  system: the worker thread receives and queues, the main thread drains, any thread starts and stops.

  A step is a block of code that runs under one lock, or code no other thread can observe. Received
  messages are numbered in the order of their arrival.
 */
module Pipeline {
  import opened Wrappers
  import opened Sequences

  type Id = nat

  /** How CallIgorFunctionFromReqInterface ends: with a document for the reply, or with an exception. */
  datatype CallEnd = Succeeded | IgorFailed | Threw

  /** Where a received message is. An answer to a message that is no request may fail to be sent. */
  datatype Fate = InHand | Queued | Handled(call: CallEnd, sent: bool) | Answered(sent: bool) | Dropped

  /**
    The worker thread: Starting has not yet written the flag, Pushing wants the queue's mutex, Rejecting
    is about to answer a message that is no request.
   */
  datatype Worker = NoThread | Starting | Head | Receiving | Parsing | Pushing | Rejecting | Exited

  /**
    One activation of the IDLE handler. Entered is about to ask whether the queue is empty, InCall runs
    user code for the front request, Ended has the outcome of that call, Sent has tried to reply.
   */
  datatype Handler = Entered | Checked | Draining | InCall | Ended(call: CallEnd) | Sent(call: CallEnd, ok: bool)
                   | Printing

  /** Stop between its write of the flag and the return of join. */
  datatype Stopper = Nobody | MainThread | OtherThread

  /**
    A stop holds `threadMutex` until its join returns; `mainWaits` says that the main thread waits for it, in
    Start or Stop called by user code. `handlers` is the stack of activations, the innermost one last.
    `relocked` records that the holder of the queue's mutex, which is not recursive, locks it again.
   */
  datatype State = State(
    worker: Worker, stopper: Stopper, mainWaits: bool, shouldFinish: bool, idleInProgress: bool, handlers: seq<Handler>,
    queueLocked: bool, relocked: bool,
    fates: seq<Fate>, queue: seq<Id>, handled: seq<Id>, replies: multiset<Id>)

  datatype Action =
    // the thread that calls MessageHandler::Start or Stop
    | Start | StopSetsFlag(byMain: bool) | WaitForMutex | JoinReturns
    // the worker
    | ClearFlag | CheckFlag | Timeout | Receive | Accept | Push | Refuse | Reject(sent: bool) | Drop
    // the main thread
    | IdleEvent | CheckQueue | LockQueue | BeginCall | EndCall(call: CallEnd) | Send(ok: bool) | Pop | UnlockQueue
    | IdleEnds | IdleThrows

  const INIT := State(NoThread, Nobody, false, false, false, [], false, false, [], [], [], multiset{})

  /** The main thread is not waiting in join or for `threadMutex`. */
  predicate MainRuns(s: State) {
    s.stopper != MainThread && !s.mainWaits
  }

  /** The innermost activation; between two activations there is none. */
  predicate At(s: State, h: Handler) {
    s.handlers != [] && s.handlers[|s.handlers| - 1] == h
  }

  /** Igor, or user code called from the drain, is running: IDLE events arrive and Stop may be called here. */
  predicate InUserCode(s: State) {
    s.handlers == [] || At(s, InCall)
  }

  /** The flag is set although no IDLE event is being handled. */
  predicate Wedged(s: State) {
    s.idleInProgress && s.handlers == []
  }

  function Become(s: State, h: Handler): State
    requires s.handlers != []
  {
    s.(handlers := s.handlers[|s.handlers| - 1 := h])
  }

  function Leave(s: State): State
    requires s.handlers != []
  {
    s.(handlers := s.handlers[..|s.handlers| - 1])
  }

  function LastFate(s: State, f: Fate): seq<Fate>
    requires s.fates != []
  {
    s.fates[|s.fates| - 1 := f]
  }

  /** The document is sent as reply; after an exception nothing is. */
  predicate HasReply(call: CallEnd) {
    !call.Threw?
  }

  /** The call for the front request is over, and what there was to send has been tried to be sent. */
  predicate Finished(s: State) {
    s.handlers != [] &&
    var h := s.handlers[|s.handlers| - 1];
    h.Sent? || (h.Ended? && !HasReply(h.call))
  }

  function Result(s: State): Fate
    requires Finished(s)
  {
    var h := s.handlers[|s.handlers| - 1];
    if h.Sent? then Handled(h.call, h.ok) else Handled(h.call, false)
  }

  /** The steps of the main thread; `guarded` says whether the IDLE handler honours `idleInProgress`. */
  function MainStep(guarded: bool, s: State, a: Action): Option<State> {
    if !MainRuns(s) then None
    else match a
      case IdleEvent =>
        if !InUserCode(s) then None
        else if guarded && s.idleInProgress then Some(s)
        else Some(s.(idleInProgress := true, handlers := s.handlers + [Entered]))
      case CheckQueue =>
        if !At(s, Entered) then None
        else if s.queueLocked then Some(s.(relocked := true))
        else Some(Become(s, if s.queue == [] then Printing else Checked))
      case LockQueue =>
        if !At(s, Checked) then None
        else if s.queueLocked then Some(s.(relocked := true))
        else Some(Become(s, Draining).(queueLocked := true))
      case BeginCall =>
        if !At(s, Draining) || s.queue == [] then None else Some(Become(s, InCall))
      case EndCall(call) =>
        if !At(s, InCall) then None else Some(Become(s, Ended(call)))
      case Send(ok) =>
        if s.queue == [] then None
        else if At(s, Ended(Succeeded)) then
          Some(Become(s, Sent(Succeeded, ok)).(replies := if ok then s.replies + multiset{s.queue[0]} else s.replies))
        else if At(s, Ended(IgorFailed)) then
          Some(Become(s, Sent(IgorFailed, ok)).(replies := if ok then s.replies + multiset{s.queue[0]} else s.replies))
        else None
      case Pop =>
        if !Finished(s) || s.queue == [] || s.queue[0] >= |s.fates| then None
        else Some(Become(s, Draining).(queue := s.queue[1..], handled := s.handled + [s.queue[0]],
                                       fates := s.fates[s.queue[0] := Result(s)]))
      case UnlockQueue =>
        if !At(s, Draining) || s.queue != [] then None else Some(Become(s, Printing).(queueLocked := false))
      case IdleEnds =>
        if !At(s, Printing) then None else Some(Leave(s).(idleInProgress := false))
      case IdleThrows => // from the log entry before the drain or the output of the notices after it
        if !At(s, Checked) && !At(s, Printing) then None else Some(Leave(s))
      case _ => None
  }

  predicate OfWorker(a: Action) {
    a.ClearFlag? || a.CheckFlag? || a.Timeout? || a.Receive? || a.Accept? || a.Push? || a.Refuse? || a.Reject? ||
    a.Drop?
  }

  predicate OfMainThread(a: Action) {
    a.IdleEvent? || a.CheckQueue? || a.LockQueue? || a.BeginCall? || a.EndCall? || a.Send? || a.Pop? ||
    a.UnlockQueue? || a.IdleEnds? || a.IdleThrows?
  }

  /** The steps of the worker thread. */
  function WorkerStep(s: State, a: Action): Option<State> {
    match a
    case ClearFlag =>
      if s.worker != Starting then None else Some(s.(worker := Head, shouldFinish := false))
    case CheckFlag =>
      if s.worker != Head then None else Some(s.(worker := if s.shouldFinish then Exited else Receiving))
    case Timeout => // or a malformed message
      if s.worker != Receiving then None else Some(s.(worker := Head))
    case Receive =>
      if s.worker != Receiving then None else Some(s.(worker := Parsing, fates := s.fates + [InHand]))
    case Accept =>
      if s.worker != Parsing then None else Some(s.(worker := Pushing))
    case Push =>
      if s.worker != Pushing || s.queueLocked || s.fates == [] then None
      else Some(s.(worker := Head, fates := LastFate(s, Queued), queue := s.queue + [|s.fates| - 1]))
    case Refuse => // no request, or out of memory
      if s.worker != Parsing && (s.worker != Pushing || s.queueLocked) then None else Some(s.(worker := Rejecting))
    case Reject(sent) =>
      if s.worker != Rejecting || s.fates == [] then None
      else Some(s.(worker := Head, fates := LastFate(s, Answered(sent)),
                   replies := if sent then s.replies + multiset{|s.fates| - 1} else s.replies))
    case Drop => // an exception that is not an IgorException
      if s.worker != Parsing || s.fates == [] then None else Some(s.(worker := Head, fates := LastFate(s, Dropped)))
    case _ => None
  }

  /** The steps of a thread that starts or stops the handler. */
  function ControlStep(s: State, a: Action): Option<State> {
    match a
    case Start => // not offered to threads other than the main thread
      if s.worker != NoThread || s.stopper != Nobody || !MainRuns(s) || !InUserCode(s) then None
      else Some(s.(worker := Starting))
    case StopSetsFlag(byMain) =>
      if s.worker == NoThread || s.stopper != Nobody || (byMain && (!MainRuns(s) || !InUserCode(s))) then None
      else Some(s.(shouldFinish := true, stopper := if byMain then MainThread else OtherThread))
    case WaitForMutex => // user code calls Start or Stop while another thread stops
      if s.stopper != OtherThread || !MainRuns(s) || !InUserCode(s) then None else Some(s.(mainWaits := true))
    case JoinReturns =>
      if s.stopper == Nobody || s.worker != Exited then None
      else Some(s.(worker := NoThread, stopper := Nobody, mainWaits := false))
    case _ => None
  }

  /** The state after a step, None when the step cannot be taken. */
  function Step(guarded: bool, s: State, a: Action): Option<State> {
    if OfWorker(a) then WorkerStep(s, a)
    else if OfMainThread(a) then MainStep(guarded, s, a)
    else ControlStep(s, a)
  }

  /** The program's steps: the IDLE handler honours its guard. */
  function Next(s: State, a: Action): Option<State> {
    Step(true, s, a)
  }

  function Run(s: State, actions: seq<Action>): Option<State>
    decreases |actions|
  {
    if actions == [] then Some(s)
    else
      var s' := Next(s, actions[0]);
      if s'.None? then None else Run(s'.value, actions[1..])
  }

  // ---- conservation of messages ----

  predicate WasAccepted(f: Fate) {
    f.Queued? || f.Handled?
  }

  /** The accepted requests in the order of arrival. */
  function AcceptedIds(fates: seq<Fate>): seq<Id> {
    if fates == [] then []
    else
      var n := |fates| - 1;
      AcceptedIds(fates[..n]) + if WasAccepted(fates[n]) then [n] else []
  }

  lemma {:induction false} AcceptedIdsSnoc(fates: seq<Fate>, f: Fate)
    ensures AcceptedIds(fates + [f]) == AcceptedIds(fates) + if WasAccepted(f) then [|fates|] else []
  {
    assert (fates + [f])[..|fates|] == fates;
  }

  lemma {:induction false} AcceptedIdsUpdate(fates: seq<Fate>, i: nat, f: Fate)
    requires i < |fates| && WasAccepted(fates[i]) == WasAccepted(f)
    ensures AcceptedIds(fates[i := f]) == AcceptedIds(fates)
  {
    var n := |fates| - 1;
    if i < n {
      AcceptedIdsUpdate(fates[..n], i, f);
      assert fates[i := f][..n] == fates[..n][i := f];
    } else {
      assert fates[i := f][..n] == fates[..n];
    }
  }

  /** Strictly increasing, and exactly the accepted messages. */
  lemma {:induction false} AcceptedIdsSorted(fates: seq<Fate>)
    ensures var ids := AcceptedIds(fates);
      && (forall i, j :: 0 <= i < j < |ids| ==> ids[i] < ids[j])
      && (forall i :: 0 <= i < |ids| ==> ids[i] < |fates| && WasAccepted(fates[ids[i]]))
      && (forall id :: 0 <= id < |fates| && WasAccepted(fates[id]) ==> exists i :: 0 <= i < |ids| && ids[i] == id)
  {
    if fates != [] {
      var n := |fates| - 1;
      AcceptedIdsSorted(fates[..n]);
      var before, ids := AcceptedIds(fates[..n]), AcceptedIds(fates);
      forall id | 0 <= id < |fates| && WasAccepted(fates[id])
        ensures exists i :: 0 <= i < |ids| && ids[i] == id
      {
        if id < n {
          assert WasAccepted(fates[..n][id]);
          var i :| 0 <= i < |before| && before[i] == id;
          assert ids[i] == id;
        } else {
          assert ids[|before|] == id;
        }
      }
    }
  }

  /** Replies sent so far for a message: one for each successful send, derived from where the message is. */
  function RepliesDue(s: State, id: Id): nat {
    if id >= |s.fates| then 0
    else match s.fates[id]
      case Answered(sent) => if sent then 1 else 0
      case Handled(call, sent) => if HasReply(call) && sent then 1 else 0
      case _ => if FrontReplied(s) && s.queue[0] == id then 1 else 0
  }

  /** The reply to the front request has gone out. */
  predicate FrontReplied(s: State) {
    s.queue != [] && (At(s, Sent(Succeeded, true)) || At(s, Sent(IgorFailed, true)))
  }

  predicate HoldsMessage(w: Worker) {
    w.Parsing? || w.Pushing? || w.Rejecting?
  }

  /** Requests are handled in the order of arrival, and none is lost or handled twice. */
  ghost predicate InOrder(s: State) {
    && s.handled + s.queue == AcceptedIds(s.fates)
    && (forall i :: 0 <= i < |s.queue| ==> s.queue[i] < |s.fates| && s.fates[s.queue[i]] == Queued)
    && (forall i :: 0 <= i < |s.handled| ==> s.handled[i] < |s.fates| && s.fates[s.handled[i]].Handled?)
  }

  /** The worker holds nothing but the newest message; every other message has been decided. */
  predicate OneInHand(s: State) {
    && (HoldsMessage(s.worker) ==> s.fates != [])
    && (forall id :: 0 <= id < |s.fates| ==> (s.fates[id] == InHand <==> HoldsMessage(s.worker) && id == |s.fates| - 1))
  }

  ghost predicate RepliesCounted(s: State) {
    forall id: Id {:trigger RepliesDue(s, id)} {:trigger s.replies[id]} :: s.replies[id] == RepliesDue(s, id)
  }

  predicate HoldsQueue(h: Handler) {
    h.Draining? || h.InCall? || h.Ended? || h.Sent?
  }

  predicate NeedsRequest(h: Handler) {
    h.Checked? || h.InCall? || h.Ended? || h.Sent?
  }

  /** The guard admits one activation at a time, so that the mutex is held by at most one and never locked again. */
  predicate Guarded(s: State) {
    && |s.handlers| <= 1 && !s.relocked
    && (s.handlers != [] ==> s.idleInProgress && (NeedsRequest(s.handlers[0]) ==> s.queue != []))
    && (s.handlers != [] && s.handlers[0].Sent? ==> HasReply(s.handlers[0].call))
    && (s.queueLocked <==> s.handlers != [] && HoldsQueue(s.handlers[0]))
  }

  predicate Shape(s: State) {
    && Guarded(s)
    && (s.worker == NoThread ==> s.stopper == Nobody)
    && (s.stopper == MainThread || s.mainWaits ==> InUserCode(s))
    && (s.mainWaits ==> s.stopper == OtherThread)
  }

  ghost predicate Conserved(s: State) {
    InOrder(s) && OneInHand(s) && RepliesCounted(s) && Shape(s)
  }

  lemma {:induction false} DecidedInOrder(s: State, f: Fate, s': State)
    requires InOrder(s) && s.fates != [] && s.fates[|s.fates| - 1] == InHand && f != InHand && !f.Handled?
    requires s'.fates == LastFate(s, f) && s'.handled == s.handled
    requires s'.queue == s.queue + if f == Queued then [|s.fates| - 1] else []
    ensures InOrder(s')
  {
    var n := |s.fates| - 1;
    var before := s.fates[..n];
    assert s.fates == before + [InHand] && s'.fates == before + [f];
    AcceptedIdsSnoc(before, InHand);
    AcceptedIdsSnoc(before, f);
    assert s'.handled + s'.queue == (s.handled + s.queue) + if f == Queued then [n] else [];
  }

  lemma {:induction false} ReceivedInOrder(s: State, s': State)
    requires InOrder(s) && s'.fates == s.fates + [InHand] && s'.queue == s.queue && s'.handled == s.handled
    ensures InOrder(s')
  {
    AcceptedIdsSnoc(s.fates, InHand);
  }

  /** The front request is none of those behind it. */
  lemma {:induction false} FrontIsOnce(s: State, i: nat)
    requires InOrder(s) && 0 < i < |s.queue|
    ensures s.queue[i] != s.queue[0]
  {
    var ids := AcceptedIds(s.fates);
    AcceptedIdsSorted(s.fates);
    assert ids[|s.handled|] == s.queue[0] && ids[|s.handled| + i] == s.queue[i];
  }

  lemma {:induction false} PopInOrder(s: State, f: Fate, s': State)
    requires InOrder(s) && s.queue != [] && f.Handled?
    requires s'.fates == s.fates[s.queue[0] := f]
    requires s'.handled == s.handled + [s.queue[0]] && s'.queue == s.queue[1..]
    ensures InOrder(s')
  {
    var front := s.queue[0];
    AcceptedIdsUpdate(s.fates, front, f);
    assert s'.handled + s'.queue == s.handled + s.queue;
    forall i | 0 <= i < |s'.queue|
      ensures s'.queue[i] < |s'.fates| && s'.fates[s'.queue[i]] == Queued
    {
      FrontIsOnce(s, i + 1);
      assert s'.queue[i] == s.queue[i + 1];
    }
    forall i | 0 <= i < |s'.handled|
      ensures s'.handled[i] < |s'.fates| && s'.fates[s'.handled[i]].Handled?
    {
      assert i < |s.handled| ==> s'.handled[i] == s.handled[i];
    }
  }

  /** Steps that touch no message. */
  predicate Quiet(a: Action) {
    !(a.Receive? || a.Push? || a.Reject? || a.Drop? || a.Send? || a.Pop?)
  }

  predicate SameMessages(s: State, t: State) {
    t.fates == s.fates && t.queue == s.queue && t.handled == s.handled && t.replies == s.replies
  }

  lemma {:induction false} QuietMainStep(s: State, a: Action)
    requires MainStep(true, s, a).Some? && Quiet(a)
    ensures SameMessages(s, MainStep(true, s, a).value) && MainStep(true, s, a).value.worker == s.worker
  {
  }

  lemma {:induction false} QuietStep(s: State, a: Action)
    requires Next(s, a).Some? && Quiet(a)
    ensures SameMessages(s, Next(s, a).value) && HoldsMessage(Next(s, a).value.worker) == HoldsMessage(s.worker)
  {
    if OfMainThread(a) {
      QuietMainStep(s, a);
    }
  }

  lemma {:induction false} QuietMainFront(s: State, a: Action)
    requires MainStep(true, s, a).Some? && Quiet(a) && Guarded(s)
    ensures FrontReplied(MainStep(true, s, a).value) == FrontReplied(s)
  {
  }

  lemma {:induction false} QuietFront(s: State, a: Action)
    requires Next(s, a).Some? && Quiet(a) && Guarded(s)
    ensures FrontReplied(Next(s, a).value) == FrontReplied(s)
  {
    if OfMainThread(a) {
      QuietMainFront(s, a);
    }
  }

  lemma {:induction false} DecidedOneInHand(s: State, f: Fate, s': State)
    requires OneInHand(s) && s.fates != [] && f != InHand && HoldsMessage(s.worker) && !HoldsMessage(s'.worker)
    requires s'.fates == LastFate(s, f)
    ensures OneInHand(s')
  {
  }

  /** What the worker decides about the message in its hand. */
  function Decision(a: Action): Option<Fate> {
    match a
    case Push => Some(Queued)
    case Reject(sent) => Some(Answered(sent))
    case Drop => Some(Dropped)
    case _ => None
  }

  lemma {:induction false} DecisionStep(s: State, a: Action)
    requires WorkerStep(s, a).Some? && Decision(a).Some?
    ensures var s', f := WorkerStep(s, a).value, Decision(a).value;
      && HoldsMessage(s.worker) && !HoldsMessage(s'.worker) && s.fates != [] && s'.fates == LastFate(s, f)
      && s'.handled == s.handled && s'.queue == s.queue + (if f == Queued then [|s.fates| - 1] else [])
      && s'.replies == (if f == Answered(true) then s.replies + multiset{|s.fates| - 1} else s.replies)
      && s'.handlers == s.handlers
  {
  }

  lemma {:induction false} PopStep(s: State)
    requires MainStep(true, s, Pop).Some?
    ensures var s' := MainStep(true, s, Pop).value;
      && Finished(s) && s.queue != [] && s.queue[0] < |s.fates| && s'.fates == s.fates[s.queue[0] := Result(s)]
      && s'.handled == s.handled + [s.queue[0]] && s'.queue == s.queue[1..] && s'.worker == s.worker
  {
  }

  lemma {:induction false} ReceiveStep(s: State)
    requires WorkerStep(s, Receive).Some?
    ensures var s' := WorkerStep(s, Receive).value;
      && s'.fates == s.fates + [InHand] && s'.queue == s.queue && s'.handled == s.handled && s'.replies == s.replies
      && s'.handlers == s.handlers && HoldsMessage(s'.worker) && !HoldsMessage(s.worker)
  {
  }

  lemma {:induction false} SendStep(s: State, ok: bool)
    requires MainStep(true, s, Send(ok)).Some?
    ensures var s' := MainStep(true, s, Send(ok)).value;
      && s'.fates == s.fates && s'.queue == s.queue != [] && s'.handled == s.handled && s'.worker == s.worker
      && s'.replies == (if ok then s.replies + multiset{s.queue[0]} else s.replies)
      && !FrontReplied(s) && (FrontReplied(s') <==> ok)
  {
  }

  lemma {:induction false} NextInOrder(s: State, a: Action)
    requires InOrder(s) && OneInHand(s) && Next(s, a).Some? && !Quiet(a)
    ensures InOrder(Next(s, a).value)
  {
    var s' := Next(s, a).value;
    if a.Receive? {
      ReceiveStep(s);
      ReceivedInOrder(s, s');
    } else if a.Pop? {
      PopStep(s);
      PopInOrder(s, Result(s), s');
    } else if a.Send? {
      SendStep(s, a.ok);
    } else {
      DecisionStep(s, a);
      DecidedInOrder(s, Decision(a).value, s');
    }
  }

  lemma {:induction false} NextOneInHand(s: State, a: Action)
    requires InOrder(s) && OneInHand(s) && Next(s, a).Some? && !Quiet(a)
    ensures OneInHand(Next(s, a).value)
  {
    var s' := Next(s, a).value;
    if a.Receive? {
      ReceiveStep(s);
    } else if a.Pop? {
      PopStep(s);
      assert s.fates[s.queue[0]] == Queued;
    } else if a.Send? {
      SendStep(s, a.ok);
    } else {
      DecisionStep(s, a);
      DecidedOneInHand(s, Decision(a).value, s');
    }
  }

  lemma {:induction false} SendCounted(s: State, ok: bool, id: Id)
    requires InOrder(s) && Guarded(s) && Next(s, Send(ok)).Some? && s.replies[id] == RepliesDue(s, id)
    ensures var s' := Next(s, Send(ok)).value; s'.replies[id] == RepliesDue(s', id)
  {
    SendStep(s, ok);
    assert s.fates[s.queue[0]] == Queued;
  }

  lemma {:induction false} PopCounted(s: State, id: Id)
    requires InOrder(s) && Guarded(s) && Next(s, Pop).Some? && s.replies[id] == RepliesDue(s, id)
    ensures var s' := Next(s, Pop).value; s'.replies[id] == RepliesDue(s', id)
  {
    assert s.fates[s.queue[0]] == Queued;
    assert FrontReplied(s) <==> HasReply(Result(s).call) && Result(s).sent;
    assert !FrontReplied(Next(s, Pop).value);
  }

  lemma {:induction false} DecisionCounted(s: State, f: Fate, s': State, id: Id)
    requires InOrder(s) && OneInHand(s) && Guarded(s) && HoldsMessage(s.worker)
    requires f == Queued || f.Answered? || f == Dropped
    requires s'.fates == LastFate(s, f) && s'.handlers == s.handlers
    requires s'.queue == s.queue + if f == Queued then [|s.fates| - 1] else []
    requires s'.replies == if f == Answered(true) then s.replies + multiset{|s.fates| - 1} else s.replies
    requires s.replies[id] == RepliesDue(s, id)
    ensures s'.replies[id] == RepliesDue(s', id)
  {
    if s.queue != [] {
      assert s.fates[s.queue[0]] == Queued && s'.queue[0] == s.queue[0];
    }
  }

  lemma {:induction false} ReceiveCounted(s: State, s': State, id: Id)
    requires InOrder(s) && s'.fates == s.fates + [InHand] && s'.queue == s.queue && s'.handlers == s.handlers
    requires s'.replies == s.replies && s.replies[id] == RepliesDue(s, id)
    ensures s'.replies[id] == RepliesDue(s', id)
  {
    if s.queue != [] {
      assert s.fates[s.queue[0]] == Queued;
    }
  }

  lemma {:induction false} MainKeepsWorker(s: State, a: Action)
    requires MainStep(true, s, a).Some?
    ensures var s' := MainStep(true, s, a).value;
      && s'.worker == s.worker && s'.stopper == s.stopper != MainThread && s'.shouldFinish == s.shouldFinish
      && !s.mainWaits && !s'.mainWaits
  {
    hide At, InUserCode, Finished, Result;
  }

  lemma {:induction false} WorkerKeepsOthers(s: State, a: Action)
    requires OfWorker(a) && Next(s, a).Some?
    ensures var s' := Next(s, a).value;
      && s'.stopper == s.stopper && s'.handlers == s.handlers && s'.queueLocked == s.queueLocked
      && s'.mainWaits == s.mainWaits && s'.idleInProgress == s.idleInProgress
      && (a.ClearFlag? || s'.shouldFinish == s.shouldFinish)
  {
    hide MainStep, ControlStep, LastFate;
  }

  lemma {:induction false} MainKeepsGuarded(s: State, a: Action)
    requires Guarded(s) && MainStep(true, s, a).Some?
    ensures Guarded(MainStep(true, s, a).value)
  {
  }

  lemma {:induction false} OthersKeepGuarded(s: State, a: Action)
    requires Shape(s) && !OfMainThread(a) && Next(s, a).Some?
    ensures Shape(Next(s, a).value) && Next(s, a).value.handlers == s.handlers
  {
  }

  lemma {:induction false} NextKeepsShape(s: State, a: Action)
    requires Shape(s) && Next(s, a).Some?
    ensures Shape(Next(s, a).value)
  {
    if OfMainThread(a) {
      MainKeepsGuarded(s, a);
      MainKeepsWorker(s, a);
    } else {
      OthersKeepGuarded(s, a);
    }
  }

  lemma {:induction false} NextKeepsConserved(s: State, a: Action)
    requires Conserved(s) && Next(s, a).Some?
    ensures Conserved(Next(s, a).value)
  {
    NextKeepsShape(s, a);
    if Quiet(a) {
      QuietStep(s, a);
      QuietFront(s, a);
    } else {
      NextInOrder(s, a);
      NextOneInHand(s, a);
    }
    var s' := Next(s, a).value;
    forall id: Id
      ensures s'.replies[id] == RepliesDue(s', id)
    {
      assert s.replies[id] == RepliesDue(s, id);
      if a.Send? {
        SendCounted(s, a.ok, id);
      } else if a.Pop? {
        PopCounted(s, id);
      } else if a.Receive? {
        ReceiveStep(s);
        ReceiveCounted(s, s', id);
      } else if Decision(a).Some? {
        DecisionStep(s, a);
        DecisionCounted(s, Decision(a).value, s', id);
      }
    }
  }

  lemma {:induction false} RunKeepsConserved(s: State, actions: seq<Action>)
    requires Conserved(s) && Run(s, actions).Some?
    ensures Conserved(Run(s, actions).value)
    decreases |actions|
  {
    if actions != [] {
      NextKeepsConserved(s, actions[0]);
      RunKeepsConserved(Next(s, actions[0]).value, actions[1..]);
    }
  }

  predicate Member(ids: seq<Id>, id: Id) {
    exists i :: 0 <= i < |ids| && ids[i] == id
  }

  predicate Increasing(ids: seq<Id>) {
    forall i, j :: 0 <= i < j < |ids| ==> ids[i] < ids[j]
  }

  /**
    A message is in one place only, the one its fate says. A handled request has exactly one reply if its
    call ended in success or an IgorException and the send succeeded, and otherwise none.
   */
  ghost predicate Accounted(s: State, id: Id)
    requires id < |s.fates|
  {
    && (Member(s.queue, id) <==> s.fates[id].Queued?)
    && (Member(s.handled, id) <==> s.fates[id].Handled?)
    && (HoldsMessage(s.worker) && id == |s.fates| - 1 <==> s.fates[id].InHand?)
    && s.replies[id] <= 1
    && match s.fates[id]
       case Handled(call, sent) => s.replies[id] == 1 <==> HasReply(call) && sent
       case Answered(sent) => s.replies[id] == 1 <==> sent
       case Queued => true
       case _ => s.replies[id] == 0
  }

  lemma {:induction false} AcceptedIsHeld(s: State, id: Id)
    requires InOrder(s) && id < |s.fates| && WasAccepted(s.fates[id])
    ensures Member(s.queue, id) || Member(s.handled, id)
  {
    var ids := AcceptedIds(s.fates);
    AcceptedIdsSorted(s.fates);
    var i :| 0 <= i < |ids| && ids[i] == id;
    if i < |s.handled| {
      assert s.handled[i] == id;
    } else {
      assert s.queue[i - |s.handled|] == id;
    }
  }

  lemma {:induction false} ConservedAccounts(s: State, id: Id)
    requires Conserved(s) && id < |s.fates|
    ensures Accounted(s, id)
  {
    if WasAccepted(s.fates[id]) {
      AcceptedIsHeld(s, id);
    }
    assert s.replies[id] == RepliesDue(s, id);
    if FrontReplied(s) {
      assert s.fates[s.queue[0]].Queued?;
    }
  }

  /**
    Main result, for every interleaving of worker, main thread and starts and stops: requests are
    handled in the order of arrival, every received message is accounted for, and no reply goes out
    for anything else.
   */
  lemma {:induction false} MessagesConserved(actions: seq<Action>)
    requires Run(INIT, actions).Some?
    ensures var s := Run(INIT, actions).value;
      && Increasing(s.handled + s.queue)
      && (forall id :: 0 <= id < |s.fates| ==> Accounted(s, id))
      && (forall id: Id :: id >= |s.fates| ==> s.replies[id] == 0)
  {
    RunKeepsConserved(INIT, actions);
    var s := Run(INIT, actions).value;
    AllAccounted(s);
  }

  lemma {:induction false} AllAccounted(s: State)
    requires Conserved(s)
    ensures Increasing(s.handled + s.queue)
    ensures forall id :: 0 <= id < |s.fates| ==> Accounted(s, id)
    ensures forall id: Id :: id >= |s.fates| ==> s.replies[id] == 0
  {
    AcceptedIdsSorted(s.fates);
    forall id | 0 <= id < |s.fates|
      ensures Accounted(s, id)
    {
      ConservedAccounts(s, id);
    }
    forall id: Id | id >= |s.fates|
      ensures s.replies[id] == 0
    {
      assert s.replies[id] == RepliesDue(s, id);
    }
  }

  /** No step, and in particular no stop, takes back an accepted or a handled request. */
  lemma {:induction false} RunExtends(s: State, actions: seq<Action>)
    requires Conserved(s) && Run(s, actions).Some?
    ensures var t := Run(s, actions).value;
      s.handled <= t.handled && s.handled + s.queue <= t.handled + t.queue && |s.fates| <= |t.fates|
    decreases |actions|
  {
    if actions != [] {
      var s', t := Next(s, actions[0]).value, Run(s, actions).value;
      NextExtends(s, actions[0]);
      NextKeepsConserved(s, actions[0]);
      RunExtends(s', actions[1..]);
      PrefixTransitive(s.handled, s'.handled, t.handled);
      PrefixTransitive(s.handled + s.queue, s'.handled + s'.queue, t.handled + t.queue);
    }
  }

  lemma {:induction false} NextExtends(s: State, a: Action)
    requires Next(s, a).Some?
    ensures var s' := Next(s, a).value;
      s.handled <= s'.handled && s.handled + s.queue <= s'.handled + s'.queue && |s.fates| <= |s'.fates|
  {
    var s' := Next(s, a).value;
    if Quiet(a) {
      QuietStep(s, a);
    } else if a.Receive? {
      ReceiveStep(s);
    } else if a.Pop? {
      PopStep(s);
      assert s'.handled + s'.queue == s.handled + s.queue;
    } else if a.Send? {
      SendStep(s, a.ok);
    } else {
      DecisionStep(s, a);
      Reassociate(s.handled, s.queue, if a.Push? then [|s.fates| - 1] else []);
    }
  }

  // ---- which steps are possible, and what they do ----

  /** The main thread runs and its innermost activation is there. */
  predicate MainIsAt(s: State, h: Handler) {
    MainRuns(s) && At(s, h)
  }

  /** The activations of the IDLE handler outside of the drain. */
  lemma {:induction false} IdleCanStep(s: State)
    requires Conserved(s)
    ensures MainRuns(s) && s.handlers == [] ==> Next(s, IdleEvent).Some?
    ensures MainIsAt(s, Entered) ==>
      Next(s, CheckQueue).Some? && At(Next(s, CheckQueue).value, if s.queue == [] then Printing else Checked)
    ensures MainIsAt(s, Checked) ==>
      Next(s, LockQueue).Some? && At(Next(s, LockQueue).value, Draining) && Next(s, LockQueue).value.queueLocked
    ensures MainIsAt(s, Printing) ==>
      Next(s, IdleEnds).Some? && Next(s, IdleEnds).value.handlers == [] && !Next(s, IdleEnds).value.idleInProgress
    ensures MainIsAt(s, Checked) || MainIsAt(s, Printing) ==>
      && Next(s, IdleThrows).Some?
      && Next(s, IdleThrows).value.handlers == [] && Next(s, IdleThrows).value.idleInProgress
  {
    hide InOrder, OneInHand, RepliesCounted, WorkerStep, ControlStep;
  }

  /** The drain: a call for each request, which can end in any way; without requests the queue is released. */
  lemma {:induction false} CallsCanRun(s: State, call: CallEnd)
    requires Conserved(s)
    ensures MainIsAt(s, Draining) && s.queue != [] ==>
      Next(s, BeginCall).Some? && At(Next(s, BeginCall).value, InCall)
    ensures MainIsAt(s, InCall) ==>
      Next(s, EndCall(call)).Some? && At(Next(s, EndCall(call)).value, Ended(call)) && s.queue != []
    ensures MainIsAt(s, Draining) && s.queue == [] ==>
      && Next(s, UnlockQueue).Some? && At(Next(s, UnlockQueue).value, Printing)
      && !Next(s, UnlockQueue).value.queueLocked
  {
    hide InOrder, OneInHand, RepliesCounted, WorkerStep, ControlStep;
  }

  /**
    Main result: the document for a request whose call has succeeded, or has ended in an IgorException, can be sent,
    and the send can fail; a request whose call threw anything else is done with at once.
   */
  lemma {:induction false} RepliesCanGoOut(s: State, call: CallEnd, ok: bool)
    requires Conserved(s) && MainRuns(s)
    ensures At(s, Ended(call)) && (call.Succeeded? || call.IgorFailed?) ==>
      && Next(s, Send(ok)).Some? && s.queue != []
      && At(Next(s, Send(ok)).value, Sent(call, ok))
      && Next(s, Send(ok)).value.replies == if ok then s.replies + multiset{s.queue[0]} else s.replies
    ensures At(s, Ended(Threw)) ==> PopsFront(s, Handled(Threw, false)) && forall b :: Next(s, Send(b)).None?
    ensures At(s, Sent(call, ok)) ==> PopsFront(s, Handled(call, ok))
  {
    if s.handlers != [] {
      assert At(s, s.handlers[0]);
    }
  }

  /** The front request is taken from the queue with the given fate, and the drain goes on. */
  predicate PopsFront(s: State, f: Fate) {
    && Next(s, Pop).Some? && s.queue != [] && s.queue[0] < |s.fates|
    && var s' := Next(s, Pop).value;
       && At(s', Draining) && s'.queue == s.queue[1..] && s'.handled == s.handled + [s.queue[0]]
       && s'.fates == s.fates[s.queue[0] := f] && s'.replies == s.replies
  }

  /** The message in the worker's hand gets the given fate, and the worker is back at the head of its loop. */
  predicate Decides(s: State, a: Action, f: Fate) {
    && Next(s, a).Some? && s.fates != [] && s.fates[|s.fates| - 1] == InHand
    && Next(s, a).value.fates == s.fates[|s.fates| - 1 := f] && Next(s, a).value.worker == Head
  }

  /** Main result: what the worker can do where it is; only the queue's mutex can keep it from going on. */
  lemma {:induction false} WorkerCanStep(s: State, sent: bool)
    requires Conserved(s)
    ensures s.worker == Starting ==>
      Next(s, ClearFlag).Some? && Next(s, ClearFlag).value == s.(worker := Head, shouldFinish := false)
    ensures s.worker == Head ==>
      Next(s, CheckFlag) == Some(s.(worker := if s.shouldFinish then Exited else Receiving))
    ensures s.worker == Receiving ==>
      && Next(s, Timeout) == Some(s.(worker := Head))
      && Next(s, Receive) == Some(s.(worker := Parsing, fates := s.fates + [InHand]))
    ensures s.worker == Parsing ==>
      && Next(s, Accept) == Some(s.(worker := Pushing)) && Next(s, Refuse) == Some(s.(worker := Rejecting))
      && Decides(s, Drop, Dropped)
    ensures s.worker == Pushing && !s.queueLocked ==>
      && Decides(s, Push, Queued) && Next(s, Push).value.queue == s.queue + [|s.fates| - 1]
      && Next(s, Refuse) == Some(s.(worker := Rejecting))
    ensures s.worker == Pushing && s.queueLocked ==> Next(s, Push).None? && Next(s, Refuse).None?
    ensures s.worker == Rejecting ==>
      && Decides(s, Reject(sent), Answered(sent))
      && Next(s, Reject(sent)).value.replies == if sent then s.replies + multiset{|s.fates| - 1} else s.replies
  {
    hide InOrder, RepliesCounted, MainStep, ControlStep;
  }

  /** Starting, stopping and joining. */
  lemma {:induction false} ControlCanStep(s: State, byMain: bool)
    requires Conserved(s)
    ensures s.worker == NoThread && MainRuns(s) && (s.handlers == [] || At(s, InCall)) ==>
      Next(s, Start) == Some(s.(worker := Starting))
    ensures s.worker != NoThread && s.stopper == Nobody ==>
      Next(s, StopSetsFlag(false)) == Some(s.(shouldFinish := true, stopper := OtherThread))
    ensures s.worker != NoThread && s.stopper == Nobody && MainRuns(s) && (s.handlers == [] || At(s, InCall)) ==>
      Next(s, StopSetsFlag(true)) == Some(s.(shouldFinish := true, stopper := MainThread))
    ensures s.stopper != Nobody && s.worker == Exited ==>
      Next(s, JoinReturns) == Some(s.(worker := NoThread, stopper := Nobody, mainWaits := false))
    ensures s.stopper != Nobody && s.worker != Exited ==> Next(s, JoinReturns).None?
  {
    hide InOrder, OneInHand, RepliesCounted, MainStep, WorkerStep;
  }
}
