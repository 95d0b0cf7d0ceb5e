/**
  Several threads reply through the one server socket. Each ZeroMQServerSend holds the socket's
  mutex while it emits its three frames; between two frames any other thread may take a step.
 */
module SendAtomicity {
  import opened Wrappers
  import opened Bytes
  import opened Frames

  type Thread = nat

  /** A thread inside ZeroMQServerSend, with the number of frames it has emitted. */
  datatype Sender = Sender(thread: Thread, envelope: Request, emitted: nat)

  /** `waiting` are threads blocked on the mutex, `done` the envelopes in the order of their last frame. */
  datatype State = State(waiting: map<Thread, Request>, holder: Option<Sender>, out: seq<Frame>, done: seq<Request>)

  datatype Action =
    | Enter(thread: Thread, envelope: Request)
    | Lock(thread: Thread)
    | Emit(thread: Thread)
    | Refused(thread: Thread)
    | Unlock(thread: Thread)

  const INIT := State(map[], None, [], [])

  predicate Holds(s: State, t: Thread) {
    s.holder.Some? && s.holder.value.thread == t
  }

  /** One step of one thread; None when the thread cannot take it. */
  function Next(s: State, a: Action): Option<State> {
    match a
    case Enter(t, envelope) =>
      if t in s.waiting || Holds(s, t) then None else Some(s.(waiting := s.waiting[t := envelope]))
    case Lock(t) =>
      if t !in s.waiting || s.holder.Some? then None
      else Some(s.(waiting := s.waiting - {t}, holder := Some(Sender(t, s.waiting[t], 0))))
    case Emit(t) =>
      if !Holds(s, t) || s.holder.value.emitted >= 3 then None
      else
        var h := s.holder.value;
        var frame := ServerEnvelope(h.envelope.identity, h.envelope.payload)[h.emitted];
        Some(s.(out := s.out + [frame],
                holder := Some(h.(emitted := h.emitted + 1)),
                done := if h.emitted == 2 then s.done + [h.envelope] else s.done))
    case Refused(t) => // the first frame was not accepted; the exception releases the lock
      if !Holds(s, t) || s.holder.value.emitted != 0 then None else Some(s.(holder := None))
    case Unlock(t) =>
      if !Holds(s, t) || s.holder.value.emitted != 3 then None else Some(s.(holder := None))
  }

  function Run(s: State, actions: seq<Action>): Option<State>
    decreases |actions|
  {
    if actions == [] then Some(s)
    else
      var s' := Next(s, actions[0]);
      if s'.None? then None else Run(s'.value, actions[1..])
  }

  function Envelopes(done: seq<Request>): seq<Frame> {
    if done == [] then [] else ServerEnvelope(done[0].identity, done[0].payload) + Envelopes(done[1..])
  }

  lemma {:induction false} EnvelopesSnoc(done: seq<Request>, q: Request)
    ensures Envelopes(done + [q]) == Envelopes(done) + ServerEnvelope(q.identity, q.payload)
  {
    if done == [] {
      assert [q][1..] == [];
    } else {
      EnvelopesSnoc(done[1..], q);
      assert (done + [q])[1..] == done[1..] + [q];
    }
  }

  /** Frames the lock holder has emitted of an envelope that is not complete yet. */
  function Partial(holder: Option<Sender>): seq<Frame> {
    if holder.Some? && holder.value.emitted < 3 then
      ServerEnvelope(holder.value.envelope.identity, holder.value.envelope.payload)[..holder.value.emitted]
    else
      []
  }

  predicate Atomic(s: State) {
    && (s.holder.Some? ==> s.holder.value.emitted <= 3)
    && s.out == Envelopes(s.done) + Partial(s.holder)
  }

  lemma {:induction false} NextKeepsAtomic(s: State, a: Action)
    requires Atomic(s) && Next(s, a).Some?
    ensures Atomic(Next(s, a).value)
  {
    if a.Emit? {
      var q := s.holder.value.envelope;
      var envelope := ServerEnvelope(q.identity, q.payload);
      var k := s.holder.value.emitted;
      assert envelope[..k] + [envelope[k]] == envelope[..k + 1];
      if k == 2 {
        EnvelopesSnoc(s.done, q);
        assert envelope[..3] == envelope;
      }
    }
  }

  /** Main result: in every interleaving the stream consists of whole envelopes and at most one begun. */
  lemma {:induction false} SendsAreAtomic(s: State, actions: seq<Action>)
    requires Atomic(s) && Run(s, actions).Some?
    ensures Atomic(Run(s, actions).value)
    decreases |actions|
  {
    if actions != [] {
      NextKeepsAtomic(s, actions[0]);
      SendsAreAtomic(Next(s, actions[0]).value, actions[1..]);
    }
  }

  /** What the ROUTER socket hands to the peer `c`: the messages addressed to it without the identity. */
  function Delivered(s: seq<Frame>, c: seq<byte>): seq<Frame>
    decreases |s|
  {
    if s == [] then []
    else
      var e := MessageEnd(s, 0);
      (if s[0].data == c then s[1..e] else []) + Delivered(s[e..], c)
  }

  function PayloadsFor(done: seq<Request>, c: seq<byte>): seq<Received<seq<byte>>> {
    if done == [] then []
    else (if done[0].identity == c then [Got(done[0].payload)] else []) + PayloadsFor(done[1..], c)
  }

  lemma {:induction false} DeliveredEnvelope(q: Request, rest: seq<Frame>, c: seq<byte>)
    ensures Delivered(ServerEnvelope(q.identity, q.payload) + rest, c)
         == (if q.identity == c then ClientEnvelope(q.payload) else []) + Delivered(rest, c)
  {
    var s := ServerEnvelope(q.identity, q.payload) + rest;
    assert s[0].more && s[1].more && !s[2].more;
    assert MessageEnd(s, 2) == 3 && MessageEnd(s, 1) == 3 && MessageEnd(s, 0) == 3;
    assert s[3..] == rest && s[1..3] == ClientEnvelope(q.payload);
  }

  lemma {:induction false} DecodeEnvelopes(done: seq<Request>, c: seq<byte>)
    ensures ReceiveAll(ClientStep, Delivered(Envelopes(done), c)) == PayloadsFor(done, c)
  {
    if done != [] {
      var q := done[0];
      var rest := Envelopes(done[1..]);
      DeliveredEnvelope(q, rest, c);
      DecodeEnvelopes(done[1..], c);
      if q.identity == c {
        ClientCompositional();
        var m := ClientEnvelope(q.payload);
        ReceiveAllComposes(ClientStep, m, Delivered(rest, c));
        ClientReports(m);
        assert ReceiveAll(ClientStep, m) == [Got(q.payload)];
      } else {
        assert [] + Delivered(rest, c) == Delivered(rest, c);
      }
    } else {
      assert Delivered(Envelopes(done), c) == [];
    }
  }

  /**
    Main result: whenever no send is in progress, every client decodes exactly the payloads addressed
    to it, in the order in which the sends completed.
   */
  lemma {:induction false} ClientsDecodeReplies(actions: seq<Action>, c: seq<byte>)
    requires Run(INIT, actions).Some? && Run(INIT, actions).value.holder.None?
    ensures var s := Run(INIT, actions).value;
            ReceiveAll(ClientStep, Delivered(s.out, c)) == PayloadsFor(s.done, c)
  {
    SendsAreAtomic(INIT, actions);
    var s := Run(INIT, actions).value;
    DecodeEnvelopes(s.done, c);
    assert s.out == Envelopes(s.done);
  }

  /** The steps of a whole send. */
  function WholeSend(t: Thread): seq<Action> {
    [Lock(t), Emit(t), Emit(t), Emit(t), Unlock(t)]
  }

  /** Main result: a waiting send can go through once the mutex is free, and it then emits identity, empty, payload. */
  lemma {:induction false} SendCompletes(s: State, t: Thread)
    requires t in s.waiting && s.holder.None?
    ensures var q := s.waiting[t];
      Run(s, WholeSend(t)) == Some(State(s.waiting - {t}, None,
        s.out + [Frame(q.identity, true), Frame([], true), Frame(q.payload, false)], s.done + [q]))
  {
    var q := s.waiting[t];
    var frames := [Frame(q.identity, true), Frame([], true), Frame(q.payload, false)];
    var s1 := s.(waiting := s.waiting - {t}, holder := Some(Sender(t, q, 0)));
    var s2 := s1.(out := s.out + frames[..1], holder := Some(Sender(t, q, 1)));
    var s3 := s1.(out := s.out + frames[..2], holder := Some(Sender(t, q, 2)));
    var s4 := s1.(out := s.out + frames, holder := Some(Sender(t, q, 3)), done := s.done + [q]);
    Emits(s1, t, q, 0);
    Emits(s2, t, q, 1);
    Emits(s3, t, q, 2);
    assert frames[..1] == [frames[0]];
    assert s2.out + [frames[1]] == s.out + frames[..2] && s3.out + [frames[2]] == s.out + frames;
    assert Next(s, Lock(t)) == Some(s1) && Next(s1, Emit(t)) == Some(s2) && Next(s2, Emit(t)) == Some(s3);
    assert Next(s3, Emit(t)) == Some(s4);
    assert Next(s4, Unlock(t)) == Some(s4.(holder := None));
    hide Next;
    RunFrom(s4, [Unlock(t)], []);
    RunFrom(s4.(holder := None), [Unlock(t)], []);
    RunFrom(s3, [Emit(t), Unlock(t)], [Unlock(t)]);
    RunFrom(s2, [Emit(t), Emit(t), Unlock(t)], [Emit(t), Unlock(t)]);
    RunFrom(s1, [Emit(t), Emit(t), Emit(t), Unlock(t)], [Emit(t), Emit(t), Unlock(t)]);
    RunFrom(s, WholeSend(t), [Emit(t), Emit(t), Emit(t), Unlock(t)]);
  }

  lemma {:induction false} RunFrom(s: State, actions: seq<Action>, rest: seq<Action>)
    requires actions != [] && actions[1..] == rest
    ensures Run(s, actions) == if Next(s, actions[0]).None? then None else Run(Next(s, actions[0]).value, rest)
    ensures Run(s, []) == Some(s)
  {
  }

  lemma {:induction false} Emits(s: State, t: Thread, q: Request, k: nat)
    requires s.holder == Some(Sender(t, q, k)) && k < 3
    ensures Next(s, Emit(t)) == Some(s.(
      out := s.out + [if k == 0 then Frame(q.identity, true) else if k == 1 then Frame([], true)
                      else Frame(q.payload, false)],
      holder := Some(Sender(t, q, k + 1)), done := if k == 2 then s.done + [q] else s.done))
  {
  }

  /** A thread can always begin a send unless it is in one; a refused first frame ends it without any frame. */
  lemma {:induction false} SendBegins(s: State, t: Thread, q: Request)
    ensures t !in s.waiting && (s.holder.Some? ==> s.holder.value.thread != t) ==>
      Next(s, Enter(t, q)) == Some(s.(waiting := s.waiting[t := q]))
    ensures s.holder == Some(Sender(t, q, 0)) ==> Next(s, Refused(t)) == Some(s.(holder := None))
    ensures s.holder == Some(Sender(t, q, 1)) || s.holder == Some(Sender(t, q, 2)) ==>
      Next(s, Refused(t)).None? && Next(s, Unlock(t)).None?
  {
  }
}
