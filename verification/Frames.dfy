/**
  The receive and send functions of HelperFunctions.cpp as parsers and printers of frame streams.

  A socket delivers frames, each with a flag saying whether the same message continues.
  Each receiver is specified by a function on the pending frames; the methods of Socket, which pop
  one frame after another, are proved against these functions.
 */
module Frames {
  import opened Wrappers
  import opened Sequences
  import opened Bytes
  import opened Layout

  datatype Frame = Frame(data: seq<byte>, more: bool)

  /** What one receive call reports: a timeout, an exception for a malformed message, or a value. */
  datatype Received<+T> = Nothing | Malformed | Got(value: T)

  /** The report of one receive call together with the number of frames it took. */
  datatype Step<+T> = Step(outcome: Received<T>, taken: nat)

  /** The stream does not stop inside a message. */
  predicate OnBoundary(s: seq<Frame>) {
    s == [] || !s[|s| - 1].more
  }

  /** The stream is exactly one message. */
  predicate IsMessage(s: seq<Frame>) {
    s != [] && OnBoundary(s) && forall i :: 0 <= i < |s| - 1 ==> s[i].more
  }

  // ---- what the three receivers do with the pending frames ----

  datatype Request = Request(identity: seq<byte>, payload: seq<byte>)

  function ServerStep(s: seq<Frame>): Step<Request> {
    if s == [] then Step(Nothing, 0)
    else if !s[0].more || |s| == 1 then Step(Malformed, 1)
    else if s[1].data != [] || !s[1].more || |s| == 2 then Step(Malformed, 2)
    else if s[2].more then Step(Malformed, 3)
    else Step(Got(Request(s[0].data, s[2].data)), 3)
  }

  /** The first frame is not compared with the empty frame. */
  function ClientStep(s: seq<Frame>): Step<seq<byte>> {
    if s == [] then Step(Nothing, 0)
    else if !s[0].more || |s| == 1 then Step(Malformed, 1)
    else if s[1].more then Step(Malformed, 2)
    else Step(Got(s[1].data), 2)
  }

  /** Index just behind the first frame from `i` on that ends its message, or the stream's length. */
  function MessageEnd(s: seq<Frame>, i: nat): (e: nat)
    requires i <= |s|
    ensures i <= e <= |s|
    ensures forall j :: i <= j < e - 1 ==> s[j].more
    ensures e == |s| || (i < e && !s[e - 1].more)
    decreases |s| - i
  {
    if i == |s| then i
    else if s[i].more then MessageEnd(s, i + 1)
    else i + 1
  }

  function Payloads(s: seq<Frame>): (p: seq<seq<byte>>)
    ensures |p| == |s| && forall i :: 0 <= i < |s| ==> p[i] == s[i].data
  {
    seq(|s|, i requires 0 <= i < |s| => s[i].data)
  }

  function SubscriberStep(s: seq<Frame>, allowAdditionalFrames: bool): Step<seq<seq<byte>>> {
    if s == [] then Step(Nothing, 0)
    else if !s[0].more then Step(Malformed, 1)
    else if |s| == 1 then Step(Nothing, 1)
    else if s[1].more && !allowAdditionalFrames then Step(Malformed, 2)
    else
      var e := MessageEnd(s, 1);
      if s[e - 1].more then Step(Nothing, e) else Step(Got(Payloads(s[..e])), e)
  }

  // ---- compositionality, once for every receiver ----

  type Receiver<T> = seq<Frame> -> Step<T>

  /** A receive call on a non-empty stream takes some of its frames. */
  ghost predicate Progresses<T(!new)>(r: Receiver<T>) {
    forall s: seq<Frame> :: s != [] ==> 1 <= r(s).taken <= |s|
  }

  /** No frame but the last one taken ends its message: nothing is taken from a second message. */
  ghost predicate WithinOneMessage<T(!new)>(r: Receiver<T>) {
    forall s: seq<Frame> :: s != [] ==>
      r(s).taken <= |s| && forall i :: 0 <= i < r(s).taken - 1 ==> s[i].more
  }

  ghost predicate SuccessEndsMessage<T(!new)>(r: Receiver<T>) {
    forall s: seq<Frame> :: r(s).outcome.Got? ==> 1 <= r(s).taken <= |s| && !s[r(s).taken - 1].more
  }

  function Followed(m: seq<Frame>, rest: seq<Frame>): seq<Frame> {
    m + rest
  }

  /** What follows a message does not influence how it is received. */
  ghost predicate IgnoresNeighbours<T(!new)>(r: Receiver<T>) {
    forall m: seq<Frame>, rest: seq<Frame> {:trigger Followed(m, rest)} ::
      m != [] && OnBoundary(m) ==> r(Followed(m, rest)) == r(m)
  }

  ghost predicate Compositional<T(!new)>(r: Receiver<T>) {
    Progresses(r) && WithinOneMessage(r) && SuccessEndsMessage(r) && IgnoresNeighbours(r)
  }

  lemma {:induction false} ServerCompositional()
    ensures Compositional(ServerStep)
  {
    assert forall s: seq<Frame> :: s != [] ==> 1 <= ServerStep(s).taken <= |s|;
    forall m: seq<Frame>, rest: seq<Frame> | m != [] && OnBoundary(m)
      ensures ServerStep(m + rest) == ServerStep(m)
    {
      assert forall i :: 0 <= i < |m| ==> (m + rest)[i] == m[i];
    }
  }

  lemma {:induction false} ClientCompositional()
    ensures Compositional(ClientStep)
  {
    assert forall s: seq<Frame> :: s != [] ==> 1 <= ClientStep(s).taken <= |s|;
    forall m: seq<Frame>, rest: seq<Frame> | m != [] && OnBoundary(m)
      ensures ClientStep(m + rest) == ClientStep(m)
    {
      assert forall i :: 0 <= i < |m| ==> (m + rest)[i] == m[i];
    }
  }

  lemma {:induction false} MessageEndLocal(m: seq<Frame>, rest: seq<Frame>, i: nat)
    requires m != [] && OnBoundary(m) && i < |m|
    ensures MessageEnd(m + rest, i) == MessageEnd(m, i) && !m[MessageEnd(m, i) - 1].more
    decreases |m| - i
  {
    if m[i].more {
      MessageEndLocal(m, rest, i + 1);
    }
  }

  lemma {:induction false} SubscriberCompositional(allowAdditionalFrames: bool)
    ensures Compositional((s: seq<Frame>) => SubscriberStep(s, allowAdditionalFrames))
  {
    var r := (s: seq<Frame>) => SubscriberStep(s, allowAdditionalFrames);
    forall m: seq<Frame>, rest: seq<Frame> | m != [] && OnBoundary(m)
      ensures r(m + rest) == r(m)
    {
      assert forall i :: 0 <= i < |m| ==> (m + rest)[i] == m[i];
      if m[0].more {
        MessageEndLocal(m, rest, 1);
        assert (m + rest)[..MessageEnd(m, 1)] == m[..MessageEnd(m, 1)];
      }
    }
  }

  /** Receive until the stream is used up. */
  ghost function ReceiveAll<T>(r: Receiver<T>, s: seq<Frame>): seq<Received<T>>
    decreases |s|
  {
    if 1 <= r(s).taken <= |s| then
      [r(s).outcome] + ReceiveAll(r, s[r(s).taken..])
    else
      []
  }

  /** One receive call on a non-empty stream. */
  lemma {:induction false} OneReceive<T(!new)>(r: Receiver<T>, s: seq<Frame>)
    requires Progresses(r) && s != []
    ensures 1 <= r(s).taken <= |s| && ReceiveAll(r, s) == [r(s).outcome] + ReceiveAll(r, s[r(s).taken..])
  {
  }

  lemma {:induction false} BoundaryKept(m: seq<Frame>, n: nat)
    requires OnBoundary(m) && n <= |m|
    ensures OnBoundary(m[n..])
  {
  }

  lemma {:induction false} DropOfFollowed(m: seq<Frame>, rest: seq<Frame>, n: nat)
    requires n <= |m|
    ensures Followed(m, rest)[n..] == Followed(m[n..], rest)
  {
  }

  lemma {:induction false} SameStep<T(!new)>(r: Receiver<T>, m: seq<Frame>, rest: seq<Frame>)
    requires IgnoresNeighbours(r) && m != [] && OnBoundary(m)
    ensures r(Followed(m, rest)) == r(m)
  {
  }

  /**
    Main result: receiving a concatenation of messages gives the concatenation of the results of
    the messages, however malformed some of them are.
   */
  lemma {:induction false} ReceiveAllComposes<T(!new)>(r: Receiver<T>, m: seq<Frame>, rest: seq<Frame>)
    requires Progresses(r) && IgnoresNeighbours(r) && OnBoundary(m)
    ensures ReceiveAll(r, Followed(m, rest)) == ReceiveAll(r, m) + ReceiveAll(r, rest)
    decreases |m|
  {
    if m == [] {
      assert Followed(m, rest) == rest;
    } else {
      SameStep(r, m, rest);
      OneReceive(r, Followed(m, rest));
      OneReceive(r, m);
      var n := r(m).taken;
      DropOfFollowed(m, rest, n);
      BoundaryKept(m, n);
      ReceiveAllComposes(r, m[n..], rest);
      Reassociate([r(m).outcome], ReceiveAll(r, m[n..]), ReceiveAll(r, rest));
    }
  }

  ghost function Reports<T>(r: Receiver<T>, messages: seq<seq<Frame>>): seq<Received<T>> {
    if messages == [] then [] else ReceiveAll(r, messages[0]) + Reports(r, messages[1..])
  }

  /** No message of a stream changes the reports on any other message. */
  lemma {:induction false} ReceiveAllOfMessages<T(!new)>(r: Receiver<T>, messages: seq<seq<Frame>>)
    requires Compositional(r) && forall m :: m in messages ==> OnBoundary(m)
    ensures ReceiveAll(r, Flatten(messages)) == Reports(r, messages)
  {
    if messages != [] {
      assert messages[0] in messages;
      ReceiveAllComposes(r, messages[0], Flatten(messages[1..]));
      ReceiveAllOfMessages(r, messages[1..]);
    }
  }

  // ---- which messages are received as what ----

  /** A message yields exactly one request, and nothing else, iff it is [identity, empty, payload]. */
  lemma {:induction false} ServerWellFormed(m: seq<Frame>)
    requires IsMessage(m)
    ensures (exists q :: ReceiveAll(ServerStep, m) == [Got(q)]) <==> |m| == 3 && m[1].data == []
    ensures |m| == 3 && m[1].data == [] ==> ReceiveAll(ServerStep, m) == [Got(Request(m[0].data, m[2].data))]
  {
    if |m| == 3 && m[1].data == [] {
      assert m[3..] == [];
      assert ServerStep(m) == Step(Got(Request(m[0].data, m[2].data)), 3);
    } else {
      assert ReceiveAll(ServerStep, m)[0] == Malformed;
    }
  }

  /** Only the last report on a message can be a success, and it then carries the message's last frame. */
  predicate AtMostOneRequest(m: seq<Frame>, all: seq<Received<Request>>) {
    && all != []
    && (forall i :: 0 <= i < |all| - 1 ==> all[i] == Malformed)
    && (var last := all[|all| - 1];
        && !last.Nothing?
        && (last.Got? ==> |m| >= 3 && m[|m| - 2].data == [] && last.value == Request(m[|m| - 3].data, m[|m| - 1].data)))
  }

  lemma {:induction false} MalformedBefore(m: seq<Frame>, n: nat, rest: seq<Received<Request>>)
    requires n <= |m| && AtMostOneRequest(m[n..], rest)
    ensures AtMostOneRequest(m, [Malformed] + rest)
  {
  }

  lemma {:induction false} ServerReportsAtMostOne(m: seq<Frame>)
    requires IsMessage(m)
    ensures AtMostOneRequest(m, ReceiveAll(ServerStep, m))
    decreases |m|
  {
    var n := ServerStep(m).taken;
    if n < |m| {
      ServerReportsAtMostOne(m[n..]);
      MalformedBefore(m, n, ReceiveAll(ServerStep, m[n..]));
    } else {
      assert m[n..] == [];
    }
  }

  /** How many frames the receiver skips when it finds that a longer message is malformed. */
  function Skipped(m: seq<Frame>): nat
    requires |m| > 3
  {
    if m[1].data == [] then 3 else 2
  }

  /**
    The receiver abandons a malformed message where it notices the fault and resumes there: it goes on by
    three frames if the second one is empty and by two otherwise. This is where the last attempt begins.
   */
  function Landing(m: seq<Frame>): (at: nat)
    ensures at <= |m| && |m| - at <= 3 && (m != [] ==> at < |m|)
    decreases |m|
  {
    if |m| <= 3 then 0 else Skipped(m) + Landing(m[Skipped(m)..])
  }

  /** The last attempt of the receiver finds an identity, an empty frame and the last frame. */
  predicate LandsOnRequest(m: seq<Frame>) {
    |m| >= 3 && Landing(m) == |m| - 3 && m[|m| - 2].data == []
  }

  ghost predicate YieldsRequest(m: seq<Frame>) {
    exists k :: 0 <= k < |ReceiveAll(ServerStep, m)| && ReceiveAll(ServerStep, m)[k].Got?
  }

  lemma {:induction false} LandingStep(m: seq<Frame>)
    requires IsMessage(m) && |m| > 3
    ensures var rest := m[Skipped(m)..];
      && ReceiveAll(ServerStep, m) == [Malformed] + ReceiveAll(ServerStep, rest)
      && IsMessage(rest) && (LandsOnRequest(m) <==> LandsOnRequest(rest))
  {
    assert ServerStep(m) == Step(Malformed, Skipped(m));
  }

  /** Main result: a message is, sooner or later, received as a request iff the walk lands on one. */
  lemma {:induction false} YieldsRequestIff(m: seq<Frame>)
    requires IsMessage(m)
    ensures YieldsRequest(m) <==> LandsOnRequest(m)
    decreases |m|
  {
    var all := ReceiveAll(ServerStep, m);
    if |m| > 3 {
      var rest := ReceiveAll(ServerStep, m[Skipped(m)..]);
      LandingStep(m);
      YieldsRequestIff(m[Skipped(m)..]);
      if k :| 0 <= k < |rest| && rest[k].Got? {
        assert all[k + 1] == rest[k];
      }
      if k :| 0 <= k < |all| && all[k].Got? {
        assert all[k] == rest[k - 1];
      }
    } else {
      ShortMessage(m);
      assert ServerStep(m).outcome.Got? ==> all[0].Got?;
    }
  }

  lemma {:induction false} ShortMessage(m: seq<Frame>)
    requires IsMessage(m) && |m| <= 3
    ensures ServerStep(m).outcome.Got? <==> LandsOnRequest(m)
    ensures var all := ReceiveAll(ServerStep, m);
      all != [] && all[0] == ServerStep(m).outcome && forall k :: 0 < k < |all| ==> all[k] == Malformed
  {
    var rest := m[ServerStep(m).taken..];
    if rest != [] {
      assert |rest| == 1 && ServerStep(rest) == Step(Malformed, 1) && rest[1..] == [];
      assert ReceiveAll(ServerStep, rest) == [Malformed];
    }
  }

  /** Exactly the malformed messages of more than three frames that land on a request still yield one; five suffice. */
  lemma {:induction false} MalformedYieldsRequestIff(m: seq<Frame>)
    requires IsMessage(m) && !(|m| == 3 && m[1].data == [])
    ensures YieldsRequest(m) <==> |m| > 3 && LandsOnRequest(m)
    ensures YieldsRequest(m) ==> |m| >= 5
  {
    YieldsRequestIff(m);
    if |m| == 4 {
      assert Landing(m[Skipped(m)..]) == 0;
    }
  }

  /** The smallest such message, one in which the walk goes on by three, and one that ends alike but yields none. */
  lemma {:induction false} ServerResumesInsideMalformed(a: seq<byte>, x: seq<byte>, c: seq<byte>, d: seq<byte>)
    requires x != []
    ensures var m := [Frame(a, true), Frame(x, true), Frame(c, true), Frame([], true), Frame(d, false)];
            IsMessage(m) && ReceiveAll(ServerStep, m) == [Malformed, Got(Request(c, d))]
    ensures var m := [Frame(a, true), Frame([], true), Frame(x, true),
                      Frame(c, true), Frame([], true), Frame(d, false)];
            IsMessage(m) && ReceiveAll(ServerStep, m) == [Malformed, Got(Request(c, d))]
    ensures var m := [Frame(a, true), Frame(x, true), Frame(x, true), Frame(c, true), Frame([], true), Frame(d, false)];
            IsMessage(m) && (c != [] ==> !YieldsRequest(m))
  {
    var m := [Frame(a, true), Frame(x, true), Frame(c, true), Frame([], true), Frame(d, false)];
    var tail := [Frame(c, true), Frame([], true), Frame(d, false)];
    assert m[2..] == tail && ServerStep(m) == Step(Malformed, 2);
    assert tail[3..] == [] && ServerStep(tail) == Step(Got(Request(c, d)), 3);
    assert ReceiveAll(ServerStep, tail) == [Got(Request(c, d))];
    var k := [Frame(a, true), Frame([], true), Frame(x, true), Frame(c, true), Frame([], true), Frame(d, false)];
    assert k[3..] == tail && ServerStep(k) == Step(Malformed, 3);
    var n := [Frame(a, true), Frame(x, true), Frame(x, true), Frame(c, true), Frame([], true), Frame(d, false)];
    if c != [] {
      assert n[2..] == [Frame(x, true), Frame(c, true), Frame([], true), Frame(d, false)];
      assert n[2..][2..] == [Frame([], true), Frame(d, false)];
      assert Landing(n) == 2 + Landing(n[2..]) == 4 + Landing(n[2..][2..]);
      YieldsRequestIff(n);
    }
  }

  /**
    The client accepts a message iff its number of frames is even: it skips pairs of frames until
    the pair that ends the message. The payload is the last frame.
   */
  lemma {:induction false} ClientReports(m: seq<Frame>)
    requires IsMessage(m)
    ensures var all := ReceiveAll(ClientStep, m);
      && |all| == (|m| + 1) / 2
      && (forall i :: 0 <= i < |all| - 1 ==> all[i] == Malformed)
      && all[|all| - 1] == if |m| % 2 == 0 then Got(m[|m| - 1].data) else Malformed
    decreases |m|
  {
    if |m| > 2 {
      ClientReports(m[2..]);
    } else {
      assert m[ClientStep(m).taken..] == [];
    }
  }

  /** One receive of a message by the subscriber, by its number of frames. */
  lemma {:induction false} SubscriberReports(m: seq<Frame>)
    requires IsMessage(m)
    ensures SubscriberStep(m, true) == if |m| >= 2 then Step(Got(Payloads(m)), |m|) else Step(Malformed, 1)
    ensures |m| == 1 ==> SubscriberStep(m, false) == Step(Malformed, 1)
    ensures |m| == 2 ==> SubscriberStep(m, false) == Step(Got([m[0].data, m[1].data]), 2)
    ensures |m| > 2 ==> SubscriberStep(m, false) == Step(Malformed, 2)
  {
    if |m| >= 2 {
      MessageEndLocal(m, [], 1);
      assert m + [] == m;
      var e := MessageEnd(m, 1);
      assert e == |m|;
      assert m[..e] == m;
    }
    if |m| == 2 {
      assert Payloads(m) == [m[0].data, m[1].data];
    }
  }

  /** The receiver with the default mode of the subscriber, and the one for published waves. */
  function PairStep(s: seq<Frame>): Step<seq<seq<byte>>> {
    SubscriberStep(s, false)
  }

  function MultiStep(s: seq<Frame>): Step<seq<seq<byte>>> {
    SubscriberStep(s, true)
  }

  /** With additional frames there is one report on each message. */
  lemma {:induction false} MultiReports(m: seq<Frame>)
    requires IsMessage(m)
    ensures ReceiveAll(MultiStep, m) == [if |m| >= 2 then Got(Payloads(m)) else Malformed]
  {
    SubscriberReports(m);
    assert m[|m|..] == [];
  }

  /**
    Main result: without additional frames there is one report for every two frames of a message. Only the last can be
    a success; it is iff the number of frames is even, and then carries the last two frames.
   */
  lemma {:induction false} PairReports(m: seq<Frame>)
    requires IsMessage(m)
    ensures var all := ReceiveAll(PairStep, m);
      && |all| == (|m| + 1) / 2
      && (forall i :: 0 <= i < |all| - 1 ==> all[i] == Malformed)
      && all[|all| - 1] == if |m| % 2 == 0 then Got([m[|m| - 2].data, m[|m| - 1].data]) else Malformed
    decreases |m|
  {
    PairTurn(m);
    hide PairStep;
    if |m| > 2 {
      PairReports(m[2..]);
    } else {
      assert m[PairStep(m).taken..] == [];
    }
  }

  lemma {:induction false} PairTurn(m: seq<Frame>)
    requires IsMessage(m)
    ensures PairStep(m) ==
      if |m| == 1 then Step(Malformed, 1)
      else if |m| == 2 then Step(Got([m[0].data, m[1].data]), 2)
      else Step(Malformed, 2)
  {
    SubscriberReports(m);
  }

  /** Without pending frames nothing is reported: the receive has timed out. */
  lemma {:induction false} NothingPending(allowAdditionalFrames: bool)
    ensures ServerStep([]) == Step(Nothing, 0) && ClientStep([]) == Step(Nothing, 0)
    ensures SubscriberStep([], allowAdditionalFrames) == Step(Nothing, 0)
  {
  }

  /** One receive of a message by the server and by the client, by its frames. */
  lemma {:induction false} FirstReports(m: seq<Frame>)
    requires IsMessage(m)
    ensures |m| == 1 ==> ServerStep(m) == Step(Malformed, 1) && ClientStep(m) == Step(Malformed, 1)
    ensures |m| == 2 ==> ServerStep(m) == Step(Malformed, 2) && ClientStep(m) == Step(Got(m[1].data), 2)
    ensures |m| > 2 ==> ClientStep(m) == Step(Malformed, 2)
    ensures |m| > 2 && m[1].data != [] ==> ServerStep(m) == Step(Malformed, 2)
    ensures |m| == 3 && m[1].data == [] ==> ServerStep(m) == Step(Got(Request(m[0].data, m[2].data)), 3)
    ensures |m| > 3 && m[1].data == [] ==> ServerStep(m) == Step(Malformed, 3)
  {
  }

  // ---- what the senders emit ----

  function ServerEnvelope(identity: seq<byte>, payload: seq<byte>): seq<Frame> {
    [Frame(identity, true), Frame([], true), Frame(payload, false)]
  }

  function ClientEnvelope(payload: seq<byte>): seq<Frame> {
    [Frame([], true), Frame(payload, false)]
  }

  function PublisherEnvelope(parts: seq<seq<byte>>): (m: seq<Frame>)
    ensures |m| == |parts|
    ensures forall i :: 0 <= i < |parts| ==> m[i] == Frame(parts[i], i < |parts| - 1)
  {
    seq(|parts|, i requires 0 <= i < |parts| => Frame(parts[i], i < |parts| - 1))
  }

  /** Receiving what the peer sent gives back what was passed to the sender. */
  lemma {:induction false} EnvelopesRoundTrip(identity: seq<byte>, payload: seq<byte>, parts: seq<seq<byte>>)
    requires |parts| >= 2
    ensures ServerStep([Frame(identity, true)] + ClientEnvelope(payload)) == Step(Got(Request(identity, payload)), 3)
    ensures ClientStep(ServerEnvelope(identity, payload)[1..]) == Step(Got(payload), 2)
    ensures SubscriberStep(PublisherEnvelope(parts), true) == Step(Got(parts), |parts|)
  {
    PublishedReceived(parts);
  }

  lemma {:induction false} PublishedReceived(parts: seq<seq<byte>>)
    requires |parts| >= 2
    ensures SubscriberStep(PublisherEnvelope(parts), true) == Step(Got(parts), |parts|)
  {
    var m := PublisherEnvelope(parts);
    SubscriberReports(m);
    assert Payloads(m) == parts;
  }

  datatype SendResult = Sent(rc: nat) | SendFailed

  /** A zmq socket; `peers` are the identities a ROUTER socket can currently route to. */
  class Socket {
    var inbox: seq<Frame>
    var outbox: seq<Frame>
    var peers: set<seq<byte>>

    /** Routing identities are never empty (RFC 28/REQREP, ROUTER). */
    ghost predicate Valid()
      reads this
    {
      [] !in peers
    }

    /** zmq_msg_recv: None is the return value -1. */
    method MsgRecv() returns (f: Option<Frame>)
      modifies this`inbox
      ensures old(inbox) == [] ==> f == None && inbox == []
      ensures old(inbox) != [] ==> f == Some(old(inbox)[0]) && inbox == old(inbox)[1..]
    {
      if inbox == [] {
        return None;
      }
      f := Some(inbox[0]);
      inbox := inbox[1..];
    }

    method ServerReceive() returns (r: Received<Request>)
      modifies this`inbox
      ensures var step := ServerStep(old(inbox)); r == step.outcome && inbox == old(inbox)[step.taken..]
    {
      var identity := MsgRecv();
      if identity.None? {
        return Nothing;
      }
      if !identity.value.more {
        return Malformed;
      }
      var payload := MsgRecv();
      if payload.None? || payload.value.data != [] || !payload.value.more {
        return Malformed;
      }
      payload := MsgRecv();
      if payload.None? || payload.value.more {
        return Malformed;
      }
      r := Got(Request(identity.value.data, payload.value.data));
    }

    method ClientReceive() returns (r: Received<seq<byte>>)
      modifies this`inbox
      ensures var step := ClientStep(old(inbox)); r == step.outcome && inbox == old(inbox)[step.taken..]
    {
      var payload := MsgRecv();
      if payload.None? {
        return Nothing;
      }
      if !payload.value.more {
        return Malformed;
      }
      payload := MsgRecv();
      if payload.None? || payload.value.more {
        return Malformed;
      }
      r := Got(payload.value.data);
    }

    method SubscriberReceive(allowAdditionalFrames: bool) returns (r: Received<seq<seq<byte>>>)
      modifies this`inbox
      ensures var step := SubscriberStep(old(inbox), allowAdditionalFrames);
              r == step.outcome && inbox == old(inbox)[step.taken..]
    {
      ghost var s := inbox;
      var filter := MsgRecv();
      if filter.None? {
        return Nothing;
      }
      if !filter.value.more {
        return Malformed;
      }
      var parts := [filter.value.data];
      while true
        invariant 1 <= |parts| <= |s| && inbox == s[|parts|..]
        invariant forall i :: 0 <= i < |parts| ==> s[i].more && parts[i] == s[i].data
        invariant MessageEnd(s, 1) == MessageEnd(s, |parts|)
        invariant |parts| > 1 ==> allowAdditionalFrames
        decreases |s| - |parts|
      {
        var payload := MsgRecv();
        if payload.None? {
          assert MessageEnd(s, 1) == |s|;
          return Nothing;
        }
        parts := parts + [payload.value.data];
        if payload.value.more {
          if !allowAdditionalFrames {
            return Malformed;
          }
        } else {
          assert Payloads(s[..|parts|]) == parts;
          return Got(parts);
        }
      }
    }

    /**
      zmq_send: only the first frame of a message can be refused; once it is accepted the rest of
      the message is accepted too.
     */
    method Send(data: seq<byte>, more: bool, accepted: bool) returns (rc: int)
      modifies this`outbox
      ensures rc == if accepted then |data| else -1
      ensures outbox == if accepted then old(outbox) + [Frame(data, more)] else old(outbox)
    {
      if !accepted {
        return -1;
      }
      outbox := outbox + [Frame(data, more)];
      rc := |data|;
    }

    /**
      All or nothing: the whole envelope goes out iff the peer is known and the library accepts the first frame, and
      otherwise no frame at all. An empty payload is reported as a failure although it went out.
     */
    method ServerSend(identity: seq<byte>, payload: seq<byte>, accepted: bool) returns (r: SendResult)
      requires Valid()
      modifies this`outbox
      ensures outbox == if identity in peers && accepted then old(outbox) + ServerEnvelope(identity, payload)
                        else old(outbox)
      ensures r == if identity in peers && accepted && payload != [] then Sent(|payload|) else SendFailed
    {
      var rc := Send(identity, true, accepted && identity in peers);
      if rc <= 0 {
        return SendFailed;
      }
      rc := Send([], true, true);
      if rc != 0 {
        return SendFailed;
      }
      rc := Send(payload, false, true);
      assert outbox == old(outbox) + ServerEnvelope(identity, payload);
      if rc <= 0 {
        return SendFailed;
      }
      r := Sent(rc);
    }

    method ClientSend(payload: seq<byte>, accepted: bool) returns (r: SendResult)
      modifies this`outbox
      ensures outbox == if accepted then old(outbox) + ClientEnvelope(payload) else old(outbox)
      ensures r == if accepted && payload != [] then Sent(|payload|) else SendFailed
    {
      var rc := Send([], true, accepted);
      if rc != 0 {
        return SendFailed;
      }
      rc := Send(payload, false, true);
      assert accepted ==> outbox == old(outbox) + ClientEnvelope(payload);
      if rc <= 0 {
        return SendFailed;
      }
      r := Sent(rc);
    }

    /** Fewer than two parts are refused; the result is the size of the last part. */
    method PublisherSend(parts: seq<seq<byte>>, accepted: bool) returns (r: SendResult)
      modifies this`outbox
      ensures outbox == if |parts| >= 2 && accepted then old(outbox) + PublisherEnvelope(parts) else old(outbox)
      ensures r == if |parts| >= 2 && accepted then Sent(|parts[|parts| - 1]|) else SendFailed
    {
      if |parts| < 2 {
        return SendFailed;
      }
      var i := 0;
      var rc := 0;
      while i < |parts|
        invariant 0 <= i <= |parts| && rc >= 0 && (i > 0 ==> accepted && rc == |parts[i - 1]|)
        invariant outbox == old(outbox) + PublisherEnvelope(parts)[..i]
      {
        rc := Send(parts[i], i < |parts| - 1, i > 0 || accepted);
        if rc < 0 {
          return SendFailed;
        }
        i := i + 1;
      }
      r := Sent(rc);
    }
  }
}
