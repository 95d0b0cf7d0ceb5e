/**
  The way of a request through all parts: received and queued by the worker, handled by the main thread, replied
  to through the shared socket, and read by the client that has sent it.
 */
module Delivery {
  import opened Wrappers
  import opened Bytes
  import opened Json
  import opened WaveDocument
  import opened Request
  import opened Dispatch
  import opened Frames
  import Validation
  import CallFunction
  import Pipeline
  import ReplyPath
  import SendAtomicity

  type Id = Pipeline.Id

  /** A message as received. */
  datatype Arrival = Arrival(identity: seq<byte>, payload: string)

  /** How the call for a request ended. */
  datatype Ending = Ending(v: Validation.Verdict, call: Option<CallFunction.Outcome>, c: Conditions)
  {
    ghost predicate Valid() {
      (v.Accepted? ==> call.Some?) && c.Valid()
    }

    function Code(): Option<nat>
      requires Valid()
    {
      FinalCode(OutcomeOf(v, call, c), c)
    }

    /** As the pipeline sees it. */
    function Seen(): Pipeline.CallEnd
      requires Valid()
    {
      if Code() == Some(0) then Pipeline.Succeeded else if Code().Some? then Pipeline.IgorFailed else Pipeline.Threw
    }
  }

  /** Everything received so far, the endings of the calls, and the documents that were sent. */
  datatype History = History(arrivals: seq<Arrival>, endings: seq<Ending>, docs: seq<J>)

  /** How texts become bytes on the wire and back. */
  datatype Encoding = Encoding(encode: string -> seq<byte>, decode: seq<byte> -> string)
  {
    ghost predicate Valid() {
      forall text :: decode(encode(text)) == text
    }
  }

  /** The message id of a request. */
  function MessageId(a: Arrival): string {
    var doc := Parse(a.payload);
    if doc.Some? then MessageIdOf(doc.value) else ""
  }

  /** The documents are the program's: only accepted payloads become requests, and replies are those of Dispatch. */
  ghost predicate Made(h: History, s: Pipeline.State) {
    && |h.arrivals| == |h.endings| == |h.docs| == |s.fates|
    && forall id :: 0 <= id < |s.fates| ==>
         MadeFor(h.arrivals[id], h.endings[id], h.docs[id], s.fates[id], s.replies[id])
  }

  ghost predicate MadeFor(a: Arrival, e: Ending, doc: J, fate: Pipeline.Fate, replies: nat) {
    if Pipeline.WasAccepted(fate) then
      && Parse(a.payload).Some? && Accepted(Parse(a.payload).value) && e.Valid()
      && (fate.Handled? ==> e.Seen() == fate.call)
      && (replies == 1 ==> ReplyTo(MessageId(a), e.v, e.call, e.c) == Some(doc))
    else
      replies == 1 ==> exists code: nat :: code != 0 && doc == Obj(ErrorReply(code, "", "", ""))
  }

  /** The envelope of the document for a message. */
  function EnvelopeOf(h: History, x: Encoding, id: Id): Frames.Request {
    if id < |h.arrivals| == |h.docs| then Frames.Request(h.arrivals[id].identity, x.encode(Dump(h.docs[id], 0)))
    else Frames.Request([], [])
  }

  function Envelopes(h: History, x: Encoding): Id -> Frames.Request {
    (id: Id) => EnvelopeOf(h, x, id)
  }

  /** Which messages the sends to client `c` answer, in the order of the sends. */
  function Addressed(done: seq<Frames.Request>, answered: seq<Option<Id>>, c: seq<byte>): seq<Option<Id>>
    requires |done| == |answered|
  {
    if done == [] then []
    else (if done[0].identity == c then [answered[0]] else []) + Addressed(done[1..], answered[1..], c)
  }

  lemma {:induction false} AddressedLength(done: seq<Frames.Request>, answered: seq<Option<Id>>, c: seq<byte>)
    requires |done| == |answered|
    ensures |Addressed(done, answered, c)| == |SendAtomicity.PayloadsFor(done, c)|
  {
    if done != [] {
      AddressedLength(done[1..], answered[1..], c);
    }
  }

  /** The send that a decoded payload comes from. */
  lemma {:induction false} Origin(done: seq<Frames.Request>, answered: seq<Option<Id>>, c: seq<byte>, p: nat)
    returns (k: nat)
    requires |done| == |answered| && p < |Addressed(done, answered, c)| == |SendAtomicity.PayloadsFor(done, c)|
    ensures k < |done| && done[k].identity == c
    ensures Addressed(done, answered, c)[p] == answered[k]
    ensures SendAtomicity.PayloadsFor(done, c)[p] == Got(done[k].payload)
  {
    var own := if done[0].identity == c then 1 else 0;
    if p < own {
      k := 0;
    } else {
      AddressedLength(done[1..], answered[1..], c);
      k := Origin(done[1..], answered[1..], c, p - own);
      k := k + 1;
    }
  }

  lemma {:induction false} AddressedCount(done: seq<Frames.Request>, answered: seq<Option<Id>>, c: seq<byte>, id: Id)
    requires |done| == |answered|
    requires forall k :: 0 <= k < |done| && answered[k] == Some(id) ==> done[k].identity == c
    ensures multiset(Addressed(done, answered, c))[Some(id)] == ReplyPath.Count(answered, id)
  {
    if done != [] {
      assert forall k :: 0 <= k < |done[1..]| ==> done[1..][k] == done[k + 1] && answered[1..][k] == answered[k + 1];
      AddressedCount(done[1..], answered[1..], c, id);
      assert answered == [answered[0]] + answered[1..];
    }
  }

  /** What the client reads of a decoded payload. */
  function Read(x: Encoding, r: Received<seq<byte>>): Option<J> {
    if r.Got? then Parse(x.decode(r.value)) else None
  }

  /** The document sent for a message: a reply to a request has its id and code, any other answer has no id. */
  lemma {:induction false} SentDocument(a: Arrival, e: Ending, doc: J, fate: Pipeline.Fate)
    requires MadeFor(a, e, doc, fate, 1)
    ensures WellFormed(doc)
    ensures At(Some(doc), MESSAGEID_KEY) == if Pipeline.WasAccepted(fate) then IfNotEmpty(MessageId(a)) else None
    ensures Pipeline.WasAccepted(fate) ==>
      e.Code().Some? && Correlated(doc, MessageId(a), e.Code().value, HistoryOf(e.v, e.call, e.c))
  {
    if Pipeline.WasAccepted(fate) {
      RepliedIff(MessageId(a), e.v, e.call, e.c);
    } else {
      var code: nat :| code != 0 && doc == Obj(ErrorReply(code, "", "", ""));
      ErrorReplyCorrelated(code, "", "", "");
    }
  }

  /** The documents are those of one run of pipeline and sends, and no send is under way. */
  ghost predicate Together(h: History, x: Encoding, j: ReplyPath.State, moves: seq<ReplyPath.Move>) {
    && ReplyPath.Run(Envelopes(h, x), ReplyPath.INIT, moves) == Some(j)
    && j.s.holder.None? && Made(h, j.p)
  }

  /** What client `c` decodes of everything written to the socket. */
  ghost function Inbox(j: ReplyPath.State, c: seq<byte>): seq<Received<seq<byte>>> {
    ReceiveAll(ClientStep, SendAtomicity.Delivered(j.s.out, c))
  }

  predicate HasReply(f: Pipeline.Fate)
    requires f.Handled?
  {
    f.sent && Pipeline.HasReply(f.call)
  }

  /** Each decoded payload has a send it comes from; if that answers a message, it is the document for it. */
  ghost predicate Decoded(h: History, x: Encoding, which: seq<Option<Id>>, got: seq<Received<seq<byte>>>,
      c: seq<byte>)
  {
    && |got| == |which| && |h.docs| == |h.arrivals|
    && forall p :: 0 <= p < |got| && which[p].Some? ==>
         && which[p].value < |h.docs| && h.arrivals[which[p].value].identity == c
         && got[p] == Got(x.encode(Dump(h.docs[which[p].value], 0)))
  }

  /** A completed answer is one the pipeline counts, for a message that has arrived. */
  lemma {:induction false} AnswerCounts(h: History, x: Encoding, j: ReplyPath.State, moves: seq<ReplyPath.Move>, k: nat)
    requires Together(h, x, j, moves) && |j.answered| == |j.s.done| && k < |j.answered| && j.answered[k].Some?
    ensures var id := j.answered[k].value;
      id < |j.p.fates| && j.p.replies[id] == 1 && j.s.done[k] == EnvelopeOf(h, x, id)
  {
    ReplyPath.AnswersAreReplies(Envelopes(h, x), moves);
    var id := j.answered[k].value;
    assert multiset(j.answered)[j.answered[k]] > 0;
    assert ReplyPath.Count(j.answered, id) == j.p.replies[id];
    Pipeline.AllAccounted(j.p);
    assert id < |j.p.fates| ==> Pipeline.Accounted(j.p, id);
  }

  lemma {:induction false} AllDecoded(h: History, x: Encoding, j: ReplyPath.State, moves: seq<ReplyPath.Move>,
      c: seq<byte>)
    requires Together(h, x, j, moves) && |j.answered| == |j.s.done|
    ensures Decoded(h, x, Addressed(j.s.done, j.answered, c), SendAtomicity.PayloadsFor(j.s.done, c), c)
  {
    var which := Addressed(j.s.done, j.answered, c);
    AddressedLength(j.s.done, j.answered, c);
    forall p | 0 <= p < |which| && which[p].Some?
      ensures which[p].value < |h.docs| && h.arrivals[which[p].value].identity == c
      ensures SendAtomicity.PayloadsFor(j.s.done, c)[p] == Got(x.encode(Dump(h.docs[which[p].value], 0)))
    {
      var k := Origin(j.s.done, j.answered, c, p);
      AnswerCounts(h, x, j, moves, k);
    }
  }

  /**
    Main result. The client of a handled request decodes the documents of the messages answered to it, and the
    request is among those messages exactly once if the call ended with a document that was sent, otherwise never.
   */
  lemma {:induction false} ClientDecodesReplies(h: History, x: Encoding, j: ReplyPath.State,
      moves: seq<ReplyPath.Move>, id: Id)
    requires Together(h, x, j, moves) && id < |j.p.fates| && j.p.fates[id].Handled?
    ensures |j.answered| == |j.s.done|
    ensures var c := h.arrivals[id].identity;
      && Decoded(h, x, Addressed(j.s.done, j.answered, c), Inbox(j, c), c)
      && multiset(Addressed(j.s.done, j.answered, c))[Some(id)] == if HasReply(j.p.fates[id]) then 1 else 0
  {
    var c := h.arrivals[id].identity;
    ReplyPath.AnswersAreReplies(Envelopes(h, x), moves);
    SendAtomicity.DecodeEnvelopes(j.s.done, c);
    AllDecoded(h, x, j, moves, c);
    forall k | 0 <= k < |j.s.done| && j.answered[k] == Some(id)
      ensures j.s.done[k].identity == c
    {
      AnswerCounts(h, x, j, moves, k);
    }
    AddressedCount(j.s.done, j.answered, c, id);
    assert ReplyPath.Count(j.answered, id) == j.p.replies[id];
    Pipeline.AllAccounted(j.p);
    assert Pipeline.Accounted(j.p, id);
  }

  /** The client uses the id of this request for no other one, and no other document sent to it has that id. */
  ghost predicate UsedOnce(h: History, x: Encoding, j: ReplyPath.State, id: Id)
    requires id < |j.p.fates| == |h.arrivals| && |j.answered| == |j.s.done|
  {
    && MessageId(h.arrivals[id]) != ""
    && (forall i :: 0 <= i < |j.p.fates| && i != id && Pipeline.WasAccepted(j.p.fates[i]) ==>
          h.arrivals[i].identity != h.arrivals[id].identity || MessageId(h.arrivals[i]) != MessageId(h.arrivals[id]))
    && (forall k :: 0 <= k < |j.s.done| && j.answered[k].None? ==>
          || j.s.done[k].identity != h.arrivals[id].identity
          || !Matches(x, Got(j.s.done[k].payload), MessageId(h.arrivals[id])))
  }

  /** A decoded document with the given message id. */
  predicate Matches(x: Encoding, r: Received<seq<byte>>, id: string) {
    At(Read(x, r), MESSAGEID_KEY) == Some(Str(id))
  }

  /** A matching document is that of the request. */
  lemma {:induction false} MatchIsReply(h: History, x: Encoding, j: ReplyPath.State, moves: seq<ReplyPath.Move>,
      id: Id, p: nat)
    requires Together(h, x, j, moves) && x.Valid() && |j.answered| == |j.s.done|
    requires id < |j.p.fates| && j.p.fates[id].Handled? && UsedOnce(h, x, j, id)
    requires p < |Inbox(j, h.arrivals[id].identity)|
    ensures var which, r := Addressed(j.s.done, j.answered, h.arrivals[id].identity),
                Inbox(j, h.arrivals[id].identity)[p];
      && p < |which|
      && (Matches(x, r, MessageId(h.arrivals[id])) <==> which[p] == Some(id))
      && (which[p] == Some(id) ==> Read(x, r) == Some(h.docs[id]) && j.p.replies[id] == 1)
  {
    hide Request.Accepted, FinalCode, OutcomeOf, ReplyTo, ErrorReply, Correlated, MessageId;
    var c := h.arrivals[id].identity;
    ClientDecodesReplies(h, x, j, moves, id);
    ReplyPath.AnswersAreReplies(Envelopes(h, x), moves);
    SendAtomicity.DecodeEnvelopes(j.s.done, c);
    var k := Origin(j.s.done, j.answered, c, p);
    if j.answered[k].Some? {
      var i := j.answered[k].value;
      AnswerCounts(h, x, j, moves, k);
      assert MadeFor(h.arrivals[i], h.endings[i], h.docs[i], j.p.fates[i], j.p.replies[i]);
      SentDocument(h.arrivals[i], h.endings[i], h.docs[i], j.p.fates[i]);
      DumpParses(h.docs[i]);
      assert Read(x, Inbox(j, c)[p]) == Some(h.docs[i]);
    }
  }

  /** What a client finds under the id of its request has that id and the code of what happened. */
  lemma {:induction false} MatchedReply(h: History, x: Encoding, j: ReplyPath.State, moves: seq<ReplyPath.Move>,
      id: Id, p: nat)
    requires Together(h, x, j, moves) && x.Valid() && |j.answered| == |j.s.done|
    requires id < |j.p.fates| && j.p.fates[id].Handled? && UsedOnce(h, x, j, id)
    requires p < |Inbox(j, h.arrivals[id].identity)|
    requires Matches(x, Inbox(j, h.arrivals[id].identity)[p], MessageId(h.arrivals[id]))
    ensures h.endings[id].Valid()
    ensures var doc, e := Read(x, Inbox(j, h.arrivals[id].identity)[p]), h.endings[id];
      && doc == ReplyTo(MessageId(h.arrivals[id]), e.v, e.call, e.c) && e.Code().Some?
      && Correlated(doc.value, MessageId(h.arrivals[id]), e.Code().value, HistoryOf(e.v, e.call, e.c))
  {
    MatchIsReply(h, x, j, moves, id, p);
    assert MadeFor(h.arrivals[id], h.endings[id], h.docs[id], j.p.fates[id], j.p.replies[id]);
    SentDocument(h.arrivals[id], h.endings[id], h.docs[id], j.p.fates[id]);
  }

  /**
    Main result, from request to reply: a client that uses an id once finds exactly one document with that id
    among all it decodes if the call ended with a document that was sent, and none otherwise.
   */
  lemma {:induction false} RepliesAreMatched(h: History, x: Encoding, j: ReplyPath.State,
      moves: seq<ReplyPath.Move>, id: Id)
    requires Together(h, x, j, moves) && x.Valid() && |j.answered| == |j.s.done|
    requires id < |j.p.fates| && j.p.fates[id].Handled? && UsedOnce(h, x, j, id)
    ensures var inbox, mid := Inbox(j, h.arrivals[id].identity), MessageId(h.arrivals[id]);
      && ((exists p :: 0 <= p < |inbox| && Matches(x, inbox[p], mid)) <==> HasReply(j.p.fates[id]))
      && (forall p, q :: 0 <= p < |inbox| && 0 <= q < |inbox| && Matches(x, inbox[p], mid) && Matches(x, inbox[q], mid)
           ==> p == q)
  {
    var c := h.arrivals[id].identity;
    var inbox, which := Inbox(j, c), Addressed(j.s.done, j.answered, c);
    ClientDecodesReplies(h, x, j, moves, id);
    forall p | 0 <= p < |inbox|
      ensures Matches(x, inbox[p], MessageId(h.arrivals[id])) <==> which[p] == Some(id)
    {
      MatchIsReply(h, x, j, moves, id, p);
    }
    CountOne(which, Some(id));
  }

  lemma {:induction false} CountOne(which: seq<Option<Id>>, id: Option<Id>)
    requires multiset(which)[id] <= 1
    ensures (exists p :: 0 <= p < |which| && which[p] == id) <==> multiset(which)[id] == 1
    ensures forall p, q :: 0 <= p < |which| && 0 <= q < |which| && which[p] == id && which[q] == id ==> p == q
  {
    if which != [] {
      assert which == [which[0]] + which[1..];
      CountOne(which[1..], id);
    }
  }

  // ---- such a history exists ----

  /** One more move. */
  lemma {:induction false} Then(envelope: Id -> Frames.Request, moves: seq<ReplyPath.Move>, j: ReplyPath.State,
      m: ReplyPath.Move)
    returns (more: seq<ReplyPath.Move>, j': ReplyPath.State)
    requires ReplyPath.Run(envelope, ReplyPath.INIT, moves) == Some(j) && ReplyPath.Next(envelope, j, m).Some?
    ensures ReplyPath.Run(envelope, ReplyPath.INIT, more) == Some(j') && j' == ReplyPath.Next(envelope, j, m).value
  {
    RunSnoc(envelope, ReplyPath.INIT, moves, m);
    more, j' := moves + [m], ReplyPath.Next(envelope, j, m).value;
  }

  lemma {:induction false} RunSnoc(envelope: Id -> Frames.Request, j: ReplyPath.State, moves: seq<ReplyPath.Move>,
      m: ReplyPath.Move)
    requires ReplyPath.Run(envelope, j, moves).Some?
    ensures ReplyPath.Run(envelope, j, moves + [m]) ==
            ReplyPath.Next(envelope, ReplyPath.Run(envelope, j, moves).value, m)
    decreases |moves|
  {
    if moves == [] {
      assert [m][1..] == [];
    } else {
      RunSnoc(envelope, ReplyPath.Next(envelope, j, moves[0]).value, moves[1..], m);
      assert (moves + [m])[1..] == moves[1..] + [m];
    }
  }

  /** What the client that sent the only message decodes is the given document, and nothing else. */
  ghost predicate Receives(h: History, x: Encoding, j: ReplyPath.State, c: seq<byte>, doc: J) {
    j.s.holder.None? && Inbox(j, c) == [Got(x.encode(Dump(doc, 0)))]
  }

  lemma {:induction false} OneReceives(h: History, x: Encoding, j: ReplyPath.State, moves: seq<ReplyPath.Move>,
      a: Arrival, doc: J)
    requires ReplyPath.Run(Envelopes(h, x), ReplyPath.INIT, moves) == Some(j) && j.s.holder.None?
    requires h.arrivals == [a] && h.docs == [doc] && j.s.done == [EnvelopeOf(h, x, 0)]
    ensures Receives(h, x, j, a.identity, doc)
  {
    ReplyPath.AnswersAreReplies(Envelopes(h, x), moves);
    SendAtomicity.DecodeEnvelopes(j.s.done, a.identity);
    assert j.s.done[1..] == [];
    assert SendAtomicity.PayloadsFor(j.s.done, a.identity) == [Got(x.encode(Dump(doc, 0)))];
  }

  /**
    Main result: whatever code the call for an accepted payload ends with, there is a history in which the document
    for it is sent and its client decodes it.
   */
  lemma {:induction false} AnswerCanArrive(x: Encoding, a: Arrival, e: Ending)
    returns (h: History, j: ReplyPath.State, moves: seq<ReplyPath.Move>, doc: J)
    requires Parse(a.payload).Some? && Accepted(Parse(a.payload).value) && e.Valid() && e.Code().Some?
    ensures Together(h, x, j, moves) && h.arrivals == [a] && h.endings == [e]
    ensures j.p.fates ==
      [Pipeline.Handled(if e.Code() == Some(0) then Pipeline.Succeeded else Pipeline.IgorFailed, true)]
    ensures ReplyTo(MessageId(a), e.v, e.call, e.c) == Some(doc) && Receives(h, x, j, a.identity, doc)
  {
    hide Request.Accepted, FinalCode, OutcomeOf;
    RepliedIff(MessageId(a), e.v, e.call, e.c);
    doc := ReplyTo(MessageId(a), e.v, e.call, e.c).value;
    h := History([a], [e], [doc]);
    moves, j := OneReplied(Envelopes(h, x), e.Seen());
    OneReceives(h, x, j, moves, a, doc);
  }

  /** The answer to a payload that is refused can be sent as well. */
  lemma {:induction false} RefusalCanArrive(x: Encoding, a: Arrival, e: Ending, code: nat)
    returns (h: History, j: ReplyPath.State, moves: seq<ReplyPath.Move>, doc: J)
    requires code != 0 && Refused(Parse(a.payload), code)
    ensures Together(h, x, j, moves) && h.arrivals == [a] && j.p.fates == [Pipeline.Answered(true)]
    ensures doc == Obj(ErrorReply(code, "", "", "")) && Receives(h, x, j, a.identity, doc)
  {
    hide Refused, Request.Accepted, ErrorReply, ReplyTo, FinalCode, OutcomeOf;
    doc := Obj(ErrorReply(code, "", "", ""));
    h := History([a], [e], [doc]);
    moves, j := OneRefused(Envelopes(h, x));
    OneReceives(h, x, j, moves, a, doc);
  }

  /** One more step of the pipeline while nothing is sent. */
  lemma {:induction false} ThenPlain(envelope: Id -> Frames.Request, moves: seq<ReplyPath.Move>, p: Pipeline.State,
      a: Pipeline.Action)
    returns (more: seq<ReplyPath.Move>, p': Pipeline.State)
    requires ReplyPath.Run(envelope, ReplyPath.INIT, moves) == Some(ReplyPath.INIT.(p := p))
    requires Pipeline.Next(p, a).Some? && !a.Send? && !a.Reject?
    ensures p' == Pipeline.Next(p, a).value
    ensures ReplyPath.Run(envelope, ReplyPath.INIT, more) == Some(ReplyPath.INIT.(p := p'))
  {
    p' := Pipeline.Next(p, a).value;
    var j;
    more, j := Then(envelope, moves, ReplyPath.INIT.(p := p), ReplyPath.Plain(a));
  }

  /** One message is received. */
  lemma {:induction false} OneReceived(envelope: Id -> Frames.Request)
    returns (moves: seq<ReplyPath.Move>, p: Pipeline.State)
    ensures ReplyPath.Run(envelope, ReplyPath.INIT, moves) == Some(ReplyPath.INIT.(p := p))
    ensures p == Pipeline.INIT.(worker := Pipeline.Parsing, fates := [Pipeline.InHand])
  {
    hide ReplyPath.Next;
    moves, p := [], Pipeline.INIT;
    moves, p := ThenPlain(envelope, moves, p, Pipeline.Start);
    moves, p := ThenPlain(envelope, moves, p, Pipeline.ClearFlag);
    moves, p := ThenPlain(envelope, moves, p, Pipeline.CheckFlag);
    moves, p := ThenPlain(envelope, moves, p, Pipeline.Receive);
  }

  /** One request is queued. */
  lemma {:induction false} OneQueued(envelope: Id -> Frames.Request)
    returns (moves: seq<ReplyPath.Move>, p: Pipeline.State)
    ensures ReplyPath.Run(envelope, ReplyPath.INIT, moves) == Some(ReplyPath.INIT.(p := p))
    ensures p == Pipeline.INIT.(worker := Pipeline.Head, fates := [Pipeline.Queued], queue := [0])
  {
    hide ReplyPath.Next, ReplyPath.Run;
    moves, p := OneReceived(envelope);
    moves, p := ThenPlain(envelope, moves, p, Pipeline.Accept);
    moves, p := ThenPlain(envelope, moves, p, Pipeline.Push);
  }

  /** The main thread drains the queue. */
  lemma {:induction false} OneDrained(envelope: Id -> Frames.Request)
    returns (moves: seq<ReplyPath.Move>, p: Pipeline.State)
    ensures ReplyPath.Run(envelope, ReplyPath.INIT, moves) == Some(ReplyPath.INIT.(p := p))
    ensures p == Pipeline.INIT.(worker := Pipeline.Head, fates := [Pipeline.Queued], queue := [0],
      idleInProgress := true, handlers := [Pipeline.Draining], queueLocked := true)
  {
    hide ReplyPath.Next, ReplyPath.Run, Pipeline.WorkerStep, Pipeline.ControlStep;
    moves, p := OneQueued(envelope);
    moves, p := ThenPlain(envelope, moves, p, Pipeline.IdleEvent);
    moves, p := ThenPlain(envelope, moves, p, Pipeline.CheckQueue);
    moves, p := ThenPlain(envelope, moves, p, Pipeline.LockQueue);
  }

  /** Its call has ended with a document. */
  lemma {:induction false} OneCalled(envelope: Id -> Frames.Request, call: Pipeline.CallEnd)
    returns (moves: seq<ReplyPath.Move>, p: Pipeline.State)
    ensures ReplyPath.Run(envelope, ReplyPath.INIT, moves) == Some(ReplyPath.INIT.(p := p))
    ensures p == Pipeline.INIT.(worker := Pipeline.Head, fates := [Pipeline.Queued], queue := [0],
      idleInProgress := true, handlers := [Pipeline.Ended(call)], queueLocked := true)
  {
    hide ReplyPath.Next, ReplyPath.Run, Pipeline.WorkerStep, Pipeline.ControlStep;
    moves, p := OneDrained(envelope);
    moves, p := ThenPlain(envelope, moves, p, Pipeline.BeginCall);
    moves, p := ThenPlain(envelope, moves, p, Pipeline.EndCall(call));
  }

  /** The worker is about to answer a message that is no request. */
  lemma {:induction false} OneToRefuse(envelope: Id -> Frames.Request)
    returns (moves: seq<ReplyPath.Move>, p: Pipeline.State)
    ensures ReplyPath.Run(envelope, ReplyPath.INIT, moves) == Some(ReplyPath.INIT.(p := p))
    ensures p == Pipeline.INIT.(worker := Pipeline.Rejecting, fates := [Pipeline.InHand])
  {
    hide ReplyPath.Next, ReplyPath.Run;
    moves, p := OneReceived(envelope);
    moves, p := ThenPlain(envelope, moves, p, Pipeline.Refuse);
  }

  /** A thread that may send writes its whole answer while no other thread sends. */
  lemma {:induction false} OneWritten(envelope: Id -> Frames.Request, before: seq<ReplyPath.Move>, p: Pipeline.State,
      t: SendAtomicity.Thread)
    returns (moves: seq<ReplyPath.Move>, j: ReplyPath.State)
    requires ReplyPath.Run(envelope, ReplyPath.INIT, before) == Some(ReplyPath.INIT.(p := p)) && ReplyPath.MaySend(p, t)
    ensures ReplyPath.Run(envelope, ReplyPath.INIT, moves) == Some(j) && j.p == p && j.s.waiting == map[]
    ensures j.s.holder == Some(SendAtomicity.Sender(t, envelope(ReplyPath.MessageOf(p, t)), 3))
    ensures j.s.done == [envelope(ReplyPath.MessageOf(p, t))]
  {
    hide ReplyPath.Run, Pipeline.Next, ReplyPath.MaySend, ReplyPath.MessageOf;
    j := ReplyPath.INIT.(p := p);
    moves, j := Then(envelope, before, j, ReplyPath.Begin(t));
    moves, j := Then(envelope, moves, j, ReplyPath.Sending(SendAtomicity.Lock(t)));
    assert j.s.waiting == map[];
    moves, j := Then(envelope, moves, j, ReplyPath.Sending(SendAtomicity.Emit(t)));
    moves, j := Then(envelope, moves, j, ReplyPath.Sending(SendAtomicity.Emit(t)));
    moves, j := Then(envelope, moves, j, ReplyPath.Sending(SendAtomicity.Emit(t)));
  }

  /** One request is handled and replied to. */
  lemma {:induction false} OneReplied(envelope: Id -> Frames.Request, call: Pipeline.CallEnd)
    returns (moves: seq<ReplyPath.Move>, j: ReplyPath.State)
    requires Pipeline.HasReply(call)
    ensures ReplyPath.Run(envelope, ReplyPath.INIT, moves) == Some(j) && j.s.holder.None?
    ensures j.p.fates == [Pipeline.Handled(call, true)] && j.p.replies == multiset{0} && j.s.done == [envelope(0)]
  {
    hide ReplyPath.Run;
    var p;
    moves, p := OneCalled(envelope, call);
    moves, j := OneWritten(envelope, moves, p, ReplyPath.MAIN);
    moves, j := Then(envelope, moves, j, ReplyPath.Finish(ReplyPath.MAIN, true));
    moves, j := Then(envelope, moves, j, ReplyPath.Plain(Pipeline.Pop));
  }

  /** One message that is no request is answered. */
  lemma {:induction false} OneRefused(envelope: Id -> Frames.Request)
    returns (moves: seq<ReplyPath.Move>, j: ReplyPath.State)
    ensures ReplyPath.Run(envelope, ReplyPath.INIT, moves) == Some(j) && j.s.holder.None?
    ensures j.p.fates == [Pipeline.Answered(true)] && j.p.replies == multiset{0} && j.s.done == [envelope(0)]
  {
    hide ReplyPath.Run;
    var p;
    moves, p := OneToRefuse(envelope);
    moves, j := OneWritten(envelope, moves, p, ReplyPath.WORKER);
    moves, j := Then(envelope, moves, j, ReplyPath.Finish(ReplyPath.WORKER, true));
  }
}
