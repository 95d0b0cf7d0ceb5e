/**
  From an accepted request to its reply (CallIgorFunctionFromReqInterface and CallAndReply): the validator, the
  call, the two catch blocks around them, and the log entries. Each of them may throw.
 */
module Dispatch {
  import opened Wrappers
  import opened Bytes
  import opened Json
  import opened WaveText
  import opened WaveDocument
  import opened Request
  import opened Signature
  import Marshal
  import ParameterHandler
  import Validation
  import CallFunction
  import ProcessAndCall
  import ReadWave
  import Waves

  const REQ_PROC_NOT_COMPILED: nat := 100
  const REQ_TOO_FEW_FUNCTION_PARAMS: nat := 102
  const REQ_TOO_MANY_FUNCTION_PARAMS: nat := 103
  const REQ_UNSUPPORTED_FUNC_SIG: nat := 104
  const REQ_UNSUPPORTED_FUNC_RET: nat := 105
  /** The code of a failed assertion. */
  const INTERNAL_ERROR: nat := 10004

  /** How the history is fetched after an abort, and the exception about the abort is made. */
  datatype AbortReport = Reported(history: string) | NoMemoryToReport(history: string) | NoHistory(why: Thrown)

  /** How values look outside of this program: numbers as JSON, the paths of data folders, and the waves. */
  datatype Display = Display(
    number: seq<byte> -> J, folder: Marshal.Handle -> string, wave: Marshal.Handle -> Option<Waves.Wave>)
  {
    ghost predicate Valid() {
      && (forall bits :: WellFormed(number(bits)))
      && (forall h :: wave(h).Some? ==> Waves.Consistent(wave(h).value))
    }
  }

  /**
    What this code does not decide itself: the course of the call, the kind of exception thrown while an answer is
    put together, the report of an abort, the outcome of the log entries for an answer and for an error, and how
    values look.
   */
  datatype Conditions = Conditions(
    course: CallFunction.Course, interruption: Thrown, report: AbortReport,
    answerLog: Option<Thrown>, errorLog: Option<Thrown>, display: Display)
  {
    ghost predicate Valid() {
      && interruption.Valid() && (report.NoHistory? ==> report.why.Valid())
      && (answerLog.Some? ==> answerLog.value.Valid())
      && display.Valid()
    }
  }

  // ---- the documents for extracted values ----

  function ValueDoc(d: Display, v: Marshal.Value): J
    requires d.Valid()
  {
    match v
    case Number(bits) => d.number(bits)
    case Text(text) => Str(text)
    case Folder(h) => Str(d.folder(h))
    case WaveRef(h) => Waves.DocumentOf(d.wave(h))
  }

  function EntryDoc(d: Display, doc: Marshal.Doc): J
    requires d.Valid()
  {
    Obj(Put(Put([], "value", ValueDoc(d, doc.value)), "type", Str(doc.typeName)))
  }

  function EntryDocs(d: Display, docs: seq<Marshal.Doc>): (js: seq<J>)
    requires d.Valid()
    ensures |js| == |docs| && forall i :: 0 <= i < |docs| ==> js[i] == EntryDoc(d, docs[i])
  {
    if docs == [] then [] else [EntryDoc(d, docs[0])] + EntryDocs(d, docs[1..])
  }

  /** An array of entries, one entry alone for a single return value, or null when there is none. */
  function ResultDoc(d: Display, multi: bool, docs: seq<Marshal.Doc>): J
    requires d.Valid()
  {
    if docs == [] then Null else if multi then Arr(EntryDocs(d, docs)) else EntryDoc(d, docs[0])
  }

  lemma {:induction false} EntryFound(d: Display, doc: Marshal.Doc)
    requires d.Valid()
    ensures WellFormed(EntryDoc(d, doc))
    ensures At(Some(EntryDoc(d, doc)), "value") == Some(ValueDoc(d, doc.value))
    ensures At(Some(EntryDoc(d, doc)), "type") == Some(Str(doc.typeName))
  {
    var val := ValueDoc(d, doc.value);
    if doc.value.WaveRef? {
      Waves.DocWellFormed(d.wave(doc.value.wave));
    }
    PutWellFormed([], "value", val);
    PutWellFormed(Put([], "value", val), "type", Str(doc.typeName));
    FindPut([], "value", val, "value");
    FindPut(Put([], "value", val), "type", Str(doc.typeName), "value");
    FindPut(Put([], "value", val), "type", Str(doc.typeName), "type");
    assert "value"[0] != "type"[0];
  }

  lemma {:induction false} EntriesWellFormed(d: Display, docs: seq<Marshal.Doc>)
    requires d.Valid()
    ensures WellFormed(Arr(EntryDocs(d, docs)))
  {
    forall i | 0 <= i < |docs|
      ensures WellFormed(EntryDocs(d, docs)[i])
    {
      EntryFound(d, docs[i]);
    }
  }

  lemma {:induction false} ResultWellFormed(d: Display, multi: bool, docs: seq<Marshal.Doc>)
    requires d.Valid()
    ensures WellFormed(ResultDoc(d, multi, docs))
  {
    if docs != [] {
      EntriesWellFormed(d, docs);
      EntryFound(d, docs[0]);
    }
  }

  /** How validator and call end. */
  datatype CallOutcome = Returned(result: J, passByReference: Option<J>) | Raised(what: Thrown)

  function VerdictCode(v: Validation.Verdict): (code: nat)
    requires !v.Accepted?
    ensures code != 0
  {
    match v
    case ProcNotCompiled => REQ_PROC_NOT_COMPILED
    case NonExistingFunction => REQ_NON_EXISTING_FUNCTION
    case LookupFailed => INTERNAL_ERROR
    case TooFewParams => REQ_TOO_FEW_FUNCTION_PARAMS
    case TooManyParams => REQ_TOO_MANY_FUNCTION_PARAMS
    case InvalidParamFormat => REQ_INVALID_PARAM_FORMAT
    case UnsupportedReturn => REQ_UNSUPPORTED_FUNC_RET
    case UnsupportedSignature => REQ_UNSUPPORTED_FUNC_SIG
  }

  /** All failures of the constructor are assertions but one. */
  function BuiltCode(why: ParameterHandler.Built): (code: nat)
    ensures code != 0
  {
    if why.PathTooLong? then REQ_INVALID_PARAM_FORMAT else INTERNAL_ERROR
  }

  function OutcomeOf(v: Validation.Verdict, call: Option<CallFunction.Outcome>, c: Conditions): CallOutcome
    requires (v.Accepted? ==> call.Some?) && c.Valid()
  {
    if !v.Accepted? then Raised(IgorError(VerdictCode(v)))
    else match call.value
      case NotBuilt(why) => Raised(IgorError(BuiltCode(why)))
      case CallFailed => Raised(IgorError(INTERNAL_ERROR))
      case Aborted =>
        Raised(match c.report
          case Reported(_) => IgorError(REQ_FUNCTION_ABORTED)
          case NoMemoryToReport(_) => OutOfMemory
          case NoHistory(why) => why)
      case Interrupted => Raised(c.interruption)
      case Answer(multi, result, passByReference) =>
        Returned(ResultDoc(c.display, multi, result),
          if passByReference == [] then None else Some(ResultDoc(c.display, true, passByReference)))
  }

  /** What the operation knows as its history afterwards. */
  function HistoryOf(v: Validation.Verdict, call: Option<CallFunction.Outcome>, c: Conditions): string
    requires v.Accepted? ==> call.Some?
  {
    if v.Accepted? && call.value.Aborted? && !c.report.NoHistory? then c.report.history else ""
  }

  /** The error code of the reply; None when there is no reply. */
  function FinalCode(o: CallOutcome, c: Conditions): Option<nat> {
    if o.Returned? && c.answerLog.None? then Some(0)
    else
      var what := if o.Returned? then c.answerLog.value else o.what;
      if what.Foreign? || c.errorLog.Some? then None
      else Some(if what.IgorError? then what.code else REQ_OUT_OF_MEMORY)
  }

  /** The reply, if there is one. */
  function ReplyTo(messageId: string, v: Validation.Verdict, call: Option<CallFunction.Outcome>, c: Conditions)
    : Option<J>
    requires (v.Accepted? ==> call.Some?) && c.Valid()
  {
    var o := OutcomeOf(v, call, c);
    var code := FinalCode(o, c);
    if code.None? then None
    else if code.value == 0 && o.Returned? then Some(Obj(SuccessReply(o.result, o.passByReference, messageId)))
    else Some(Obj(ErrorReply(code.value, "", messageId, HistoryOf(v, call, c))))
  }

  lemma {:induction false} OutcomeValid(v: Validation.Verdict, call: Option<CallFunction.Outcome>, c: Conditions)
    requires (v.Accepted? ==> call.Some?) && c.Valid()
    ensures var o := OutcomeOf(v, call, c);
      if o.Raised? then o.what.Valid() else WellFormed(o.result) && OptionWellFormed(o.passByReference)
  {
    if v.Accepted? && call.value.Answer? {
      ResultWellFormed(c.display, call.value.multi, call.value.result);
      ResultWellFormed(c.display, true, call.value.passByReference);
    }
  }

  /**
    Main result. There is exactly one reply iff the call gave an answer that could be logged, or what was thrown
    is an IgorException or lack of memory and could be logged. It carries the id of the request, the code of what
    happened, and for code 0 what the function returned.
   */
  lemma {:induction false} RepliedIff(messageId: string, v: Validation.Verdict, call: Option<CallFunction.Outcome>,
      c: Conditions)
    requires (v.Accepted? ==> call.Some?) && c.Valid()
    ensures var o, reply := OutcomeOf(v, call, c), ReplyTo(messageId, v, call, c);
      && (reply.Some? <==> FinalCode(o, c).Some?)
      && (reply.Some? ==> Correlated(reply.value, messageId, FinalCode(o, c).value, HistoryOf(v, call, c)))
      && (FinalCode(o, c) == Some(0) <==> o.Returned? && c.answerLog.None?)
      && (FinalCode(o, c) == Some(0) ==>
           At(reply, "result") == Some(o.result) && At(reply, "passByReference") == o.passByReference)
  {
    OutcomeValid(v, call, c);
    var o := OutcomeOf(v, call, c);
    var code := FinalCode(o, c);
    if code == Some(0) {
      SuccessReplyCorrelated(o.result, o.passByReference, messageId, HistoryOf(v, call, c));
    } else if code.Some? {
      ErrorReplyCorrelated(code.value, "", messageId, HistoryOf(v, call, c));
    }
  }

  /** The entry of return value `i` in a reply. */
  function ResultEntry(reply: J, multi: bool, i: nat): Option<J> {
    var result := At(Some(reply), "result");
    if !multi then result
    else if result.Some? && result.value.Arr? && i < |result.value.elems| then Some(result.value.elems[i])
    else None
  }

  /** Main result: a wave that a function returns is read back from its reply, up to documented defaults. */
  lemma {:induction false} WaveArrives(messageId: string, v: Validation.Verdict, call: Option<CallFunction.Outcome>,
      c: Conditions, i: nat)
    requires v.Accepted? && call.Some? && c.Valid() && call.value.Answer? && c.answerLog.None?
    requires i < |call.value.result| && (call.value.multi || i == 0) && call.value.result[i].value.WaveRef?
    ensures ReplyTo(messageId, v, call, c).Some?
    ensures var entry := ResultEntry(ReplyTo(messageId, v, call, c).value, call.value.multi, i);
      && At(entry, "value").Some?
      && ReadWave.Read(At(entry, "value").value) ==
         Some(ReadWave.ViewOf(c.display.wave(call.value.result[i].value.wave)))
  {
    RepliedIff(messageId, v, call, c);
    EntryFound(c.display, call.value.result[i]);
    ReadWave.RoundTrip(c.display.wave(call.value.result[i].value.wave));
  }

  /**
    Main result: a reply has a history iff the function was aborted and has written something; its code is then
    107, or 8 when there was no memory for the exception about the abort.
   */
  lemma {:induction false} HistoryIff(messageId: string, v: Validation.Verdict, call: Option<CallFunction.Outcome>,
      c: Conditions)
    requires (v.Accepted? ==> call.Some?) && c.Valid() && ReplyTo(messageId, v, call, c).Some?
    ensures var reply := ReplyTo(messageId, v, call, c);
      && (At(reply, HISTORY_KEY).Some? <==>
           v.Accepted? && call == Some(CallFunction.Aborted) && !c.report.NoHistory? && c.report.history != "")
      && (At(reply, HISTORY_KEY).Some? ==>
           && At(reply, HISTORY_KEY) == Some(Str(c.report.history))
           && CodeOf(reply.value) ==
              Some(Num(NatText(if c.report.Reported? then REQ_FUNCTION_ABORTED else REQ_OUT_OF_MEMORY))))
  {
    RepliedIff(messageId, v, call, c);
  }

  /** A reply with a history and error code 8. */
  lemma {:induction false} HistoryWithCode8(c: Conditions) returns (d: Conditions, reply: J)
    requires c.Valid()
    ensures d.Valid() && ReplyTo("", Validation.Accepted, Some(CallFunction.Aborted), d) == Some(reply)
    ensures CodeOf(reply) == Some(Num(NatText(8))) && At(Some(reply), HISTORY_KEY) == Some(Str("x"))
  {
    d := c.(report := NoMemoryToReport("x"), errorLog := None);
    RepliedIff("", Validation.Accepted, Some(CallFunction.Aborted), d);
    reply := ReplyTo("", Validation.Accepted, Some(CallFunction.Aborted), d).value;
  }

  /** What is known of a validation and call of function `found` with the given parameters. */
  ghost predicate Happened(env: Marshal.Environment, found: Validation.Lookup, params: seq<string>,
      c: CallFunction.Course, v: Validation.Verdict, call: Option<CallFunction.Outcome>, a: CallFunction.Account,
      supply: seq<Marshal.Handle>, log: seq<Marshal.Handle>, live: map<Marshal.Handle, string>,
      logNow: seq<Marshal.Handle>, liveNow: map<Marshal.Handle, string>)
    requires found.Found? ==> FromIgor(found.fip)
  {
    && Validation.Judged(env, found, params, v) && (v.Accepted? <==> call.Some?)
    && (!v.Accepted? ==> logNow == log && liveNow == live)
    && (v.Accepted? ==>
          ProcessAndCall.Done(env, found.fip, params, c, call.value, a, supply, log, live, logNow, liveNow))
  }

  /** The inner try block up to the log entry: CanBeProcessed and Call of the request. */
  method Execute(req: RequestInterface, env: Marshal.Environment, heap: Marshal.Memory, found: Validation.Lookup,
      c: Conditions)
    returns (o: CallOutcome, ghost v: Validation.Verdict, ghost call: Option<CallFunction.Outcome>,
      ghost a: CallFunction.Account)
    requires req.Valid() && req.history == "" && c.Valid()
    requires env.Valid() && heap.Valid() && heap.w == env.w && (found.Found? ==> FromIgor(found.fip))
    modifies req`history, heap
    ensures Happened(env, found, req.op.value.params, c.course, v, call, a,
      old(heap.supply), old(heap.disposed), old(heap.live), heap.disposed, heap.live)
    ensures o == OutcomeOf(v, call, c) && req.history == HistoryOf(v, call, c)
  {
    var verdict, outcome, account := ProcessAndCall.Process(env, heap, found, req.op.value.params, c.course);
    v, call, a := verdict, outcome, account;
    if !verdict.Accepted? {
      return Raised(IgorError(VerdictCode(verdict))), v, call, a;
    }
    match outcome.value
    case NotBuilt(why) =>
      o := Raised(IgorError(BuiltCode(why)));
    case CallFailed =>
      o := Raised(IgorError(INTERNAL_ERROR));
    case Aborted =>
      if c.report.NoHistory? {
        return Raised(c.report.why), v, call, a;
      }
      req.history := c.report.history;
      o := Raised(if c.report.Reported? then IgorError(REQ_FUNCTION_ABORTED) else OutOfMemory);
    case Interrupted =>
      o := Raised(c.interruption);
    case Answer(multi, result, passByReference) =>
      o := Returned(ResultDoc(c.display, multi, result),
        if passByReference == [] then None else Some(ResultDoc(c.display, true, passByReference)));
  }

  /**
    CallIgorFunctionFromReqInterface. None stands for an exception that leaves the function: one that is
    neither an IgorException nor lack of memory, or any failure while the error reply is logged.
   */
  method CallIgorFunction(req: RequestInterface, env: Marshal.Environment, heap: Marshal.Memory,
      found: Validation.Lookup, c: Conditions)
    returns (r: Option<J>, ghost v: Validation.Verdict, ghost call: Option<CallFunction.Outcome>,
      ghost a: CallFunction.Account)
    requires req.Valid() && req.history == "" && c.Valid()
    requires env.Valid() && heap.Valid() && heap.w == env.w && (found.Found? ==> FromIgor(found.fip))
    modifies req`history, heap
    ensures Happened(env, found, req.op.value.params, c.course, v, call, a,
      old(heap.supply), old(heap.disposed), old(heap.live), heap.disposed, heap.live)
    ensures req.history == HistoryOf(v, call, c)
    ensures r == ReplyTo(req.messageId, v, call, c)
  {
    r := None;
    var outcome;
    outcome, v, call, a := Execute(req, env, heap, found, c);
    OutcomeValid(v, call, c);
    var what;
    if outcome.Returned? {
      if c.answerLog.None? {
        return Some(Obj(SuccessReply(outcome.result, outcome.passByReference, req.messageId))), v, call, a;
      }
      what := c.answerLog.value;
    } else {
      what := outcome.what;
    }
    if what.Foreign? {
      return;
    }
    var code := REQ_OUT_OF_MEMORY;
    if what.IgorError? {
      code := what.code;
    }
    if c.errorLog.None? {
      r := Some(Obj(ErrorReply(code, "", req.messageId, req.history)));
    }
  }

  /**
    CallAndReply: the text sent, addressed to the identity the request came from; None means that nothing is
    sent. A client that parses it finds the message id of the request, and the code of what happened.
   */
  method CallAndReply(req: RequestInterface, env: Marshal.Environment, heap: Marshal.Memory,
      found: Validation.Lookup, c: Conditions)
    returns (sent: Option<(string, string)>, ghost v: Validation.Verdict, ghost call: Option<CallFunction.Outcome>,
      ghost a: CallFunction.Account)
    requires req.Valid() && req.history == "" && c.Valid()
    requires env.Valid() && heap.Valid() && heap.w == env.w && (found.Found? ==> FromIgor(found.fip))
    modifies req`history, heap
    ensures Happened(env, found, req.op.value.params, c.course, v, call, a,
      old(heap.supply), old(heap.disposed), old(heap.live), heap.disposed, heap.live)
    ensures sent.Some? <==> FinalCode(OutcomeOf(v, call, c), c).Some?
    ensures sent.Some? ==>
      && sent.value.0 == req.callerIdentity && Parse(sent.value.1) == ReplyTo(req.messageId, v, call, c)
      && Correlated(Parse(sent.value.1).value, req.messageId, FinalCode(OutcomeOf(v, call, c), c).value,
           HistoryOf(v, call, c))
  {
    var doc;
    doc, v, call, a := CallIgorFunction(req, env, heap, found, c);
    RepliedIff(req.messageId, v, call, c);
    sent := None;
    if doc.Some? {
      DumpParses(doc.value);
      sent := Some((req.callerIdentity, Dump(doc.value, 0)));
    }
  }
}
