/** The replies to a request as a client finds them: codes, results and by-reference values, entry by entry. */
module Answers {
  import opened Wrappers
  import opened Bytes
  import opened Json
  import opened WaveText
  import opened WaveDocument
  import opened Request
  import opened Signature
  import opened Dispatch
  import Marshal
  import ParameterHandler
  import Validation
  import CallFunction
  import ProcessAndCall
  import Reports
  import Waves

  /** An entry says what was extracted: the name of its type and its value. */
  predicate Says(d: Display, entry: Option<J>, doc: Marshal.Doc)
    requires d.Valid()
  {
    && At(entry, "type") == Some(Str(doc.typeName))
    && At(entry, "value") == match doc.value
       case Text(text) => Some(Str(text))
       case Number(bits) => Some(d.number(bits))
       case Folder(h) => Some(Str(d.folder(h)))
       case WaveRef(h) => Some(Waves.DocumentOf(d.wave(h)))
  }

  lemma {:induction false} EntrySaid(d: Display, doc: Marshal.Doc)
    requires d.Valid()
    ensures Says(d, Some(EntryDoc(d, doc)), doc)
  {
    EntryFound(d, doc);
  }

  predicate SaysAll(d: Display, entries: Option<J>, docs: seq<Marshal.Doc>)
    requires d.Valid()
  {
    && entries.Some? && entries.value.Arr? && |entries.value.elems| == |docs|
    && forall i :: 0 <= i < |docs| ==> Says(d, Some(entries.value.elems[i]), docs[i])
  }

  lemma {:induction false} EntriesSaid(d: Display, docs: seq<Marshal.Doc>)
    requires d.Valid()
    ensures SaysAll(d, Some(Arr(EntryDocs(d, docs))), docs)
  {
    forall i | 0 <= i < |docs|
      ensures Says(d, Some(EntryDocs(d, docs)[i]), docs[i])
    {
      EntrySaid(d, docs[i]);
    }
  }

  /**
    Main result: the reply to a logged answer has code 0; its result is an array of the return values, the one value
    itself, or null for none; and passByReference is there iff there are such parameters, one entry for each.
   */
  lemma {:induction false} AnswerReported(messageId: string, v: Validation.Verdict,
      call: Option<CallFunction.Outcome>, c: Conditions)
    requires v.Accepted? && call.Some? && call.value.Answer? && c.Valid() && c.answerLog.None?
    ensures var reply, result, refs := ReplyTo(messageId, v, call, c), call.value.result, call.value.passByReference;
      && reply.Some? && CodeOf(reply.value) == Some(Num("0"))
      && At(reply, "messageID") == (if messageId == "" then None else Some(Str(messageId)))
      && (if result == [] then At(reply, "result") == Some(Null)
          else if call.value.multi then SaysAll(c.display, At(reply, "result"), result)
          else Says(c.display, At(reply, "result"), result[0]))
      && (if refs == [] then At(reply, "passByReference").None?
          else SaysAll(c.display, At(reply, "passByReference"), refs))
  {
    RepliedIff(messageId, v, call, c);
    EntriesSaid(c.display, call.value.result);
    EntriesSaid(c.display, call.value.passByReference);
    if call.value.result != [] {
      EntrySaid(c.display, call.value.result[0]);
    }
    assert NatText(0) == "0";
    hide Says, EntryDoc, EntryDocs;
  }

  // ---- codes ----

  lemma {:induction false} CodeTexts()
    ensures NatText(0) == "0" && NatText(8) == "8"
    ensures NatText(100) == "100" && NatText(101) == "101" && NatText(102) == "102" && NatText(103) == "103"
    ensures NatText(104) == "104" && NatText(105) == "105" && NatText(106) == "106" && NatText(107) == "107"
    ensures NatText(10004) == "10004"
  {
    assert NatText(10) == "10";
    assert NatText(1000) == "1000";
  }

  /** The reply has the given code. */
  predicate HasCode(reply: Option<J>, code: string) {
    At(At(reply, "errorCode"), "value") == Some(Num(code))
  }

  /** Main result: the code of each verdict that is not an acceptance, unless the error cannot be logged. */
  lemma {:induction false} VerdictCodes(messageId: string, v: Validation.Verdict, call: Option<CallFunction.Outcome>,
      c: Conditions)
    requires !v.Accepted? && c.Valid()
    ensures var reply := ReplyTo(messageId, v, call, c);
      && (reply.Some? <==> c.errorLog.None?)
      && (reply.Some? ==>
           && (v.ProcNotCompiled? ==> HasCode(reply, "100")) && (v.NonExistingFunction? ==> HasCode(reply, "101"))
           && (v.TooFewParams? ==> HasCode(reply, "102")) && (v.TooManyParams? ==> HasCode(reply, "103"))
           && (v.UnsupportedSignature? ==> HasCode(reply, "104")) && (v.UnsupportedReturn? ==> HasCode(reply, "105"))
           && (v.InvalidParamFormat? ==> HasCode(reply, "106")) && (v.LookupFailed? ==> HasCode(reply, "10004")))
  {
    RepliedIff(messageId, v, call, c);
    CodeTexts();
  }

  /** What is made of something thrown: an IgorException keeps its code, lack of memory is 8, anything else nothing. */
  predicate Answers(reply: Option<J>, what: Thrown, logged: bool) {
    match what
    case IgorError(code) => if logged then reply.Some? && HasCode(reply, NatText(code)) else reply.None?
    case OutOfMemory => if logged then reply.Some? && HasCode(reply, "8") else reply.None?
    case Foreign => reply.None?
  }

  /** Main result: what is replied to an accepted request, for each way its call can end. */
  lemma {:induction false} CallCodes(messageId: string, call: Option<CallFunction.Outcome>, c: Conditions)
    requires call.Some? && c.Valid()
    ensures var reply, logged := ReplyTo(messageId, Validation.Accepted, call, c), c.errorLog.None?;
      match call.value
      case NotBuilt(why) => Answers(reply, IgorError(if why.PathTooLong? then 106 else 10004), logged)
      case CallFailed => Answers(reply, IgorError(10004), logged)
      case Aborted =>
        (match c.report
         case Reported(_) => Answers(reply, IgorError(107), logged)
         case NoMemoryToReport(_) => Answers(reply, OutOfMemory, logged)
         case NoHistory(why) => Answers(reply, why, logged))
      case Interrupted => Answers(reply, c.interruption, logged)
      case Answer(_, _, _) =>
        if c.answerLog.None? then reply.Some? && HasCode(reply, "0") else Answers(reply, c.answerLog.value, logged)
  {
    RepliedIff(messageId, Validation.Accepted, call, c);
    CodeTexts();
  }

  // ---- from the request to its reply ----

  /** The entry gives back what was passed: the text, the number it stands for, or the folder of that name. */
  predicate GivesBack(env: Marshal.Environment, d: Display, base: bv32, param: string, entry: Option<J>)
    requires d.Valid()
  {
    || (base == 0x2000 && At(entry, "type") == Some(Str("string")) && At(entry, "value") == Some(Str(param)))
    || (base == 0x4 && env.strtod(param).Some? && At(entry, "type") == Some(Str("variable")) &&
        At(entry, "value") == Some(d.number(env.strtod(param).value)))
    || (base == 0x100 && env.namedFolder(param).Some? && At(entry, "type") == Some(Str("dfref")) &&
        At(entry, "value") == Some(Str(d.folder(env.namedFolder(param).value))))
  }

  /**
    Main result, from the texts in a request to those in its reply: when a function that changes nothing is answered,
    the reply gives back each input that was passed by reference, in order.
   */
  lemma {:induction false} InputsArrive(env: Marshal.Environment, found: Validation.Lookup, params: seq<string>,
      c: Conditions, call: Option<CallFunction.Outcome>, a: CallFunction.Account, supply: seq<Marshal.Handle>,
      log: seq<Marshal.Handle>, live: map<Marshal.Handle, string>,
      logNow: seq<Marshal.Handle>, liveNow: map<Marshal.Handle, string>, messageId: string)
    returns (at: seq<nat>)
    requires (found.Found? ==> FromIgor(found.fip)) && c.Valid() && c.answerLog.None?
    requires Happened(env, found, params, c.course, Validation.Accepted, call, a, supply, log, live, logNow, liveNow)
    requires call.value.Answer? && c.course.effect.Unchanged?
    ensures found.Found?
    ensures var types := found.fip.parameterTypes[..found.fip.numRequiredParameters];
      var first := if found.fip.returnType == 0x20000 then LeadingRefs(types) else 0;
      var entries := At(ReplyTo(messageId, Validation.Accepted, call, c), "passByReference");
      && Reports.Lists(at, set i: nat | first <= i < |types| && types[i] & 0x1000 == 0x1000)
      && (at == [] ==> entries.None?)
      && (at != [] ==> entries.Some? && entries.value.Arr? && |entries.value.elems| == |at|)
      && first + |params| == |types|
      && forall k :: 0 <= k < |at| ==>
           && first <= at[k] < |types|
           && GivesBack(env, c.display, types[at[k]] & 0xFFFF_EFFF, params[at[k] - first], Some(entries.value.elems[k]))
  {
    hide Says, Reports.Lists, CallFunction.Settled, Happened, ReplyTo, GivesBack, Reports.GivesBack;
    SettledOf(env, found, params, c.course, call, a, supply, log, live, logNow, liveNow);
    at := Reports.InputsReadBack(env, found.fip, params, c.course, call.value, a, log, logNow, liveNow);
    AnswerReported(messageId, Validation.Accepted, call, c);
    var types := found.fip.parameterTypes[..found.fip.numRequiredParameters];
    var first := if found.fip.returnType == 0x20000 then LeadingRefs(types) else 0;
    EntriesGiveBack(env, c.display, types, first, params, at, call.value.passByReference,
      At(ReplyTo(messageId, Validation.Accepted, call, c), "passByReference"));
  }

  lemma {:induction false} SettledOf(env: Marshal.Environment, found: Validation.Lookup, params: seq<string>,
      c: CallFunction.Course, call: Option<CallFunction.Outcome>, a: CallFunction.Account, supply: seq<Marshal.Handle>,
      log: seq<Marshal.Handle>, live: map<Marshal.Handle, string>,
      logNow: seq<Marshal.Handle>, liveNow: map<Marshal.Handle, string>)
    requires found.Found? ==> FromIgor(found.fip)
    requires Happened(env, found, params, c, Validation.Accepted, call, a, supply, log, live, logNow, liveNow)
    ensures found.Found? && call.Some?
    ensures call.value.Answer? ==>
      CallFunction.Settled(env, found.fip, params, c, call.value, a, log, logNow, liveNow)
  {
    hide CallFunction.Settled;
  }

  lemma {:induction false} EntriesGiveBack(env: Marshal.Environment, d: Display, types: seq<bv32>, first: nat,
      params: seq<string>, at: seq<nat>, refs: seq<Marshal.Doc>, entries: Option<J>)
    requires d.Valid() && |refs| == |at| && first + |params| == |types|
    requires forall k :: 0 <= k < |at| ==>
      first <= at[k] < |types| && Reports.GivesBack(env, types[at[k]], params[at[k] - first], refs[k])
    requires if refs == [] then entries.None? else SaysAll(d, entries, refs)
    ensures at != [] ==> entries.Some? && entries.value.Arr? && |entries.value.elems| == |at|
    ensures forall k :: 0 <= k < |at| ==>
      GivesBack(env, d, types[at[k]] & 0xFFFF_EFFF, params[at[k] - first], Some(entries.value.elems[k]))
  {
    hide Says, GivesBack, Reports.GivesBack;
    forall k | 0 <= k < |at|
      ensures GivesBack(env, d, types[at[k]] & 0xFFFF_EFFF, params[at[k] - first], Some(entries.value.elems[k]))
    {
      EntryGivesBack(env, d, types[at[k]], params[at[k] - first], refs[k], Some(entries.value.elems[k]));
    }
  }

  lemma {:induction false} EntryGivesBack(env: Marshal.Environment, d: Display, t: bv32, param: string,
      doc: Marshal.Doc, entry: Option<J>)
    requires d.Valid() && Says(d, entry, doc) && Reports.GivesBack(env, t, param, doc)
    ensures GivesBack(env, d, t & 0xFFFF_EFFF, param, entry)
  {
  }
}
