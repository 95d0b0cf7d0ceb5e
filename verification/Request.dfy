/**
  Requests (RequestInterface.cpp, the constructor of CallFunctionOperation): which payloads are accepted,
  and which entries the documents have that are sent as replies.
 */
module Request {
  import opened Wrappers
  import opened Bytes
  import opened Json
  import opened WaveText
  import opened WaveDocument

  const REQ_INVALID_JSON_OBJECT: nat := 3
  const REQ_INVALID_VERSION: nat := 4
  const REQ_INVALID_OPERATION: nat := 5
  const REQ_INVALID_OPERATION_FORMAT: nat := 6
  const REQ_INVALID_MESSAGEID: nat := 7
  const REQ_OUT_OF_MEMORY: nat := 8
  const REQ_NON_EXISTING_FUNCTION: nat := 101
  const REQ_INVALID_PARAM_FORMAT: nat := 106
  const REQ_FUNCTION_ABORTED: nat := 107

  const MAX_MESSAGEID_LENGTH: nat := 255
  const MESSAGEID_KEY := "messageID"
  const HISTORY_KEY := "history"

  // ---- the version ----

  const INT_RANGE: int := 0x1_0000_0000
  const INT64_RANGE: int := 0x1_0000_0000_0000_0000

  /** A number without fraction and exponent. */
  predicate IsIntegerToken(tok: string) {
    tok != "" && if tok[0] == '-' then |tok| > 1 && AllDigits(tok[1..]) else AllDigits(tok)
  }

  function IntegerValue(tok: string): int
    requires IsIntegerToken(tok)
  {
    if tok[0] == '-' then 0 - NatValue(tok[1..]) as int else NatValue(tok)
  }

  /** is_number_integer: integers outside of 64 bits are stored as floating point numbers. */
  predicate IsNumberInteger(j: J) {
    j.Num? && IsIntegerToken(j.tok) &&
    if j.tok[0] == '-' then IntegerValue(j.tok) >= -(INT64_RANGE / 2) else IntegerValue(j.tok) < INT64_RANGE
  }

  /** The conversion from 64 to 32 bits. */
  function ToInt(v: int): int {
    if v % INT_RANGE < INT_RANGE / 2 then v % INT_RANGE else v % INT_RANGE - INT_RANGE
  }

  predicate VersionAccepted(j: J) {
    var v := At(Some(j), "version");
    v.Some? && IsNumberInteger(v.value) && ToInt(IntegerValue(v.value.tok)) == 1
  }

  /** Every integer that is 1 modulo 2^32 is taken for version 1. */
  lemma {:induction false} VersionIff(j: J)
    requires At(Some(j), "version").Some? && IsNumberInteger(At(Some(j), "version").value)
    ensures VersionAccepted(j) <==> IntegerValue(At(Some(j), "version").value.tok) % INT_RANGE == 1
  {
  }

  lemma {:induction false} WrappedVersion() returns (j: J)
    ensures VersionAccepted(j) && IntegerValue(At(Some(j), "version").value.tok) == 4294967297
  {
    var tok := NatText(4294967297);
    NatRoundTrip(4294967297);
    j := Obj([Member("version", Num(tok))]);
    assert At(Some(j), "version") == Some(Num(tok));
    assert tok[0] != '-' by {
      assert IsDigit(tok[0]);
    }
  }

  // ---- the message id and the operation ----

  predicate IsValidMessageId(id: string) {
    1 <= TextBytes(id) <= MAX_MESSAGEID_LENGTH
  }

  predicate MessageIdAccepted(j: J) {
    var id := At(Some(j), MESSAGEID_KEY);
    id.Some? ==> id.value.Str? && IsValidMessageId(id.value.s)
  }

  /** The id of an accepted request; empty when the request has none. */
  function MessageIdOf(j: J): string {
    var id := At(Some(j), MESSAGEID_KEY);
    if id.Some? && id.value.Str? then id.value.s else ""
  }

  datatype Operation = Operation(name: string, params: seq<string>)

  /** A parameter as text; `format` is how a floating point number with the given text is printed again. */
  function ParamText(format: string -> string, j: J): Option<string> {
    match j
    case Str(s) => Some(s)
    case Num(tok) => Some(format(tok))
    case Bool(b) => Some(if b then "1" else "0")
    case _ => None
  }

  /** Strings are passed on, numbers as they are printed, true as 1 and false as 0; nothing else is a parameter. */
  lemma {:induction false} ParamTexts(format: string -> string, j: J)
    ensures j.Str? ==> ParamText(format, j) == Some(j.s)
    ensures j.Num? ==> ParamText(format, j) == Some(format(j.tok))
    ensures ParamText(format, Bool(true)) == Some("1") && ParamText(format, Bool(false)) == Some("0")
    ensures j.Null? || j.Arr? || j.Obj? ==> ParamText(format, j) == None
  {
  }

  predicate ParamsAccepted(j: J) {
    j.Arr? && forall i :: 0 <= i < |j.elems| ==> j.elems[i].Str? || j.elems[i].Num? || j.elems[i].Bool?
  }

  /** The object has a name that is not empty and nothing else but parameters. */
  predicate OperationAccepted(j: J) {
    && j.Obj? && (|j.members| == 1 || |j.members| == 2)
    && (var name := Find(j.members, "name"); name.Some? && name.value.Str? && name.value.s != "")
    && (var params := Find(j.members, "params");
        if params.None? then |j.members| == 1 else ParamsAccepted(params.value))
  }

  predicate IsOperation(format: string -> string, j: J, op: Operation)
    requires OperationAccepted(j)
  {
    && Find(j.members, "name") == Some(Str(op.name))
    && var params := Find(j.members, "params");
       if params.None? then op.params == []
       else |op.params| == |params.value.elems| &&
            forall i :: 0 <= i < |op.params| ==> ParamText(format, params.value.elems[i]) == Some(op.params[i])
  }

  /** What is wrong with an operation that is refused with the given code. */
  predicate OperationRefused(j: J, code: nat)
    requires j.Obj?
  {
    var name, params := Find(j.members, "name"), Find(j.members, "params");
    var named := (|j.members| == 1 || |j.members| == 2) && name.Some? && name.value.Str?;
    if code == REQ_INVALID_OPERATION_FORMAT then
      !named || (name.value.s != "" && params.None? && |j.members| == 2)
    else if code == REQ_NON_EXISTING_FUNCTION then
      named && name.value.s == ""
    else
      code == REQ_INVALID_PARAM_FORMAT && named && name.value.s != "" && params.Some? && !ParamsAccepted(params.value)
  }

  /** The constructor of CallFunctionOperation, called for an object. */
  method ParseOperation(format: string -> string, j: J) returns (r: Result<Operation, nat>)
    requires j.Obj?
    ensures r.Success? <==> OperationAccepted(j)
    ensures r.Success? ==> IsOperation(format, j, r.value)
    ensures forall code: nat :: r == Failure(code) <==> OperationRefused(j, code)
  {
    if |j.members| != 1 && |j.members| != 2 {
      return Failure(REQ_INVALID_OPERATION_FORMAT);
    }
    var name := Find(j.members, "name");
    if name.None? || !name.value.Str? {
      return Failure(REQ_INVALID_OPERATION_FORMAT);
    }
    if name.value.s == "" {
      return Failure(REQ_NON_EXISTING_FUNCTION);
    }
    var found := Find(j.members, "params");
    if found.None? {
      if |j.members| != 1 {
        return Failure(REQ_INVALID_OPERATION_FORMAT);
      }
      return Success(Operation(name.value.s, []));
    }
    if !found.value.Arr? {
      return Failure(REQ_INVALID_PARAM_FORMAT);
    }
    var elems := found.value.elems;
    var params: seq<string> := [];
    for i := 0 to |elems|
      invariant |params| == i
      invariant forall k :: 0 <= k < i ==> ParamText(format, elems[k]) == Some(params[k])
    {
      var text := ParamText(format, elems[i]);
      if text.None? {
        return Failure(REQ_INVALID_PARAM_FORMAT);
      }
      params := params + [text.value];
    }
    assert forall k :: 0 <= k < |elems| ==> ParamText(format, elems[k]).Some?;
    r := Success(Operation(name.value.s, params));
  }

  predicate Accepted(j: J) {
    && VersionAccepted(j) && MessageIdAccepted(j)
    && At(Some(j), "CallFunction").Some? && OperationAccepted(At(Some(j), "CallFunction").value)
  }

  /** What is wrong with a payload that is refused with the given code; `doc` is None if it is no JSON text. */
  predicate Refused(doc: Option<J>, code: nat) {
    if doc.None? then code == REQ_INVALID_JSON_OBJECT
    else if !VersionAccepted(doc.value) then code == REQ_INVALID_VERSION
    else if !MessageIdAccepted(doc.value) then code == REQ_INVALID_MESSAGEID
    else
      var op := At(doc, "CallFunction");
      if op.None? || !op.value.Obj? then code == REQ_INVALID_OPERATION else OperationRefused(op.value, code)
  }

  /** Every payload is either accepted or refused, with one code only. */
  lemma {:induction false} RefusedIffNotAccepted(doc: Option<J>)
    ensures doc.Some? && Accepted(doc.value) <==> forall code: nat :: !Refused(doc, code)
    ensures forall c: nat, d: nat :: Refused(doc, c) && Refused(doc, d) ==> c == d
  {
    assert (doc.Some? && Accepted(doc.value)) ||
           Refused(doc, REQ_INVALID_JSON_OBJECT) || Refused(doc, REQ_INVALID_VERSION) ||
           Refused(doc, REQ_INVALID_MESSAGEID) || Refused(doc, REQ_INVALID_OPERATION) ||
           Refused(doc, REQ_INVALID_OPERATION_FORMAT) || Refused(doc, REQ_NON_EXISTING_FUNCTION) ||
           Refused(doc, REQ_INVALID_PARAM_FORMAT);
  }

  /** An integer of 64 bits. */
  predicate IsInteger64(j: J) {
    && j.Num? && IsIntegerToken(j.tok)
    && -0x8000_0000_0000_0000 <= IntegerValue(j.tok) < 0x1_0000_0000_0000_0000
  }

  /**
    Main result, key by key: a payload is accepted iff its version is a 64-bit integer that is 1 modulo 2^32, its
    message id, if there is one, is a text of 1 to 255 bytes, and the call has a name that is not empty, perhaps a
    list of texts, numbers and truth values as parameters, and nothing else.
   */
  lemma {:induction false} AcceptedIff(j: J)
    ensures Accepted(j) <==>
      && (var version := At(Some(j), "version");
          version.Some? && IsInteger64(version.value) && IntegerValue(version.value.tok) % 0x1_0000_0000 == 1)
      && (var id := At(Some(j), "messageID");
          id.Some? ==> id.value.Str? && 1 <= TextBytes(id.value.s) <= 255)
      && (var call := At(Some(j), "CallFunction");
          && call.Some? && call.value.Obj?
          && (var name := Find(call.value.members, "name"); name.Some? && name.value.Str? && name.value.s != "")
          && (var params := Find(call.value.members, "params");
              if params.None? then |call.value.members| == 1
              else
                && |call.value.members| == 2 && params.value.Arr?
                && forall i :: 0 <= i < |params.value.elems| ==>
                     params.value.elems[i].Str? || params.value.elems[i].Num? || params.value.elems[i].Bool?))
  {
    if At(Some(j), "version").Some? && At(Some(j), "version").value.Num? {
      var version := At(Some(j), "version").value;
      assert IsNumberInteger(version) <==> IsInteger64(version);
      if IsNumberInteger(version) {
        VersionIff(j);
      }
    }
    var call := At(Some(j), "CallFunction");
    if call.Some? && call.value.Obj? && Find(call.value.members, "params").Some? {
      if Find(call.value.members, "name").Some? {
        TwoFound(call.value.members, "name", "params");
      }
    }
  }

  function Texts(ss: seq<string>): (js: seq<J>)
    ensures |js| == |ss| && forall i :: 0 <= i < |ss| ==> js[i] == Str(ss[i])
  {
    seq(|ss|, i requires 0 <= i < |ss| => Str(ss[i]))
  }

  /** The documented request with texts as parameters is accepted, and is one that can be sent as text. */
  lemma {:induction false} PlainRequest(id: string, name: string, params: seq<string>) returns (j: J)
    requires 1 <= TextBytes(id) <= 255 && name != ""
    ensures Accepted(j) && WellFormed(j) && MessageIdOf(j) == id
    ensures At(Some(j), "CallFunction") == Some(PlainCall(name, params))
  {
    var call := PlainCall(name, params);
    var ms := [Member("CallFunction", call), Member("messageID", Str(id)), Member("version", Num("1"))];
    j := Obj(ms);
    LessAt("name", "params", 0);
    LessAt("CallFunction", "messageID", 0);
    LessAt("messageID", "version", 0);
    LessTransitive("CallFunction", "messageID", "version");
    assert ms[1..][0] == ms[1] && ms[1..][1..] == [ms[2]];
    assert call.members[1..] == [call.members[1]];
    assert "CallFunction"[0] == 'C' && "messageID"[0] == 'm' && "version"[0] == 'v';
    assert MESSAGEID_KEY == "messageID" && At(Some(j), MESSAGEID_KEY) == Find(ms, "messageID");
    assert NatText(1) == "1";
    NatRoundTrip(1);
    NatMeans(1);
    assert IsDigit("1"[0]);
    assert WellFormed(Arr(Texts(params))) && Sorted(call.members);
    assert WellFormed(call) && Sorted(ms);
    assert Find(call.members, "name") == Some(Str(name)) && Find(call.members, "params") == Some(Arr(Texts(params)));
    assert Find(ms, "messageID") == Find(ms[1..], "messageID") == Some(Str(id));
    assert Find(ms, "version") == Find(ms[1..], "version") == Find(ms[1..][1..], "version") == Some(Num("1"));
    AcceptedIff(j);
  }

  function PlainCall(name: string, params: seq<string>): (call: J)
    ensures call.Obj?
  {
    Obj([Member("name", Str(name)), Member("params", Arr(Texts(params)))])
  }

  /** Its operation has that name and those parameters. */
  lemma {:induction false} PlainOperation(format: string -> string, name: string, params: seq<string>, op: Operation)
    requires name != ""
    ensures OperationAccepted(PlainCall(name, params))
    ensures IsOperation(format, PlainCall(name, params), op) <==> op == Operation(name, params)
  {
    var ms := PlainCall(name, params).members;
    assert ms[1..] == [ms[1]] && "name"[0] != "params"[0];
    assert Find(ms, "params") == Find(ms[1..], "params") == Some(Arr(Texts(params)));
    if IsOperation(format, PlainCall(name, params), op) {
      assert forall i :: 0 <= i < |op.params| ==> ParamText(format, Texts(params)[i]) == Some(op.params[i]);
      assert op.params == params;
    }
  }

  /** An object with two different keys has two members. */
  lemma {:induction false} TwoFound(ms: seq<Member>, a: string, b: string)
    requires Find(ms, a).Some? && Find(ms, b).Some? && a != b
    ensures |ms| >= 2
  {
    if ms[0].key != a {
      assert Find(ms[1..], a).Some?;
    } else {
      assert Find(ms[1..], b).Some?;
    }
  }

  /** The codes of payloads that are refused, by the first check that fails. */
  lemma {:induction false} RefusedCodes(doc: Option<J>)
    ensures doc.None? ==> Refused(doc, 3)
    ensures doc.Some? && !VersionAccepted(doc.value) ==> Refused(doc, 4)
    ensures doc.Some? && VersionAccepted(doc.value) && !MessageIdAccepted(doc.value) ==> Refused(doc, 7)
    ensures doc.Some? && VersionAccepted(doc.value) && MessageIdAccepted(doc.value) ==>
      var call := At(doc, "CallFunction");
      if call.None? || !call.value.Obj? then Refused(doc, 5)
      else
        var ms := call.value.members;
        var name, params := Find(ms, "name"), Find(ms, "params");
        if |ms| == 0 || |ms| > 2 || name.None? || !name.value.Str? then Refused(doc, 6)
        else if name.value.s == "" then Refused(doc, 101)
        else if params.None? && |ms| == 2 then Refused(doc, 6)
        else if params.None? || (params.value.Arr? && forall i :: 0 <= i < |params.value.elems| ==>
            params.value.elems[i].Str? || params.value.elems[i].Num? || params.value.elems[i].Bool?)
        then Accepted(doc.value)
        else Refused(doc, 106)
  {
  }

  // ---- replies ----

  /** What code outside of this model may throw: an IgorException, std::bad_alloc, or anything else. */
  datatype Thrown = IgorError(code: nat) | OutOfMemory | Foreign
  {
    /** No IgorException has the code of a success. */
    predicate Valid() {
      IgorError? ==> code != 0
    }
  }

  function CodeObject(code: nat, msg: Option<string>): J {
    var ms := Put([], "value", Num(NatText(code)));
    Obj(if msg.Some? then Put(ms, "msg", Str(msg.value)) else ms)
  }

  function PutIf(ms: seq<Member>, key: string, val: Option<J>): seq<Member> {
    if val.Some? then Put(ms, key, val.value) else ms
  }

  function IfNotEmpty(s: string): Option<J> {
    if s == "" then None else Some(Str(s))
  }

  function SuccessReply(result: J, passByReference: Option<J>, messageId: string): seq<Member> {
    var ms := Put(Put([], "errorCode", CodeObject(0, None)), "result", result);
    PutIf(PutIf(ms, "passByReference", passByReference), MESSAGEID_KEY, IfNotEmpty(messageId))
  }

  function ErrorReply(code: nat, msg: string, messageId: string, history: string): seq<Member> {
    var ms := Put([], "errorCode", CodeObject(code, Some(msg)));
    PutIf(PutIf(ms, MESSAGEID_KEY, IfNotEmpty(messageId)), HISTORY_KEY, IfNotEmpty(history))
  }

  /** The error code of a reply. */
  function CodeOf(reply: J): Option<J> {
    At(At(Some(reply), "errorCode"), "value")
  }

  /**
    What a client can rely on: the reply has the message id of the request, and none if the request has
    none; it has a result exactly when the code is 0; and it has a history exactly when there is one.
   */
  ghost predicate Correlated(reply: J, messageId: string, code: nat, history: string) {
    && reply.Obj? && WellFormed(reply)
    && At(Some(reply), MESSAGEID_KEY) == IfNotEmpty(messageId)
    && CodeOf(reply) == Some(Num(NatText(code)))
    && (At(Some(reply), "result").Some? <==> code == 0)
    && At(Some(reply), HISTORY_KEY) == if code == 0 then None else IfNotEmpty(history)
  }

  lemma {:induction false} FindPutIf(ms: seq<Member>, key: string, val: Option<J>, other: string)
    ensures Find(PutIf(ms, key, val), other) == if other == key && val.Some? then val else Find(ms, other)
  {
    if val.Some? {
      FindPut(ms, key, val.value, other);
    }
  }

  lemma {:induction false} PutWellFormed(ms: seq<Member>, key: string, val: J)
    requires WellFormed(Obj(ms)) && WellFormed(val)
    ensures WellFormed(Obj(Put(ms, key, val)))
  {
    PutSorted(ms, key, val);
    forall i | 0 <= i < |Put(ms, key, val)|
      ensures WellFormed(Put(ms, key, val)[i].val)
    {
      PutKeys(ms, key, val, i);
    }
  }

  lemma {:induction false} PutIfWellFormed(ms: seq<Member>, key: string, val: Option<J>)
    requires WellFormed(Obj(ms)) && OptionWellFormed(val)
    ensures WellFormed(Obj(PutIf(ms, key, val)))
  {
    if val.Some? {
      PutWellFormed(ms, key, val.value);
    }
  }

  lemma {:induction false} CodeObjectFound(code: nat, msg: Option<string>)
    ensures At(Some(CodeObject(code, msg)), "value") == Some(Num(NatText(code))) && WellFormed(CodeObject(code, msg))
  {
    NatMeans(code);
    var ms := Put([], "value", Num(NatText(code)));
    PutWellFormed([], "value", Num(NatText(code)));
    FindPut([], "value", Num(NatText(code)), "value");
    if msg.Some? {
      PutWellFormed(ms, "msg", Str(msg.value));
      FindPut(ms, "msg", Str(msg.value), "value");
      assert |"msg"| != |"value"|;
    }
  }

  lemma {:induction false} KeysDiffer()
    ensures "errorCode" != "result" && "errorCode" != "passByReference" && "errorCode" != MESSAGEID_KEY &&
        "errorCode" != HISTORY_KEY
    ensures "result" != "passByReference" && "result" != MESSAGEID_KEY && "result" != HISTORY_KEY
    ensures "passByReference" != MESSAGEID_KEY && "passByReference" != HISTORY_KEY && MESSAGEID_KEY != HISTORY_KEY
  {
    assert "errorCode"[0] != MESSAGEID_KEY[0];
  }

  lemma {:induction false} ErrorReplyFind(code: nat, msg: string, messageId: string, history: string, key: string)
    ensures Find(ErrorReply(code, msg, messageId, history), key) ==
      if key == HISTORY_KEY && history != "" then Some(Str(history))
      else if key == MESSAGEID_KEY && messageId != "" then Some(Str(messageId))
      else if key == "errorCode" then Some(CodeObject(code, Some(msg))) else None
  {
    var c := CodeObject(code, Some(msg));
    var ms := Put([], "errorCode", c);
    FindPutIf(PutIf(ms, MESSAGEID_KEY, IfNotEmpty(messageId)), HISTORY_KEY, IfNotEmpty(history), key);
    FindPutIf(ms, MESSAGEID_KEY, IfNotEmpty(messageId), key);
    FindPut([], "errorCode", c, key);
  }

  lemma {:induction false} ErrorReplyWellFormed(code: nat, msg: string, messageId: string, history: string)
    ensures WellFormed(Obj(ErrorReply(code, msg, messageId, history)))
  {
    var c := CodeObject(code, Some(msg));
    var ms := Put([], "errorCode", c);
    CodeObjectFound(code, Some(msg));
    PutWellFormed([], "errorCode", c);
    PutIfWellFormed(ms, MESSAGEID_KEY, IfNotEmpty(messageId));
    PutIfWellFormed(PutIf(ms, MESSAGEID_KEY, IfNotEmpty(messageId)), HISTORY_KEY, IfNotEmpty(history));
  }

  lemma {:induction false} ErrorReplyCorrelated(code: nat, msg: string, messageId: string, history: string)
    requires code != 0
    ensures Correlated(Obj(ErrorReply(code, msg, messageId, history)), messageId, code, history)
  {
    KeysDiffer();
    CodeObjectFound(code, Some(msg));
    ErrorReplyWellFormed(code, msg, messageId, history);
    ErrorReplyFind(code, msg, messageId, history, MESSAGEID_KEY);
    ErrorReplyFind(code, msg, messageId, history, HISTORY_KEY);
    ErrorReplyFind(code, msg, messageId, history, "errorCode");
    ErrorReplyFind(code, msg, messageId, history, "result");
  }

  lemma {:induction false} SuccessReplyFind(result: J, passByReference: Option<J>, messageId: string, key: string)
    ensures Find(SuccessReply(result, passByReference, messageId), key) ==
      if key == MESSAGEID_KEY && messageId != "" then Some(Str(messageId))
      else if key == "passByReference" && passByReference.Some? then passByReference
      else if key == "result" then Some(result)
      else if key == "errorCode" then Some(CodeObject(0, None)) else None
  {
    var c := CodeObject(0, None);
    var ms := Put(Put([], "errorCode", c), "result", result);
    FindPutIf(PutIf(ms, "passByReference", passByReference), MESSAGEID_KEY, IfNotEmpty(messageId), key);
    FindPutIf(ms, "passByReference", passByReference, key);
    FindPut(Put([], "errorCode", c), "result", result, key);
    FindPut([], "errorCode", c, key);
  }

  lemma {:induction false} SuccessReplyWellFormed(result: J, passByReference: Option<J>, messageId: string)
    requires WellFormed(result) && OptionWellFormed(passByReference)
    ensures WellFormed(Obj(SuccessReply(result, passByReference, messageId)))
  {
    var c := CodeObject(0, None);
    var ms := Put([], "errorCode", c);
    CodeObjectFound(0, None);
    PutWellFormed([], "errorCode", c);
    PutWellFormed(ms, "result", result);
    PutIfWellFormed(Put(ms, "result", result), "passByReference", passByReference);
    PutIfWellFormed(PutIf(Put(ms, "result", result), "passByReference", passByReference), MESSAGEID_KEY,
        IfNotEmpty(messageId));
  }

  lemma {:induction false} SuccessReplyCorrelated(result: J, passByReference: Option<J>, messageId: string,
      history: string)
    requires WellFormed(result) && OptionWellFormed(passByReference)
    ensures Correlated(Obj(SuccessReply(result, passByReference, messageId)), messageId, 0, history)
    ensures At(Some(Obj(SuccessReply(result, passByReference, messageId))), "result") == Some(result)
    ensures At(Some(Obj(SuccessReply(result, passByReference, messageId))), "passByReference") == passByReference
  {
    KeysDiffer();
    CodeObjectFound(0, None);
    SuccessReplyWellFormed(result, passByReference, messageId);
    SuccessReplyFind(result, passByReference, messageId, MESSAGEID_KEY);
    SuccessReplyFind(result, passByReference, messageId, HISTORY_KEY);
    SuccessReplyFind(result, passByReference, messageId, "errorCode");
    SuccessReplyFind(result, passByReference, messageId, "result");
    SuccessReplyFind(result, passByReference, messageId, "passByReference");
  }

  /** An error reply key by key; there is no other key. */
  lemma {:induction false} ErrorReplyMeans(code: nat, msg: string, messageId: string, history: string, key: string)
    ensures var j := Some(Obj(ErrorReply(code, msg, messageId, history)));
      && At(At(j, "errorCode"), "value") == Some(Num(NatText(code)))
      && At(At(j, "errorCode"), "msg") == Some(Str(msg))
      && At(j, "messageID") == (if messageId == "" then None else Some(Str(messageId)))
      && At(j, "history") == (if history == "" then None else Some(Str(history)))
      && (At(j, key).Some? ==> key == "errorCode" || key == "messageID" || key == "history")
  {
    KeysDiffer();
    var ms := Put([], "value", Num(NatText(code)));
    FindPut([], "value", Num(NatText(code)), "value");
    FindPut(ms, "msg", Str(msg), "value");
    FindPut(ms, "msg", Str(msg), "msg");
    assert |"msg"| != |"value"|;
    ErrorReplyFind(code, msg, messageId, history, "errorCode");
    ErrorReplyFind(code, msg, messageId, history, MESSAGEID_KEY);
    ErrorReplyFind(code, msg, messageId, history, HISTORY_KEY);
    ErrorReplyFind(code, msg, messageId, history, key);
  }

  /** A success reply key by key; there is no other key. */
  lemma {:induction false} SuccessReplyMeans(result: J, passByReference: Option<J>, messageId: string, key: string)
    ensures var j := Some(Obj(SuccessReply(result, passByReference, messageId)));
      && At(At(j, "errorCode"), "value") == Some(Num("0")) && At(j, "result") == Some(result)
      && At(j, "passByReference") == passByReference
      && At(j, "messageID") == (if messageId == "" then None else Some(Str(messageId)))
      && (At(j, key).Some? ==>
           key == "errorCode" || key == "result" || key == "passByReference" || key == "messageID")
  {
    KeysDiffer();
    CodeObjectFound(0, None);
    assert NatText(0) == "0";
    SuccessReplyFind(result, passByReference, messageId, "errorCode");
    SuccessReplyFind(result, passByReference, messageId, "result");
    SuccessReplyFind(result, passByReference, messageId, "passByReference");
    SuccessReplyFind(result, passByReference, messageId, MESSAGEID_KEY);
    SuccessReplyFind(result, passByReference, messageId, key);
  }

  // ---- the request ----

  class RequestInterface {
    const callerIdentity: string
    var messageId: string
    var op: Option<Operation>
    var history: string

    constructor (identity: string)
      ensures callerIdentity == identity && messageId == "" && op == None && history == ""
    {
      callerIdentity, messageId, op, history := identity, "", None, "";
    }

    predicate HasValidMessageId()
      reads this
    {
      IsValidMessageId(messageId)
    }

    predicate Valid()
      reads this
    {
      op.Some? && (messageId != "" ==> HasValidMessageId())
    }

    /** Reads a parsed payload. The checks come in this order; each has its own error. */
    method FillFromJSON(format: string -> string, j: J) returns (r: Result<(), nat>)
      requires messageId == ""
      modifies this`messageId, this`op
      ensures r.Success? <==> Accepted(j)
      ensures r.Success? ==> Valid() && messageId == MessageIdOf(j)
      ensures r.Success? ==> IsOperation(format, At(Some(j), "CallFunction").value, op.value)
      ensures forall code: nat :: r == Failure(code) <==> Refused(Some(j), code)
    {
      var version := At(Some(j), "version");
      if version.None? || !IsNumberInteger(version.value) {
        return Failure(REQ_INVALID_VERSION);
      }
      if ToInt(IntegerValue(version.value.tok)) != 1 {
        return Failure(REQ_INVALID_VERSION);
      }
      var id := At(Some(j), MESSAGEID_KEY);
      if id.Some? {
        if !id.value.Str? {
          return Failure(REQ_INVALID_MESSAGEID);
        }
        if !IsValidMessageId(id.value.s) {
          return Failure(REQ_INVALID_MESSAGEID);
        }
        messageId := id.value.s;
      }
      var call := At(Some(j), "CallFunction");
      if call.None? || !call.value.Obj? {
        return Failure(REQ_INVALID_OPERATION);
      }
      var parsed := ParseOperation(format, call.value);
      if parsed.Failure? {
        return Failure(parsed.error);
      }
      op := Some(parsed.value);
      r := Success(());
    }
  }

  /**
    Main result, from payload to request: a payload that is not accepted is answered at once, with the code of
    the first check that fails and without any message id; an accepted one becomes a request with its id,
    function name and parameters. The log entry for the payload may throw; then there is no request, and no
    answer either if what is thrown is neither an IgorException nor lack of memory.
   */
  method HandlePayload(format: string -> string, identity: string, payload: string, log: Option<Thrown>)
    returns (answer: Option<J>, request: Option<RequestInterface>, ghost code: nat)
    requires log.Some? ==> log.value.Valid()
    ensures request.Some? <==> log.None? && Parse(payload).Some? && Accepted(Parse(payload).value)
    ensures request.Some? ==>
      && fresh(request.value) && request.value.Valid() && request.value.history == ""
      && request.value.callerIdentity == identity && request.value.messageId == MessageIdOf(Parse(payload).value)
      && IsOperation(format, At(Parse(payload), "CallFunction").value, request.value.op.value)
    ensures answer.Some? <==> request.None? && log != Some(Foreign)
    ensures answer.Some? ==> Correlated(answer.value, "", code, "") && code != 0
    ensures answer.Some? ==>
      if log.None? then Refused(Parse(payload), code)
      else code == if log.value.IgorError? then log.value.code else REQ_OUT_OF_MEMORY
  {
    answer, request, code := None, None, 0;
    var doc := Parse(payload);
    var error;
    if log.Some? {
      if log.value.Foreign? {
        return;
      }
      error := if log.value.IgorError? then log.value.code else REQ_OUT_OF_MEMORY;
    } else {
      var r := Failure(REQ_INVALID_JSON_OBJECT);
      var req := new RequestInterface(identity);
      if doc.Some? {
        r := req.FillFromJSON(format, doc.value);
      }
      if r.Success? {
        return None, Some(req), 0;
      }
      error := r.error;
      assert Refused(doc, error);
    }
    ErrorReplyCorrelated(error, "", "", "");
    return Some(Obj(ErrorReply(error, "", "", ""))), None, error;
  }
}
