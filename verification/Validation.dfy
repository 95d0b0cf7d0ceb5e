/**
  CallFunctionOperation::CanBeProcessed and what its acceptance guarantees for the marshalling code.
 */
module Validation {
  import opened Wrappers
  import opened IgorTypes
  import opened Signature
  import opened Marshal
  import opened ParameterHandler

  /** What GetFunctionInfo returns. */
  datatype Lookup = NeedCompile | NoFunction | OtherError | Found(fip: FunctionInfo)

  datatype Verdict = Accepted | ProcNotCompiled | NonExistingFunction | LookupFailed | TooFewParams | TooManyParams
                   | InvalidParamFormat | UnsupportedReturn | UnsupportedSignature

  predicate ReturnTypeSupported(t: Word) {
    t == NT_FP64 || t == HSTRING_TYPE || t == WAVE_TYPE || t == DATAFOLDER_TYPE || t == FV_NORETURN_TYPE
  }

  predicate InputSupported(t: Word) {
    (IsBitSet(t, NT_FP64) && !IsBitSet(t, NT_CMPLX)) || IsBitSet(t, HSTRING_TYPE) || IsBitSet(t, DATAFOLDER_TYPE)
  }

  predicate OutputSupported(t: Word) {
    InputSupported(t) || IsWaveType(t)
  }

  /** The parameters that will be read as numbers are numbers. */
  predicate NumbersConvertible(env: Environment, fip: FunctionInfo, params: seq<string>)
    requires FromIgor(fip) && |params| == GetNumberOfInputParameters(fip)
  {
    forall i :: 0 <= i < |params| && IsBitSet(Required(fip)[GetFirstInputParameterIndex(fip) + i], NT_FP64) ==>
      env.strtod(params[i]).Some?
  }

  predicate WordSupported(fip: FunctionInfo, i: nat)
    requires FromIgor(fip) && i < fip.numRequiredParameters
  {
    if i < GetFirstInputParameterIndex(fip) then OutputSupported(Required(fip)[i]) else InputSupported(Required(fip)[i])
  }

  /** The first parameter word that is refused decides between the two last errors. */
  predicate FirstRefused(fip: FunctionInfo, i: nat)
    requires FromIgor(fip) && i < fip.numRequiredParameters
  {
    !WordSupported(fip, i) && forall j :: 0 <= j < i ==> WordSupported(fip, j)
  }

  predicate SignatureSupported(fip: FunctionInfo)
    requires FromIgor(fip)
  {
    ReturnTypeSupported(fip.returnType) && forall i :: 0 <= i < fip.numRequiredParameters ==> WordSupported(fip, i)
  }

  /** The parameters are as many as the inputs, and numbers where numbers are expected. */
  predicate Readable(env: Environment, fip: FunctionInfo, params: seq<string>)
    requires FromIgor(fip)
  {
    |params| == GetNumberOfInputParameters(fip) && NumbersConvertible(env, fip, params)
  }

  /** What CanBeProcessed has established when it accepts. */
  predicate Acceptable(env: Environment, fip: FunctionInfo, params: seq<string>)
    requires FromIgor(fip)
  {
    Readable(env, fip, params) && SignatureSupported(fip)
  }

  /** The return type is fine and the first refused parameter word is that of an input. */
  ghost predicate SignatureRefused(fip: FunctionInfo) {
    && FromIgor(fip) && ReturnTypeSupported(fip.returnType)
    && exists i: nat :: GetFirstInputParameterIndex(fip) <= i < fip.numRequiredParameters && FirstRefused(fip, i)
  }

  /** The return type is refused, or the first refused parameter word is that of a return value. */
  ghost predicate ReturnRefused(fip: FunctionInfo) {
    && FromIgor(fip)
    && (!ReturnTypeSupported(fip.returnType) ||
        exists i: nat :: i < fip.numRequiredParameters && i < GetFirstInputParameterIndex(fip) && FirstRefused(fip, i))
  }

  /** The check of the passed parameters. */
  method CheckParameters(env: Environment, fip: FunctionInfo, params: seq<string>) returns (ok: bool)
    requires FromIgor(fip) && |params| == GetNumberOfInputParameters(fip)
    ensures ok <==> NumbersConvertible(env, fip, params)
  {
    var first := GetFirstInputParameterIndex(fip);
    for i := 0 to |params|
      invariant forall j :: 0 <= j < i && IsBitSet(Required(fip)[first + j], NT_FP64) ==> env.strtod(params[j]).Some?
    {
      if IsBitSet(fip.parameterTypes[first + i], NT_FP64) && env.strtod(params[i]).None? {
        return false;
      }
    }
    ok := true;
  }

  /** When a verdict is right: the conditions exclude each other, in the order of the checks. */
  ghost predicate Judged(env: Environment, found: Lookup, params: seq<string>, v: Verdict)
    requires found.Found? ==> FromIgor(found.fip)
  {
    match v
    case ProcNotCompiled => found == NeedCompile
    case NonExistingFunction => found == NoFunction
    case LookupFailed => found == OtherError
    case TooFewParams => found.Found? && |params| < GetNumberOfInputParameters(found.fip)
    case TooManyParams => found.Found? && |params| > GetNumberOfInputParameters(found.fip)
    case InvalidParamFormat =>
      found.Found? && |params| == GetNumberOfInputParameters(found.fip) && !NumbersConvertible(env, found.fip, params)
    case UnsupportedReturn => found.Found? && Readable(env, found.fip, params) && ReturnRefused(found.fip)
    case UnsupportedSignature => found.Found? && Readable(env, found.fip, params) && SignatureRefused(found.fip)
    case Accepted => found.Found? && Acceptable(env, found.fip, params)
  }

  /** Main result: exactly one verdict is right, so that each verdict of CanBeProcessed holds iff its condition does. */
  lemma {:induction false} JudgedOnce(env: Environment, found: Lookup, params: seq<string>, u: Verdict, v: Verdict)
    requires (found.Found? ==> FromIgor(found.fip)) && Judged(env, found, params, v)
    ensures Judged(env, found, params, u) <==> u == v
  {
    if found.Found? {
      RefusedEither(found.fip);
    }
  }

  /** The two last errors exclude each other and supported signatures. */
  lemma {:induction false} RefusedEither(fip: FunctionInfo)
    requires FromIgor(fip)
    ensures !(SignatureSupported(fip) && ReturnRefused(fip)) && !(SignatureSupported(fip) && SignatureRefused(fip))
    ensures !(SignatureRefused(fip) && ReturnRefused(fip))
  {
  }

  method CanBeProcessed(env: Environment, found: Lookup, params: seq<string>) returns (v: Verdict)
    requires found.Found? ==> FromIgor(found.fip)
    ensures Judged(env, found, params, v)
  {
    if found == NeedCompile {
      return ProcNotCompiled;
    }
    if found == NoFunction {
      return NonExistingFunction;
    }
    if !found.Found? {
      return LookupFailed; // an assertion
    }
    var fip := found.fip;
    var numInputParams := GetNumberOfInputParameters(fip);
    if |params| < numInputParams {
      return TooFewParams;
    }
    if |params| > numInputParams {
      return TooManyParams;
    }
    var readable := CheckParameters(env, fip, params);
    if !readable {
      return InvalidParamFormat;
    }
    v := CheckSignature(fip);
  }

  /** The last part of CanBeProcessed. */
  method CheckSignature(fip: FunctionInfo) returns (v: Verdict)
    requires FromIgor(fip)
    ensures v == Accepted || v == UnsupportedReturn || v == UnsupportedSignature
    ensures v == Accepted <==> SignatureSupported(fip)
    ensures v == UnsupportedSignature <==> SignatureRefused(fip)
    ensures v == UnsupportedReturn <==> ReturnRefused(fip)
  {
    if fip.returnType != NT_FP64 && fip.returnType != HSTRING_TYPE && fip.returnType != WAVE_TYPE &&
       fip.returnType != DATAFOLDER_TYPE && fip.returnType != FV_NORETURN_TYPE {
      return UnsupportedReturn;
    }
    var first := GetFirstInputParameterIndex(fip);
    for i := 0 to fip.numRequiredParameters
      invariant forall j :: 0 <= j < i ==> WordSupported(fip, j)
    {
      var igorType := fip.parameterTypes[i];
      assert igorType == Required(fip)[i];
      if IsBitSet(igorType, NT_FP64) && !IsBitSet(igorType, NT_CMPLX) {
        continue;
      } else if IsBitSet(igorType, HSTRING_TYPE) {
        continue;
      } else if IsBitSet(igorType, DATAFOLDER_TYPE) {
        continue;
      } else if i < first && IsWaveType(igorType) {
        continue;
      }
      assert FirstRefused(fip, i);
      return if i < first then UnsupportedReturn else UnsupportedSignature;
    }
    v := Accepted;
  }

  // ---- the verdicts in terms of type words ----

  /** A real number, a string or a data folder; a wave as return value only. */
  predicate Allowed(t: Word, returned: bool) {
    || (t & 0x4 == 0x4 && t & 0x1 != 0x1) || t & 0x2000 == 0x2000 || t & 0x100 == 0x100
    || (returned && t & 0x4000 == 0x4000)
  }

  predicate ReturnAllowed(t: Word) {
    t in {0x4, 0x2000, 0x4000, 0x100, 0x20000}
  }

  lemma {:induction false} AllowedIff(t: Word)
    ensures Allowed(t, true) <==> OutputSupported(t)
    ensures Allowed(t, false) <==> InputSupported(t)
    ensures ReturnAllowed(t) <==> ReturnTypeSupported(t)
  {
  }

  /**
    Main result: which verdict is given, with all words spelled out. `first` is the index of the first input; the number
    of texts passed comes first, then their conversion, the return type, and the first word that is refused.
   */
  lemma {:induction false} VerdictMeans(env: Environment, fip: FunctionInfo, params: seq<string>, v: Verdict)
    requires FromIgor(fip) && Judged(env, Found(fip), params, v)
    ensures var types := fip.parameterTypes[..fip.numRequiredParameters];
      var first := if fip.returnType == 0x20000 then LeadingRefs(types) else 0;
      && (v.TooFewParams? <==> first + |params| < |types|) && (v.TooManyParams? <==> first + |params| > |types|)
      && (first + |params| == |types| ==>
           var readable := forall i :: 0 <= i < |params| && types[first + i] & 0x4 == 0x4 ==>
             env.strtod(params[i]).Some?;
           var allowed := forall i :: 0 <= i < |types| ==> Allowed(types[i], i < first);
           && (v.InvalidParamFormat? <==> !readable)
           && (v.Accepted? <==> readable && ReturnAllowed(fip.returnType) && allowed)
           && (v.UnsupportedSignature? <==>
                && readable && ReturnAllowed(fip.returnType) && !allowed
                && forall i :: 0 <= i < first ==> Allowed(types[i], true))
           && (v.UnsupportedReturn? <==>
                && readable
                && (!ReturnAllowed(fip.returnType) || exists i :: 0 <= i < first && !Allowed(types[i], true))))
  {
    var types, first := Required(fip), GetFirstInputParameterIndex(fip);
    AllowedIff(fip.returnType);
    forall i | 0 <= i < |types|
      ensures Allowed(types[i], i < first) <==> WordSupported(fip, i)
    {
      AllowedIff(types[i]);
    }
    hide Allowed, ReturnAllowed, InputSupported, OutputSupported, ReturnTypeSupported, WordSupported;
    if |params| == GetNumberOfInputParameters(fip) {
      FirstOf(fip);
    }
  }

  /** If a word is refused there is a first one. */
  lemma {:induction false} FirstOf(fip: FunctionInfo)
    requires FromIgor(fip)
    ensures (forall i :: 0 <= i < fip.numRequiredParameters ==> WordSupported(fip, i)) ||
            exists i: nat :: i < fip.numRequiredParameters && FirstRefused(fip, i)
  {
    var i := 0;
    while i < fip.numRequiredParameters && WordSupported(fip, i)
      invariant i <= fip.numRequiredParameters && forall j :: 0 <= j < i ==> WordSupported(fip, j)
    {
      i := i + 1;
    }
    assert i < fip.numRequiredParameters ==> FirstRefused(fip, i);
  }

  // ---- what acceptance guarantees ----

  /** All parameter words have a meaning for the marshalling code. */
  predicate KnownWords(fip: FunctionInfo)
    requires FromIgor(fip)
  {
    forall i :: 0 <= i < fip.numRequiredParameters ==> Classify(Required(fip)[i]).Some?
  }

  /** A known word without the wave bit is one of the three base types; with it, it is a wave. */
  lemma {:induction false} KnownWord(t: Word)
    requires Classify(t).Some?
    ensures IsWaveType(t) <==> Classify(t).value.kind.WaveKind?
    ensures !IsWaveType(t) ==> (IsBitSet(t, NT_FP64) <==> Classify(t).value.kind.NumberKind?)
  {
  }

  /**
    Main result: for an accepted signature of known words with fewer than MAX_NUM_PARAMS parameters,
    no assertion of the constructor can fail iff no input parameter has the wave bit.
   */
  lemma {:induction false} AcceptanceSuffices(env: Environment, fip: FunctionInfo, params: seq<string>)
    requires FromIgor(fip) && Acceptable(env, fip, params) && KnownWords(fip) && fip.totalNumParameters < MAX_NUM_PARAMS
    ensures AssertFree(env, fip, params) <==> WavesOnlyBefore(Required(fip), GetFirstInputParameterIndex(fip))
  {
    InputsAreTheTail(fip);
    var types, first := Required(fip), GetFirstInputParameterIndex(fip);
    forall i | first <= i < |types|
      ensures Convertible(env, Classify(types[i]), params[i - first]) <==> !IsWaveType(types[i])
    {
      assert types[first + (i - first)] == types[i];
      ConvertibleInput(env, types[i], params[i - first]);
    }
    AllConvertibleIff(env, types, first, params);
    assert SignatureAccepted(fip, |params|);
  }

  /** No word from index `first` on carries the wave bit. */
  predicate WavesOnlyBefore(types: seq<Word>, first: nat) {
    forall i :: first <= i < |types| ==> !IsWaveType(types[i])
  }

  lemma {:induction false} AllConvertibleIff(env: Environment, types: seq<Word>, first: nat, params: seq<string>)
    requires |types| == first + |params|
    requires forall i :: first <= i < |types| ==>
      (Convertible(env, Classify(types[i]), params[i - first]) <==> !IsWaveType(types[i]))
    ensures AllConvertible(env, types, first, params) <==> WavesOnlyBefore(types, first)
  {
  }

  lemma {:induction false} ConvertibleInput(env: Environment, t: Word, param: string)
    requires Classify(t).Some? && (IsBitSet(t, NT_FP64) ==> env.strtod(param).Some?)
    ensures Convertible(env, Classify(t), param) <==> !IsWaveType(t)
  {
    KnownWord(t);
  }

  /** An accepted return type has a meaning for the extraction, or there is no return value to extract. */
  lemma {:induction false} ReturnTypeKnown(t: Word)
    requires ReturnTypeSupported(t)
    ensures t == FV_NORETURN_TYPE || Classify(t).Some?
  {
  }

  /** Among known words only those of waves are refused as inputs, plain wave words always; none as an output. */
  lemma {:induction false} RefusedInputsAreWaves(t: Word)
    requires Classify(t).Some?
    ensures !InputSupported(t) ==> Classify(t).value.kind.WaveKind?
    ensures ClearBit(t, FV_REF_TYPE) == WAVE_TYPE ==> !InputSupported(t)
    ensures OutputSupported(t)
  {
  }

  /** An accepted call on which the constructor asserts: one input of type double wave. */
  lemma {:induction false} AcceptedButAsserts(env: Environment, number: string) returns (fip: FunctionInfo)
    requires env.strtod(number).Some?
    ensures FromIgor(fip) && Acceptable(env, fip, [number])
    ensures KnownWords(fip) && fip.totalNumParameters < MAX_NUM_PARAMS
    ensures !AssertFree(env, fip, [number])
  {
    fip := FunctionInfo(NT_FP64, 1, 1, seq(MAX_NUM_PARAMS, _ => WAVE_TYPE | NT_FP64));
    var t := Required(fip)[0];
    assert t == WAVE_TYPE | NT_FP64 == 0x4004;
    assert InputSupported(t) && IsWaveType(t) && Classify(t) == Some(Param(WaveKind, false));
    assert WordSupported(fip, 0) && !WavesOnlyBefore(Required(fip), 0);
    AcceptanceSuffices(env, fip, [number]);
  }
}
