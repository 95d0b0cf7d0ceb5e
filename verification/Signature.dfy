/** Function signatures as Igor reports them and the helpers of HelperFunctions.cpp that read them. */
module Signature {
  import opened IgorTypes

  const MAX_NUM_PARAMS: nat := 100

  datatype FunctionInfo = FunctionInfo(
    returnType: Word, totalNumParameters: nat, numRequiredParameters: nat, parameterTypes: seq<Word>)

  /** What GetFunctionInfo guarantees of the structure it fills. */
  predicate FromIgor(fip: FunctionInfo) {
    |fip.parameterTypes| == MAX_NUM_PARAMS &&
    fip.numRequiredParameters <= fip.totalNumParameters <= MAX_NUM_PARAMS
  }

  function Required(fip: FunctionInfo): (types: seq<Word>)
    requires FromIgor(fip)
    ensures |types| == fip.numRequiredParameters
  {
    fip.parameterTypes[..fip.numRequiredParameters]
  }

  predicate UsesMultipleReturnValueSyntax(fip: FunctionInfo) {
    fip.returnType == FV_NORETURN_TYPE
  }

  /** Number of pass-by-reference parameters before the first other one. */
  function LeadingRefs(types: seq<Word>): (n: nat)
    ensures n <= |types|
    ensures forall i :: 0 <= i < n ==> IsBitSet(types[i], FV_REF_TYPE)
    ensures n < |types| ==> !IsBitSet(types[n], FV_REF_TYPE)
  {
    if types == [] || !IsBitSet(types[0], FV_REF_TYPE) then 0 else 1 + LeadingRefs(types[1..])
  }

  function GetNumberOfReturnValues(fip: FunctionInfo): nat
    requires FromIgor(fip)
  {
    if UsesMultipleReturnValueSyntax(fip) then LeadingRefs(Required(fip)) else 1
  }

  function GetNumberOfInputParameters(fip: FunctionInfo): nat
    requires FromIgor(fip)
  {
    if UsesMultipleReturnValueSyntax(fip) then fip.numRequiredParameters - GetNumberOfReturnValues(fip)
    else fip.numRequiredParameters
  }

  function GetFirstInputParameterIndex(fip: FunctionInfo): nat
    requires FromIgor(fip)
  {
    if UsesMultipleReturnValueSyntax(fip) then GetNumberOfReturnValues(fip) else 0
  }

  /** The input parameters are exactly those from the first input index on. */
  lemma {:induction false} InputsAreTheTail(fip: FunctionInfo)
    requires FromIgor(fip)
    ensures GetFirstInputParameterIndex(fip) + GetNumberOfInputParameters(fip) == fip.numRequiredParameters
  {
  }

  /**
    For a signature written as outputs followed by inputs the computed number of return values is the
    declared one iff the inputs do not themselves start with a pass-by-reference parameter.
   */
  lemma {:induction false} ReturnCountIsDeclared(outputs: seq<Word>, inputs: seq<Word>)
    requires forall i :: 0 <= i < |outputs| ==> IsBitSet(outputs[i], FV_REF_TYPE)
    ensures LeadingRefs(outputs + inputs) == |outputs| <==> inputs == [] || !IsBitSet(inputs[0], FV_REF_TYPE)
  {
    var types := outputs + inputs;
    var n := LeadingRefs(types);
    if inputs != [] {
      assert types[|outputs|] == inputs[0];
    }
    assert forall i :: 0 <= i < |outputs| ==> types[i] == outputs[i];
  }
}
