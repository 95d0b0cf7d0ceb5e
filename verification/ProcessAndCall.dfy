/** The validator followed by the call, as for every request (CallIgorFunctionFromReqInterface). */
module ProcessAndCall {
  import opened Wrappers
  import opened IgorTypes
  import opened Signature
  import opened Marshal
  import opened ParameterHandler
  import opened Validation
  import opened CallFunction

  /** Signatures for which the types, though not their validity for a request, are those of Igor functions. */
  predicate Ordinary(fip: FunctionInfo)
    requires FromIgor(fip)
  {
    KnownWords(fip) && fip.totalNumParameters < MAX_NUM_PARAMS
  }

  /** What a call that the validator let through has done. */
  ghost predicate Done(env: Environment, fip: FunctionInfo, params: seq<string>, c: Course, r: Outcome, a: Account,
      supply: seq<Handle>, log: seq<Handle>, live: map<Handle, string>,
      logNow: seq<Handle>, liveNow: map<Handle, string>)
    requires FromIgor(fip)
  {
    && (r.NotBuilt? <==> !Buildable(env, fip, params, supply, live.Keys))
    && (if r.NotBuilt? then NothingRun(env, fip, params, r, a, log, live, logNow, liveNow)
        else Settled(env, fip, params, c, r, a, log, logNow, liveNow))
    && (Ordinary(fip) ==>
          if WavesOnlyBefore(Required(fip), GetFirstInputParameterIndex(fip)) then r != NotBuilt(AssertionFailed)
          else r.NotBuilt?)
  }

  lemma {:induction false} BuildableIsAssertFree(env: Environment, fip: FunctionInfo, params: seq<string>,
      supply: seq<Handle>, known: set<Handle>)
    requires FromIgor(fip) && Buildable(env, fip, params, supply, known)
    ensures AssertFree(env, fip, params)
  {
    var types, first := Required(fip), GetFirstInputParameterIndex(fip);
    InputsAreTheTail(fip);
    forall i | first <= i < |types|
      ensures Convertible(env, Classify(types[i]), params[i - first])
    {
      assert Obstacle(env, types[i], params[i - first]) == Ok;
    }
  }

  /**
    Main result: a call the validator has accepted runs into no assertion, neither while the parameters are
    packed nor while values are extracted, if no input has the wave bit; with such an input it never runs.
    A call it has not accepted touches nothing.
   */
  method Process(env: Environment, heap: Memory, found: Lookup, params: seq<string>, c: Course)
    returns (v: Verdict, r: Option<Outcome>, ghost a: Account)
    requires env.Valid() && heap.Valid() && heap.w == env.w && (found.Found? ==> FromIgor(found.fip))
    modifies heap
    ensures Judged(env, found, params, v) && (v == Accepted <==> r.Some?)
    ensures v != Accepted ==> heap.disposed == old(heap.disposed) && heap.live == old(heap.live)
    ensures r.Some? ==>
      Done(env, found.fip, params, c, r.value, a, old(heap.supply), old(heap.disposed), old(heap.live),
        heap.disposed, heap.live)
  {
    r := None;
    a := Account({}, 0, Snapshot([], [], 0, [], [], map[]), []);
    v := CanBeProcessed(env, found, params);
    if v == Accepted {
      var fip := found.fip;
      ReturnTypeKnown(fip.returnType);
      if Ordinary(fip) {
        AcceptanceSuffices(env, fip, params);
      }
      var outcome;
      outcome, a := Call(env, heap, params, fip, c);
      if outcome == NotBuilt(AssertionFailed) {
        AbandonedByAssertion(env, fip, params, AssertionFailed, a.at, a.created, old(heap.live), heap.live);
      }
      if !outcome.NotBuilt? {
        BuildableIsAssertFree(env, fip, params, old(heap.supply), old(heap.live).Keys);
      }
      r := Some(outcome);
    }
  }
}
