/** CallFunctionOperation::Call: who disposes of which string, and what the reply contains. */
module CallFunction {
  import opened Wrappers
  import opened Sequences
  import opened Bytes
  import opened IgorTypes
  import opened Signature
  import opened Marshal
  import opened ParameterHandler

  /** Interrupted stands for an exception while the reply is put together. */
  datatype Outcome = NotBuilt(why: Built) | CallFailed | Aborted | Interrupted
                   | Answer(multi: bool, result: seq<Doc>, passByReference: seq<Doc>)

  /** What a call depends on besides its parameters: the user function, an abort, and exceptions. */
  datatype Course = Course(effect: Effect, aborted: bool, faults: Faults)

  /** Nothing is thrown while an answer is put together. */
  predicate Untroubled(f: Faults, types: seq<Word>, first: nat, multi: bool)
    requires first <= |types|
  {
    && !f.assembly && (if multi then Calm(f, types, 0, first) else !f.returnValue && !f.returnEntry)
    && Calm(f, types, first, |types|)
  }

  /** How a call ends that was made: each outcome has its own condition, and the conditions exclude each other. */
  predicate Follows(c: Course, types: seq<Word>, first: nat, multi: bool, r: Outcome)
    requires first <= |types|
  {
    match r
    case NotBuilt(_) => false
    case CallFailed => !c.effect.ok
    case Aborted => c.effect.ok && c.aborted
    case Interrupted => c.effect.ok && !c.aborted && !Untroubled(c.faults, types, first, multi)
    case Answer(m, _, _) => c.effect.ok && !c.aborted && Untroubled(c.faults, types, first, multi) && m == multi
  }

  /** What the user function left behind, seen before anything is extracted. */
  datatype Snapshot = Snapshot(slots: seq<seq<byte>>, kinds: seq<Param>, first: nat, ret: seq<byte>,
                               returned: seq<Handle>, live: map<Handle, string>)
  {
    predicate Valid() {
      |slots| == |kinds| && first <= |kinds|
    }

    /** This is what the effect leaves, unless Igor's guarantees rule it out. */
    predicate LeftBy(e: Effect, multi: bool, returnType: Word, w: nat) {
      && |ret| == DOUBLE_BYTES && w <= DOUBLE_BYTES && returned == ReturnedIn(multi, returnType, ret, w)
      && TakenPlace(e, kinds, multi, returnType, w, slots, ret, live)
    }

    /** The strings disposed of are `freed` and then all by-reference strings,
        in parameter order; no other string is gone. */
    ghost predicate AllDisposed(freed: seq<Handle>, before: seq<Handle>, disposed: seq<Handle>,
        liveNow: map<Handle, string>)
      requires Valid()
    {
      && disposed == before + freed + Handles(slots, kinds, true, 0, |kinds|)
      && liveNow == Without(live, freed) - HandleSet(slots, kinds, true, 0, |kinds|)
    }

    /** Every slot is as wide as its kind needs, and every string has a handle that is not null. */
    predicate Shaped(w: nat)
      requires Valid()
    {
      && (forall i :: 0 <= i < |kinds| ==> |slots[i]| == SizeInBytes(kinds[i], w))
      && (forall h :: h in live.Keys ==> |h| == w && !AllZero(h))
    }

    /** What Igor guarantees of the handles it leaves. */
    predicate Sound()
      requires Valid()
    {
      && Owned(slots, kinds, true, 0, |kinds|, live) && |returned| <= 1
      && (returned != [] ==> returned[0] in live)
      && (returned != [] ==> forall i :: 0 <= i < |kinds| && Selects(kinds[i], true) ==> slots[i] != returned[0])
    }

    /** The returned string and the by-reference strings are pairwise different and exist. */
    ghost predicate HeldOnce()
      requires Valid()
    {
      Once(Handles(slots, kinds, true, 0, |kinds|) + returned,
        HandleSet(slots, kinds, true, 0, |kinds|) + if returned == [] then {} else {returned[0]}, live)
    }

    /** An answer reports each by-reference parameter once: return values as result, the others as passByReference. */
    ghost predicate Reported(w: nat, single: Option<Param>, r: Outcome)
      requires Valid() && r.Answer?
    {
      && Wide(slots, w) && w <= |ret|
      && r.result == (if single.None? then Docs(slots, kinds, live, w, 0, first) else [DocOf(ret,
          single.value.kind, live, w)])
      && r.passByReference == Docs(slots, kinds, live, w, first, |kinds|)
    }
  }

  /** The handles are distinct, exist, and are those of the set. */
  ghost predicate Once(all: seq<Handle>, held: set<Handle>, live: map<Handle, string>) {
    && (forall i, j :: 0 <= i < j < |all| ==> all[i] != all[j])
    && (forall i :: 0 <= i < |all| ==> all[i] in live && all[i] in held)
    && |held| == |all|
  }

  /** The handles of an owned range are listed once each, and no other handle is listed. */
  lemma {:induction false} OwnedHandlesAreDistinct(slots: seq<seq<byte>>, kinds: seq<Param>, hi: nat,
      live: map<Handle, string>)
    requires hi <= |kinds| == |slots| && Owned(slots, kinds, true, 0, hi, live)
    ensures Once(Handles(slots, kinds, true, 0, hi), HandleSet(slots, kinds, true, 0, hi), live)
  {
    if hi > 0 {
      OwnedHandlesAreDistinct(slots, kinds, hi - 1, live);
      if Selects(kinds[hi - 1], true) && !AllZero(slots[hi - 1]) {
        NotInSet(slots, kinds, true, 0, hi - 1, slots[hi - 1]);
        OnceMore(Handles(slots, kinds, true, 0, hi - 1), HandleSet(slots, kinds, true, 0, hi - 1), live, slots[hi - 1]);
      } else {
        assert HandleSet(slots, kinds, true, 0, hi) == HandleSet(slots, kinds, true, 0, hi - 1);
        assert Handles(slots, kinds, true, 0, hi) == Handles(slots, kinds, true, 0, hi - 1);
      }
    }
  }

  lemma {:induction false} OnceMore(all: seq<Handle>, held: set<Handle>, live: map<Handle, string>, h: Handle)
    requires Once(all, held, live) && h !in held && h in live
    ensures Once(all + [h], held + {h}, live)
  {
  }

  lemma {:induction false} HeldOnceIf(left: Snapshot)
    requires left.Valid() && left.Sound()
    ensures left.HeldOnce()
  {
    var all := Handles(left.slots, left.kinds, true, 0, |left.kinds|);
    var held := HandleSet(left.slots, left.kinds, true, 0, |left.kinds|);
    OwnedHandlesAreDistinct(left.slots, left.kinds, |left.kinds|, left.live);
    if left.returned == [] {
      assert all + left.returned == all;
      assert held + {} == held;
    } else {
      var h := left.returned[0];
      NotInSet(left.slots, left.kinds, true, 0, |left.kinds|, h);
      assert left.returned == [h];
      OnceMore(all, held, left.live, h);
    }
  }

  /** Extracting the return values changes no entry of the other parameters. */
  lemma {:induction false} DocsAfterResult(s0: seq<seq<byte>>, s1: seq<seq<byte>>, kinds: seq<Param>, w: nat, mid: nat,
      l0: map<Handle, string>, freed: seq<Handle>, l1: map<Handle, string>)
    requires mid <= |kinds| == |s0| && Wide(s0, w) && Wide(s1, w) && Owned(s0, kinds, true, 0, |kinds|, l0)
    requires forall i :: 0 <= i < |kinds| && Selects(kinds[i], true) ==> |s0[i]| == w
    requires freed != [] ==> forall i :: 0 <= i < |kinds| && Selects(kinds[i], true) ==> s0[i] != freed[0]
    requires Reading(s0, s1, kinds, 0, mid, Without(l0, freed), l1)
    ensures Docs(s1, kinds, l1, w, mid, |kinds|) == Docs(s0, kinds, l0, w, mid, |kinds|)
  {
    ReturnedFreed(s0, kinds, l0, freed);
    RestOwned(s0, s1, kinds, mid, Without(l0, freed), l1);
    DocsUntouched(s0, s1, kinds, w, mid, |kinds|, Without(l0, freed), l1);
    DocsUntouched(s0, s0, kinds, w, mid, |kinds|, l0, Without(l0, freed));
  }

  /** The part of the call that builds the reply: return values first, then the other by-reference parameters. */
  method Extract(p: Handler, heap: Memory, f: Faults) returns (r: Outcome, ghost stop: nat, ghost freed: seq<Handle>)
    requires p.Valid() && heap.Valid() && heap.w == p.w && p.Owns(heap) && (p.multi || Classify(p.returnType).Some?)
    modifies p.values, p`slots, p`ret, heap
    ensures p.Valid() && heap.Valid() && Wide(old(p.slots), p.w)
    ensures Reading(old(p.slots), p.slots, p.kinds, 0, stop, Without(old(heap.live), freed), heap.live)
    ensures heap.disposed == old(heap.disposed) + freed + Handles(old(p.slots), p.kinds, true, 0, stop)
    ensures freed == if f.returnValue then [] else old(p.ReturnedString())
    ensures if Untroubled(f, p.types, p.FirstInput(), p.multi) then r.Answer? && r.multi == p.multi else r.Interrupted?
    ensures r.Answer? ==>
      && r.result == (if p.multi then Docs(old(p.slots), p.kinds, old(heap.live), p.w, 0, p.FirstInput())
                      else [DocOf(old(p.ret), Classify(p.returnType).value.kind, old(heap.live), p.w)])
      && r.passByReference == Docs(old(p.slots), p.kinds, old(heap.live), p.w, p.FirstInput(), |p.kinds|)
  {
    hide Calm, HandleSet, Docs, DocOf, Classify;
    ghost var s0, l0 := p.slots, heap.live;
    var result;
    result, stop, freed := p.GetReturnValues(heap, f);
    if result.None? {
      return Interrupted, stop, freed;
    }
    ghost var s1, l1, log1, mid := p.slots, heap.live, heap.disposed, stop;
    var passByReference;
    passByReference, stop := p.GetPassByRefInputArray(heap, f);
    ReadingComposes(s0, s1, p.slots, p.kinds, mid, stop, Without(l0, freed), l1, heap.live);
    Reassociate(old(heap.disposed) + freed, Handles(s0, p.kinds, true, 0, mid), Handles(s1, p.kinds, true, mid, stop));
    if passByReference.None? || f.assembly {
      return Interrupted, stop, freed;
    }
    DocsAfterResult(s0, s1, p.kinds, p.w, mid, l0, freed, l1);
    r := Answer(p.multi, result.value, passByReference.value);
  }

  /** The handler's destructor, after an extraction that ended before parameter `stop`. */
  method Finish(p: Handler, heap: Memory, ghost left: Snapshot, ghost freed: seq<Handle>, ghost stop: nat,
      ghost log: seq<Handle>)
    requires p.Valid() && heap.Valid() && heap.w == p.w && left.Valid() && left.kinds == p.kinds
    requires Reading(left.slots, p.slots, p.kinds, 0, stop, Without(left.live, freed), heap.live)
    requires Owned(left.slots, p.kinds, true, 0, |p.kinds|, Without(left.live, freed))
    requires heap.disposed == log + freed + Handles(left.slots, p.kinds, true, 0, stop)
    modifies heap
    ensures left.AllDisposed(freed, log, heap.disposed, heap.live)
  {
    DestructorCompletes(left.slots, p.slots, p.kinds, stop, Without(left.live, freed), heap.live);
    Reassociate(log + freed, Handles(left.slots, p.kinds, true, 0, stop),
      Handles(p.slots, p.kinds, true, 0, |p.kinds|));
    p.Destroy(heap);
  }

  /** The returned string is disposed of when its value is read. */
  function Freed(c: Course, returned: seq<Handle>): seq<Handle> {
    if c.effect.ok && !c.aborted && !c.faults.returnValue then returned else []
  }

  /** The same in terms of what the function has left. */
  method ExtractFrom(p: Handler, heap: Memory, f: Faults, ghost left: Snapshot)
    returns (r: Outcome, ghost stop: nat, ghost freed: seq<Handle>)
    requires p.Valid() && heap.Valid() && heap.w == p.w && p.Owns(heap) && (p.multi || Classify(p.returnType).Some?)
    requires left == Snapshot(p.slots, p.kinds, p.FirstInput(), p.ret, p.ReturnedString(), heap.live)
    modifies p.values, p`slots, p`ret, heap
    ensures p.Valid() && heap.Valid() && left.Valid()
    ensures Reading(left.slots, p.slots, p.kinds, 0, stop, Without(left.live, freed), heap.live)
    ensures heap.disposed == old(heap.disposed) + freed + Handles(left.slots, p.kinds, true, 0, stop)
    ensures freed == if f.returnValue then [] else left.returned
    ensures if Untroubled(f, p.types, p.FirstInput(), p.multi) then r.Answer? && r.multi == p.multi else r.Interrupted?
    ensures r.Answer? ==>
      && left.Reported(p.w, if p.multi then None else Classify(p.returnType), r)
      && |r.result| == if p.multi then p.numReturnValues else 1
  {
    hide Untroubled, Reading;
    r, stop, freed := Extract(p, heap, f);
    if r.Answer? && p.multi {
      DocsOfReferences(left.slots, left.kinds, left.live, p.w, left.first);
    }
  }

  /** The call into Igor; `left` is what the function has left. */
  method Launch(p: Handler, heap: Memory, e: Effect) returns (ok: bool, ghost left: Snapshot)
    requires p.Valid() && heap.Valid() && heap.w == p.w && p.Owns(heap)
    modifies p.values, p`slots, p`ret, heap`live
    ensures p.Valid() && heap.Valid() && p.Owns(heap) && ok == e.ok
    ensures left == Snapshot(p.slots, p.kinds, p.FirstInput(), p.ret, p.ReturnedString(), heap.live)
    ensures left.Valid() && left.Sound() && left.Shaped(p.w) && left.LeftBy(e, p.multi, p.returnType, p.w)
    ensures e.Unchanged? ==> left.slots == old(p.slots) && left.ret == old(p.ret) && left.live == old(heap.live)
  {
    hide TakenPlace;
    ok := p.IgorCall(heap, e);
    left := Snapshot(p.slots, p.kinds, p.FirstInput(), p.ret, p.ReturnedString(), heap.live);
  }

  /** The call into Igor and what is made of its outcome. */
  method Run(p: Handler, heap: Memory, c: Course)
    returns (r: Outcome, ghost left: Snapshot, ghost freed: seq<Handle>, ghost stop: nat)
    requires p.Valid() && heap.Valid() && heap.w == p.w && p.Owns(heap) && (p.multi || Classify(p.returnType).Some?)
    modifies p.values, p`slots, p`ret, heap
    ensures p.Valid() && heap.Valid() && !r.NotBuilt? && p.FirstInput() <= |p.types|
    ensures Follows(c, p.types, p.FirstInput(), p.multi, r)
    ensures left.kinds == p.kinds && left.first == p.FirstInput() && left.Valid() && left.Sound() && left.Shaped(p.w)
    ensures left.LeftBy(c.effect, p.multi, p.returnType, p.w) && freed == Freed(c, left.returned)
    ensures c.effect.Unchanged? ==>
      left.slots == old(p.slots) && left.ret == old(p.ret) && left.live == old(heap.live)
    ensures Reading(left.slots, p.slots, p.kinds, 0, stop, Without(left.live, freed), heap.live)
    ensures heap.disposed == old(heap.disposed) + freed + Handles(left.slots, p.kinds, true, 0, stop)
    ensures r.Answer? ==>
      && left.Reported(p.w, if p.multi then None else Classify(p.returnType), r)
      && |r.result| == if p.multi then p.numReturnValues else 1
  {
    hide Untroubled, Calm, TakenPlace, Owned, Snapshot.Sound, Snapshot.Shaped, Snapshot.LeftBy, Snapshot.Reported;
    var ok;
    ok, left := Launch(p, heap, c.effect);
    freed, stop := [], 0;
    if !ok {
      r := CallFailed;
    } else if c.aborted {
      r := Aborted;
    } else {
      r, stop, freed := ExtractFrom(p, heap, c.faults, left);
    }
  }

  /** From the call into Igor to the end of the handler's life. */
  method RunAndDestroy(p: Handler, heap: Memory, c: Course)
    returns (r: Outcome, ghost left: Snapshot, ghost freed: seq<Handle>)
    requires p.Valid() && heap.Valid() && heap.w == p.w && p.Owns(heap) && (p.multi || Classify(p.returnType).Some?)
    modifies p.values, p`slots, p`ret, heap
    ensures !r.NotBuilt? && p.FirstInput() <= |p.types| && Follows(c, p.types, p.FirstInput(), p.multi, r)
    ensures left.kinds == p.kinds && left.first == p.FirstInput() && left.Valid() && left.Sound() && left.Shaped(p.w)
    ensures left.LeftBy(c.effect, p.multi, p.returnType, p.w)
    ensures c.effect.Unchanged? ==>
      left.slots == old(p.slots) && left.ret == old(p.ret) && left.live == old(heap.live)
    ensures freed == Freed(c, left.returned) && left.AllDisposed(freed, old(heap.disposed), heap.disposed, heap.live)
    ensures freed == [] && left.returned != [] ==> left.returned[0] in heap.live
    ensures r.Answer? ==>
      && left.Reported(p.w, if p.multi then None else Classify(p.returnType), r)
      && |r.result| == if p.multi then p.numReturnValues else 1
  {
    hide Follows, Reading, TakenPlace;
    ghost var stop;
    r, left, freed, stop := Run(p, heap, c);
    if left.returned != [] {
      NotInSet(left.slots, left.kinds, true, 0, |left.kinds|, left.returned[0]);
    }
    ReturnedFreed(left.slots, left.kinds, left.live, freed);
    Finish(p, heap, left, freed, stop, old(heap.disposed));
  }

  /**
    What can be said after a call: the handles the constructor made and the input it failed at, what the user
    function left, and the returned string if it was disposed of.
   */
  datatype Account = Account(created: set<Handle>, at: nat, left: Snapshot, freed: seq<Handle>)

  /** Without packed parameters nothing is disposed of, and the strings made before the failing input stay. */
  predicate NothingRun(env: Environment, fip: FunctionInfo, params: seq<string>, r: Outcome, a: Account,
      log: seq<Handle>, live: map<Handle, string>, logNow: seq<Handle>, liveNow: map<Handle, string>)
    requires FromIgor(fip) && r.NotBuilt?
  {
    !r.why.Ok? && logNow == log && Abandoned(env, fip, params, r.why, a.at, a.created, live, liveNow)
  }

  /** What the user function has left is seen through the function's own signature. */
  predicate Seen(fip: FunctionInfo, left: Snapshot)
    requires FromIgor(fip)
  {
    && |left.kinds| == fip.numRequiredParameters && left.first == GetFirstInputParameterIndex(fip)
    && forall i :: 0 <= i < fip.numRequiredParameters ==> Classify(Required(fip)[i]) == Some(left.kinds[i])
  }

  /** A function that changes nothing leaves the converted inputs. */
  predicate AsPacked(env: Environment, params: seq<string>, e: Effect, left: Snapshot)
    requires left.Valid()
  {
    e.Unchanged? ==>
      && |left.kinds| == left.first + |params|
      && Holds(env, left.slots, left.kinds, params, left.first, |left.kinds|, left.live)
  }

  /**
    Once they are packed the call is made and ends as the course has it. Every by-reference string the function leaves
    is disposed of exactly once, in order, on every path. The returned string is disposed of as well when its
    value is read, hence in every answer; otherwise it stays allocated.
   */
  ghost predicate Settled(env: Environment, fip: FunctionInfo, params: seq<string>, c: Course, r: Outcome, a: Account,
      log: seq<Handle>, logNow: seq<Handle>, liveNow: map<Handle, string>)
    requires FromIgor(fip)
  {
    var multi := UsesMultipleReturnValueSyntax(fip);
    && Follows(c, Required(fip), GetFirstInputParameterIndex(fip), multi, r)
    && a.left.Valid() && Seen(fip, a.left) && a.left.LeftBy(c.effect, multi, fip.returnType, env.w)
    && a.left.Sound() && a.left.Shaped(env.w) && AsPacked(env, params, c.effect, a.left)
    && a.left.HeldOnce() && a.left.AllDisposed(a.freed, log, logNow, liveNow)
    && a.freed == Freed(c, a.left.returned)
    && (a.freed == [] && a.left.returned != [] ==> a.left.returned[0] in liveNow)
    && (r.Answer? ==>
         && a.left.Reported(env.w, if multi then None else Classify(fip.returnType), r)
         && |r.result| == GetNumberOfReturnValues(fip))
  }

  lemma {:induction false} SettledIf(env: Environment, fip: FunctionInfo, params: seq<string>, c: Course, r: Outcome,
      a: Account, log: seq<Handle>, logNow: seq<Handle>, liveNow: map<Handle, string>)
    requires FromIgor(fip)
    requires Follows(c, Required(fip), GetFirstInputParameterIndex(fip), UsesMultipleReturnValueSyntax(fip), r)
    requires a.left.Valid() && a.left.Sound() && a.left.Shaped(env.w) && Seen(fip, a.left)
    requires AsPacked(env, params, c.effect, a.left)
    requires a.left.LeftBy(c.effect, UsesMultipleReturnValueSyntax(fip), fip.returnType, env.w)
    requires a.freed == Freed(c, a.left.returned) && a.left.AllDisposed(a.freed, log, logNow, liveNow)
    requires a.freed == [] && a.left.returned != [] ==> a.left.returned[0] in liveNow
    requires r.Answer? ==>
      && a.left.Reported(env.w, if UsesMultipleReturnValueSyntax(fip) then None else Classify(fip.returnType), r)
      && |r.result| == GetNumberOfReturnValues(fip)
    ensures Settled(env, fip, params, c, r, a, log, logNow, liveNow)
  {
    HeldOnceIf(a.left);
  }

  /**
    Main result: the call is made iff the parameters can be packed; it then ends as its course has it, and all
    strings are accounted for. Otherwise nothing is run.
   */
  method Call(env: Environment, heap: Memory, params: seq<string>, fip: FunctionInfo, c: Course)
    returns (r: Outcome, ghost a: Account)
    requires env.Valid() && heap.Valid() && heap.w == env.w && FromIgor(fip)
    requires UsesMultipleReturnValueSyntax(fip) || Classify(fip.returnType).Some?
    modifies heap
    ensures r.NotBuilt? <==> !Buildable(env, fip, params, old(heap.supply), old(heap.live).Keys)
    ensures r.NotBuilt? ==>
      NothingRun(env, fip, params, r, a, old(heap.disposed), old(heap.live), heap.disposed, heap.live)
    ensures !r.NotBuilt? ==> Settled(env, fip, params, c, r, a, old(heap.disposed), heap.disposed, heap.live)
  {
    hide Buildable, Follows, Settled;
    var p := new Handler(env.w);
    var built; ghost var created, at;
    built, created, at := p.Construct(env, heap, params, fip);
    if !built.Ok? {
      r := NotBuilt(built);
      a := Account(created, at, Snapshot([], [], 0, [], [], map[]), []);
    } else {
      ghost var left, freed;
      r, left, freed := RunAndDestroy(p, heap, c);
      a := Account(created, at, left, freed);
      SettledIf(env, fip, params, c, r, a, old(heap.disposed), heap.disposed, heap.live);
    }
  }

  /** A function without parameters that returns a string. */
  const RETURNS_TEXT: FunctionInfo := FunctionInfo(HSTRING_TYPE, 0, 0, seq(MAX_NUM_PARAMS, _ => 0))

  const NO_FAULTS := Faults({}, {}, false, false, false)

  /** A call that loses the string its function returns: the function was aborted. */
  method LoseReturned(env: Environment, heap: Memory, h: Handle, text: string) returns (r: Outcome)
    requires env.Valid() && heap.Valid() && heap.w == env.w && Usable(h, heap.live.Keys, heap.w)
    modifies heap
    ensures r == Aborted && heap.disposed == old(heap.disposed) && heap.live == old(heap.live)[h := text]
  {
    var effect := Changed(true, [], h + Zeros(DOUBLE_BYTES - env.w), heap.live[h := text]);
    assert effect.ret[..env.w] == h;
    assert Required(RETURNS_TEXT) == [] && IsText(HSTRING_TYPE);
    assert Admissible(effect, [], false, HSTRING_TYPE, env.w);
    assert Buildable(env, RETURNS_TEXT, [], heap.supply, heap.live.Keys);
    hide Snapshot.HeldOnce, Snapshot.Sound, Snapshot.Shaped, AsPacked, Snapshot.Reported, Buildable, Enough;
    ghost var a;
    r, a := Call(env, heap, [], RETURNS_TEXT, Course(effect, true, NO_FAULTS));
    assert a.left.kinds == [] && a.left.live == effect.live && a.freed == [];
    assert HandleSet(a.left.slots, [], true, 0, 0) == {} && Handles(a.left.slots, [], true, 0, 0) == [];
    assert effect.live - {} == effect.live;
  }
}
