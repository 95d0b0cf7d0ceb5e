/** The class CallFunctionParameterHandler and the call that uses it (CallFunctionOperation::Call). */
module ParameterHandler {
  import opened Wrappers
  import opened Sequences
  import opened Bytes
  import opened Layout
  import opened IgorTypes
  import opened Signature
  import opened Marshal

  const INT_MAX: nat := 0x7fff_ffff

  /** How a constructor ends; only the last three depend on what Igor answers. */
  datatype Built = Ok | AssertionFailed | NoMemory | FolderNotFound | PathTooLong

  predicate Convertible(env: Environment, p: Option<Param>, param: string) {
    p.Some? && match p.value.kind
      case NumberKind => env.strtod(param).Some?
      case TextKind => true
      case FolderKind => true
      case WaveKind => false
  }

  /** The assertions on the number of parameters and on the type words hold. */
  predicate SignatureAccepted(fip: FunctionInfo, numParams: nat)
    requires FromIgor(fip)
  {
    && fip.totalNumParameters < MAX_NUM_PARAMS
    && numParams == GetNumberOfInputParameters(fip)
    && (forall i :: 0 <= i < fip.numRequiredParameters ==> Classify(Required(fip)[i]).Some?)
  }

  predicate AllConvertible(env: Environment, types: seq<Word>, first: nat, params: seq<string>) {
    && |types| == first + |params|
    && (forall i :: first <= i < |types| ==> Convertible(env, Classify(types[i]), params[i - first]))
  }

  /** No assertion on a count, a type word or a number can fail while the parameters are packed. */
  predicate AssertFree(env: Environment, fip: FunctionInfo, params: seq<string>)
    requires FromIgor(fip)
  {
    && SignatureAccepted(fip, |params|)
    && AllConvertible(env, Required(fip), GetFirstInputParameterIndex(fip), params)
  }

  /**
    Where exceptions are thrown while an answer is put together: at the values of these parameters, at their
    entries, at the single return value or its entry, or when the parts are assembled.
   */
  datatype Faults = Faults(values: set<nat>, entries: set<nat>, returnValue: bool, returnEntry: bool, assembly: bool)

  /** Nothing is thrown at the by-reference parameters lo..hi. */
  predicate Calm(f: Faults, types: seq<Word>, lo: nat, hi: nat)
    requires hi <= |types|
  {
    forall i :: lo <= i < hi && IsBitSet(types[i], FV_REF_TYPE) ==> i !in f.values && i !in f.entries
  }

  /** An exception at parameter `i`; the work ends before it or, when its entry cannot be added, behind it. */
  predicate OneThrown(f: Faults, i: nat, stop: nat) {
    if i in f.values then stop == i else i in f.entries && stop == i + 1
  }

  /** The first exception is that at the value of parameter `stop`, or at the entry of the one before. */
  predicate ThrownAt(f: Faults, types: seq<Word>, lo: nat, hi: nat, stop: nat)
    requires hi <= |types|
  {
    || (lo <= stop < hi && IsBitSet(types[stop], FV_REF_TYPE) && stop in f.values && Calm(f, types, lo, stop))
    || (lo < stop <= hi && IsBitSet(types[stop - 1], FV_REF_TYPE) && stop - 1 !in f.values && stop - 1 in f.entries &&
        Calm(f, types, lo, stop - 1))
  }

  /** The end of the range below `last` among `n` parameters. */
  function Upper(n: nat, last: nat): nat {
    if last < n then last else n
  }

  /**
    What the user function does: nothing to any storage or string, or it leaves the given storage of parameters and
    return value, and the given strings. `ok` is Igor's return code.
   */
  datatype Effect =
    | Unchanged(ok: bool)
    | Changed(ok: bool, slots: seq<seq<byte>>, ret: seq<byte>, live: map<Handle, string>)

  /** What keeps a parameter from being converted, if it is not lack of memory. */
  function Obstacle(env: Environment, t: Word, param: string): Built {
    if Classify(t).None? then AssertionFailed
    else match Classify(t).value.kind
      case NumberKind => if env.strtod(param).Some? then Ok else AssertionFailed
      case TextKind => Ok
      case FolderKind =>
        if TextBytes(param) >= env.maxCmdLen then PathTooLong
        else if env.namedFolder(param).None? then FolderNotFound
        else Ok
      case WaveKind => AssertionFailed
  }

  predicate IsText(t: Word) {
    Classify(t).Some? && Classify(t).value.kind.TextKind?
  }

  /** The number of strings among the words lo..hi. */
  function Texts(types: seq<Word>, lo: nat, hi: nat): nat
    requires hi <= |types|
    decreases hi
  {
    if hi <= lo then 0 else Texts(types, lo, hi - 1) + if IsText(types[hi - 1]) then 1 else 0
  }

  /** Nothing keeps the inputs from index `first` up to `upTo` from being converted. */
  predicate Converted(env: Environment, types: seq<Word>, first: nat, params: seq<string>, upTo: nat)
    requires upTo <= |types| == first + |params|
  {
    forall i :: first <= i < upTo ==> Obstacle(env, types[i], params[i - first]) == Ok
  }

  /** The inputs before the one of index `at` were converted, and that one failed because of `why`. */
  predicate FailsAt(env: Environment, types: seq<Word>, first: nat, params: seq<string>, why: Built, at: nat) {
    && first <= at < |types| == first + |params|
    && Converted(env, types, first, params, at)
    && (if why.NoMemory? then IsText(types[at]) else !why.Ok? && Obstacle(env, types[at], params[at - first]) == why)
  }

  /** After a success all inputs up to `upTo` are converted, otherwise that one failed. */
  predicate Progress(env: Environment, types: seq<Word>, first: nat, params: seq<string>, r: Built, upTo: nat) {
    match r
    case Ok => upTo <= |types| == first + |params| && Converted(env, types, first, params, upTo)
    case _ => FailsAt(env, types, first, params, r, upTo)
  }

  lemma {:induction false} ProgressAdvances(env: Environment, types: seq<Word>, first: nat, params: seq<string>,
      i: nat, r: Built)
    requires Progress(env, types, first, params, Ok, i) && i < |types|
    requires if i < first then r.Ok?
             else r == Obstacle(env, types[i], params[i - first]) || (r == NoMemory && IsText(types[i]))
    ensures Progress(env, types, first, params, r, if r.Ok? then i + 1 else i)
  {
  }

  /**
    What an exception in the constructor leaves behind: nothing if the signature was not accepted; otherwise
    the strings among the inputs before the one that failed.
   */
  predicate Abandoned(env: Environment, fip: FunctionInfo, params: seq<string>, why: Built, at: nat,
      created: set<Handle>, start: map<Handle, string>, live: map<Handle, string>)
    requires FromIgor(fip)
  {
    && Created(created, start, live)
    && if !SignatureAccepted(fip, |params|) then why.AssertionFailed? && created == {}
       else
         var types, first := Required(fip), GetFirstInputParameterIndex(fip);
         FailsAt(env, types, first, params, why, at) && |created| == Texts(types, first, at)
  }

  /** An assertion in the constructor is one that the input can trigger; all other failures depend on Igor. */
  lemma {:induction false} AbandonedByAssertion(env: Environment, fip: FunctionInfo, params: seq<string>,
      why: Built, at: nat,
      created: set<Handle>, start: map<Handle, string>, live: map<Handle, string>)
    requires FromIgor(fip) && Abandoned(env, fip, params, why, at, created, start, live) && why.AssertionFailed?
    ensures !AssertFree(env, fip, params)
  {
    if SignatureAccepted(fip, |params|) {
      var types, first := Required(fip), GetFirstInputParameterIndex(fip);
      assert !Convertible(env, Classify(types[at]), params[at - first]);
    }
  }

  /** Igor has memory for each of the strings from index `i` on. */
  predicate Enough(types: seq<Word>, i: nat, supply: seq<Handle>, known: set<Handle>, w: nat)
    decreases |types| - i
  {
    i >= |types| ||
    if IsText(types[i])
    then Usable(Offered(supply), known, w) && Enough(types, i + 1, Left(supply), known + {Offered(supply)}, w)
    else Enough(types, i + 1, supply, known, w)
  }

  /** There is as much memory left as it takes, iff there was as much at first. */
  predicate Supplied(types: seq<Word>, first: nat, r: Built, upTo: nat, w: nat,
      supply: seq<Handle>, known: set<Handle>, supplyNow: seq<Handle>, knownNow: set<Handle>)
  {
    match r
    case Ok =>
      Enough(types, if upTo < first then first else upTo, supplyNow, knownNow, w) ==
      Enough(types, first, supply, known, w)
    case NoMemory => !Enough(types, first, supply, known, w)
    case _ => true
  }

  lemma {:induction false} SuppliedAdvances(types: seq<Word>, first: nat, r: Built, i: nat, w: nat,
      s0: seq<Handle>, k0: set<Handle>, s1: seq<Handle>, k1: set<Handle>, s2: seq<Handle>, k2: set<Handle>)
    requires Supplied(types, first, Ok, i, w, s0, k0, s1, k1) && i < |types|
    requires if i < first then r.Ok? && s2 == s1 && k2 == k1 else OneSupplied(types[i], r, w, s1, k1, s2, k2)
    ensures Supplied(types, first, r, if r.Ok? then i + 1 else i, w, s0, k0, s2, k2)
  {
  }

  /** What the conversion of one input does to the supply. */
  predicate OneSupplied(t: Word, r: Built, w: nat, s1: seq<Handle>, k1: set<Handle>, s2: seq<Handle>, k2: set<Handle>) {
    && (r.NoMemory? ==> IsText(t) && !Usable(Offered(s1), k1, w))
    && (r.Ok? && IsText(t) ==> Usable(Offered(s1), k1, w) && s2 == Left(s1) && k2 == k1 + {Offered(s1)})
    && (r.Ok? && !IsText(t) ==> s2 == s1 && k2 == k1)
  }

  /** The exact condition for the constructor to succeed. */
  predicate Buildable(env: Environment, fip: FunctionInfo, params: seq<string>, supply: seq<Handle>, known: set<Handle>)
    requires FromIgor(fip)
  {
    && SignatureAccepted(fip, |params|)
    && Converted(env, Required(fip), GetFirstInputParameterIndex(fip), params, fip.numRequiredParameters)
    && Enough(Required(fip), GetFirstInputParameterIndex(fip), supply, known, env.w)
  }

  /** How the constructor ends, given the strings that existed and Igor's supply before it. */
  predicate Ends(env: Environment, fip: FunctionInfo, params: seq<string>, r: Built, at: nat,
      created: set<Handle>, start: map<Handle, string>, supply: seq<Handle>, live: map<Handle, string>)
    requires FromIgor(fip)
  {
    match r
    case Ok => Buildable(env, fip, params, supply, start.Keys) && Created(created, start, live)
    case _ =>
      && !Buildable(env, fip, params, supply, start.Keys)
      && Abandoned(env, fip, params, r, at, created, start, live)
      && (r.NoMemory? ==> !Enough(Required(fip), GetFirstInputParameterIndex(fip), supply, start.Keys, env.w))
  }

  lemma {:induction false} EndsUnprepared(env: Environment, fip: FunctionInfo, params: seq<string>,
      start: map<Handle, string>, supply: seq<Handle>)
    requires FromIgor(fip) && !SignatureAccepted(fip, |params|)
    ensures Ends(env, fip, params, AssertionFailed, 0, {}, start, supply, start)
  {
  }

  lemma {:induction false} BuiltIff(env: Environment, fip: FunctionInfo, params: seq<string>, r: Built, at: nat,
      supply: seq<Handle>, known: set<Handle>, supplyNow: seq<Handle>, knownNow: set<Handle>)
    requires FromIgor(fip) && SignatureAccepted(fip, |params|)
    requires Progress(env, Required(fip), GetFirstInputParameterIndex(fip), params, r, at)
    requires r.Ok? ==> at == fip.numRequiredParameters
    requires Supplied(Required(fip), GetFirstInputParameterIndex(fip), r, at, env.w, supply, known, supplyNow, knownNow)
    ensures r.Ok? <==> Buildable(env, fip, params, supply, known)
  {
  }

  lemma {:induction false} TextsIff(types: seq<Word>, lo: nat, hi: nat)
    requires hi <= |types|
    ensures Texts(types, lo, hi) > 0 <==> exists i :: lo <= i < hi && IsText(types[i])
    decreases hi
  {
    if lo < hi {
      TextsIff(types, lo, hi - 1);
    }
  }

  /** Main result: an exception in the constructor leaves a string allocated iff one precedes the failing input. */
  lemma {:induction false} LeaksIff(env: Environment, fip: FunctionInfo, params: seq<string>, why: Built, at: nat,
      created: set<Handle>, start: map<Handle, string>, live: map<Handle, string>)
    requires FromIgor(fip) && Abandoned(env, fip, params, why, at, created, start, live)
    ensures live != start <==>
      && SignatureAccepted(fip, |params|)
      && exists i :: GetFirstInputParameterIndex(fip) <= i < at && IsText(Required(fip)[i])
  {
    if SignatureAccepted(fip, |params|) {
      TextsIff(Required(fip), GetFirstInputParameterIndex(fip), at);
    }
    if created == {} {
      assert live - created == live;
    } else {
      var h :| h in created;
      assert h in live && h !in start;
    }
  }

  /** A slot holds the converted input parameter. */
  predicate Packed(env: Environment, slot: seq<byte>, k: Kind, param: string, live: map<Handle, string>) {
    match k
    case NumberKind => env.strtod(param) == Some(slot)
    case TextKind => !AllZero(slot) && slot in live && live[slot] == param
    case FolderKind => env.namedFolder(param) == Some(slot)
    case WaveKind => false
  }

  method ConvertStringToIgorTypeUnion(env: Environment, heap: Memory, param: string, paramType: Word)
    returns (r: Built, u: seq<byte>)
    requires env.Valid() && heap.Valid() && heap.w == env.w
    modifies heap`live, heap`supply
    ensures heap.Valid() && |u| == DOUBLE_BYTES
    ensures r == Obstacle(env, paramType, param) || (r == NoMemory && IsText(paramType))
    ensures OneSupplied(paramType, r, env.w, old(heap.supply), old(heap.live).Keys, heap.supply, heap.live.Keys)
    ensures r.Ok? ==>
      var p := Classify(paramType).value;
      var bytes := u[..SizeInBytes(p, env.w)];
      && Packed(env, bytes, p.kind, param, heap.live)
      && (p.kind.TextKind? ==> bytes !in old(heap.live) && heap.live == old(heap.live)[bytes := param])
      && (!p.kind.TextKind? ==> heap.live == old(heap.live))
    ensures !r.Ok? ==> heap.live == old(heap.live)
  {
    var igorType := ClearBit(paramType, FV_REF_TYPE);
    u := Zeros(DOUBLE_BYTES);
    if igorType == NT_FP64 {
      var number := env.strtod(param);
      if number.None? {
        return AssertionFailed, u;
      }
      u := number.value;
      assert u[..DOUBLE_BYTES] == u;
    } else if igorType == HSTRING_TYPE {
      var h := heap.NewHandle(param);
      if AllZero(h) {
        return NoMemory, u;
      }
      u := h + u[heap.w..];
      assert u[..env.w] == h;
    } else if igorType == DATAFOLDER_TYPE {
      if TextBytes(param) >= env.maxCmdLen {
        return PathTooLong, u;
      }
      var folder := env.namedFolder(param);
      if folder.None? {
        return FolderNotFound, u;
      }
      u := folder.value + u[heap.w..];
      assert u[..env.w] == folder.value;
    } else {
      return AssertionFailed, u;
    }
    r := Ok;
  }

  /**
    Turns the union at some memory location into a JSON entry. `after` is what the location holds
    then: the handle of a string, of a data folder and of a free wave is released and nulled. None means that
    an exception left everything as it was.
   */
  method ExtractFromUnion(heap: Memory, union: seq<byte>, igorType: Word, throws: bool)
    returns (r: Option<Doc>, after: seq<byte>)
    requires heap.Valid() && heap.w <= |union| && Classify(igorType).Some?
    requires Classify(igorType).value.kind.TextKind? ==>
        AllZero(HandleIn(union, heap.w)) || HandleIn(union, heap.w) in heap.live
    modifies heap
    ensures heap.Valid() && |after| == |union| && (r.None? <==> throws)
    ensures r.Some? ==> r.value == DocOf(union, Classify(igorType).value.kind, old(heap.live), heap.w)
    ensures after == if r.None? then union else Extracted(union, Classify(igorType).value.kind, heap.w, heap.freeWaves)
    ensures r.Some? ==> Described(r.value, ClearBit(igorType, FV_REF_TYPE), union, old(heap.live), heap.w)
    ensures r.Some? && Classify(igorType).value.kind.FolderKind? ==> after == Zeros(heap.w) + union[heap.w..]
    ensures r.Some? && Classify(igorType).value.kind.WaveKind? ==>
      after == if HandleIn(union, heap.w) in heap.freeWaves then Zeros(heap.w) + union[heap.w..] else union
    ensures r.Some? && Classify(igorType).value.kind.TextKind? ==>
      && AllZero(HandleIn(after, heap.w))
      && heap.disposed == old(heap.disposed) + NonNull(HandleIn(union, heap.w))
      && heap.live == old(heap.live) - {HandleIn(union, heap.w)}
    ensures r.None? || !Classify(igorType).value.kind.TextKind? ==>
      heap.live == old(heap.live) && heap.disposed == old(heap.disposed)
  {
    var t := ClearBit(igorType, FV_REF_TYPE);
    after := union;
    if throws {
      return None, after;
    }
    if t == NT_FP64 {
      return Some(Doc(Number(union), "variable")), after;
    }
    var h := HandleIn(union, heap.w);
    var nulled := Zeros(heap.w) + union[heap.w..];
    assert HandleIn(nulled, heap.w) == Zeros(heap.w);
    if t == HSTRING_TYPE {
      var text := heap.GetStringFromHandle(h);
      heap.Dispose(h);
      return Some(Doc(Text(text), "string")), nulled;
    }
    assert AllZero(h) ==> nulled == union;
    if t == DATAFOLDER_TYPE {
      if !AllZero(h) {
        after := nulled; // ReleaseDataFolder
      }
      return Some(Doc(Folder(h), "dfref")), after;
    }
    if !AllZero(h) && h in heap.freeWaves {
      after := nulled; // ReleaseWave
    }
    r := Some(Doc(WaveRef(h), "wave"));
  }

  // ---- statements about the slots, independent of how they lie in memory ----

  /** Slots hold the inputs from index `first` up to `upTo`; the others are zero. */
  predicate Holds(env: Environment, slots: seq<seq<byte>>, kinds: seq<Param>, params: seq<string>,
      first: nat, upTo: nat, live: map<Handle, string>)
    requires first <= upTo <= |kinds| == |slots| && upTo - first <= |params|
  {
    && (forall i :: first <= i < upTo ==> Packed(env, slots[i], kinds[i].kind, params[i - first], live))
    && (forall i :: 0 <= i < |kinds| && !(first <= i < upTo) ==> AllZero(slots[i]))
  }

  lemma {:induction false} HoldsOneMore(env: Environment, slots: seq<seq<byte>>, bytes: seq<byte>,
      kinds: seq<Param>, params: seq<string>,
      first: nat, i: nat, live: map<Handle, string>, live': map<Handle, string>)
    requires first <= i < |kinds| == |slots| && i - first < |params|
    requires Holds(env, slots, kinds, params, first, i, live)
    requires Packed(env, bytes, kinds[i].kind, params[i - first], live')
    requires forall h :: h in live ==> h in live' && live'[h] == live[h]
    ensures Holds(env, slots[i := bytes], kinds, params, first, i + 1, live')
  {
    forall j | first <= j < i
      ensures Packed(env, slots[j], kinds[j].kind, params[j - first], live')
    {
      assert Packed(env, slots[j], kinds[j].kind, params[j - first], live);
    }
  }

  /** The handles allocated since `start`: new, still there, and the only difference. */
  predicate Created(created: set<Handle>, start: map<Handle, string>, live: map<Handle, string>) {
    created <= live.Keys && created !! start.Keys && live - created == start
  }

  /** What the packing loop has achieved before turn `i`. */
  predicate Packing(env: Environment, slots: seq<seq<byte>>, kinds: seq<Param>, params: seq<string>, first: nat, i: nat,
      created: set<Handle>, start: map<Handle, string>, live: map<Handle, string>)
  {
    && i <= |kinds| == |slots| == first + |params|
    && Holds(env, slots, kinds, params, first, if i < first then first else i, live)
    && created == HandleSet(slots, kinds, false, 0, i)
    && Owned(slots, kinds, false, 0, i, live)
    && Created(created, start, live)
  }

  lemma {:induction false} PackingStarts(env: Environment, types: seq<Word>, slots: seq<seq<byte>>, kinds: seq<Param>,
      params: seq<string>, first: nat, start: map<Handle, string>, supply: seq<Handle>)
    requires |types| == |kinds| == |slots| == first + |params| && forall i :: 0 <= i < |slots| ==> AllZero(slots[i])
    ensures PackStage(env, types, slots, kinds, params, first, Ok, 0, {}, start, supply, start, supply)
  {
  }

  lemma {:induction false} PackingAdvances(env: Environment, slots: seq<seq<byte>>, bytes: seq<byte>,
      kinds: seq<Param>, params: seq<string>,
      first: nat, i: nat, created: set<Handle>, start: map<Handle, string>,
      live: map<Handle, string>, live': map<Handle, string>) returns (more: set<Handle>)
    requires Packing(env, slots, kinds, params, first, i, created, start, live) && first <= i < |kinds|
    requires Packed(env, bytes, kinds[i].kind, params[i - first], live')
    requires kinds[i].kind.TextKind? ==> bytes !in live && live' == live[bytes := params[i - first]]
    requires !kinds[i].kind.TextKind? ==> live' == live
    ensures Packing(env, slots[i := bytes], kinds, params, first, i + 1, more, start, live')
  {
    HoldsOneMore(env, slots, bytes, kinds, params, first, i, live, live');
    SetEqual(slots, slots[i := bytes], kinds, false, 0, i);
    more := HandleSet(slots[i := bytes], kinds, false, 0, i + 1);
    if kinds[i].kind.TextKind? {
      assert more == created + {bytes};
      assert bytes !in start by {
        assert start == live - created;
      }
    }
  }

  /** What the loop has achieved when it goes on with turn `i`, or has failed there. */
  predicate PackStage(env: Environment, types: seq<Word>, slots: seq<seq<byte>>, kinds: seq<Param>,
      params: seq<string>, first: nat, r: Built, i: nat, created: set<Handle>,
      start: map<Handle, string>, supply: seq<Handle>, live: map<Handle, string>, supplyNow: seq<Handle>)
  {
    match r
    case Ok =>
      && i <= |types|
      && Packing(env, slots, kinds, params, first, i, created, start, live)
      && Progress(env, types, first, params, Ok, i)
      && Supplied(types, first, Ok, i, env.w, supply, start.Keys, supplyNow, live.Keys)
    case _ =>
      && first <= i < |types|
      && Packing(env, slots, kinds, params, first, i, created, start, live)
      && Progress(env, types, first, params, r, i)
      && Supplied(types, first, r, i, env.w, supply, start.Keys, supplyNow, live.Keys)
  }

  lemma {:induction false} PackingSkips(env: Environment, slots: seq<seq<byte>>, kinds: seq<Param>, params: seq<string>,
      first: nat, i: nat, created: set<Handle>, start: map<Handle, string>, live: map<Handle, string>)
    requires Packing(env, slots, kinds, params, first, i, created, start, live) && i < first
    ensures Packing(env, slots, kinds, params, first, i + 1, created, start, live)
  {
    SetEmpty(slots, kinds, false, 0, i);
    SetEmpty(slots, kinds, false, 0, i + 1);
  }

  /** Each string input is in a handle of its own. */
  lemma {:induction false} OneHandlePerText(slots: seq<seq<byte>>, kinds: seq<Param>, types: seq<Word>,
      first: nat, i: nat, live: map<Handle, string>)
    requires i <= |kinds| == |slots| == |types| && Owned(slots, kinds, false, 0, i, live)
    requires forall j :: 0 <= j < i ==> Classify(types[j]) == Some(kinds[j])
    requires forall j :: 0 <= j < i && kinds[j].kind.TextKind? ==> (AllZero(slots[j]) <==> j < first)
    ensures |HandleSet(slots, kinds, false, 0, i)| == Texts(types, first, i)
    decreases i
  {
    if i > 0 {
      OneHandlePerText(slots, kinds, types, first, i - 1, live);
      assert Classify(types[i - 1]) == Some(kinds[i - 1]);
      if kinds[i - 1].kind.TextKind? && i > first {
        NotInSet(slots, kinds, false, 0, i - 1, slots[i - 1]);
      } else if i <= first {
        assert Texts(types, first, i - 1) == 0 == Texts(types, first, i);
      }
    }
  }

  /** As many handles were allocated as there are strings among the inputs packed so far. */
  lemma {:induction false} PackingCount(env: Environment, slots: seq<seq<byte>>, kinds: seq<Param>,
      types: seq<Word>, params: seq<string>,
      first: nat, i: nat, created: set<Handle>, start: map<Handle, string>, live: map<Handle, string>)
    requires Packing(env, slots, kinds, params, first, i, created, start, live) && |types| == |kinds| && first <= i
    requires forall j :: 0 <= j < |types| ==> Classify(types[j]) == Some(kinds[j])
    ensures |created| == Texts(types, first, i)
  {
    forall j | 0 <= j < i && kinds[j].kind.TextKind?
      ensures AllZero(slots[j]) <==> j < first
    {
      if first <= j {
        assert Packed(env, slots[j], kinds[j].kind, params[j - first], live);
      }
    }
    OneHandlePerText(slots, kinds, types, first, i, live);
  }

  lemma {:induction false} PackedAll(env: Environment, slots: seq<seq<byte>>, kinds: seq<Param>,
      types: seq<Word>, params: seq<string>,
      first: nat, created: set<Handle>, start: map<Handle, string>, live: map<Handle, string>)
    requires |types| == |kinds| && forall i :: 0 <= i < |types| ==> Classify(types[i]) == Some(kinds[i])
    requires Packing(env, slots, kinds, params, first, |kinds|, created, start, live)
    ensures AllConvertible(env, types, first, params) && Owned(slots, kinds, true, 0, |kinds|, live)
    ensures Holds(env, slots, kinds, params, first, |kinds|, live)
  {
    forall i | first <= i < |types|
      ensures Convertible(env, Classify(types[i]), params[i - first])
    {
      assert Packed(env, slots[i], kinds[i].kind, params[i - first], live);
    }
  }

  /** What an extraction of the by-reference parameters from index `first` has done before turn `i`. */
  predicate Reading(slots: seq<seq<byte>>, now: seq<seq<byte>>, kinds: seq<Param>, first: nat, i: nat,
      live: map<Handle, string>, liveNow: map<Handle, string>)
  {
    && i <= |kinds| == |slots| == |now|
    && liveNow == live - HandleSet(slots, kinds, true, first, i)
    && (forall j :: 0 <= j < |kinds| ==> |now[j]| == |slots[j]|)
    && (forall j :: 0 <= j < |kinds| && !(first <= j < i && kinds[j].ref) ==> now[j] == slots[j])
    && (forall j :: first <= j < i && Selects(kinds[j], true) ==> AllZero(now[j]))
  }

  /** The same together with the entries produced and the handles disposed of so far. */
  predicate ReadSoFar(slots: seq<seq<byte>>, now: seq<seq<byte>>, kinds: seq<Param>, first: nat, i: nat,
      live: map<Handle, string>, liveNow: map<Handle, string>, w: nat, elems: seq<Doc>, log: seq<Handle>)
  {
    && Reading(slots, now, kinds, first, i, live, liveNow) && Wide(slots, w)
    && elems == Docs(slots, kinds, live, w, first, i)
    && log == Handles(slots, kinds, true, first, i)
  }

  /** The entries and the disposed handles of an extraction that goes on, or was ended by an exception. */
  datatype Yield = Going(elems: seq<Doc>, log: seq<Handle>) | Threw(elems: seq<Doc>, log: seq<Handle>)

  function YieldOf(threw: bool, elems: seq<Doc>, log: seq<Handle>): Yield {
    if threw then Threw(elems, log) else Going(elems, log)
  }

  /** How far the extraction of the parameters first..hi has come. */
  predicate Stage(f: Faults, types: seq<Word>, slots: seq<seq<byte>>, now: seq<seq<byte>>, kinds: seq<Param>,
      first: nat, hi: nat, stop: nat, live: map<Handle, string>, liveNow: map<Handle, string>, w: nat, got: Yield)
    requires hi <= |types|
  {
    match got
    case Going(elems, log) =>
      stop <= hi && Calm(f, types, first, stop) &&
      ReadSoFar(slots, now, kinds, first, stop, live, liveNow, w, elems, log)
    case Threw(elems, log) =>
      first <= stop <= hi && ThrownAt(f, types, first, hi, stop) &&
      ReadSoFar(slots, now, kinds, first, stop, live, liveNow, w, elems, log)
  }

  lemma {:induction false} StageStarts(f: Faults, types: seq<Word>, slots: seq<seq<byte>>, kinds: seq<Param>,
      first: nat, hi: nat, live: map<Handle, string>, w: nat)
    requires hi <= |types| == |kinds| == |slots| && Wide(slots, w)
    ensures Stage(f, types, slots, slots, kinds, first, hi, 0, live, live, w, Going([], []))
  {
  }

  lemma {:induction false} NextStage(f: Faults, types: seq<Word>, slots: seq<seq<byte>>, now: seq<seq<byte>>,
      next: seq<seq<byte>>, kinds: seq<Param>, first: nat, hi: nat, i: nat, threw: bool, stop: nat,
      live: map<Handle, string>, liveNow: map<Handle, string>, liveNext: map<Handle, string>, w: nat,
      elems: seq<Doc>, log: seq<Handle>, elems': seq<Doc>, log': seq<Handle>)
    requires i < hi <= |types|
    requires Stage(f, types, slots, now, kinds, first, hi, i, live, liveNow, w, Going(elems, log))
    requires ReadSoFar(slots, next, kinds, first, stop, live, liveNext, w, elems', log')
    requires if threw then i >= first && IsBitSet(types[i], FV_REF_TYPE) && OneThrown(f, i, stop)
             else stop == i + 1 && (i >= first ==> Calm(f, types, i, i + 1))
    ensures Stage(f, types, slots, next, kinds, first, hi, stop, live, liveNext, w, YieldOf(threw, elems', log'))
  {
  }

  lemma {:induction false} ReadSkips(slots: seq<seq<byte>>, now: seq<seq<byte>>, kinds: seq<Param>, first: nat, i: nat,
      live: map<Handle, string>, liveNow: map<Handle, string>, w: nat, elems: seq<Doc>, log: seq<Handle>)
    requires ReadSoFar(slots, now, kinds, first, i, live, liveNow, w, elems, log)
    requires i < |kinds| && (i < first || !kinds[i].ref)
    ensures ReadSoFar(slots, now, kinds, first, i + 1, live, liveNow, w, elems, log)
  {
  }

  /** The null handle is not in memory. */
  predicate NoNull(live: map<Handle, string>) {
    forall h {:trigger h in live} :: h in live ==> !AllZero(h)
  }

  /** The entry for a slot does not depend on when it was extracted. */
  lemma {:induction false} SameDoc(slot: seq<byte>, k: Kind, live: map<Handle, string>, liveNow: map<Handle, string>,
      w: nat)
    requires w <= |slot| && (k.NumberKind? || |slot| == w)
    requires k.TextKind? ==> Content(live, slot) == Content(liveNow, slot)
    ensures DocOf(slot, k, live, w) == DocOf(slot, k, liveNow, w)
  {
    assert !k.NumberKind? ==> HandleIn(slot, w) == slot;
  }

  lemma {:induction false} ReadAdvances(slots: seq<seq<byte>>, now: seq<seq<byte>>, kinds: seq<Param>,
      first: nat, i: nat, hi: nat,
      live: map<Handle, string>, liveNow: map<Handle, string>, w: nat, elems: seq<Doc>, log: seq<Handle>,
      doc: Doc, freed: seq<Handle>, after: seq<byte>, liveAfter: map<Handle, string>)
    requires ReadSoFar(slots, now, kinds, first, i, live, liveNow, w, elems, log)
    requires first <= i < hi <= |kinds| && kinds[i].ref && |after| == |now[i]| == SizeInBytes(kinds[i], w)
    requires Owned(slots, kinds, true, first, hi, live)
    requires NoNull(live)
    requires doc == DocOf(now[i], kinds[i].kind, liveNow, w)
    requires if kinds[i].kind.TextKind?
             then AllZero(after) && liveAfter == liveNow - {now[i]} && freed == NonNull(now[i])
             else liveAfter == liveNow && freed == []
    ensures ReadSoFar(slots, now[i := after], kinds, first, i + 1, live, liveAfter, w, elems + [doc], log + freed)
  {
    if kinds[i].kind.TextKind? {
      StillOwned(slots, now, kinds, first, i, hi, live, liveNow);
    }
    SameDoc(slots[i], kinds[i].kind, live, liveNow, w);
    assert HandleSet(slots, kinds, true, first, i + 1) ==
           HandleSet(slots, kinds, true, first, i) + if kinds[i].kind.TextKind? &&
               !AllZero(slots[i]) then {slots[i]} else {};
    assert liveAfter == live - HandleSet(slots, kinds, true, first, i + 1);
  }

  lemma {:induction false} StillOwned(slots: seq<seq<byte>>, now: seq<seq<byte>>, kinds: seq<Param>,
      first: nat, i: nat, hi: nat,
      live: map<Handle, string>, liveNow: map<Handle, string>)
    requires Reading(slots, now, kinds, first, i, live, liveNow) && first <= i < hi <= |kinds|
    requires Owned(slots, kinds, true, first, hi, live) && Selects(kinds[i], true)
    ensures AllZero(now[i]) || (now[i] in liveNow && liveNow[now[i]] == live[now[i]])
  {
    if !AllZero(slots[i]) {
      NotInSet(slots, kinds, true, first, i, slots[i]);
    }
  }

  /** Two extractions, the second starting where the first one ended, are one. */
  lemma {:induction false} ReadingComposes(s0: seq<seq<byte>>, s1: seq<seq<byte>>, s2: seq<seq<byte>>,
      kinds: seq<Param>, mid: nat, stop: nat,
      l0: map<Handle, string>, l1: map<Handle, string>, l2: map<Handle, string>)
    requires Reading(s0, s1, kinds, 0, mid, l0, l1) && Reading(s1, s2, kinds, mid, stop, l1, l2) && mid <= stop
    ensures Reading(s0, s2, kinds, 0, stop, l0, l2)
    ensures Handles(s0, kinds, true, 0, mid) + Handles(s1, kinds, true, mid, stop) == Handles(s0, kinds, true, 0, stop)
  {
    HandlesEqual(s0, s1, kinds, true, mid, stop);
    HandlesSplit(s0, kinds, true, 0, mid, stop);
    SetEqual(s0, s1, kinds, true, mid, stop);
    SetSplit(s0, kinds, true, 0, mid, stop);
  }

  function Without(live: map<Handle, string>, freed: seq<Handle>): map<Handle, string> {
    if freed == [] then live else live - {freed[0]}
  }

  /** Disposing of the returned string does not touch the parameters. */
  lemma {:induction false} ReturnedFreed(slots: seq<seq<byte>>, kinds: seq<Param>, live: map<Handle, string>,
      freed: seq<Handle>)
    requires |kinds| == |slots| && Owned(slots, kinds, true, 0, |kinds|, live)
    requires freed != [] ==> forall i :: 0 <= i < |kinds| && Selects(kinds[i], true) ==> slots[i] != freed[0]
    ensures Owned(slots, kinds, true, 0, |kinds|, Without(live, freed))
    ensures Reading(slots, slots, kinds, 0, 0, Without(live, freed), Without(live, freed))
  {
    assert HandleSet(slots, kinds, true, 0, 0) == {};
  }

  lemma {:induction false} WholeRange(slots: seq<seq<byte>>, kinds: seq<Param>, live: map<Handle, string>, hi: nat)
    requires hi <= |kinds| == |slots| && Owned(slots, kinds, true, 0, |kinds|, live)
    ensures Owned(slots, kinds, true, 0, hi, live)
  {
  }

  /** What is left after an extraction of a prefix is exactly what the destructor has to dispose of. */
  lemma {:induction false} DestructorCompletes(s0: seq<seq<byte>>, now: seq<seq<byte>>, kinds: seq<Param>, stop: nat,
      l0: map<Handle, string>, l1: map<Handle, string>)
    requires Reading(s0, now, kinds, 0, stop, l0, l1) && Owned(s0, kinds, true, 0, |kinds|, l0)
    ensures Owned(now, kinds, true, 0, |kinds|, l1)
    ensures Handles(s0, kinds, true, 0, stop) + Handles(now, kinds, true, 0, |kinds|)
         == Handles(s0, kinds, true, 0, |kinds|)
    ensures l1 - HandleSet(now, kinds, true, 0, |kinds|) == l0 - HandleSet(s0, kinds, true, 0, |kinds|)
  {
    var n := |kinds|;
    HandlesNone(now, kinds, true, 0, stop);
    HandlesSplit(now, kinds, true, 0, stop, n);
    HandlesEqual(s0, now, kinds, true, stop, n);
    HandlesSplit(s0, kinds, true, 0, stop, n);
    SetEmpty(now, kinds, true, 0, stop);
    SetSplit(now, kinds, true, 0, stop, n);
    SetEqual(s0, now, kinds, true, stop, n);
    SetSplit(s0, kinds, true, 0, stop, n);
    RestOwned(s0, now, kinds, stop, l0, l1);
  }

  /** The handles behind the extracted prefix still exist. */
  lemma {:induction false} RestOwned(s0: seq<seq<byte>>, now: seq<seq<byte>>, kinds: seq<Param>, stop: nat,
      l0: map<Handle, string>, l1: map<Handle, string>)
    requires Reading(s0, now, kinds, 0, stop, l0, l1) && Owned(s0, kinds, true, 0, |kinds|, l0)
    ensures Owned(now, kinds, true, 0, |kinds|, l1)
    ensures forall i :: stop <= i < |kinds| && Selects(kinds[i], true) ==> Content(l1, s0[i]) == Content(l0, s0[i])
  {
    forall i | stop <= i < |kinds| && Selects(kinds[i], true) && !AllZero(s0[i])
      ensures s0[i] in l1 && l1[s0[i]] == l0[s0[i]]
    {
      NotInSet(s0, kinds, true, 0, stop, s0[i]);
    }
    forall i | stop <= i < |kinds| && Selects(kinds[i], true) && AllZero(s0[i])
      ensures Content(l1, s0[i]) == Content(l0, s0[i])
    {
      if s0[i] in l0 && s0[i] !in l1 {
        ZeroNotInSet(s0, kinds, 0, stop, s0[i]);
      }
    }
  }

  lemma {:induction false} ZeroNotInSet(slots: seq<seq<byte>>, kinds: seq<Param>, lo: nat, hi: nat, h: Handle)
    requires hi <= |kinds| == |slots| && AllZero(h)
    ensures h !in HandleSet(slots, kinds, true, lo, hi)
    decreases hi
  {
    if lo < hi {
      ZeroNotInSet(slots, kinds, lo, hi - 1, h);
    }
  }

  /** The entries of parameters that an earlier extraction did not touch. */
  lemma {:induction false} DocsUntouched(s0: seq<seq<byte>>, now: seq<seq<byte>>, kinds: seq<Param>, w: nat,
      lo: nat, hi: nat,
      l0: map<Handle, string>, l1: map<Handle, string>)
    requires hi <= |kinds| == |s0| == |now| && Wide(s0, w) && Wide(now, w)
    requires forall i :: lo <= i < hi ==> s0[i] == now[i]
    requires forall i :: lo <= i < hi && Selects(kinds[i], true) ==>
      |s0[i]| == w && Content(l1, s0[i]) == Content(l0, s0[i])
    ensures Docs(now, kinds, l1, w, lo, hi) == Docs(s0, kinds, l0, w, lo, hi)
    decreases hi
  {
    if lo < hi {
      DocsUntouched(s0, now, kinds, w, lo, hi - 1, l0, l1);
      assert s0[hi - 1][..|s0[hi - 1]|] == s0[hi - 1];
    }
  }

  /** The string handle in the storage of a single return value, if there is one. */
  function ReturnedIn(multi: bool, returnType: Word, ret: seq<byte>, w: nat): seq<Handle>
    requires w <= |ret|
  {
    if !multi && IsText(returnType) then NonNull(HandleIn(ret, w)) else []
  }

  /**
    What Igor guarantees: the storage keeps its shape, and the handles in the places the caller is responsible
    for exist and are not shared.
   */
  predicate Admissible(e: Effect, kinds: seq<Param>, multi: bool, returnType: Word, w: nat) {
    && e.Changed? && |e.slots| == |kinds| && |e.ret| == DOUBLE_BYTES && w <= DOUBLE_BYTES
    && (forall i :: 0 <= i < |kinds| ==> |e.slots[i]| == SizeInBytes(kinds[i], w))
    && (forall h :: h in e.live.Keys ==> |h| == w && !AllZero(h))
    && Owned(e.slots, kinds, true, 0, |kinds|, e.live)
    && var returned := ReturnedIn(multi, returnType, e.ret, w);
       returned != [] ==>
         && returned[0] in e.live
         && forall i :: 0 <= i < |kinds| && Selects(kinds[i], true) ==> e.slots[i] != returned[0]
  }

  /** The effect has taken place if Igor's guarantees allow it. */
  predicate TakenPlace(e: Effect, kinds: seq<Param>, multi: bool, returnType: Word, w: nat,
      slots: seq<seq<byte>>, ret: seq<byte>, live: map<Handle, string>)
  {
    Admissible(e, kinds, multi, returnType, w) ==> slots == e.slots && ret == e.ret && live == e.live
  }

  class Handler {
    const w: nat
    var values: array<byte>
    var types: seq<Word>
    var sizes: seq<nat>
    var multi: bool
    var numReturnValues: nat
    var returnType: Word
    var ret: seq<byte>
    ghost var kinds: seq<Param>      // the meaning of `types`
    ghost var slots: seq<seq<byte>>  // the parameter storage, cut into slots

    ghost predicate Valid()
      reads this, values
    {
      && (w == 4 || w == 8)
      && values.Length == BUFFER_BYTES && |ret| == DOUBLE_BYTES
      && |types| == |sizes| == |kinds| == |slots| < MAX_NUM_PARAMS
      && (forall i :: 0 <= i < |sizes| ==> sizes[i] == SizeInBytes(kinds[i], w) == |slots[i]|)
      && (forall i {:trigger Classify(types[i])} :: 0 <= i < |types| ==> Classify(types[i]) == Some(kinds[i]))
      && Laid(sizes, BUFFER_BYTES)
      && (forall i {:trigger Slot(values[..], sizes, i)} :: 0 <= i < |sizes| ==> slots[i] == Slot(values[..], sizes, i))
      && (multi ==> numReturnValues <= |kinds| && forall i :: 0 <= i < numReturnValues ==> kinds[i].ref)
    }

    /** The string handle in the storage of a single return value, if there is one. */
    ghost function ReturnedString(): seq<Handle>
      requires Valid()
      reads this, values
    {
      ReturnedIn(multi, returnType, ret, w)
    }

    /** The string handles this object is responsible for: each exists, and none is held twice. */
    ghost predicate Owns(heap: Memory)
      requires Valid()
      reads this, values, heap
    {
      && Owned(slots, kinds, true, 0, |kinds|, heap.live)
      && (ReturnedString() != [] ==>
           && ReturnedString()[0] in heap.live
           && forall i :: 0 <= i < |kinds| && Selects(kinds[i], true) ==> slots[i] != ReturnedString()[0])
    }

    constructor (w: nat)
      requires w == 4 || w == 8
      ensures this.w == w && Valid() && types == [] && fresh(values)
      ensures AllZero(values[..]) && AllZero(ret)
    {
      this.w := w;
      values := new byte[BUFFER_BYTES](_ => 0);
      types, sizes, kinds, slots := [], [], [], [];
      multi, numReturnValues, returnType := false, 0, 0;
      ret := Zeros(DOUBLE_BYTES);
    }

    /** memcpy into the parameter storage at the cursor `dest`, which stands at slot `i`. */
    method Store(ghost i: nat, dest: nat, bytes: seq<byte>)
      requires Valid() && i < |types| && dest == Offset(sizes, i) && |bytes| == sizes[i]
      modifies values, this`slots
      ensures Valid() && slots == old(slots)[i := bytes]
    {
      ghost var buf := values[..];
      EndOfSlot(sizes, i, values.Length);
      forall k | 0 <= k < |bytes| {
        values[dest + k] := bytes[k];
      }
      forall j | 0 <= j < |sizes|
        ensures Slot(values[..], sizes, j) == slots[i := bytes][j]
      {
        SlotsDisjoint(buf, values[..], sizes, i, bytes, j);
      }
      slots := slots[i := bytes];
    }

    /** memcpy out of the parameter storage. */
    method Load(ghost i: nat, src: nat, size: nat) returns (bytes: seq<byte>)
      requires Valid() && i < |types| && src == Offset(sizes, i) && size == sizes[i]
      ensures bytes == slots[i]
    {
      EndOfSlot(sizes, i, values.Length);
      bytes := values[src..src + size];
      assert bytes == Slot(values[..], sizes, i);
    }

    /** The sizes of all parameters, or the assertion on an unknown type word. */
    method ComputeSizes(required: seq<Word>) returns (ok: bool)
      requires |required| < MAX_NUM_PARAMS && (w == 4 || w == 8)
      modifies this`types, this`sizes, this`kinds
      ensures ok <==> forall i :: 0 <= i < |required| ==> Classify(required[i]).Some?
      ensures ok ==>
        && types == required && |sizes| == |types| == |kinds| && Laid(sizes, BUFFER_BYTES)
        && (forall i :: 0 <= i < |sizes| ==> sizes[i] == SizeInBytes(kinds[i], w))
        && (forall i :: 0 <= i < |types| ==> Classify(types[i]) == Some(kinds[i]))
    {
      types, sizes, kinds := required, [], [];
      for i := 0 to |types|
        invariant types == required && |sizes| == |kinds| == i
        invariant forall j :: 0 <= j < i ==> sizes[j] == SizeInBytes(kinds[j], w)
        invariant forall j :: 0 <= j < i ==> Classify(types[j]) == Some(kinds[j])
      {
        var t := ClearBit(types[i], FV_REF_TYPE);
        if t == NT_FP64 {
          sizes := sizes + [DOUBLE_BYTES];
        } else if t == HSTRING_TYPE {
          sizes := sizes + [w];
        } else if t == DATAFOLDER_TYPE {
          sizes := sizes + [w];
        } else if IsWaveType(t) {
          sizes := sizes + [w];
        } else {
          return false;
        }
        kinds := kinds + [Classify(types[i]).value];
      }
      OffsetBound(sizes, |sizes|);
      ok := true;
    }

    predicate Describes(fip: FunctionInfo)
      requires FromIgor(fip)
      reads this
    {
      && types == Required(fip) && returnType == fip.returnType
      && multi == UsesMultipleReturnValueSyntax(fip) && numReturnValues == GetNumberOfReturnValues(fip)
    }

    /** The part of the constructor before the parameters are written. */
    method Prepare(fip: FunctionInfo, numParams: nat) returns (ok: bool)
      requires Valid() && FromIgor(fip) && types == [] && AllZero(values[..])
      modifies this`types, this`sizes, this`multi, this`numReturnValues, this`returnType, this`kinds, this`slots
      ensures ok <==> SignatureAccepted(fip, numParams)
      ensures ok ==> Valid() && Describes(fip) && |types| == GetFirstInputParameterIndex(fip) + numParams
      ensures ok ==> forall i :: 0 <= i < |slots| ==> AllZero(slots[i])
    {
      if fip.totalNumParameters >= MAX_NUM_PARAMS {
        return false;
      }
      returnType := fip.returnType;
      multi := UsesMultipleReturnValueSyntax(fip);
      numReturnValues := GetNumberOfReturnValues(fip);
      var numInputParams := GetNumberOfInputParameters(fip);
      if numInputParams != numParams {
        return false;
      }
      if numInputParams == 0 && !multi {
        assert Required(fip) == [];
        return true;
      }
      ok := ComputeSizes(Required(fip));
      if ok {
        CutSlots();
      }
    }

    /** Names the slots of the still empty storage. */
    ghost method CutSlots()
      requires values.Length == BUFFER_BYTES && AllZero(values[..]) && Laid(sizes, BUFFER_BYTES)
      requires (w == 4 || w == 8) && |ret| == DOUBLE_BYTES
      requires |sizes| == |types| == |kinds| < MAX_NUM_PARAMS
      requires forall i :: 0 <= i < |sizes| ==> sizes[i] == SizeInBytes(kinds[i], w)
      requires forall i :: 0 <= i < |types| ==> Classify(types[i]) == Some(kinds[i])
      requires multi ==> numReturnValues == LeadingRefs(types)
      modifies this`slots
      ensures Valid() && forall i :: 0 <= i < |slots| ==> AllZero(slots[i])
    {
      slots := Cut(values[..], sizes);
      forall i | 0 <= i < |sizes|
        ensures AllZero(slots[i])
      {
        ZeroSlot(values[..], sizes, i);
      }
      forall i | 0 <= i < numReturnValues && multi
        ensures kinds[i].ref
      {
        WordTestsAgree(types[i]);
      }
    }

    /** An input is converted and copied to the cursor `dest`. */
    method PackInput(env: Environment, heap: Memory, params: seq<string>, first: nat, i: nat, dest: nat,
        ghost created: set<Handle>, ghost start: map<Handle, string>)
      returns (r: Built, ghost more: set<Handle>)
      requires Valid() && env.Valid() && heap.Valid() && heap.w == env.w == w && first <= i < |types|
      requires Packing(env, slots, kinds, params, first, i, created, start, heap.live) && dest == Offset(sizes, i)
      modifies values, this`slots, heap`live, heap`supply
      ensures Valid() && heap.Valid()
      ensures Packing(env, slots, kinds, params, first, if r.Ok? then i + 1 else i, more, start, heap.live)
      ensures r == Obstacle(env, types[i], params[i - first]) || (r == NoMemory && IsText(types[i]))
      ensures OneSupplied(types[i], r, w, old(heap.supply), old(heap.live).Keys, heap.supply, heap.live.Keys)
    {
      more := created;
      assert Classify(types[i]) == Some(kinds[i]);
      ghost var live := heap.live;
      var u;
      r, u := ConvertStringToIgorTypeUnion(env, heap, params[i - first], types[i]);
      if r.Ok? {
        var bytes := u[..sizes[i]];
        more := PackingAdvances(env, slots, bytes, kinds, params, first, i, created, start, live, heap.live);
        Store(i, dest, bytes);
      }
    }

    /** One turn of the packing loop; the cursor moves on to `next`. */
    method PackTurn(env: Environment, heap: Memory, params: seq<string>, first: nat, i: nat, dest: nat,
        ghost created: set<Handle>, ghost start: map<Handle, string>, ghost supply: seq<Handle>)
      returns (r: Built, next: nat, ghost more: set<Handle>, ghost stop: nat)
      requires Valid() && env.Valid() && heap.Valid() && heap.w == env.w == w && i < |types| && dest == Offset(sizes, i)
      requires PackStage(env, types, slots, kinds, params, first, Ok, i, created, start, supply, heap.live, heap.supply)
      modifies values, this`slots, heap`live, heap`supply
      ensures Valid() && heap.Valid() && next == Offset(sizes, i + 1) && (r.Ok? ==> stop == i + 1)
      ensures PackStage(env, types, slots, kinds, params, first, r, stop, more, start, supply, heap.live, heap.supply)
    {
      hide Enough, Obstacle, Packing;
      ghost var supplyThen, knownThen := heap.supply, heap.live.Keys;
      r, more, stop := Ok, created, i + 1;
      if i >= first {
        r, more := PackInput(env, heap, params, first, i, dest, created, start);
        stop := if r.Ok? then i + 1 else i;
      } else {
        PackingSkips(env, slots, kinds, params, first, i, created, start, heap.live);
      }
      ProgressAdvances(env, types, first, params, i, r);
      SuppliedAdvances(types, first, r, i, w, supply, start.Keys, supplyThen, knownThen, heap.supply, heap.live.Keys);
      NextOffset(sizes, i);
      next := dest + sizes[i];
    }

    /**
      The packing loop. The cursor passes over the return values, which stay zero. `stop` is the turn that
      failed, or the number of parameters.
     */
    method Pack(env: Environment, heap: Memory, params: seq<string>, first: nat)
      returns (r: Built, ghost created: set<Handle>, ghost stop: nat)
      requires Valid() && env.Valid() && heap.Valid() && heap.w == env.w == w
      requires PackStage(env, types, slots, kinds, params, first, Ok, 0, {},
        heap.live, heap.supply, heap.live, heap.supply)
      modifies values, this`slots, heap`live, heap`supply
      ensures Valid() && heap.Valid() && (r.Ok? ==> stop == |types|)
      ensures PackStage(env, types, slots, kinds, params, first, r, stop, created,
        old(heap.live), old(heap.supply), heap.live, heap.supply)
    {
      hide PackStage;
      r, created, stop := Ok, {}, 0;
      var dest := 0;
      var i := 0;
      while i < |types| && r.Ok?
        invariant 0 <= i <= |types| && Valid() && heap.Valid() && dest == Offset(sizes, i) && (r.Ok? ==> stop == i)
        invariant PackStage(env, types, slots, kinds, params, first, r, stop, created,
                    old(heap.live), old(heap.supply), heap.live, heap.supply)
      {
        r, dest, created, stop :=
          PackTurn(env, heap, params, first, i, dest, created, old(heap.live), old(heap.supply));
        i := i + 1;
      }
    }

    /** The part of the constructor that writes the parameters. */
    method Fill(env: Environment, heap: Memory, params: seq<string>, fip: FunctionInfo)
      returns (r: Built, ghost created: set<Handle>, ghost at: nat)
      requires Valid() && env.Valid() && heap.Valid() && heap.w == env.w == w && FromIgor(fip)
      requires Describes(fip) && SignatureAccepted(fip, |params|)
      requires |types| == GetFirstInputParameterIndex(fip) + |params|
      requires forall i :: 0 <= i < |slots| ==> AllZero(slots[i])
      modifies values, this`slots, heap`live, heap`supply
      ensures Valid() && heap.Valid()
      ensures Ends(env, fip, params, r, at, created, old(heap.live), old(heap.supply), heap.live)
      ensures r.Ok? ==> AssertFree(env, fip, params) && Owned(slots, kinds, true, 0, |kinds|, heap.live)
      ensures r.Ok? ==> Holds(env, slots, kinds, params, GetFirstInputParameterIndex(fip), |types|, heap.live)
      ensures r.Ok? ==> created == HandleSet(slots, kinds, false, 0, |types|)
    {
      var first := GetFirstInputParameterIndex(fip);
      PackingStarts(env, types, slots, kinds, params, first, heap.live, heap.supply);
      r, created, at := Pack(env, heap, params, first);
      if r.Ok? {
        PackedAll(env, slots, kinds, types, params, first, created, old(heap.live), heap.live);
      } else {
        PackingCount(env, slots, kinds, types, params, first, at, created, old(heap.live), heap.live);
      }
      BuiltIff(env, fip, params, r, at, old(heap.supply), old(heap.live).Keys, heap.supply, heap.live.Keys);
    }

    /**
      The constructor's body. `created` are the string handles it has allocated: after a success they
      are those in the slots; after an exception at input `at` no destructor runs and they stay allocated.
     */
    method Construct(env: Environment, heap: Memory, params: seq<string>, fip: FunctionInfo)
      returns (r: Built, ghost created: set<Handle>, ghost at: nat)
      requires Valid() && env.Valid() && heap.Valid() && heap.w == env.w == w && FromIgor(fip)
      requires types == [] && AllZero(values[..]) && AllZero(ret)
      modifies this`types, this`sizes, this`multi, this`numReturnValues, this`returnType, this`kinds,
          this`slots, values, heap`live, heap`supply
      ensures heap.Valid() && heap.disposed == old(heap.disposed)
      ensures Ends(env, fip, params, r, at, created, old(heap.live), old(heap.supply), heap.live)
      ensures r.Ok? ==> AssertFree(env, fip, params) && Valid() && Describes(fip) && Owns(heap)
      ensures r.Ok? ==> |types| == GetFirstInputParameterIndex(fip) + |params| &&
                        Holds(env, slots, kinds, params, GetFirstInputParameterIndex(fip), |types|, heap.live)
      ensures r.Ok? ==> created == HandleSet(slots, kinds, false, 0, |types|)
    {
      hide Ends, AssertFree, Holds, SignatureAccepted;
      created, at := {}, 0;
      var prepared := Prepare(fip, |params|);
      if !prepared {
        EndsUnprepared(env, fip, params, heap.live, heap.supply);
        return AssertionFailed, created, at;
      }
      r, created, at := Fill(env, heap, params, fip);
      if r.Ok? {
        assert ReturnedString() == [];
      }
    }

    // ---- reading back ----

    /** Extraction of the by-reference parameter `i`: the entry, or None after an exception. */
    method ReadOne(heap: Memory, i: nat, src: nat, throws: bool)
      returns (r: Option<Doc>, ghost after: seq<byte>, ghost freed: seq<Handle>)
      requires Valid() && heap.Valid() && heap.w == w && i < |types| && src == Offset(sizes, i)
      requires Selects(kinds[i], false) && !AllZero(slots[i]) ==> slots[i] in heap.live
      modifies values, this`slots, heap
      ensures Valid() && heap.Valid() && |after| == |old(slots)[i]| && slots == old(slots)[i := after]
      ensures r.None? <==> throws
      ensures r.Some? ==> r.value == DocOf(old(slots)[i], kinds[i].kind, old(heap.live), w)
      ensures heap.disposed == old(heap.disposed) + freed
      ensures r.None? ==> slots == old(slots) && heap.live == old(heap.live) && freed == []
      ensures r.Some? ==> if kinds[i].kind.TextKind?
        then AllZero(after) && heap.live == old(heap.live) - {old(slots)[i]} && freed == NonNull(old(slots)[i])
        else heap.live == old(heap.live) && freed == []
    {
      assert Classify(types[i]) == Some(kinds[i]);
      var union := Load(i, src, sizes[i]);
      WholeHandle(union, w, kinds[i].kind);
      var bytes;
      r, bytes := ExtractFromUnion(heap, union, types[i], throws);
      WholeHandle(bytes, w, kinds[i].kind);
      after := bytes;
      freed := if r.Some? && kinds[i].kind.TextKind? then NonNull(union) else [];
      Store(i, src, bytes);
    }

    lemma {:induction false} WholeHandle(union: seq<byte>, w: nat, k: Kind)
      requires |union| == SizeInBytes(Param(k, true), w) && w <= DOUBLE_BYTES
      ensures k.NumberKind? || HandleIn(union, w) == union
    {
    }

    /** One turn of the extraction loop; `stop` is where the work ended. */
    method ReadTurn(heap: Memory, f: Faults, i: nat, src: nat, elems: seq<Doc>, first: nat, ghost hi: nat,
        ghost slots0: seq<seq<byte>>, ghost live0: map<Handle, string>, ghost log: seq<Handle>)
      returns (threw: bool, elems': seq<Doc>, next: nat, ghost stop: nat, ghost freed: seq<Handle>)
      requires Valid() && heap.Valid() && heap.w == w && i < hi <= |types| && first <= hi && src == Offset(sizes, i)
      requires Stage(f, types, slots0, slots, kinds, first, hi, i, live0, heap.live, w, Going(elems, log))
      requires Owned(slots0, kinds, true, first, hi, live0) && NoNull(live0)
      modifies values, this`slots, heap
      ensures Valid() && heap.Valid() && next == Offset(sizes, i + 1) && (!threw ==> stop == i + 1)
      ensures Stage(f, types, slots0, slots, kinds, first, hi, stop, live0, heap.live, w,
        YieldOf(threw, elems', log + freed))
      ensures heap.disposed == old(heap.disposed) + freed
    {
      assert Classify(types[i]) == Some(kinds[i]);
      WordTestsAgree(types[i]);
      NextOffset(sizes, i);
      hide ReadSoFar;
      ghost var now, live := slots, heap.live;
      threw, elems', next, stop, freed := false, elems, src + sizes[i], i + 1, [];
      assert log + freed == log;
      if i >= first && IsBitSet(types[i], FV_REF_TYPE) {
        assert IsBitSet(types[i], NT_FP64) || IsBitSet(types[i], HSTRING_TYPE) || IsBitSet(types[i], DATAFOLDER_TYPE) ||
               IsWaveType(types[i]);
        threw, elems', stop, freed := ReadEntry(heap, f, i, src, elems, first, hi, slots0, live0, log);
      } else {
        ReadSkips(slots0, slots, kinds, first, i, live0, heap.live, w, elems, log);
      }
      NextStage(f, types, slots0, now, slots, kinds, first, hi, i, threw, stop, live0, live, heap.live, w,
        elems, log, elems', log + freed);
    }

    /** The entry of a by-reference parameter is made and added. */
    method ReadEntry(heap: Memory, f: Faults, i: nat, src: nat, elems: seq<Doc>, first: nat, ghost hi: nat,
        ghost slots0: seq<seq<byte>>, ghost live0: map<Handle, string>, ghost log: seq<Handle>)
      returns (threw: bool, elems': seq<Doc>, ghost stop: nat, ghost freed: seq<Handle>)
      requires Valid() && heap.Valid() && heap.w == w && first <= i < hi <= |types| && src == Offset(sizes, i)
      requires ReadSoFar(slots0, slots, kinds, first, i, live0, heap.live, w, elems, log) && kinds[i].ref
      requires Owned(slots0, kinds, true, first, hi, live0) && NoNull(live0)
      modifies values, this`slots, heap
      ensures Valid() && heap.Valid() && heap.disposed == old(heap.disposed) + freed
      ensures if threw then OneThrown(f, i, stop) else stop == i + 1 && i !in f.values && i !in f.entries
      ensures ReadSoFar(slots0, slots, kinds, first, stop, live0, heap.live, w, elems', log + freed)
    {
      if kinds[i].kind.TextKind? {
        StillOwned(slots0, slots, kinds, first, i, hi, live0, heap.live);
      }
      ghost var now, live := slots, heap.live;
      threw, elems', stop := true, elems, i;
      var doc; ghost var after;
      doc, after, freed := ReadOne(heap, i, src, i in f.values);
      assert log + [] == log;
      if doc.Some? {
        elems', stop := elems + [doc.value], i + 1;
        ReadAdvances(slots0, now, kinds, first, i, hi, live0, live, w, elems, log, doc.value, freed, after, heap.live);
        threw := i in f.entries;
      }
    }

    /** The extraction loop; `stop` is where the work ended. */
    method ReadLoop(heap: Memory, f: Faults, first: nat, last: nat)
      returns (threw: bool, elems: seq<Doc>, ghost stop: nat, ghost log: seq<Handle>)
      requires Valid() && heap.Valid() && heap.w == w && first <= Upper(|types|, last)
      requires Owned(slots, kinds, true, first, Upper(|types|, last), heap.live)
      modifies values, this`slots, heap
      ensures Valid() && heap.Valid() && heap.disposed == old(heap.disposed) + log
      ensures Stage(f, types, old(slots), slots, kinds, first, Upper(|types|, last), stop,
        old(heap.live), heap.live, w, YieldOf(threw, elems, log))
      ensures !threw ==> stop == Upper(|types|, last)
    {
      ghost var slots0, live0, hi := slots, heap.live, Upper(|types|, last);
      threw, elems, stop, log := false, [], 0, [];
      StageStarts(f, types, slots, kinds, first, hi, heap.live, w);
      hide Stage;
      var src := 0;
      var i := 0;
      while i < |types| && i < last && !threw
        invariant 0 <= i <= hi && Valid() && heap.Valid() && src == Offset(sizes, i) && (!threw ==> stop == i)
        invariant Stage(f, types, slots0, slots, kinds, first, hi, stop, live0, heap.live, w,
                    YieldOf(threw, elems, log))
        invariant heap.disposed == old(heap.disposed) + log
      {
        var next; ghost var freed;
        threw, elems, next, stop, freed := ReadTurn(heap, f, i, src, elems, first, hi, slots0, live0, log);
        Reassociate(old(heap.disposed), log, freed);
        log := log + freed;
        src, i := next, i + 1;
      }
    }

    /**
      Extracts the by-reference parameters with an index of at least `first` and below `last`.
      None stands for an exception; `stop` is where the work ended.
     */
    method ReadPassByRefParameters(heap: Memory, f: Faults, first: nat, last: nat)
      returns (r: Option<seq<Doc>>, ghost stop: nat)
      requires Valid() && heap.Valid() && heap.w == w && first <= Upper(|types|, last)
      requires Owned(slots, kinds, true, first, Upper(|types|, last), heap.live)
      modifies values, this`slots, heap
      ensures Valid() && heap.Valid() && first <= stop <= Upper(|types|, last) && Wide(old(slots), w)
      ensures if r.Some? then Calm(f, types, first, Upper(|types|, last))
              else ThrownAt(f, types, first, Upper(|types|, last), stop)
      ensures Reading(old(slots), slots, kinds, first, stop, old(heap.live), heap.live)
      ensures heap.disposed == old(heap.disposed) + Handles(old(slots), kinds, true, first, stop)
      ensures r.Some? ==>
        stop == Upper(|types|, last) && r.value == Docs(old(slots), kinds, old(heap.live), w, first, stop)
    {
      var threw, elems; ghost var log;
      threw, elems, stop, log := ReadLoop(heap, f, first, last);
      r := if threw then None else Some(elems);
    }

    /** GetPassByRefInputArray */
    method GetPassByRefInputArray(heap: Memory, f: Faults) returns (r: Option<seq<Doc>>, ghost stop: nat)
      requires Valid() && heap.Valid() && heap.w == w && Owned(slots, kinds, true, 0, |kinds|, heap.live)
      modifies values, this`slots, heap
      ensures Valid() && heap.Valid() && FirstInput() <= stop <= |types| && Wide(old(slots), w)
      ensures r.Some? <==> Calm(f, types, FirstInput(), |types|)
      ensures Reading(old(slots), slots, kinds, FirstInput(), stop, old(heap.live), heap.live)
      ensures heap.disposed == old(heap.disposed) + Handles(old(slots), kinds, true, FirstInput(), stop)
      ensures r.Some? ==>
        stop == |types| && r.value == Docs(old(slots), kinds, old(heap.live), w, FirstInput(), |types|)
    {
      if multi {
        r, stop := ReadPassByRefParameters(heap, f, numReturnValues, INT_MAX);
      } else {
        r, stop := ReadPassByRefParameters(heap, f, 0, INT_MAX);
      }
    }

    /** Index of the first parameter that is not a return value. */
    function FirstInput(): (n: nat)
      reads this
    {
      if multi then numReturnValues else 0
    }

    /**
      GetReturnValues: the leading by-reference parameters, or the value in the return storage.
      `freed` is the returned string if that has been disposed of.
     */
    method GetReturnValues(heap: Memory, f: Faults)
      returns (r: Option<seq<Doc>>, ghost stop: nat, ghost freed: seq<Handle>)
      requires Valid() && heap.Valid() && heap.w == w && Owns(heap) && (multi || Classify(returnType).Some?)
      modifies values, this`slots, this`ret, heap
      ensures Valid() && heap.Valid() && stop <= FirstInput() && Wide(old(slots), w)
      ensures Owned(slots, kinds, true, 0, |kinds|, heap.live)
      ensures Reading(old(slots), slots, kinds, 0, stop, Without(old(heap.live), freed), heap.live)
      ensures heap.disposed == old(heap.disposed) + freed + Handles(old(slots), kinds, true, 0, stop)
      ensures freed == if !multi && !f.returnValue then old(ReturnedString()) else []
      ensures r.Some? <==> if multi then Calm(f, types, 0, FirstInput()) else !f.returnValue && !f.returnEntry
      ensures r.Some? ==> stop == FirstInput()
      ensures r.Some? ==> r.value == if multi then Docs(old(slots), kinds, old(heap.live), w, 0, stop)
                                     else [DocOf(old(ret), Classify(returnType).value.kind, old(heap.live), w)]
    {
      if multi {
        freed := [];
        WholeRange(slots, kinds, heap.live, numReturnValues);
        ghost var slots0, live0 := slots, heap.live;
        r, stop := ReadPassByRefParameters(heap, f, 0, numReturnValues);
        RestOwned(slots0, slots, kinds, stop, live0, heap.live);
        assert old(heap.disposed) + freed == old(heap.disposed);
      } else {
        stop := 0;
        r, freed := GetReturnStorage(heap, f);
        ReturnedFreed(slots, kinds, old(heap.live), freed);
        assert Handles(slots, kinds, true, 0, 0) == [];
      }
    }

    /** A single return value is taken from its own storage; an exception may follow the extraction. */
    method GetReturnStorage(heap: Memory, f: Faults) returns (r: Option<seq<Doc>>, ghost freed: seq<Handle>)
      requires Valid() && heap.Valid() && heap.w == w && Owns(heap) && !multi && Classify(returnType).Some?
      modifies this`ret, heap
      ensures Valid() && heap.Valid() && heap.disposed == old(heap.disposed) + freed
      ensures heap.live == Without(old(heap.live), freed)
      ensures freed == if !f.returnValue then old(ReturnedString()) else []
      ensures r.Some? <==> !f.returnValue && !f.returnEntry
      ensures r.Some? ==> r.value == [DocOf(old(ret), Classify(returnType).value.kind, old(heap.live), w)]
    {
      r, freed := None, [];
      ghost var returned := ReturnedString();
      var value, after := ExtractFromUnion(heap, ret, returnType, f.returnValue);
      ret := after;
      if value.Some? {
        freed := returned;
        if !f.returnEntry {
          r := Some([value.value]);
        }
      }
    }

    /** The meaning of all type words. */
    method Meanings() returns (ks: seq<Param>)
      requires Valid()
      ensures ks == kinds
    {
      ks := [];
      for i := 0 to |types|
        invariant ks == kinds[..i]
      {
        assert Classify(types[i]) == Some(kinds[i]);
        ks := ks + [Classify(types[i]).value];
      }
    }

    /** The function overwrites the storage of the parameters. */
    method Overwrite(news: seq<seq<byte>>)
      requires Valid() && |news| == |types| && forall i :: 0 <= i < |types| ==> |news[i]| == sizes[i]
      modifies values, this`slots
      ensures Valid() && slots == news
    {
      var dest := 0;
      for i := 0 to |types|
        invariant Valid() && dest == Offset(sizes, i) && slots[..i] == news[..i]
      {
        Store(i, dest, news[i]);
        NextOffset(sizes, i);
        dest := dest + sizes[i];
      }
    }

    /**
      CallFunction: Igor runs the function, which may overwrite the storage of the parameters and of
      the return value, takes over the by-value strings, and may do anything else to strings that leaves
      existing, unshared handles in the places this object is responsible for. An effect that does not
      stands for none.
     */
    method IgorCall(heap: Memory, e: Effect) returns (ok: bool)
      requires Valid() && heap.Valid() && heap.w == w && Owns(heap)
      modifies values, this`slots, this`ret, heap`live
      ensures Valid() && heap.Valid() && Owns(heap) && ok == e.ok
      ensures TakenPlace(e, kinds, multi, returnType, w, slots, ret, heap.live)
      ensures e.Unchanged? ==> slots == old(slots) && ret == old(ret) && heap.live == old(heap.live)
    {
      ok := e.ok;
      var ks := Meanings();
      if Admissible(e, ks, multi, returnType, w) {
        Overwrite(e.slots);
        ret, heap.live := e.ret, e.live;
      }
    }

    /** The destructor's body. */
    method Destroy(heap: Memory)
      requires Valid() && heap.Valid() && heap.w == w && Owned(slots, kinds, true, 0, |types|, heap.live)
      modifies heap
      ensures heap.Valid()
      ensures heap.disposed == old(heap.disposed) + Handles(slots, kinds, true, 0, |types|)
      ensures heap.live == old(heap.live) - HandleSet(slots, kinds, true, 0, |types|)
    {
      var src := 0;
      for i := 0 to |types|
        invariant heap.Valid() && src == Offset(sizes, i)
        invariant heap.disposed == old(heap.disposed) + Handles(slots, kinds, true, 0, i)
        invariant heap.live == old(heap.live) - HandleSet(slots, kinds, true, 0, i)
      {
        assert Classify(types[i]) == Some(kinds[i]);
        WordTestsAgree(types[i]);
        if types[i] == HSTRING_TYPE | FV_REF_TYPE {
          var u := Load(i, src, sizes[i]);
          if !AllZero(u) {
            NotInSet(slots, kinds, true, 0, i, u);
            heap.Dispose(u);
          }
        }
        src := src + sizes[i];
      }
    }
  }

  /** A string followed by a number. */
  const TEXT_AND_NUMBER: FunctionInfo :=
    FunctionInfo(NT_FP64, 2, 2, seq(MAX_NUM_PARAMS, i => if i == 0 then HSTRING_TYPE else NT_FP64))

  /** A call that loses a string: the first input is converted, the second one is no number. */
  method LoseString(env: Environment, heap: Memory, text: string, other: string) returns (r: Built)
    requires env.Valid() && heap.Valid() && heap.w == env.w && env.strtod(other).None?
    requires Usable(Offered(heap.supply), heap.live.Keys, heap.w)
    modifies heap
    ensures r == AssertionFailed && heap.disposed == old(heap.disposed)
    ensures exists h :: h !in old(heap.live) && heap.live.Keys == old(heap.live).Keys + {h}
  {
    var p := new Handler(env.w);
    ghost var created, at;
    ghost var types := Required(TEXT_AND_NUMBER);
    assert types == [HSTRING_TYPE, NT_FP64];
    assert Classify(HSTRING_TYPE) == Some(Param(TextKind, false));
    assert Classify(NT_FP64) == Some(Param(NumberKind, false));
    r, created, at := p.Construct(env, heap, [text, other], TEXT_AND_NUMBER);
    assert Obstacle(env, types[1], other) == AssertionFailed;
    assert Enough(types, 0, old(heap.supply), old(heap.live).Keys, env.w);
    assert !Buildable(env, TEXT_AND_NUMBER, [text, other], old(heap.supply), old(heap.live).Keys);
    LosesOne(env, text, other, r, at, created, old(heap.live), heap.live);
  }

  lemma {:induction false} LosesOne(env: Environment, text: string, other: string, r: Built, at: nat,
      created: set<Handle>, start: map<Handle, string>, live: map<Handle, string>)
    requires env.strtod(other).None? && !r.Ok? && r != NoMemory
    requires Abandoned(env, TEXT_AND_NUMBER, [text, other], r, at, created, start, live)
    ensures r == AssertionFailed && exists h :: h !in start && live.Keys == start.Keys + {h}
  {
    var types := Required(TEXT_AND_NUMBER);
    assert types == [HSTRING_TYPE, NT_FP64];
    assert Classify(HSTRING_TYPE) == Some(Param(TextKind, false));
    assert Classify(NT_FP64) == Some(Param(NumberKind, false));
    assert SignatureAccepted(TEXT_AND_NUMBER, 2);
    assert at == 1;
    assert Texts(types, 0, 1) == 1;
    var h :| h in created;
    assert |created - {h}| == 0;
    assert created == {h};
    assert live.Keys == start.Keys + {h};
  }
}
