/**
  What a call needs, reports and disposes of, in terms of Igor's type words and the storage itself: exact conditions
  for a call to be made and answered, the entries of an answer one by one, and the strings that are gone afterwards.
 */
module Reports {
  import opened Wrappers
  import opened Sequences
  import opened Bytes
  import opened IgorTypes
  import opened Signature
  import opened Marshal
  import opened ParameterHandler
  import opened CallFunction

  /** The indices in ascending order. */
  ghost predicate Lists(at: seq<nat>, indices: set<nat>) {
    && (forall j, k :: 0 <= j < k < |at| ==> at[j] < at[k])
    && (forall i :: i in indices <==> exists k :: 0 <= k < |at| && at[k] == i)
  }

  predicate AllBelow(indices: set<nat>, i: nat) {
    forall j :: j in indices ==> j < i
  }

  lemma {:induction false} Listed(at: seq<nat>, indices: set<nat>, k: nat)
    requires Lists(at, indices) && k < |at|
    ensures at[k] in indices
  {
  }

  lemma {:induction false} ListsOneMore(at: seq<nat>, indices: set<nat>, i: nat)
    requires Lists(at, indices) && AllBelow(indices, i)
    ensures Lists(at + [i], indices + {i})
  {
    var more := at + [i];
    assert forall k :: 0 <= k < |at| ==> at[k] in indices;
    forall j | j in indices + {i}
      ensures exists k :: 0 <= k < |more| && more[k] == j
    {
      if j == i {
        assert more[|at|] == i;
      } else {
        var k :| 0 <= k < |at| && at[k] == j;
        assert more[k] == j;
      }
    }
  }

  // ---- the words ----

  /** A type word without the bit for references. */
  function Base(t: Word): Word {
    t & 0xFFFF_EFFF
  }

  /** What the type words mean. */
  lemma {:induction false} Known(t: Word, base: Word)
    requires base == Base(t)
    ensures Classify(t).Some? <==> base == 0x4 || base == 0x2000 || base == 0x100 || base & 0x4000 == 0x4000
    ensures Classify(t).Some? ==> (Classify(t).value.ref <==> t & 0x1000 == 0x1000)
  {
    assert ClearBit(t, FV_REF_TYPE) == base;
  }

  lemma {:induction false} Kinds(t: Word, base: Word)
    requires base == Base(t) && Classify(t).Some?
    ensures Classify(t).value.kind.NumberKind? <==> base == 0x4
    ensures Classify(t).value.kind.TextKind? <==> base == 0x2000
    ensures Classify(t).value.kind.FolderKind? <==> base == 0x100
    ensures Classify(t).value.kind.WaveKind? <==> base & 0x4000 == 0x4000
  {
    assert ClearBit(t, FV_REF_TYPE) == base;
  }

  lemma {:induction false} TextWord(t: Word)
    ensures IsText(t) <==> Base(t) == 0x2000
  {
    Known(t, Base(t));
    if Classify(t).Some? {
      Kinds(t, Base(t));
    }
  }

  lemma {:induction false} EntryDescribed(t: Word, union: seq<byte>, live: map<Handle, string>, w: nat)
    requires Classify(t).Some? && w <= |union| && forall h :: h in live.Keys ==> !AllZero(h)
    requires Classify(t).value.kind.TextKind? ==> AllZero(union[..w]) || union[..w] in live
    ensures Described(DocOf(union, Classify(t).value.kind, live, w), Base(t), union, live, w)
  {
    Known(t, Base(t));
    Kinds(t, Base(t));
    hide Classify;
  }

  // ---- which calls are made ----

  /** The type word has a meaning, and what it means for an input can be made of the text. */
  predicate Fit(env: Environment, t: Word, param: string) {
    var base := Base(t);
    || (base == 0x4 && env.strtod(param).Some?)
    || base == 0x2000
    || (base == 0x100 && TextBytes(param) < env.maxCmdLen && env.namedFolder(param).Some?)
  }

  lemma {:induction false} NoObstacle(env: Environment, t: Word, param: string)
    ensures Obstacle(env, t, param) == Ok <==> Fit(env, t, param)
    ensures Fit(env, t, param) ==> Classify(t).Some?
  {
    Known(t, Base(t));
    if Classify(t).Some? {
      Kinds(t, Base(t));
    }
    hide Classify, Base;
  }

  lemma {:induction false} AllFit(env: Environment, types: seq<Word>, first: nat, params: seq<string>)
    requires first + |params| == |types|
    ensures (forall i :: 0 <= i < |types| ==> Classify(types[i]).Some?) &&
            Converted(env, types, first, params, |types|) <==>
            && (forall i :: 0 <= i < first ==> Classify(types[i]).Some?)
            && (forall i :: first <= i < |types| ==> Fit(env, types[i], params[i - first]))
  {
    hide Classify, Obstacle, Fit;
    forall i | first <= i < |types|
      ensures Obstacle(env, types[i], params[i - first]) == Ok <==> Fit(env, types[i], params[i - first])
      ensures Fit(env, types[i], params[i - first]) ==> Classify(types[i]).Some?
    {
      NoObstacle(env, types[i], params[i - first]);
    }
  }

  /** The first handles of the supply can all be used. */
  predicate Supplies(supply: seq<Handle>, n: nat, known: set<Handle>, w: nat) {
    && n <= |supply|
    && (forall k :: 0 <= k < n ==> |supply[k]| == w && !AllZero(supply[k]) && supply[k] !in known)
    && (forall j, k :: 0 <= j < k < n ==> supply[j] != supply[k])
  }

  function TextsFrom(types: seq<Word>, i: nat): nat
    decreases |types| - i
  {
    if i >= |types| then 0 else (if Base(types[i]) == 0x2000 then 1 else 0) + TextsFrom(types, i + 1)
  }

  lemma {:induction false} EnoughIff(types: seq<Word>, i: nat, supply: seq<Handle>, known: set<Handle>, w: nat)
    ensures Enough(types, i, supply, known, w) <==> Supplies(supply, TextsFrom(types, i), known, w)
    decreases |types| - i
  {
    if i < |types| {
      TextWord(types[i]);
      hide Classify, Base;
      if IsText(types[i]) {
        if Usable(Offered(supply), known, w) {
          EnoughIff(types, i + 1, supply[1..], known + {supply[0]}, w);
          SuppliesOneMore(supply, TextsFrom(types, i + 1), known, w);
        }
      } else {
        EnoughIff(types, i + 1, supply, known, w);
      }
    }
  }

  lemma {:induction false} SuppliesOneMore(supply: seq<Handle>, n: nat, known: set<Handle>, w: nat)
    requires supply != [] && Usable(supply[0], known, w)
    ensures Supplies(supply, n + 1, known, w) <==> Supplies(supply[1..], n, known + {supply[0]}, w)
  {
    var rest := supply[1..];
    if Supplies(supply, n + 1, known, w) {
      forall k | 0 <= k < n
        ensures |rest[k]| == w && !AllZero(rest[k]) && rest[k] !in known + {supply[0]}
      {
        assert rest[k] == supply[k + 1];
      }
    }
    if Supplies(rest, n, known + {supply[0]}, w) {
      forall k | 0 <= k < n + 1
        ensures |supply[k]| == w && !AllZero(supply[k]) && supply[k] !in known
        ensures forall j :: 0 <= j < k ==> supply[j] != supply[k]
      {
        if k > 0 {
          assert supply[k] == rest[k - 1];
          assert forall j :: 0 < j < k ==> supply[j] == rest[j - 1];
        }
      }
    }
  }

  ghost function TextIndices(types: seq<Word>, lo: nat, hi: nat): set<nat>
    requires hi <= |types|
  {
    set i: nat | lo <= i < hi && Base(types[i]) == 0x2000
  }

  lemma {:induction false} TextIndicesStep(types: seq<Word>, lo: nat, hi: nat)
    requires lo < hi <= |types|
    ensures TextIndices(types, lo, hi) ==
            TextIndices(types, lo, hi - 1) + if Base(types[hi - 1]) == 0x2000 then {hi - 1} else {}
    ensures AllBelow(TextIndices(types, lo, hi - 1), hi - 1)
  {
  }

  lemma {:induction false} TextsListed(types: seq<Word>, lo: nat, hi: nat) returns (at: seq<nat>)
    requires lo <= hi <= |types|
    ensures Lists(at, TextIndices(types, lo, hi))
    ensures |at| + TextsFrom(types, hi) == TextsFrom(types, lo)
    decreases hi
  {
    if lo == hi {
      at := [];
    } else {
      at := TextsListed(types, lo, hi - 1);
      TextIndicesStep(types, lo, hi);
      hide TextIndices, Lists, Base;
      if Base(types[hi - 1]) == 0x2000 {
        ListsOneMore(at, TextIndices(types, lo, hi - 1), hi - 1);
        at := at + [hi - 1];
      }
    }
  }

  /**
    Main result: the parameters can be packed iff there are fewer than 100, as many texts as inputs, no unknown type
    word, no input that is a wave, cannot be read as a number or names no data folder, and Igor has a new handle for
    each string input. These inputs are listed in `at`.
   */
  lemma {:induction false} PackableIff(env: Environment, fip: FunctionInfo, params: seq<string>, supply: seq<Handle>,
      known: set<Handle>)
    returns (at: seq<nat>)
    requires FromIgor(fip)
    ensures var types := fip.parameterTypes[..fip.numRequiredParameters];
      var first := if fip.returnType == 0x20000 then LeadingRefs(types) else 0;
      && Lists(at, set i: nat | first <= i < |types| && Base(types[i]) == 0x2000)
      && (Buildable(env, fip, params, supply, known) <==>
           && fip.totalNumParameters < 100 && first + |params| == |types|
           && (forall i :: 0 <= i < first ==> Classify(types[i]).Some?)
           && (forall i :: first <= i < |types| ==> Fit(env, types[i], params[i - first]))
           && Supplies(supply, |at|, known, env.w))
  {
    hide Classify, Obstacle, Fit, Enough, Supplies, Base, Converted;
    var types, first := Required(fip), GetFirstInputParameterIndex(fip);
    at := TextsListed(types, first, |types|);
    EnoughIff(types, first, supply, known, env.w);
    InputsAreTheTail(fip);
    if first + |params| == |types| {
      AllFit(env, types, first, params);
    }
  }

  // ---- which calls are answered ----

  /**
    Main result: a call that was made fails iff Igor says so, is aborted iff the user has asked for that, and otherwise
    is answered iff nothing is thrown: not at a by-reference parameter, not at a single return value, and not when
    the parts are put together.
   */
  lemma {:induction false} AnsweredIff(env: Environment, fip: FunctionInfo, params: seq<string>, c: Course, r: Outcome,
      a: Account, log: seq<Handle>, logNow: seq<Handle>, liveNow: map<Handle, string>)
    requires FromIgor(fip) && Settled(env, fip, params, c, r, a, log, logNow, liveNow)
    ensures !r.NotBuilt? && (r.CallFailed? <==> !c.effect.ok) && (r.Aborted? <==> c.effect.ok && c.aborted)
    ensures r.Answer? <==>
      && c.effect.ok && !c.aborted && !c.faults.assembly
      && (forall i :: 0 <= i < fip.numRequiredParameters && fip.parameterTypes[i] & 0x1000 == 0x1000 ==>
           i !in c.faults.values && i !in c.faults.entries)
      && (fip.returnType != 0x20000 ==> !c.faults.returnValue && !c.faults.returnEntry)
  {
    hide Snapshot.HeldOnce, Snapshot.AllDisposed, Snapshot.Reported, Snapshot.Sound, Snapshot.LeftBy, Snapshot.Shaped;
    hide Seen, AsPacked, Freed, Follows;
    FollowsIff(c, Required(fip), GetFirstInputParameterIndex(fip), fip.returnType == 0x20000, r);
  }

  lemma {:induction false} FollowsIff(c: Course, types: seq<Word>, first: nat, multi: bool, r: Outcome)
    requires first <= |types| && Follows(c, types, first, multi, r) && (!multi ==> first == 0)
    ensures !r.NotBuilt? && (r.CallFailed? <==> !c.effect.ok) && (r.Aborted? <==> c.effect.ok && c.aborted)
    ensures r.Answer? <==>
      && c.effect.ok && !c.aborted && !c.faults.assembly
      && (forall i :: 0 <= i < |types| && types[i] & 0x1000 == 0x1000 ==>
           i !in c.faults.values && i !in c.faults.entries)
      && (!multi ==> !c.faults.returnValue && !c.faults.returnEntry)
  {
  }

  // ---- what an answer reports ----

  ghost function RefIndices(kinds: seq<Param>, lo: nat, hi: nat): set<nat>
    requires hi <= |kinds|
  {
    set i: nat | lo <= i < hi && kinds[i].ref
  }

  lemma {:induction false} RefIndicesStep(kinds: seq<Param>, lo: nat, hi: nat)
    requires lo < hi <= |kinds|
    ensures RefIndices(kinds, lo, hi) == RefIndices(kinds, lo, hi - 1) + if kinds[hi - 1].ref then {hi - 1} else {}
    ensures AllBelow(RefIndices(kinds, lo, hi - 1), hi - 1)
  {
  }

  lemma {:induction false} RefsListed(slots: seq<seq<byte>>, kinds: seq<Param>, live: map<Handle, string>, w: nat,
      lo: nat, hi: nat)
    returns (at: seq<nat>)
    requires lo <= hi <= |kinds| == |slots| && Wide(slots, w)
    ensures Lists(at, RefIndices(kinds, lo, hi))
    ensures var docs := Docs(slots, kinds, live, w, lo, hi);
      |docs| == |at| && forall k :: 0 <= k < |at| ==>
        lo <= at[k] < hi && docs[k] == DocOf(slots[at[k]], kinds[at[k]].kind, live, w)
    decreases hi
  {
    hide DocOf;
    if lo == hi {
      at := [];
    } else {
      at := RefsListed(slots, kinds, live, w, lo, hi - 1);
      RefIndicesStep(kinds, lo, hi);
      hide RefIndices, Lists, AllBelow;
      var docs := Docs(slots, kinds, live, w, lo, hi - 1);
      if kinds[hi - 1].ref {
        assert Docs(slots, kinds, live, w, lo, hi) == docs + [DocOf(slots[hi - 1], kinds[hi - 1].kind, live, w)];
        ListsOneMore(at, RefIndices(kinds, lo, hi - 1), hi - 1);
        at := at + [hi - 1];
      }
    }
  }

  /** The references among the kinds are those whose type word has the bit. */
  lemma {:induction false} SameRefs(types: seq<Word>, kinds: seq<Param>, lo: nat, hi: nat)
    requires hi <= |types| == |kinds| && forall i :: 0 <= i < |types| ==> Classify(types[i]) == Some(kinds[i])
    ensures RefIndices(kinds, lo, hi) == (set i: nat | lo <= i < hi && types[i] & 0x1000 == 0x1000)
  {
    hide Classify, Base;
    forall i | lo <= i < hi
      ensures kinds[i].ref <==> types[i] & 0x1000 == 0x1000
    {
      assert Classify(types[i]) == Some(kinds[i]);
      Known(types[i], Base(types[i]));
    }
  }

  /** Each entry made of a slot describes what the slot holds. */
  lemma {:induction false} SlotDescribed(fip: FunctionInfo, left: Snapshot, w: nat, i: nat)
    requires FromIgor(fip) && left.Valid() && left.Sound() && left.Shaped(w) && Seen(fip, left) && Wide(left.slots, w)
    requires i < |left.kinds| && left.kinds[i].ref
    ensures Described(DocOf(left.slots[i], left.kinds[i].kind, left.live, w), Base(Required(fip)[i]), left.slots[i],
      left.live, w)
  {
    hide Classify, Base, DocOf, Described;
    assert Classify(Required(fip)[i]) == Some(left.kinds[i]);
    var slot := left.slots[i];
    if left.kinds[i].kind.TextKind? {
      assert Selects(left.kinds[i], true);
      assert slot[..w] == slot;
    }
    EntryDescribed(Required(fip)[i], slot, left.live, w);
  }

  /**
    Main result: passByReference has one entry for each by-reference parameter that is no return value, in order, and
    it describes what the function has left in the parameter's storage.
   */
  lemma {:induction false} ReferencesReported(env: Environment, fip: FunctionInfo, params: seq<string>, c: Course,
      r: Outcome, a: Account, log: seq<Handle>, logNow: seq<Handle>, liveNow: map<Handle, string>)
    returns (at: seq<nat>)
    requires FromIgor(fip) && Settled(env, fip, params, c, r, a, log, logNow, liveNow) && r.Answer?
    ensures var types := fip.parameterTypes[..fip.numRequiredParameters];
      var first := if fip.returnType == 0x20000 then LeadingRefs(types) else 0;
      && Lists(at, set i: nat | first <= i < |types| && types[i] & 0x1000 == 0x1000)
      && |r.passByReference| == |at| && |a.left.slots| == |types|
      && forall k :: 0 <= k < |at| ==>
           && first <= at[k] < |types| && env.w <= |a.left.slots[at[k]]|
           && Described(r.passByReference[k], Base(types[at[k]]), a.left.slots[at[k]], a.left.live, env.w)
  {
    hide Classify, Base, DocOf, Described, Follows, Snapshot.LeftBy, Snapshot.HeldOnce, Snapshot.AllDisposed, AsPacked;
    var left, types := a.left, Required(fip);
    at := RefsListed(left.slots, left.kinds, left.live, env.w, left.first, |left.kinds|);
    SameRefs(types, left.kinds, left.first, |left.kinds|);
    forall k | 0 <= k < |at|
      ensures Described(r.passByReference[k], Base(types[at[k]]), left.slots[at[k]], left.live, env.w)
    {
      Listed(at, RefIndices(left.kinds, left.first, |left.kinds|), k);
      SlotDescribed(fip, left, env.w, at[k]);
    }
  }

  /** Main result: the result has one entry for each leading reference, or the single one for the return storage. */
  lemma {:induction false} ResultsReported(env: Environment, fip: FunctionInfo, params: seq<string>, c: Course,
      r: Outcome, a: Account, log: seq<Handle>, logNow: seq<Handle>, liveNow: map<Handle, string>)
    requires FromIgor(fip) && Settled(env, fip, params, c, r, a, log, logNow, liveNow) && r.Answer?
    ensures r.multi <==> fip.returnType == 0x20000
    ensures env.w <= |a.left.ret| == 8
    ensures r.multi ==>
      var types := fip.parameterTypes[..fip.numRequiredParameters];
      && |r.result| == LeadingRefs(types) <= |a.left.slots|
      && forall i :: 0 <= i < |r.result| ==>
           && env.w <= |a.left.slots[i]|
           && Described(r.result[i], Base(types[i]), a.left.slots[i], a.left.live, env.w)
    ensures !r.multi ==>
      |r.result| == 1 && Described(r.result[0], Base(fip.returnType), a.left.ret, a.left.live, env.w)
  {
    hide Classify, Base, DocOf, Described, Snapshot.HeldOnce, Snapshot.AllDisposed, AsPacked, TakenPlace;
    var left, types := a.left, Required(fip);
    if r.multi {
      forall i | 0 <= i < left.first
        ensures left.kinds[i].ref
      {
        assert Classify(types[i]) == Some(left.kinds[i]);
        Known(types[i], Base(types[i]));
      }
      DocsOfReferences(left.slots, left.kinds, left.live, env.w, left.first);
      forall i | 0 <= i < |r.result|
        ensures Described(r.result[i], Base(types[i]), left.slots[i], left.live, env.w)
      {
        SlotDescribed(fip, left, env.w, i);
      }
    } else {
      EntryDescribed(fip.returnType, left.ret, left.live, env.w);
    }
  }

  /** The entry gives back the text that was passed, the number it stands for, or the data folder of that name. */
  predicate GivesBack(env: Environment, t: Word, param: string, doc: Doc) {
    var base := Base(t);
    || (base == 0x4 && env.strtod(param).Some? && doc == Doc(Number(env.strtod(param).value), "variable"))
    || (base == 0x2000 && doc == Doc(Text(param), "string"))
    || (base == 0x100 && env.namedFolder(param).Some? && doc == Doc(Folder(env.namedFolder(param).value), "dfref"))
  }

  lemma {:induction false} ReadBack(env: Environment, doc: Doc, t: Word, slot: seq<byte>, live: map<Handle, string>,
      w: nat, param: string)
    requires Classify(t).Some? && |slot| == SizeInBytes(Classify(t).value, w) && w <= |slot|
    requires Packed(env, slot, Classify(t).value.kind, param, live) && Described(doc, Base(t), slot, live, w)
    ensures GivesBack(env, t, param, doc)
  {
    Known(t, Base(t));
    Kinds(t, Base(t));
    hide Classify, Base;
    assert |slot| == w ==> slot[..w] == slot;
  }

  lemma {:induction false} InputReadBack(env: Environment, fip: FunctionInfo, params: seq<string>, left: Snapshot,
      doc: Doc, i: nat)
    requires FromIgor(fip) && left.Valid() && left.Shaped(env.w) && Seen(fip, left)
    requires |left.kinds| == left.first + |params|
    requires Holds(env, left.slots, left.kinds, params, left.first, |left.kinds|, left.live)
    requires left.first <= i < |left.kinds| && env.w <= |left.slots[i]|
    requires Described(doc, Base(Required(fip)[i]), left.slots[i], left.live, env.w)
    ensures GivesBack(env, Required(fip)[i], params[i - left.first], doc)
  {
    hide Classify, Base, Described, Packed, GivesBack;
    assert Classify(Required(fip)[i]) == Some(left.kinds[i]);
    assert Packed(env, left.slots[i], left.kinds[i].kind, params[i - left.first], left.live);
    ReadBack(env, doc, Required(fip)[i], left.slots[i], left.live, env.w, params[i - left.first]);
  }

  /**
    Main result, into the buffer and back: if the function changes nothing, passByReference gives for each by-reference
    input, in order, what was passed.
   */
  lemma {:induction false} InputsReadBack(env: Environment, fip: FunctionInfo, params: seq<string>, c: Course,
      r: Outcome, a: Account, log: seq<Handle>, logNow: seq<Handle>, liveNow: map<Handle, string>)
    returns (at: seq<nat>)
    requires FromIgor(fip) && Settled(env, fip, params, c, r, a, log, logNow, liveNow) && r.Answer?
    requires c.effect.Unchanged?
    ensures var types := fip.parameterTypes[..fip.numRequiredParameters];
      var first := if fip.returnType == 0x20000 then LeadingRefs(types) else 0;
      && Lists(at, set i: nat | first <= i < |types| && types[i] & 0x1000 == 0x1000)
      && |r.passByReference| == |at| && first + |params| == |types|
      && forall k :: 0 <= k < |at| ==>
           first <= at[k] < |types| && GivesBack(env, types[at[k]], params[at[k] - first], r.passByReference[k])
  {
    hide Classify, Base, Described, Follows, Snapshot.LeftBy, Snapshot.HeldOnce, Snapshot.AllDisposed, Holds;
    hide Snapshot.Sound, Snapshot.Reported, GivesBack, Lists;
    var left, types := a.left, Required(fip);
    at := ReferencesReported(env, fip, params, c, r, a, log, logNow, liveNow);
    forall k | 0 <= k < |at|
      ensures GivesBack(env, types[at[k]], params[at[k] - left.first], r.passByReference[k])
    {
      InputReadBack(env, fip, params, left, r.passByReference[k], at[k]);
    }
  }

  // ---- which strings are gone ----

  predicate Among(hs: seq<Handle>, h: Handle) {
    exists k :: 0 <= k < |hs| && hs[k] == h
  }

  ghost function StringIndices(slots: seq<seq<byte>>, kinds: seq<Param>, hi: nat): set<nat>
    requires hi <= |kinds| == |slots|
  {
    set i: nat | i < hi && Selects(kinds[i], true) && !AllZero(slots[i])
  }

  lemma {:induction false} StringIndicesStep(slots: seq<seq<byte>>, kinds: seq<Param>, hi: nat)
    requires 0 < hi <= |kinds| == |slots|
    ensures StringIndices(slots, kinds, hi) == StringIndices(slots, kinds, hi - 1) +
              if Selects(kinds[hi - 1], true) && !AllZero(slots[hi - 1]) then {hi - 1} else {}
    ensures AllBelow(StringIndices(slots, kinds, hi - 1), hi - 1)
  {
    hide Selects, AllZero;
  }

  lemma {:induction false} HandlesListed(slots: seq<seq<byte>>, kinds: seq<Param>, hi: nat) returns (at: seq<nat>)
    requires hi <= |kinds| == |slots|
    ensures Lists(at, StringIndices(slots, kinds, hi))
    ensures var gone := Handles(slots, kinds, true, 0, hi);
      && |gone| == |at| && (forall k :: 0 <= k < |at| ==> at[k] < hi && gone[k] == slots[at[k]])
      && (forall h :: h in HandleSet(slots, kinds, true, 0, hi) <==> Among(gone, h))
    decreases hi
  {
    if hi == 0 {
      at := [];
    } else {
      at := HandlesListed(slots, kinds, hi - 1);
      StringIndicesStep(slots, kinds, hi);
      hide StringIndices, Lists, Selects, AllZero;
      if Selects(kinds[hi - 1], true) && !AllZero(slots[hi - 1]) {
        ListsOneMore(at, StringIndices(slots, kinds, hi - 1), hi - 1);
        at := at + [hi - 1];
        Snoc(Handles(slots, kinds, true, 0, hi - 1), slots[hi - 1]);
      }
    }
  }

  lemma {:induction false} Snoc(gone: seq<Handle>, h: Handle)
    ensures forall g :: Among(gone + [h], g) <==> g == h || Among(gone, g)
  {
    assert (gone + [h])[|gone|] == h;
    assert forall k :: 0 <= k < |gone| ==> (gone + [h])[k] == gone[k];
  }

  /** The returned string is disposed of unless the call ends before its value is read. */
  lemma {:induction false} ReturnedString(c: Course, fip: FunctionInfo, left: Snapshot, w: nat)
    requires left.LeftBy(c.effect, fip.returnType == 0x20000, fip.returnType, w)
    ensures w <= |left.ret| && Freed(c, left.returned) ==
      if Base(fip.returnType) == 0x2000 && !AllZero(left.ret[..w]) && c.effect.ok && !c.aborted && !c.faults.returnValue
      then [left.ret[..w]] else []
  {
    TextWord(fip.returnType);
    hide Classify, TakenPlace;
  }

  /**
    Main result: the strings disposed of are the returned one, if its value is read, and then in parameter order all
    that by-reference string parameters refer to. They existed, are pairwise different, and are the only ones gone.
   */
  lemma {:induction false} StringsDisposed(env: Environment, fip: FunctionInfo, params: seq<string>, c: Course,
      r: Outcome, a: Account, log: seq<Handle>, logNow: seq<Handle>, liveNow: map<Handle, string>)
    returns (at: seq<nat>, gone: seq<Handle>)
    requires FromIgor(fip) && Settled(env, fip, params, c, r, a, log, logNow, liveNow)
    ensures var types, slots := fip.parameterTypes[..fip.numRequiredParameters], a.left.slots;
      && |slots| == |types| && Lists(at, set i: nat | i < |types| && types[i] == 0x3000 && !AllZero(slots[i]))
      && |gone| == |at| && forall k :: 0 <= k < |at| ==> at[k] < |slots| && gone[k] == slots[at[k]]
    ensures env.w <= |a.left.ret| && logNow == log + a.freed + gone && a.freed ==
      if Base(fip.returnType) == 0x2000 && !AllZero(a.left.ret[..env.w]) && c.effect.ok && !c.aborted &&
         !c.faults.returnValue
      then [a.left.ret[..env.w]] else []
    ensures forall j, k :: 0 <= j < k < |gone| ==> gone[j] != gone[k]
    ensures a.freed != [] ==> a.freed[0] in a.left.live && !Among(gone, a.freed[0])
    ensures forall h :: h in liveNow <==> h in a.left.live && !Among(a.freed, h) && !Among(gone, h)
    ensures forall h :: h in liveNow ==> liveNow[h] == a.left.live[h]
  {
    hide Classify, Base, Follows, Snapshot.HeldOnce, Snapshot.Reported, AsPacked, TakenPlace;
    var left, types := a.left, Required(fip);
    ReturnedString(c, fip, left, env.w);
    at := HandlesListed(left.slots, left.kinds, |left.kinds|);
    gone := Handles(left.slots, left.kinds, true, 0, |left.kinds|);
    OwnedHandlesAreDistinct(left.slots, left.kinds, |left.kinds|, left.live);
    SameStrings(types, left.slots, left.kinds);
    if a.freed != [] {
      NotInSet(left.slots, left.kinds, true, 0, |left.kinds|, a.freed[0]);
    }
  }

  lemma {:induction false} SameStrings(types: seq<Word>, slots: seq<seq<byte>>, kinds: seq<Param>)
    requires |types| == |kinds| == |slots| && forall i :: 0 <= i < |types| ==> Classify(types[i]) == Some(kinds[i])
    ensures StringIndices(slots, kinds, |kinds|)
         == (set i: nat | i < |types| && types[i] == 0x3000 && !AllZero(slots[i]))
  {
    hide Classify;
    forall i | 0 <= i < |types|
      ensures Selects(kinds[i], true) <==> types[i] == 0x3000
    {
      assert Classify(types[i]) == Some(kinds[i]);
      WordTestsAgree(types[i]);
    }
  }

  /** A function with one string parameter that is passed by reference. */
  const TAKES_TEXT: FunctionInfo := FunctionInfo(0x4, 1, 1, seq(MAX_NUM_PARAMS, _ => 0x3000))

  lemma {:induction false} EchoPackable(env: Environment, text: string, supply: seq<Handle>, known: set<Handle>)
    requires supply != [] && |supply[0]| == env.w && !AllZero(supply[0]) && supply[0] !in known
    ensures Buildable(env, TAKES_TEXT, [text], supply, known)
  {
    var types := TAKES_TEXT.parameterTypes[..1];
    assert types == [0x3000] && Base(0x3000) == 0x2000;
    Known(0x3000, 0x2000);
    var at := PackableIff(env, TAKES_TEXT, [text], supply, known);
    hide Buildable;
    assert (set i: nat | 0 <= i < |types| && Base(types[i]) == 0x2000) == {0};
    OneListed(at);
    assert Fit(env, types[0], text);
  }

  lemma {:induction false} EchoAnswered(env: Environment, text: string, r: Outcome, a: Account,
      log: seq<Handle>, logNow: seq<Handle>, liveNow: map<Handle, string>)
    requires Settled(env, TAKES_TEXT, [text], Course(Unchanged(true), false, NO_FAULTS), r, a, log, logNow, liveNow)
    ensures r.Answer? && |r.result| == 1 && r.passByReference == [Doc(Text(text), "string")]
  {
    var c := Course(Unchanged(true), false, NO_FAULTS);
    hide Settled;
    var types := TAKES_TEXT.parameterTypes[..1];
    assert types == [0x3000] && Base(0x3000) == 0x2000;
    AnsweredIff(env, TAKES_TEXT, [text], c, r, a, log, logNow, liveNow);
    ResultsReported(env, TAKES_TEXT, [text], c, r, a, log, logNow, liveNow);
    var at := InputsReadBack(env, TAKES_TEXT, [text], c, r, a, log, logNow, liveNow);
    assert (set i: nat | 0 <= i < |types| && types[i] & 0x1000 == 0x1000) == {0};
    OneListed(at);
    assert GivesBack(env, types[0], text, r.passByReference[0]);
  }

  lemma {:induction false} OneListed(at: seq<nat>)
    requires Lists(at, {0})
    ensures at == [0]
  {
    var all: set<nat> := {0};
    assert 0 in all;
    assert |at| > 1 ==> at[0] < at[1];
    forall k | 0 <= k < |at|
      ensures at[k] == 0
    {
      Listed(at, all, k);
    }
  }

  /** If that function does nothing its caller is told the text it has passed. */
  method Echo(env: Environment, heap: Memory, text: string) returns (r: Outcome)
    requires env.Valid() && heap.Valid() && heap.w == env.w
    requires heap.supply != [] && |heap.supply[0]| == env.w && !AllZero(heap.supply[0]) && heap.supply[0] !in heap.live
    modifies heap
    ensures r.Answer? && |r.result| == 1 && r.passByReference == [Doc(Text(text), "string")]
  {
    hide Settled, Buildable;
    ghost var log := heap.disposed;
    EchoPackable(env, text, heap.supply, heap.live.Keys);
    Known(0x4, 0x4);
    ghost var a;
    r, a := Call(env, heap, [text], TAKES_TEXT, Course(Unchanged(true), false, NO_FAULTS));
    EchoAnswered(env, text, r, a, log, heap.disposed, heap.live);
  }

  // ---- what an input fails with ----

  /** Why an input cannot be converted: only for folder names is this no failed assertion. */
  lemma {:induction false} Obstacles(env: Environment, t: Word, param: string)
    ensures var base, why := Base(t), Obstacle(env, t, param);
      && (base == 0x2000 ==> why == Ok)
      && (base == 0x4 ==> why == if env.strtod(param).Some? then Ok else AssertionFailed)
      && (base == 0x100 ==> why == if TextBytes(param) >= env.maxCmdLen then PathTooLong
                                   else if env.namedFolder(param).None? then FolderNotFound else Ok)
      && (base != 0x2000 && base != 0x4 && base != 0x100 ==> why == AssertionFailed)
  {
    Known(t, Base(t));
    if Classify(t).Some? {
      Kinds(t, Base(t));
    }
    hide Classify, Base;
  }
}
