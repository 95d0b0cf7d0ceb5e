/**
  Marshalling of the parameters of a function call (CallFunctionParameterHandler.cpp).

  All parameters lie back to back in one byte buffer. A handle is the bit pattern of a pointer of
  `w` bytes; the null pointer is all zeros. Igor's memory manager is the class Memory; Igor's calls
  that may fail are nondeterministic.
 */
module Marshal {
  import opened Wrappers
  import opened Sequences
  import opened Bytes
  import opened Layout
  import opened IgorTypes
  import opened Signature

  type Handle = seq<byte>

  const DOUBLE_BYTES: nat := 8
  const BUFFER_BYTES: nat := MAX_NUM_PARAMS * DOUBLE_BYTES

  /** The platform and the calls into the C library and Igor: None is a failed conversion or look-up. */
  datatype Environment = Environment(
    w: nat, maxCmdLen: nat, strtod: string -> Option<seq<byte>>, namedFolder: string -> Option<Handle>)
  {
    ghost predicate Valid() {
      && (w == 4 || w == 8)
      && (forall s :: strtod(s).Some? ==> |strtod(s).value| == DOUBLE_BYTES)
      && (forall s :: namedFolder(s).Some? ==> |namedFolder(s).value| == w)
    }
  }

  /** A handle that Igor can give to a new string; anything else stands for the lack of memory. */
  predicate Usable(h: Handle, known: set<Handle>, w: nat) {
    |h| == w && !AllZero(h) && h !in known
  }

  /** What Igor answers to the next request for a string. */
  function Offered(supply: seq<Handle>): Handle {
    if supply == [] then [] else supply[0]
  }

  function Left(supply: seq<Handle>): seq<Handle> {
    if supply == [] then [] else supply[1..]
  }

  /**
    Handles of Igor strings that exist, with their contents, those this code has disposed of, the handles Igor
    will answer with, and the waves that belong to no data folder.
   */
  class Memory {
    const w: nat
    const freeWaves: set<Handle>
    var supply: seq<Handle>
    var live: map<Handle, string>
    ghost var disposed: seq<Handle>

    ghost predicate Valid()
      reads this
    {
      forall h {:trigger h in live} :: h in live ==> |h| == w && !AllZero(h)
    }

    /** WMNewHandle followed by the copy of the contents; the null handle when Igor has no memory. */
    method NewHandle(content: string) returns (h: Handle)
      requires Valid()
      modifies this`live, this`supply
      ensures Valid() && |h| == w && supply == Left(old(supply))
      ensures AllZero(h) <==> !Usable(Offered(old(supply)), old(live).Keys, w)
      ensures !AllZero(h) <==>
        old(supply) != [] && |old(supply)[0]| == w && !AllZero(old(supply)[0]) && old(supply)[0] !in old(live)
      ensures AllZero(h) ==> live == old(live)
      ensures !AllZero(h) ==> h == old(supply)[0] && live == old(live)[h := content]
    {
      h := Offered(supply);
      supply := Left(supply);
      if !Usable(h, live.Keys, w) {
        return Zeros(w);
      }
      live := live[h := content];
    }

    method Dispose(h: Handle)
      requires Valid() && (AllZero(h) || h in live)
      modifies this
      ensures Valid() && live == old(live) - {h} && supply == old(supply)
      ensures disposed == old(disposed) + NonNull(h)
    {
      live := live - {h};
      disposed := disposed + NonNull(h);
    }

    method GetStringFromHandle(h: Handle) returns (s: string)
      requires Valid() && (AllZero(h) || h in live)
      ensures s == Content(live, h)
    {
      if AllZero(h) {
        return "";
      }
      s := live[h];
    }
  }

  function Content(live: map<Handle, string>, h: Handle): string {
    if h in live then live[h] else ""
  }

  // ---- what a type word says about a parameter ----

  datatype Kind = NumberKind | TextKind | FolderKind | WaveKind

  datatype Param = Param(kind: Kind, ref: bool)

  /** The meaning of a type word; None for the words on which the switch statements assert. */
  function Classify(t: Word): Option<Param> {
    var base := ClearBit(t, FV_REF_TYPE);
    var ref := IsBitSet(t, FV_REF_TYPE);
    if base == NT_FP64 then Some(Param(NumberKind, ref))
    else if base == HSTRING_TYPE then Some(Param(TextKind, ref))
    else if base == DATAFOLDER_TYPE then Some(Param(FolderKind, ref))
    else if IsWaveType(base) then Some(Param(WaveKind, ref))
    else None
  }

  /** The destructor compares whole words, the extraction single bits; both select the same parameters. */
  lemma {:induction false} WordTestsAgree(t: Word)
    ensures t == HSTRING_TYPE | FV_REF_TYPE <==> Classify(t) == Some(Param(TextKind, true))
    ensures Classify(t).Some? ==> Classify(t).value.ref == IsBitSet(t, FV_REF_TYPE)
    ensures Classify(t).Some? ==>
      IsBitSet(t, NT_FP64) || IsBitSet(t, HSTRING_TYPE) || IsBitSet(t, DATAFOLDER_TYPE) || IsWaveType(t)
  {
  }

  // ---- layout of the buffer ----

  function SizeInBytes(p: Param, w: nat): nat {
    if p.kind.NumberKind? then DOUBLE_BYTES else w
  }

  lemma {:induction false} OffsetBound(sizes: seq<nat>, i: nat)
    requires i <= |sizes| && forall k :: 0 <= k < |sizes| ==> sizes[k] <= DOUBLE_BYTES
    ensures Offset(sizes, i) <= DOUBLE_BYTES * i
  {
    if i > 0 {
      OffsetBound(sizes, i - 1);
    }
  }

  predicate Laid(sizes: seq<nat>, bytes: nat) {
    Offset(sizes, |sizes|) <= bytes
  }

  lemma {:induction false} EndOfSlot(sizes: seq<nat>, i: nat, bytes: nat)
    requires i < |sizes| && Laid(sizes, bytes)
    ensures Offset(sizes, i) + sizes[i] == Offset(sizes, i + 1) <= bytes
  {
    OffsetMonotone(sizes, i + 1, |sizes|);
  }

  /** What lies at the offset of slot `i`. */
  function Slot(buf: seq<byte>, sizes: seq<nat>, i: nat): (s: seq<byte>)
    requires i < |sizes| && Laid(sizes, |buf|)
    ensures |s| == sizes[i]
  {
    EndOfSlot(sizes, i, |buf|);
    buf[Offset(sizes, i)..Offset(sizes, i) + sizes[i]]
  }

  /** The buffer cut into its slots. */
  ghost function Cut(buf: seq<byte>, sizes: seq<nat>): (s: seq<seq<byte>>)
    requires Laid(sizes, |buf|)
    ensures |s| == |sizes| && forall i :: 0 <= i < |s| ==> s[i] == Slot(buf, sizes, i)
  {
    seq(|sizes|, i requires 0 <= i < |sizes| => Slot(buf, sizes, i))
  }

  lemma {:induction false} SlotsOrdered(sizes: seq<nat>, i: nat, j: nat)
    requires i < j < |sizes|
    ensures Offset(sizes, i) + sizes[i] <= Offset(sizes, j)
    decreases j
  {
    if i < j - 1 {
      SlotsOrdered(sizes, i, j - 1);
    }
  }

  /** `b` is `a` after a memcpy of `bytes` to position `at`. */
  predicate Stored(a: seq<byte>, b: seq<byte>, at: nat, bytes: seq<byte>) {
    && |a| == |b| && at + |bytes| <= |a|
    && forall k :: 0 <= k < |a| ==> b[k] == if at <= k < at + |bytes| then bytes[k - at] else a[k]
  }

  /** Slots are disjoint: storing at the offset of one slot sets that slot and changes no other. */
  lemma {:induction false} SlotsDisjoint(a: seq<byte>, b: seq<byte>, sizes: seq<nat>, i: nat, bytes: seq<byte>, j: nat)
    requires i < |sizes| && j < |sizes| && Laid(sizes, |a|) && |bytes| == sizes[i]
    requires Stored(a, b, Offset(sizes, i), bytes)
    ensures Slot(b, sizes, j) == if j == i then bytes else Slot(a, sizes, j)
  {
    EndOfSlot(sizes, j, |a|);
    if i < j {
      SlotsOrdered(sizes, i, j);
    } else if j < i {
      SlotsOrdered(sizes, j, i);
    }
  }

  lemma {:induction false} ZeroSlot(buf: seq<byte>, sizes: seq<nat>, i: nat)
    requires i < |sizes| && Laid(sizes, |buf|) && AllZero(buf)
    ensures AllZero(Slot(buf, sizes, i))
  {
    EndOfSlot(sizes, i, |buf|);
  }

  /** The slots tile the buffer from its start: every byte below the end lies in exactly one slot. */
  lemma {:induction false} SlotsContiguous(sizes: seq<nat>, n: nat, pos: nat)
    requires n <= |sizes| && pos < Offset(sizes, n)
    ensures exists i :: 0 <= i < n && Offset(sizes, i) <= pos < Offset(sizes, i + 1)
    decreases n
  {
    if pos < Offset(sizes, n - 1) {
      SlotsContiguous(sizes, n - 1, pos);
    }
  }

  // ---- what the extraction of parameters yields ----

  datatype Value = Number(bits: seq<byte>) | Text(text: string) | Folder(folder: Handle) | WaveRef(wave: Handle)

  datatype Doc = Doc(value: Value, typeName: string)

  function TypeName(k: Kind): string {
    match k
    case NumberKind => "variable"
    case TextKind => "string"
    case FolderKind => "dfref"
    case WaveKind => "wave"
  }

  function HandleIn(union: seq<byte>, w: nat): Handle
    requires w <= |union|
  {
    union[..w]
  }

  /** The union after its value was extracted: a handle this code has released is nulled in place. */
  function Extracted(union: seq<byte>, k: Kind, w: nat, freeWaves: set<Handle>): seq<byte>
    requires w <= |union|
  {
    if k.TextKind? || k.FolderKind? || (k.WaveKind? && HandleIn(union, w) in freeWaves) then Zeros(w) + union[w..]
    else union
  }

  /** The JSON entry for a union in memory. */
  function DocOf(union: seq<byte>, k: Kind, live: map<Handle, string>, w: nat): Doc
    requires w <= |union|
  {
    var value := match k
      case NumberKind => Number(union)
      case TextKind => Text(Content(live, HandleIn(union, w)))
      case FolderKind => Folder(HandleIn(union, w))
      case WaveKind => WaveRef(HandleIn(union, w));
    Doc(value, TypeName(k))
  }

  /** An entry says what a place in memory holds whose type word, without the bit for references, is `base`. */
  predicate Described(doc: Doc, base: Word, union: seq<byte>, live: map<Handle, string>, w: nat)
    requires w <= |union|
  {
    var h := union[..w];
    && (base == 0x4 ==> doc == Doc(Number(union), "variable"))
    && (base == 0x2000 ==>
         if AllZero(h) then doc == Doc(Text(""), "string") else h in live && doc == Doc(Text(live[h]), "string"))
    && (base == 0x100 ==> doc == Doc(Folder(h), "dfref"))
    && (base & 0x4000 == 0x4000 ==> doc == Doc(WaveRef(h), "wave"))
  }

  /** String parameters: all of them, or only those passed by reference. */
  predicate Selects(p: Param, refOnly: bool) {
    p.kind.TextKind? && (refOnly ==> p.ref)
  }

  function NonNull(h: Handle): seq<Handle> {
    if AllZero(h) then [] else [h]
  }

  /** Non-null string handles in the slots lo..hi, in slot order. */
  function Handles(slots: seq<seq<byte>>, kinds: seq<Param>, refOnly: bool, lo: nat, hi: nat): seq<Handle>
    requires hi <= |kinds| == |slots|
    decreases hi
  {
    if hi <= lo then []
    else
      Handles(slots, kinds, refOnly, lo, hi - 1) +
      if Selects(kinds[hi - 1], refOnly) then NonNull(slots[hi - 1]) else []
  }

  /** Every slot is wide enough for its kind. */
  predicate Wide(slots: seq<seq<byte>>, w: nat) {
    forall i :: 0 <= i < |slots| ==> w <= |slots[i]|
  }

  /** The JSON entries of the by-reference parameters among the slots lo..hi. */
  function Docs(slots: seq<seq<byte>>, kinds: seq<Param>, live: map<Handle, string>, w: nat, lo: nat, hi: nat): seq<Doc>
    requires hi <= |kinds| == |slots| && Wide(slots, w)
    decreases hi
  {
    if hi <= lo then []
    else
      Docs(slots, kinds, live, w, lo, hi - 1) +
      if kinds[hi - 1].ref then [DocOf(slots[hi - 1], kinds[hi - 1].kind, live, w)] else []
  }

  /** Main result: the two extractions of a call split the by-reference parameters without overlap or gap. */
  lemma {:induction false} DocsPartition(slots: seq<seq<byte>>, kinds: seq<Param>, live: map<Handle, string>,
      w: nat, mid: nat, hi: nat)
    requires mid <= hi <= |kinds| == |slots| && Wide(slots, w)
    ensures Docs(slots, kinds, live, w, 0, mid) + Docs(slots, kinds, live, w, mid, hi)
         == Docs(slots, kinds, live, w, 0, hi)
    decreases hi
  {
    if mid < hi {
      DocsPartition(slots, kinds, live, w, mid, hi - 1);
    }
  }

  /** Where all parameters are passed by reference every one of them gives an entry, in order. */
  lemma {:induction false} DocsOfReferences(slots: seq<seq<byte>>, kinds: seq<Param>, live: map<Handle, string>,
      w: nat, hi: nat)
    requires hi <= |kinds| == |slots| && Wide(slots, w)
    requires forall i :: 0 <= i < hi ==> kinds[i].ref
    ensures var docs := Docs(slots, kinds, live, w, 0, hi);
      |docs| == hi && forall i :: 0 <= i < hi ==> docs[i] == DocOf(slots[i], kinds[i].kind, live, w)
  {
    if hi > 0 {
      DocsOfReferences(slots, kinds, live, w, hi - 1);
    }
  }

  lemma {:induction false} HandlesSplit(slots: seq<seq<byte>>, kinds: seq<Param>, refOnly: bool,
      lo: nat, mid: nat, hi: nat)
    requires lo <= mid <= hi <= |kinds| == |slots|
    ensures Handles(slots, kinds, refOnly, lo, mid) + Handles(slots, kinds, refOnly, mid, hi)
         == Handles(slots, kinds, refOnly, lo, hi)
    decreases hi
  {
    if mid < hi {
      HandlesSplit(slots, kinds, refOnly, lo, mid, hi - 1);
    }
  }

  lemma {:induction false} HandlesEqual(a: seq<seq<byte>>, b: seq<seq<byte>>, kinds: seq<Param>, refOnly: bool,
      lo: nat, hi: nat)
    requires hi <= |kinds| == |a| == |b|
    requires forall i :: lo <= i < hi && Selects(kinds[i], refOnly) ==> a[i] == b[i]
    ensures Handles(a, kinds, refOnly, lo, hi) == Handles(b, kinds, refOnly, lo, hi)
    decreases hi
  {
    if lo < hi {
      HandlesEqual(a, b, kinds, refOnly, lo, hi - 1);
    }
  }

  lemma {:induction false} HandlesNone(a: seq<seq<byte>>, kinds: seq<Param>, refOnly: bool, lo: nat, hi: nat)
    requires hi <= |kinds| == |a|
    requires forall i :: lo <= i < hi && Selects(kinds[i], refOnly) ==> AllZero(a[i])
    ensures Handles(a, kinds, refOnly, lo, hi) == []
    decreases hi
  {
    if lo < hi {
      HandlesNone(a, kinds, refOnly, lo, hi - 1);
    }
  }

  /** The same handles as a set. */
  function HandleSet(slots: seq<seq<byte>>, kinds: seq<Param>, refOnly: bool, lo: nat, hi: nat): set<Handle>
    requires hi <= |kinds| == |slots|
    decreases hi
  {
    if hi <= lo then {}
    else
      HandleSet(slots, kinds, refOnly, lo, hi - 1) +
      if Selects(kinds[hi - 1], refOnly) && !AllZero(slots[hi - 1]) then {slots[hi - 1]} else {}
  }

  /** Each handle in the slots lo..hi exists, and none occurs twice. */
  predicate Owned(slots: seq<seq<byte>>, kinds: seq<Param>, refOnly: bool, lo: nat, hi: nat, live: map<Handle, string>)
    requires hi <= |kinds| == |slots|
  {
    && (forall i :: lo <= i < hi && Selects(kinds[i], refOnly) ==> AllZero(slots[i]) || slots[i] in live)
    && (forall i, j :: lo <= i < j < hi && Selects(kinds[i], refOnly) && Selects(kinds[j], refOnly) ==>
         AllZero(slots[i]) || slots[i] != slots[j])
  }

  /** A handle not among the slots lo..hi. */
  lemma {:induction false} NotInSet(slots: seq<seq<byte>>, kinds: seq<Param>, refOnly: bool,
      lo: nat, hi: nat, h: Handle)
    requires hi <= |kinds| == |slots|
    requires forall i :: lo <= i < hi && Selects(kinds[i], refOnly) && !AllZero(slots[i]) ==> slots[i] != h
    ensures h !in HandleSet(slots, kinds, refOnly, lo, hi)
    decreases hi
  {
    if lo < hi {
      NotInSet(slots, kinds, refOnly, lo, hi - 1, h);
    }
  }

  lemma {:induction false} InSet(slots: seq<seq<byte>>, kinds: seq<Param>, refOnly: bool, lo: nat, hi: nat, i: nat)
    requires lo <= i < hi <= |kinds| == |slots| && Selects(kinds[i], refOnly) && !AllZero(slots[i])
    ensures slots[i] in HandleSet(slots, kinds, refOnly, lo, hi)
    decreases hi
  {
    if i < hi - 1 {
      InSet(slots, kinds, refOnly, lo, hi - 1, i);
    }
  }

  lemma {:induction false} SetEqual(a: seq<seq<byte>>, b: seq<seq<byte>>, kinds: seq<Param>, refOnly: bool,
      lo: nat, hi: nat)
    requires hi <= |kinds| == |a| == |b|
    requires forall i :: lo <= i < hi && Selects(kinds[i], refOnly) ==> a[i] == b[i]
    ensures HandleSet(a, kinds, refOnly, lo, hi) == HandleSet(b, kinds, refOnly, lo, hi)
    decreases hi
  {
    if lo < hi {
      SetEqual(a, b, kinds, refOnly, lo, hi - 1);
    }
  }

  lemma {:induction false} SetSplit(slots: seq<seq<byte>>, kinds: seq<Param>, refOnly: bool, lo: nat, mid: nat, hi: nat)
    requires lo <= mid <= hi <= |kinds| == |slots|
    ensures HandleSet(slots, kinds, refOnly, lo, mid) + HandleSet(slots, kinds, refOnly, mid, hi)
         == HandleSet(slots, kinds, refOnly, lo, hi)
    decreases hi
  {
    if mid < hi {
      SetSplit(slots, kinds, refOnly, lo, mid, hi - 1);
    }
  }

  lemma {:induction false} SetEmpty(a: seq<seq<byte>>, kinds: seq<Param>, refOnly: bool, lo: nat, hi: nat)
    requires hi <= |kinds| == |a|
    requires forall i :: lo <= i < hi && Selects(kinds[i], refOnly) ==> AllZero(a[i])
    ensures HandleSet(a, kinds, refOnly, lo, hi) == {}
    decreases hi
  {
    if lo < hi {
      SetEmpty(a, kinds, refOnly, lo, hi - 1);
    }
  }
}
