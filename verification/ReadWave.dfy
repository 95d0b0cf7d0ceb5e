/**
  What a reader of the documented wave format gets back, and the round trip: reading the document of a
  wave returns the wave, with numbers as the texts they were written as and entries that were left out
  at their documented defaults.
 */
module ReadWave {
  import opened Wrappers
  import opened IgorTypes
  import opened WaveTypes
  import opened ColumnMajor
  import opened Json
  import opened Layout
  import opened WaveText
  import opened WaveDocument
  import opened Waves

  /** A number as its text, or the name of a value that is not finite. */
  datatype NumberView = Shown(text: string) | Named(name: string)

  datatype RawView = NumberViews(numbers: seq<NumberView>) | ComplexViews(re: seq<NumberView>, im: seq<NumberView>)
                   | TextViews(texts: seq<string>) | WaveViews(waves: seq<Option<View>>)
                   | FolderViews(paths: seq<string>)

  datatype View = View(
    wtype: Word, dims: seq<nat>, raw: RawView, modDate: nat, unit: string, fullScale: Option<seq<NumberView>>,
    offset: seq<NumberView>, delta: seq<NumberView>, dimUnits: seq<string>, dimLabels: seq<string>,
    elementLabels: seq<seq<string>>, note: Option<string>)

  // ---- measure of documents ----

  function Size(j: J): nat
    decreases j
  {
    match j
    case Arr(es) => 1 + SizeAll(es)
    case Obj(ms) => 1 + SizeMembers(ms)
    case _ => 1
  }

  function SizeAll(es: seq<J>): nat
    decreases es
  {
    if es == [] then 0 else Size(es[0]) + SizeAll(es[1..])
  }

  function SizeMembers(ms: seq<Member>): nat
    decreases ms
  {
    if ms == [] then 0 else Size(ms[0].val) + SizeMembers(ms[1..])
  }

  lemma {:induction false} FindSize(ms: seq<Member>, key: string)
    ensures Find(ms, key).Some? ==> Size(Find(ms, key).value) <= SizeMembers(ms)
  {
    if ms != [] && ms[0].key != key {
      FindSize(ms[1..], key);
    }
  }

  lemma {:induction false} AtSize(j: Option<J>, key: string)
    ensures At(j, key).Some? ==> j.Some? && Size(At(j, key).value) < Size(j.value)
  {
    if At(j, key).Some? {
      FindSize(j.value.members, key);
    }
  }

  lemma {:induction false} RawSize(j: J)
    requires FromJson(j).Some?
    ensures Size(FromJson(j).value.raw) < Size(j)
  {
    AtSize(Some(j), "data");
    AtSize(At(Some(j), "data"), "raw");
  }

  // ---- reading ----

  function ReadNumber(j: J): Option<NumberView> {
    match j
    case Num(tok) => Some(Shown(tok))
    case Str(s) => Some(Named(s))
    case _ => None
  }

  function ReadString(j: J): Option<string> {
    if j.Str? then Some(j.s) else None
  }

  function ReadNat(j: J): Option<nat> {
    if j.Num? && AllDigits(j.tok) then Some(NatValue(j.tok)) else None
  }

  /** All elements, or None if one of them is not what is expected. */
  function ReadAll<T>(read: J -> Option<T>, js: seq<J>): Option<seq<T>> {
    if js == [] then Some([])
    else
      var first, rest := read(js[0]), ReadAll(read, js[1..]);
      if first.None? || rest.None? then None else Some([first.value] + rest.value)
  }

  function ReadArray<T>(read: J -> Option<T>, j: J): Option<seq<T>> {
    if j.Arr? then ReadAll(read, j.elems) else None
  }

  /** An array that may be missing; then its default stands for it. */
  function ReadOr<T>(read: J -> Option<T>, j: Option<J>, missing: seq<T>): Option<seq<T>> {
    if j.None? then Some(missing) else ReadArray(read, j.value)
  }

  function Repeat<T>(x: T, n: nat): (s: seq<T>)
    ensures |s| == n && forall i :: 0 <= i < n ==> s[i] == x
  {
    seq(n, _ => x)
  }

  /** Cuts the labels of all indices into those of each dimension. */
  function Unflatten(labels: seq<string>, dims: seq<nat>): seq<seq<string>>
    decreases |dims|
  {
    if dims == [] then []
    else if dims[0] > |labels| then [labels] + Unflatten([], dims[1..])
    else [labels[..dims[0]]] + Unflatten(labels[dims[0]..], dims[1..])
  }

  /** The word with the given name. */
  ghost function ReadType(j: J): Option<Word> {
    if exists w: Word :: TypeOf(w).Some? && j == Str(TypeString(w)) then
      var w: Word :| TypeOf(w).Some? && j == Str(TypeString(w));
      Some(w)
    else
      None
  }

  /** A wave reference that is null, or a wave. */
  ghost function Read(j: J): Option<Option<View>>
    decreases Size(j), 2
  {
    if j == Null then Some(None)
    else
      var d := FromJson(j);
      if d.None? then None
      else
        RawSize(j);
        var wtype := ReadType(d.value.typ);
        if wtype.None? then None
        else
          var raw := ReadRaw(wtype.value, d.value.raw);
          if raw.None? then None
          else
            var view := ReadEntries(d.value, wtype.value, raw.value);
            if view.None? then None else Some(Some(view.value))
  }

  ghost function ReadRaw(wtype: Word, raw: J): Option<RawView>
    requires TypeOf(wtype).Some?
    decreases Size(raw), 1
  {
    match BaseWriter(TypeOf(wtype).value.base)
    case NumberWriter =>
      if IsBitSet(wtype, NT_CMPLX) then
        var re, im := At(Some(raw), "real"), At(Some(raw), "imag");
        if re.None? || im.None? then None
        else
          var x, y := ReadArray(ReadNumber, re.value), ReadArray(ReadNumber, im.value);
          if x.None? || y.None? then None else Some(ComplexViews(x.value, y.value))
      else
        var x := ReadArray(ReadNumber, raw);
        if x.None? then None else Some(NumberViews(x.value))
    case TextWriter =>
      var x := ReadArray(ReadString, raw);
      if x.None? then None else Some(TextViews(x.value))
    case WaveWriter =>
      if !raw.Arr? then None
      else
        var x := ReadWaves(raw.elems);
        if x.None? then None else Some(WaveViews(x.value))
    case FolderWriter =>
      var x := ReadArray(ReadString, raw);
      if x.None? then None else Some(FolderViews(x.value))
  }

  ghost function ReadWaves(js: seq<J>): Option<seq<Option<View>>>
    decreases SizeAll(js), 3, |js|
  {
    if js == [] then Some([])
    else
      var first, rest := Read(js[0]), ReadWaves(js[1..]);
      if first.None? || rest.None? then None else Some([first.value] + rest.value)
  }

  datatype DimensionView = DimensionView(
    dims: seq<nat>, offset: seq<NumberView>, delta: seq<NumberView>, units: seq<string>, full: seq<string>,
    each: seq<string>)

  /** The entries below "dimension", for sizes already read. */
  function ReadDimensions(d: WaveDoc, dims: seq<nat>): Option<DimensionView> {
    var n := |dims|;
    var offset := ReadOr(ReadNumber, d.offset, Repeat(Shown("0"), n));
    var delta := ReadOr(ReadNumber, d.delta, Repeat(Shown("1"), n));
    var units, full := ReadOr(ReadString, d.dimUnit, Repeat("", n)), ReadOr(ReadString, d.full, Repeat("", n));
    var each := ReadOr(ReadString, d.each, Repeat("", Offset(dims, n)));
    if offset.None? || delta.None? || units.None? || full.None? || each.None? then None
    else Some(DimensionView(dims, offset.value, delta.value, units.value, full.value, each.value))
  }

  /** The entries other than the raw data. A size of [0] stands for no dimension. */
  function ReadEntries(d: WaveDoc, wtype: Word, raw: RawView): Option<View> {
    var size, modDate := ReadArray(ReadNat, d.size), ReadNat(d.modification);
    var unit := if d.unit.None? then Some("") else ReadString(d.unit.value);
    var fullScale := ReadOr(ReadNumber, d.fullScale, []);
    if size.None? || modDate.None? || unit.None? || fullScale.None? || (d.note.Some? && !d.note.value.Str?) then None
    else
      var v := ReadDimensions(d, if size.value == [0] then [] else size.value);
      if v.None? then None
      else Some(View(
        wtype, v.value.dims, raw, modDate.value, unit.value, if d.fullScale.None? then None else Some(fullScale.value),
        v.value.offset, v.value.delta, v.value.units, v.value.full, Unflatten(v.value.each, v.value.dims),
        if d.note.None? then None else Some(d.note.value.s)))
  }

  // ---- what is to be read ----

  function ShownAs(n: Number): NumberView {
    if n.Finite? then Shown(n.text) else Named(NotFiniteName(n))
  }

  function AllShown(ns: seq<Number>): (vs: seq<NumberView>)
    ensures |vs| == |ns| && forall i :: 0 <= i < |ns| ==> vs[i] == ShownAs(ns[i])
  {
    seq(|ns|, i requires 0 <= i < |ns| => ShownAs(ns[i]))
  }

  function ViewOf(w: Option<Wave>): Option<View>
    requires w.Some? ==> Consistent(w.value)
    decreases w
  {
    if w.None? then None
    else
      var v := w.value;
      Some(View(
        v.wtype, v.dims, RawViewOf(v), v.modDate, v.unit,
        if FullScaleUnset(v.fullScale) then None else Some(AllShown([v.fullScale.0, v.fullScale.1])),
        if ScalingUnset(v.scaling) then Repeat(Shown("0"), |v.dims|) else AllShown(Offsets(v.scaling)),
        if ScalingUnset(v.scaling) then Repeat(Shown("1"), |v.dims|) else AllShown(Deltas(v.scaling)),
        v.dimUnits, v.dimLabels, v.elementLabels, v.note))
  }

  function RawViewOf(w: Wave): RawView
    requires Consistent(w)
    decreases w
  {
    match w.contents
    case Numbers(mem) =>
      if IsComplex(w) then ComplexViews(AllShown(RealPart(w)), AllShown(ImagPart(w))) else NumberViews(AllShown(mem))
    case Texts(texts) => TextViews(ShownTexts(texts))
    case References(waves) => WaveViews(ViewsOf(waves))
    case Folders(paths) => FolderViews(paths)
  }

  function ViewsOf(waves: seq<Option<Wave>>): seq<Option<View>>
    requires AllConsistent(waves)
    decreases waves
  {
    if waves == [] then [] else [ViewOf(waves[0])] + ViewsOf(waves[1..])
  }

  // ---- the round trip ----

  lemma {:induction false} ReadAllExact<T>(read: J -> Option<T>, js: seq<J>, xs: seq<T>)
    requires |js| == |xs| && forall i :: 0 <= i < |js| ==> read(js[i]) == Some(xs[i])
    ensures ReadAll(read, js) == Some(xs)
  {
    if js == [] {
      assert xs == [];
    } else {
      ReadAllExact(read, js[1..], xs[1..]);
      assert xs == [xs[0]] + xs[1..];
    }
  }

  lemma {:induction false} NumbersRead(ns: seq<Number>)
    ensures ReadArray(ReadNumber, Arr(NumberDocs(ns))) == Some(AllShown(ns))
  {
    ReadAllExact(ReadNumber, NumberDocs(ns), AllShown(ns));
  }

  lemma {:induction false} StringsRead(ss: seq<string>)
    ensures ReadArray(ReadString, Arr(StringDocs(ss))) == Some(ss)
  {
    ReadAllExact(ReadString, StringDocs(ss), ss);
  }

  /** A list that is left out when all strings are empty is read as the same list. */
  lemma {:induction false} ListRead(ss: seq<string>, n: nat)
    requires |ss| == n
    ensures ReadOr(ReadString, ListDoc(ss), Repeat("", n)) == Some(ss)
  {
    if AllEmpty(ss) {
      assert Repeat("", n) == ss;
    } else {
      StringsRead(ss);
    }
  }

  lemma {:induction false} NatRead(n: nat)
    ensures ReadNat(Num(NatText(n))) == Some(n)
  {
    NatRoundTrip(n);
  }

  lemma {:induction false} SizeRead(dims: seq<nat>)
    ensures ReadArray(ReadNat, SizeDoc(dims)) == Some(if dims == [] then [0] else dims)
  {
    var shown := if dims == [] then [0] else dims;
    forall i | 0 <= i < |shown|
      ensures ReadNat(NatDocs(shown)[i]) == Some(shown[i])
    {
      NatRead(shown[i]);
    }
    ReadAllExact(ReadNat, NatDocs(shown), shown);
  }

  lemma {:induction false} UnflattenFlatten(labels: seq<seq<string>>, dims: seq<nat>)
    requires SizesOf(labels, dims)
    ensures Unflatten(Flatten(labels), dims) == labels
  {
    if dims != [] {
      UnflattenFlatten(labels[1..], dims[1..]);
      var all := Flatten(labels);
      assert all[..dims[0]] == labels[0] && all[dims[0]..] == Flatten(labels[1..]);
      assert labels == [labels[0]] + labels[1..];
    }
  }

  lemma {:induction false} TypeRead(w: Word)
    requires TypeOf(w).Some?
    ensures ReadType(Str(TypeString(w))) == Some(w)
  {
    var j := Str(TypeString(w));
    var v: Word :| TypeOf(v).Some? && j == Str(TypeString(v)) && ReadType(j) == Some(v);
    TypeStringInjective(v, w);
  }

  lemma {:induction false} ScalingRead(w: Wave, d: WaveDoc)
    requires Consistent(w) && d == Entries(w, d.raw)
    ensures var v, n := ViewOf(Some(w)).value, |w.dims|;
      && ReadOr(ReadNumber, d.offset, Repeat(Shown("0"), n)) == Some(v.offset)
      && ReadOr(ReadNumber, d.delta, Repeat(Shown("1"), n)) == Some(v.delta)
  {
    NumbersRead(Offsets(w.scaling));
    NumbersRead(Deltas(w.scaling));
  }

  lemma {:induction false} FullScaleRead(f: (Number, Number))
    ensures FullScaleUnset(f) || ReadOr(ReadNumber, FullScaleDoc(f), []) == Some(AllShown([f.0, f.1]))
  {
    NumbersRead([f.0, f.1]);
  }

  lemma {:induction false} ListsRead(w: Wave, d: WaveDoc)
    requires Consistent(w) && d == Entries(w, d.raw)
    ensures ReadOr(ReadString, d.dimUnit, Repeat("", |w.dims|)) == Some(w.dimUnits)
    ensures ReadOr(ReadString, d.full, Repeat("", |w.dims|)) == Some(w.dimLabels)
    ensures ReadOr(ReadString, d.each, Repeat("", Offset(w.dims, |w.dims|))) == Some(Flatten(w.elementLabels))
    ensures Unflatten(Flatten(w.elementLabels), w.dims) == w.elementLabels
  {
    UnflattenFlatten(w.elementLabels, w.dims);
    FlattenLength(w.elementLabels, w.dims);
    ListRead(w.dimUnits, |w.dims|);
    ListRead(w.dimLabels, |w.dims|);
    ListRead(Flatten(w.elementLabels), Offset(w.dims, |w.dims|));
  }

  lemma {:induction false} SinglesRead(w: Wave, d: WaveDoc)
    requires Consistent(w) && d == Entries(w, d.raw)
    ensures ReadArray(ReadNat, d.size) == Some(if w.dims == [] then [0] else w.dims) && w.dims != [0]
    ensures ReadNat(d.modification) == Some(w.modDate)
    ensures d.unit.None? ==> w.unit == ""
    ensures d.unit.Some? ==> ReadString(d.unit.value) == Some(w.unit)
    ensures d.fullScale.None? <==> FullScaleUnset(w.fullScale)
    ensures ReadOr(ReadNumber, d.fullScale, []).Some?
    ensures d.fullScale.Some? ==> ReadOr(ReadNumber, d.fullScale, []) == Some(AllShown([w.fullScale.0, w.fullScale.1]))
    ensures if w.note.None? then d.note.None? else d.note == Some(Str(w.note.value))
  {
    SizeRead(w.dims);
    NatRead(w.modDate);
    FullScaleRead(w.fullScale);
  }

  lemma {:induction false} EntriesRead(w: Wave, raw: J)
    requires Consistent(w)
    ensures ReadEntries(Entries(w, raw), w.wtype, RawViewOf(w)) == Some(ViewOf(Some(w)).value)
  {
    hide ReadAll, ReadArray, Unflatten, Flatten, RawViewOf, AllShown, NumberDocs, ReadEntries;
    var d, v := Entries(w, raw), ViewOf(Some(w)).value;
    SinglesRead(w, d);
    ListsRead(w, d);
    ScalingRead(w, d);
    Assembled(d, v, Flatten(w.elementLabels));
  }

  /** A view whose parts are read from the document is what is read from the document. */
  lemma {:induction false} Assembled(d: WaveDoc, v: View, each: seq<string>)
    requires ReadArray(ReadNat, d.size) == Some(if v.dims == [] then [0] else v.dims) && v.dims != [0]
    requires ReadNat(d.modification) == Some(v.modDate)
    requires (d.unit.None? ==> v.unit == "") && (d.unit.Some? ==> ReadString(d.unit.value) == Some(v.unit))
    requires d.fullScale.None? <==> v.fullScale.None?
    requires d.fullScale.Some? ==> ReadOr(ReadNumber, d.fullScale, []) == v.fullScale
    requires ReadDimensions(d, v.dims) == Some(DimensionView(v.dims, v.offset, v.delta, v.dimUnits, v.dimLabels, each))
    requires Unflatten(each, v.dims) == v.elementLabels
    requires if v.note.None? then d.note.None? else d.note == Some(Str(v.note.value))
    ensures ReadEntries(d, v.wtype, v.raw) == Some(v)
  {
    hide ReadDimensions, ReadAll, Unflatten;
  }

  lemma {:induction false} ComplexFound(re: J, im: J)
    ensures At(Some(ComplexDoc(re, im)), "real") == Some(re) && At(Some(ComplexDoc(re, im)), "imag") == Some(im)
  {
    FindPut(Put([], "real", re), "imag", im, "real");
    FindPut(Put([], "real", re), "imag", im, "imag");
    FindPut([], "real", re, "real");
    assert "real"[0] != "imag"[0];
  }

  lemma {:induction false} RawRead(w: Wave)
    requires Consistent(w)
    ensures ReadRaw(w.wtype, RawDoc(w)) == Some(RawViewOf(w))
    decreases w
  {
    match w.contents
    case Numbers(mem) =>
      if IsComplex(w) {
        NumbersRead(RealPart(w));
        NumbersRead(ImagPart(w));
        ComplexFound(Arr(NumberDocs(RealPart(w))), Arr(NumberDocs(ImagPart(w))));
      } else {
        NumbersRead(mem);
      }
    case Texts(texts) => StringsRead(ShownTexts(texts));
    case References(waves) => WavesRead(waves);
    case Folders(paths) => StringsRead(paths);
  }

  lemma {:induction false} WavesRead(waves: seq<Option<Wave>>)
    requires AllConsistent(waves)
    ensures ReadWaves(WaveDocs(waves)) == Some(ViewsOf(waves))
    decreases waves
  {
    if waves != [] {
      RoundTrip(waves[0]);
      WavesRead(waves[1..]);
      assert WaveDocs(waves)[1..] == WaveDocs(waves[1..]);
    }
  }

  /** Main result: reading the document of any wave tree returns the tree. */
  lemma {:induction false} RoundTrip(w: Option<Wave>)
    requires w.Some? ==> Consistent(w.value)
    ensures Read(DocumentOf(w)) == Some(ViewOf(w))
    decreases w
  {
    if w.Some? {
      var raw := RawDoc(w.value);
      DocumentRoundTrip(Entries(w.value, raw));
      TypeRead(w.value.wtype);
      RawRead(w.value);
      EntriesRead(w.value, raw);
    }
  }

  /** The same through the text of a reply: print, parse, read. */
  lemma {:induction false} RoundTripThroughText(w: Option<Wave>)
    requires w.Some? ==> Consistent(w.value)
    ensures Parse(Dump(DocumentOf(w), 0)).Some? && Read(Parse(Dump(DocumentOf(w), 0)).value) == Some(ViewOf(w))
  {
    DocWellFormed(w);
    DumpParses(DocumentOf(w));
    RoundTrip(w);
  }

  /** One element as a reader sees it; complex numbers have two halves. */
  datatype Item = NumberItem(number: NumberView) | ComplexItem(re: NumberView, im: NumberView) | TextItem(text: string)
                | WaveItem(wave: Option<View>) | FolderItem(path: string)

  /** Element `k` of raw data that was read, if there is one. */
  function ItemAt(raw: RawView, k: nat): Option<Item> {
    match raw
    case NumberViews(ns) => if k < |ns| then Some(NumberItem(ns[k])) else None
    case ComplexViews(re, im) => if k < |re| && k < |im| then Some(ComplexItem(re[k], im[k])) else None
    case TextViews(texts) => if k < |texts| then Some(TextItem(texts[k])) else None
    case WaveViews(waves) => if k < |waves| then Some(WaveItem(waves[k])) else None
    case FolderViews(paths) => if k < |paths| then Some(FolderItem(paths[k])) else None
  }

  /** What lies at position `k` of the data in memory. */
  function StoredAt(w: Wave, k: nat): Item
    requires Consistent(w) && k < Points(w)
  {
    match w.contents
    case Numbers(mem) =>
      if IsComplex(w) then ComplexItem(ShownAs(mem[k]), ShownAs(mem[Points(w) + k])) else NumberItem(ShownAs(mem[k]))
    case Texts(texts) => TextItem(ShownTexts(texts)[k])
    case References(waves) => WaveItem(ViewOf(waves[k]))
    case Folders(paths) => FolderItem(paths[k])
  }

  lemma {:induction false} ViewAt(waves: seq<Option<Wave>>, k: nat)
    requires AllConsistent(waves) && k < |waves|
    ensures |ViewsOf(waves)| == |waves| && ViewsOf(waves)[k] == ViewOf(waves[k])
  {
    if k > 0 {
      ViewAt(waves[1..], k - 1);
    } else if |waves| > 1 {
      ViewAt(waves[1..], 0);
    }
  }

  lemma {:induction false} ItemShown(w: Wave, k: nat)
    requires Consistent(w) && k < Points(w)
    ensures ItemAt(RawViewOf(w), k) == Some(StoredAt(w, k))
  {
    hide ViewOf, ShownTexts, WriterFor, Supported;
    if w.contents.References? {
      ViewAt(w.contents.waves, k);
    }
  }

  /**
    Main result, for waves of all types: for indices that GetWaveIndexInMemory accepts, the position it computes is
    where the element lies in memory, and where a reader of the printed raw data finds it.
   */
  lemma {:induction false} RawIsColumnMajor(w: Wave, dims: seq<int>)
    requires Consistent(w) && w.dims != [] && |w.dims| <= MAX_DIMENSIONS == |dims|
    requires forall i :: 0 <= i < |w.dims| ==> 0 <= dims[i] < w.dims[i]
    ensures Parse(Dump(RawDoc(w), 0)).Some? && ReadRaw(w.wtype, Parse(Dump(RawDoc(w), 0)).value).Some?
    ensures var idx, raw := Tuple(dims, |w.dims|), ReadRaw(w.wtype, Parse(Dump(RawDoc(w), 0)).value).value;
      var k := Linear(w.dims, idx);
      k < Points(w) && Delinear(w.dims, k) == idx && ItemAt(raw, k) == Some(StoredAt(w, k))
  {
    hide ItemAt, StoredAt, RawViewOf, RawDoc, ReadRaw, Consistent;
    var idx := Tuple(dims, |w.dims|);
    var k := Linear(w.dims, idx);
    LinearBelowProduct(w.dims, idx);
    DelinearLinear(w.dims, idx);
    RawWellFormed(w);
    DumpParses(RawDoc(w));
    RawRead(w);
    ItemShown(w, k);
  }

  /** A text wave is read with its own elements iff none of them has a NUL. */
  lemma {:induction false} TextsReadIff(w: Wave)
    requires Consistent(w) && w.contents.Texts?
    ensures ReadRaw(w.wtype, RawDoc(w)) == Some(TextViews(w.contents.texts)) <==> AllNulFree(w.contents.texts)
  {
    RawRead(w);
    TextsSurviveIff(w.contents.texts);
  }
}
