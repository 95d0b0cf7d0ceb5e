/** Waves, the document each one is serialised to, and what a reader gets from that document. */
module Waves {
  import opened Wrappers
  import opened IgorTypes
  import opened WaveTypes
  import opened ColumnMajor
  import opened Json
  import opened Layout
  import opened WaveText
  import opened WaveDocument

  /** A number with the text it is formatted as; the text need not determine the value. */
  datatype Number = Finite(value: real, text: string) | NaN(negative: bool) | Infinite(negative: bool)

  /** The data in memory. The real parts of complex data come first, then the imaginary parts. */
  datatype Contents = Numbers(mem: seq<Number>) | Texts(texts: seq<string>)
      | References(waves: seq<Option<Wave>>) | Folders(paths: seq<string>)

  datatype Scaling = Scaling(offset: Number, delta: Number)

  datatype Wave = Wave(
    wtype: Word, dims: seq<nat>, contents: Contents, modDate: nat, unit: string, fullScale: (Number, Number),
    scaling: seq<Scaling>, dimUnits: seq<string>, dimLabels: seq<string>, elementLabels: seq<seq<string>>,
    note: Option<string>)

  function Points(w: Wave): nat {
    WavePoints(w.dims)
  }

  predicate IsComplex(w: Wave) {
    IsBitSet(w.wtype, NT_CMPLX)
  }

  predicate ValidNumber(n: Number) {
    n.Finite? ==> IsNumber(n.text)
  }

  predicate ValidNumbers(ns: seq<Number>) {
    forall i :: 0 <= i < |ns| ==> ValidNumber(ns[i])
  }

  function WriterFor(w: Wave): Writer
    requires Supported(w.wtype)
  {
    BaseWriter(TypeOf(w.wtype).value.base)
  }

  /** What Igor guarantees of a wave. */
  predicate Consistent(w: Wave)
    decreases w
  {
    && Supported(w.wtype)
    && |w.scaling| == |w.dimUnits| == |w.dimLabels| == |w.elementLabels| == |w.dims|
    && (forall i :: 0 <= i < |w.dims| ==> w.dims[i] > 0 && |w.elementLabels[i]| == w.dims[i])
    && ValidNumber(w.fullScale.0) && ValidNumber(w.fullScale.1)
    && (forall i :: 0 <= i < |w.scaling| ==> ValidNumber(w.scaling[i].offset) && ValidNumber(w.scaling[i].delta))
    && match w.contents
       case Numbers(mem) =>
         WriterFor(w) == NumberWriter && ValidNumbers(mem) && |mem| == if IsComplex(w) then 2 * Points(w) else Points(w)
       case Texts(texts) => WriterFor(w) == TextWriter && |texts| == Points(w)
       case References(waves) =>
         WriterFor(w) == WaveWriter && |waves| == Points(w) &&
         forall i :: 0 <= i < |waves| && waves[i].Some? ==> Consistent(waves[i].value)
       case Folders(paths) => WriterFor(w) == FolderWriter && |paths| == Points(w)
  }

  // ---- the document ----

  function NotFiniteName(n: Number): string
    requires !n.Finite?
  {
    (if n.negative then "-" else "") + if n.NaN? then "nan" else "inf"
  }

  function NumberDoc(n: Number): J {
    if n.Finite? then Num(n.text) else Str(NotFiniteName(n))
  }

  function NumberDocs(ns: seq<Number>): (js: seq<J>)
    ensures |js| == |ns| && forall i :: 0 <= i < |ns| ==> js[i] == NumberDoc(ns[i])
  {
    seq(|ns|, i requires 0 <= i < |ns| => NumberDoc(ns[i]))
  }

  function StringDocs(ss: seq<string>): (js: seq<J>)
    ensures |js| == |ss| && forall i :: 0 <= i < |ss| ==> js[i] == Str(ss[i])
  {
    seq(|ss|, i requires 0 <= i < |ss| => Str(ss[i]))
  }

  function NatDocs(ns: seq<nat>): (js: seq<J>)
    ensures |js| == |ns| && forall i :: 0 <= i < |ns| ==> js[i] == Num(NatText(ns[i]))
  {
    seq(|ns|, i requires 0 <= i < |ns| => Num(NatText(ns[i])))
  }

  function RealPart(w: Wave): seq<Number>
    requires w.contents.Numbers? && Points(w) <= |w.contents.mem|
  {
    w.contents.mem[..Points(w)]
  }

  function ImagPart(w: Wave): seq<Number>
    requires w.contents.Numbers? && Points(w) <= |w.contents.mem|
  {
    w.contents.mem[Points(w)..]
  }

  function RawDoc(w: Wave): J
    requires Consistent(w)
    decreases w
  {
    match w.contents
    case Numbers(mem) =>
      if IsComplex(w) then ComplexDoc(Arr(NumberDocs(RealPart(w))), Arr(NumberDocs(ImagPart(w))))
      else Arr(NumberDocs(mem))
    case Texts(texts) => Arr(StringDocs(ShownTexts(texts)))
    case References(waves) => Arr(WaveDocs(waves))
    case Folders(paths) => Arr(StringDocs(paths))
  }

  predicate AllConsistent(waves: seq<Option<Wave>>) {
    forall i :: 0 <= i < |waves| && waves[i].Some? ==> Consistent(waves[i].value)
  }

  function WaveDocs(waves: seq<Option<Wave>>): (js: seq<J>)
    requires AllConsistent(waves)
    ensures |js| == |waves|
    decreases waves
  {
    if waves == [] then [] else [DocumentOf(waves[0])] + WaveDocs(waves[1..])
  }

  /** What SerializeWave returns. */
  function DocumentOf(w: Option<Wave>): J
    requires w.Some? ==> Consistent(w.value)
    decreases w
  {
    if w.None? then Null else ToJson(Entries(w.value, RawDoc(w.value)))
  }

  predicate AllEmpty(ss: seq<string>) {
    forall i :: 0 <= i < |ss| ==> ss[i] == ""
  }

  function SizeDoc(dims: seq<nat>): J {
    Arr(NatDocs(if dims == [] then [0] else dims))
  }

  function UnitDoc(unit: string): Option<J> {
    if unit == "" then None else Some(Str(unit))
  }

  /** Both zero or both not a number. */
  predicate FullScaleUnset(f: (Number, Number)) {
    || (f.0.Finite? && f.0.value == 0.0 && f.1.Finite? && f.1.value == 0.0)
    || (f.0.NaN? && f.1.NaN?)
  }

  function FullScaleDoc(f: (Number, Number)): Option<J> {
    if FullScaleUnset(f) then None else Some(Arr(NumberDocs([f.0, f.1])))
  }

  /** Offset 0 and delta 1 in every dimension. */
  predicate ScalingUnset(scaling: seq<Scaling>) {
    forall i :: 0 <= i < |scaling| ==> DefaultScaling(scaling[i])
  }

  predicate DefaultScaling(s: Scaling) {
    s.offset.Finite? && s.offset.value == 0.0 && s.delta.Finite? && s.delta.value == 1.0
  }

  function Offsets(scaling: seq<Scaling>): (ns: seq<Number>)
    ensures |ns| == |scaling| && forall i :: 0 <= i < |ns| ==> ns[i] == scaling[i].offset
  {
    seq(|scaling|, i requires 0 <= i < |scaling| => scaling[i].offset)
  }

  function Deltas(scaling: seq<Scaling>): (ns: seq<Number>)
    ensures |ns| == |scaling| && forall i :: 0 <= i < |ns| ==> ns[i] == scaling[i].delta
  {
    seq(|scaling|, i requires 0 <= i < |scaling| => scaling[i].delta)
  }

  function ListDoc(ss: seq<string>): Option<J> {
    if AllEmpty(ss) then None else Some(Arr(StringDocs(ss)))
  }

  function Entries(w: Wave, raw: J): WaveDoc
    requires Supported(w.wtype)
  {
    WaveDoc(
      Str(TypeString(w.wtype)), Num(NatText(w.modDate)), raw, SizeDoc(w.dims), UnitDoc(w.unit),
      FullScaleDoc(w.fullScale),
      if ScalingUnset(w.scaling) then None else Some(Arr(NumberDocs(Offsets(w.scaling)))),
      if ScalingUnset(w.scaling) then None else Some(Arr(NumberDocs(Deltas(w.scaling)))),
      ListDoc(w.dimUnits), ListDoc(Flatten(w.elementLabels)), ListDoc(w.dimLabels),
      if w.note.None? then None else Some(Str(w.note.value)))
  }

  // ---- the document is one the printer and the parser agree on ----

  lemma {:induction false} NumbersWellFormed(ns: seq<Number>)
    requires ValidNumbers(ns)
    ensures WellFormed(Arr(NumberDocs(ns)))
  {
  }

  lemma {:induction false} StringsWellFormed(ss: seq<string>)
    ensures WellFormed(Arr(StringDocs(ss))) && OptionWellFormed(ListDoc(ss))
  {
  }

  lemma {:induction false} NatsWellFormed(ns: seq<nat>)
    ensures WellFormed(Arr(NatDocs(ns)))
  {
    forall i | 0 <= i < |ns|
      ensures WellFormed(NatDocs(ns)[i])
    {
      NatMeans(ns[i]);
    }
  }

  lemma {:induction false} ComplexWellFormed(re: J, im: J)
    requires WellFormed(re) && WellFormed(im)
    ensures WellFormed(ComplexDoc(re, im))
  {
    LessAt("imag", "real", 0);
    PutSorted([], "real", re);
    PutSorted(Put([], "real", re), "imag", im);
    var ms := Put(Put([], "real", re), "imag", im);
    assert ms == [Member("imag", im), Member("real", re)];
  }

  lemma {:induction false} RawWellFormed(w: Wave)
    requires Consistent(w)
    ensures WellFormed(RawDoc(w))
    decreases w
  {
    match w.contents
    case Numbers(mem) =>
      if IsComplex(w) {
        NumbersWellFormed(RealPart(w));
        NumbersWellFormed(ImagPart(w));
        ComplexWellFormed(Arr(NumberDocs(RealPart(w))), Arr(NumberDocs(ImagPart(w))));
      } else {
        NumbersWellFormed(mem);
      }
    case Texts(texts) => StringsWellFormed(ShownTexts(texts));
    case References(waves) => WaveDocsWellFormed(waves);
    case Folders(paths) => StringsWellFormed(paths);
  }

  lemma {:induction false} WaveDocsWellFormed(waves: seq<Option<Wave>>)
    requires AllConsistent(waves)
    ensures forall i :: 0 <= i < |waves| ==> WellFormed(WaveDocs(waves)[i])
    decreases waves
  {
    if waves != [] {
      DocWellFormed(waves[0]);
      WaveDocsWellFormed(waves[1..]);
    }
  }

  lemma {:induction false} ScalingWellFormed(w: Wave)
    requires Consistent(w)
    ensures WellFormed(Arr(NumberDocs(Offsets(w.scaling)))) && WellFormed(Arr(NumberDocs(Deltas(w.scaling))))
  {
    NumbersWellFormed(Offsets(w.scaling));
    NumbersWellFormed(Deltas(w.scaling));
  }

  lemma {:induction false} EntriesAreWellFormed(w: Wave, raw: J)
    requires Consistent(w) && WellFormed(raw)
    ensures EntriesWellFormed(Entries(w, raw))
  {
    NatMeans(w.modDate);
    NatsWellFormed(if w.dims == [] then [0] else w.dims);
    NumbersWellFormed([w.fullScale.0, w.fullScale.1]);
    ScalingWellFormed(w);
    StringsWellFormed(w.dimUnits);
    StringsWellFormed(w.dimLabels);
    StringsWellFormed(Flatten(w.elementLabels));
  }

  lemma {:induction false} DocWellFormed(w: Option<Wave>)
    requires w.Some? ==> Consistent(w.value)
    ensures WellFormed(DocumentOf(w))
    decreases w
  {
    if w.Some? {
      RawWellFormed(w.value);
      EntriesAreWellFormed(w.value, RawDoc(w.value));
      DocumentWellFormed(Entries(w.value, RawDoc(w.value)));
    }
  }

  lemma {:induction false} WaveDocAt(waves: seq<Option<Wave>>, i: nat)
    requires AllConsistent(waves) && i < |waves|
    ensures WaveDocs(waves)[i] == DocumentOf(waves[i])
  {
    if i > 0 {
      WaveDocAt(waves[1..], i - 1);
    }
  }
}
