/**
  SerializeWave and its helpers: JSON text is written by hand into a buffer, parsed, and put into the
  document. A referenced wave is serialised, printed and parsed again as part of its parent.
 */
module SerializeWave {
  import opened Wrappers
  import opened Layout
  import opened Sequences
  import opened IgorTypes
  import opened WaveTypes
  import opened ColumnMajor
  import opened Json
  import opened WaveText
  import opened WaveDocument
  import opened Waves

  function NumberText(n: Number): string {
    if n.Finite? then n.text else Quote(NotFiniteName(n))
  }

  lemma {:induction false} NumberWritten(n: Number)
    requires ValidNumber(n)
    ensures Means(NumberText(n), NumberDoc(n))
  {
    if n.Finite? {
      NumberMeans(n.text);
    } else {
      QuoteMeans(NotFiniteName(n));
    }
  }

  /** The text of an array of numbers. */
  function NumbersText(ns: seq<Number>): string {
    ArrayText(Written(NumberText, ns))
  }

  lemma {:induction false} NumbersTextMeans(ns: seq<Number>)
    requires ValidNumbers(ns)
    ensures Means(NumbersText(ns), Arr(NumberDocs(ns))) && Parse(NumbersText(ns)) == Some(Arr(NumberDocs(ns)))
  {
    forall i | 0 <= i < |ns|
      ensures Means(Written(NumberText, ns)[i], NumberDocs(ns)[i])
    {
      NumberWritten(ns[i]);
    }
    ArrayMeans(Written(NumberText, ns), NumberDocs(ns));
    ArrayParses(Written(NumberText, ns), NumberDocs(ns));
  }

  function StringsText(ss: seq<string>): string {
    ArrayText(Written(Quote, ss))
  }

  lemma {:induction false} StringsTextParses(ss: seq<string>)
    ensures Parse(StringsText(ss)) == Some(Arr(StringDocs(ss)))
  {
    forall i | 0 <= i < |ss|
      ensures Means(Written(Quote, ss)[i], StringDocs(ss)[i])
    {
      QuoteMeans(ss[i]);
    }
    ArrayParses(Written(Quote, ss), StringDocs(ss));
  }

  // ---- the raw data ----

  /** ToString for numbers: as many as the wave has points, from `offset` on. */
  method NumbersToString(mem: seq<Number>, dataLength: nat, offset: nat) returns (buf: string)
    requires offset + dataLength <= |mem|
    ensures buf == NumbersText(mem[offset..offset + dataLength])
  {
    if dataLength == 0 {
      return "[]";
    }
    buf := OutputArray(NumberText, mem, offset, dataLength);
  }

  /** ToString for text waves: Igor hands out one block, which is read string by string. */
  method TextsToString(w: Wave) returns (buf: string)
    requires w.contents.Texts? && |w.contents.texts| == Points(w)
    ensures buf == StringsText(ShownTexts(w.contents.texts))
  {
    var dataLength := Points(w);
    if dataLength == 0 {
      return "[]";
    }
    WholeBlockReadable(w.contents.texts);
    buf := OutputTexts(TextBlock(w.contents.texts), dataLength);
  }

  function Height(w: Option<Wave>): nat
    decreases w
  {
    if w.Some? && w.value.contents.References? then 1 + HeightAll(w.value.contents.waves) else 0
  }

  function HeightAll(waves: seq<Option<Wave>>): nat
    decreases waves
  {
    if waves == [] then 0
    else
      var first, rest := Height(waves[0]), HeightAll(waves[1..]);
      if first < rest then rest else first
  }

  lemma {:induction false} HeightBelow(waves: seq<Option<Wave>>, i: nat)
    requires i < |waves|
    ensures Height(waves[i]) <= HeightAll(waves)
  {
    if i > 0 {
      HeightBelow(waves[1..], i - 1);
    }
  }

  /** The texts of referenced waves: their documents, printed. */
  function WavesText(waves: seq<Option<Wave>>): (texts: seq<string>)
    requires AllConsistent(waves)
    ensures |texts| == |waves| && forall i :: 0 <= i < |waves| ==> texts[i] == Dump(DocumentOf(waves[i]), 0)
  {
    seq(|waves|, i requires 0 <= i < |waves| => Dump(DocumentOf(waves[i]), 0))
  }

  lemma {:induction false} WavesTextParses(waves: seq<Option<Wave>>)
    requires AllConsistent(waves)
    ensures Parse(ArrayText(WavesText(waves))) == Some(Arr(WaveDocs(waves)))
  {
    forall i | 0 <= i < |waves|
      ensures Means(WavesText(waves)[i], WaveDocs(waves)[i])
    {
      WaveDocAt(waves, i);
      DocWellFormed(waves[i]);
      DumpMeans(DocumentOf(waves[i]), 0);
    }
    ArrayParses(WavesText(waves), WaveDocs(waves));
  }

  /** ToString for wave references. */
  method WavesToString(w: Wave) returns (buf: string)
    requires Consistent(w) && w.contents.References?
    ensures buf == ArrayText(WavesText(w.contents.waves))
    decreases Height(Some(w)), 0
  {
    var waves := w.contents.waves;
    var dataLength := Points(w);
    if dataLength == 0 {
      return "[]";
    }
    ghost var items := WavesText(waves);
    buf := "[";
    var i := 0;
    while i < dataLength - 1
      invariant 0 <= i <= dataLength - 1 && buf + ListTail(items[i..]) == ArrayText(items)
    {
      HeightBelow(waves, i);
      var doc := SerializeWave(waves[i]);
      ItemWritten(buf, items, i, ArrayText(items));
      buf := buf + (Dump(doc, 0) + ", ");
      i := i + 1;
    }
    HeightBelow(waves, i);
    var last := SerializeWave(waves[i]);
    LastItemWritten(buf, items, ArrayText(items));
    buf := buf + (Dump(last, 0) + "]");
  }

  /** ToString for data folder references, given by their paths. */
  method FoldersToString(w: Wave) returns (buf: string)
    requires w.contents.Folders? && |w.contents.paths| == Points(w)
    ensures buf == StringsText(w.contents.paths)
  {
    var dataLength := Points(w);
    if dataLength == 0 {
      return "[]";
    }
    buf := OutputArray(Quote, w.contents.paths, 0, dataLength);
    assert w.contents.paths[0..dataLength] == w.contents.paths;
  }

  /** What the switch statement needs to know of a wave that is not complex. */
  lemma {:induction false} WriterFits(w: Wave)
    requires Consistent(w) && !IsComplex(w)
    ensures match WriterOf(ClearBit(w.wtype, NT_CMPLX))
      case Some(NumberWriter) => w.contents.Numbers? && ValidNumbers(w.contents.mem) && |w.contents.mem| == Points(w)
      case Some(TextWriter) => w.contents.Texts? && |w.contents.texts| == Points(w)
      case Some(WaveWriter) => w.contents.References?
      case Some(FolderWriter) => w.contents.Folders? && |w.contents.paths| == Points(w)
      case None => false
  {
    SupportedIsWritten(w.wtype);
  }

  /** The text of the data of a wave that is not complex. */
  method WaveToStringImpl(w: Wave) returns (buf: string)
    requires Consistent(w) && !IsComplex(w)
    ensures Parse(buf) == Some(RawDoc(w))
    decreases Height(Some(w)), 1
  {
    WriterFits(w);
    var writer := WriterOf(ClearBit(w.wtype, NT_CMPLX));
    match writer.value
    case NumberWriter =>
      buf := NumbersToString(w.contents.mem, Points(w), 0);
      assert w.contents.mem[0..0 + Points(w)] == w.contents.mem;
      NumbersTextMeans(w.contents.mem);
    case TextWriter =>
      buf := TextsToString(w);
      StringsTextParses(ShownTexts(w.contents.texts));
    case WaveWriter =>
      buf := WavesToString(w);
      WavesTextParses(w.contents.waves);
    case FolderWriter =>
      buf := FoldersToString(w);
      StringsTextParses(w.contents.paths);
  }

  lemma {:induction false} OnlyNumbersAreComplex(w: Wave)
    requires Consistent(w) && IsComplex(w)
    ensures w.contents.Numbers? && |w.contents.mem| == 2 * Points(w)
    ensures ValidNumbers(RealPart(w)) && ValidNumbers(ImagPart(w))
    ensures RawDoc(w) == ComplexDoc(Arr(NumberDocs(RealPart(w))), Arr(NumberDocs(ImagPart(w))))
  {
  }

  lemma {:induction false} ComplexNumbersParse(re: seq<Number>, im: seq<Number>)
    requires ValidNumbers(re) && ValidNumbers(im)
    ensures Parse(ComplexText(NumbersText(re), NumbersText(im))) == Some(ComplexDoc(Arr(NumberDocs(re)),
        Arr(NumberDocs(im))))
  {
    NumbersTextMeans(re);
    NumbersTextMeans(im);
    ComplexParses(NumbersText(re), NumbersText(im), Arr(NumberDocs(re)), Arr(NumberDocs(im)));
  }

  /** The real parts, and the imaginary parts behind all of them. */
  method PartsToString(mem: seq<Number>, dataLength: nat) returns (re: string, im: string)
    requires |mem| == dataLength + dataLength
    ensures re == NumbersText(mem[..dataLength]) && im == NumbersText(mem[dataLength..])
  {
    assert mem[0..0 + dataLength] == mem[..dataLength] && mem[dataLength..dataLength + dataLength] == mem[dataLength..];
    re := NumbersToString(mem, dataLength, 0);
    im := NumbersToString(mem, dataLength, dataLength);
  }

  method WaveToString(w: Wave) returns (buf: string)
    requires Consistent(w)
    ensures Parse(buf) == Some(RawDoc(w))
    decreases Height(Some(w)), 2
  {
    if IsComplex(w) {
      OnlyNumbersAreComplex(w);
      var re, im := PartsToString(w.contents.mem, Points(w));
      buf := ComplexText(re, im);
      ComplexNumbersParse(RealPart(w), ImagPart(w));
    } else {
      buf := WaveToStringImpl(w);
    }
  }

  // ---- the other entries ----

  lemma {:induction false} NatsTextParses(ns: seq<nat>)
    ensures Parse(ArrayText(Written(NatText, ns))) == Some(Arr(NatDocs(ns)))
  {
    forall i | 0 <= i < |ns|
      ensures Means(Written(NatText, ns)[i], NatDocs(ns)[i])
    {
      NatMeans(ns[i]);
    }
    ArrayParses(Written(NatText, ns), NatDocs(ns));
  }

  lemma {:induction false} ZeroText()
    ensures ArrayText(Written(NatText, [0])) == "[0]"
  {
    assert NatText(0) == "0";
    assert Written(NatText, [0]) == ["0"];
  }

  method DimensionSizesToString(dims: seq<nat>) returns (buf: string)
    ensures Parse(buf) == Some(SizeDoc(dims))
  {
    if |dims| == 0 {
      buf := "[0]";
      ZeroText();
      NatsTextParses([0]);
    } else {
      buf := OutputArray(NatText, dims, 0, |dims|);
      assert dims[0..|dims|] == dims;
      NatsTextParses(dims);
    }
  }

  method AddDataUnitIfSet(doc: WaveDoc, w: Wave) returns (r: WaveDoc)
    requires doc.unit.None?
    ensures r == doc.(unit := UnitDoc(w.unit))
  {
    r := doc;
    if |w.unit| > 0 {
      r := r.(unit := Some(Str(w.unit)));
    }
  }

  /** An array of numbers written to the buffer and parsed. */
  method ParseNumbers(ns: seq<Number>) returns (r: Option<J>)
    requires ns != [] && ValidNumbers(ns)
    ensures r == Some(Arr(NumberDocs(ns)))
  {
    var buf := OutputArray(NumberText, ns, 0, |ns|);
    assert ns[0..|ns|] == ns;
    NumbersTextMeans(ns);
    r := Parse(buf);
  }

  /** An array of strings written to the buffer and parsed. */
  method ParseStrings(ss: seq<string>) returns (r: Option<J>)
    requires ss != []
    ensures r == Some(Arr(StringDocs(ss)))
  {
    var buf := OutputArray(Quote, ss, 0, |ss|);
    assert ss[0..|ss|] == ss;
    StringsTextParses(ss);
    r := Parse(buf);
  }

  method AddDataFullScaleIfSet(doc: WaveDoc, w: Wave) returns (r: WaveDoc)
    requires Consistent(w) && doc.fullScale.None?
    ensures r == doc.(fullScale := FullScaleDoc(w.fullScale))
    ensures r.fullScale.None? <==>
      || (w.fullScale.0.Finite? && w.fullScale.0.value == 0.0 && w.fullScale.1.Finite? && w.fullScale.1.value == 0.0)
      || (w.fullScale.0.NaN? && w.fullScale.1.NaN?)
    ensures r.fullScale.Some? ==> r.fullScale.value == Arr([NumberDoc(w.fullScale.0), NumberDoc(w.fullScale.1)])
  {
    var entries := [w.fullScale.0, w.fullScale.1];
    if FullScaleUnset(w.fullScale) {
      return doc;
    }
    var parsed := ParseNumbers(entries);
    r := doc.(fullScale := parsed);
  }

  method CollectScaling(w: Wave) returns (offset: seq<Number>, delta: seq<Number>, differentFromDefault: bool)
    requires |w.scaling| == |w.dims|
    ensures offset == Offsets(w.scaling) && delta == Deltas(w.scaling)
    ensures differentFromDefault <==> !ScalingUnset(w.scaling)
  {
    offset, delta, differentFromDefault := [], [], false;
    for i := 0 to |w.dims|
      invariant |offset| == |delta| == i
      invariant forall j :: 0 <= j < i ==> offset[j] == w.scaling[j].offset && delta[j] == w.scaling[j].delta
      invariant differentFromDefault <==> exists j :: 0 <= j < i && !DefaultScaling(w.scaling[j])
    {
      offset, delta := offset + [w.scaling[i].offset], delta + [w.scaling[i].delta];
      differentFromDefault := differentFromDefault || !DefaultScaling(w.scaling[i]);
    }
  }

  /** Offset and delta are added together, for all dimensions, once one of them differs from its default. */
  method AddDimensionScalingIfSet(doc: WaveDoc, w: Wave) returns (r: WaveDoc)
    requires Consistent(w) && doc.offset.None? && doc.delta.None?
    ensures r == doc.(offset := Entries(w, Null).offset, delta := Entries(w, Null).delta)
    ensures r.offset.None? <==> forall i :: 0 <= i < |w.dims| ==>
      && w.scaling[i].offset.Finite? && w.scaling[i].offset.value == 0.0
      && w.scaling[i].delta.Finite? && w.scaling[i].delta.value == 1.0
    ensures r.delta.None? <==> r.offset.None?
    ensures r.offset.Some? ==> r.offset.value == Arr(NumberDocs(Offsets(w.scaling)))
    ensures r.delta.Some? ==> r.delta.value == Arr(NumberDocs(Deltas(w.scaling)))
  {
    var offset, delta, differentFromDefault := CollectScaling(w);
    r := doc;
    if differentFromDefault {
      var parsed := ParseNumbers(offset);
      r := r.(offset := parsed);
      parsed := ParseNumbers(delta);
      r := r.(delta := parsed);
    }
  }

  /** The loop common to units and labels: copy the strings that are not empty. */
  method CopyNonEmpty(source: seq<string>) returns (copy: seq<string>, differentFromDefault: bool)
    ensures copy == source && (differentFromDefault <==> !AllEmpty(source))
  {
    copy, differentFromDefault := seq(|source|, _ => ""), false;
    for i := 0 to |source|
      invariant |copy| == |source|
      invariant forall j :: 0 <= j < |source| ==> copy[j] == if j < i then source[j] else ""
      invariant differentFromDefault <==> exists j :: 0 <= j < i && source[j] != ""
    {
      if |source[i]| > 0 {
        copy := copy[i := source[i]];
        differentFromDefault := true;
      }
    }
  }

  method AddDimensionUnitsIfSet(doc: WaveDoc, w: Wave) returns (r: WaveDoc)
    requires doc.dimUnit.None?
    ensures r == doc.(dimUnit := ListDoc(w.dimUnits))
  {
    r := doc;
    var units, differentFromDefault := CopyNonEmpty(w.dimUnits);
    if differentFromDefault {
      var parsed := ParseStrings(units);
      r := r.(dimUnit := parsed);
    }
  }

  method AddDimensionLabelsFullIfSet(doc: WaveDoc, w: Wave) returns (r: WaveDoc)
    requires doc.full.None?
    ensures r == doc.(full := ListDoc(w.dimLabels))
  {
    r := doc;
    var labels, differentFromDefault := CopyNonEmpty(w.dimLabels);
    if differentFromDefault {
      var parsed := ParseStrings(labels);
      r := r.(full := parsed);
    }
  }

  // ---- the labels of all indices ----

  /** The label of index `j` in dimension `i` lies behind those of all earlier dimensions. */
  lemma {:induction false} LabelPosition(labels: seq<seq<string>>, dims: seq<nat>, i: nat, j: nat)
    requires SizesOf(labels, dims)
    requires i < |dims| && j < dims[i]
    ensures Offset(dims, i) + j < |Flatten(labels)| == Offset(dims, |dims|)
    ensures Flatten(labels)[Offset(dims, i) + j] == labels[i][j]
  {
    OffsetMonotone(dims, i + 1, |dims|);
    FlattenLength(labels, dims);
    if i == 0 {
      assert Flatten(labels)[j] == labels[0][j];
    } else {
      LabelPosition(labels[1..], dims[1..], i - 1, j);
      OffsetTail(dims, i);
      var k := Offset(dims[1..], i - 1) + j;
      assert Flatten(labels)[dims[0] + k] == Flatten(labels[1..])[k];
    }
  }

  /** The first `k` positions hold the labels, the others the empty string. */
  ghost predicate Filled(labels: seq<string>, all: seq<string>, k: nat, different: bool) {
    && k <= |labels| == |all|
    && (forall p :: 0 <= p < |labels| ==> labels[p] == if p < k then all[p] else "")
    && (different <==> exists p :: 0 <= p < k && all[p] != "")
  }

  method TotalSize(dims: seq<nat>) returns (total: nat)
    ensures total == Offset(dims, |dims|)
  {
    total := 0;
    for i := 0 to |dims|
      invariant total == Offset(dims, i)
    {
      NextOffset(dims, i);
      total := total + dims[i];
    }
  }

  /** The label of one index is put at the cursor `k`, unless it is empty. */
  method PutLabel(labels: array<string>, text: string, k: nat, different: bool, ghost all: seq<string>)
    returns (r: bool)
    requires Filled(labels[..], all, k, different) && k < labels.Length && all[k] == text
    modifies labels
    ensures Filled(labels[..], all, k + 1, r)
  {
    r := different;
    if |text| > 0 {
      r := true;
      labels[k] := text;
    }
  }

  /**
    Each position of the label array is written at most once, at a cursor that never leaves the array;
    the label of index `j` in dimension `i` goes to the position given by LabelPosition.
   */
  method CollectLabels(w: Wave) returns (labels: array<string>, differentFromDefault: bool)
    requires SizesOf(w.elementLabels, w.dims)
    ensures fresh(labels) && labels[..] == Flatten(w.elementLabels)
    ensures differentFromDefault <==> !AllEmpty(Flatten(w.elementLabels))
  {
    ghost var all := Flatten(w.elementLabels);
    FlattenLength(w.elementLabels, w.dims);
    var total := TotalSize(w.dims);
    labels := new string[total](_ => "");
    differentFromDefault := false;
    var k := 0;
    for i := 0 to |w.dims|
      invariant k == Offset(w.dims, i) && Filled(labels[..], all, k, differentFromDefault)
    {
      for j := 0 to w.dims[i]
        invariant k == Offset(w.dims, i) + j && Filled(labels[..], all, k, differentFromDefault)
      {
        LabelPosition(w.elementLabels, w.dims, i, j);
        differentFromDefault := PutLabel(labels, w.elementLabels[i][j], k, differentFromDefault, all);
        k := k + 1;
      }
      NextOffset(w.dims, i);
    }
  }

  method AddDimensionLabelsEachIfSet(doc: WaveDoc, w: Wave) returns (r: WaveDoc)
    requires Consistent(w) && doc.each.None?
    ensures r == doc.(each := ListDoc(Flatten(w.elementLabels)))
  {
    r := doc;
    var labels, differentFromDefault := CollectLabels(w);
    if differentFromDefault {
      var parsed := ParseStrings(labels[..]);
      r := r.(each := parsed);
    }
  }

  method AddWaveNoteIfSet(doc: WaveDoc, w: Wave) returns (r: WaveDoc)
    requires doc.note.None?
    ensures r == doc.(note := if w.note.None? then None else Some(Str(w.note.value)))
  {
    r := doc;
    if w.note.Some? {
      r := r.(note := Some(Str(w.note.value)));
    }
  }

  /** Main result: for every wave tree the text is parsed back without error and the document is the specified one. */
  method SerializeWave(w: Option<Wave>) returns (doc: J)
    requires w.Some? ==> Consistent(w.value)
    ensures doc == DocumentOf(w)
    decreases Height(w), 3
  {
    if w.None? {
      return Null;
    }
    var wave := w.value;
    var typ := TypeString(wave.wtype);
    var rawData := WaveToString(wave);
    var dimSizesString := DimensionSizesToString(wave.dims);
    var d := WaveDoc(Str(typ), Num(NatText(wave.modDate)), Parse(rawData).value, Parse(dimSizesString).value,
                     None, None, None, None, None, None, None, None);
    d := AddDataUnitIfSet(d, wave);
    d := AddDataFullScaleIfSet(d, wave);
    d := AddDimensionScalingIfSet(d, wave);
    d := AddDimensionUnitsIfSet(d, wave);
    d := AddDimensionLabelsEachIfSet(d, wave);
    d := AddDimensionLabelsFullIfSet(d, wave);
    d := AddWaveNoteIfSet(d, wave);
    doc := ToJson(d);
  }
}
