/**
  The document of a wave entry by entry: which entries there are, under which keys, and what they say about the wave;
  and the same for what a reader gets.
 */
module WaveReport {
  import opened Wrappers
  import opened IgorTypes
  import opened WaveTypes
  import opened ColumnMajor
  import opened Json
  import opened Layout
  import opened WaveText
  import opened WaveDocument
  import opened Waves
  import opened ReadWave
  import SerializeWave

  /** A finite number is shown as its text, any other value by name. */
  predicate Says(j: J, n: Number) {
    match n
    case Finite(_, text) => j == Num(text)
    case NaN(negative) => j == Str(if negative then "-nan" else "nan")
    case Infinite(negative) => j == Str(if negative then "-inf" else "inf")
  }

  predicate IsArray(j: Option<J>, n: nat) {
    j.Some? && j.value.Arr? && |j.value.elems| == n
  }

  predicate SaysAll(j: Option<J>, ns: seq<Number>) {
    IsArray(j, |ns|) && forall i :: 0 <= i < |ns| ==> Says(j.value.elems[i], ns[i])
  }

  predicate SaysTexts(j: Option<J>, ss: seq<string>) {
    IsArray(j, |ss|) && forall i :: 0 <= i < |ss| ==> j.value.elems[i] == Str(ss[i])
  }

  lemma {:induction false} NumberSaid(n: Number)
    ensures Says(NumberDoc(n), n)
  {
    assert "-" + "nan" == "-nan" && "-" + "inf" == "-inf" && "" + "nan" == "nan" && "" + "inf" == "inf";
  }

  lemma {:induction false} NumbersSaid(ns: seq<Number>)
    ensures SaysAll(Some(Arr(NumberDocs(ns))), ns)
  {
    forall i | 0 <= i < |ns|
      ensures Says(NumberDocs(ns)[i], ns[i])
    {
      NumberSaid(ns[i]);
    }
  }

  /** Where the entries of a wave's document are found. */
  lemma {:induction false} EntriesFound(w: Wave)
    requires Consistent(w)
    ensures var j, d := Some(DocumentOf(Some(w))), Entries(w, RawDoc(w));
      var data, dimension := At(j, "data"), At(j, "dimension");
      && At(j, "type") == Some(d.typ) && At(At(j, "date"), "modification") == Some(d.modification)
      && At(j, "note") == d.note && At(data, "raw") == Some(d.raw) && At(data, "unit") == d.unit
      && At(data, "fullScale") == d.fullScale && At(dimension, "size") == Some(d.size)
      && At(dimension, "unit") == d.dimUnit && At(dimension, "offset") == d.offset && At(dimension, "delta") == d.delta
      && At(At(dimension, "label"), "each") == d.each && At(At(dimension, "label"), "full") == d.full
  {
    var d := Entries(w, RawDoc(w));
    TopFound(d);
    DataFound(d);
    DimensionFound(d);
  }

  // ---- scaling ----

  /** In every dimension the offset is 0 and the delta is 1. */
  predicate Unscaled(w: Wave) {
    forall i :: 0 <= i < |w.scaling| ==>
      && w.scaling[i].offset.Finite? && w.scaling[i].offset.value == 0.0
      && w.scaling[i].delta.Finite? && w.scaling[i].delta.value == 1.0
  }

  /** Both limits are 0, or none of them is a number. */
  predicate NoFullScale(f: (Number, Number)) {
    || (f.0.Finite? && f.1.Finite? && f.0.value == 0.0 == f.1.value)
    || (f.0.NaN? && f.1.NaN?)
  }

  lemma {:induction false} UnscaledIff(w: Wave)
    ensures Unscaled(w) <==> ScalingUnset(w.scaling)
    ensures NoFullScale(w.fullScale) <==> FullScaleUnset(w.fullScale)
  {
  }

  /** Main result: offset and delta are both left out iff the wave is unscaled; otherwise both are given in full. */
  lemma {:induction false} ScalingReported(w: Wave)
    requires Consistent(w)
    ensures var dimension := At(Some(DocumentOf(Some(w))), "dimension");
      var offset, delta := At(dimension, "offset"), At(dimension, "delta");
      if Unscaled(w) then offset.None? && delta.None?
      else
        && IsArray(offset, |w.dims|) && IsArray(delta, |w.dims|)
        && forall i :: 0 <= i < |w.dims| ==>
             Says(offset.value.elems[i], w.scaling[i].offset) && Says(delta.value.elems[i], w.scaling[i].delta)
  {
    EntriesFound(w);
    UnscaledIff(w);
    NumbersSaid(Offsets(w.scaling));
    NumbersSaid(Deltas(w.scaling));
    hide RawDoc, DocumentOf, Says, At, Unscaled, ScalingUnset;
  }

  /** Main result: the full scale is left out iff both limits are 0 or none is a number; else both are given. */
  lemma {:induction false} FullScaleReported(w: Wave)
    requires Consistent(w)
    ensures var f := At(At(Some(DocumentOf(Some(w))), "data"), "fullScale");
      if NoFullScale(w.fullScale) then f.None?
      else IsArray(f, 2) && Says(f.value.elems[0], w.fullScale.0) && Says(f.value.elems[1], w.fullScale.1)
  {
    EntriesFound(w);
    UnscaledIff(w);
    NumbersSaid([w.fullScale.0, w.fullScale.1]);
    hide RawDoc, DocumentOf, Says, At, NoFullScale, FullScaleUnset;
  }

  // ---- the other entries ----

  lemma {:induction false} ListSaid(ss: seq<string>)
    ensures if forall i :: 0 <= i < |ss| ==> ss[i] == "" then ListDoc(ss) == None else SaysTexts(ListDoc(ss), ss)
  {
  }

  /** The wave's type, modification date, unit and note, and the units and labels of the dimensions. */
  lemma {:induction false} TextsReported(w: Wave)
    requires Consistent(w)
    ensures var j := Some(DocumentOf(Some(w)));
      && At(j, "type") == Some(Str(TypeString(w.wtype)))
      && At(At(j, "date"), "modification") == Some(Num(NatText(w.modDate)))
      && At(At(j, "data"), "unit") == (if w.unit == "" then None else Some(Str(w.unit)))
      && At(j, "note") == (if w.note.None? then None else Some(Str(w.note.value)))
    ensures var dimension := At(Some(DocumentOf(Some(w))), "dimension");
      var units, full := At(dimension, "unit"), At(At(dimension, "label"), "full");
      && (if forall i :: 0 <= i < |w.dims| ==> w.dimUnits[i] == "" then units.None? else SaysTexts(units, w.dimUnits))
      && (if forall i :: 0 <= i < |w.dims| ==> w.dimLabels[i] == "" then full.None? else SaysTexts(full, w.dimLabels))
  {
    EntriesFound(w);
    ListSaid(w.dimUnits);
    ListSaid(w.dimLabels);
    hide RawDoc, DocumentOf, At, ListDoc, TypeString, NatText;
  }

  /** The sizes; a wave without dimensions has the size 0. */
  lemma {:induction false} SizeReported(w: Wave)
    requires Consistent(w)
    ensures var size := At(At(Some(DocumentOf(Some(w))), "dimension"), "size");
      if w.dims == [] then size == Some(Arr([Num("0")]))
      else IsArray(size, |w.dims|) && forall i :: 0 <= i < |w.dims| ==> size.value.elems[i] == Num(NatText(w.dims[i]))
  {
    EntriesFound(w);
    assert NatText(0) == "0";
    assert NatDocs([0]) == [Num("0")];
    hide RawDoc, DocumentOf, At;
  }

  /** The label of index `k` in dimension `i` lies behind those of the earlier dimensions. */
  predicate Placed(all: seq<string>, labels: seq<seq<string>>, dims: seq<nat>, i: nat, k: nat) {
    i < |dims| && i < |labels| && k < |labels[i]| ==>
      Offset(dims, i) + k < |all| && all[Offset(dims, i) + k] == labels[i][k]
  }

  predicate NoLabels(labels: seq<seq<string>>) {
    forall i, k :: 0 <= i < |labels| && 0 <= k < |labels[i]| ==> labels[i][k] == ""
  }

  /** The labels of all indices: left out iff all are empty; otherwise in one list, dimension by dimension. */
  lemma {:induction false} LabelsReported(w: Wave) returns (all: seq<string>)
    requires Consistent(w)
    ensures |all| == Offset(w.dims, |w.dims|) && forall i, k :: Placed(all, w.elementLabels, w.dims, i, k)
    ensures var each := At(At(At(Some(DocumentOf(Some(w))), "dimension"), "label"), "each");
      if NoLabels(w.elementLabels) then each.None? else SaysTexts(each, all)
  {
    all := Flatten(w.elementLabels);
    EntriesFound(w);
    LabelsListed(w.elementLabels, w.dims);
    ListSaid(all);
    hide RawDoc, DocumentOf, At, ListDoc, Flatten, NoLabels, Placed, SaysTexts;
  }

  lemma {:induction false} LabelsListed(labels: seq<seq<string>>, dims: seq<nat>)
    requires SizesOf(labels, dims)
    ensures var all := Flatten(labels);
      && |all| == Offset(dims, |dims|) && (forall i, k :: Placed(all, labels, dims, i, k))
      && ((forall p :: 0 <= p < |all| ==> all[p] == "") <==> NoLabels(labels))
  {
    var all := Flatten(labels);
    FlattenLength(labels, dims);
    forall i: nat, k: nat
      ensures Placed(all, labels, dims, i, k)
    {
      if i < |dims| && k < |labels[i]| {
        SerializeWave.LabelPosition(labels, dims, i, k);
      }
    }
    if forall p :: 0 <= p < |all| ==> all[p] == "" {
      forall i, k | 0 <= i < |labels| && 0 <= k < |labels[i]|
        ensures labels[i][k] == ""
      {
        assert Placed(all, labels, dims, i, k);
      }
    }
    if NoLabels(labels) {
      forall p | 0 <= p < |all|
        ensures all[p] == ""
      {
        var i, k := LabelOf(labels, dims, p);
      }
    }
  }

  lemma {:induction false} LabelOf(labels: seq<seq<string>>, dims: seq<nat>, p: nat) returns (i: nat, k: nat)
    requires SizesOf(labels, dims) && p < |Flatten(labels)|
    ensures i < |dims| && k < dims[i] && Flatten(labels)[p] == labels[i][k]
  {
    if p < dims[0] {
      i, k := 0, p;
    } else {
      i, k := LabelOf(labels[1..], dims[1..], p - dims[0]);
      i := i + 1;
    }
  }

  // ---- the raw data ----

  /** The strings a text wave is serialised to: those of its block up to each NUL, its elements if none has one. */
  predicate ReadFrom(shown: seq<string>, texts: seq<string>) {
    && |shown| == |texts| && AllNulFree(shown) && TextBlock(shown) <= TextBlock(texts)
    && (AllNulFree(texts) ==> shown == texts)
  }

  lemma {:induction false} ShownReadFrom(texts: seq<string>)
    ensures ReadFrom(ShownTexts(texts), texts)
  {
    ShownBegins(texts);
    TextsSurviveIff(texts);
  }

  /** Main result: what the raw data of a wave look like in its document; a null reference is null. */
  lemma {:induction false} RawReported(w: Wave)
    requires Consistent(w)
    ensures DocumentOf(None) == Null
    ensures var raw := At(At(Some(DocumentOf(Some(w))), "data"), "raw");
      match w.contents
      case Numbers(mem) =>
        if w.wtype & 0x1 == 0x1 then
          |mem| == 2 * Points(w) && SaysAll(At(raw, "real"), mem[..Points(w)]) &&
          SaysAll(At(raw, "imag"), mem[Points(w)..])
        else |mem| == Points(w) && SaysAll(raw, mem)
      case Texts(texts) => exists shown :: ReadFrom(shown, texts) && SaysTexts(raw, shown)
      case References(waves) =>
        IsArray(raw, |waves|) && forall k :: 0 <= k < |waves| ==>
          (waves[k].Some? ==> Consistent(waves[k].value)) && raw.value.elems[k] == DocumentOf(waves[k])
      case Folders(paths) => SaysTexts(raw, paths)
  {
    EntriesFound(w);
    match w.contents
    case Numbers(mem) =>
      if IsComplex(w) {
        ComplexFound(Arr(NumberDocs(RealPart(w))), Arr(NumberDocs(ImagPart(w))));
        NumbersSaid(RealPart(w));
        NumbersSaid(ImagPart(w));
      } else {
        NumbersSaid(mem);
      }
    case Texts(texts) =>
      ShownReadFrom(texts);
      assert SaysTexts(Some(RawDoc(w)), ShownTexts(texts));
    case References(waves) =>
      forall k | 0 <= k < |waves|
        ensures WaveDocs(waves)[k] == DocumentOf(waves[k])
      {
        WaveDocAt(waves, k);
      }
    case Folders(_) =>
  }

  // ---- what a reader gets ----

  predicate Shows(v: NumberView, n: Number) {
    match n
    case Finite(_, text) => v == Shown(text)
    case NaN(negative) => v == Named(if negative then "-nan" else "nan")
    case Infinite(negative) => v == Named(if negative then "-inf" else "inf")
  }

  predicate ShowsAll(vs: seq<NumberView>, ns: seq<Number>) {
    |vs| == |ns| && forall i :: 0 <= i < |ns| ==> Shows(vs[i], ns[i])
  }

  lemma {:induction false} NumbersShown(ns: seq<Number>)
    ensures ShowsAll(AllShown(ns), ns)
  {
    assert "-" + "nan" == "-nan" && "-" + "inf" == "-inf" && "" + "nan" == "nan" && "" + "inf" == "inf";
  }

  /** Main result: a reader of the document finds the wave's own entries, and the defaults of those left out. */
  lemma {:induction false} EntriesReadBack(w: Wave) returns (v: View)
    requires Consistent(w)
    ensures Read(DocumentOf(Some(w))) == Some(Some(v)) && v.raw == RawViewOf(w)
    ensures v.wtype == w.wtype && v.dims == w.dims && v.modDate == w.modDate && v.unit == w.unit && v.note == w.note
    ensures v.dimUnits == w.dimUnits && v.dimLabels == w.dimLabels && v.elementLabels == w.elementLabels
    ensures |v.offset| == |v.delta| == |w.dims|
    ensures forall i :: 0 <= i < |w.dims| ==>
      if Unscaled(w) then v.offset[i] == Shown("0") && v.delta[i] == Shown("1")
      else Shows(v.offset[i], w.scaling[i].offset) && Shows(v.delta[i], w.scaling[i].delta)
    ensures
      if NoFullScale(w.fullScale) then v.fullScale.None?
      else v.fullScale.Some? && ShowsAll(v.fullScale.value, [w.fullScale.0, w.fullScale.1])
  {
    ReadWave.RoundTrip(Some(w));
    v := ViewOf(Some(w)).value;
    UnscaledIff(w);
    NumbersShown(Offsets(w.scaling));
    NumbersShown(Deltas(w.scaling));
    NumbersShown([w.fullScale.0, w.fullScale.1]);
    hide Shows, Unscaled, ScalingUnset, NoFullScale, FullScaleUnset, RawViewOf, Read, DocumentOf;
  }

  /** The raw data that are read: numbers as they are shown, halves of complex data apart, references read in turn. */
  lemma {:induction false} RawReadBack(w: Wave)
    requires Consistent(w)
    ensures Read(DocumentOf(None)) == Some(None)
    ensures match w.contents
      case Numbers(mem) =>
        var raw := RawViewOf(w);
        if w.wtype & 0x1 == 0x1 then
          raw.ComplexViews? && |mem| == 2 * Points(w) && ShowsAll(raw.re, mem[..Points(w)]) &&
          ShowsAll(raw.im, mem[Points(w)..])
        else raw.NumberViews? && ShowsAll(raw.numbers, mem)
      case Texts(texts) => RawViewOf(w).TextViews? && ReadFrom(RawViewOf(w).texts, texts)
      case References(waves) =>
        RawViewOf(w).WaveViews? && |RawViewOf(w).waves| == |waves| && forall k :: 0 <= k < |waves| ==>
          && (waves[k].Some? ==> Consistent(waves[k].value))
          && Read(DocumentOf(waves[k])) == Some(RawViewOf(w).waves[k])
      case Folders(paths) => RawViewOf(w) == FolderViews(paths)
  {
    match w.contents
    case Numbers(mem) =>
      if IsComplex(w) {
        NumbersShown(RealPart(w));
        NumbersShown(ImagPart(w));
      } else {
        NumbersShown(mem);
      }
    case Texts(texts) => ShownReadFrom(texts);
    case References(waves) =>
      if waves != [] {
        ViewAt(waves, 0);
      }
      forall k | 0 <= k < |waves|
        ensures Read(DocumentOf(waves[k])) == Some(ViewsOf(waves)[k])
      {
        ViewAt(waves, k);
        ReadWave.RoundTrip(waves[k]);
      }
    case Folders(_) =>
  }

  // ---- one wave ----

  /** Three numbers that begin at x = 5. */
  const SHIFTED: Wave := Wave(
    0x4, [3], Numbers([Finite(1.0, "1"), NaN(false), Infinite(true)]), 7, "", (Finite(0.0, "0"), Finite(0.0, "0")),
    [Scaling(Finite(5.0, "5"), Finite(1.0, "1"))], ["s"], [""], [["", "", ""]], None)

  lemma {:induction false} ShiftedConsistent()
    ensures Consistent(SHIFTED)
  {
    assert IsDigit('0') && IsDigit('1') && IsDigit('5');
    assert "0"[1..] == "" && "1"[1..] == "" && "5"[1..] == "";
    assert IsNumber("0") && IsNumber("1") && IsNumber("5");
    SupportedIff(0x4);
    assert Points(SHIFTED) == 3 by {
      assert [3][1..] == [];
      assert Product([3]) == 3 * Product([3][1..]);
    }
  }

  /** Its offset is in the document although its delta is 1, and its full scale is not. */
  lemma {:induction false} ShiftedReported()
    ensures var j := Some(DocumentOf(Some(SHIFTED)));
      && At(At(j, "dimension"), "offset") == Some(Arr([Num("5")]))
      && At(At(j, "dimension"), "delta") == Some(Arr([Num("1")])) && At(At(j, "data"), "fullScale").None?
      && At(At(j, "data"), "raw") == Some(Arr([Num("1"), Str("nan"), Str("-inf")]))
  {
    ShiftedConsistent();
    hide Consistent, DocumentOf, At;
    ScalingReported(SHIFTED);
    FullScaleReported(SHIFTED);
    RawReported(SHIFTED);
    assert !Unscaled(SHIFTED) by {
      assert SHIFTED.scaling[0].offset.value == 5.0;
    }
    var j := Some(DocumentOf(Some(SHIFTED)));
    assert At(At(j, "dimension"), "offset").value.elems == [Num("5")];
    assert At(At(j, "dimension"), "delta").value.elems == [Num("1")];
    assert At(At(j, "data"), "raw").value.elems == [Num("1"), Str("nan"), Str("-inf")];
  }
}
