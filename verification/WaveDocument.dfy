/** The JSON object a wave is serialised to: which entries there are and under which keys. */
module WaveDocument {
  import opened Wrappers
  import opened Json

  /** An entry that may be missing. */
  datatype Field = Field(key: string, val: Option<J>)

  function Fields(fs: seq<Field>): seq<Member> {
    if fs == [] then []
    else (if fs[0].val.Some? then [Member(fs[0].key, fs[0].val.value)] else []) + Fields(fs[1..])
  }

  /** Each key is below the next one. */
  predicate Ascending(fs: seq<Field>) {
    forall i :: 0 <= i < |fs| - 1 ==> Less(fs[i].key, fs[i + 1].key)
  }

  predicate AllAbove(key: string, ms: seq<Member>) {
    forall i :: 0 <= i < |ms| ==> Less(key, ms[i].key)
  }

  lemma {:induction false} FieldsSorted(fs: seq<Field>, below: string)
    requires Ascending(fs) && (fs != [] ==> Less(below, fs[0].key))
    ensures Sorted(Fields(fs)) && AllAbove(below, Fields(fs))
  {
    if fs != [] {
      FieldsSorted(fs[1..], fs[0].key);
      var rest := Fields(fs[1..]);
      forall i | 0 <= i < |rest|
        ensures Less(below, rest[i].key)
      {
        LessTransitive(below, fs[0].key, rest[i].key);
      }
    }
  }

  lemma {:induction false} FieldsValues(fs: seq<Field>)
    requires forall i :: 0 <= i < |fs| && fs[i].val.Some? ==> WellFormed(fs[i].val.value)
    ensures AllWellFormed(Fields(fs))
  {
    if fs != [] {
      FieldsValues(fs[1..]);
    }
  }

  lemma {:induction false} NotFound(ms: seq<Member>, key: string)
    requires AllAbove(key, ms)
    ensures Find(ms, key).None?
  {
    if ms != [] {
      LessIrreflexive(key);
      NotFound(ms[1..], key);
    }
  }

  lemma {:induction false} FieldFound(fs: seq<Field>, i: nat)
    requires Ascending(fs) && i < |fs|
    ensures Find(Fields(fs), fs[i].key) == fs[i].val
  {
    var rest := Fields(fs[1..]);
    FieldsSorted(fs[1..], fs[0].key);
    if i == 0 {
      NotFound(rest, fs[0].key);
      if fs[0].val.Some? {
        assert Fields(fs)[0].key == fs[0].key;
      } else {
        assert Fields(fs) == rest;
      }
    } else {
      FieldFound(fs[1..], i - 1);
      KeyAbove(fs, i);
      LessIrreflexive(fs[0].key);
      if fs[0].val.Some? {
        assert Fields(fs)[0].key == fs[0].key && Fields(fs)[1..] == rest;
      } else {
        assert Fields(fs) == rest;
      }
    }
  }

  lemma {:induction false} KeyAbove(fs: seq<Field>, i: nat)
    requires Ascending(fs) && 0 < i < |fs|
    ensures Less(fs[0].key, fs[i].key)
  {
    if i > 1 {
      KeyAbove(fs, i - 1);
      LessTransitive(fs[0].key, fs[i - 1].key, fs[i].key);
    }
  }

  // ---- the document of a wave ----

  datatype WaveDoc = WaveDoc(
    typ: J, modification: J, raw: J, size: J,
    unit: Option<J>, fullScale: Option<J>, offset: Option<J>, delta: Option<J>,
    dimUnit: Option<J>, each: Option<J>, full: Option<J>, note: Option<J>)

  function LabelFields(d: WaveDoc): seq<Field> {
    [Field("each", d.each), Field("full", d.full)]
  }

  function DataFields(d: WaveDoc): seq<Field> {
    [Field("fullScale", d.fullScale), Field("raw", Some(d.raw)), Field("unit", d.unit)]
  }

  function DimensionFields(d: WaveDoc): seq<Field> {
    [Field("delta", d.delta),
     Field("label", if d.each.None? && d.full.None? then None else Some(Obj(Fields(LabelFields(d))))),
     Field("offset", d.offset), Field("size", Some(d.size)), Field("unit", d.dimUnit)]
  }

  function DateFields(d: WaveDoc): seq<Field> {
    [Field("modification", Some(d.modification))]
  }

  function TopFields(d: WaveDoc): seq<Field> {
    [Field("data", Some(Obj(Fields(DataFields(d))))), Field("date", Some(Obj(Fields(DateFields(d))))),
     Field("dimension", Some(Obj(Fields(DimensionFields(d))))), Field("note", d.note), Field("type", Some(d.typ))]
  }

  function ToJson(d: WaveDoc): J {
    Obj(Fields(TopFields(d)))
  }

  /** The first `k` characters agree, the next one decides. */
  lemma {:induction false} LessAt(a: string, b: string, k: nat)
    requires k < |a| && k < |b| && a[..k] == b[..k] && a[k] < b[k]
    ensures Less(a, b)
  {
    if k > 0 {
      assert a[0] == a[..k][0] == b[..k][0] == b[0];
      assert a[1..][..k - 1] == a[..k][1..] == b[..k][1..] == b[1..][..k - 1];
      LessAt(a[1..], b[1..], k - 1);
    }
  }

  lemma {:induction false} KeysAscend(d: WaveDoc)
    ensures Ascending(LabelFields(d)) && Ascending(DataFields(d)) && Ascending(DimensionFields(d))
    ensures Ascending(DateFields(d)) && Ascending(TopFields(d))
  {
    LessAt("each", "full", 0);
    LessAt("fullScale", "raw", 0);
    LessAt("raw", "unit", 0);
    LessAt("delta", "label", 0);
    LessAt("label", "offset", 0);
    LessAt("offset", "size", 0);
    LessAt("size", "unit", 0);
    LessAt("data", "date", 3);
    LessAt("date", "dimension", 1);
    LessAt("dimension", "note", 0);
    LessAt("note", "type", 0);
  }

  /** The entry of an object; None for what is no object or has no such key. */
  function At(j: Option<J>, key: string): Option<J> {
    if j.Some? && j.value.Obj? then Find(j.value.members, key) else None
  }

  /** Reading a document by the documented keys. */
  function FromJson(j: J): Option<WaveDoc> {
    var data, dimension := At(Some(j), "data"), At(Some(j), "dimension");
    var (typ, modification, raw, size) := (At(Some(j), "type"), At(At(Some(j), "date"), "modification"),
        At(data, "raw"), At(dimension, "size"));
    if typ.None? || modification.None? || raw.None? || size.None? then None
    else
      var labels := At(dimension, "label");
      Some(WaveDoc(typ.value, modification.value, raw.value, size.value, At(data, "unit"), At(data, "fullScale"),
                   At(dimension, "offset"), At(dimension, "delta"), At(dimension, "unit"),
                   At(labels, "each"), At(labels, "full"), At(Some(j), "note")))
  }

  lemma {:induction false} TopFound(d: WaveDoc)
    ensures var j := Some(ToJson(d));
      && At(j, "data") == Some(Obj(Fields(DataFields(d)))) && At(j, "date") == Some(Obj(Fields(DateFields(d))))
      && At(j, "dimension") == Some(Obj(Fields(DimensionFields(d)))) && At(j, "note") == d.note &&
          At(j, "type") == Some(d.typ)
  {
    KeysAscend(d);
    var fs := TopFields(d);
    FieldFound(fs, 0);
    FieldFound(fs, 1);
    FieldFound(fs, 2);
    FieldFound(fs, 3);
    FieldFound(fs, 4);
  }

  lemma {:induction false} DataFound(d: WaveDoc)
    ensures var j := Some(Obj(Fields(DataFields(d))));
      At(j, "fullScale") == d.fullScale && At(j, "raw") == Some(d.raw) && At(j, "unit") == d.unit
    ensures At(Some(Obj(Fields(DateFields(d)))), "modification") == Some(d.modification)
  {
    KeysAscend(d);
    FieldFound(DataFields(d), 0);
    FieldFound(DataFields(d), 1);
    FieldFound(DataFields(d), 2);
    FieldFound(DateFields(d), 0);
  }

  lemma {:induction false} DimensionFound(d: WaveDoc)
    ensures var j := Some(Obj(Fields(DimensionFields(d))));
      && At(j, "delta") == d.delta && At(j, "offset") == d.offset && At(j, "size") == Some(d.size) &&
          At(j, "unit") == d.dimUnit
      && At(At(j, "label"), "each") == d.each && At(At(j, "label"), "full") == d.full
  {
    KeysAscend(d);
    var fs := DimensionFields(d);
    FieldFound(fs, 0);
    FieldFound(fs, 1);
    FieldFound(fs, 2);
    FieldFound(fs, 3);
    FieldFound(fs, 4);
    FieldFound(LabelFields(d), 0);
    FieldFound(LabelFields(d), 1);
  }

  /** Main result: every entry is found again under its key, and missing entries are missing. */
  lemma {:induction false} DocumentRoundTrip(d: WaveDoc)
    ensures FromJson(ToJson(d)) == Some(d)
  {
    TopFound(d);
    DataFound(d);
    DimensionFound(d);
  }

  predicate OptionWellFormed(j: Option<J>) {
    j.Some? ==> WellFormed(j.value)
  }

  predicate EntriesWellFormed(d: WaveDoc) {
    && WellFormed(d.typ) && WellFormed(d.modification) && WellFormed(d.raw) && WellFormed(d.size)
    && OptionWellFormed(d.unit) && OptionWellFormed(d.fullScale)
    && OptionWellFormed(d.offset) && OptionWellFormed(d.delta)
    && OptionWellFormed(d.dimUnit) && OptionWellFormed(d.each) && OptionWellFormed(d.full) && OptionWellFormed(d.note)
  }

  lemma {:induction false} FieldsWellFormed(fs: seq<Field>)
    requires Ascending(fs) && fs != [] && fs[0].key != ""
    requires forall i :: 0 <= i < |fs| ==> OptionWellFormed(fs[i].val)
    ensures WellFormed(Obj(Fields(fs)))
  {
    FieldsSorted(fs, "");
    FieldsValues(fs);
  }

  lemma {:induction false} DocumentWellFormed(d: WaveDoc)
    requires EntriesWellFormed(d)
    ensures WellFormed(ToJson(d))
  {
    KeysAscend(d);
    FieldsWellFormed(LabelFields(d));
    FieldsWellFormed(DataFields(d));
    FieldsWellFormed(DateFields(d));
    FieldsWellFormed(DimensionFields(d));
    FieldsWellFormed(TopFields(d));
  }
}
