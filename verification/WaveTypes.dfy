/** Type words of waves and their names in the serialisation (GetWaveTypeString, WaveToStringImpl). */
module WaveTypes {
  import opened Wrappers
  import opened IgorTypes

  datatype Base = FP32 | FP64 | I8 | I16 | I32 | I64 | Text | Reference | DataFolder

  datatype WaveType = WaveType(base: Base, complex: bool, unsigned: bool)

  function BaseOf(word: Word): Option<Base> {
    if word == NT_FP32 then Some(FP32)
    else if word == NT_FP64 then Some(FP64)
    else if word == NT_I8 then Some(I8)
    else if word == NT_I16 then Some(I16)
    else if word == NT_I32 then Some(I32)
    else if word == NT_I64 then Some(I64)
    else if word == TEXT_WAVE_TYPE then Some(Text)
    else if word == WAVE_TYPE then Some(Reference)
    else if word == DATAFOLDER_TYPE then Some(DataFolder)
    else None
  }

  /** None for the words on which GetWaveTypeString asserts. */
  function TypeOf(word: Word): Option<WaveType> {
    var base := BaseOf(ClearBit(ClearBit(word, NT_CMPLX), NT_UNSIGNED));
    if base.None? then None
    else Some(WaveType(base.value, IsBitSet(word, NT_CMPLX), IsBitSet(word, NT_UNSIGNED)))
  }

  predicate IsFloat(b: Base) {
    b.FP32? || b.FP64?
  }

  predicate IsInteger(b: Base) {
    b.I8? || b.I16? || b.I32? || b.I64?
  }

  /** The types Igor's waves have. */
  predicate Supported(word: Word) {
    TypeOf(word).Some? &&
    var t := TypeOf(word).value;
    (t.complex ==> IsFloat(t.base) || IsInteger(t.base)) && (t.unsigned ==> IsInteger(t.base))
  }

  /** How the elements are written; None for the words on which WaveToStringImpl asserts. */
  datatype Writer = NumberWriter | TextWriter | WaveWriter | FolderWriter

  function WriterOf(word: Word): Option<Writer> {
    if word == NT_FP32 || word == NT_FP64 || word == NT_I8 || word == NT_I16 || word == NT_I32 || word == NT_I64 ||
       word == NT_I8 | NT_UNSIGNED || word == NT_I16 | NT_UNSIGNED || word == NT_I32 | NT_UNSIGNED ||
           word == NT_I64 | NT_UNSIGNED
    then Some(NumberWriter)
    else if word == TEXT_WAVE_TYPE then Some(TextWriter)
    else if word == WAVE_TYPE then Some(WaveWriter)
    else if word == DATAFOLDER_TYPE then Some(FolderWriter)
    else None
  }

  function BaseWriter(b: Base): Writer {
    match b
    case Text => TextWriter
    case Reference => WaveWriter
    case DataFolder => FolderWriter
    case _ => NumberWriter
  }

  /** Neither of the two switch statements asserts on a supported type, and they agree on it. */
  lemma {:induction false} SupportedIsWritten(word: Word)
    requires Supported(word)
    ensures WriterOf(ClearBit(word, NT_CMPLX)) == Some(BaseWriter(TypeOf(word).value.base))
  {
  }

  function Name(b: Base): string {
    match b
    case FP32 => "NT_FP32"
    case FP64 => "NT_FP64"
    case I8 => "NT_I8"
    case I16 => "NT_I16"
    case I32 => "NT_I32"
    case I64 => "NT_I64"
    case Text => "TEXT_WAVE_TYPE"
    case Reference => "WAVE_TYPE"
    case DataFolder => "DATAFOLDER_TYPE"
  }

  function Suffix(complex: bool, unsigned: bool): string {
    (if complex then " | NT_CMPLX" else "") + (if unsigned then " | NT_UNSIGNED" else "")
  }

  /** GetWaveTypeString */
  function TypeString(word: Word): string
    requires TypeOf(word).Some?
  {
    var t := TypeOf(word).value;
    Name(t.base) + Suffix(t.complex, t.unsigned)
  }

  lemma {:induction false} NameInjective(a: Base, b: Base)
    requires Name(a) == Name(b)
    ensures a == b
  {
    var n := Name(a);
    assert |n| == 7 ==> n[5..] == Name(b)[5..];
    if |n| == 7 {
      assert n[5] == Name(b)[5];
    } else if |n| == 6 {
      assert n[4] == Name(b)[4];
    }
  }

  predicate NoSpace(s: string) {
    forall i :: 0 <= i < |s| ==> s[i] != ' '
  }

  lemma {:induction false} NameHasNoSpace(b: Base)
    ensures NoSpace(Name(b))
  {
  }

  /** A suffix is empty or begins with a space, so that the name ends where the first space is. */
  lemma {:induction false} NameEndsEarlier(a: string, b: string, x: string, y: string)
    requires NoSpace(b) && a + x == b + y && (x == "" || x[0] == ' ')
    ensures |b| <= |a|
  {
    var s := b + y;
    assert forall i :: 0 <= i < |b| ==> s[i] == b[i];
    assert x != "" ==> (a + x)[|a|] == x[0];
    assert |a + x| == |a| + |x| && |s| == |b| + |y|;
  }

  lemma {:induction false} NameAndSuffix(a: string, b: string, x: string, y: string)
    requires NoSpace(a) && NoSpace(b) && a + x == b + y
    requires (x == "" || x[0] == ' ') && (y == "" || y[0] == ' ')
    ensures a == b && x == y
  {
    NameEndsEarlier(a, b, x, y);
    NameEndsEarlier(b, a, y, x);
    assert (a + x)[..|a|] == a && (a + x)[|a|..] == x && (b + y)[..|b|] == b && (b + y)[|b|..] == y;
  }

  lemma {:induction false} SuffixInjective(c: bool, u: bool, c': bool, u': bool)
    requires Suffix(c, u) == Suffix(c', u')
    ensures c == c' && u == u'
  {
    assert |Suffix(c, u)| == (if c then 11 else 0) + (if u then 14 else 0);
    assert |Suffix(c', u')| == (if c' then 11 else 0) + (if u' then 14 else 0);
  }

  /** The word of a type. */
  function WordOf(t: WaveType): Word {
    (match t.base
     case FP32 => NT_FP32
     case FP64 => NT_FP64
     case I8 => NT_I8
     case I16 => NT_I16
     case I32 => NT_I32
     case I64 => NT_I64
     case Text => TEXT_WAVE_TYPE
     case Reference => WAVE_TYPE
     case DataFolder => DATAFOLDER_TYPE) |
    (if t.complex then NT_CMPLX else 0) | (if t.unsigned then NT_UNSIGNED else 0)
  }

  lemma {:induction false} WordOfTypeOf(word: Word)
    requires TypeOf(word).Some?
    ensures WordOf(TypeOf(word).value) == word
  {
  }

  /** Main result: the type string determines the type word. */
  lemma {:induction false} TypeStringInjective(v: Word, w: Word)
    requires TypeOf(v).Some? && TypeOf(w).Some? && TypeString(v) == TypeString(w)
    ensures v == w
  {
    var s, t := TypeOf(v).value, TypeOf(w).value;
    SameTypeString(s, t);
    WordOfTypeOf(v);
    WordOfTypeOf(w);
  }

  lemma {:induction false} SuffixStart(c: bool, u: bool)
    ensures Suffix(c, u) == "" || Suffix(c, u)[0] == ' '
  {
  }

  lemma {:induction false} SameTypeString(s: WaveType, t: WaveType)
    requires Name(s.base) + Suffix(s.complex, s.unsigned) == Name(t.base) + Suffix(t.complex, t.unsigned)
    ensures s == t
  {
    NameHasNoSpace(s.base);
    NameHasNoSpace(t.base);
    SuffixStart(s.complex, s.unsigned);
    SuffixStart(t.complex, t.unsigned);
    NameAndSuffix(Name(s.base), Name(t.base), Suffix(s.complex, s.unsigned), Suffix(t.complex, t.unsigned));
    NameInjective(s.base, t.base);
    SuffixInjective(s.complex, s.unsigned, t.complex, t.unsigned);
  }

  /** A word without the bits for complex and unsigned data. */
  function Plain(word: Word): Word {
    word & 0xFFFF_FFBE
  }

  /** Main result: the type string is the name of the base type, then those of the flags, complex before unsigned. */
  lemma {:induction false} TypeStringMeans(word: Word)
    ensures TypeOf(word).Some? <==> Plain(word) in {0x0, 0x2, 0x4, 0x8, 0x10, 0x20, 0x80, 0x100, 0x4000}
    ensures TypeOf(word).Some? ==>
      var complex := if word & 0x1 == 0x1 then " | NT_CMPLX" else "";
      var unsigned := if word & 0x40 == 0x40 then " | NT_UNSIGNED" else "";
      TypeString(word) == BaseName(Plain(word)) + (complex + unsigned)
  {
    assert ClearBit(ClearBit(word, NT_CMPLX), NT_UNSIGNED) == Plain(word);
  }

  /** The names by word; empty for any other word. */
  function BaseName(word: Word): string {
    if word == 0x2 then "NT_FP32"
    else if word == 0x4 then "NT_FP64"
    else if word == 0x8 then "NT_I8"
    else if word == 0x10 then "NT_I16"
    else if word == 0x20 then "NT_I32"
    else if word == 0x80 then "NT_I64"
    else if word == 0x0 then "TEXT_WAVE_TYPE"
    else if word == 0x4000 then "WAVE_TYPE"
    else if word == 0x100 then "DATAFOLDER_TYPE"
    else ""
  }

  /** The supported words: numbers, real or complex, integers also unsigned, texts, wave and data folder references. */
  lemma {:induction false} SupportedIff(word: Word)
    ensures Supported(word) <==>
      || Plain(word) in {0x8, 0x10, 0x20, 0x80}
      || word in {0x2, 0x3, 0x4, 0x5, 0x0, 0x100, 0x4000}
  {
    assert ClearBit(ClearBit(word, NT_CMPLX), NT_UNSIGNED) == Plain(word);
  }
}
