/** Type words of Igor Pro. The header with their values is not part of this model; the values are those of the
    XOP Toolkit. */
module IgorTypes {

  type Word = bv32

  const NT_CMPLX: Word := 0x1
  const NT_FP32: Word := 0x2
  const NT_FP64: Word := 0x4
  const NT_I8: Word := 0x8
  const NT_I16: Word := 0x10
  const NT_I32: Word := 0x20
  const NT_UNSIGNED: Word := 0x40
  const NT_I64: Word := 0x80
  const TEXT_WAVE_TYPE: Word := 0x0
  const DATAFOLDER_TYPE: Word := 0x100
  const FV_REF_TYPE: Word := 0x1000
  const HSTRING_TYPE: Word := 0x2000
  const WAVE_TYPE: Word := 0x4000
  const FV_NORETURN_TYPE: Word := 0x20000

  predicate IsBitSet(val: Word, bit: Word) {
    val & bit == bit
  }

  function ClearBit(val: Word, bit: Word): Word {
    val & !bit
  }

  predicate IsWaveType(igorType: Word) {
    IsBitSet(igorType, WAVE_TYPE)
  }

  /** Bytes per element; 0 for every other word, among them the complex integers. */
  function GetWaveElementSize(dataType: Word): nat {
    if dataType == NT_CMPLX | NT_FP32 then 8
    else if dataType == NT_CMPLX | NT_FP64 then 16
    else if dataType == NT_FP32 then 4
    else if dataType == NT_FP64 then 8
    else if dataType == NT_I8 || dataType == NT_I8 | NT_UNSIGNED then 1
    else if dataType == NT_I16 || dataType == NT_I16 | NT_UNSIGNED then 2
    else if dataType == NT_I32 || dataType == NT_I32 | NT_UNSIGNED then 4
    else if dataType == NT_I64 || dataType == NT_I64 | NT_UNSIGNED then 8
    else 0
  }

  /** The sizes of all element types; no other word has one. */
  lemma {:induction false} ElementSizes(t: Word)
    ensures GetWaveElementSize(t) == 1 <==> t == 0x8 || t == 0x48
    ensures GetWaveElementSize(t) == 2 <==> t == 0x10 || t == 0x50
    ensures GetWaveElementSize(t) == 4 <==> t == 0x2 || t == 0x20 || t == 0x60
    ensures GetWaveElementSize(t) == 8 <==> t == 0x4 || t == 0x3 || t == 0x80 || t == 0xC0
    ensures GetWaveElementSize(t) == 16 <==> t == 0x5
    ensures GetWaveElementSize(t) in {0, 1, 2, 4, 8, 16}
  {
    assert NT_I8 | NT_UNSIGNED == 0x48 && NT_I16 | NT_UNSIGNED == 0x50 && NT_I32 | NT_UNSIGNED == 0x60;
    assert NT_I64 | NT_UNSIGNED == 0xC0 && NT_CMPLX | NT_FP32 == 0x3 && NT_CMPLX | NT_FP64 == 0x5;
  }
}
