/** Bytes, texts as bytes, and parts of given sizes that lie back to back. */
module Bytes {
  type byte = bv8

  predicate AllZero(s: seq<byte>) {
    forall i :: 0 <= i < |s| ==> s[i] == 0
  }

  function Zeros(n: nat): (z: seq<byte>)
    ensures |z| == n && AllZero(z)
  {
    seq(n, _ => 0)
  }

  /** The number of bytes of a character in UTF-8 (RFC 3629, section 3). */
  function CharBytes(c: char): nat {
    if c as int < 0x80 then 1 else if c as int < 0x800 then 2 else if c as int < 0x1_0000 then 3 else 4
  }

  /** The size of a text, as std::string counts it. */
  function TextBytes(s: string): (n: nat)
    ensures |s| <= n <= 4 * |s|
  {
    if s == "" then 0 else CharBytes(s[0]) + TextBytes(s[1..])
  }

  /** A text has as many bytes as its characters: ASCII one, other characters of 16 bits two or three, the rest four. */
  lemma {:induction false} TextBytesMeans(a: string, b: string, c: char)
    ensures TextBytes("") == 0 && TextBytes(a + b) == TextBytes(a) + TextBytes(b)
    ensures TextBytes([c]) == if c as int <= 0x7F then 1 else if c as int <= 0x7FF then 2
                              else if c as int <= 0xFFFF then 3 else 4
  {
    assert [c][1..] == "";
    if a == "" {
      assert a + b == b;
    } else {
      TextBytesMeans(a[1..], b, c);
      assert (a + b)[1..] == a[1..] + b;
    }
  }
}

module Layout {

  /** Where part `i` begins. */
  function Offset(sizes: seq<nat>, i: nat): nat
    requires i <= |sizes|
  {
    if i == 0 then 0 else Offset(sizes, i - 1) + sizes[i - 1]
  }

  lemma {:induction false} NextOffset(sizes: seq<nat>, i: nat)
    requires i < |sizes|
    ensures Offset(sizes, i + 1) == Offset(sizes, i) + sizes[i]
  {
  }

  lemma {:induction false} OffsetMonotone(sizes: seq<nat>, i: nat, j: nat)
    requires i <= j <= |sizes|
    ensures Offset(sizes, i) <= Offset(sizes, j)
    decreases j
  {
    if i < j {
      OffsetMonotone(sizes, i, j - 1);
    }
  }

  lemma {:induction false} OffsetTail(sizes: seq<nat>, i: nat)
    requires 0 < i <= |sizes|
    ensures Offset(sizes, i) == sizes[0] + Offset(sizes[1..], i - 1)
    decreases i
  {
    if i > 1 {
      OffsetTail(sizes, i - 1);
    }
  }

  function Flatten<T>(parts: seq<seq<T>>): seq<T> {
    if parts == [] then [] else parts[0] + Flatten(parts[1..])
  }

  /** The sizes are those of the parts. */
  predicate SizesOf<T>(parts: seq<seq<T>>, sizes: seq<nat>) {
    |parts| == |sizes| && forall i :: 0 <= i < |sizes| ==> |parts[i]| == sizes[i]
  }

  lemma {:induction false} FlattenLength<T>(parts: seq<seq<T>>, sizes: seq<nat>)
    requires SizesOf(parts, sizes)
    ensures |Flatten(parts)| == Offset(sizes, |sizes|)
  {
    if parts != [] {
      FlattenLength(parts[1..], sizes[1..]);
      OffsetTail(sizes, |sizes|);
    }
  }
}
