/** Writing arrays as JSON text by hand (OutputArray, ToString, WaveToString of SerializeWave.cpp). */
module WaveText {
  import opened Wrappers
  import opened Sequences
  import opened Json

  // ---- arrays ----

  function Written<T>(write: T -> string, data: seq<T>): (items: seq<string>)
    ensures |items| == |data| && forall i :: 0 <= i < |data| ==> items[i] == write(data[i])
  {
    seq(|data|, i requires 0 <= i < |data| => write(data[i]))
  }

  function ListTail(items: seq<string>): string
    requires items != []
  {
    items[0] + if |items| == 1 then "]" else ", " + ListTail(items[1..])
  }

  function ArrayText(items: seq<string>): string {
    if items == [] then "[]" else "[" + ListTail(items)
  }

  /** Writing one more item, with a comma, leaves the items behind it to be written. */
  lemma {:induction false} ItemWritten(buf: string, items: seq<string>, i: nat, all: string)
    requires i < |items| - 1 && buf + ListTail(items[i..]) == all
    ensures (buf + (items[i] + ", ")) + ListTail(items[i + 1..]) == all
  {
    Reassociate(items[i], ", ", ListTail(items[i + 1..]));
    Reassociate(buf, items[i] + ", ", ListTail(items[i + 1..]));
    assert items[i..][1..] == items[i + 1..];
  }

  lemma {:induction false} LastItemWritten(buf: string, items: seq<string>, all: string)
    requires items != [] && buf + ListTail(items[|items| - 1..]) == all
    ensures buf + (items[|items| - 1] + "]") == all
  {
    assert items[|items| - 1..] == [items[|items| - 1]];
  }

  /** One pass over the data. The loop's last element is written without a comma, so there has to be one. */
  method OutputArray<T>(write: T -> string, data: seq<T>, offset: nat, dataLength: nat) returns (buf: string)
    requires 1 <= dataLength && offset + dataLength <= |data|
    ensures buf == ArrayText(Written(write, data[offset..offset + dataLength]))
  {
    ghost var items := Written(write, data[offset..offset + dataLength]);
    buf := "[";
    var i := 0;
    while i < dataLength - 1
      invariant 0 <= i <= dataLength - 1 && buf + ListTail(items[i..]) == ArrayText(items)
    {
      ItemWritten(buf, items, i, ArrayText(items));
      buf := buf + (write(data[offset + i]) + ", ");
      i := i + 1;
    }
    LastItemWritten(buf, items, ArrayText(items));
    buf := buf + (write(data[offset + i]) + "]");
  }

  function Spaced(lead: string, items: seq<string>): (s: seq<string>)
    ensures |s| == |items|
    decreases |items|
  {
    if items == [] then [] else [lead + items[0]] + Spaced(" ", items[1..])
  }

  lemma {:induction false} ListTailIsBody(lead: string, items: seq<string>)
    requires items != []
    ensures lead + ListTail(items) == Body(Spaced(lead, items), "]")
    decreases |items|
  {
    if |items| == 1 {
      Reassociate(lead, items[0], "]");
    } else {
      var tail := ListTail(items[1..]);
      ListTailIsBody(" ", items[1..]);
      assert ", " + tail == "," + (" " + tail);
      Reassociate(lead, items[0], ", " + tail);
      assert Spaced(lead, items)[1..] == Spaced(" ", items[1..]);
    }
  }

  lemma {:induction false} SpacedMean(lead: string, items: seq<string>, js: seq<J>)
    requires AllMean(items, js) && Blank(lead)
    ensures AllMean(Spaced(lead, items), js)
    decreases |items|
  {
    if items != [] {
      AllMeanSplit(items, js);
      MeansAfterBlank(lead, items[0], js[0]);
      SpacedMean(" ", items[1..], js[1..]);
    }
  }

  /** Main result: the text written for an array means the array of what its items mean. */
  lemma {:induction false} ArrayMeans(items: seq<string>, js: seq<J>)
    requires AllMean(items, js)
    ensures Means(ArrayText(items), Arr(js))
  {
    if items == [] {
      assert js == [];
      EmptyMeans("[]", Arr(js));
    } else {
      ListTailIsBody("", items);
      assert "" + ListTail(items) == ListTail(items);
      SpacedMean("", items, js);
      ListMeans(Spaced("", items), js, "");
      assert "" + "]" == "]";
    }
  }

  lemma {:induction false} ArrayParses(items: seq<string>, js: seq<J>)
    requires AllMean(items, js)
    ensures Parse(ArrayText(items)) == Some(Arr(js))
  {
    ArrayMeans(items, js);
    MeansParses(ArrayText(items), Arr(js), "");
    assert ArrayText(items) + "" == ArrayText(items);
  }

  // ---- decimal numbers ----

  function Digit(n: nat): char
    requires n < 10
  {
    '0' + n as char
  }

  function NatText(n: nat): string {
    if n < 10 then [Digit(n)] else NatText(n / 10) + [Digit(n % 10)]
  }

  predicate AllDigits(s: string) {
    forall i :: 0 <= i < |s| ==> IsDigit(s[i])
  }

  function NatValue(s: string): nat
    requires AllDigits(s)
  {
    if s == "" then 0 else 10 * NatValue(s[..|s| - 1]) + (s[|s| - 1] as nat - '0' as nat)
  }

  lemma {:induction false} NatRoundTrip(n: nat)
    ensures NatText(n) != "" && AllDigits(NatText(n)) && NatValue(NatText(n)) == n
    ensures NatText(n)[0] == '0' ==> n == 0
  {
    var s := NatText(n);
    if n < 10 {
      assert s[..0] == "";
    } else {
      NatRoundTrip(n / 10);
      assert s[..|s| - 1] == NatText(n / 10);
    }
  }

  lemma {:induction false} DigitsLenAll(s: string)
    requires AllDigits(s)
    ensures DigitsLen(s) == |s|
  {
    if s != "" {
      DigitsLenAll(s[1..]);
    }
  }

  lemma {:induction false} NatMeans(n: nat)
    ensures IsNumber(NatText(n)) && Means(NatText(n), Num(NatText(n)))
  {
    NatRoundTrip(n);
    DigitsLenAll(NatText(n));
    assert NatText(n)[|NatText(n)|..] == "";
    NumberMeans(NatText(n));
  }

  // ---- the data of a text wave: one block of NUL-terminated strings ----

  const NUL: char := 0 as char

  predicate NulFree(s: string) {
    forall i :: 0 <= i < |s| ==> s[i] != NUL
  }

  /** strlen, or the length of the block if no NUL follows. */
  function StrLen(s: string): (n: nat)
    ensures n <= |s|
  {
    if s == "" || s[0] == NUL then 0 else 1 + StrLen(s[1..])
  }

  lemma {:induction false} StrLenStopsAtNul(s: string)
    ensures NulFree(s[..StrLen(s)]) && (StrLen(s) < |s| ==> s[StrLen(s)] == NUL)
  {
    if s != "" && s[0] != NUL {
      StrLenStopsAtNul(s[1..]);
      assert s[..StrLen(s)] == [s[0]] + s[1..][..StrLen(s[1..])];
    }
  }

  function TextBlock(texts: seq<string>): string {
    if texts == [] then "" else texts[0] + ([NUL] + TextBlock(texts[1..]))
  }

  /** The block contains at least `n` terminated strings. */
  predicate Readable(block: string, n: nat) {
    n == 0 || (StrLen(block) < |block| && Readable(block[StrLen(block) + 1..], n - 1))
  }

  /** The first `n` strings of the block. */
  function Strings(block: string, n: nat): (s: seq<string>)
    requires Readable(block, n)
    ensures |s| == n && forall i :: 0 <= i < n ==> NulFree(s[i])
  {
    StrLenStopsAtNul(block);
    if n == 0 then [] else [block[..StrLen(block)]] + Strings(block[StrLen(block) + 1..], n - 1)
  }

  lemma {:induction false} StrLenExact(s: string, rest: string)
    requires NulFree(s)
    ensures StrLen(s + ([NUL] + rest)) == |s|
  {
    if s == "" {
      assert s + ([NUL] + rest) == [NUL] + rest;
    } else {
      StrLenExact(s[1..], rest);
      assert (s + ([NUL] + rest))[1..] == s[1..] + ([NUL] + rest);
    }
  }

  lemma {:induction false} OneString(s: string, behind: string, n: nat)
    requires NulFree(s) && Readable(behind, n)
    ensures Readable(s + ([NUL] + behind), n + 1)
  {
    StrLenExact(s, behind);
    assert (s + ([NUL] + behind))[|s| + 1..] == behind;
  }

  /** What is left of a string behind its first NUL, with the terminator; nothing if it has none. */
  function Leftover(s: string): string {
    if StrLen(s) < |s| then s[StrLen(s) + 1..] + [NUL] else ""
  }

  lemma {:induction false} BlockStep(s: string, more: string, n: nat)
    requires Readable(Leftover(s) + more, n)
    ensures Readable(s + ([NUL] + more), n + 1)
  {
    FirstString(s, more);
    StrLenStopsAtNul(s);
    OneString(s[..StrLen(s)], Leftover(s) + more, n);
  }

  /** Reading never runs past the block, whatever the elements contain. */
  lemma {:induction false} BlockReadable(before: string, texts: seq<string>)
    ensures Readable(before + TextBlock(texts), |texts|)
    decreases |texts|
  {
    if texts != [] {
      BlockReadable(Leftover(before + texts[0]), texts[1..]);
      BlockStep(before + texts[0], TextBlock(texts[1..]), |texts| - 1);
      BlockSplit(before, texts);
    }
  }

  lemma {:induction false} BlockSplit(before: string, texts: seq<string>)
    requires texts != []
    ensures before + TextBlock(texts) == (before + texts[0]) + ([NUL] + TextBlock(texts[1..]))
  {
    Reassociate(before, texts[0], [NUL] + TextBlock(texts[1..]));
  }

  lemma {:induction false} FirstString(s: string, more: string)
    ensures s + ([NUL] + more) == s[..StrLen(s)] + ([NUL] + (Leftover(s) + more))
  {
    var k := StrLen(s);
    StrLenStopsAtNul(s);
    if k < |s| {
      assert s == s[..k] + ([NUL] + s[k + 1..]);
      Reassociate(s[..k], [NUL] + s[k + 1..], [NUL] + more);
      Reassociate([NUL], s[k + 1..], [NUL] + more);
      Reassociate(s[k + 1..], [NUL], more);
    } else {
      assert s[..k] == s && "" + more == more;
    }
  }

  lemma {:induction false} WholeBlockReadable(texts: seq<string>)
    ensures Readable(TextBlock(texts), |texts|)
  {
    BlockReadable("", texts);
    assert "" + TextBlock(texts) == TextBlock(texts);
  }

  lemma {:induction false} StringsOfBlock(texts: seq<string>)
    requires Readable(TextBlock(texts), |texts|) && AllNulFree(texts)
    ensures Strings(TextBlock(texts), |texts|) == texts
  {
    if texts != [] {
      var t, more := texts[0], TextBlock(texts[1..]);
      var block := TextBlock(texts);
      StrLenExact(t, more);
      assert block[..|t|] == t && block[|t| + 1..] == more;
      StringsOfBlock(texts[1..]);
    }
  }

  predicate AllNulFree(texts: seq<string>) {
    forall i :: 0 <= i < |texts| ==> NulFree(texts[i])
  }

  /** What is read of the elements of a text wave. */
  function ShownTexts(texts: seq<string>): (shown: seq<string>)
    ensures |shown| == |texts|
  {
    WholeBlockReadable(texts);
    Strings(TextBlock(texts), |texts|)
  }

  /** The elements are recovered from the block iff none of them contains a NUL. */
  lemma {:induction false} TextsSurviveIff(texts: seq<string>)
    ensures ShownTexts(texts) == texts <==> AllNulFree(texts)
  {
    WholeBlockReadable(texts);
    if AllNulFree(texts) {
      StringsOfBlock(texts);
    }
  }

  /** The strings that are read are without NUL and, each followed by one, are what the block begins with. */
  lemma {:induction false} ShownBegins(texts: seq<string>)
    ensures |ShownTexts(texts)| == |texts| && AllNulFree(ShownTexts(texts))
    ensures TextBlock(ShownTexts(texts)) <= TextBlock(texts)
  {
    WholeBlockReadable(texts);
    StringsBegin(TextBlock(texts), |texts|);
  }

  lemma {:induction false} StringsBegin(block: string, n: nat)
    requires Readable(block, n)
    ensures TextBlock(Strings(block, n)) <= block
  {
    if n > 0 {
      var k := StrLen(block);
      StrLenStopsAtNul(block);
      var rest := block[k + 1..];
      StringsBegin(rest, n - 1);
      assert Strings(block, n) == [block[..k]] + Strings(rest, n - 1);
      hide StrLen, Readable, Strings;
      assert block == block[..k] + ([NUL] + rest);
      BeginsAlike(block[..k], TextBlock(Strings(rest, n - 1)), rest);
    }
  }

  lemma {:induction false} BeginsAlike(s: string, a: string, b: string)
    requires a <= b
    ensures s + ([NUL] + a) <= s + ([NUL] + b)
  {
    assert b == a + b[|a|..];
  }

  lemma {:induction false} NextString(all: seq<string>, i: nat, data: string, n: nat)
    requires n > 0 && Readable(data, n) && i + n == |all| && all[i..] == Strings(data, n)
    ensures all[i] == data[..StrLen(data)] && all[i + 1..] == Strings(data[StrLen(data) + 1..], n - 1)
  {
    assert all[i] == all[i..][0] && all[i + 1..] == all[i..][1..];
  }

  /** The pointer moves behind the NUL of each string that has been written. */
  method OutputTexts(block: string, dataLength: nat) returns (buf: string)
    requires 1 <= dataLength && Readable(block, dataLength)
    ensures buf == ArrayText(Written(Quote, Strings(block, dataLength)))
  {
    ghost var all := Strings(block, dataLength);
    ghost var items := Written(Quote, all);
    buf := "[";
    var data := block;
    var i := 0;
    while i < dataLength - 1
      invariant 0 <= i <= dataLength - 1 && Readable(data, dataLength - i)
      invariant all[i..] == Strings(data, dataLength - i)
      invariant buf + ListTail(items[i..]) == ArrayText(items)
    {
      NextString(all, i, data, dataLength - i);
      ItemWritten(buf, items, i, ArrayText(items));
      buf := buf + (Quote(data[..StrLen(data)]) + ", ");
      data := data[StrLen(data) + 1..];
      i := i + 1;
    }
    NextString(all, i, data, 1);
    LastItemWritten(buf, items, ArrayText(items));
    buf := buf + (Quote(data[..StrLen(data)]) + "]");
  }

  // ---- complex waves ----

  const BEFORE_KEY := "\n      "
  const BEHIND_KEY := "     "

  /** The fixed parts of the template for complex waves. */
  function ComplexStart(): string {
    "{" + BEFORE_KEY + Quote("real") + BEHIND_KEY + ":" + " "
  }

  function ComplexMiddle(): string {
    "," + BEFORE_KEY + Quote("imag") + BEHIND_KEY + ":" + " "
  }

  function ComplexEnd(): string {
    BEFORE_KEY + "}" + "\n   "
  }

  function ComplexText(re: string, im: string): string {
    ComplexStart() + (re + (ComplexMiddle() + (im + ComplexEnd())))
  }

  function ComplexDoc(re: J, im: J): J {
    Obj(Put(Put([], "real", re), "imag", im))
  }

  lemma {:induction false} Regroup(a: string, b: string, c: string, d: string, e: string, f: string, x: string,
      tail: string)
    ensures a + ((b + (c + (d + (e + (f + x))))) + tail) == (a + b + c + d + e + f) + (x + tail)
  {
    Reassociate(b, c + (d + (e + (f + x))), tail);
    Reassociate(c, d + (e + (f + x)), tail);
    Reassociate(d, e + (f + x), tail);
    Reassociate(e, f + x, tail);
    Reassociate(f, x, tail);
    var y := x + tail;
    Reassociate(a, b, c + (d + (e + (f + y))));
    Reassociate(a + b, c, d + (e + (f + y)));
    Reassociate(a + b + c, d, e + (f + y));
    Reassociate(a + b + c + d, e, f + y);
    Reassociate(a + b + c + d + e, f, y);
  }

  function MemberText(key: string, text: string): string {
    BEFORE_KEY + (Quote(key) + (BEHIND_KEY + (":" + (" " + text))))
  }

  /** The text of a complex wave, grouped as an object with two members. */
  lemma {:induction false} ComplexLayout(re: string, im: string)
    ensures ("{" + (MemberText("real", re) + ("," + (MemberText("imag", im) + (BEFORE_KEY + "}"))))) + "\n   "
         == ComplexText(re, im)
  {
    var end, last := BEFORE_KEY + "}", "\n   ";
    var rest := MemberText("imag", im) + end;
    Regroup("{", BEFORE_KEY, Quote("real"), BEHIND_KEY, ":", " ", re, "," + rest);
    Regroup(",", BEFORE_KEY, Quote("imag"), BEHIND_KEY, ":", " ", im, end);
    Reassociate(ComplexStart(), re + (ComplexMiddle() + (im + end)), last);
    Reassociate(re, ComplexMiddle() + (im + end), last);
    Reassociate(ComplexMiddle(), im + end, last);
    Reassociate(im, end, last);
  }

  lemma {:induction false} MemberTextMeans(key: string, text: string, j: J)
    requires Means(text, j)
    ensures MeansMember(MemberText(key, text), Member(key, j))
  {
    MeansAfterBlank(" ", text, j);
    MemberMeans(BEFORE_KEY, key, BEHIND_KEY, " " + text, j);
  }

  lemma {:induction false} TwoMembers(r: J, i: J)
    ensures FromMembers([Member("real", r), Member("imag", i)]) == Put(Put([], "real", r), "imag", i)
  {
    var ms := [Member("real", r), Member("imag", i)];
    assert ms[..1] == [Member("real", r)] && ms[..1][..0] == [];
    assert FromMembers(ms[..1]) == Put(FromMembers([]), "real", r);
  }

  /** The template for complex waves parses to an object with both parts. */
  lemma {:induction false} ComplexParses(re: string, im: string, r: J, i: J)
    requires Means(re, r) && Means(im, i)
    ensures Parse(ComplexText(re, im)) == Some(ComplexDoc(r, i))
  {
    MemberTextMeans("real", re, r);
    MemberTextMeans("imag", im, i);
    var items := [MemberText("real", re), MemberText("imag", im)];
    ObjectMeans(items, [Member("real", r), Member("imag", i)], BEFORE_KEY);
    TwoMembers(r, i);
    TwoItems(items[0], items[1], BEFORE_KEY + "}");
    MeansParses("{" + Body(items, BEFORE_KEY + "}"), ComplexDoc(r, i), "\n   ");
    ComplexLayout(re, im);
  }

  lemma {:induction false} TwoItems(a: string, b: string, end: string)
    ensures Body([a, b], end) == a + ("," + (b + end))
  {
    assert [a, b][1..] == [b];
  }
}
