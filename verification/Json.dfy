/**
  The part of JSON (RFC 7158) that serialised waves need: a parser, the printer of the JSON library
  with its indentation, and the theorem that the printer's output parses to what was printed.

  Numbers are tokens. An object lists its members by ascending key, as the library's maps do.
 */
module Json {
  import opened Wrappers
  import opened Sequences

  datatype J = Null | Bool(b: bool) | Num(tok: string) | Str(s: string) | Arr(elems: seq<J>) | Obj(members: seq<Member>)

  datatype Member = Member(key: string, val: J)

  // ---- objects ----

  /** Lexicographic order of keys. */
  predicate Less(a: string, b: string) {
    b != "" && (a == "" || a[0] < b[0] || (a[0] == b[0] && Less(a[1..], b[1..])))
  }

  lemma {:induction false} LessTransitive(a: string, b: string, c: string)
    requires Less(a, b) && Less(b, c)
    ensures Less(a, c)
    decreases |a|
  {
    if a != "" && a[0] == b[0] && b[0] == c[0] {
      LessTransitive(a[1..], b[1..], c[1..]);
    }
  }

  lemma {:induction false} LessTotal(a: string, b: string)
    ensures Less(a, b) || a == b || Less(b, a)
    decreases |a|
  {
    if a != "" && b != "" && a[0] == b[0] {
      LessTotal(a[1..], b[1..]);
      assert a == [a[0]] + a[1..] && b == [b[0]] + b[1..];
    }
  }

  lemma {:induction false} LessIrreflexive(a: string)
    ensures !Less(a, a)
  {
    if a != "" {
      LessIrreflexive(a[1..]);
    }
  }

  predicate Sorted(ms: seq<Member>) {
    forall i, j :: 0 <= i < j < |ms| ==> Less(ms[i].key, ms[j].key)
  }

  /** Assignment to a key of an object. */
  function Put(ms: seq<Member>, key: string, val: J): seq<Member> {
    if ms == [] || Less(key, ms[0].key) then [Member(key, val)] + ms
    else if key == ms[0].key then [Member(key, val)] + ms[1..]
    else [ms[0]] + Put(ms[1..], key, val)
  }

  function Find(ms: seq<Member>, key: string): Option<J> {
    if ms == [] then None else if ms[0].key == key then Some(ms[0].val) else Find(ms[1..], key)
  }

  lemma {:induction false} FindPut(ms: seq<Member>, key: string, val: J, other: string)
    ensures Find(Put(ms, key, val), other) == if other == key then Some(val) else Find(ms, other)
  {
    if ms == [] || Less(key, ms[0].key) {
      assert ([Member(key, val)] + ms)[1..] == ms;
    } else if key == ms[0].key {
      assert ([Member(key, val)] + ms[1..])[1..] == ms[1..];
    } else {
      FindPut(ms[1..], key, val, other);
      assert ([ms[0]] + Put(ms[1..], key, val))[1..] == Put(ms[1..], key, val);
    }
  }

  /** A key is kept, replaced or new. */
  lemma {:induction false} PutKeys(ms: seq<Member>, key: string, val: J, i: nat)
    requires i < |Put(ms, key, val)|
    ensures var m := Put(ms, key, val)[i]; m == Member(key, val) || exists j :: 0 <= j < |ms| && m == ms[j]
  {
    if ms == [] || Less(key, ms[0].key) {
      if i > 0 {
        assert Put(ms, key, val)[i] == ms[i - 1];
      }
    } else if key == ms[0].key {
      if i > 0 {
        assert Put(ms, key, val)[i] == ms[i];
      }
    } else if i > 0 {
      PutKeys(ms[1..], key, val, i - 1);
      var m := Put(ms[1..], key, val)[i - 1];
      if m != Member(key, val) {
        var j :| 0 <= j < |ms[1..]| && m == ms[1..][j];
        assert m == ms[j + 1];
      }
    }
  }

  lemma {:induction false} PutSorted(ms: seq<Member>, key: string, val: J)
    requires Sorted(ms)
    ensures Sorted(Put(ms, key, val))
  {
    if ms == [] {
    } else if Less(key, ms[0].key) {
      forall j | 0 <= j < |ms|
        ensures Less(key, ms[j].key)
      {
        if j > 0 {
          LessTransitive(key, ms[0].key, ms[j].key);
        }
      }
    } else if key != ms[0].key {
      PutSorted(ms[1..], key, val);
      LessTotal(key, ms[0].key);
      var rest := Put(ms[1..], key, val);
      forall j | 0 <= j < |rest|
        ensures Less(ms[0].key, rest[j].key)
      {
        PutKeys(ms[1..], key, val, j);
      }
    }
  }

  lemma {:induction false} PutLast(ms: seq<Member>, key: string, val: J)
    requires forall i :: 0 <= i < |ms| ==> Less(ms[i].key, key)
    ensures Put(ms, key, val) == ms + [Member(key, val)]
  {
    if ms != [] {
      PutLast(ms[1..], key, val);
      LessIrreflexive(key);
      if Less(key, ms[0].key) {
        LessTransitive(key, ms[0].key, key);
      }
    }
  }

  /** Members in the order of a text; a later one replaces an earlier one with the same key. */
  function FromMembers(ms: seq<Member>): seq<Member> {
    if ms == [] then []
    else
      var n := |ms| - 1;
      Put(FromMembers(ms[..n]), ms[n].key, ms[n].val)
  }

  lemma {:induction false} FromSorted(ms: seq<Member>)
    requires Sorted(ms)
    ensures FromMembers(ms) == ms
  {
    if ms != [] {
      var n := |ms| - 1;
      FromSorted(ms[..n]);
      PutLast(ms[..n], ms[n].key, ms[n].val);
    }
  }

  // ---- strings (section 7) ----

  function HexDigit(n: nat): char
    requires n < 16
  {
    if n < 10 then '0' + n as char else 'a' + (n - 10) as char
  }

  function HexValue(c: char): Option<nat> {
    if '0' <= c <= '9' then Some(c as nat - '0' as nat)
    else if 'a' <= c <= 'f' then Some(c as nat - 'a' as nat + 10)
    else if 'A' <= c <= 'F' then Some(c as nat - 'A' as nat + 10)
    else None
  }

  lemma {:induction false} HexRoundTrip(n: nat)
    requires n < 16
    ensures HexValue(HexDigit(n)) == Some(n)
  {
  }

  function EscapeChar(c: char): (e: string)
    ensures e != "" && e[0] != '\"'
  {
    match c
    case '\"' => "\\\""
    case '\\' => "\\\\"
    case '\n' => "\\n"
    case '\r' => "\\r"
    case '\t' => "\\t"
    case _ =>
      if c as nat == 8 then "\\b"
      else if c as nat == 12 then "\\f"
      else if c < ' ' then ['\\', 'u', '0', '0', HexDigit(c as nat / 16), HexDigit(c as nat % 16)]
      else [c]
  }

  function Escaped(s: string): string {
    if s == "" then "" else EscapeChar(s[0]) + Escaped(s[1..])
  }

  function Quote(s: string): string {
    "\"" + (Escaped(s) + "\"")
  }

  /** The first character of a string's text and how many characters it takes there; surrogates are refused. */
  function Unescape(s: string): (r: Option<(char, nat)>)
    requires s != ""
    ensures r.Some? ==> 1 <= r.value.1 <= |s|
  {
    if s[0] != '\\' then
      if s[0] < ' ' || s[0] == '\"' then None else Some((s[0], 1))
    else if |s| == 1 then None
    else match s[1]
      case '\"' => Some(('\"', 2))
      case '\\' => Some(('\\', 2))
      case '/' => Some(('/', 2))
      case 'b' => Some((8 as char, 2))
      case 'f' => Some((12 as char, 2))
      case 'n' => Some(('\n', 2))
      case 'r' => Some(('\r', 2))
      case 't' => Some(('\t', 2))
      case 'u' => if |s| < 6 then None else UnescapeHex(s[2], s[3], s[4], s[5])
      case _ => None
  }

  function UnescapeHex(a: char, b: char, c: char, d: char): (r: Option<(char, nat)>)
    ensures r.Some? ==> r.value.1 == 6
  {
    var (w, x, y, z) := (HexValue(a), HexValue(b), HexValue(c), HexValue(d));
    if w.None? || x.None? || y.None? || z.None? then None
    else
      var n := CodePoint(w.value, x.value, y.value, z.value);
      if n < 0xD800 || 0xE000 <= n < 0x10000 then Some((n as char, 6)) else None
  }

  function CodePoint(w: nat, x: nat, y: nat, z: nat): nat {
    4096 * w + 256 * x + 16 * y + z
  }

  lemma {:induction false} HexEscape(n: nat)
    requires n < 32
    ensures UnescapeHex('0', '0', HexDigit(n / 16), HexDigit(n % 16)) == Some((n as char, 6))
  {
    HexRoundTrip(n / 16);
    HexRoundTrip(n % 16);
    assert HexValue('0') == Some(0) && CodePoint(0, 0, n / 16, n % 16) == n;
  }

  lemma {:induction false} UnescapeSix(s: string)
    requires |s| >= 6 && s[0] == '\\' && s[1] == 'u'
    ensures Unescape(s) == UnescapeHex(s[2], s[3], s[4], s[5])
  {
  }

  lemma {:induction false} UnescapeEscaped(c: char, rest: string)
    ensures Unescape(EscapeChar(c) + rest) == Some((c, |EscapeChar(c)|))
  {
    var e, s := EscapeChar(c), EscapeChar(c) + rest;
    assert forall i :: 0 <= i < |e| ==> s[i] == e[i];
    if |e| == 6 {
      UnescapeSix(s);
      HexEscape(c as nat);
    }
  }

  /** What follows an opening quote: the string and the text behind the closing quote. */
  function StringBody(s: string): (r: Option<(string, string)>)
    ensures r.Some? ==> |r.value.1| < |s|
    decreases |s|
  {
    if s == "" then None
    else if s[0] == '\"' then Some(("", s[1..]))
    else
      var first := Unescape(s);
      if first.None? then None
      else
        var more := StringBody(s[first.value.1..]);
        if more.None? then None else Some(([first.value.0] + more.value.0, more.value.1))
  }

  lemma {:induction false} StringRoundTrip(s: string, rest: string)
    ensures StringBody((Escaped(s) + "\"") + rest) == Some((s, rest))
  {
    var text := (Escaped(s) + "\"") + rest;
    if s == "" {
      assert text == "\"" + rest && text[1..] == rest;
    } else {
      var e := EscapeChar(s[0]);
      var tail := (Escaped(s[1..]) + "\"") + rest;
      Reassociate(e, Escaped(s[1..]), "\"");
      Reassociate(e, Escaped(s[1..]) + "\"", rest);
      StringRoundTrip(s[1..], rest);
      OneMoreCharacter(s[0], tail, s[1..], rest);
      assert text == e + tail && [s[0]] + s[1..] == s;
    }
  }

  lemma {:induction false} OneMoreCharacter(c: char, tail: string, s: string, rest: string)
    requires StringBody(tail) == Some((s, rest))
    ensures StringBody(EscapeChar(c) + tail) == Some(([c] + s, rest))
  {
    var e, text := EscapeChar(c), EscapeChar(c) + tail;
    UnescapeEscaped(c, tail);
    assert text[|e|..] == tail && text[0] == e[0];
  }

  // ---- numbers (section 6) ----

  predicate IsDigit(c: char) {
    '0' <= c <= '9'
  }

  predicate IsNumberChar(c: char) {
    IsDigit(c) || c == '-' || c == '+' || c == '.' || c == 'e' || c == 'E'
  }

  function DigitsLen(s: string): (n: nat)
    ensures n <= |s| && forall i :: 0 <= i < n ==> IsDigit(s[i])
  {
    if s == "" || !IsDigit(s[0]) then 0 else 1 + DigitsLen(s[1..])
  }

  predicate IsExponent(s: string) {
    s == "" || ((s[0] == 'e' || s[0] == 'E') && |s| > 1 &&
      var d := if s[1] == '+' || s[1] == '-' then s[2..] else s[1..];
      d != "" && DigitsLen(d) == |d|)
  }

  predicate IsFraction(s: string) {
    if s != "" && s[0] == '.' then DigitsLen(s[1..]) > 0 && IsExponent(s[1 + DigitsLen(s[1..])..]) else IsExponent(s)
  }

  predicate IsUnsigned(s: string) {
    var n := DigitsLen(s);
    n > 0 && (s[0] == '0' ==> n == 1) && IsFraction(s[n..])
  }

  predicate IsNumber(tok: string) {
    if tok != "" && tok[0] == '-' then IsUnsigned(tok[1..]) else IsUnsigned(tok)
  }

  predicate NumberChars(s: string) {
    forall i :: 0 <= i < |s| ==> IsNumberChar(s[i])
  }

  lemma {:induction false} NumberCharsJoin(s: string, k: nat)
    requires k <= |s| && NumberChars(s[..k]) && NumberChars(s[k..])
    ensures NumberChars(s)
  {
    assert s == s[..k] + s[k..];
  }

  lemma {:induction false} ExponentChars(s: string)
    requires IsExponent(s)
    ensures NumberChars(s)
  {
    if s != "" {
      NumberCharsJoin(s, if s[1] == '+' || s[1] == '-' then 2 else 1);
    }
  }

  lemma {:induction false} UnsignedChars(s: string)
    requires IsUnsigned(s)
    ensures NumberChars(s) && s != "" && IsDigit(s[0])
  {
    var n := DigitsLen(s);
    var f := s[n..];
    if f != "" && f[0] == '.' {
      var k := 1 + DigitsLen(f[1..]);
      ExponentChars(f[k..]);
      assert NumberChars(f[..k]) by {
        assert forall i :: 1 <= i < k ==> f[i] == f[1..][i - 1];
      }
      NumberCharsJoin(f, k);
    } else {
      ExponentChars(f);
    }
    NumberCharsJoin(s, n);
  }

  lemma {:induction false} NumberIsChars(tok: string)
    requires IsNumber(tok)
    ensures NumberChars(tok) && tok != "" && (tok[0] == '-' || IsDigit(tok[0]))
  {
    if tok[0] == '-' {
      UnsignedChars(tok[1..]);
      NumberCharsJoin(tok, 1);
    } else {
      UnsignedChars(tok);
    }
  }

  function NumberLen(s: string): (n: nat)
    ensures n <= |s|
  {
    if s == "" || !IsNumberChar(s[0]) then 0 else 1 + NumberLen(s[1..])
  }

  /** A number ends at the end of the text or at a character no number contains. */
  predicate Delimited(rest: string) {
    rest == "" || !IsNumberChar(rest[0])
  }

  lemma {:induction false} NumberLenExact(tok: string, rest: string)
    requires NumberChars(tok) && Delimited(rest)
    ensures NumberLen(tok + rest) == |tok|
  {
    if tok == "" {
      assert tok + rest == rest;
    } else {
      NumberLenExact(tok[1..], rest);
      assert (tok + rest)[1..] == tok[1..] + rest;
    }
  }

  // ---- values, arrays (section 5), objects (section 4) ----

  predicate IsWhitespace(c: char) {
    c == ' ' || c == '\n' || c == '\r' || c == '\t'
  }

  predicate Blank(s: string) {
    forall i :: 0 <= i < |s| ==> IsWhitespace(s[i])
  }

  function SkipBlank(s: string): (t: string)
    ensures |t| <= |s| && (t != "" ==> !IsWhitespace(t[0]))
  {
    if s != "" && IsWhitespace(s[0]) then SkipBlank(s[1..]) else s
  }

  lemma {:induction false} SkipsBlank(blank: string, s: string)
    requires Blank(blank)
    ensures SkipBlank(blank + s) == SkipBlank(s)
  {
    if blank == "" {
      assert blank + s == s;
    } else {
      SkipsBlank(blank[1..], s);
      assert (blank + s)[1..] == blank[1..] + s;
    }
  }

  /** One value after blanks, and the text behind it. */
  function Value(s: string): (r: Option<(J, string)>)
    ensures r.Some? ==> |r.value.1| < |s|
    decreases |s|, 0
  {
    var t := SkipBlank(s);
    if t == "" then None
    else if t[0] == '\"' then
      var body := StringBody(t[1..]);
      if body.None? then None else Some((Str(body.value.0), body.value.1))
    else if t[0] == '[' then
      var u := SkipBlank(t[1..]);
      if u != "" && u[0] == ']' then Some((Arr([]), u[1..]))
      else
        var es := Elements(t[1..]);
        if es.None? then None else Some((Arr(es.value.0), es.value.1))
    else if t[0] == '{' then
      var u := SkipBlank(t[1..]);
      if u != "" && u[0] == '}' then Some((Obj([]), u[1..]))
      else
        var ms := Members(t[1..]);
        if ms.None? then None else Some((Obj(FromMembers(ms.value.0)), ms.value.1))
    else if "null" <= t then Some((Null, t[4..]))
    else if "true" <= t then Some((Bool(true), t[4..]))
    else if "false" <= t then Some((Bool(false), t[5..]))
    else
      var tok := t[..NumberLen(t)];
      if IsNumber(tok) && tok != "" then Some((Num(tok), t[|tok|..])) else None
  }

  /** The rest of an array that is not empty. */
  function Elements(s: string): (r: Option<(seq<J>, string)>)
    ensures r.Some? ==> |r.value.1| < |s|
    decreases |s|, 1
  {
    var first := Value(s);
    if first.None? then None
    else
      var t := SkipBlank(first.value.1);
      if t == "" then None
      else if t[0] == ']' then Some(([first.value.0], t[1..]))
      else if t[0] == ',' then
        var more := Elements(t[1..]);
        if more.None? then None else Some(([first.value.0] + more.value.0, more.value.1))
      else None
  }

  function OneMember(s: string): (r: Option<(Member, string)>)
    ensures r.Some? ==> |r.value.1| < |s|
    decreases |s|, 1
  {
    var t := SkipBlank(s);
    if t == "" || t[0] != '\"' then None
    else
      var key := StringBody(t[1..]);
      if key.None? then None
      else
        var u := SkipBlank(key.value.1);
        if u == "" || u[0] != ':' then None
        else
          var val := Value(u[1..]);
          if val.None? then None else Some((Member(key.value.0, val.value.0), val.value.1))
  }

  /** The rest of an object that is not empty. */
  function Members(s: string): (r: Option<(seq<Member>, string)>)
    ensures r.Some? ==> |r.value.1| < |s|
    decreases |s|, 2
  {
    var first := OneMember(s);
    if first.None? then None
    else
      var t := SkipBlank(first.value.1);
      if t == "" then None
      else if t[0] == '}' then Some(([first.value.0], t[1..]))
      else if t[0] == ',' then
        var more := Members(t[1..]);
        if more.None? then None else Some(([first.value.0] + more.value.0, more.value.1))
      else None
  }

  function Parse(text: string): Option<J> {
    var r := Value(text);
    if r.None? || SkipBlank(r.value.1) != "" then None else Some(r.value.0)
  }

  // ---- texts that stand for a value wherever they occur ----

  /** `text` is read as `j`, whatever delimited text follows. */
  ghost predicate Means(text: string, j: J) {
    forall rest: string {:trigger text + rest} :: Delimited(rest) ==> Value(text + rest) == Some((j, rest))
  }

  lemma {:induction false} MeansParses(text: string, j: J, blank: string)
    requires Means(text, j) && Blank(blank)
    ensures Parse(text + blank) == Some(j)
  {
    assert Delimited(blank);
    SkipsBlank(blank, "");
    assert blank + "" == blank;
  }

  lemma {:induction false} MeansAfterBlank(blank: string, text: string, j: J)
    requires Means(text, j) && Blank(blank)
    ensures Means(blank + text, j)
  {
    forall rest: string | Delimited(rest)
      ensures Value((blank + text) + rest) == Some((j, rest))
    {
      assert Value(text + rest) == Some((j, rest));
      Reassociate(blank, text, rest);
      SkipsBlank(blank, text + rest);
      ValueSkips((blank + text) + rest, text + rest);
    }
  }

  lemma {:induction false} ValueSkips(s: string, t: string)
    requires SkipBlank(s) == SkipBlank(t)
    ensures Value(s) == Value(t)
  {
  }

  lemma {:induction false} QuoteMeans(s: string)
    ensures Means(Quote(s), Str(s))
  {
    forall rest: string | Delimited(rest)
      ensures Value(Quote(s) + rest) == Some((Str(s), rest))
    {
      var text := Quote(s) + rest;
      Reassociate("\"", Escaped(s) + "\"", rest);
      assert SkipBlank(text) == text && text[1..] == (Escaped(s) + "\"") + rest;
      StringRoundTrip(s, rest);
    }
  }

  lemma {:induction false} ValueIsNumber(s: string)
    requires s != "" && (s[0] == '-' || IsDigit(s[0]))
    requires NumberLen(s) > 0 && IsNumber(s[..NumberLen(s)])
    ensures Value(s) == Some((Num(s[..NumberLen(s)]), s[NumberLen(s)..]))
  {
    assert SkipBlank(s) == s;
    assert s[0] != "null"[0] && s[0] != "true"[0] && s[0] != "false"[0];
  }

  lemma {:induction false} NumberMeans(tok: string)
    requires IsNumber(tok)
    ensures Means(tok, Num(tok))
  {
    NumberIsChars(tok);
    forall rest: string | Delimited(rest)
      ensures Value(tok + rest) == Some((Num(tok), rest))
    {
      NumberLenExact(tok, rest);
      assert (tok + rest)[..|tok|] == tok && (tok + rest)[|tok|..] == rest;
      ValueIsNumber(tok + rest);
    }
  }

  lemma {:induction false} LiteralMeans(text: string, j: J)
    requires
      || (text == "null" && j == Null)
      || (text == "true" && j == Bool(true))
      || (text == "false" && j == Bool(false))
    ensures Means(text, j)
  {
    forall rest: string | Delimited(rest)
      ensures Value(text + rest) == Some((j, rest))
    {
      var all := text + rest;
      assert all[0] == text[0] && SkipBlank(all) == all && text <= all && all[|text|..] == rest;
    }
  }

  // ---- lists ----

  /** Items separated by commas, and what follows the last one. */
  function Body(items: seq<string>, end: string): string
    requires items != []
  {
    items[0] + if |items| == 1 then end else "," + Body(items[1..], end)
  }

  lemma {:induction false} BodyThen(items: seq<string>, end: string, rest: string)
    requires items != []
    ensures Body(items, end) + rest == Body(items, end + rest)
  {
    if |items| == 1 {
      Reassociate(items[0], end, rest);
    } else {
      BodyThen(items[1..], end, rest);
      Reassociate(",", Body(items[1..], end), rest);
      Reassociate(items[0], "," + Body(items[1..], end), rest);
    }
  }

  ghost predicate AllMean(items: seq<string>, js: seq<J>) {
    |items| == |js| && forall i :: 0 <= i < |items| ==> Means(items[i], js[i])
  }

  lemma {:induction false} AllMeanSplit(items: seq<string>, js: seq<J>)
    requires AllMean(items, js) && items != []
    ensures Means(items[0], js[0]) && AllMean(items[1..], js[1..]) && js == [js[0]] + js[1..]
  {
  }

  lemma {:induction false} ReadFirst(text: string, j: J, rest: string)
    requires Means(text, j) && Delimited(rest)
    ensures Value(text + rest) == Some((j, rest))
  {
  }

  lemma {:induction false} EndDelimited(blank: string, close: char, rest: string)
    requires Blank(blank) && (close == ']' || close == '}')
    ensures Delimited(blank + ([close] + rest)) && SkipBlank(blank + ([close] + rest)) == [close] + rest
  {
    SkipsBlank(blank, [close] + rest);
    assert blank + ([close] + rest) != "";
    assert (blank + ([close] + rest))[0] == if blank == "" then close else blank[0];
  }

  lemma {:induction false} LastElement(s: string, j: J, behind: string, rest: string)
    requires Value(s) == Some((j, behind)) && SkipBlank(behind) == "]" + rest
    ensures Elements(s) == Some(([j], rest))
  {
    assert ("]" + rest)[1..] == rest;
  }

  lemma {:induction false} MoreElements(s: string, j: J, tail: string, js: seq<J>, rest: string)
    requires Value(s) == Some((j, "," + tail)) && Elements(tail) == Some((js, rest))
    ensures Elements(s) == Some(([j] + js, rest))
  {
    assert SkipBlank("," + tail) == "," + tail && ("," + tail)[1..] == tail;
  }

  lemma {:induction false} ElementsMean(items: seq<string>, js: seq<J>, blank: string, rest: string)
    requires items != [] && AllMean(items, js) && Blank(blank)
    ensures Elements(Body(items, blank + ("]" + rest))) == Some((js, rest))
  {
    var end := blank + ("]" + rest);
    AllMeanSplit(items, js);
    if |items| == 1 {
      EndDelimited(blank, ']', rest);
      ReadFirst(items[0], js[0], end);
      LastElement(items[0] + end, js[0], end, rest);
      assert js == [js[0]];
    } else {
      ElementsMean(items[1..], js[1..], blank, rest);
      var tail := Body(items[1..], end);
      ReadFirst(items[0], js[0], "," + tail);
      MoreElements(items[0] + ("," + tail), js[0], tail, js[1..], rest);
    }
  }

  /** A value does not begin with a closing bracket. */
  lemma {:induction false} NotClosing(s: string)
    requires Elements(s).Some?
    ensures SkipBlank(s) != "" && SkipBlank(s)[0] != ']'
  {
    assert Value(s).Some?;
    assert SkipBlank(s) != "" && SkipBlank(s)[0] == ']' ==> NumberLen(SkipBlank(s)) == 0;
  }

  /** A bracketed list of texts means the list of their values. */
  lemma {:induction false} ListMeans(items: seq<string>, js: seq<J>, blank: string)
    requires items != [] && AllMean(items, js) && Blank(blank)
    ensures Means("[" + Body(items, blank + "]"), Arr(js))
  {
    forall rest: string | Delimited(rest)
      ensures Value(("[" + Body(items, blank + "]")) + rest) == Some((Arr(js), rest))
    {
      var inner := Body(items, blank + ("]" + rest));
      var text := ("[" + Body(items, blank + "]")) + rest;
      Reassociate("[", Body(items, blank + "]"), rest);
      BodyThen(items, blank + "]", rest);
      Reassociate(blank, "]", rest);
      assert text == "[" + inner && text[1..] == inner && SkipBlank(text) == text;
      ElementsMean(items, js, blank, rest);
      NotClosing(inner);
    }
  }

  /** `text` is read as one member of an object. */
  ghost predicate MeansMember(text: string, m: Member) {
    forall rest: string {:trigger text + rest} :: Delimited(rest) ==> OneMember(text + rest) == Some((m, rest))
  }

  ghost predicate AllMeanMembers(items: seq<string>, ms: seq<Member>) {
    |items| == |ms| && forall i :: 0 <= i < |items| ==> MeansMember(items[i], ms[i])
  }

  lemma {:induction false} AllMeanMembersSplit(items: seq<string>, ms: seq<Member>)
    requires AllMeanMembers(items, ms) && items != []
    ensures MeansMember(items[0], ms[0]) && AllMeanMembers(items[1..], ms[1..]) && ms == [ms[0]] + ms[1..]
  {
  }

  lemma {:induction false} ReadFirstMember(text: string, m: Member, rest: string)
    requires MeansMember(text, m) && Delimited(rest)
    ensures OneMember(text + rest) == Some((m, rest))
  {
  }

  lemma {:induction false} LastMember(s: string, m: Member, behind: string, rest: string)
    requires OneMember(s) == Some((m, behind)) && SkipBlank(behind) == "}" + rest
    ensures Members(s) == Some(([m], rest))
  {
    assert ("}" + rest)[1..] == rest;
  }

  lemma {:induction false} MoreMembers(s: string, m: Member, tail: string, ms: seq<Member>, rest: string)
    requires OneMember(s) == Some((m, "," + tail)) && Members(tail) == Some((ms, rest))
    ensures Members(s) == Some(([m] + ms, rest))
  {
    assert SkipBlank("," + tail) == "," + tail && ("," + tail)[1..] == tail;
  }

  lemma {:induction false} MembersMean(items: seq<string>, ms: seq<Member>, blank: string, rest: string)
    requires items != [] && AllMeanMembers(items, ms) && Blank(blank)
    ensures Members(Body(items, blank + ("}" + rest))) == Some((ms, rest))
  {
    var end := blank + ("}" + rest);
    AllMeanMembersSplit(items, ms);
    if |items| == 1 {
      EndDelimited(blank, '}', rest);
      ReadFirstMember(items[0], ms[0], end);
      LastMember(items[0] + end, ms[0], end, rest);
      assert ms == [ms[0]];
    } else {
      MembersMean(items[1..], ms[1..], blank, rest);
      var tail := Body(items[1..], end);
      ReadFirstMember(items[0], ms[0], "," + tail);
      MoreMembers(items[0] + ("," + tail), ms[0], tail, ms[1..], rest);
    }
  }

  lemma {:induction false} ObjectMeans(items: seq<string>, ms: seq<Member>, blank: string)
    requires items != [] && AllMeanMembers(items, ms) && Blank(blank)
    ensures Means("{" + Body(items, blank + "}"), Obj(FromMembers(ms)))
  {
    forall rest: string | Delimited(rest)
      ensures Value(("{" + Body(items, blank + "}")) + rest) == Some((Obj(FromMembers(ms)), rest))
    {
      var inner := Body(items, blank + ("}" + rest));
      var text := ("{" + Body(items, blank + "}")) + rest;
      Reassociate("{", Body(items, blank + "}"), rest);
      BodyThen(items, blank + "}", rest);
      Reassociate(blank, "}", rest);
      assert text == "{" + inner && text[1..] == inner && SkipBlank(text) == text;
      MembersMean(items, ms, blank, rest);
      assert OneMember(inner).Some?;
    }
  }

  /** Blanks, a quoted key, blanks, a colon and a text make a member. */
  lemma {:induction false} MemberMeans(before: string, key: string, after: string, text: string, j: J)
    requires Means(text, j) && Blank(before) && Blank(after)
    ensures MeansMember(before + (Quote(key) + (after + (":" + text))), Member(key, j))
  {
    forall rest: string | Delimited(rest)
      ensures OneMember((before + (Quote(key) + (after + (":" + text)))) + rest) == Some((Member(key, j), rest))
    {
      var value := ":" + (text + rest);
      var behind := after + value;
      Reassociate(":", text, rest);
      Reassociate(after, ":" + text, rest);
      Reassociate(Quote(key), after + (":" + text), rest);
      Reassociate(before, Quote(key) + (after + (":" + text)), rest);
      var all := (before + (Quote(key) + (after + (":" + text)))) + rest;
      assert all == before + (Quote(key) + behind);
      SkipsBlank(before, Quote(key) + behind);
      var t := Quote(key) + behind;
      Reassociate("\"", Escaped(key) + "\"", behind);
      assert SkipBlank(t) == t && t[1..] == (Escaped(key) + "\"") + behind;
      StringRoundTrip(key, behind);
      SkipsBlank(after, value);
      assert SkipBlank(value) == value && value[1..] == text + rest;
    }
  }

  // ---- the printer ----

  const DEFAULT_INDENT: nat := 4

  function Spaces(n: nat): (s: string)
    ensures |s| == n && Blank(s)
  {
    seq(n, _ => ' ')
  }

  function NewLine(indent: nat): (s: string)
    ensures Blank(s)
  {
    "\n" + Spaces(indent)
  }

  /** dump(DEFAULT_INDENT), for a value at the given indentation. */
  function Dump(j: J, indent: nat): string
    decreases j
  {
    match j
    case Null => "null"
    case Bool(b) => if b then "true" else "false"
    case Num(tok) => tok
    case Str(s) => Quote(s)
    case Arr(es) =>
      if es == [] then "[]" else "[" + Body(DumpElements(es, indent + DEFAULT_INDENT), NewLine(indent) + "]")
    case Obj(ms) =>
      if ms == [] then "{}" else "{" + Body(DumpMembers(ms, indent + DEFAULT_INDENT), NewLine(indent) + "}")
  }

  function DumpElements(es: seq<J>, indent: nat): (items: seq<string>)
    ensures |items| == |es|
    decreases es
  {
    if es == [] then [] else [NewLine(indent) + Dump(es[0], indent)] + DumpElements(es[1..], indent)
  }

  function DumpMembers(ms: seq<Member>, indent: nat): (items: seq<string>)
    ensures |items| == |ms|
    decreases ms
  {
    if ms == [] then []
    else [NewLine(indent) + (Quote(ms[0].key) + ("" + (":" + (" " + Dump(ms[0].val,
        indent)))))] + DumpMembers(ms[1..], indent)
  }

  /** Number tokens are numbers and objects list each key once, in order. */
  predicate WellFormed(j: J)
    decreases j
  {
    match j
    case Num(tok) => IsNumber(tok)
    case Arr(es) => forall i :: 0 <= i < |es| ==> WellFormed(es[i])
    case Obj(ms) => Sorted(ms) && forall i :: 0 <= i < |ms| ==> WellFormed(ms[i].val)
    case _ => true
  }

  /** Main result: what the printer writes for a value is read as that value, wherever it stands. */
  lemma {:induction false} DumpMeans(j: J, indent: nat)
    requires WellFormed(j)
    ensures Means(Dump(j, indent), j)
    decreases j
  {
    match j
    case Null => LiteralMeans("null", Null);
    case Bool(b) => LiteralMeans(if b then "true" else "false", j);
    case Num(tok) => NumberMeans(tok);
    case Str(s) => QuoteMeans(s);
    case Arr(es) =>
      if es == [] {
        EmptyMeans("[]", j);
      } else {
        DumpElementsMean(es, indent + DEFAULT_INDENT);
        ListMeans(DumpElements(es, indent + DEFAULT_INDENT), es, NewLine(indent));
      }
    case Obj(ms) =>
      if ms == [] {
        EmptyMeans("{}", j);
      } else {
        DumpMembersMean(ms, indent + DEFAULT_INDENT);
        ObjectMeans(DumpMembers(ms, indent + DEFAULT_INDENT), ms, NewLine(indent));
        FromSorted(ms);
      }
  }

  lemma {:induction false} EmptyMeans(text: string, j: J)
    requires (text == "[]" && j == Arr([])) || (text == "{}" && j == Obj([]))
    ensures Means(text, j)
  {
    forall rest: string | Delimited(rest)
      ensures Value(text + rest) == Some((j, rest))
    {
      var all := text + rest;
      assert SkipBlank(all) == all && SkipBlank(all[1..]) == all[1..] && all[1..][1..] == rest;
    }
  }

  lemma {:induction false} DumpElementsMean(es: seq<J>, indent: nat)
    requires forall i :: 0 <= i < |es| ==> WellFormed(es[i])
    ensures AllMean(DumpElements(es, indent), es)
    decreases es
  {
    if es != [] {
      DumpMeans(es[0], indent);
      MeansAfterBlank(NewLine(indent), Dump(es[0], indent), es[0]);
      DumpElementsMean(es[1..], indent);
    }
  }

  lemma {:induction false} DumpMembersMean(ms: seq<Member>, indent: nat)
    requires forall i :: 0 <= i < |ms| ==> WellFormed(ms[i].val)
    ensures AllMeanMembers(DumpMembers(ms, indent), ms)
    decreases ms
  {
    if ms != [] {
      DumpMeans(ms[0].val, indent);
      MeansAfterBlank(" ", Dump(ms[0].val, indent), ms[0].val);
      MemberMeans(NewLine(indent), ms[0].key, "", " " + Dump(ms[0].val, indent), ms[0].val);
      DumpMembersMean(ms[1..], indent);
    }
  }

  lemma {:induction false} DumpParses(j: J)
    requires WellFormed(j)
    ensures Parse(Dump(j, 0)) == Some(j)
  {
    DumpMeans(j, 0);
    MeansParses(Dump(j, 0), j, "");
    assert Dump(j, 0) + "" == Dump(j, 0);
  }

  /** The texts of small documents. */
  lemma {:induction false} SmallDumps(tok: string)
    ensures Dump(Null, 0) == "null" && Dump(Bool(true), 0) == "true" && Dump(Bool(false), 0) == "false"
    ensures Dump(Num(tok), 0) == tok && Dump(Arr([]), 0) == "[]" && Dump(Obj([]), 0) == "{}"
  {
  }

  /** Each element and each member stands on a line of its own, indented by four blanks. */
  lemma {:induction false} Indentation(key: string, j: J)
    ensures Dump(Arr([j]), 0) == "[" + (("\n    " + Dump(j, 4)) + ("\n" + "]"))
    ensures Dump(Obj([Member(key, j)]), 0) ==
      "{" + (("\n    " + (Quote(key) + ("" + (":" + (" " + Dump(j, 4)))))) + ("\n" + "}"))
  {
    assert NewLine(4) == "\n    " && NewLine(0) == "\n";
    assert [j][1..] == [] && [Member(key, j)][1..] == [];
    assert DumpElements([j], 4) == [NewLine(4) + Dump(j, 4)];
    assert DumpMembers([Member(key, j)], 4) ==
           [NewLine(4) + (Quote(key) + ("" + (":" + (" " + Dump(j, 4)))))];
  }

  /** How characters are escaped: quotes, backslashes and control characters are, nothing else is. */
  lemma {:induction false} Escapes(c: char)
    ensures EscapeChar('\"') == "\\\"" && EscapeChar('\\') == "\\\\" && EscapeChar('\n') == "\\n"
    ensures EscapeChar('\r') == "\\r" && EscapeChar('\t') == "\\t"
    ensures EscapeChar(8 as char) == "\\b" && EscapeChar(12 as char) == "\\f" && EscapeChar(1 as char) == "\\u0001"
    ensures EscapeChar(31 as char) == "\\u001f"
    ensures EscapeChar(c) == [c] <==> c >= ' ' && c != '\"' && c != '\\'
  {
  }

  // ---- what the parser can return ----

  predicate AllWellFormed(ms: seq<Member>) {
    forall i :: 0 <= i < |ms| ==> WellFormed(ms[i].val)
  }

  lemma {:induction false} FromMembersWellFormed(ms: seq<Member>)
    requires AllWellFormed(ms)
    ensures WellFormed(Obj(FromMembers(ms)))
  {
    if ms != [] {
      var n := |ms| - 1;
      FromMembersWellFormed(ms[..n]);
      var before := FromMembers(ms[..n]);
      PutSorted(before, ms[n].key, ms[n].val);
      forall i | 0 <= i < |FromMembers(ms)|
        ensures WellFormed(FromMembers(ms)[i].val)
      {
        PutKeys(before, ms[n].key, ms[n].val, i);
      }
    }
  }

  lemma {:induction false} ValueWellFormed(s: string)
    requires Value(s).Some?
    ensures WellFormed(Value(s).value.0)
    decreases |s|, 0
  {
    var t := SkipBlank(s);
    if Value(s).value.0.Arr? {
      if Elements(t[1..]).Some? {
        ElementsWellFormed(t[1..]);
      }
    } else if Value(s).value.0.Obj? {
      if Members(t[1..]).Some? {
        MembersWellFormed(t[1..]);
        FromMembersWellFormed(Members(t[1..]).value.0);
      }
    }
  }

  lemma {:induction false} ElementsWellFormed(s: string)
    requires Elements(s).Some?
    ensures forall i :: 0 <= i < |Elements(s).value.0| ==> WellFormed(Elements(s).value.0[i])
    decreases |s|, 1
  {
    ValueWellFormed(s);
    var t := SkipBlank(Value(s).value.1);
    if t[0] == ',' {
      ElementsWellFormed(t[1..]);
    }
  }

  lemma {:induction false} MembersWellFormed(s: string)
    requires Members(s).Some?
    ensures AllWellFormed(Members(s).value.0)
    decreases |s|, 1
  {
    var key := StringBody(SkipBlank(s)[1..]);
    ValueWellFormed(SkipBlank(key.value.1)[1..]);
    var t := SkipBlank(OneMember(s).value.1);
    if t[0] == ',' {
      MembersWellFormed(t[1..]);
    }
  }

  /** Main result: printing and parsing again changes nothing, exactly for the values the parser can return. */
  lemma {:induction false} ReprintIffParsed(j: J)
    ensures (exists text :: Parse(text) == Some(j)) <==> WellFormed(j)
    ensures WellFormed(j) ==> Parse(Dump(j, 0)) == Some(j)
  {
    if WellFormed(j) {
      DumpParses(j);
    }
    if text :| Parse(text) == Some(j) {
      ValueWellFormed(text);
    }
  }
}
