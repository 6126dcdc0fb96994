/**
 JSON text as `JSON.stringify` writes it and `JSON.parse` reads it back
 (RFC 8259), for the values an edge event is made of.
 */
module Json {
  import opened Wrappers
  import opened Text

  datatype Json =
    | Null
    | Bool(b: bool)
    | Num(n: int)
    | Str(s: string)
    | Arr(elems: seq<Json>)
    | Obj(members: seq<Member>)

  datatype Member = Member(key: string, value: Json)

  /** A parsed prefix together with the text after it. */
  datatype Parsed<+T> = Parsed(value: T, rest: string)

  // ---------------------------------------------------------------- strings

  function HexDigit(n: int): char
    requires 0 <= n < 16
  {
    "0123456789abcdef"[n]
  }

  function HexValue(c: char): int {
    if '0' <= c <= '9' then c as int - '0' as int
    else if 'a' <= c <= 'f' then c as int - 'a' as int + 10
    else if 'A' <= c <= 'F' then c as int - 'A' as int + 10
    else -1
  }

  /** Section 7 of RFC 8259: quotation mark, reverse solidus and control characters are escaped. */
  function EscapeChar(c: char): string {
    if c == '\"' then ['\\', '\"']
    else if c == '\\' then ['\\', '\\']
    else if c == '\U{0008}' then ['\\', 'b']
    else if c == '\t' then ['\\', 't']
    else if c == '\n' then ['\\', 'n']
    else if c == '\U{000C}' then ['\\', 'f']
    else if c == '\r' then ['\\', 'r']
    else if c < ' ' then ['\\', 'u', '0', '0', HexDigit(c as int / 16), HexDigit(c as int % 16)]
    else [c]
  }

  function Escape(s: string): string {
    if s == [] then [] else EscapeChar(s[0]) + Escape(s[1..])
  }

  function Quote(s: string): string {
    ['\"'] + Escape(s) + ['\"']
  }

  /** The one-letter escapes. */
  function ShortEscape(c: char): Option<char> {
    match c
    case '\"' => Some('\"')
    case '\\' => Some('\\')
    case '/' => Some('/')
    case 'b' => Some('\U{0008}')
    case 't' => Some('\t')
    case 'n' => Some('\n')
    case 'f' => Some('\U{000C}')
    case 'r' => Some('\r')
    case _ => None
  }

  /** `\uXXXX` outside the surrogate range. */
  function UnicodeEscape(h: string): Option<char>
    requires |h| == 4
  {
    var a, b, c, d := HexValue(h[0]), HexValue(h[1]), HexValue(h[2]), HexValue(h[3]);
    if a < 0 || b < 0 || c < 0 || d < 0 then None
    else
      var code := ((a * 16 + b) * 16 + c) * 16 + d;
      if code < 0xD800 || 0xE000 <= code < 0x10000 then Some(code as char) else None
  }

  /** The characters of a string literal whose opening quote has been read. */
  function ParseChars(s: string): (r: Option<Parsed<string>>)
    ensures r.Some? ==> |r.value.rest| < |s|
  {
    if s == [] || s[0] < ' ' then None
    else if s[0] == '\"' then Some(Parsed([], s[1..]))
    else if s[0] != '\\' then Cons(s[0], ParseChars(s[1..]))
    else if |s| >= 2 && ShortEscape(s[1]).Some? then
      Cons(ShortEscape(s[1]).value, ParseChars(s[2..]))
    else if |s| >= 6 && s[1] == 'u' && UnicodeEscape(s[2..6]).Some? then
      Cons(UnicodeEscape(s[2..6]).value, ParseChars(s[6..]))
    else None
  }

  function Cons(c: char, p: Option<Parsed<string>>): Option<Parsed<string>> {
    if p.None? then None else Some(Parsed([c] + p.value.value, p.value.rest))
  }

  lemma ControlEscapeParses(c: char)
    requires c < ' ' && |EscapeChar(c)| == 6
    ensures EscapeChar(c)[0] == '\\' && EscapeChar(c)[1] == 'u'
    ensures UnicodeEscape(EscapeChar(c)[2..6]) == Some(c)
  {
    var hi, lo := c as int / 16, c as int % 16;
    assert 0 <= hi < 2;
    HexRoundTrip(hi);
    HexRoundTrip(lo);
    assert EscapeChar(c)[2..6] == ['0', '0', HexDigit(hi), HexDigit(lo)];
  }

  lemma HexRoundTrip(n: int)
    requires 0 <= n < 16
    ensures HexValue(HexDigit(n)) == n && HexDigit(n) >= ' '
  {
    if n < 10 {
      assert HexDigit(n) == ('0' as int + n) as char;
    } else {
      assert HexDigit(n) == ('a' as int + (n - 10)) as char;
    }
  }

  lemma UnicodeEscapeParses(e: string, tail: string, c: char)
    requires |e| == 6 && e[0] == '\\' && e[1] == 'u' && UnicodeEscape(e[2..6]) == Some(c)
    ensures ParseChars(e + tail) == Cons(c, ParseChars(tail))
  {
    var s := e + tail;
    assert s[2..6] == e[2..6] && s[6..] == tail;
  }

  lemma ShortEscapeParses(e: string, tail: string, c: char)
    requires |e| == 2 && e[0] == '\\' && ShortEscape(e[1]) == Some(c)
    ensures ParseChars(e + tail) == Cons(c, ParseChars(tail))
  {
    var s := e + tail;
    assert s[2..] == tail;
  }

  lemma PlainCharParses(c: char, tail: string)
    requires c >= ' ' && c != '\"' && c != '\\'
    ensures ParseChars([c] + tail) == Cons(c, ParseChars(tail))
  {
    assert ([c] + tail)[1..] == tail;
  }

  lemma EscapedCharParses(c: char, tail: string)
    ensures ParseChars(EscapeChar(c) + tail) == Cons(c, ParseChars(tail))
  {
    var e := EscapeChar(c);
    if |e| == 6 {
      ControlEscapeParses(c);
      UnicodeEscapeParses(e, tail, c);
    } else if |e| == 2 {
      ShortEscapeParses(e, tail, c);
    } else {
      PlainCharParses(c, tail);
    }
  }

  lemma {:induction false} QuotedStringParses(t: string, rest: string)
    ensures ParseChars(Escape(t) + ['\"'] + rest) == Some(Parsed(t, rest))
  {
    if t == [] {
      assert Escape(t) + ['\"'] + rest == ['\"'] + rest;
    } else {
      var tail := Escape(t[1..]) + ['\"'] + rest;
      assert Escape(t) + ['\"'] + rest == EscapeChar(t[0]) + tail;
      EscapedCharParses(t[0], tail);
      QuotedStringParses(t[1..], rest);
      assert [t[0]] + t[1..] == t;
    }
  }

  // ---------------------------------------------------------------- numbers

  predicate IsDigit(c: char) {
    '0' <= c <= '9'
  }

  function Digits(n: nat): (s: string)
    ensures s != [] && forall c | c in s :: IsDigit(c)
  {
    var last := [('0' as int + n % 10) as char];
    if n < 10 then last else Digits(n / 10) + last
  }

  function DigitsValue(s: string): int {
    if s == [] then 0 else DigitsValue(s[..|s| - 1]) * 10 + (s[|s| - 1] as int - '0' as int)
  }

  function DigitRun(s: string): (k: nat)
    ensures k <= |s|
  {
    if s != [] && IsDigit(s[0]) then 1 + DigitRun(s[1..]) else 0
  }

  lemma {:induction false} DigitsRoundTrip(n: nat)
    ensures DigitsValue(Digits(n)) == n
  {
    if n >= 10 {
      DigitsRoundTrip(n / 10);
      assert Digits(n)[..|Digits(n)| - 1] == Digits(n / 10);
    } else {
      assert Digits(n)[..0] == [];
    }
  }

  lemma {:induction false} DigitRunIsMaximal(d: string, rest: string)
    requires forall c | c in d :: IsDigit(c)
    requires rest != [] ==> !IsDigit(rest[0])
    ensures DigitRun(d + rest) == |d|
  {
    if d == [] {
      assert d + rest == rest;
    } else {
      assert (d + rest)[1..] == d[1..] + rest;
      DigitRunIsMaximal(d[1..], rest);
    }
  }

  // ---------------------------------------------------------------- values

  function Stringify(j: Json): string
    decreases j, 1
  {
    match j
    case Null => "null"
    case Bool(b) => if b then "true" else "false"
    case Num(n) => if n < 0 then "-" + Digits(-n) else Digits(n)
    case Str(s) => Quote(s)
    case Arr(elems) => if elems == [] then "[]" else "[" + StringifyElems(elems) + "]"
    case Obj(members) => if members == [] then "{}" else "{" + StringifyMembers(members) + "}"
  }

  function StringifyElems(es: seq<Json>): string
    requires es != []
    decreases es, 0
  {
    if |es| == 1 then Stringify(es[0]) else Stringify(es[0]) + "," + StringifyElems(es[1..])
  }

  function StringifyMember(m: Member): string
    decreases m, 0
  {
    Quote(m.key) + ":" + Stringify(m.value)
  }

  function StringifyMembers(ms: seq<Member>): string
    requires ms != []
    decreases ms, 0
  {
    if |ms| == 1 then StringifyMember(ms[0])
    else StringifyMember(ms[0]) + "," + StringifyMembers(ms[1..])
  }

  function ParseValue(s: string): (r: Option<Parsed<Json>>)
    ensures r.Some? ==> |r.value.rest| < |s|
    decreases |s|, 1
  {
    if "null" <= s then Some(Parsed(Null, s[4..]))
    else if "true" <= s then Some(Parsed(Bool(true), s[4..]))
    else if "false" <= s then Some(Parsed(Bool(false), s[5..]))
    else if "[]" <= s then Some(Parsed(Arr([]), s[2..]))
    else if "{}" <= s then Some(Parsed(Obj([]), s[2..]))
    else if s == [] then None
    else if s[0] == '\"' then
      var p := ParseChars(s[1..]);
      if p.None? then None else Some(Parsed(Str(p.value.value), p.value.rest))
    else if s[0] == '[' then
      var p := ParseElems(s[1..]);
      if p.None? then None else Some(Parsed(Arr(p.value.value), p.value.rest))
    else if s[0] == '{' then
      var p := ParseMembers(s[1..]);
      if p.None? then None else Some(Parsed(Obj(p.value.value), p.value.rest))
    else if s[0] == '-' then
      var k := DigitRun(s[1..]);
      if k == 0 then None else Some(Parsed(Num(-DigitsValue(s[1..][..k])), s[1..][k..]))
    else
      var k := DigitRun(s);
      if k == 0 then None else Some(Parsed(Num(DigitsValue(s[..k])), s[k..]))
  }

  /** One or more values separated by commas, up to and including the closing bracket. */
  function ParseElems(s: string): (r: Option<Parsed<seq<Json>>>)
    ensures r.Some? ==> |r.value.rest| < |s|
    decreases |s|, 2
  {
    var p := ParseValue(s);
    if p.None? || p.value.rest == [] then None
    else if p.value.rest[0] == ']' then Some(Parsed([p.value.value], p.value.rest[1..]))
    else if p.value.rest[0] != ',' then None
    else
      var q := ParseElems(p.value.rest[1..]);
      if q.None? then None else Some(Parsed([p.value.value] + q.value.value, q.value.rest))
  }

  /** `"key":value`. */
  function ParseMember(s: string): (r: Option<Parsed<Member>>)
    ensures r.Some? ==> |r.value.rest| < |s|
    decreases |s|, 2
  {
    if s == [] || s[0] != '\"' then None
    else
      var k := ParseChars(s[1..]);
      if k.None? || k.value.rest == [] || k.value.rest[0] != ':' then None
      else
        var v := ParseValue(k.value.rest[1..]);
        if v.None? then None else Some(Parsed(Member(k.value.value, v.value.value), v.value.rest))
  }

  function ParseMembers(s: string): (r: Option<Parsed<seq<Member>>>)
    ensures r.Some? ==> |r.value.rest| < |s|
    decreases |s|, 3
  {
    var p := ParseMember(s);
    if p.None? || p.value.rest == [] then None
    else if p.value.rest[0] == '}' then Some(Parsed([p.value.value], p.value.rest[1..]))
    else if p.value.rest[0] != ',' then None
    else
      var q := ParseMembers(p.value.rest[1..]);
      if q.None? then None else Some(Parsed([p.value.value] + q.value.value, q.value.rest))
  }

  /** `JSON.parse`: one value and nothing after it. */
  function Parse(s: string): Option<Json> {
    var p := ParseValue(s);
    if p.Some? && p.value.rest == [] then Some(p.value.value) else None
  }

  // ---------------------------------------------------------------- round trip

  /** What may follow a value inside a larger text: anything that does not extend a number. */
  predicate Stops(rest: string) {
    rest != [] ==> !IsDigit(rest[0])
  }

  lemma {:induction false} ValueRoundTrip(j: Json, rest: string)
    requires Stops(rest)
    ensures ParseValue(Stringify(j) + rest) == Some(Parsed(j, rest))
    decreases j, 1
  {
    match j
    case Null => LiteralRoundTrip(j, rest);
    case Bool(_) => LiteralRoundTrip(j, rest);
    case Num(n) => NumberRoundTrip(n, rest);
    case Str(t) => StringRoundTrip(t, rest);
    case Arr(elems) =>
      if elems == [] { LiteralRoundTrip(j, rest); } else { ArrayRoundTrip(elems, rest); }
    case Obj(members) =>
      if members == [] { LiteralRoundTrip(j, rest); } else { ObjectRoundTrip(members, rest); }
  }

  lemma StringRoundTrip(t: string, rest: string)
    ensures ParseValue(Stringify(Str(t)) + rest) == Some(Parsed(Str(t), rest))
  {
    var s := Stringify(Str(t)) + rest;
    assert s[0] == '\"' && s[1..] == Escape(t) + ['\"'] + rest;
    QuotedStringParses(t, rest);
  }

  lemma LiteralRoundTrip(j: Json, rest: string)
    requires j.Null? || j.Bool? || j == Arr([]) || j == Obj([])
    ensures ParseValue(Stringify(j) + rest) == Some(Parsed(j, rest))
  {
    var text := Stringify(j);
    var s := text + rest;
    assert s[|text|..] == rest && s[0] == text[0] && s[..|text|] == text;
  }

  lemma {:induction false} ArrayRoundTrip(elems: seq<Json>, rest: string)
    requires elems != []
    ensures ParseValue(Stringify(Arr(elems)) + rest) == Some(Parsed(Arr(elems), rest))
    decreases elems, 1
  {
    var s := Stringify(Arr(elems)) + rest;
    assert s[1..] == StringifyElems(elems) + "]" + rest;
    ElemsRoundTrip(elems, rest);
    FirstChar(elems[0]);
    assert s[1] == StringifyElems(elems)[0] == Stringify(elems[0])[0];
    assert s[0] == '[';
  }

  lemma {:induction false} ObjectRoundTrip(members: seq<Member>, rest: string)
    requires members != []
    ensures ParseValue(Stringify(Obj(members)) + rest) == Some(Parsed(Obj(members), rest))
    decreases members, 1
  {
    var s := Stringify(Obj(members)) + rest;
    assert s[1..] == StringifyMembers(members) + "}" + rest;
    MembersRoundTrip(members, rest);
    assert s[1] == StringifyMembers(members)[0] == Quote(members[0].key)[0] == '\"';
    assert s[0] == '{';
  }

  lemma DigitsParse(d: string, rest: string)
    requires d != [] && (forall c | c in d :: IsDigit(c)) && Stops(rest)
    ensures ParseValue(d + rest) == Some(Parsed(Num(DigitsValue(d)), rest))
  {
    DigitRunIsMaximal(d, rest);
    assert d[0] in d && (d + rest)[0] == d[0];
    CutAt(d, rest);
  }

  lemma CutAt(d: string, rest: string)
    ensures (d + rest)[..|d|] == d && (d + rest)[|d|..] == rest
  {
  }

  lemma MinusStep(s: string, d: string, rest: string)
    requires s != [] && s[0] == '-' && s[1..] == d + rest && d != [] && DigitRun(d + rest) == |d|
    ensures ParseValue(s) == Some(Parsed(Num(-DigitsValue(d)), rest))
  {
    CutAt(d, rest);
  }

  lemma MinusParses(d: string, rest: string)
    requires d != [] && (forall c | c in d :: IsDigit(c)) && Stops(rest)
    ensures ParseValue("-" + d + rest) == Some(Parsed(Num(-DigitsValue(d)), rest))
  {
    DigitRunIsMaximal(d, rest);
    assert ("-" + d + rest)[0] == '-' && ("-" + d + rest)[1..] == d + rest;
    MinusStep("-" + d + rest, d, rest);
  }

  lemma NumberRoundTrip(n: int, rest: string)
    requires Stops(rest)
    ensures ParseValue(Stringify(Num(n)) + rest) == Some(Parsed(Num(n), rest))
  {
    DigitsRoundTrip(if n < 0 then -n else n);
    if n < 0 { MinusParses(Digits(-n), rest); } else { DigitsParse(Digits(n), rest); }
  }

  lemma ElemsStep(s: string, x: Json, r: string)
    requires r != [] && ParseValue(s) == Some(Parsed(x, r))
    ensures r[0] == ']' ==> ParseElems(s) == Some(Parsed([x], r[1..]))
    ensures r[0] == ',' && ParseElems(r[1..]).Some? ==>
              var q := ParseElems(r[1..]).value;
              ParseElems(s) == Some(Parsed([x] + q.value, q.rest))
  {
  }

  /** The text of a list from its first entry on. */
  lemma ListText(first: string, more: string, close: string, rest: string)
    ensures first + close + rest == first + (close + rest)
    ensures first + "," + more + close + rest == first + ("," + (more + close + rest))
    ensures ("," + (more + close + rest))[1..] == more + close + rest
  {
  }

  lemma {:induction false} ElemsRoundTrip(es: seq<Json>, rest: string)
    requires es != []
    ensures ParseElems(StringifyElems(es) + "]" + rest) == Some(Parsed(es, rest))
    decreases es, 0
  {
    var first := Stringify(es[0]);
    var follow := if |es| == 1 then "]" + rest else "," + (StringifyElems(es[1..]) + "]" + rest);
    ListText(first, if |es| == 1 then "" else StringifyElems(es[1..]), "]", rest);
    ValueRoundTrip(es[0], follow);
    ElemsStep(first + follow, es[0], follow);
    if |es| == 1 {
      assert follow[1..] == rest && es == [es[0]];
    } else {
      ElemsRoundTrip(es[1..], rest);
      assert [es[0]] + es[1..] == es;
    }
  }

  lemma MemberParses(s: string, key: string, value: Json, after: string, rest: string)
    requires s != [] && s[0] == '\"' && ParseChars(s[1..]) == Some(Parsed(key, after))
    requires after != [] && after[0] == ':' && ParseValue(after[1..]) == Some(Parsed(value, rest))
    ensures ParseMember(s) == Some(Parsed(Member(key, value), rest))
  {
  }

  /** The text of a member from its opening quote on. */
  lemma MemberText(key: string, value: string, rest: string)
    ensures var s := ['\"'] + key + ['\"'] + ":" + value + rest;
            s[0] == '\"' && s[1..] == key + ['\"'] + (":" + (value + rest))
    ensures (":" + (value + rest))[1..] == value + rest
  {
  }

  lemma {:induction false} MemberRoundTrip(m: Member, rest: string)
    requires Stops(rest)
    ensures ParseMember(StringifyMember(m) + rest) == Some(Parsed(m, rest))
    decreases m, 0
  {
    var key, value := Escape(m.key), Stringify(m.value);
    var s, after := ['\"'] + key + ['\"'] + ":" + value + rest, ":" + (value + rest);
    assert StringifyMember(m) + rest == s by { MemberIs(m, rest); }
    MemberText(key, value, rest);
    QuotedStringParses(m.key, after);
    ValueRoundTrip(m.value, rest);
    MemberParses(s, m.key, m.value, after, rest);
  }

  lemma MemberIs(m: Member, rest: string)
    ensures StringifyMember(m) + rest == ['\"'] + Escape(m.key) + ['\"'] + ":" + Stringify(m.value) + rest
  {
  }

  lemma MembersStep(s: string, m: Member, r: string)
    requires r != [] && ParseMember(s) == Some(Parsed(m, r))
    ensures r[0] == '}' ==> ParseMembers(s) == Some(Parsed([m], r[1..]))
    ensures r[0] == ',' && ParseMembers(r[1..]).Some? ==>
              var q := ParseMembers(r[1..]).value;
              ParseMembers(s) == Some(Parsed([m] + q.value, q.rest))
  {
  }

  lemma {:induction false} MembersRoundTrip(ms: seq<Member>, rest: string)
    requires ms != []
    ensures ParseMembers(StringifyMembers(ms) + "}" + rest) == Some(Parsed(ms, rest))
    decreases ms, 0
  {
    var first := StringifyMember(ms[0]);
    var follow := if |ms| == 1 then "}" + rest else "," + (StringifyMembers(ms[1..]) + "}" + rest);
    ListText(first, if |ms| == 1 then "" else StringifyMembers(ms[1..]), "}", rest);
    MemberRoundTrip(ms[0], follow);
    MembersStep(first + follow, ms[0], follow);
    if |ms| == 1 {
      assert follow[1..] == rest && ms == [ms[0]];
    } else {
      assert follow[0] == ',';
      MembersRoundTrip(ms[1..], rest);
      assert [ms[0]] + ms[1..] == ms;
    }
  }

  /** No value starts with a closing bracket, so `[` and `[]` cannot be confused. */
  lemma FirstChar(j: Json)
    ensures Stringify(j) != [] && Stringify(j)[0] != ']'
  {
    if j.Num? && j.n >= 0 {
      assert IsDigit(Digits(j.n)[0]);
    }
  }

  lemma ParseStringify(j: Json)
    ensures Parse(Stringify(j)) == Some(j)
  {
    ValueRoundTrip(j, []);
    assert Stringify(j) + [] == Stringify(j);
  }

  // ---------------------------------------------------------------- framing

  /** No control character, in particular no line feed. */
  predicate Printable(s: string) {
    forall c | c in s :: c >= ' '
  }

  lemma EscapeCharPrintable(c: char)
    ensures Printable(EscapeChar(c))
  {
    if c < ' ' {
      HexRoundTrip(c as int / 16);
      HexRoundTrip(c as int % 16);
    }
  }

  lemma {:induction false} EscapePrintable(s: string)
    ensures Printable(Escape(s))
  {
    if s != [] {
      EscapeCharPrintable(s[0]);
      EscapePrintable(s[1..]);
    }
  }

  lemma {:induction false} StringifyPrintable(j: Json)
    ensures Printable(Stringify(j))
    decreases j, 1
  {
    match j
    case Null =>
    case Bool(_) =>
    case Num(_) =>
    case Str(s) => EscapePrintable(s);
    case Arr(elems) => if elems != [] { ElemsPrintable(elems); }
    case Obj(members) => if members != [] { MembersPrintable(members); }
  }

  lemma {:induction false} ElemsPrintable(es: seq<Json>)
    requires es != []
    ensures Printable(StringifyElems(es))
    decreases es, 0
  {
    StringifyPrintable(es[0]);
    if |es| > 1 { ElemsPrintable(es[1..]); }
  }

  lemma {:induction false} MembersPrintable(ms: seq<Member>)
    requires ms != []
    ensures Printable(StringifyMembers(ms))
    decreases ms, 0
  {
    MemberPrintable(ms[0]);
    if |ms| > 1 { MembersPrintable(ms[1..]); }
  }

  lemma {:induction false} MemberPrintable(m: Member)
    ensures Printable(StringifyMember(m))
    decreases m, 0
  {
    EscapePrintable(m.key);
    StringifyPrintable(m.value);
  }

  /** A stringified value is one non-empty line that `trim()` leaves alone. */
  lemma StringifyIsOneLine(j: Json)
    ensures Stringify(j) != [] && '\n' !in Stringify(j) && IsTrimmed(Stringify(j))
  {
    StringifyPrintable(j);
    if j.Num? {
      var d := Digits(if j.n < 0 then -j.n else j.n);
      assert IsDigit(d[0]) && IsDigit(d[|d| - 1]);
    }
  }
}
