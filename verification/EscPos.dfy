/**
 edge-agent/src/printers/escpos.js: the receipt encoder, and a reference reader of the
 byte stream (ESC/POS: ESC @, ESC a, ESC !, GS h, GS k function B, GS ( k functions
 167, 180 and 181, GS V function B).
 */
module EscPos {
  import opened Wrappers
  import opened Text

  type Byte = b: int | 0 <= b < 256
  type Bytes = seq<Byte>

  const ESC: Byte := 0x1b
  const GS: Byte := 0x1d
  const LF: Byte := 0x0a

  /** `job.lines` when it is an array, else `job.text` as the only line. */
  datatype Body = Lines(lines: seq<Bytes>) | SingleText(text: Bytes)

  /** A print job; text is UTF-8 bytes, an empty field counts as absent. */
  datatype Job = Job(title: Bytes, body: Body, barcode: Bytes, qr: Bytes)

  function BodyLines(b: Body): seq<Bytes> {
    match b
    case Lines(ls) => ls
    case SingleText(t) => if t != [] then [t] else []
  }

  // ---------------------------------------------------------------- the stream

  const INITIALIZE: Bytes := [ESC, 0x40]
  const TITLE_ON: Bytes := [ESC, 0x61, 0x01, ESC, 0x21, 0x30]
  const TITLE_OFF: Bytes := [LF, ESC, 0x21, 0x00, ESC, 0x61, 0x00]
  const BARCODE_ON: Bytes := [GS, 0x68, 0x50, GS, 0x6b, 0x49]
  const QR_ON: Bytes := [GS, 0x28, 0x6b, 0x03, 0x00, 0x31, 0x43, 0x08, GS, 0x28, 0x6b]
  const QR_STORE: Bytes := [0x31, 0x50, 0x30]
  const QR_PRINT: Bytes := [GS, 0x28, 0x6b, 0x03, 0x00, 0x31, 0x51, 0x30, LF]
  const CUT: Bytes := [GS, 0x56, 0x42, 0x00]
  const FEED: Bytes := [LF, LF, LF]

  function TitleBlock(title: Bytes): Bytes {
    if title == [] then [] else TITLE_ON + title + TITLE_OFF
  }

  function LinesBlock(lines: seq<Bytes>): Bytes {
    if lines == [] then [] else lines[0] + [LF] + LinesBlock(lines[1..])
  }

  /** One length byte; `Buffer.from` keeps the low eight bits. */
  function BarcodeBlock(data: Bytes): Bytes {
    if data == [] then [] else BARCODE_ON + [|data| % 256] + data + [LF]
  }

  /** Two length bytes, low first, counting the three parameter bytes as well. */
  function QrBlock(data: Bytes): Bytes {
    if data == [] then []
    else
      var len := |data| + 3;
      QR_ON + [len % 256, len / 256 % 256] + QR_STORE + data + QR_PRINT
  }

  function Encode(job: Job): Bytes {
    INITIALIZE + TitleBlock(job.title) + LinesBlock(BodyLines(job.body))
    + BarcodeBlock(job.barcode) + QrBlock(job.qr) + FEED + CUT
  }

  lemma {:induction false} LinesBlockAppend(lines: seq<Bytes>, line: Bytes)
    ensures LinesBlock(lines + [line]) == LinesBlock(lines) + line + [LF]
  {
    if lines == [] {
      assert lines + [line] == [line];
      assert LinesBlock([line]) == line + [LF] + LinesBlock([line][1..]);
    } else {
      assert (lines + [line])[1..] == lines[1..] + [line];
      LinesBlockAppend(lines[1..], line);
    }
  }

  lemma TitleChunks(o: Bytes, a: Bytes, b: Bytes, t: Bytes, l: Bytes, c: Bytes, d: Bytes)
    requires a + b == TITLE_ON && l + c + d == TITLE_OFF
    ensures o + a + b + t + l + c + d == o + (TITLE_ON + t + TITLE_OFF)
  {
    assert o + a + b + t + l + c + d == o + ((a + b) + t + (l + c + d));
  }

  lemma BarcodeChunks(o: Bytes, a: Bytes, b: Bytes, n: Byte, t: Bytes)
    requires a + b == BARCODE_ON + [n]
    ensures o + a + b + t + [LF] == o + (BARCODE_ON + [n] + t + [LF])
  {
    assert o + a + b + t + [LF] == o + ((a + b) + t + [LF]);
  }

  lemma QrChunks(o: Bytes, a: Bytes, b: Bytes, n: Bytes, t: Bytes, c: Bytes)
    requires a + b == QR_ON + n + QR_STORE && c + [LF] == QR_PRINT
    ensures o + a + b + t + c + [LF] == o + (QR_ON + n + QR_STORE + t + QR_PRINT)
  {
    assert o + a + b + t + c + [LF] == o + ((a + b) + t + (c + [LF]));
  }

  /** `buildReceipt`: chunks are pushed one after the other and concatenated. */
  method BuildReceipt(job: Job) returns (out: Bytes)
    ensures out == Encode(job)
  {
    out := INITIALIZE;
    if job.title != [] {
      TitleChunks(out, [ESC, 0x61, 0x01], [ESC, 0x21, 0x30], job.title, [LF], [ESC, 0x21, 0x00], [ESC, 0x61, 0x00]);
      out := out + [ESC, 0x61, 0x01];
      out := out + [ESC, 0x21, 0x30];
      out := out + job.title;
      out := out + [LF];
      out := out + [ESC, 0x21, 0x00];
      out := out + [ESC, 0x61, 0x00];
    }
    out := AppendLines(out, job.body);
    out := AppendCodes(out, job.barcode, job.qr);
    out := out + FEED;
    out := out + CUT;
  }

  method AppendLines(start: Bytes, body: Body) returns (out: Bytes)
    ensures out == start + LinesBlock(BodyLines(body))
  {
    out := start;
    var lines := match body
      case Lines(ls) => ls
      case SingleText(t) => if t != [] then [t] else [];
    for i := 0 to |lines|
      invariant out == start + LinesBlock(lines[..i])
    {
      assert lines[..i + 1] == lines[..i] + [lines[i]];
      LinesBlockAppend(lines[..i], lines[i]);
      assert start + LinesBlock(lines[..i + 1]) == start + LinesBlock(lines[..i]) + lines[i] + [LF];
      out := out + lines[i];
      out := out + [LF];
    }
    assert lines[..|lines|] == lines;
  }

  method AppendCodes(start: Bytes, barcode: Bytes, qr: Bytes) returns (out: Bytes)
    ensures out == start + BarcodeBlock(barcode) + QrBlock(qr)
  {
    out := start;
    if barcode != [] {
      var n: Byte := |barcode| % 256;
      BarcodeChunks(out, [GS, 0x68, 0x50], [GS, 0x6b, 0x49, n], n, barcode);
      out := out + [GS, 0x68, 0x50];
      out := out + [GS, 0x6b, 0x49, n];
      out := out + barcode;
      out := out + [LF];
    }
    if qr != [] {
      var len := |qr| + 3;
      var low: Byte, high: Byte := len % 256, len / 256 % 256;
      QrChunks(out, [GS, 0x28, 0x6b, 0x03, 0x00, 0x31, 0x43, 0x08], [GS, 0x28, 0x6b, low, high, 0x31, 0x50, 0x30],
               [low, high], qr, [GS, 0x28, 0x6b, 0x03, 0x00, 0x31, 0x51, 0x30]);
      out := out + [GS, 0x28, 0x6b, 0x03, 0x00, 0x31, 0x43, 0x08];
      out := out + [GS, 0x28, 0x6b, low, high, 0x31, 0x50, 0x30];
      out := out + qr;
      out := out + [GS, 0x28, 0x6b, 0x03, 0x00, 0x31, 0x51, 0x30];
      out := out + [LF];
    }
  }

  // ---------------------------------------------------------------- the reader

  datatype Receipt = Receipt(title: Bytes, lines: seq<Bytes>, barcode: Bytes, qr: Bytes)

  function Expect(s: Bytes, prefix: Bytes): Option<Bytes> {
    if prefix <= s then Some(s[|prefix|..]) else None
  }

  /** Length of the printable run: up to the first command byte. */
  function TextRun(s: Bytes): (n: nat)
    ensures n <= |s|
    ensures forall i | 0 <= i < n :: s[i] != ESC && s[i] != GS
  {
    if s == [] || s[0] == ESC || s[0] == GS then 0 else 1 + TextRun(s[1..])
  }

  /** Text up to a line feed. */
  function LineRun(s: Bytes): (n: nat)
    ensures n <= |s|
    ensures LF !in s[..n]
  {
    if s == [] || s[0] == LF then 0 else 1 + LineRun(s[1..])
  }

  datatype Taken = Taken(data: Bytes, rest: Bytes)

  /** A title between its two mode switches, or none. */
  function ReadTitle(s: Bytes): Option<Taken> {
    if !(TITLE_ON <= s) then Some(Taken([], s))
    else
      var t := s[|TITLE_ON|..];
      var n := LineRun(t[..TextRun(t)]);
      var rest := Expect(t[n..], TITLE_OFF);
      if rest.None? || n == 0 then None else Some(Taken(t[..n], rest.value))
  }

  /** `on`, a length byte, that many bytes and a line feed; or no block at all. */
  function ReadCounted(s: Bytes, on: Bytes): Option<Taken> {
    if !(on <= s) then Some(Taken([], s))
    else
      var t := s[|on|..];
      if t == [] then None
      else
        var n: int := t[0];
        if n == 0 || |t| < n + 2 || t[n + 1] != LF then None
        else Some(Taken(t[1..n + 1], t[n + 2..]))
  }

  /** `on`, a two-byte count of `store` and the data, the data, `end`; or no block at all. */
  function ReadStored(s: Bytes, on: Bytes, store: Bytes, end: Bytes): Option<Taken> {
    if !(on <= s) then Some(Taken([], s))
    else
      var t := s[|on|..];
      if |t| < 2 then None
      else
        var n := (t[0] as int) + 256 * (t[1] as int) - |store|;
        var u := Expect(t[2..], store);
        if n <= 0 || u.None? || |u.value| < n then None
        else
          var rest := Expect(u.value[n..], end);
          if rest.None? then None else Some(Taken(u.value[..n], rest.value))
  }

  /** GS k, function B. */
  function ReadBarcode(s: Bytes): Option<Taken> {
    ReadCounted(s, BARCODE_ON)
  }

  /** GS ( k, functions 167, 180 and 181. */
  function ReadQr(s: Bytes): Option<Taken> {
    ReadStored(s, QR_ON, QR_STORE, QR_PRINT)
  }

  /** The lines of a text section, which must end in a line feed. */
  function ReadLines(text: Bytes): Option<seq<Bytes>> {
    var pieces := Split(text, LF);
    if pieces[|pieces| - 1] != [] then None else Some(pieces[..|pieces| - 1])
  }

  /** The last three lines before the cut are the paper feed. */
  function DropFeed(lines: seq<Bytes>): Option<seq<Bytes>> {
    if |lines| >= 3 && lines[|lines| - 3..] == [[], [], []] then Some(lines[..|lines| - 3]) else None
  }

  /** A whole receipt, up to and including the cut. */
  function Read(s: Bytes): Option<Receipt> {
    var s1 := Expect(s, INITIALIZE);
    if s1.None? then None
    else
      var title := ReadTitle(s1.value);
      if title.None? then None
      else
        var t := title.value.rest;
        var lines := ReadLines(t[..TextRun(t)]);
        if lines.None? then None
        else ReadTail(title.value.data, lines.value, t[TextRun(t)..])
  }

  /** What follows the text section: codes and feed, or only the cut. */
  function ReadTail(title: Bytes, lines: seq<Bytes>, s: Bytes): Option<Receipt> {
    if s == CUT then
      var kept := DropFeed(lines);
      if kept.None? then None else Some(Receipt(title, kept.value, [], []))
    else
      var barcode := ReadBarcode(s);
      if barcode.None? then None
      else
        var qr := ReadQr(barcode.value.rest);
        if qr.None? || qr.value.rest != FEED + CUT then None
        else Some(Receipt(title, lines, barcode.value.data, qr.value.data))
  }

  // ---------------------------------------------------------------- round trip

  predicate PlainText(s: Bytes) {
    ESC !in s && GS !in s && LF !in s
  }

  /** Text free of the three control bytes, and codes short enough for their length fields. */
  predicate Printable(job: Job) {
    && PlainText(job.title)
    && (forall i | 0 <= i < |BodyLines(job.body)| :: PlainText(BodyLines(job.body)[i]))
    && |job.barcode| <= 255
    && |job.qr| <= 65532
  }

  lemma {:induction false} TextRunIs(text: Bytes, rest: Bytes)
    requires ESC !in text && GS !in text
    requires rest != [] && (rest[0] == ESC || rest[0] == GS)
    ensures TextRun(text + rest) == |text|
    ensures (text + rest)[..|text|] == text && (text + rest)[|text|..] == rest
  {
    if text != [] {
      assert (text + rest)[1..] == text[1..] + rest;
      TextRunIs(text[1..], rest);
    } else {
      assert text + rest == rest;
    }
  }

  lemma {:induction false} LineRunIs(line: Bytes, rest: Bytes)
    requires LF !in line
    requires rest == [] || rest[0] == LF
    ensures LineRun(line + rest) == |line|
  {
    if line != [] {
      assert (line + rest)[1..] == line[1..] + rest;
      LineRunIs(line[1..], rest);
    } else {
      assert line + rest == rest;
    }
  }

  lemma {:induction false} LinesBlockPlain(lines: seq<Bytes>)
    requires forall i | 0 <= i < |lines| :: PlainText(lines[i])
    ensures ESC !in LinesBlock(lines) && GS !in LinesBlock(lines)
  {
    if lines != [] {
      assert PlainText(lines[0]);
      LinesBlockPlain(lines[1..]);
    }
  }

  lemma {:induction false} SplitLinesBlock(lines: seq<Bytes>)
    requires forall i | 0 <= i < |lines| :: LF !in lines[i]
    ensures Split(LinesBlock(lines), LF) == lines + [[]]
  {
    if lines != [] {
      SplitPiece(lines[0], LF, LinesBlock(lines[1..]));
      SplitLinesBlock(lines[1..]);
      assert [lines[0]] + (lines[1..] + [[]]) == lines + [[]];
    } else {
      assert Split(LinesBlock(lines), LF) == [[]];
    }
  }

  lemma LinesRoundTrip(lines: seq<Bytes>)
    requires forall i | 0 <= i < |lines| :: LF !in lines[i]
    ensures ReadLines(LinesBlock(lines)) == Some(lines)
  {
    SplitLinesBlock(lines);
    assert (lines + [[]])[..|lines|] == lines;
  }

  lemma TitleRoundTrip(title: Bytes, rest: Bytes)
    requires PlainText(title)
    requires rest != [] && rest[0] != ESC
    ensures ReadTitle(TitleBlock(title) + rest) == Some(Taken(title, rest))
  {
    if title == [] {
      assert TitleBlock(title) + rest == rest;
      assert TITLE_ON[0] != rest[0];
    } else {
      Delimited(TITLE_ON, title, TITLE_OFF, rest);
      TitleRead(title, TITLE_OFF + rest);
    }
  }

  lemma Delimited(on: Bytes, data: Bytes, off: Bytes, rest: Bytes)
    ensures var s := on + data + off + rest; on <= s && s[|on|..] == data + (off + rest)
    ensures off <= off + rest && (off + rest)[|off|..] == rest
  {
  }

  lemma TitleRead(title: Bytes, off: Bytes)
    requires PlainText(title)
    requires |off| >= 2 && off[0] == LF && off[1] == ESC
    ensures var t := title + off;
            LineRun(t[..TextRun(t)]) == |title| && t[..|title|] == title && t[|title|..] == off
  {
    var t := title + off;
    assert t == (title + [LF]) + off[1..];
    TextRunIs(title + [LF], off[1..]);
    LineRunIs(title, [LF]);
  }

  lemma DropFirst(on: Bytes, a: Bytes, b: Bytes, c: Bytes, rest: Bytes)
    ensures var s := on + a + b + c + rest; on <= s && s[|on|..] == a + b + c + rest
  {
  }

  lemma CountedRoundTrip(on: Bytes, data: Bytes, rest: Bytes)
    requires 0 < |data| <= 255
    ensures ReadCounted(on + [|data| % 256] + data + [LF] + rest, on) == Some(Taken(data, rest))
  {
    var n: Byte := |data|;
    DropFirst(on, [n], data, [LF], rest);
    var t := [n] + data + [LF] + rest;
    assert t[1..n as int + 1] == data && t[n as int + 2..] == rest;
  }

  lemma BarcodeRoundTrip(data: Bytes, rest: Bytes)
    requires |data| <= 255
    requires !(BARCODE_ON <= rest)
    ensures ReadBarcode(BarcodeBlock(data) + rest) == Some(Taken(data, rest))
  {
    if data == [] {
      assert BarcodeBlock(data) + rest == rest;
    } else {
      CountedRoundTrip(BARCODE_ON, data, rest);
    }
  }

  lemma LengthBytes(n: nat)
    requires n < 65536
    ensures n % 256 + 256 * (n / 256 % 256) == n
  {
  }

  lemma StoredRead(n: Bytes, store: Bytes, data: Bytes, end: Bytes, rest: Bytes)
    requires |n| == 2
    ensures var t := n + store + data + (end + rest);
            && |t| >= 2 && t[0] == n[0] && t[1] == n[1]
            && store <= t[2..] && t[2..][|store|..] == data + (end + rest)
    ensures var u := data + (end + rest);
            u[..|data|] == data && end <= u[|data|..] && u[|data|..][|end|..] == rest
  {
    assert (n + store + data + (end + rest))[2..] == store + (data + (end + rest));
    assert (data + (end + rest))[|data|..] == end + rest;
  }

  lemma StoredRoundTrip(on: Bytes, store: Bytes, data: Bytes, end: Bytes, rest: Bytes)
    requires |store| == 3 && 0 < |data| <= 65532
    ensures var len := |data| + 3;
            ReadStored(on + [len % 256, len / 256 % 256] + store + data + end + rest, on, store, end)
            == Some(Taken(data, rest))
  {
    var len := |data| + 3;
    LengthBytes(len);
    var n: Bytes := [len % 256, len / 256 % 256];
    DropFirst(on, n, store, data, end + rest);
    assert on + n + store + data + (end + rest) == on + n + store + data + end + rest;
    StoredRead(n, store, data, end, rest);
  }

  lemma QrRoundTrip(data: Bytes, rest: Bytes)
    requires |data| <= 65532
    requires !(QR_ON <= rest)
    ensures ReadQr(QrBlock(data) + rest) == Some(Taken(data, rest))
  {
    if data == [] {
      assert QrBlock(data) + rest == rest;
    } else {
      StoredRoundTrip(QR_ON, QR_STORE, data, QR_PRINT, rest);
    }
  }

  // ---------------------------------------------------------------- the theorem

  /** What a job says, independently of how its body was given. */
  function Meaning(job: Job): Receipt {
    Receipt(job.title, BodyLines(job.body), job.barcode, job.qr)
  }

  lemma CodesRoundTrip(job: Job)
    requires Printable(job)
    ensures var b := ReadBarcode(BarcodeBlock(job.barcode) + (QrBlock(job.qr) + (FEED + CUT)));
            b == Some(Taken(job.barcode, QrBlock(job.qr) + (FEED + CUT)))
    ensures ReadQr(QrBlock(job.qr) + (FEED + CUT)) == Some(Taken(job.qr, FEED + CUT))
  {
    assert (FEED + CUT)[0] == LF != QR_ON[0];
    QrRoundTrip(job.qr, FEED + CUT);
    var rest := QrBlock(job.qr) + (FEED + CUT);
    if job.qr == [] {
      assert rest == FEED + CUT && rest[0] != BARCODE_ON[0];
    } else {
      assert rest[1] == QR_ON[1] != BARCODE_ON[1];
    }
    BarcodeRoundTrip(job.barcode, rest);
  }

  lemma {:induction false} LinesBlockConcat(a: seq<Bytes>, b: seq<Bytes>)
    ensures LinesBlock(a + b) == LinesBlock(a) + LinesBlock(b)
  {
    if a == [] {
      assert a + b == b;
    } else {
      assert (a + b)[1..] == a[1..] + b;
      LinesBlockConcat(a[1..], b);
      assert a[0] + [LF] + (LinesBlock(a[1..]) + LinesBlock(b)) == LinesBlock(a) + LinesBlock(b);
    }
  }

  lemma FeedIsThreeEmptyLines()
    ensures FEED == LinesBlock([[], [], []])
  {
    var none: Bytes := [];
    LinesBlockAppend([], none);
    LinesBlockAppend([none], none);
    LinesBlockAppend([none, none], none);
    assert [none] + [none] == [none, none] && [none, none] + [none] == [none, none, none];
    assert [] + [none] == [none];
  }

  /** Everything after the text lines. */
  function Tail(job: Job): Bytes {
    BarcodeBlock(job.barcode) + (QrBlock(job.qr) + (FEED + CUT))
  }

  /** The text section is found and read back, with the feed attached when no code follows it. */
  lemma TextSectionRead(job: Job)
    requires Printable(job)
    ensures var lines := BodyLines(job.body);
            var t := LinesBlock(lines) + Tail(job);
            var coded := job.barcode != [] || job.qr != [];
            && ReadLines(t[..TextRun(t)]) == Some(if coded then lines else lines + [[], [], []])
            && t[TextRun(t)..] == if coded then Tail(job) else CUT
  {
    var lines := BodyLines(job.body);
    var t := LinesBlock(lines) + Tail(job);
    LinesBlockPlain(lines);
    if job.barcode != [] || job.qr != [] {
      assert Tail(job)[0] == GS;
      TextRunIs(LinesBlock(lines), Tail(job));
      LinesRoundTrip(lines);
    } else {
      var all := lines + [[], [], []];
      FeedIsThreeEmptyLines();
      LinesBlockConcat(lines, [[], [], []]);
      assert Tail(job) == FEED + CUT;
      assert t == LinesBlock(all) + CUT;
      assert forall i | 0 <= i < |all| :: PlainText(all[i]);
      LinesBlockPlain(all);
      TextRunIs(LinesBlock(all), CUT);
      LinesRoundTrip(all);
    }
  }

  lemma TailAssembled(title: Bytes, lines: seq<Bytes>, s: Bytes, barcode: Taken, qr: Taken)
    requires s != CUT && ReadBarcode(s) == Some(barcode)
    requires ReadQr(barcode.rest) == Some(qr) && qr.rest == FEED + CUT
    ensures ReadTail(title, lines, s) == Some(Receipt(title, lines, barcode.data, qr.data))
  {
  }

  lemma CodedTailIsNotCut(job: Job)
    requires job.barcode != [] || job.qr != []
    ensures Tail(job) != CUT
  {
    assert Tail(job)[1] == if job.barcode != [] then 0x68 else 0x28;
    assert CUT[1] == 0x56;
  }

  lemma CodedTailRead(job: Job)
    requires Printable(job) && (job.barcode != [] || job.qr != [])
    ensures ReadTail(job.title, BodyLines(job.body), Tail(job)) == Some(Meaning(job))
  {
    CodesRoundTrip(job);
    CodedTailIsNotCut(job);
    TailAssembled(job.title, BodyLines(job.body), Tail(job),
                  Taken(job.barcode, QrBlock(job.qr) + (FEED + CUT)), Taken(job.qr, FEED + CUT));
  }

  lemma FeedDropped(lines: seq<Bytes>)
    ensures DropFeed(lines + [[], [], []]) == Some(lines)
  {
    var all := lines + [[], [], []];
    assert all[|all| - 3..] == [[], [], []] && all[..|all| - 3] == lines;
  }

  lemma EncodeParts(job: Job)
    ensures Encode(job) == INITIALIZE + (TitleBlock(job.title) + (LinesBlock(BodyLines(job.body)) + Tail(job)))
  {
    Associate(INITIALIZE, TitleBlock(job.title), LinesBlock(BodyLines(job.body)),
              BarcodeBlock(job.barcode), QrBlock(job.qr), FEED, CUT);
  }

  lemma Associate(a: Bytes, b: Bytes, c: Bytes, d: Bytes, e: Bytes, f: Bytes, g: Bytes)
    ensures a + b + c + d + e + f + g == a + (b + (c + (d + (e + (f + g)))))
  {
  }

  lemma ReadAssembled(s: Bytes, s1: Bytes, title: Taken, lines: seq<Bytes>)
    requires Expect(s, INITIALIZE) == Some(s1) && ReadTitle(s1) == Some(title)
    requires ReadLines(title.rest[..TextRun(title.rest)]) == Some(lines)
    ensures Read(s) == ReadTail(title.data, lines, title.rest[TextRun(title.rest)..])
  {
  }

  lemma InitializeRead(rest: Bytes)
    ensures Expect(INITIALIZE + rest, INITIALIZE) == Some(rest)
  {
    assert (INITIALIZE + rest)[|INITIALIZE|..] == rest;
  }

  lemma TextSectionIsNoTitle(job: Job)
    requires Printable(job)
    ensures var t := LinesBlock(BodyLines(job.body)) + Tail(job); t != [] && t[0] != ESC
  {
    LinesBlockPlain(BodyLines(job.body));
    assert Tail(job) != [] && Tail(job)[0] != ESC;
  }

  lemma EncodedReads(job: Job)
    requires Printable(job)
    ensures Read(Encode(job)) == Some(Meaning(job))
  {
    var lines := BodyLines(job.body);
    var t := LinesBlock(lines) + Tail(job);
    var coded := job.barcode != [] || job.qr != [];
    EncodeParts(job);
    InitializeRead(TitleBlock(job.title) + t);
    TextSectionIsNoTitle(job);
    TitleRoundTrip(job.title, t);
    TextSectionRead(job);
    ReadAssembled(Encode(job), TitleBlock(job.title) + t, Taken(job.title, t), if coded then lines else lines + [[], [], []]);
    if coded { CodedTailRead(job); } else { FeedDropped(lines); }
  }

  lemma TitleReadIsPlain(s: Bytes)
    requires ReadTitle(s).Some?
    ensures PlainText(ReadTitle(s).value.data)
  {
    if TITLE_ON <= s {
      var t := s[|TITLE_ON|..];
      var n := LineRun(t[..TextRun(t)]);
      assert t[..n] == t[..TextRun(t)][..n];
    }
  }

  lemma LinesReadArePlain(text: Bytes)
    requires ESC !in text && GS !in text && ReadLines(text).Some?
    ensures forall i | 0 <= i < |ReadLines(text).value| :: PlainText(ReadLines(text).value[i])
  {
    PiecesHoldNoSeparator(text, LF);
  }

  lemma CodesReadAreShort(s: Bytes, on: Bytes, store: Bytes, end: Bytes)
    ensures ReadCounted(s, on).Some? ==> |ReadCounted(s, on).value.data| <= 255
    ensures |store| == 3 && ReadStored(s, on, store, end).Some? ==> |ReadStored(s, on, store, end).value.data| <= 65532
  {
  }

  lemma TailReadKeeps(title: Bytes, lines: seq<Bytes>, s: Bytes)
    requires ReadTail(title, lines, s).Some?
    ensures var r := ReadTail(title, lines, s).value;
            r.title == title && r.lines <= lines && |r.barcode| <= 255 && |r.qr| <= 65532
  {
    if s != CUT {
      CodesReadAreShort(s, BARCODE_ON, QR_STORE, QR_PRINT);
      CodesReadAreShort(ReadBarcode(s).value.rest, QR_ON, QR_STORE, QR_PRINT);
    }
  }

  /** Whatever the reader accepts has plain text and codes within their length fields. */
  lemma ReadIsPrintable(s: Bytes)
    requires Read(s).Some?
    ensures var r := Read(s).value;
            && PlainText(r.title) && (forall i | 0 <= i < |r.lines| :: PlainText(r.lines[i]))
            && |r.barcode| <= 255 && |r.qr| <= 65532
  {
    var s1 := Expect(s, INITIALIZE).value;
    TitleReadIsPlain(s1);
    var t := ReadTitle(s1).value.rest;
    LinesReadArePlain(t[..TextRun(t)]);
    TailReadKeeps(ReadTitle(s1).value.data, ReadLines(t[..TextRun(t)]).value, t[TextRun(t)..]);
  }

  /**
   The reader recovers title, lines, barcode and QR data from what `buildReceipt` sends,
   empty lines and the paper feed included, for exactly the printable jobs.
   */
  lemma RoundTripIffPrintable(job: Job)
    ensures Read(Encode(job)) == Some(Meaning(job)) <==> Printable(job)
  {
    if Printable(job) {
      EncodedReads(job);
    } else if Read(Encode(job)) == Some(Meaning(job)) {
      ReadIsPrintable(Encode(job));
      assert false;
    }
  }

  lemma SampleTitle()
    ensures TitleBlock([0x41]) == [0x1b, 0x61, 0x01, 0x1b, 0x21, 0x30, 0x41, 0x0a, 0x1b, 0x21, 0x00, 0x1b, 0x61, 0x00]
  {
  }

  lemma SampleLine()
    ensures LinesBlock(BodyLines(SingleText([0x42]))) == [0x42, 0x0a]
  {
    var line: Bytes := [0x42];
    assert LinesBlock([line]) == line + [LF] + LinesBlock([line][1..]);
  }

  lemma SampleCodes()
    ensures BarcodeBlock([0x43, 0x44]) == [0x1d, 0x68, 0x50, 0x1d, 0x6b, 0x49, 0x02, 0x43, 0x44, 0x0a]
    ensures QrBlock([0x45]) == [0x1d, 0x28, 0x6b, 0x03, 0x00, 0x31, 0x43, 0x08, 0x1d, 0x28, 0x6b, 0x04, 0x00, 0x31, 0x50, 0x30,
                                0x45, 0x1d, 0x28, 0x6b, 0x03, 0x00, 0x31, 0x51, 0x30, 0x0a]
  {
  }

  /** A badge byte by byte: initialise, a centred double-size title, one line, two bytes of CODE128, a QR code of one, feed and cut. */
  lemma SampleReceipt()
    ensures Encode(Job([0x41], SingleText([0x42]), [0x43, 0x44], [0x45])) ==
              [0x1b, 0x40]
              + [0x1b, 0x61, 0x01, 0x1b, 0x21, 0x30, 0x41, 0x0a, 0x1b, 0x21, 0x00, 0x1b, 0x61, 0x00]
              + [0x42, 0x0a]
              + [0x1d, 0x68, 0x50, 0x1d, 0x6b, 0x49, 0x02, 0x43, 0x44, 0x0a]
              + [0x1d, 0x28, 0x6b, 0x03, 0x00, 0x31, 0x43, 0x08, 0x1d, 0x28, 0x6b, 0x04, 0x00, 0x31, 0x50, 0x30,
                 0x45, 0x1d, 0x28, 0x6b, 0x03, 0x00, 0x31, 0x51, 0x30, 0x0a]
              + [0x0a, 0x0a, 0x0a]
              + [0x1d, 0x56, 0x42, 0x00]
  {
    SampleTitle();
    SampleLine();
    SampleCodes();
  }
}
