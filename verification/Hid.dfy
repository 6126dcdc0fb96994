/** edge-agent/src/devices: keyboard input reports to characters, and characters to scans. */
module HidScancodes {
  import opened Wrappers

  type Byte = b: int | 0 <= b < 256

  const ENTER: int := 0x28

  /** The usage table: (plain, shifted), None for a usage it does not list. */
  function Base(usage: int): Option<(char, char)> {
    if 0x04 <= usage <= 0x1d then
      Some((('a' as int + usage - 0x04) as char, ('A' as int + usage - 0x04) as char))
    else
      match usage
      case 0x1e => Some(('1', '!'))
      case 0x1f => Some(('2', '@'))
      case 0x20 => Some(('3', '#'))
      case 0x21 => Some(('4', '$'))
      case 0x22 => Some(('5', '%'))
      case 0x23 => Some(('6', '^'))
      case 0x24 => Some(('7', '&'))
      case 0x25 => Some(('8', '*'))
      case 0x26 => Some(('9', '('))
      case 0x27 => Some(('0', ')'))
      case 0x2c => Some((' ', ' '))
      case 0x2d => Some(('-', '_'))
      case 0x2e => Some(('=', '+'))
      case 0x2f => Some(('[', '{'))
      case 0x30 => Some((']', '}'))
      case 0x31 => Some(('\\', '|'))
      case 0x33 => Some((';', ':'))
      case 0x34 => Some(('\'', '\"'))
      case 0x35 => Some(('`', '~'))
      case 0x36 => Some((',', '<'))
      case 0x37 => Some(('.', '>'))
      case 0x38 => Some(('/', '?'))
      case _ => None
  }

  function DecodeUsage(usage: int, shifted: bool): string {
    match Base(usage)
    case None => ""
    case Some((plain, upper)) => if shifted then [upper] else [plain]
  }

  datatype Decoded = Decoded(text: string, enter: bool)

  /** Left shift is bit 0x02 of the modifier byte, right shift bit 0x20. */
  predicate Shifted(modifier: Byte) {
    modifier / 0x02 % 2 == 1 || modifier / 0x20 % 2 == 1
  }

  type Bit = b: int | 0 <= b <= 1

  /** Of the eight bits of the modifier byte, exactly bit 1 and bit 5 shift. */
  lemma ShiftBits(b0: Bit, b1: Bit, b2: Bit, b3: Bit, b4: Bit, b5: Bit, b6: Bit, b7: Bit)
    ensures Shifted(b0 + 2 * b1 + 4 * b2 + 8 * b3 + 16 * b4 + 32 * b5 + 64 * b6 + 128 * b7) <==> b1 == 1 || b5 == 1
  {
    var m := b0 + 2 * b1 + 4 * b2 + 8 * b3 + 16 * b4 + 32 * b5 + 64 * b6 + 128 * b7;
    assert m / 0x02 == b1 + 2 * (b2 + 2 * b3 + 4 * b4 + 8 * b5 + 16 * b6 + 32 * b7);
    assert m / 0x20 == b5 + 2 * (b6 + 2 * b7);
  }

  function DecodeReport(report: seq<Byte>): Decoded {
    if |report| < 3 then Decoded("", false)
    else
      var key := report[2];
      if key == 0 then Decoded("", false)
      else if key == ENTER then Decoded("", true)
      else Decoded(DecodeUsage(key, Shifted(report[0])), false)
  }

  predicate Printable(c: char) {
    ' ' <= c <= '~'
  }

  /** The key press that types a printable ASCII character. */
  function KeyFor(c: char): (Byte, bool) {
    if 'a' <= c <= 'z' then (0x04 + (c as int - 'a' as int), false)
    else if 'A' <= c <= 'Z' then (0x04 + (c as int - 'A' as int), true)
    else if '1' <= c <= '9' then (0x1e + (c as int - '1' as int), false)
    else
      match c
      case ' ' => (0x2c, false) case '0' => (0x27, false)
      case '!' => (0x1e, true) case '@' => (0x1f, true) case '#' => (0x20, true)
      case '$' => (0x21, true) case '%' => (0x22, true) case '^' => (0x23, true)
      case '&' => (0x24, true) case '*' => (0x25, true) case '(' => (0x26, true)
      case ')' => (0x27, true)
      case '-' => (0x2d, false) case '_' => (0x2d, true)
      case '=' => (0x2e, false) case '+' => (0x2e, true)
      case '[' => (0x2f, false) case '{' => (0x2f, true)
      case ']' => (0x30, false) case '}' => (0x30, true)
      case '\\' => (0x31, false) case '|' => (0x31, true)
      case ';' => (0x33, false) case ':' => (0x33, true)
      case '\'' => (0x34, false) case '\"' => (0x34, true)
      case '`' => (0x35, false) case '~' => (0x35, true)
      case ',' => (0x36, false) case '<' => (0x36, true)
      case '.' => (0x37, false) case '>' => (0x37, true)
      case '/' => (0x38, false)
      case _ => (0x38, true)
  }

  /** A plain eight-byte report pressing that key. */
  function ReportFor(c: char): seq<Byte> {
    var (usage, shifted) := KeyFor(c);
    [if shifted then 0x02 else 0x00, 0, usage, 0, 0, 0, 0, 0]
  }

  lemma KeyForDecodes(c: char)
    requires Printable(c)
    ensures var (usage, shifted) := KeyFor(c);
            usage > 0 && usage != ENTER && DecodeUsage(usage, shifted) == [c]
  {
    if '1' <= c <= '9' {
      assert c == '1' || c == '2' || c == '3' || c == '4' || c == '5' || c == '6' || c == '7' || c == '8' || c == '9';
    }
  }

  lemma ReportForDecodes(c: char)
    requires Printable(c)
    ensures DecodeReport(ReportFor(c)) == Decoded([c], false)
  {
    KeyForDecodes(c);
    assert Shifted(0x02) && !Shifted(0x00);
  }

  /** The table types exactly the printable ASCII characters. */
  lemma TypableIffPrintableAscii(c: char)
    ensures (exists report: seq<Byte> :: DecodeReport(report).text == [c]) <==> Printable(c)
  {
    if Printable(c) {
      ReportForDecodes(c);
    }
  }

  /** The key found for a character a key types is that key. */
  lemma KeyForInverts(usage: int, shifted: bool)
    requires DecodeUsage(usage, shifted) != ""
    ensures KeyFor(DecodeUsage(usage, shifted)[0]) == (usage, shifted && usage != 0x2c)
  {
  }

  /** Two different keys never type the same character (space aside, which ignores shift). */
  lemma KeysAreDistinct(u1: int, s1: bool, u2: int, s2: bool)
    requires DecodeUsage(u1, s1) == DecodeUsage(u2, s2) != ""
    ensures u1 == u2 && (s1 == s2 || u1 == 0x2c)
  {
    KeyForInverts(u1, s1);
    KeyForInverts(u2, s2);
  }
}

module HidScanners {
  import opened Text
  import opened HidScancodes

  type Report = seq<Byte>

  /** The scanner between two reports: unfinished characters, and the scans emitted so far. */
  datatype Scan = Scan(buffer: string, emitted: seq<string>)

  function Flushed(s: Scan): Scan {
    var value := Trim(s.buffer);
    Scan("", if value != "" then s.emitted + [value] else s.emitted)
  }

  predicate Ends(d: Decoded, terminator: string) {
    d.enter || (d.text != "" && d.text == terminator)
  }

  function OnReport(s: Scan, report: Report, terminator: string): Scan {
    var d := DecodeReport(report);
    if Ends(d, terminator) then Flushed(s) else s.(buffer := s.buffer + d.text)
  }

  function FeedAll(s: Scan, reports: seq<Report>, terminator: string): Scan
    decreases |reports|
  {
    if reports == [] then s else FeedAll(OnReport(s, reports[0], terminator), reports[1..], terminator)
  }

  class HidScanner {
    const terminator: string
    var buffer: string
    /** The values of the 'scan' events emitted. */
    var emitted: seq<string>

    ghost function View(): Scan
      reads this
    {
      Scan(buffer, emitted)
    }

    constructor (terminator: string)
      ensures this.terminator == terminator && View() == Scan("", [])
    {
      this.terminator := terminator;
      buffer := "";
      emitted := [];
    }

    method OnData(report: Report)
      modifies this
      ensures View() == OnReport(old(View()), report, terminator)
    {
      var d := DecodeReport(report);
      if d.enter || (d.text != "" && d.text == terminator) {
        Flush();
        return;
      }
      if d.text != "" {
        buffer := buffer + d.text;
      }
    }

    method Flush()
      modifies this
      ensures View() == Flushed(old(View()))
    {
      var value := Trim(buffer);
      buffer := "";
      if value != "" {
        emitted := emitted + [value];
      }
    }
  }

  // ---------------------------------------------------------------- what the stream says

  /** The characters typed, every end of scan (Enter or the terminator) written as a line feed. */
  function Typed(reports: seq<Report>, terminator: string): string
    decreases |reports|
  {
    if reports == [] then ""
    else
      var d := DecodeReport(reports[0]);
      (if Ends(d, terminator) then "\n" else d.text) + Typed(reports[1..], terminator)
  }

  /**
   The reference: split at the ends of scan; the last piece is still unfinished, the others
   are the scans, trimmed and if not empty. A buffer left from before belongs to the first piece.
   */
  function Pieces(s: Scan, typed: string): Scan {
    Assembled(s.emitted, Split(s.buffer + typed, '\n'))
  }

  function Assembled(emitted: seq<string>, pieces: seq<string>): Scan
    requires pieces != []
  {
    Scan(pieces[|pieces| - 1], emitted + UsefulLines(pieces[..|pieces| - 1]))
  }

  lemma FirstPieceFlushed(emitted: seq<string>, first: string, tail: seq<string>)
    requires tail != []
    ensures Assembled(emitted, [first] + tail) == Assembled(Flushed(Scan(first, emitted)).emitted, tail)
  {
    var done := tail[..|tail| - 1];
    assert ([first] + tail)[..|tail|] == [first] + done;
    UsefulCons(first, done);
    if Trim(first) == "" {
      assert [] + UsefulLines(done) == UsefulLines(done);
    } else {
      assert emitted + ([Trim(first)] + UsefulLines(done)) == emitted + [Trim(first)] + UsefulLines(done);
    }
  }

  lemma PiecesAtEnd(s: Scan, rest: string)
    requires '\n' !in s.buffer
    ensures Pieces(s, "\n" + rest) == Pieces(Flushed(s), rest)
  {
    assert s.buffer + ("\n" + rest) == s.buffer + ['\n'] + rest;
    SplitPiece(s.buffer, '\n', rest);
    FirstPieceFlushed(s.emitted, s.buffer, Split(rest, '\n'));
    assert Flushed(s).buffer + rest == rest;
  }

  lemma {:induction false} SplitPlain(s: string)
    requires '\n' !in s
    ensures Split(s, '\n') == [s]
  {
    if s != "" {
      SplitPlain(s[1..]);
      assert [s[0]] + s[1..] == s;
    }
  }

  lemma DecodedIsPlain(r: Report)
    ensures '\n' !in DecodeReport(r).text
  {
  }

  lemma {:induction false} FeedAllFrom(s: Scan, reports: seq<Report>, terminator: string)
    requires '\n' !in s.buffer
    ensures FeedAll(s, reports, terminator) == Pieces(s, Typed(reports, terminator))
    decreases |reports|
  {
    if reports == [] {
      SplitPlain(s.buffer);
      assert s.buffer + "" == s.buffer;
      assert [s.buffer][..0] == [];
    } else {
      var d := DecodeReport(reports[0]);
      var rest := Typed(reports[1..], terminator);
      DecodedIsPlain(reports[0]);
      FeedAllFrom(OnReport(s, reports[0], terminator), reports[1..], terminator);
      if Ends(d, terminator) {
        PiecesAtEnd(s, rest);
      } else {
        assert s.buffer + (d.text + rest) == (s.buffer + d.text) + rest;
      }
    }
  }

  /** Any report stream emits exactly the non-empty trimmed pieces between ends of scan. */
  lemma ScansAreThePieces(reports: seq<Report>, terminator: string)
    ensures var pieces := Split(Typed(reports, terminator), '\n');
            FeedAll(Scan("", []), reports, terminator)
            == Scan(pieces[|pieces| - 1], UsefulLines(pieces[..|pieces| - 1]))
  {
    FeedAllFrom(Scan("", []), reports, terminator);
    assert "" + Typed(reports, terminator) == Typed(reports, terminator);
  }

  // ---------------------------------------------------------------- codes come back

  /** Reports that say nothing: too short, no key, or a key the table does not list. */
  predicate IsNoise(r: Report) {
    |r| < 3 || !(0x04 <= r[2] <= 0x28 || 0x2c <= r[2] <= 0x31 || 0x33 <= r[2] <= 0x38)
  }

  /** Exactly these decode to nothing; of the others, the Enter key ends a scan and every other key types one character. */
  lemma NoiseIff(r: Report)
    ensures DecodeReport(r) == Decoded("", false) <==> IsNoise(r)
    ensures !IsNoise(r) ==> if r[2] == 0x28 then DecodeReport(r) == Decoded("", true)
                            else |DecodeReport(r).text| == 1 && !DecodeReport(r).enter
  {
  }

  function WithoutNoise(reports: seq<Report>): seq<Report>
    decreases |reports|
  {
    if reports == [] then []
    else (if IsNoise(reports[0]) then [] else [reports[0]]) + WithoutNoise(reports[1..])
  }

  predicate Typable(code: string, terminator: string) {
    forall i | 0 <= i < |code| :: Printable(code[i]) && [code[i]] != terminator
  }

  /** Codes a reader can transmit: typable, not blank at either end, free of the terminator. */
  predicate Transmittable(code: string, terminator: string) {
    && code != "" && IsTrimmed(code)
    && Typable(code, terminator)
  }

  /** The terminator can be typed, so a reader may end its codes with it. */
  predicate TypableEnd(terminator: string) {
    |terminator| == 1 && Printable(terminator[0])
  }

  /** The key a code ends with: the terminator or Enter. */
  function EndKey(byTerminator: bool, terminator: string): Report
    requires byTerminator ==> TypableEnd(terminator)
  {
    if byTerminator then ReportFor(terminator[0]) else [0, 0, 0x28, 0, 0, 0, 0, 0]
  }

  function KeysOf(code: string, end: Report): seq<Report> {
    if code == "" then [end] else [ReportFor(code[0])] + KeysOf(code[1..], end)
  }

  /** Codes one after the other, each with the key it ends with. */
  function Transmission(codes: seq<(string, bool)>, terminator: string): seq<Report>
    requires forall c | c in codes && c.1 :: TypableEnd(terminator)
  {
    if codes == [] then []
    else
      var (code, byTerminator) := codes[0];
      KeysOf(code, EndKey(byTerminator, terminator)) + Transmission(codes[1..], terminator)
  }

  function Texts(codes: seq<(string, bool)>): seq<string> {
    if codes == [] then [] else [codes[0].0] + Texts(codes[1..])
  }

  lemma {:induction false} TypedConcat(a: seq<Report>, b: seq<Report>, terminator: string)
    ensures Typed(a + b, terminator) == Typed(a, terminator) + Typed(b, terminator)
    decreases |a|
  {
    if a == [] {
      assert a + b == b;
    } else {
      assert (a + b)[1..] == a[1..] + b;
      TypedConcat(a[1..], b, terminator);
    }
  }

  lemma {:induction false} NoiseTypesNothing(reports: seq<Report>, terminator: string)
    ensures Typed(reports, terminator) == Typed(WithoutNoise(reports), terminator)
    decreases |reports|
  {
    if reports != [] {
      NoiseTypesNothing(reports[1..], terminator);
      NoiseIff(reports[0]);
      if !IsNoise(reports[0]) {
        assert ([reports[0]] + WithoutNoise(reports[1..]))[1..] == WithoutNoise(reports[1..]);
      } else {
        assert [] + WithoutNoise(reports[1..]) == WithoutNoise(reports[1..]);
      }
    }
  }

  lemma EndKeyEnds(byTerminator: bool, terminator: string)
    requires byTerminator ==> TypableEnd(terminator)
    ensures Typed([EndKey(byTerminator, terminator)], terminator) == "\n"
  {
    if byTerminator { ReportForDecodes(terminator[0]); }
    assert [EndKey(byTerminator, terminator)][1..] == [];
  }

  lemma {:induction false} KeysType(code: string, end: Report, terminator: string)
    requires Typable(code, terminator) && Typed([end], terminator) == "\n"
    ensures Typed(KeysOf(code, end), terminator) == code + "\n"
    decreases |code|
  {
    if code != "" {
      ReportForDecodes(code[0]);
      KeysType(code[1..], end, terminator);
      assert KeysOf(code, end)[1..] == KeysOf(code[1..], end);
      assert [code[0]] + (code[1..] + "\n") == code + "\n";
    }
  }

  lemma {:induction false} TransmissionPieces(codes: seq<(string, bool)>, terminator: string)
    requires forall c | c in codes :: Transmittable(c.0, terminator) && (c.1 ==> TypableEnd(terminator))
    ensures Split(Typed(Transmission(codes, terminator), terminator), '\n') == Texts(codes) + [""]
    decreases |codes|
  {
    if codes == [] {
      assert Split("", '\n') == [""];
    } else {
      var (code, byTerminator) := codes[0];
      var end, more := EndKey(byTerminator, terminator), Transmission(codes[1..], terminator);
      assert codes[0] in codes && Transmittable(code, terminator);
      EndKeyEnds(byTerminator, terminator);
      KeysType(code, end, terminator);
      TypedConcat(KeysOf(code, end), more, terminator);
      SplitPiece(code, '\n', Typed(more, terminator));
      TransmissionPieces(codes[1..], terminator);
      assert [code] + (Texts(codes[1..]) + [""]) == Texts(codes) + [""];
    }
  }

  lemma {:induction false} TransmittableAreUseful(codes: seq<(string, bool)>, terminator: string)
    requires forall c | c in codes :: Transmittable(c.0, terminator)
    ensures UsefulLines(Texts(codes)) == Texts(codes)
    decreases |codes|
  {
    if codes != [] {
      assert codes[0] in codes && Transmittable(codes[0].0, terminator);
      TrimKeeps(codes[0].0);
      TransmittableAreUseful(codes[1..], terminator);
      UsefulCons(codes[0].0, Texts(codes[1..]));
    }
  }

  /**
   Any list of transmittable codes, each ended by Enter or by the terminator, comes back as exactly
   those scans, however the reader interleaves short, zero-key or unmapped reports.
   */
  lemma CodesComeBack(codes: seq<(string, bool)>, reports: seq<Report>, terminator: string)
    requires forall c | c in codes :: Transmittable(c.0, terminator) && (c.1 ==> TypableEnd(terminator))
    requires WithoutNoise(reports) == Transmission(codes, terminator)
    ensures FeedAll(Scan("", []), reports, terminator) == Scan("", Texts(codes))
  {
    NoiseTypesNothing(reports, terminator);
    TransmissionPieces(codes, terminator);
    TransmittableAreUseful(codes, terminator);
    ScansAreThePieces(reports, terminator);
    assert (Texts(codes) + [""])[..|Texts(codes)|] == Texts(codes);
  }
}
