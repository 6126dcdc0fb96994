/** edge-agent/src/queue.js: the durable FIFO and its JSONL file image. */
module EventQueues {
  import opened Wrappers
  import opened Text
  import opened Json

  /** A captured event: any JSON value, `EdgeAgent.capture` builds an object. */
  type Event = Json

  // ---------------------------------------------------------------- file image

  /** One record of the file: the stringified event and its line feed. */
  function Line(e: Event): string {
    Stringify(e) + "\n"
  }

  /** `items.map(JSON.stringify).join('\n')`. */
  function Join(items: seq<Event>): string {
    if items == [] then ""
    else if |items| == 1 then Stringify(items[0])
    else Stringify(items[0]) + "\n" + Join(items[1..])
  }

  /** The text `#persist` writes: the joined body, closed by a line feed unless it is empty. */
  function PersistText(items: seq<Event>): string {
    var body := Join(items);
    if body != "" then body + "\n" else ""
  }

  /** `.map(JSON.parse)`: None as soon as one line is corrupt. */
  function ParseLines(lines: seq<string>): Option<seq<Event>> {
    if lines == [] then Some([])
    else
      var head := Parse(lines[0]);
      var tail := ParseLines(lines[1..]);
      if head.None? || tail.None? then None else Some([head.value] + tail.value)
  }

  /** The items `#load` restores; a corrupt line makes the queue start empty. */
  function LoadText(raw: string): seq<Event> {
    var parsed := ParseLines(UsefulLines(Split(raw, '\n')));
    if parsed.Some? then parsed.value else []
  }

  /** The image as a plain concatenation of records, which is what appending produces. */
  function Records(items: seq<Event>): string {
    if items == [] then "" else Line(items[0]) + Records(items[1..])
  }

  lemma {:induction false} RecordsAppend(items: seq<Event>, e: Event)
    ensures Records(items + [e]) == Records(items) + Line(e)
  {
    if items == [] {
      assert items + [e] == [e] && [e][1..] == [];
      assert Records([e]) == Line(e) + Records([]);
    } else {
      assert (items + [e])[1..] == items[1..] + [e];
      RecordsAppend(items[1..], e);
      assert Line(items[0]) + (Records(items[1..]) + Line(e)) == Records(items) + Line(e);
    }
  }

  /** The rewriting form and the appending form of the file are the same text. */
  lemma {:induction false} PersistIsRecords(items: seq<Event>)
    ensures PersistText(items) == Records(items)
  {
    if items != [] {
      PersistIsRecords(items[1..]);
      StringifyIsOneLine(items[0]);
      if |items| == 1 {
        assert items[1..] == [];
        assert Line(items[0]) + "" == Line(items[0]);
      } else {
        StringifyIsOneLine(items[1]);
        assert Join(items[1..]) != "";
        assert Stringify(items[0]) + "\n" + Join(items[1..]) + "\n"
            == Line(items[0]) + (Join(items[1..]) + "\n");
      }
    }
  }

  /** Appending one line to the image of `items` gives the image of `items + [e]`. */
  lemma PersistAppend(items: seq<Event>, e: Event)
    ensures PersistText(items) + Line(e) == PersistText(items + [e])
  {
    PersistIsRecords(items);
    PersistIsRecords(items + [e]);
    RecordsAppend(items, e);
  }

  /** The stringified events, one a line. */
  function Lines(items: seq<Event>): seq<string> {
    if items == [] then [] else [Stringify(items[0])] + Lines(items[1..])
  }

  lemma {:induction false} RecordsSplit(items: seq<Event>)
    ensures Split(Records(items), '\n') == Lines(items) + [""]
  {
    if items == [] {
      assert Split("", '\n') == [""];
    } else {
      var line, rest := Stringify(items[0]), Records(items[1..]);
      StringifyIsOneLine(items[0]);
      assert Records(items) == line + ['\n'] + rest;
      SplitPiece(line, '\n', rest);
      RecordsSplit(items[1..]);
      assert [line] + (Lines(items[1..]) + [""]) == Lines(items) + [""];
    }
  }

  lemma {:induction false} LinesAreUseful(items: seq<Event>)
    ensures UsefulLines(Lines(items) + [""]) == Lines(items)
  {
    if items == [] {
      UsefulCons("", []);
      assert Lines(items) + [""] == [""] + [];
    } else {
      var line := Stringify(items[0]);
      StringifyIsOneLine(items[0]);
      TrimKeeps(line);
      UsefulCons(line, Lines(items[1..]) + [""]);
      assert Lines(items) + [""] == [line] + (Lines(items[1..]) + [""]);
      LinesAreUseful(items[1..]);
    }
  }

  lemma {:induction false} LinesParse(items: seq<Event>)
    ensures ParseLines(Lines(items)) == Some(items)
  {
    if items != [] {
      assert Lines(items)[1..] == Lines(items[1..]);
      ParseStringify(items[0]);
      LinesParse(items[1..]);
      assert [items[0]] + items[1..] == items;
    }
  }

  /** Reloading the file that was persisted restores exactly the queue. */
  lemma LoadPersist(items: seq<Event>)
    ensures LoadText(PersistText(items)) == items
  {
    PersistIsRecords(items);
    RecordsSplit(items);
    LinesAreUseful(items);
    LinesParse(items);
  }

  lemma AppendedLine(text: string, e: Event)
    ensures text + Stringify(e) + "\n" == text + Line(e)
  {
  }

  /** An exact image with one more line is the exact image of the queue with one more event. */
  lemma AppendedImage(text: string, e: Event)
    requires text == PersistText(LoadText(text))
    ensures LoadText(text + Line(e)) == LoadText(text) + [e]
    ensures text + Line(e) == PersistText(LoadText(text) + [e])
  {
    PersistAppend(LoadText(text), e);
    LoadPersist(LoadText(text) + [e]);
  }

  // ---------------------------------------------------------------- batches

  /** `items.slice(0, max)`; a negative end counts from the back. */
  function Slice(items: seq<Event>, max: int): seq<Event> {
    if max >= |items| then items
    else if max >= 0 then items[..max]
    else if |items| + max >= 0 then items[..|items| + max]
    else []
  }

  /** What `splice(0, count)` leaves behind. */
  function Spliced(items: seq<Event>, count: nat): seq<Event> {
    if count <= |items| then items[count..] else []
  }

  // ---------------------------------------------------------------- the queue object

  class EventQueue {
    var items: seq<Event>
    /** The file's text, None while there is no file. */
    var file: Option<string>

    ghost function Text(): string
      reads this
    {
      if file.Some? then file.value else ""
    }

    /** What a restart would find. */
    ghost function Disk(): seq<Event>
      reads this
    {
      LoadText(Text())
    }

    /** The file is the exact image of what it holds: no corrupt or foreign text. */
    ghost predicate Intact()
      reads this
    {
      Text() == PersistText(Disk())
    }

    constructor (file: Option<string>)
      ensures this.file == file && items == Disk()
    {
      this.items := [];
      this.file := file;
      new;
      Load();
    }

    method Load()
      requires items == []
      modifies this`items
      ensures items == Disk()
    {
      if file.None? {
        LoadPersist([]);
        return;
      }
      var parsed := ParseLines(UsefulLines(Split(file.value, '\n')));
      items := if parsed.Some? then parsed.value else [];
    }

    method Persist(writeSucceeds: bool)
      modifies this`file
      ensures writeSucceeds ==> Intact() && Disk() == items
      ensures !writeSucceeds ==> file == old(file)
    {
      if writeSucceeds {
        var body := Join(items);
        file := Some(if body != "" then body + "\n" else "");
        LoadPersist(items);
      }
    }

    /** Memory first, then one appended line; a failed append is only logged. */
    method Enqueue(e: Event, appendSucceeds: bool)
      modifies this
      ensures items == old(items) + [e]
      ensures Text() == if appendSucceeds then old(Text()) + Line(e) else old(Text())
      ensures old(Intact()) ==> Intact() && Disk() == if appendSucceeds then old(Disk()) + [e] else old(Disk())
    {
      items := items + [e];
      if appendSucceeds {
        AppendedLine(Text(), e);
        if Intact() { AppendedImage(Text(), e); }
        file := Some((if file.Some? then file.value else "") + Stringify(e) + "\n");
      }
    }

    method PeekBatch(max: int) returns (batch: seq<Event>)
      ensures batch == Slice(items, max)
      ensures batch <= items
      ensures |batch| == if max >= |items| then |items| else if max >= 0 then max
                         else if |items| + max >= 0 then |items| + max else 0
    {
      batch := Slice(items, max);
    }

    /** Drop the first `count` items, then rewrite the file; the rewrite may throw. A rewrite also mends the file. */
    method AckBatch(count: nat, writeSucceeds: bool) returns (ok: bool)
      modifies this
      ensures ok == writeSucceeds
      ensures items == Spliced(old(items), count)
      ensures if ok then Intact() && Disk() == items else file == old(file)
    {
      items := Spliced(items, count);
      Persist(writeSucceeds);
      ok := writeSucceeds;
    }
  }
}
