/** edge-agent/src/agent.js: capture, and the flush split at its only `await`. */
module EdgeAgents {
  import opened Wrappers
  import opened Json
  import opened EventQueues

  // ---------------------------------------------------------------- events

  /** The object `capture` builds; only a gateway names the device. */
  function MakeEvent(kind: string, capturedAt: string, dedupeKey: string, deviceCode: Option<string>, payload: Json)
    : Event
  {
    Obj([Member("type", Str(kind)), Member("capturedAt", Str(capturedAt)), Member("dedupeKey", Str(dedupeKey))]
        + (if deviceCode.Some? then [Member("deviceCode", Str(deviceCode.value))] else [])
        + [Member("payload", payload)])
  }

  function Lookup(members: seq<Member>, key: string): Option<Json> {
    if members == [] then None
    else if members[0].key == key then Some(members[0].value)
    else Lookup(members[1..], key)
  }

  /** The key the backend deduplicates on; a missing or empty key is not deduplicated. */
  function DedupeKey(e: Event): Option<string> {
    if e.Obj? then
      match Lookup(e.members, "dedupeKey")
      case Some(Str(s)) => if s != "" then Some(s) else None
      case _ => None
    else None
  }

  /** Each field of a captured event is found under its name, `deviceCode` only where one is named. */
  lemma CapturedEventFields(kind: string, at: string, key: string, deviceCode: Option<string>, payload: Json)
    ensures var e := MakeEvent(kind, at, key, deviceCode, payload);
            && e.Obj?
            && Lookup(e.members, "type") == Some(Str(kind))
            && Lookup(e.members, "capturedAt") == Some(Str(at))
            && Lookup(e.members, "dedupeKey") == Some(Str(key))
            && Lookup(e.members, "deviceCode") == (if deviceCode.Some? then Some(Str(deviceCode.value)) else None)
            && Lookup(e.members, "payload") == Some(payload)
            && |e.members| == (if deviceCode.Some? then 5 else 4)
            && DedupeKey(e) == if key != "" then Some(key) else None
  {
    var ms := MakeEvent(kind, at, key, deviceCode, payload).members;
    assert ms[0].key == "type" && ms[1].key == "capturedAt" && ms[2].key == "dedupeKey";
    assert |"type"| == 4 && |"capturedAt"| == 10 && |"dedupeKey"| == 9 && |"payload"| == 7 && "deviceCode"[0] == 'd';
    LookupAt(ms, 0);
    LookupAt(ms, 1);
    LookupAt(ms, 2);
    LookupAt(ms, |ms| - 1);
    if deviceCode.Some? {
      assert ms[3] == Member("deviceCode", Str(deviceCode.value)) && "capturedAt"[0] == 'c';
      LookupAt(ms, 3);
    } else {
      LookupNone(ms, "deviceCode");
    }
  }

  lemma {:induction false} LookupAt(ms: seq<Member>, k: nat)
    requires k < |ms| && forall i | 0 <= i < k :: ms[i].key != ms[k].key
    ensures Lookup(ms, ms[k].key) == Some(ms[k].value)
  {
    if k > 0 { LookupAt(ms[1..], k - 1); }
  }

  lemma {:induction false} LookupNone(ms: seq<Member>, key: string)
    requires forall m | m in ms :: m.key != key
    ensures Lookup(ms, key) == None
  {
    if ms != [] { LookupNone(ms[1..], key); }
  }

  // ---------------------------------------------------------------- what each step does to the agent

  /** The agent between two event-loop turns. `inFlight` is the batch a pending flush has sent. */
  datatype Edge = Edge(disk: seq<Event>, memory: seq<Event>, inFlight: Option<seq<Event>>)

  function Captured(s: Edge, e: Event, appendSucceeds: bool): Edge {
    s.(memory := s.memory + [e], disk := if appendSucceeds then s.disk + [e] else s.disk)
  }

  /** The agent after a flush tick, and the batch it has sent, if any. */
  function FlushStarted(s: Edge, maxBatch: int): (Edge, Option<seq<Event>>) {
    if s.inFlight.Some? || s.memory == [] then (s, None)
    else
      var batch := Slice(s.memory, maxBatch);
      (s.(inFlight := Some(batch)), Some(batch))
  }

  function FlushSucceeded(s: Edge, writeSucceeds: bool): Edge
    requires s.inFlight.Some?
  {
    var left := Spliced(s.memory, |s.inFlight.value|);
    Edge(if writeSucceeds then left else s.disk, left, None)
  }

  function FlushFailed(s: Edge): Edge {
    s.(inFlight := None)
  }

  /** A new process: only the file survives. */
  function Restarted(s: Edge): Edge {
    Edge(s.disk, s.disk, None)
  }

  // ---------------------------------------------------------------- single flight

  /** What can happen while a push is pending. */
  datatype Tick = Captures(e: Event, appendSucceeds: bool) | FlushAgain

  function Ticked(s: Edge, maxBatch: int, ticks: seq<Tick>): Edge
    decreases |ticks|
  {
    if ticks == [] then s
    else
      var t := match ticks[0]
        case Captures(e, ok) => Captured(s, e, ok)
        case FlushAgain => FlushStarted(s, maxBatch).0;
      Ticked(t, maxBatch, ticks[1..])
  }

  function NewEvents(ticks: seq<Tick>): seq<Event> {
    if ticks == [] then []
    else (if ticks[0].Captures? then [ticks[0].e] else []) + NewEvents(ticks[1..])
  }

  lemma {:induction false} TicksKeepBatch(s: Edge, maxBatch: int, ticks: seq<Tick>)
    requires s.inFlight.Some?
    ensures var t := Ticked(s, maxBatch, ticks);
            t.inFlight == s.inFlight && t.memory == s.memory + NewEvents(ticks)
    decreases |ticks|
  {
    if ticks == [] {
      assert s.memory + [] == s.memory;
    } else {
      match ticks[0]
      case Captures(e, ok) =>
        TicksKeepBatch(Captured(s, e, ok), maxBatch, ticks[1..]);
        assert s.memory + [e] + NewEvents(ticks[1..]) == s.memory + ([e] + NewEvents(ticks[1..]));
      case FlushAgain =>
        TicksKeepBatch(s, maxBatch, ticks[1..]);
        assert [] + NewEvents(ticks[1..]) == NewEvents(ticks[1..]);
    }
  }

  /**
   From a flush to its end, under any captures and further flush ticks: no second batch goes out,
   and the end takes out of the queue exactly the batch that was sent (on success) or nothing.
   */
  lemma FlushTakesOutWhatItSent(s: Edge, maxBatch: int, ticks: seq<Tick>, writeSucceeds: bool)
    requires s.inFlight.None? && s.memory != []
    ensures var (t, sent) := FlushStarted(s, maxBatch);
            var u := Ticked(t, maxBatch, ticks);
            && sent.Some? && u.inFlight == sent && FlushStarted(u, maxBatch) == (u, None)
            && sent.value <= s.memory && (maxBatch >= 0 ==> |sent.value| == if maxBatch < |s.memory| then maxBatch else |s.memory|)
            && sent.value + FlushSucceeded(u, writeSucceeds).memory == s.memory + NewEvents(ticks)
            && FlushFailed(u).memory == s.memory + NewEvents(ticks)
            && FlushSucceeded(u, writeSucceeds).inFlight == FlushFailed(u).inFlight == None
  {
    var (t, sent) := FlushStarted(s, maxBatch);
    TicksKeepBatch(t, maxBatch, ticks);
    var u := Ticked(t, maxBatch, ticks);
    assert sent.value <= s.memory <= u.memory;
    assert u.memory == sent.value + u.memory[|sent.value|..];
  }

  // ---------------------------------------------------------------- the agent object

  class EdgeAgent {
    const queue: EventQueue
    const maxBatch: int
    const isGateway: bool
    const defaultDeviceCode: string
    var flushing: bool
    var batch: seq<Event>

    ghost function View(): Edge
      reads this, queue
    {
      Edge(queue.Disk(), queue.items, if flushing then Some(batch) else None)
    }

    /** An agent on a queue just opened from its file. */
    constructor (queue: EventQueue, maxBatch: int, isGateway: bool, defaultDeviceCode: string)
      requires queue.items == queue.Disk()
      ensures this.queue == queue && this.maxBatch == maxBatch
      ensures View() == Restarted(View())
    {
      this.queue := queue;
      this.maxBatch := maxBatch;
      this.isGateway := isGateway;
      this.defaultDeviceCode := defaultDeviceCode;
      flushing := false;
      batch := [];
    }

    method Capture(kind: string, capturedAt: string, dedupeKey: string, deviceCode: Option<string>,
                   payload: Option<Json>, appendSucceeds: bool)
      returns (event: Event)
      modifies queue
      ensures queue.items == old(queue.items) + [event]
      ensures old(queue.Intact()) ==> queue.Intact() && View() == Captured(old(View()), event, appendSucceeds)
      ensures event.Obj? && Lookup(event.members, "type") == Some(Str(kind))
      ensures Lookup(event.members, "capturedAt") == Some(Str(capturedAt))
      ensures Lookup(event.members, "payload") == Some(if payload.Some? then payload.value else Obj([]))
      ensures Lookup(event.members, "deviceCode") ==
              if !isGateway then None
              else if deviceCode.Some? && deviceCode.value != "" then Some(Str(deviceCode.value))
              else Some(Str(defaultDeviceCode))
      ensures dedupeKey != "" ==> DedupeKey(event) == Some(dedupeKey)
    {
      var named := if deviceCode.Some? && deviceCode.value != "" then deviceCode.value else defaultDeviceCode;
      var code := if isGateway then Some(named) else None;
      event := MakeEvent(kind, capturedAt, dedupeKey, code, if payload.Some? then payload.value else Obj([]));
      CapturedEventFields(kind, capturedAt, dedupeKey, code, if payload.Some? then payload.value else Obj([]));
      queue.Enqueue(event, appendSucceeds);
    }

    /** `flush` up to the `await`: single flight, and nothing to do on an empty queue. */
    method BeginFlush() returns (sent: Option<seq<Event>>)
      modifies this
      ensures (View(), sent) == FlushStarted(old(View()), maxBatch)
      ensures old(flushing) || queue.items == [] ==> sent == None && batch == old(batch) && flushing == old(flushing)
      ensures !old(flushing) && queue.items != [] ==> sent == Some(batch) && flushing && batch <= queue.items
    {
      if flushing || |queue.items| == 0 {
        return None;
      }
      flushing := true;
      batch := queue.PeekBatch(maxBatch);
      sent := Some(batch);
    }

    /** `flush` after the `await`: acknowledge by count on success; always clear the flag. */
    method EndFlush(pushed: bool, writeSucceeds: bool)
      requires flushing
      modifies this, queue
      ensures View() == if pushed then FlushSucceeded(old(View()), writeSucceeds) else FlushFailed(old(View()))
      ensures old(queue.Intact()) || (pushed && writeSucceeds) ==> queue.Intact()
    {
      if pushed {
        var ok := queue.AckBatch(|batch|, writeSucceeds);
      }
      flushing := false;
    }
  }
}
