/**
 The store-and-forward protocol as a whole: one agent that may crash, any number of
 requests that may be ingested late or more than once, and a backend that keeps the
 first arrival of every dedupe key.
 */
module EdgeProtocol {
  import opened Wrappers
  import opened EventQueues
  import opened EdgeAgents

  /**
   A batch on its way to the backend; `done` events of it have been ingested. A request
   outlives the client's timeout and the client's process. Batches may arrive event by event
   and interleaved, which covers the backend's all-or-nothing request transaction. `start` is
   history: how many captures came before the batch.
   */
  datatype Request = Request(batch: seq<Event>, done: nat, start: int)

  datatype World = World(
    edge: Edge,
    live: Option<nat>,        // the request the pending flush waits for
    requests: seq<Request>,   // everything ever sent
    log: seq<Event>,          // the backend's device events, in order of first arrival
    captured: seq<Event>      // history: every event captured, in order
  )

  datatype Action =
    | Capture(e: Event, appendSucceeds: bool)
    | FlushTick
    | Ingest(r: nat)
    | Respond(writeSucceeds: bool)
    | FailFlush
    | Crash

  const EMPTY: World := World(Edge([], [], None), None, [], [], [])

  predicate HasKey(log: seq<Event>, key: string) {
    exists i | 0 <= i < |log| :: DedupeKey(log[i]) == Some(key)
  }

  /** One event of a batch reaches the backend. */
  function Ingested(log: seq<Event>, e: Event): seq<Event> {
    var key := DedupeKey(e);
    if key.Some? && HasKey(log, key.value) then log else log + [e]
  }

  /** An action whose guard fails changes nothing, so every action sequence is a run. */
  function Step(w: World, maxBatch: int, a: Action): World {
    match a
    case Capture(e, appendSucceeds) =>
      // randomUUID never repeats a key
      if DedupeKey(e).None? || HasKey(w.captured, DedupeKey(e).value) then w
      else w.(edge := Captured(w.edge, e, appendSucceeds), captured := w.captured + [e])
    case FlushTick =>
      var (edge, sent) := FlushStarted(w.edge, maxBatch);
      if sent.None? then w.(edge := edge)
      else w.(edge := edge, live := Some(|w.requests|),
              requests := w.requests + [Request(sent.value, 0, |w.captured| - |w.edge.memory|)])
    case Ingest(r) =>
      if r >= |w.requests| || w.requests[r].done >= |w.requests[r].batch| then w
      else
        var q := w.requests[r];
        w.(log := Ingested(w.log, q.batch[q.done]), requests := w.requests[r := q.(done := q.done + 1)])
    case Respond(writeSucceeds) =>
      // a success response means the whole batch was ingested
      if w.edge.inFlight.None? || w.live.None? || w.live.value >= |w.requests|
         || w.requests[w.live.value].done < |w.requests[w.live.value].batch| then w
      else w.(edge := FlushSucceeded(w.edge, writeSucceeds), live := None)
    case FailFlush => w.(edge := FlushFailed(w.edge), live := None)
    case Crash => w.(edge := Restarted(w.edge), live := None)
  }

  function Run(w: World, maxBatch: int, actions: seq<Action>): World
    decreases |actions|
  {
    if actions == [] then w else Run(Step(w, maxBatch, actions[0]), maxBatch, actions[1..])
  }

  // ---------------------------------------------------------------- safety, appends may fail

  ghost predicate UniqueKeys(s: seq<Event>) {
    && (forall i | 0 <= i < |s| :: DedupeKey(s[i]).Some?)
    && (forall i, j | 0 <= i < j < |s| :: DedupeKey(s[i]) != DedupeKey(s[j]))
  }

  ghost predicate Within(s: seq<Event>, t: seq<Event>) {
    forall e | e in s :: e in t
  }

  ghost predicate RequestOk(w: World, q: Request) {
    q.done <= |q.batch| && Within(q.batch, w.captured) && Within(q.batch[..q.done], w.log)
  }

  /** What holds whatever fails. */
  ghost predicate Safe(w: World) {
    && UniqueKeys(w.captured)
    && UniqueKeys(w.log)
    && Within(w.edge.memory, w.captured) && Within(w.edge.disk, w.captured) && Within(w.log, w.captured)
    && (forall e | e in w.edge.disk :: e in w.edge.memory || e in w.log)
    && (forall r | 0 <= r < |w.requests| :: RequestOk(w, w.requests[r]))
    && (w.edge.inFlight.Some? <==> w.live.Some?)
    && (w.live.Some? ==>
          && w.live.value < |w.requests|
          && w.requests[w.live.value].batch == w.edge.inFlight.value
          && w.edge.inFlight.value <= w.edge.memory)
  }

  lemma IngestedKeeps(log: seq<Event>, e: Event, captured: seq<Event>)
    requires UniqueKeys(log) && UniqueKeys(captured)
    requires Within(log, captured) && e in captured
    ensures UniqueKeys(Ingested(log, e)) && Within(Ingested(log, e), captured)
    ensures e in Ingested(log, e) && log <= Ingested(log, e)
  {
    var i :| 0 <= i < |captured| && captured[i] == e;
    if HasKey(log, DedupeKey(e).value) {
      var k :| 0 <= k < |log| && DedupeKey(log[k]) == DedupeKey(e);
      assert log[k] in captured;
      var j :| 0 <= j < |captured| && captured[j] == log[k];
      assert i == j;
    }
  }

  /** A request stays sound while the captures and the arrivals only grow. */
  lemma RequestsStayOk(w: World, w': World)
    requires forall r | 0 <= r < |w.requests| :: RequestOk(w, w.requests[r])
    requires Within(w.captured, w'.captured) && Within(w.log, w'.log) && w'.requests == w.requests
    ensures forall r | 0 <= r < |w'.requests| :: RequestOk(w', w'.requests[r])
  {
    forall r | 0 <= r < |w'.requests| ensures RequestOk(w', w'.requests[r]) { assert RequestOk(w, w.requests[r]); }
  }

  lemma CaptureSafe(w: World, maxBatch: int, e: Event, appendSucceeds: bool)
    requires Safe(w)
    ensures Safe(Step(w, maxBatch, Capture(e, appendSucceeds)))
  {
    RequestsStayOk(w, Step(w, maxBatch, Capture(e, appendSucceeds)));
  }

  lemma TickSafe(w: World, maxBatch: int)
    requires Safe(w)
    ensures Safe(Step(w, maxBatch, FlushTick))
  {
    var w' := Step(w, maxBatch, FlushTick);
    if w' != w {
      forall r | 0 <= r < |w'.requests| ensures RequestOk(w', w'.requests[r]) {
        if r < |w.requests| { assert RequestOk(w, w.requests[r]); }
      }
    }
  }

  lemma IngestSafe(w: World, maxBatch: int, r: nat)
    requires Safe(w)
    ensures Safe(Step(w, maxBatch, Ingest(r)))
  {
    var w' := Step(w, maxBatch, Ingest(r));
    if w' != w {
      var q := w.requests[r];
      assert RequestOk(w, q);
      IngestedKeeps(w.log, q.batch[q.done], w.captured);
      assert q.batch[..q.done + 1] == q.batch[..q.done] + [q.batch[q.done]];
      forall s | 0 <= s < |w'.requests| ensures RequestOk(w', w'.requests[s]) { assert RequestOk(w, w.requests[s]); }
    }
  }

  lemma RespondSafe(w: World, maxBatch: int, writeSucceeds: bool)
    requires Safe(w)
    ensures Safe(Step(w, maxBatch, Respond(writeSucceeds)))
  {
    var w' := Step(w, maxBatch, Respond(writeSucceeds));
    if w' != w {
      var q := w.requests[w.live.value];
      assert RequestOk(w, q);
      assert w.edge.memory == q.batch + w'.edge.memory;
      assert q.batch[..q.done] == q.batch;
      RequestsStayOk(w, w');
    }
  }

  lemma StepSafe(w: World, maxBatch: int, a: Action)
    requires Safe(w)
    ensures Safe(Step(w, maxBatch, a))
  {
    match a
    case Capture(e, ok) => CaptureSafe(w, maxBatch, e, ok);
    case FlushTick => TickSafe(w, maxBatch);
    case Ingest(r) => IngestSafe(w, maxBatch, r);
    case Respond(ok) => RespondSafe(w, maxBatch, ok);
    case FailFlush => RequestsStayOk(w, Step(w, maxBatch, a));
    case Crash => RequestsStayOk(w, Step(w, maxBatch, a));
  }

  lemma {:induction false} RunSafe(w: World, maxBatch: int, actions: seq<Action>)
    requires Safe(w)
    ensures Safe(Run(w, maxBatch, actions))
    decreases |actions|
  {
    if actions != [] {
      StepSafe(w, maxBatch, actions[0]);
      RunSafe(Step(w, maxBatch, actions[0]), maxBatch, actions[1..]);
    }
  }

  /**
   While a request is in flight its batch stays a prefix of the queue, so the count-based
   acknowledgement removes exactly the events that were sent, and all of them have arrived.
   */
  lemma AckRemovesExactlySent(maxBatch: int, actions: seq<Action>, writeSucceeds: bool)
    ensures var w := Run(EMPTY, maxBatch, actions);
            var w' := Step(w, maxBatch, Respond(writeSucceeds));
            w.edge.inFlight.Some? ==>
              && w.edge.inFlight.value <= w.edge.memory
              && (w' != w ==> w.edge.memory == w.edge.inFlight.value + w'.edge.memory
                              && Within(w.edge.inFlight.value, w.log))
  {
    RunSafe(EMPTY, maxBatch, actions);
    var w := Run(EMPTY, maxBatch, actions);
    if w.edge.inFlight.Some? {
      var q := w.requests[w.live.value];
      assert RequestOk(w, q);
      if q.done == |q.batch| { assert q.batch[..q.done] == q.batch; }
    }
  }

  lemma StepLosesNothing(w: World, maxBatch: int, a: Action, e: Event)
    requires Safe(w) && (e in w.edge.disk || e in w.log)
    ensures var w' := Step(w, maxBatch, a); e in w'.edge.disk || e in w'.log
  {
    var w' := Step(w, maxBatch, a);
    StepSafe(w, maxBatch, a);
    if a.Ingest? && w' != w {
      var q := w.requests[a.r];
      assert RequestOk(w, q);
      IngestedKeeps(w.log, q.batch[q.done], w.captured);
    } else if a.Respond? && w' != w && e !in w.log {
      var q := w.requests[w.live.value];
      assert RequestOk(w, q) && q.batch[..q.done] == q.batch;
      assert w.edge.memory == q.batch + w'.edge.memory;
    }
  }

  /** An event that reached the disk or the backend is, for ever after, on one of the two. */
  lemma {:induction false} NothingDurableIsLost(w: World, maxBatch: int, actions: seq<Action>, e: Event)
    requires Safe(w) && (e in w.edge.disk || e in w.log)
    ensures var w' := Run(w, maxBatch, actions); e in w'.edge.disk || e in w'.log
    decreases |actions|
  {
    if actions != [] {
      StepSafe(w, maxBatch, actions[0]);
      StepLosesNothing(w, maxBatch, actions[0], e);
      NothingDurableIsLost(Step(w, maxBatch, actions[0]), maxBatch, actions[1..], e);
    }
  }

  /** Whatever fails, the backend holds captured events only, each key once. */
  lemma BackendHoldsEachEventOnce(maxBatch: int, actions: seq<Action>)
    ensures var w := Run(EMPTY, maxBatch, actions); Within(w.log, w.captured) && UniqueKeys(w.log)
  {
    RunSafe(EMPTY, maxBatch, actions);
  }

  /** The world after the first n actions. */
  function After(maxBatch: int, actions: seq<Action>, n: nat): World
    requires n <= |actions|
  {
    Run(EMPTY, maxBatch, actions[..n])
  }

  lemma {:induction false} RunSnoc(w: World, maxBatch: int, actions: seq<Action>, n: nat)
    requires n < |actions|
    ensures Run(w, maxBatch, actions[..n + 1]) == Step(Run(w, maxBatch, actions[..n]), maxBatch, actions[n])
    decreases n
  {
    assert actions[..n + 1][0] == actions[0] && actions[..n + 1][1..] == actions[1..][..n];
    if n > 0 {
      assert actions[..n][1..] == actions[1..][..n - 1];
      RunSnoc(Step(w, maxBatch, actions[0]), maxBatch, actions[1..], n - 1);
    }
  }

  /** Every capture is waiting in the queue or has arrived. */
  ghost predicate AllHeld(w: World) {
    forall e | e in w.captured :: e in w.edge.memory || e in w.log
  }

  /** A crash while some event is in memory only: its append failed, and it has not arrived yet. */
  predicate Drops(w: World, a: Action) {
    a.Crash? && exists e | e in w.edge.memory :: e !in w.edge.disk && e !in w.log
  }

  lemma StepHeldIff(w: World, maxBatch: int, a: Action)
    requires Safe(w) && AllHeld(w)
    ensures AllHeld(Step(w, maxBatch, a)) <==> !Drops(w, a)
  {
    var w' := Step(w, maxBatch, a);
    if a.Ingest? && w' != w {
      var q := w.requests[a.r];
      assert RequestOk(w, q);
      IngestedKeeps(w.log, q.batch[q.done], w.captured);
    } else if a.Respond? && w' != w {
      var q := w.requests[w.live.value];
      assert RequestOk(w, q) && q.batch[..q.done] == q.batch;
      assert w.edge.memory == q.batch + w'.edge.memory;
    }
  }

  /** Until an action drops one, every capture is held. */
  lemma {:induction false} HeldSoFar(maxBatch: int, actions: seq<Action>, n: nat)
    requires n <= |actions|
    requires forall m | 0 <= m < n :: !Drops(After(maxBatch, actions, m), actions[m])
    ensures Safe(After(maxBatch, actions, n)) && AllHeld(After(maxBatch, actions, n))
    decreases n
  {
    RunSafe(EMPTY, maxBatch, actions[..n]);
    if n > 0 {
      HeldSoFar(maxBatch, actions, n - 1);
      RunSnoc(EMPTY, maxBatch, actions, n - 1);
      StepHeldIff(After(maxBatch, actions, n - 1), maxBatch, actions[n - 1]);
    }
  }

  /**
   Appends failing or not: at every moment of a run every capture is waiting or has arrived, if and
   only if no crash meets an event that is in memory only.
   */
  lemma EveryCaptureHeldIff(maxBatch: int, actions: seq<Action>)
    ensures (forall n | 0 <= n <= |actions| :: AllHeld(After(maxBatch, actions, n)))
       <==> forall n | 0 <= n < |actions| :: !Drops(After(maxBatch, actions, n), actions[n])
  {
    if forall n | 0 <= n <= |actions| :: AllHeld(After(maxBatch, actions, n)) {
      forall n | 0 <= n < |actions| ensures !Drops(After(maxBatch, actions, n), actions[n]) {
        assert AllHeld(After(maxBatch, actions, n)) && AllHeld(After(maxBatch, actions, n + 1));
        RunSafe(EMPTY, maxBatch, actions[..n]);
        RunSnoc(EMPTY, maxBatch, actions, n);
        StepHeldIff(After(maxBatch, actions, n), maxBatch, actions[n]);
      }
    }
    if forall n | 0 <= n < |actions| :: !Drops(After(maxBatch, actions, n), actions[n]) {
      forall n | 0 <= n <= |actions| ensures AllHeld(After(maxBatch, actions, n)) { HeldSoFar(maxBatch, actions, n); }
    }
  }

  /** So, unless a crash drops one, an empty queue means that the backend holds exactly the captures, each once. */
  lemma EmptyQueueMeansAllArrived(maxBatch: int, actions: seq<Action>)
    requires forall n | 0 <= n < |actions| :: !Drops(After(maxBatch, actions, n), actions[n])
    requires Run(EMPTY, maxBatch, actions).edge.memory == []
    ensures var w := Run(EMPTY, maxBatch, actions);
            (forall e :: e in w.log <==> e in w.captured) && UniqueKeys(w.log)
  {
    assert actions[..|actions|] == actions;
    HeldSoFar(maxBatch, actions, |actions|);
  }

  // ---------------------------------------------------------------- three cursors

  /** A new event is captured and its append fails. */
  predicate LosesAppend(w: World, a: Action) {
    a.Capture? && !a.appendSucceeds && DedupeKey(a.e).Some? && !HasKey(w.captured, DedupeKey(a.e).value)
  }

  /** One append-only history and three cursors into it: disk, memory, backend. */
  ghost predicate Cursors(w: World, j: nat, k: nat, b: nat) {
    && j <= k <= b <= |w.captured|
    && w.edge.disk == w.captured[j..]
    && w.edge.memory == w.captured[k..]
    && w.log == w.captured[..b]
  }

  ghost predicate ThreeCursors(w: World) {
    exists j: nat, k: nat, b: nat :: Cursors(w, j, k, b)
  }

  /** A request carries consecutive captures, and none beyond the backend's cursor has been skipped. */
  ghost predicate Consecutive(w: World, q: Request) {
    && 0 <= q.start <= |w.captured| - |q.batch|
    && q.batch == w.captured[q.start..q.start + |q.batch|]
    && q.done <= |q.batch|
    && q.start + q.done <= |w.log|
    && q.start <= |w.log|
  }

  ghost predicate Ordered(w: World) {
    && ThreeCursors(w)
    && (forall r | 0 <= r < |w.requests| :: Consecutive(w, w.requests[r]))
    && (w.live.Some? ==> w.live.value < |w.requests|
                         && w.requests[w.live.value].start == |w.captured| - |w.edge.memory|)
  }

  /** Captures and arrivals only extend the two sequences a request refers to. */
  lemma ConsecutiveGrows(w: World, w': World, q: Request)
    requires Consecutive(w, q) && w.captured <= w'.captured && |w.log| <= |w'.log|
    ensures Consecutive(w', q)
  {
    assert w'.captured[..|w.captured|] == w.captured;
    assert w'.captured[q.start..q.start + |q.batch|] == w.captured[q.start..q.start + |q.batch|];
  }

  lemma CaptureKeepsCursors(w: World, e: Event, j: nat, k: nat, b: nat)
    requires Cursors(w, j, k, b)
    ensures Cursors(w.(edge := Captured(w.edge, e, true), captured := w.captured + [e]), j, k, b)
  {
    assert (w.captured + [e])[j..] == w.captured[j..] + [e];
    assert (w.captured + [e])[k..] == w.captured[k..] + [e];
    assert (w.captured + [e])[..b] == w.captured[..b];
  }

  lemma AckMovesCursors(w: World, ok: bool, j: nat, k: nat, b: nat, n: nat)
    requires Cursors(w, j, k, b) && k + n <= b
    requires w.edge.inFlight.Some? && |w.edge.inFlight.value| == n
    ensures Cursors(w.(edge := FlushSucceeded(w.edge, ok), live := None), if ok then k + n else j, k + n, b)
  {
    assert Spliced(w.captured[k..], n) == w.captured[k + n..];
  }

  lemma QuietStepKeepsCursors(w: World, maxBatch: int, a: Action, j: nat, k: nat, b: nat)
    requires Cursors(w, j, k, b) && (a.FlushTick? || a.FailFlush? || a.Crash?)
    ensures Cursors(Step(w, maxBatch, a), j, if a.Crash? then j else k, b)
  {
  }

  lemma StepKeepsCursors(w: World, maxBatch: int, a: Action, j: nat, k: nat, b: nat)
    requires Safe(w) && Ordered(w) && Cursors(w, j, k, b) && !LosesAppend(w, a)
    ensures ThreeCursors(Step(w, maxBatch, a))
  {
    if Step(w, maxBatch, a) == w { return; }
    match a
    case Capture(e, _) => CaptureKeepsCursors(w, e, j, k, b);
    case Ingest(r) => IngestAdvances(w, r, j, k, b);
    case Respond(ok) =>
      var q := w.requests[w.live.value];
      assert Consecutive(w, q);
      AckMovesCursors(w, ok, j, k, b, |q.batch|);
    case _ => QuietStepKeepsCursors(w, maxBatch, a, j, k, b);
  }

  /** An arriving event is either already in the log or exactly the next capture. */
  lemma IngestAdvances(w: World, r: nat, j: nat, k: nat, b: nat)
    requires Safe(w) && Ordered(w) && Cursors(w, j, k, b)
    requires r < |w.requests| && w.requests[r].done < |w.requests[r].batch|
    ensures var q := w.requests[r];
            var log' := Ingested(w.log, q.batch[q.done]);
            var b' := if q.start + q.done < b then b else b + 1;
            b' <= |w.captured| && log' == w.captured[..b'] && q.start + q.done < b'
    ensures ThreeCursors(Step(w, 0, Ingest(r)))
  {
    var q := w.requests[r];
    assert Consecutive(w, q);
    var at := q.start + q.done;
    assert q.batch[q.done] == w.captured[at];
    ArrivalExtendsLog(w, b, at);
    assert Cursors(Step(w, 0, Ingest(r)), j, k, if at < b then b else b + 1);
  }

  lemma ArrivalExtendsLog(w: World, b: nat, at: nat)
    requires Safe(w) && at <= b <= |w.captured| && at < |w.captured| && w.log == w.captured[..b]
    ensures Ingested(w.log, w.captured[at]) == w.captured[..if at < b then b else b + 1]
  {
    var e := w.captured[at];
    if at < b {
      assert DedupeKey(w.log[at]) == DedupeKey(e);
    } else {
      forall i | 0 <= i < |w.log| ensures DedupeKey(w.log[i]) != DedupeKey(e) {
        assert w.log[i] == w.captured[i];
      }
      assert w.captured[..b] + [e] == w.captured[..b + 1];
    }
  }

  lemma StepGrows(w: World, maxBatch: int, a: Action)
    ensures w.captured <= Step(w, maxBatch, a).captured && w.log <= Step(w, maxBatch, a).log
  {
  }

  /** What a step does to the requests: at most one advances by one event, or one is added. */
  ghost predicate RequestsEvolve(w: World, w': World) {
    && w.captured <= w'.captured && |w.log| <= |w'.log|
    && |w.requests| <= |w'.requests|
    && (forall r | 0 <= r < |w.requests| ::
          || w'.requests[r] == w.requests[r]
          || (&& w'.requests[r] == w.requests[r].(done := w.requests[r].done + 1)
              && w'.requests[r].done <= |w'.requests[r].batch|
              && w'.requests[r].start + w'.requests[r].done <= |w'.log|))
    && (forall r | |w.requests| <= r < |w'.requests| :: Consecutive(w', w'.requests[r]))
  }

  lemma IngestEvolves(w: World, r: nat, j: nat, k: nat, b: nat)
    requires Safe(w) && Ordered(w) && Cursors(w, j, k, b)
    requires r < |w.requests| && w.requests[r].done < |w.requests[r].batch|
    ensures RequestsEvolve(w, Step(w, 0, Ingest(r)))
  {
    IngestAdvances(w, r, j, k, b);
    assert Consecutive(w, w.requests[r]);
    StepGrows(w, 0, Ingest(r));
  }

  lemma TickEvolves(w: World, maxBatch: int, j: nat, k: nat, b: nat)
    requires Ordered(w) && Cursors(w, j, k, b)
    ensures RequestsEvolve(w, Step(w, maxBatch, FlushTick))
  {
    NewRequestConsecutive(w, maxBatch, k);
  }

  lemma StepEvolves(w: World, maxBatch: int, a: Action, j: nat, k: nat, b: nat)
    requires Safe(w) && Ordered(w) && Cursors(w, j, k, b)
    ensures RequestsEvolve(w, Step(w, maxBatch, a))
  {
    match a
    case FlushTick => TickEvolves(w, maxBatch, j, k, b);
    case Ingest(r) => if Step(w, maxBatch, a) != w { IngestEvolves(w, r, j, k, b); }
    case _ =>
  }

  lemma EvolvedStayConsecutive(w: World, w': World)
    requires RequestsEvolve(w, w')
    requires forall r | 0 <= r < |w.requests| :: Consecutive(w, w.requests[r])
    ensures forall r | 0 <= r < |w'.requests| :: Consecutive(w', w'.requests[r])
  {
    forall r | 0 <= r < |w'.requests| ensures Consecutive(w', w'.requests[r]) {
      if r < |w.requests| {
        assert Consecutive(w, w.requests[r]);
        ConsecutiveGrows(w, w', w.requests[r]);
      }
    }
  }

  lemma StepOrdered(w: World, maxBatch: int, a: Action)
    requires Safe(w) && Ordered(w) && !LosesAppend(w, a)
    ensures Ordered(Step(w, maxBatch, a))
  {
    var j: nat, k: nat, b: nat :| Cursors(w, j, k, b);
    StepKeepsCursors(w, maxBatch, a, j, k, b);
    StepEvolves(w, maxBatch, a, j, k, b);
    EvolvedStayConsecutive(w, Step(w, maxBatch, a));
  }

  lemma NewRequestConsecutive(w: World, maxBatch: int, k: nat)
    requires k <= |w.log| <= |w.captured| && w.edge.memory == w.captured[k..]
    ensures var batch := Slice(w.edge.memory, maxBatch);
            k + |batch| <= |w.captured| && batch == w.captured[k..k + |batch|]
  {
  }

  /** A failed append breaks the picture: the queue ends in the new event, the file does not. */
  lemma LostAppendBreaksCursors(w: World, maxBatch: int, e: Event)
    requires ThreeCursors(w) && LosesAppend(w, Capture(e, false))
    ensures !ThreeCursors(Step(w, maxBatch, Capture(e, false)))
  {
    var w' := Step(w, maxBatch, Capture(e, false));
    var j: nat, k: nat, b: nat :| Cursors(w, j, k, b);
    assert Within(w.edge.disk, w.captured) && e !in w.captured;
    forall j': nat, k': nat, b': nat ensures !Cursors(w', j', k', b') {
      if Cursors(w', j', k', b') {
        LastOfSuffix(w.captured, e, j');
        assert false;
      }
    }
  }

  /** A capture keeps the picture exactly when its append succeeds. */
  lemma CaptureKeepsCursorsIffAppended(w: World, maxBatch: int, e: Event, appendSucceeds: bool)
    requires ThreeCursors(w)
    requires DedupeKey(e).Some? && !HasKey(w.captured, DedupeKey(e).value)
    ensures ThreeCursors(Step(w, maxBatch, Capture(e, appendSucceeds))) <==> appendSucceeds
  {
    if appendSucceeds {
      var j: nat, k: nat, b: nat :| Cursors(w, j, k, b);
      CaptureKeepsCursors(w, e, j, k, b);
    } else {
      LostAppendBreaksCursors(w, maxBatch, e);
    }
  }

  /** As long as no append is lost, the cursors hold and requests stay in order. */
  lemma {:induction false} OrderedSoFar(maxBatch: int, actions: seq<Action>, n: nat)
    requires n <= |actions|
    requires forall m | 0 <= m < n :: !LosesAppend(After(maxBatch, actions, m), actions[m])
    ensures Safe(After(maxBatch, actions, n)) && Ordered(After(maxBatch, actions, n))
    decreases n
  {
    RunSafe(EMPTY, maxBatch, actions[..n]);
    if n == 0 {
      assert Cursors(EMPTY, 0, 0, 0);
    } else {
      OrderedSoFar(maxBatch, actions, n - 1);
      RunSnoc(EMPTY, maxBatch, actions, n - 1);
      StepOrdered(After(maxBatch, actions, n - 1), maxBatch, actions[n - 1]);
    }
  }

  /**
   At every moment of a run, whatever is lost, late, repeated or half written on the way, the file,
   the queue and the backend are a suffix, a shorter suffix and a prefix of the captures, and the
   last two meet or overlap: if and only if no append of the run fails.
   */
  lemma ThreeCursorTheorem(maxBatch: int, actions: seq<Action>)
    ensures (forall n | 0 <= n <= |actions| :: ThreeCursors(After(maxBatch, actions, n)))
       <==> forall n | 0 <= n < |actions| :: !LosesAppend(After(maxBatch, actions, n), actions[n])
  {
    if forall n | 0 <= n <= |actions| :: ThreeCursors(After(maxBatch, actions, n)) {
      forall n | 0 <= n < |actions| ensures !LosesAppend(After(maxBatch, actions, n), actions[n]) {
        assert ThreeCursors(After(maxBatch, actions, n)) && ThreeCursors(After(maxBatch, actions, n + 1));
        RunSnoc(EMPTY, maxBatch, actions, n);
        if LosesAppend(After(maxBatch, actions, n), actions[n]) {
          LostAppendBreaksCursors(After(maxBatch, actions, n), maxBatch, actions[n].e);
        }
      }
    }
    if forall n | 0 <= n < |actions| :: !LosesAppend(After(maxBatch, actions, n), actions[n]) {
      forall n | 0 <= n <= |actions| ensures ThreeCursors(After(maxBatch, actions, n)) { OrderedSoFar(maxBatch, actions, n); }
    }
  }

  /** Without a lost append, an empty queue means that the backend holds every capture, once, in capture order. */
  lemma EmptyQueueMeansAllDelivered(maxBatch: int, actions: seq<Action>)
    requires forall n | 0 <= n < |actions| :: !LosesAppend(After(maxBatch, actions, n), actions[n])
    ensures var w := Run(EMPTY, maxBatch, actions); w.edge.memory == [] ==> w.log == w.captured
  {
    assert actions[..|actions|] == actions;
    OrderedSoFar(maxBatch, actions, |actions|);
    var w := Run(EMPTY, maxBatch, actions);
    var j: nat, k: nat, b: nat :| Cursors(w, j, k, b);
  }

  lemma LastOfSuffix(c: seq<Event>, e: Event, j: nat)
    requires j <= |c|
    ensures e in (c + [e])[j..]
  {
    assert (c + [e])[j..][|c| - j] == e;
  }

  // ---------------------------------------------------------------- a working disk

  /** No append and no rewrite fails in the run. */
  predicate WritesSucceed(actions: seq<Action>) {
    forall a | a in actions :: (a.Capture? ==> a.appendSucceeds) && (a.Respond? ==> a.writeSucceeds)
  }

  /** With a working disk the file is the queue at every moment, so a crash at any moment loses nothing. */
  lemma {:induction false} DiskMirrorsMemory(w: World, maxBatch: int, actions: seq<Action>)
    requires w.edge.disk == w.edge.memory && WritesSucceed(actions)
    ensures Run(w, maxBatch, actions).edge.disk == Run(w, maxBatch, actions).edge.memory
    ensures Step(Run(w, maxBatch, actions), maxBatch, Crash).edge.memory == Run(w, maxBatch, actions).edge.memory
    decreases |actions|
  {
    if actions != [] {
      assert actions[0] in actions;
      DiskMirrorsMemory(Step(w, maxBatch, actions[0]), maxBatch, actions[1..]);
    }
  }

  // ---------------------------------------------------------------- delivery is always possible

  lemma {:induction false} RunConcat(w: World, maxBatch: int, a: seq<Action>, b: seq<Action>)
    ensures Run(w, maxBatch, a + b) == Run(Run(w, maxBatch, a), maxBatch, b)
    decreases |a|
  {
    if a == [] {
      assert a + b == b;
    } else {
      assert (a + b)[1..] == a[1..] + b;
      RunConcat(Step(w, maxBatch, a[0]), maxBatch, a[1..], b);
    }
  }

  lemma RunOne(w: World, maxBatch: int, a: Action)
    ensures Run(w, maxBatch, [a]) == Step(w, maxBatch, a)
  {
    assert [a][1..] == [];
  }

  /** What remains of a request can arrive, event by event, while the agent waits. */
  lemma {:induction false} RestCanArrive(w: World, maxBatch: int, r: nat) returns (actions: seq<Action>)
    requires Safe(w) && r < |w.requests|
    ensures var w' := Run(w, maxBatch, actions);
            && Safe(w') && w'.edge == w.edge && w'.live == w.live && w'.captured == w.captured
            && w.log <= w'.log && |w'.requests| == |w.requests|
            && w'.requests[r] == w.requests[r].(done := |w.requests[r].batch|)
    decreases |w.requests[r].batch| - w.requests[r].done
  {
    assert RequestOk(w, w.requests[r]);
    if w.requests[r].done == |w.requests[r].batch| {
      actions := [];
    } else {
      var w1 := Step(w, maxBatch, Ingest(r));
      StepSafe(w, maxBatch, Ingest(r));
      var rest := RestCanArrive(w1, maxBatch, r);
      actions := [Ingest(r)] + rest;
      RunOne(w, maxBatch, Ingest(r));
      RunConcat(w, maxBatch, [Ingest(r)], rest);
    }
  }

  /** One flush, all of its batch arriving and a success response: the batch has left the queue for the log. */
  lemma OneBatchCanGo(w: World, maxBatch: int) returns (actions: seq<Action>)
    requires Safe(w) && w.edge.inFlight.None? && w.edge.memory != [] && maxBatch >= 1
    ensures var w' := Run(w, maxBatch, actions);
            && Safe(w') && w'.edge.inFlight.None? && w'.captured == w.captured && w.log <= w'.log
            && |w'.edge.memory| < |w.edge.memory|
            && forall e | e in w.edge.memory :: e in w'.edge.memory || e in w'.log
  {
    var w1 := Step(w, maxBatch, FlushTick);
    StepSafe(w, maxBatch, FlushTick);
    var arrivals := RestCanArrive(w1, maxBatch, |w.requests|);
    var w2 := Run(w1, maxBatch, arrivals);
    var w3 := Step(w2, maxBatch, Respond(true));
    StepSafe(w2, maxBatch, Respond(true));
    actions := [FlushTick] + arrivals + [Respond(true)];
    RunOne(w, maxBatch, FlushTick);
    RunConcat(w, maxBatch, [FlushTick], arrivals);
    RunConcat(w, maxBatch, [FlushTick] + arrivals, [Respond(true)]);
    RunOne(w2, maxBatch, Respond(true));
    var q := w2.requests[|w.requests|];
    assert RequestOk(w2, q) && q.batch[..q.done] == q.batch;
    assert w.edge.memory == q.batch + w3.edge.memory;
  }

  lemma {:induction false} QueueCanDrain(w: World, maxBatch: int) returns (actions: seq<Action>)
    requires Safe(w) && w.edge.inFlight.None? && maxBatch >= 1
    ensures var w' := Run(w, maxBatch, actions);
            w'.edge.memory == [] && w.log <= w'.log && forall e | e in w.edge.memory :: e in w'.log
    decreases |w.edge.memory|
  {
    actions := [];
    if w.edge.memory != [] {
      var first := OneBatchCanGo(w, maxBatch);
      var rest := QueueCanDrain(Run(w, maxBatch, first), maxBatch);
      actions := first + rest;
      RunConcat(w, maxBatch, first, rest);
    }
  }

  /** Wherever a run has got to, the waiting events can still all be delivered and acknowledged. */
  lemma DeliveryIsAlwaysPossible(maxBatch: int, before: seq<Action>) returns (actions: seq<Action>)
    requires maxBatch >= 1
    ensures var w, w' := Run(EMPTY, maxBatch, before), Run(EMPTY, maxBatch, before + actions);
            w'.edge.memory == [] && forall e | e in w.edge.memory :: e in w'.log
  {
    var w := Run(EMPTY, maxBatch, before);
    RunSafe(EMPTY, maxBatch, before);
    StepSafe(w, maxBatch, FailFlush);
    var rest := QueueCanDrain(Step(w, maxBatch, FailFlush), maxBatch);
    actions := [FailFlush] + rest;
    RunOne(w, maxBatch, FailFlush);
    RunConcat(w, maxBatch, [FailFlush], rest);
    RunConcat(EMPTY, maxBatch, before, actions);
  }

  // ---------------------------------------------------------------- draining

  /** One flush with no capture meanwhile, a success response and a working disk. */
  function FlushOnce(s: Edge, maxBatch: int): Edge {
    var (t, sent) := FlushStarted(s, maxBatch);
    if sent.Some? then FlushSucceeded(t, true) else t
  }

  function Flushes(s: Edge, maxBatch: int, n: nat): Edge
    decreases n
  {
    if n == 0 then s else Flushes(FlushOnce(s, maxBatch), maxBatch, n - 1)
  }

  lemma FlushOnceLeaves(s: Edge, maxBatch: int)
    requires s.inFlight.None? && maxBatch >= 1
    ensures FlushOnce(s, maxBatch).memory == Spliced(s.memory, maxBatch) && FlushOnce(s, maxBatch).inFlight.None?
  {
  }

  lemma SplicedTwice(items: seq<Event>, m: nat, n: nat)
    ensures Spliced(Spliced(items, m), n) == Spliced(items, m + n)
  {
  }

  lemma {:induction false} FlushesLeave(s: Edge, maxBatch: int, n: nat)
    requires s.inFlight.None? && maxBatch >= 1
    ensures n * maxBatch >= 0 && Flushes(s, maxBatch, n).memory == Spliced(s.memory, n * maxBatch)
    decreases n
  {
    if n > 0 {
      FlushOnceLeaves(s, maxBatch);
      FlushesLeave(FlushOnce(s, maxBatch), maxBatch, n - 1);
      assert n * maxBatch == maxBatch + (n - 1) * maxBatch;
      SplicedTwice(s.memory, maxBatch, (n - 1) * maxBatch);
    }
  }

  /** With maxBatch >= 1, n events need exactly the rounded-up quotient n / maxBatch of flushes. */
  lemma DrainsInCeilingFlushes(s: Edge, maxBatch: int, n: nat)
    requires s.inFlight.None? && maxBatch >= 1
    ensures Flushes(s, maxBatch, n).memory == [] <==> n >= (|s.memory| + maxBatch - 1) / maxBatch
  {
    FlushesLeave(s, maxBatch, n);
    CeilingDivision(|s.memory|, maxBatch, n);
  }

  lemma CeilingDivision(size: nat, d: nat, n: nat)
    requires d >= 1
    ensures n * d >= size <==> n >= (size + d - 1) / d
  {
    var need := (size + d - 1) / d;
    Euclid(size + d - 1, d);
    if n >= need {
      Monotone(need, n, d);
    } else {
      Monotone(n + 1, need, d);
      assert (n + 1) * d == n * d + d;
    }
  }

  lemma Euclid(x: nat, d: nat)
    requires d >= 1
    ensures x - d < x / d * d <= x
  {
    assert x == x / d * d + x % d;
  }

  lemma Monotone(a: int, b: int, d: nat)
    requires a <= b
    ensures a * d <= b * d
  {
  }

  lemma {:induction false} StuckWithoutBatchSize(s: Edge, maxBatch: int, n: nat)
    requires s.inFlight.None? && maxBatch <= 0 && s.memory != []
    ensures Flushes(s, maxBatch, n).memory != []
    decreases n
  {
    if n > 0 {
      StuckWithoutBatchSize(FlushOnce(s, maxBatch), maxBatch, n - 1);
    }
  }

  /** The configured batch size decides whether a waiting queue can ever be emptied. */
  lemma DrainsIffBatchSizePositive(s: Edge, maxBatch: int)
    requires s.inFlight.None? && s.memory != []
    ensures (exists n: nat :: Flushes(s, maxBatch, n).memory == []) <==> maxBatch >= 1
  {
    if maxBatch >= 1 {
      var need := (|s.memory| + maxBatch - 1) / maxBatch;
      assert need >= 0;
      DrainsInCeilingFlushes(s, maxBatch, need);
    } else {
      forall n: nat ensures Flushes(s, maxBatch, n).memory != [] {
        StuckWithoutBatchSize(s, maxBatch, n);
      }
    }
  }
}
