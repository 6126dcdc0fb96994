/** backend/libs/attendance, `scheduleForDuty`: spreading alertness checks over a duty window. */
module DutySchedule {
  import opened Wrappers

  const MINUTE := 60_000

  /** At most twelve checks whatever is configured. */
  const HARD_CAP := 12

  /** Milliseconds; `jitter` bounds the draws, `maxChecks` has already been cut to the hard cap. */
  datatype Pace = Pace(interval: int, jitter: int, randomize: bool, maxChecks: int)

  predicate ValidPace(p: Pace) {
    p.interval > 0 && p.jitter >= 0 && p.maxChecks <= HARD_CAP
  }

  /** Minutes, to the millisecond. */
  type Minutes = m: real | (m * 60000.0).Floor as real == m * 60000.0 witness 0.0

  function Milliseconds(m: Minutes): (ms: int)
    ensures ms as real == m * 60000.0
    ensures (m > 0.0 ==> ms > 0) && (m >= 0.0 ==> ms >= 0)
  {
    (m * 60000.0).Floor
  }

  function Ceiling(x: real): (c: int)
    ensures (c as real) - 1.0 < x <= c as real
  {
    -(-x).Floor
  }

  /** The environment variables, None when unset or not a number. */
  datatype Settings = Settings(interval: Option<Minutes>, jitter: Option<Minutes>, dutyHours: Option<Minutes>,
                               maxChecks: Option<real>, randomize: bool)

  const DEFAULTS := Settings(None, None, None, None, true)

  /**
   Unusable values fall back to 120 minutes, 30 minutes and 6 checks; the cap cannot be raised.
   A fractional number of checks stops the loop where its ceiling does.
   */
  function PaceOf(e: Settings): (p: Pace)
    ensures ValidPace(p) && p.randomize == e.randomize
    ensures e.interval.Some? && e.interval.value > 0.0 ==> p.interval as real == e.interval.value * 60000.0
    ensures e.jitter.Some? && e.jitter.value >= 0.0 ==> p.jitter as real == e.jitter.value * 60000.0
    ensures e.maxChecks.Some? && e.maxChecks.value >= 12.0 ==> p.maxChecks == 12
    ensures e.maxChecks.Some? && e.maxChecks.value != 0.0 && p.maxChecks != HARD_CAP ==>
              e.maxChecks.value <= p.maxChecks as real < e.maxChecks.value + 1.0
  {
    var interval := if e.interval.Some? && e.interval.value > 0.0 then Milliseconds(e.interval.value) else 120 * MINUTE;
    var jitter := if e.jitter.Some? && e.jitter.value >= 0.0 then Milliseconds(e.jitter.value) else 30 * MINUTE;
    var checks := if e.maxChecks.Some? && e.maxChecks.value != 0.0 then Ceiling(e.maxChecks.value) else 6;
    Pace(interval, jitter, e.randomize, Min(checks, HARD_CAP))
  }

  function DutyMs(e: Settings): (ms: int)
    ensures ms > 0
    ensures e.dutyHours.Some? && e.dutyHours.value > 0.0 ==> ms as real == e.dutyHours.value * 3600000.0
  {
    (if e.dutyHours.Some? && e.dutyHours.value > 0.0 then Milliseconds(e.dutyHours.value) else 8 * MINUTE) * 60
  }

  function Min(a: int, b: int): int {
    if a < b then a else b
  }

  /** The n-th draw is `floor(random * (2J + 1)) - J`. */
  ghost predicate Draws(p: Pace, draw: nat -> int) {
    forall n: nat :: -p.jitter <= draw(n) <= p.jitter
  }

  /** Where a slot ends up: moved by its draw, then pulled back inside the window. */
  function Place(start: int, end: int, slot: int, p: Pace, delta: int): int {
    if !p.randomize || p.jitter <= 0 then slot
    else
      var moved := slot + delta;
      var late := if moved <= start then start + MINUTE else moved;
      if late >= end then end - MINUTE else late
  }

  /** The times created from one slot on; n counts slots, `created` the checks so far. */
  function Plan(start: int, end: int, p: Pace, draw: nat -> int, slot: int, n: nat, created: nat): seq<int>
    requires p.interval > 0
    decreases end - slot
  {
    if slot >= end || created >= p.maxChecks then []
    else
      var at := Place(start, end, slot, p, draw(n));
      if start < at < end then [at] + Plan(start, end, p, draw, slot + p.interval, n + 1, created + 1)
      else Plan(start, end, p, draw, slot + p.interval, n + 1, created)
  }

  function DutyTimes(start: int, end: int, p: Pace, draw: nat -> int): seq<int>
    requires p.interval > 0
  {
    Plan(start, end, p, draw, start + p.interval, 0, 0)
  }

  lemma PlanUnfolds(start: int, end: int, p: Pace, draw: nat -> int, slot: int, n: nat, times: seq<int>)
    requires p.interval > 0 && slot < end && |times| < p.maxChecks
    ensures var at := Place(start, end, slot, p, draw(n));
            var next := if start < at < end then times + [at] else times;
            times + Plan(start, end, p, draw, slot, n, |times|)
            == next + Plan(start, end, p, draw, slot + p.interval, n + 1, |next|)
  {
    var at := Place(start, end, slot, p, draw(n));
    var rest := Plan(start, end, p, draw, slot + p.interval, n + 1, |times| + 1);
    assert times + ([at] + rest) == (times + [at]) + rest;
  }

  /** The slot loop. */
  method SlotLoop(start: int, end: int, p: Pace, draw: nat -> int) returns (times: seq<int>)
    requires p.interval > 0
    ensures times == DutyTimes(start, end, p, draw)
  {
    times := [];
    var slot := start + p.interval;
    var created := 0;
    var n := 0;
    while slot < end && created < p.maxChecks
      invariant created == |times|
      invariant DutyTimes(start, end, p, draw) == times + Plan(start, end, p, draw, slot, n, created)
      decreases end - slot
    {
      PlanUnfolds(start, end, p, draw, slot, n, times);
      var scheduledAt := slot;
      if p.randomize && p.jitter > 0 {
        scheduledAt := slot + draw(n);
        if scheduledAt <= start {
          scheduledAt := start + MINUTE;
        }
        if scheduledAt >= end {
          scheduledAt := end - MINUTE;
        }
      }
      assert scheduledAt == Place(start, end, slot, p, draw(n));
      if scheduledAt > start && scheduledAt < end {
        times := times + [scheduledAt];
        created := created + 1;
      }
      slot := slot + p.interval;
      n := n + 1;
    }
  }

  // ---------------------------------------------------------------- whatever is configured

  /** The loop stays strictly inside the window and never creates more than the cap. */
  lemma {:induction false} PlanStaysInside(start: int, end: int, p: Pace, draw: nat -> int, slot: int, n: nat, created: nat)
    requires ValidPace(p)
    ensures var t := Plan(start, end, p, draw, slot, n, created);
            && (forall x | x in t :: start < x < end)
            && (created <= p.maxChecks ==> created + |t| <= p.maxChecks)
            && (created >= p.maxChecks ==> t == [])
    decreases end - slot
  {
    if slot < end && created < p.maxChecks {
      PlanStaysInside(start, end, p, draw, slot + p.interval, n + 1, created + 1);
      PlanStaysInside(start, end, p, draw, slot + p.interval, n + 1, created);
    }
  }

  lemma DutyStaysInside(start: int, end: int, p: Pace, draw: nat -> int)
    requires ValidPace(p)
    ensures var t := DutyTimes(start, end, p, draw); |t| <= HARD_CAP && forall x | x in t :: start < x < end
  {
    PlanStaysInside(start, end, p, draw, start + p.interval, 0, 0);
  }

  /** The two clamps save a slot exactly when the window is longer than a minute; otherwise its raw time decides. */
  lemma SlotCreatesIff(start: int, end: int, slot: int, p: Pace, delta: int)
    requires start < slot < end
    ensures var at := Place(start, end, slot, p, delta);
            start < at < end <==>
              end - start > MINUTE || !p.randomize || p.jitter <= 0 || start < slot + delta < end
  {
  }

  // ---------------------------------------------------------------- how many

  /** Slots from one on that begin before the window ends. */
  function SlotsFrom(slot: int, end: int, interval: int): nat
    requires interval > 0
    decreases end - slot
  {
    if slot >= end then 0 else 1 + SlotsFrom(slot + interval, end, interval)
  }

  lemma {:induction false} SlotsClosedForm(slot: int, end: int, interval: int)
    requires interval > 0 && slot < end + interval
    ensures SlotsFrom(slot, end, interval) == (end - slot + interval - 1) / interval
    decreases end - slot
  {
    var x := end - slot + interval - 1;
    if slot >= end {
      assert 0 <= x < interval;
      SmallQuotient(x, interval);
    } else {
      SlotsClosedForm(slot + interval, end, interval);
      OneMore(x - interval, interval);
    }
  }

  lemma SmallQuotient(x: nat, d: nat)
    requires x < d
    ensures x / d == 0
  {
  }

  lemma OneMore(x: nat, d: nat)
    requires d > 0
    ensures (x + d) / d == x / d + 1
  {
    var q, r := x / d, x % d;
    assert x + d == (q + 1) * d + r;
    QuotientIs(x + d, d, q + 1, r);
  }

  lemma QuotientIs(x: nat, d: nat, q: nat, r: nat)
    requires d > 0 && r < d && x == q * d + r
    ensures x / d == q
  {
    var q', r' := x / d, x % d;
    assert x == q' * d + r';
    assert (q - q') * d == q * d - q' * d == r' - r;
    assert (q' - q) * d == q' * d - q * d == r - r';
    if q' < q { AtLeast(q - q', d); }
    if q' > q { AtLeast(q' - q, d); }
  }

  lemma AtLeast(a: int, d: nat)
    requires a >= 1
    ensures a * d >= d
  {
    assert a * d == (a - 1) * d + d;
  }

  /** Whatever is drawn, this slot's check stays inside the window. */
  predicate Safe(start: int, end: int, p: Pace, slot: int) {
    end - start > MINUTE || !p.randomize || p.jitter == 0 || start + p.jitter < slot < end - p.jitter
  }

  /** Safe slots from one on. */
  function SafeFrom(start: int, end: int, p: Pace, slot: int): (n: nat)
    requires p.interval > 0
    ensures n <= SlotsFrom(slot, end, p.interval)
    decreases end - slot
  {
    if slot >= end then 0
    else (if Safe(start, end, p, slot) then 1 else 0) + SafeFrom(start, end, p, slot + p.interval)
  }

  function Cap(p: Pace): nat {
    if p.maxChecks < 0 then 0 else p.maxChecks
  }

  lemma {:induction false} PlanCountBounds(start: int, end: int, p: Pace, draw: nat -> int, slot: int, n: nat, created: nat)
    requires ValidPace(p) && Draws(p, draw) && start < slot && created <= Cap(p)
    ensures Min(Cap(p) - created, SafeFrom(start, end, p, slot))
         <= |Plan(start, end, p, draw, slot, n, created)|
         <= Min(Cap(p) - created, SlotsFrom(slot, end, p.interval))
    decreases end - slot
  {
    if slot < end && created < p.maxChecks {
      SlotCreatesIff(start, end, slot, p, draw(n));
      PlanCountBounds(start, end, p, draw, slot + p.interval, n + 1, created + 1);
      PlanCountBounds(start, end, p, draw, slot + p.interval, n + 1, created);
    }
  }

  /** The draws that lose every slot that can be lost. */
  function Unlucky(start: int, end: int, p: Pace): nat -> int {
    (n: nat) => if start + (n + 1) * p.interval + p.jitter >= end then p.jitter else -p.jitter
  }

  lemma {:induction false} UnluckyLosesAll(start: int, end: int, p: Pace, slot: int, n: nat, created: nat)
    requires ValidPace(p) && slot == start + (n + 1) * p.interval && start < slot && created <= Cap(p)
    ensures |Plan(start, end, p, Unlucky(start, end, p), slot, n, created)|
         == Min(Cap(p) - created, SafeFrom(start, end, p, slot))
    decreases end - slot
  {
    if slot < end && created < p.maxChecks {
      SlotCreatesIff(start, end, slot, p, Unlucky(start, end, p)(n));
      assert slot + p.interval == start + (n + 2) * p.interval;
      UnluckyLosesAll(start, end, p, slot + p.interval, n + 1, created + 1);
      UnluckyLosesAll(start, end, p, slot + p.interval, n + 1, created);
    }
  }

  /** The cap, or the number of whole intervals strictly inside the window, whichever is less. */
  function FullCount(start: int, end: int, p: Pace): int
    requires p.interval > 0
  {
    Min(Cap(p), (end - start + p.interval - 1) / p.interval - 1)
  }

  lemma FullCountIsSlots(start: int, end: int, p: Pace)
    requires ValidPace(p) && start < end
    ensures FullCount(start, end, p) == Min(Cap(p), SlotsFrom(start + p.interval, end, p.interval))
  {
    SlotsClosedForm(start + p.interval, end, p.interval);
    OneMore(end - start - 1, p.interval);
    assert end - start + p.interval - 1 == (end - start - 1) + p.interval;
    assert end - (start + p.interval) + p.interval - 1 == end - start - 1;
  }

  /** Every sequence of draws gives the full number of checks exactly when the safe slots alone reach it. */
  lemma DutyCountIff(start: int, end: int, p: Pace)
    requires ValidPace(p) && start < end
    ensures (forall draw: nat -> int | Draws(p, draw) :: |DutyTimes(start, end, p, draw)| == FullCount(start, end, p))
       <==> FullCount(start, end, p) <= SafeFrom(start, end, p, start + p.interval)
  {
    FullCountIsSlots(start, end, p);
    forall draw: nat -> int | Draws(p, draw)
      ensures Min(Cap(p), SafeFrom(start, end, p, start + p.interval))
           <= |DutyTimes(start, end, p, draw)| <= FullCount(start, end, p)
    {
      PlanCountBounds(start, end, p, draw, start + p.interval, 0, 0);
    }
    var draw := Unlucky(start, end, p);
    assert Draws(p, draw);
    UnluckyLosesAll(start, end, p, start + p.interval, 0, 0);
    assert |DutyTimes(start, end, p, draw)| == Min(Cap(p), SafeFrom(start, end, p, start + p.interval));
  }

  lemma {:induction false} AllSafe(start: int, end: int, p: Pace, slot: int)
    requires ValidPace(p) && (end - start > MINUTE || !p.randomize || p.jitter == 0)
    ensures SafeFrom(start, end, p, slot) == SlotsFrom(slot, end, p.interval)
    decreases end - slot
  {
    if slot < end { AllSafe(start, end, p, slot + p.interval); }
  }

  /**
   With an interval of at least a minute or a window of more than one, or without jitter, the
   number of checks is the full one whatever is drawn.
   */
  lemma DutyCount(start: int, end: int, p: Pace, draw: nat -> int)
    requires ValidPace(p) && Draws(p, draw) && start < end
    requires end - start > MINUTE || p.interval >= MINUTE || !p.randomize || p.jitter == 0
    ensures |DutyTimes(start, end, p, draw)| == FullCount(start, end, p)
  {
    FullCountIsSlots(start, end, p);
    if end - start > MINUTE || !p.randomize || p.jitter == 0 { AllSafe(start, end, p, start + p.interval); }
    DutyCountIff(start, end, p);
  }

  // ---------------------------------------------------------------- when

  /** The k-th multiple of the interval after the clock-in, moved by its draw. */
  function RawTime(start: int, p: Pace, draw: nat -> int, k: nat): int {
    start + (k + 1) * p.interval + if p.randomize then draw(k) else 0
  }

  /** A minute inside the window for what would fall out of it. */
  function PulledInside(start: int, end: int, at: int): int {
    if at <= start then start + 60_000 else if at >= end then end - 60_000 else at
  }

  /** The times of the slots from the n-th on. */
  ghost predicate TimesFrom(t: seq<int>, start: int, end: int, p: Pace, draw: nat -> int, n: nat) {
    forall k: nat | k < |t| :: t[k] == PulledInside(start, end, RawTime(start, p, draw, n + k))
  }

  lemma TimesCons(at: int, rest: seq<int>, start: int, end: int, p: Pace, draw: nat -> int, n: nat)
    requires at == PulledInside(start, end, RawTime(start, p, draw, n)) && TimesFrom(rest, start, end, p, draw, n + 1)
    ensures TimesFrom([at] + rest, start, end, p, draw, n)
  {
    var t := [at] + rest;
    forall k: nat | k < |t| ensures t[k] == PulledInside(start, end, RawTime(start, p, draw, n + k)) {
      if k > 0 {
        var j: nat := k - 1;
        assert rest[j] == PulledInside(start, end, RawTime(start, p, draw, n + 1 + j));
        assert n + 1 + j == n + k;
      }
    }
  }

  lemma PlaceIs(start: int, end: int, slot: int, p: Pace, draw: nat -> int, n: nat)
    requires ValidPace(p) && Draws(p, draw) && start < slot < end && slot == start + (n + 1) * p.interval
    requires end - start > MINUTE || !p.randomize || p.jitter == 0
    ensures Place(start, end, slot, p, draw(n)) == PulledInside(start, end, RawTime(start, p, draw, n))
  {
  }

  lemma {:induction false} PlanTimes(start: int, end: int, p: Pace, draw: nat -> int, slot: int, n: nat)
    requires ValidPace(p) && Draws(p, draw) && start < slot && slot == start + (n + 1) * p.interval
    requires end - start > MINUTE || !p.randomize || p.jitter == 0
    ensures TimesFrom(Plan(start, end, p, draw, slot, n, n), start, end, p, draw, n)
    decreases end - slot
  {
    if slot < end && n < p.maxChecks {
      SlotCreatesIff(start, end, slot, p, draw(n));
      PlaceIs(start, end, slot, p, draw, n);
      assert slot + p.interval == start + (n + 2) * p.interval;
      PlanTimes(start, end, p, draw, slot + p.interval, n + 1);
      TimesCons(Place(start, end, slot, p, draw(n)), Plan(start, end, p, draw, slot + p.interval, n + 1, n + 1),
                start, end, p, draw, n);
    }
  }

  /**
   In a window of more than a minute, or without jitter, the k-th check is due at the k-th multiple
   of the interval moved by the k-th draw, a minute inside the window if that falls out of it.
   */
  lemma DutyTimesAre(start: int, end: int, p: Pace, draw: nat -> int)
    requires ValidPace(p) && Draws(p, draw)
    requires end - start > MINUTE || !p.randomize || p.jitter == 0
    ensures var t := DutyTimes(start, end, p, draw);
            forall k: nat | k < |t| :: t[k] == PulledInside(start, end, RawTime(start, p, draw, k))
  {
    PlanTimes(start, end, p, draw, start + p.interval, 0);
    var t := DutyTimes(start, end, p, draw);
    forall k: nat | k < |t| ensures t[k] == PulledInside(start, end, RawTime(start, p, draw, k)) {
      assert t[k] == PulledInside(start, end, RawTime(start, p, draw, 0 + k));
    }
  }

  /** In a window of at most a minute every check is due at its moved slot, and one that falls out of it is lost. */
  lemma {:induction false} ShortWindowTimes(start: int, end: int, p: Pace, draw: nat -> int, slot: int, n: nat, created: nat)
    requires ValidPace(p) && Draws(p, draw) && start < slot && slot == start + (n + 1) * p.interval
    requires end - start <= MINUTE
    ensures forall x | x in Plan(start, end, p, draw, slot, n, created) :: exists k: nat :: x == RawTime(start, p, draw, k)
    decreases end - slot
  {
    if slot < end && created < p.maxChecks {
      assert slot + p.interval == start + (n + 2) * p.interval;
      ShortWindowTimes(start, end, p, draw, slot + p.interval, n + 1, created);
      ShortWindowTimes(start, end, p, draw, slot + p.interval, n + 1, created + 1);
      var at := Place(start, end, slot, p, draw(n));
      if start < at < end { assert at == RawTime(start, p, draw, n); }
    }
  }

  // ---------------------------------------------------------------- in order

  ghost predicate Rises(t: seq<int>) {
    forall i, j | 0 <= i < j < |t| :: t[i] < t[j]
  }

  function Jitter(p: Pace): int {
    if p.randomize then p.jitter else 0
  }

  /**
   No jitter, or slots more than two jitters apart whose last one the window's end cannot pull
   back over its predecessor: either a minute's pull is too short, or the cap comes before it.
   */
  predicate WellSpaced(p: Pace) {
    || Jitter(p) == 0
    || (p.interval > 2 * p.jitter
        && (p.interval >= p.jitter + MINUTE || p.maxChecks * p.interval + p.jitter <= MINUTE))
  }

  /** Strictly increasing, and all above a bound. */
  ghost predicate RisesAbove(t: seq<int>, low: int) {
    Rises(t) && forall i | 0 <= i < |t| :: t[i] > low
  }

  /** In a window of more than a minute no slot is lost, so the slots so far are the checks so far. */
  predicate SlotOf(start: int, end: int, p: Pace, slot: int, created: nat) {
    && start + p.interval <= slot
    && (end - start > MINUTE ==> slot == start + (created + 1) * p.interval)
  }

  lemma PlaceBounds(start: int, end: int, slot: int, p: Pace, delta: int, created: nat)
    requires ValidPace(p) && WellSpaced(p) && -p.jitter <= delta <= p.jitter
    requires SlotOf(start, end, p, slot, created) && slot < end && created < p.maxChecks
    ensures var at := Place(start, end, slot, p, delta);
            start < at < end ==> slot - p.interval + Jitter(p) < at <= slot + Jitter(p)
  {
    if end - start > MINUTE { TimesAtMost(created + 1, p.maxChecks, p.interval); }
  }

  lemma TimesAtMost(a: int, b: int, d: nat)
    requires a <= b
    ensures a * d <= b * d
  {
  }

  lemma RisesCons(at: int, rest: seq<int>, low: int, next: int)
    requires low < at <= next && RisesAbove(rest, next)
    ensures RisesAbove([at] + rest, low)
  {
  }

  lemma {:induction false} PlanRises(start: int, end: int, p: Pace, draw: nat -> int, slot: int, n: nat, created: nat)
    requires ValidPace(p) && WellSpaced(p) && Draws(p, draw) && SlotOf(start, end, p, slot, created)
    ensures RisesAbove(Plan(start, end, p, draw, slot, n, created), slot - p.interval + Jitter(p))
    decreases end - slot
  {
    if slot < end && created < p.maxChecks {
      var at := Place(start, end, slot, p, draw(n));
      PlaceBounds(start, end, slot, p, draw(n), created);
      SlotCreatesIff(start, end, slot, p, draw(n));
      if start < at < end {
        var rest := Plan(start, end, p, draw, slot + p.interval, n + 1, created + 1);
        assert (created + 2) * p.interval == (created + 1) * p.interval + p.interval;
        PlanRises(start, end, p, draw, slot + p.interval, n + 1, created + 1);
        RisesCons(at, rest, slot - p.interval + Jitter(p), slot + Jitter(p));
      } else {
        PlanRises(start, end, p, draw, slot + p.interval, n + 1, created);
      }
    }
  }

  /** With an interval of at most two jitters, two checks can fall on one instant. */
  lemma CloseSlotsCollide(p: Pace)
    requires ValidPace(p) && Jitter(p) > 0 && p.maxChecks >= 2 && p.interval <= 2 * p.jitter
    ensures exists end: int, draw: nat -> int :: 0 < end && Draws(p, draw) && !Rises(DutyTimes(0, end, p, draw))
  {
    var h, i := (p.interval + 1) / 2, p.interval;
    var draw: nat -> int := n => if n == 0 then h else h - i;
    var end := 2 * i + h + 1;
    var t := DutyTimes(0, end, p, draw);
    var rest := Plan(0, end, p, draw, i + i, 1, 1);
    assert t == [i + h] + rest;
    assert Place(0, end, i + i, p, draw(1)) == i + h;
    assert t[0] == t[1];
    assert Draws(p, draw) && !Rises(t);
  }

  /** Drawing the full jitter every time, the last slot is pulled back from the end of the window. */
  lemma {:induction false} LatestTimes(end: int, p: Pace, draw: nat -> int, lastSlot: int, left: nat)
    requires ValidPace(p) && p.randomize && 0 < p.jitter < p.interval && left < p.maxChecks
    requires forall n: nat :: draw(n) == p.jitter
    requires p.interval <= lastSlot - left * p.interval
    requires MINUTE < end && lastSlot < end <= lastSlot + p.jitter
    ensures var k := p.maxChecks - 1 - left;
            var t := Plan(0, end, p, draw, lastSlot - left * p.interval, k, k);
            && |t| == left + 1 && t[left] == end - MINUTE
            && (left > 0 ==> t[left - 1] == lastSlot - p.interval + p.jitter)
    decreases left
  {
    var k, slot := p.maxChecks - 1 - left, lastSlot - left * p.interval;
    if left > 0 {
      AtLeast(left, p.interval);
      assert lastSlot - (left - 1) * p.interval == slot + p.interval;
      LatestTimes(end, p, draw, lastSlot, left - 1);
      assert Plan(0, end, p, draw, slot, k, k)
          == [slot + p.jitter] + Plan(0, end, p, draw, slot + p.interval, k + 1, k + 1);
    }
  }

  /** With less than a minute beyond the jitter, the last check can be pulled back over the one before it. */
  lemma LastSlotFallsBack(p: Pace)
    requires ValidPace(p) && Jitter(p) > 0 && p.maxChecks >= 2
    requires 2 * p.jitter < p.interval < p.jitter + MINUTE && p.maxChecks * p.interval + p.jitter > MINUTE
    ensures exists end: int, draw: nat -> int :: 0 < end && Draws(p, draw) && !Rises(DutyTimes(0, end, p, draw))
  {
    var lastSlot, left := p.maxChecks * p.interval, p.maxChecks - 1;
    var draw: nat -> int := _ => p.jitter;
    var end := 1 + if lastSlot < MINUTE then MINUTE else lastSlot;
    assert lastSlot - left * p.interval == p.interval;
    AtLeast(left, p.interval);
    LatestTimes(end, p, draw, lastSlot, left);
    var t := DutyTimes(0, end, p, draw);
    assert t[left - 1] >= t[left];
    assert Draws(p, draw) && !Rises(t);
  }

  /**
   The times rise strictly in every window and for every sequence of draws if and only if the
   slots are well spaced or there is at most one check to place.
   */
  lemma RisesIffWellSpaced(p: Pace)
    requires ValidPace(p)
    ensures (forall start: int, end: int, draw: nat -> int | start < end && Draws(p, draw) :: Rises(DutyTimes(start, end, p, draw)))
       <==> WellSpaced(p) || p.maxChecks <= 1
  {
    if WellSpaced(p) || p.maxChecks <= 1 {
      forall start: int, end: int, draw: nat -> int | start < end && Draws(p, draw)
        ensures Rises(DutyTimes(start, end, p, draw))
      {
        DutyRises(start, end, p, draw);
      }
    } else if p.interval <= 2 * p.jitter {
      CloseSlotsCollide(p);
    } else {
      LastSlotFallsBack(p);
    }
  }

  /** For settings in whole minutes: exactly without jitter, with at most one check, or with an interval of more than two jitters. */
  lemma WholeMinutesRiseIff(p: Pace)
    requires ValidPace(p) && p.interval % MINUTE == 0 && p.jitter % MINUTE == 0
    ensures (forall start: int, end: int, draw: nat -> int | start < end && Draws(p, draw) :: Rises(DutyTimes(start, end, p, draw)))
       <==> !p.randomize || p.jitter == 0 || p.maxChecks <= 1 || p.interval > 2 * p.jitter
  {
    RisesIffWellSpaced(p);
    if p.maxChecks > 1 { TimesAtMost(1, p.maxChecks, p.interval); }
  }

  /** Well-spaced slots: strictly increasing times inside the window. */
  lemma DutyRises(start: int, end: int, p: Pace, draw: nat -> int)
    requires ValidPace(p) && Draws(p, draw) && start < end
    requires WellSpaced(p) || p.maxChecks <= 1
    ensures var t := DutyTimes(start, end, p, draw); Rises(t) && forall x | x in t :: start < x < end
  {
    PlanStaysInside(start, end, p, draw, start + p.interval, 0, 0);
    if WellSpaced(p) { PlanRises(start, end, p, draw, start + p.interval, 0, 0); }
  }

  /** Unset variables mean two hours, half an hour, six checks and eight hours of duty. */
  lemma Defaults()
    ensures PaceOf(DEFAULTS) == Pace(7_200_000, 1_800_000, true, 6) && DutyMs(DEFAULTS) == 28_800_000
  {
  }

  /** With nothing configured, every clock-in brings exactly three checks, in order, whatever is drawn. */
  lemma DefaultDuty(start: int, draw: nat -> int)
    requires Draws(PaceOf(DEFAULTS), draw)
    ensures var t := DutyTimes(start, start + DutyMs(DEFAULTS), PaceOf(DEFAULTS), draw);
            |t| == 3 && start < t[0] < t[1] < t[2] < start + DutyMs(DEFAULTS)
  {
    var p, end := PaceOf(DEFAULTS), start + DutyMs(DEFAULTS);
    DutyRises(start, end, p, draw);
    DutyCount(start, end, p, draw);
    var t := DutyTimes(start, end, p, draw);
    assert t[0] in t && t[2] in t;
  }
}
