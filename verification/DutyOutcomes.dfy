/**
 What each duty handler answers and writes, row by row: which calls are accepted, why the others
 are refused, and that nothing else changes.
 */
module DutyOutcomes {
  import opened Wrappers
  import opened DutySchedule
  import opened Duty

  /** On the books, and neither terminated, suspended nor absent. */
  predicate FitForDuty(s: Store, guard: nat) {
    guard < |s.guards| && s.guards[guard].status in {GuardStatus.ACTIVE, AVAILABLE, ON_LEAVE, TRANSFERRED}
  }

  // ---------------------------------------------------------------- the checks a punch brings

  /** A check of that guard, site and (if there is one) shift is still to come. */
  predicate ComingUp(checks: seq<Check>, guard: nat, site: string, shift: Option<string>, after: int) {
    exists i | 0 <= i < |checks| ::
      && checks[i].guard == guard && checks[i].site == site && (shift.None? || checks[i].shift == shift)
      && checks[i].status == SCHEDULED && after < checks[i].scheduledAt
  }

  /** Duty lasts to the end of its shift, or for the configured time if there is no shift still running. */
  function DutyEnd(cfg: Config, shift: Option<string>, clockIn: int, env: Env): int {
    match (shift, env.shiftEnd)
    case (Some(_), Some(end)) => if clockIn < end then end else clockIn + cfg.dutyMs
    case _ => clockIn + cfg.dutyMs
  }

  /**
   With scheduling on, a guard fit for duty and no check coming up, exactly the planned times are
   added as SCHEDULED checks of that guard, site and shift; in any other case none is.
   */
  ghost predicate BringsChecks(s: Store, after: seq<Check>, cfg: Config, guard: nat, site: string,
                               shift: Option<string>, clockIn: int, env: Env) {
    var times := DutyTimes(clockIn, DutyEnd(cfg, shift, clockIn, env), cfg.pace, env.draw);
    var due := cfg.autoSchedule && FitForDuty(s, guard) && !ComingUp(s.checks, guard, site, shift, clockIn);
    && s.checks <= after && |after| == |s.checks| + (if due then |times| else 0)
    && forall k: nat | k < |after| - |s.checks| ::
        after[|s.checks| + k] == Check(guard, site, shift, times[k], SCHEDULED, None, None)
  }

  lemma DutyChecksAreBrought(s: Store, cfg: Config, guard: nat, site: string, shift: Option<string>, clockIn: int, env: Env)
    ensures BringsChecks(s, s.checks + DutyChecks(s, cfg, guard, site, shift, clockIn, env), cfg, guard, site, shift, clockIn, env)
  {
    assert ComingUp(s.checks, guard, site, shift, clockIn) <==>
           exists i | 0 <= i < |s.checks| :: Upcoming(s.checks[i], guard, site, shift, clockIn);
  }

  /** A new open punch with its checks, and nothing else. */
  ghost predicate PunchedIn(s: Store, reply: Reply, cfg: Config, guard: nat, site: string, shift: Option<string>,
                            event: Option<string>, env: Env) {
    && reply.id == Some(|s.attendance|)
    && reply.store.attendance == s.attendance + [Attendance(guard, site, shift, env.now, None, event, None)]
    && BringsChecks(s, reply.store.checks, cfg, guard, site, shift, env.now, env)
    && reply.store.(attendance := s.attendance, checks := s.checks) == s
  }

  lemma PunchIsPunchedIn(s: Store, cfg: Config, guard: nat, site: string, shift: Option<string>, event: Option<string>, env: Env)
    ensures PunchedIn(s, Reply(Punched(s, cfg, guard, site, shift, event, env), Some(|s.attendance|)),
                      cfg, guard, site, shift, event, env)
  {
    DutyChecksAreBrought(s, cfg, guard, site, shift, env.now, env);
  }

  // ---------------------------------------------------------------- punches

  predicate ClockedInUnder(rows: seq<Attendance>, event: Option<string>) {
    event.Some? && exists i | 0 <= i < |rows| :: rows[i].inEvent == event
  }

  predicate ClockedOutUnder(rows: seq<Attendance>, event: Option<string>) {
    event.Some? && exists i | 0 <= i < |rows| :: rows[i].outEvent == event
  }

  predicate HasOpenPunch(rows: seq<Attendance>, guard: nat) {
    exists i | 0 <= i < |rows| :: rows[i].guard == guard && rows[i].clockOutAt == None
  }

  /** The answer repeats an earlier one: a row that carries the event, and no change. */
  ghost predicate Repeats(s: Store, r: Result<Reply, Refusal>, row: nat -> bool) {
    r.Ok? && r.value.store == s && r.value.id.Some? && row(r.value.id.value)
  }

  lemma ClockInOutcome(s: Store, cfg: Config, user: string, site: string, shift: Option<string>, event: Option<string>, env: Env)
    ensures var r, g := ClockedIn(s, cfg, user, site, shift, event, env), GuardOf(s.guards, user);
            if event != Some("") && ClockedInUnder(s.attendance, event)
            then Repeats(s, r, (i: nat) => i < |s.attendance| && s.attendance[i].inEvent == event)
            else match r
                 case Ok(reply) =>
                   && g.Some? && FitForDuty(s, g.value) && env.granted && !ClockedInUnder(s.attendance, event)
                   && PunchedIn(s, reply, cfg, g.value, site, shift, event, env)
                 case Err(e) =>
                   if g.None? then e == NotAGuard
                   else if !FitForDuty(s, g.value) then e == GuardBlocked
                   else if !env.granted then e == NotGranted
                   else e == UniqueViolation && ClockedInUnder(s.attendance, event)
  {
    var g := GuardOf(s.guards, user);
    if g.Some? { PunchIsPunchedIn(s, cfg, g.value, site, shift, event, env); }
  }

  lemma SupervisorClockInOutcome(s: Store, cfg: Config, guard: nat, site: string, shift: Option<string>, env: Env)
    ensures match SupervisorClockedIn(s, cfg, guard, site, shift, env)
            case Ok(reply) =>
              && FitForDuty(s, guard) && env.granted && !HasOpenPunch(s.attendance, guard)
              && PunchedIn(s, reply, cfg, guard, site, shift, None, env)
            case Err(e) =>
              if guard >= |s.guards| then e == NotFound
              else if !FitForDuty(s, guard) then e == GuardBlocked
              else if !env.granted then e == NotGranted
              else e == OpenAttendanceExists && HasOpenPunch(s.attendance, guard)
  {
    PunchIsPunchedIn(s, cfg, guard, site, shift, None, env);
  }

  /** One open row of the guard gets its clock-out time and event, and nothing else changes. */
  ghost predicate PunchedOutRow(s: Store, reply: Reply, guard: nat, event: Option<string>, now: int) {
    && reply.id.Some? && reply.id.value < |s.attendance|
    && var row := s.attendance[reply.id.value];
      && row.guard == guard && row.clockOutAt == None
      && reply.store.attendance == s.attendance[reply.id.value := row.(clockOutAt := Some(now), outEvent := event)]
      && reply.store.(attendance := s.attendance) == s
  }

  lemma ClockOutOutcome(s: Store, user: string, id: nat, event: Option<string>, env: Env)
    ensures var r, g := ClockedOut(s, user, id, event, env), GuardOf(s.guards, user);
            if event != Some("") && ClockedOutUnder(s.attendance, event)
            then Repeats(s, r, (i: nat) => i < |s.attendance| && s.attendance[i].outEvent == event)
            else match r
                 case Ok(reply) =>
                   && g.Some? && reply.id == Some(id) && !ClockedOutUnder(s.attendance, event)
                   && PunchedOutRow(s, reply, g.value, event, env.now)
                 case Err(e) =>
                   if g.None? then e == NotAGuard
                   else if id >= |s.attendance| || s.attendance[id].guard != g.value then e == NotFound
                   else if s.attendance[id].clockOutAt.Some? then e == AlreadyClockedOut
                   else e == UniqueViolation && ClockedOutUnder(s.attendance, event)
  {
  }

  /** A punch at the terminal: a known event is repeated; otherwise it closes the latest open punch, or opens one. */
  lemma DevicePunchOutcome(s: Store, cfg: Config, guard: nat, site: string, forceIn: bool, event: Option<string>, env: Env)
    ensures var r := DevicePunched(s, cfg, guard, site, forceIn, event, env);
            if guard >= |s.guards| then r == Ok(Reply(s, None))
            else if event != Some("") && ClockedInUnder(s.attendance, event)
            then Repeats(s, r, (i: nat) => i < |s.attendance| && s.attendance[i].inEvent == event)
            else if event != Some("") && ClockedOutUnder(s.attendance, event)
            then Repeats(s, r, (i: nat) => i < |s.attendance| && s.attendance[i].outEvent == event)
            else if HasOpenPunch(s.attendance, guard) && !forceIn then
              if ClockedOutUnder(s.attendance, event) then r == Err(UniqueViolation)
              else && r.Ok? && PunchedOutRow(s, r.value, guard, event, env.now)
                   && forall i | r.value.id.value < i < |s.attendance| ::
                        s.attendance[i].guard != guard || s.attendance[i].clockOutAt.Some?
            else if !FitForDuty(s, guard) then r == Ok(Reply(s, None))
            else if ClockedInUnder(s.attendance, event) then r == Err(UniqueViolation)
            else r.Ok? && PunchedIn(s, r.value, cfg, guard, site, None, event, env)
  {
    PunchIsPunchedIn(s, cfg, guard, site, None, event, env);
    var open := OpenOf(s.attendance, guard);
    assert open.Some? <==> HasOpenPunch(s.attendance, guard);
  }

  /** Two punches of a guard without an open one, under new events, make one closed shift. */
  lemma TwoPunchesMakeAShift(s: Store, cfg: Config, guard: nat, site: string, first: string, second: string, env: Env, later: Env)
    requires FitForDuty(s, guard) && !HasOpenPunch(s.attendance, guard) && first != "" && second != "" && first != second
    requires forall i | 0 <= i < |s.attendance| ::
               s.attendance[i].inEvent !in {Some(first), Some(second)} && s.attendance[i].outEvent !in {Some(first), Some(second)}
    ensures var t := Step(s, cfg, DevicePunch(guard, site, false, Some(first)), env);
            var u := Step(t, cfg, DevicePunch(guard, site, false, Some(second)), later);
            && u.attendance == s.attendance
               + [Attendance(guard, site, None, env.now, Some(later.now), Some(first), Some(second))]
            && !HasOpenPunch(u.attendance, guard) && u.checks == t.checks
  {
    DevicePunchOutcome(s, cfg, guard, site, false, Some(first), env);
    var t := Step(s, cfg, DevicePunch(guard, site, false, Some(first)), env);
    assert t.attendance[|s.attendance|] == Attendance(guard, site, None, env.now, None, Some(first), None);
    assert HasOpenPunch(t.attendance, guard);
    DevicePunchOutcome(t, cfg, guard, site, false, Some(second), later);
    assert t.guards == s.guards;
  }

  // ---------------------------------------------------------------- checks

  /** One SCHEDULED check as asked for, exactly for a guard fit for duty. */
  lemma ScheduleOutcome(s: Store, guard: nat, site: string, shift: Option<string>, at: int, env: Env)
    ensures match Scheduled(s, guard, site, shift, at, env)
            case Ok(reply) =>
              && FitForDuty(s, guard) && env.granted && reply.id == Some(|s.checks|)
              && reply.store.checks == s.checks + [Check(guard, site, shift, at, SCHEDULED, None, None)]
              && reply.store.(checks := s.checks) == s
            case Err(e) =>
              if guard >= |s.guards| then e == NotFound
              else if !FitForDuty(s, guard) then e == GuardBlocked else e == NotGranted && !env.granted
  {
  }

  predicate AnsweredUnder(checks: seq<Check>, event: Option<string>) {
    event.Some? && exists i | 0 <= i < |checks| :: checks[i].event == event
  }

  /** Answers are only recorded on checks that count as answered. */
  predicate EventsOnAnswers(checks: seq<Check>) {
    forall i | 0 <= i < |checks| && checks[i].event.Some? :: checks[i].status in {CONFIRMED, LATE}
  }

  lemma ConfirmOutcome(s: Store, cfg: Config, user: string, id: nat, event: Option<string>, env: Env)
    requires EventsOnAnswers(s.checks)
    ensures var r, g := Confirmed(s, cfg, user, id, event, env), GuardOf(s.guards, user);
            if event != Some("") && AnsweredUnder(s.checks, event)
            then Repeats(s, r, (i: nat) => i < |s.checks| && s.checks[i].event == event)
            else if g.None? then r == Err(NotAGuard)
            else if id >= |s.checks| || s.checks[id].guard != g.value then r == Err(NotFound)
            else match s.checks[id].status
                 case CONFIRMED => r == Ok(Reply(s, Some(id)))
                 case LATE => r == Ok(Reply(s, Some(id)))
                 case MISSED => r == Err(AlreadyMissed)
                 case CANCELLED => r == Err(CheckCancelled)
                 case SCHEDULED =>
                   if AnsweredUnder(s.checks, event) then r == Err(UniqueViolation)
                   else && r.Ok? && r.value.id == Some(id) && r.value.store.(checks := s.checks) == s
                        && r.value.store.checks == s.checks[id := s.checks[id].(
                             status := if env.now <= s.checks[id].scheduledAt + cfg.lateGraceMs then CONFIRMED else LATE,
                             confirmedAt := Some(env.now), event := event)]
  {
  }

  lemma MarkMissedOutcome(s: Store, id: nat, granted: bool)
    ensures match MarkedMissed(s, id, granted)
            case Ok(reply) =>
              && id < |s.checks| && granted && reply.id == Some(id)
              && if s.checks[id].status == MISSED then reply.store == s
                 else && s.checks[id].status == SCHEDULED
                      && reply.store.checks == s.checks[id := s.checks[id].(status := MISSED)]
                      && reply.store.alerts == s.alerts + [Alert(s.checks[id].guard, s.checks[id].site)]
                      && reply.store.(checks := s.checks, alerts := s.alerts) == s
            case Err(e) =>
              if id >= |s.checks| then e == NotFound
              else if !granted then e == NotGranted
              else e == NotScheduled && s.checks[id].status !in {SCHEDULED, MISSED}
  {
  }

  /** A SCHEDULED check at one of the sites whose time lies before the cutoff. */
  predicate Late(c: Check, cutoff: int, sites: set<string>) {
    c.status == SCHEDULED && c.site in sites && c.scheduledAt < cutoff
  }

  lemma {:induction false} MarkedAllChecks(s: Store, due: seq<nat>)
    requires forall k | 0 <= k < |due| :: due[k] < |s.checks|
    ensures var t := MarkedAll(s, due);
            && t.(checks := s.checks, alerts := s.alerts) == s && |t.checks| == |s.checks|
            && forall i | 0 <= i < |s.checks| ::
                t.checks[i] == if i in due && s.checks[i].status == SCHEDULED then s.checks[i].(status := MISSED) else s.checks[i]
    decreases |due|
  {
    if due != [] {
      MarkMissedOutcome(s, due[0], true);
      var r := MarkedMissed(s, due[0], true);
      MarkedAllChecks(if r.Ok? then r.value.store else s, due[1..]);
    }
  }

  /**
   A scan marks overdue checks only, the earliest first: one that it leaves is overdue only if 200
   others, none of them later, were marked. Nothing else about a check changes.
   */
  lemma ScanOutcome(s: Store, cutoff: int, sites: set<string>, due: seq<nat>)
    requires IsDueList(s.checks, cutoff, sites, due)
    ensures var t := ScannedMissed(s, cutoff, sites, due);
            && t.(checks := s.checks, alerts := s.alerts) == s && |t.checks| == |s.checks|
            && (forall i | 0 <= i < |s.checks| ::
                  t.checks[i] == s.checks[i]
                  || (Late(s.checks[i], cutoff, sites) && t.checks[i] == s.checks[i].(status := MISSED)))
            && (forall i, j | 0 <= i < |s.checks| && 0 <= j < |s.checks| && Late(s.checks[i], cutoff, sites)
                              && t.checks[i] == s.checks[i] && t.checks[j] != s.checks[j] ::
                  s.checks[j].scheduledAt <= s.checks[i].scheduledAt)
            && ((exists i :: 0 <= i < |s.checks| && Late(t.checks[i], cutoff, sites)) ==> |due| == 200)
  {
    MarkedAllChecks(s, due);
    var t := ScannedMissed(s, cutoff, sites, due);
    forall i, j | 0 <= i < |s.checks| && 0 <= j < |s.checks| && Late(s.checks[i], cutoff, sites)
                  && t.checks[i] == s.checks[i] && t.checks[j] != s.checks[j]
      ensures s.checks[j].scheduledAt <= s.checks[i].scheduledAt
    {
      assert Overdue(s.checks[i], cutoff, sites) && i !in due && j in due;
    }
    forall i | 0 <= i < |s.checks| && Late(t.checks[i], cutoff, sites) ensures |due| == 200 {
      assert Overdue(s.checks[i], cutoff, sites) && i !in due;
    }
  }

  /** A list the scan's query may have so far: no overdue check it leaves out is earlier than one it holds. */
  ghost predicate EarliestSoFar(checks: seq<Check>, cutoff: int, sites: set<string>, due: seq<nat>) {
    && (forall k | 0 <= k < |due| :: due[k] < |checks| && Late(checks[due[k]], cutoff, sites))
    && (forall j, k | 0 <= j < k < |due| :: due[j] != due[k] && checks[due[j]].scheduledAt <= checks[due[k]].scheduledAt)
    && (forall i, k | 0 <= i < |checks| && Late(checks[i], cutoff, sites) && i !in due && 0 <= k < |due| ::
          checks[due[k]].scheduledAt <= checks[i].scheduledAt)
  }

  /** The earliest overdue check that a list leaves out, if there is one among the first n. */
  lemma {:induction false} EarliestLeft(checks: seq<Check>, cutoff: int, sites: set<string>, due: seq<nat>, n: nat) returns (m: Option<nat>)
    requires n <= |checks|
    ensures m.Some? ==> m.value < n && Late(checks[m.value], cutoff, sites) && m.value !in due
    ensures forall i | 0 <= i < n && Late(checks[i], cutoff, sites) && i !in due ::
              m.Some? && checks[m.value].scheduledAt <= checks[i].scheduledAt
    decreases n
  {
    m := None;
    if n > 0 {
      m := EarliestLeft(checks, cutoff, sites, due, n - 1);
      if Late(checks[n - 1], cutoff, sites) && n - 1 !in due
         && (m.None? || checks[n - 1].scheduledAt < checks[m.value].scheduledAt) {
        m := Some(n - 1);
      }
    }
  }

  /** The query has an answer on every table: the earliest overdue checks, as many as there are and at most 200. */
  lemma {:induction false} DueListExists(checks: seq<Check>, cutoff: int, sites: set<string>, size: nat) returns (due: seq<nat>)
    requires size <= 200
    ensures EarliestSoFar(checks, cutoff, sites, due) && |due| <= size
    ensures |due| == size || forall i | 0 <= i < |checks| && Late(checks[i], cutoff, sites) :: i in due
    ensures size == 200 ==> IsDueList(checks, cutoff, sites, due)
    decreases size
  {
    due := [];
    if size > 0 {
      due := DueListExists(checks, cutoff, sites, size - 1);
      var m := EarliestLeft(checks, cutoff, sites, due, |checks|);
      if |due| == size - 1 && m.Some? {
        due := due + [m.value];
      }
    }
    forall i | 0 <= i < |checks| ensures Late(checks[i], cutoff, sites) <==> Overdue(checks[i], cutoff, sites) {}
  }

  predicate ScannedUnder(scans: seq<PatrolScan>, event: Option<string>) {
    event.Some? && exists i | 0 <= i < |scans| :: scans[i].event == event
  }

  lemma PatrolOutcome(s: Store, user: string, checkpoint: string, event: Option<string>, env: Env)
    ensures var r, g := PatrolScanned(s, user, checkpoint, event, env), GuardOf(s.guards, user);
            if event != Some("") && ScannedUnder(s.scans, event)
            then Repeats(s, r, (i: nat) => i < |s.scans| && s.scans[i].event == event)
            else if g.None? then r == Err(NotAGuard)
            else if !env.granted then r == Err(NotGranted)
            else if ScannedUnder(s.scans, event) then r == Err(UniqueViolation)
            else && r.Ok? && r.value.id == Some(|s.scans|) && r.value.store.(scans := s.scans) == s
                 && r.value.store.scans == s.scans + [PatrolScan(g.value, checkpoint, event)]
  {
  }

  // ---------------------------------------------------------------- guard status

  /**
   Which moves a guard's status may make: into service or out of the company from anywhere; onto
   leave, absent or suspended from service, leave or absence; transferred from service only; and
   never back once TERMINATED.
   */
  predicate MayMove(from: GuardStatus, to: GuardStatus) {
    && from != to && from != TERMINATED
    && (|| to in {GuardStatus.ACTIVE, AVAILABLE, TERMINATED}
        || (to in {ON_LEAVE, ABSENT, SUSPENDED} && from in {GuardStatus.ACTIVE, AVAILABLE, ON_LEAVE, ABSENT})
        || (to == TRANSFERRED && from in {GuardStatus.ACTIVE, AVAILABLE}))
  }

  /** A new guard is ACTIVE and the last row; an exit sets that guard TERMINATED, whatever the status was, and nothing else. */
  lemma EnlistAndExit(s: Store, cfg: Config, userId: string, guard: nat, env: Env)
    ensures var r := Attempt(s, cfg, Enlist(userId), env);
            r == Ok(Reply(s.(guards := s.guards + [Guard(userId, GuardStatus.ACTIVE)]), Some(|s.guards|)))
    ensures var r := Attempt(s, cfg, Terminate(guard), env);
            if guard >= |s.guards| then r == Err(NotFound)
            else r == Ok(Reply(s.(guards := s.guards[guard := Guard(s.guards[guard].userId, TERMINATED)]), Some(guard)))
  {
  }

  /** Only that guard moves; ABSENT closes the guard's open punches and cancels the guard's SCHEDULED checks, no others. */
  lemma UpdateStatusOutcome(s: Store, guard: nat, status: GuardStatus, env: Env)
    ensures var r := StatusUpdated(s, guard, status, env);
            if guard >= |s.guards| then r == Err(NotFound)
            else if status == s.guards[guard].status then r == Ok(Reply(s, Some(guard)))
            else if !MayMove(s.guards[guard].status, status) then r == Err(BadTransition)
            else && r.Ok? && r.value.id == Some(guard)
                 && var t := r.value.store;
                   && t.guards == s.guards[guard := Guard(s.guards[guard].userId, status)]
                   && t.alerts == s.alerts && t.scans == s.scans
                   && |t.attendance| == |s.attendance| && |t.checks| == |s.checks|
                   && (forall i | 0 <= i < |s.attendance| ::
                         t.attendance[i] == if status == ABSENT && s.attendance[i].guard == guard && s.attendance[i].clockOutAt.None?
                                            then s.attendance[i].(clockOutAt := Some(env.now)) else s.attendance[i])
                   && (forall i | 0 <= i < |s.checks| ::
                         t.checks[i] == if status == ABSENT && s.checks[i].guard == guard && s.checks[i].status == SCHEDULED
                                        then s.checks[i].(status := CANCELLED) else s.checks[i])
  {
  }

  // ---------------------------------------------------------------- with nothing configured

  /** With default settings a guard fit for duty who clocks in, with no check coming up, gets exactly three checks within eight hours. */
  lemma DefaultClockIn(s: Store, grace: nat, user: string, site: string, event: string, env: Env)
    requires var g := GuardOf(s.guards, user);
             g.Some? && FitForDuty(s, g.value) && !ComingUp(s.checks, g.value, site, None, env.now)
    requires env.granted && event != "" && !ClockedInUnder(s.attendance, Some(event))
    requires Draws(PaceOf(DEFAULTS), env.draw)
    ensures var cfg: Config := RawConfig(true, PaceOf(DEFAULTS), DutyMs(DEFAULTS), grace);
            var t, n, g := Step(s, cfg, ClockIn(user, site, None, Some(event)), env), |s.checks|, GuardOf(s.guards, user).value;
            && |t.checks| == n + 3 && t.checks[..n] == s.checks
            && (forall k | n <= k < n + 3 ::
                  t.checks[k] == Check(g, site, None, t.checks[k].scheduledAt, SCHEDULED, None, None))
            && env.now < t.checks[n].scheduledAt < t.checks[n + 1].scheduledAt < t.checks[n + 2].scheduledAt < env.now + 28_800_000
  {
    var cfg: Config := RawConfig(true, PaceOf(DEFAULTS), DutyMs(DEFAULTS), grace);
    var t, n := Step(s, cfg, ClockIn(user, site, None, Some(event)), env), |s.checks|;
    ClockInOutcome(s, cfg, user, site, None, Some(event), env);
    DefaultDuty(env.now, env.draw);
    Defaults();
    var times := DutyTimes(env.now, env.now + DutyMs(DEFAULTS), PaceOf(DEFAULTS), env.draw);
    assert t.checks[n + 0] == Check(GuardOf(s.guards, user).value, site, None, times[0], SCHEDULED, None, None);
    assert t.checks[n + 1] == Check(GuardOf(s.guards, user).value, site, None, times[1], SCHEDULED, None, None);
    assert t.checks[n + 2] == Check(GuardOf(s.guards, user).value, site, None, times[2], SCHEDULED, None, None);
  }
}
