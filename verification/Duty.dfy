/**
 backend/libs/attendance (with the guard status change of backend/libs/workforce): what each
 handler does to the duty tables. Rows are never deleted and are identified by position.
 */
module Duty {
  import opened Wrappers
  import opened DutySchedule

  datatype GuardStatus = ACTIVE | ON_LEAVE | ABSENT | SUSPENDED | TRANSFERRED | TERMINATED | AVAILABLE

  datatype CheckStatus = SCHEDULED | CONFIRMED | MISSED | LATE | CANCELLED

  datatype Guard = Guard(userId: string, status: GuardStatus)

  /** `inEvent` and `outEvent` are the client event ids of the two punches; each column is unique. */
  datatype Attendance = Attendance(
    guard: nat, site: string, shift: Option<string>,
    clockInAt: int, clockOutAt: Option<int>,
    inEvent: Option<string>, outEvent: Option<string>)

  datatype Check = Check(guard: nat, site: string, shift: Option<string>, scheduledAt: int,
                         status: CheckStatus, confirmedAt: Option<int>, event: Option<string>)

  /** An ALERTNESS_MISSED field alert. */
  datatype Alert = Alert(guard: nat, site: string)

  datatype PatrolScan = PatrolScan(guard: nat, checkpoint: string, event: Option<string>)

  datatype Store = Store(
    guards: seq<Guard>,
    attendance: seq<Attendance>,
    checks: seq<Check>,
    alerts: seq<Alert>,
    scans: seq<PatrolScan>)

  datatype RawConfig = RawConfig(autoSchedule: bool, pace: Pace, dutyMs: int, lateGraceMs: int)

  /** The settings after their fallbacks have been applied. */
  type Config = c: RawConfig | ValidPace(c.pace) && c.dutyMs > 0 && c.lateGraceMs >= 0
    witness RawConfig(true, Pace(1, 0, true, 6), 1, 0)

  /**
   What a handler finds outside the duty tables: the clock, whether the site, shift, checkpoint
   and permission checks pass, the end of the shift, and the random draws.
   */
  datatype Env = Env(now: int, granted: bool, shiftEnd: Option<int>, draw: nat -> int)

  datatype Refusal = NotAGuard | NotFound | GuardBlocked | NotGranted | OpenAttendanceExists | AlreadyClockedOut
                   | AlreadyMissed | CheckCancelled | NotScheduled | BadTransition | UniqueViolation

  /** The tables after an accepted call and the row it answers with. */
  datatype Reply = Reply(store: Store, id: Option<nat>)

  // ---------------------------------------------------------------- lookups

  predicate Blocked(status: GuardStatus) {
    status == TERMINATED || status == SUSPENDED || status == ABSENT
  }

  function GuardOf(guards: seq<Guard>, userId: string): (r: Option<nat>)
    ensures r.Some? ==> r.value < |guards| && guards[r.value].userId == userId
    ensures forall i | 0 <= i < (if r.Some? then r.value else |guards|) :: guards[i].userId != userId
  {
    if guards == [] then None
    else if guards[0].userId == userId then Some(0)
    else
      var r := GuardOf(guards[1..], userId);
      if r.None? then None else Some(r.value + 1)
  }

  /** `findUnique` on an event id column. */
  function Find<T>(rows: seq<T>, column: T -> Option<string>, event: string): (r: Option<nat>)
    ensures r.Some? ==> r.value < |rows| && column(rows[r.value]) == Some(event)
    ensures r.None? ==> forall i | 0 <= i < |rows| :: column(rows[i]) != Some(event)
  {
    if rows == [] then None
    else if column(rows[|rows| - 1]) == Some(event) then Some(|rows| - 1)
    else Find(rows[..|rows| - 1], column, event)
  }

  function InEvent(a: Attendance): Option<string> { a.inEvent }

  function OutEvent(a: Attendance): Option<string> { a.outEvent }

  function CheckEvent(c: Check): Option<string> { c.event }

  function ScanEvent(p: PatrolScan): Option<string> { p.event }

  function FindIn(rows: seq<Attendance>, event: string): Option<nat> { Find(rows, InEvent, event) }

  function FindOut(rows: seq<Attendance>, event: string): Option<nat> { Find(rows, OutEvent, event) }

  function FindCheck(rows: seq<Check>, event: string): Option<nat> { Find(rows, CheckEvent, event) }

  function FindScan(rows: seq<PatrolScan>, event: string): Option<nat> { Find(rows, ScanEvent, event) }

  predicate IsOpen(a: Attendance) {
    a.clockOutAt.None?
  }

  /** The guard's most recent open punch. */
  function OpenOf(rows: seq<Attendance>, guard: nat): (r: Option<nat>)
    ensures r.Some? ==> r.value < |rows| && rows[r.value].clockOutAt.None? && rows[r.value].guard == guard
    ensures forall i | (if r.Some? then r.value else -1) < i < |rows| ::
              !(rows[i].clockOutAt.None? && rows[i].guard == guard)
  {
    if rows == [] then None
    else
      var last := |rows| - 1;
      if IsOpen(rows[last]) && rows[last].guard == guard then Some(last) else OpenOf(rows[..last], guard)
  }

  // ---------------------------------------------------------------- punches

  predicate Upcoming(c: Check, guard: nat, site: string, shift: Option<string>, after: int) {
    && c.guard == guard && c.site == site && c.status == SCHEDULED && c.scheduledAt > after
    && (shift.Some? ==> c.shift == shift)
  }

  function WindowEnd(cfg: Config, shift: Option<string>, clockIn: int, env: Env): int {
    if shift.Some? && env.shiftEnd.Some? && env.shiftEnd.value > clockIn then env.shiftEnd.value
    else clockIn + cfg.dutyMs
  }

  /** The checks `scheduleForDuty` adds after a clock-in. */
  function DutyChecks(s: Store, cfg: Config, guard: nat, site: string, shift: Option<string>, clockIn: int, env: Env)
    : seq<Check>
  {
    if !cfg.autoSchedule || guard >= |s.guards| || Blocked(s.guards[guard].status) then []
    else if exists i | 0 <= i < |s.checks| :: Upcoming(s.checks[i], guard, site, shift, clockIn) then []
    else
      var times := DutyTimes(clockIn, WindowEnd(cfg, shift, clockIn, env), cfg.pace, env.draw);
      seq(|times|, i requires 0 <= i < |times| => Check(guard, site, shift, times[i], SCHEDULED, None, None))
  }

  /** A new punch and the checks that come with it. */
  function Punched(s: Store, cfg: Config, guard: nat, site: string, shift: Option<string>, event: Option<string>, env: Env)
    : Store
  {
    s.(attendance := s.attendance + [Attendance(guard, site, shift, env.now, None, event, None)],
       checks := s.checks + DutyChecks(s, cfg, guard, site, shift, env.now, env))
  }

  /** Only a non-empty event id is looked up before the insert. */
  function ClockedIn(s: Store, cfg: Config, user: string, site: string, shift: Option<string>, event: Option<string>, env: Env)
    : Result<Reply, Refusal>
  {
    var dup := if event.Some? then FindIn(s.attendance, event.value) else None;
    if dup.Some? && event != Some("") then Ok(Reply(s, dup))
    else
      var guard := GuardOf(s.guards, user);
      if guard.None? then Err(NotAGuard)
      else if Blocked(s.guards[guard.value].status) then Err(GuardBlocked)
      else if !env.granted then Err(NotGranted)
      else if dup.Some? then Err(UniqueViolation)
      else Ok(Reply(Punched(s, cfg, guard.value, site, shift, event, env), Some(|s.attendance|)))
  }

  function SupervisorClockedIn(s: Store, cfg: Config, guard: nat, site: string, shift: Option<string>, env: Env)
    : Result<Reply, Refusal>
  {
    if guard >= |s.guards| then Err(NotFound)
    else if Blocked(s.guards[guard].status) then Err(GuardBlocked)
    else if !env.granted then Err(NotGranted)
    else if OpenOf(s.attendance, guard).Some? then Err(OpenAttendanceExists)
    else Ok(Reply(Punched(s, cfg, guard, site, shift, None, env), Some(|s.attendance|)))
  }

  function PunchedOut(s: Store, id: nat, event: Option<string>, now: int): Store
    requires id < |s.attendance|
  {
    s.(attendance := s.attendance[id := s.attendance[id].(clockOutAt := Some(now), outEvent := event)])
  }

  function ClockedOut(s: Store, user: string, id: nat, event: Option<string>, env: Env): Result<Reply, Refusal> {
    var dup := if event.Some? then FindOut(s.attendance, event.value) else None;
    if dup.Some? && event != Some("") then Ok(Reply(s, dup))
    else
      var guard := GuardOf(s.guards, user);
      if guard.None? then Err(NotAGuard)
      else if id >= |s.attendance| || s.attendance[id].guard != guard.value then Err(NotFound)
      else if !IsOpen(s.attendance[id]) then Err(AlreadyClockedOut)
      else if dup.Some? then Err(UniqueViolation)
      else Ok(Reply(PunchedOut(s, id, event, env.now), Some(id)))
  }

  /** A terminal punch toggles; direction IN never closes. A blocked guard's clock-in is only stored as an event. */
  function DevicePunched(s: Store, cfg: Config, guard: nat, site: string, forceIn: bool, event: Option<string>, env: Env)
    : Result<Reply, Refusal>
  {
    if guard >= |s.guards| then Ok(Reply(s, None))
    else
      var dupIn := if event.Some? then FindIn(s.attendance, event.value) else None;
      var dupOut := if event.Some? then FindOut(s.attendance, event.value) else None;
      if dupIn.Some? && event != Some("") then Ok(Reply(s, dupIn))
      else if dupOut.Some? && event != Some("") then Ok(Reply(s, dupOut))
      else
        var open := OpenOf(s.attendance, guard);
        if open.Some? && !forceIn then
          if dupOut.Some? then Err(UniqueViolation)
          else Ok(Reply(PunchedOut(s, open.value, event, env.now), open))
        else if Blocked(s.guards[guard].status) then Ok(Reply(s, None))
        else if dupIn.Some? then Err(UniqueViolation)
        else Ok(Reply(Punched(s, cfg, guard, site, None, event, env), Some(|s.attendance|)))
  }

  // ---------------------------------------------------------------- alertness

  function Scheduled(s: Store, guard: nat, site: string, shift: Option<string>, at: int, env: Env): Result<Reply, Refusal> {
    if guard >= |s.guards| then Err(NotFound)
    else if Blocked(s.guards[guard].status) then Err(GuardBlocked)
    else if !env.granted then Err(NotGranted)
    else Ok(Reply(s.(checks := s.checks + [Check(guard, site, shift, at, SCHEDULED, None, None)]), Some(|s.checks|)))
  }

  predicate Answered(status: CheckStatus) {
    status == CONFIRMED || status == LATE
  }

  function Confirmed(s: Store, cfg: Config, user: string, id: nat, event: Option<string>, env: Env): Result<Reply, Refusal> {
    var dup := if event.Some? then FindCheck(s.checks, event.value) else None;
    if dup.Some? && event != Some("") && Answered(s.checks[dup.value].status) then Ok(Reply(s, dup))
    else
      var guard := GuardOf(s.guards, user);
      if guard.None? then Err(NotAGuard)
      else if id >= |s.checks| || s.checks[id].guard != guard.value then Err(NotFound)
      else
        var c := s.checks[id];
        if Answered(c.status) then Ok(Reply(s, Some(id)))
        else if c.status == MISSED then Err(AlreadyMissed)
        else if c.status == CANCELLED then Err(CheckCancelled)
        else if dup.Some? then Err(UniqueViolation)
        else
          var status := if env.now > c.scheduledAt + cfg.lateGraceMs then LATE else CONFIRMED;
          Ok(Reply(s.(checks := s.checks[id := c.(status := status, confirmedAt := Some(env.now), event := event)]), Some(id)))
  }

  /** Repeating the call on a MISSED check raises no second alert. */
  function MarkedMissed(s: Store, id: nat, granted: bool): Result<Reply, Refusal> {
    if id >= |s.checks| then Err(NotFound)
    else if !granted then Err(NotGranted)
    else if s.checks[id].status == MISSED then Ok(Reply(s, Some(id)))
    else if s.checks[id].status != SCHEDULED then Err(NotScheduled)
    else
      var c := s.checks[id];
      Ok(Reply(s.(checks := s.checks[id := c.(status := MISSED)], alerts := s.alerts + [Alert(c.guard, c.site)]), Some(id)))
  }

  predicate Overdue(c: Check, cutoff: int, sites: set<string>) {
    c.status == SCHEDULED && c.scheduledAt < cutoff && c.site in sites
  }

  const SCAN_LIMIT := 200

  /** What the scan's query may return: the earliest overdue checks in scope, oldest first, at most 200. */
  predicate IsDueList(checks: seq<Check>, cutoff: int, sites: set<string>, due: seq<nat>) {
    && |due| <= SCAN_LIMIT
    && (forall k | 0 <= k < |due| :: due[k] < |checks| && Overdue(checks[due[k]], cutoff, sites))
    && (forall j, k | 0 <= j < k < |due| :: due[j] != due[k] && checks[due[j]].scheduledAt <= checks[due[k]].scheduledAt)
    && (forall i | 0 <= i < |checks| && Overdue(checks[i], cutoff, sites) && i !in due ::
          |due| == SCAN_LIMIT && forall k | 0 <= k < |due| :: checks[due[k]].scheduledAt <= checks[i].scheduledAt)
  }

  function MarkedAll(s: Store, due: seq<nat>): Store
    decreases |due|
  {
    if due == [] then s
    else
      var r := MarkedMissed(s, due[0], true);
      MarkedAll(if r.Ok? then r.value.store else s, due[1..])
  }

  function ScannedMissed(s: Store, cutoff: int, sites: set<string>, due: seq<nat>): Store {
    if IsDueList(s.checks, cutoff, sites, due) then MarkedAll(s, due) else s
  }

  function PatrolScanned(s: Store, user: string, checkpoint: string, event: Option<string>, env: Env): Result<Reply, Refusal> {
    var dup := if event.Some? then FindScan(s.scans, event.value) else None;
    if dup.Some? && event != Some("") then Ok(Reply(s, dup))
    else
      var guard := GuardOf(s.guards, user);
      if guard.None? then Err(NotAGuard)
      else if !env.granted then Err(NotGranted)
      else if dup.Some? then Err(UniqueViolation)
      else Ok(Reply(s.(scans := s.scans + [PatrolScan(guard.value, checkpoint, event)]), Some(|s.scans|)))
  }

  // ---------------------------------------------------------------- guard status

  function NextStatuses(from: GuardStatus): set<GuardStatus> {
    match from
    case ACTIVE => {AVAILABLE, ON_LEAVE, ABSENT, SUSPENDED, TRANSFERRED, TERMINATED}
    case AVAILABLE => {ACTIVE, ON_LEAVE, ABSENT, SUSPENDED, TRANSFERRED, TERMINATED}
    case ON_LEAVE => {ACTIVE, AVAILABLE, ABSENT, SUSPENDED, TERMINATED}
    case ABSENT => {ACTIVE, AVAILABLE, ON_LEAVE, SUSPENDED, TERMINATED}
    case SUSPENDED => {ACTIVE, AVAILABLE, TERMINATED}
    case TRANSFERRED => {ACTIVE, AVAILABLE, TERMINATED}
    case TERMINATED => {}
  }

  function ClosedFor(a: Attendance, guard: nat, now: int): Attendance {
    if a.guard == guard && IsOpen(a) then a.(clockOutAt := Some(now)) else a
  }

  function AllClosedFor(rows: seq<Attendance>, guard: nat, now: int): seq<Attendance> {
    seq(|rows|, i requires 0 <= i < |rows| => ClosedFor(rows[i], guard, now))
  }

  function CancelledFor(c: Check, guard: nat): Check {
    if c.guard == guard && c.status == SCHEDULED then c.(status := CANCELLED) else c
  }

  function AllCancelledFor(rows: seq<Check>, guard: nat): seq<Check> {
    seq(|rows|, i requires 0 <= i < |rows| => CancelledFor(rows[i], guard))
  }

  function WithGuardStatus(s: Store, guard: nat, status: GuardStatus): Store
    requires guard < |s.guards|
  {
    s.(guards := s.guards[guard := s.guards[guard].(status := status)])
  }

  /** Marking a guard ABSENT runs the registered cleanup in the same request. */
  function StatusUpdated(s: Store, guard: nat, status: GuardStatus, env: Env): Result<Reply, Refusal> {
    if guard >= |s.guards| then Err(NotFound)
    else if status == s.guards[guard].status then Ok(Reply(s, Some(guard)))
    else if status !in NextStatuses(s.guards[guard].status) then Err(BadTransition)
    else
      var t := WithGuardStatus(s, guard, status);
      if status != ABSENT then Ok(Reply(t, Some(guard)))
      else Ok(Reply(t.(attendance := AllClosedFor(s.attendance, guard, env.now),
                       checks := AllCancelledFor(s.checks, guard)), Some(guard)))
  }

  // ---------------------------------------------------------------- runs

  datatype Command =
    | Enlist(userId: string)
    | UpdateStatus(guard: nat, status: GuardStatus)
    | Terminate(guard: nat)   // an exit movement, outside the transition table
    | ClockIn(user: string, site: string, shift: Option<string>, event: Option<string>)
    | SupervisorClockIn(guard: nat, site: string, shift: Option<string>)
    | ClockOut(user: string, attendance: nat, event: Option<string>)
    | DevicePunch(guard: nat, site: string, forceIn: bool, event: Option<string>)
    | Schedule(guard: nat, site: string, shift: Option<string>, at: int)
    | Confirm(user: string, check: nat, event: Option<string>)
    | MarkMissed(check: nat)
    | ScanMissed(cutoff: int, sites: set<string>, due: seq<nat>)
    | Patrol(user: string, checkpoint: string, event: Option<string>)

  function Attempt(s: Store, cfg: Config, cmd: Command, env: Env): Result<Reply, Refusal> {
    match cmd
    case Enlist(userId) => Ok(Reply(s.(guards := s.guards + [Guard(userId, ACTIVE)]), Some(|s.guards|)))
    case UpdateStatus(guard, status) => StatusUpdated(s, guard, status, env)
    case Terminate(guard) =>
      if guard < |s.guards| then Ok(Reply(WithGuardStatus(s, guard, TERMINATED), Some(guard))) else Err(NotFound)
    case ClockIn(user, site, shift, event) => ClockedIn(s, cfg, user, site, shift, event, env)
    case SupervisorClockIn(guard, site, shift) => SupervisorClockedIn(s, cfg, guard, site, shift, env)
    case ClockOut(user, id, event) => ClockedOut(s, user, id, event, env)
    case DevicePunch(guard, site, forceIn, event) => DevicePunched(s, cfg, guard, site, forceIn, event, env)
    case Schedule(guard, site, shift, at) => Scheduled(s, guard, site, shift, at, env)
    case Confirm(user, id, event) => Confirmed(s, cfg, user, id, event, env)
    case MarkMissed(id) => MarkedMissed(s, id, env.granted)
    case ScanMissed(cutoff, sites, due) => Ok(Reply(ScannedMissed(s, cutoff, sites, due), None))
    case Patrol(user, checkpoint, event) => PatrolScanned(s, user, checkpoint, event, env)
  }

  /** One request; a refused one changes nothing. */
  function Step(s: Store, cfg: Config, cmd: Command, env: Env): Store {
    var r := Attempt(s, cfg, cmd, env);
    if r.Ok? then r.value.store else s
  }

  function Run(s: Store, cfg: Config, cmds: seq<(Command, Env)>): Store
    decreases |cmds|
  {
    if cmds == [] then s else Run(Step(s, cfg, cmds[0].0, cmds[0].1), cfg, cmds[1..])
  }

  const EMPTY: Store := Store([], [], [], [], [])
}
