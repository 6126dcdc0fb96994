/** The duty services as the backend writes them: objects over one database, updated row by row. */
module DutyServices {
  import opened Wrappers
  import opened DutySchedule
  import opened Duty
  import opened DutyOutcomes

  class Database {
    var guards: seq<Guard>
    var attendance: seq<Attendance>
    var checks: seq<Check>
    var alerts: seq<Alert>
    var scans: seq<PatrolScan>

    ghost function View(): Store
      reads this
    {
      Store(guards, attendance, checks, alerts, scans)
    }

    constructor ()
      ensures View() == EMPTY
    {
      guards, attendance, checks, alerts, scans := [], [], [], [], [];
    }
  }

  /** The rows a handler leaves and the row it answers with, or its refusal with every row as before. */
  ghost predicate Outcome(before: Store, spec: Result<Reply, Refusal>, after: Store, r: Result<Option<nat>, Refusal>) {
    match spec
    case Ok(reply) => after == reply.store && r == Ok(reply.id)
    case Err(e) => after == before && r == Err(e)
  }

  class AlertnessService {
    const db: Database
    const cfg: Config

    constructor (db: Database, cfg: Config)
      ensures this.db == db && this.cfg == cfg
    {
      this.db := db;
      this.cfg := cfg;
    }

    method Schedule(guard: nat, site: string, shift: Option<string>, at: int, env: Env) returns (r: Result<Option<nat>, Refusal>)
      modifies db
      ensures Outcome(old(db.View()), Scheduled(old(db.View()), guard, site, shift, at, env), db.View(), r)
    {
      if guard >= |db.guards| {
        return Err(NotFound);
      }
      if Blocked(db.guards[guard].status) {
        return Err(GuardBlocked);
      }
      if !env.granted {
        return Err(NotGranted);
      }
      r := Ok(Some(|db.checks|));
      db.checks := db.checks + [Check(guard, site, shift, at, SCHEDULED, None, None)];
    }

    /** Whether the query for checks still to come finds any. */
    method HasUpcoming(guard: nat, site: string, shift: Option<string>, after: int) returns (found: bool)
      ensures found <==> exists i | 0 <= i < |db.checks| :: Upcoming(db.checks[i], guard, site, shift, after)
    {
      for i := 0 to |db.checks|
        invariant forall k | 0 <= k < i :: !Upcoming(db.checks[k], guard, site, shift, after)
      {
        if Upcoming(db.checks[i], guard, site, shift, after) {
          return true;
        }
      }
      found := false;
    }

    /** One SCHEDULED check for each time. */
    method CreateChecks(guard: nat, site: string, shift: Option<string>, times: seq<int>)
      modifies db`checks
      ensures db.checks == old(db.checks)
              + seq(|times|, k requires 0 <= k < |times| => Check(guard, site, shift, times[k], SCHEDULED, None, None))
    {
      for i := 0 to |times|
        invariant db.checks == old(db.checks)
                  + seq(i, k requires 0 <= k < i => Check(guard, site, shift, times[k], SCHEDULED, None, None))
      {
        db.checks := db.checks + [Check(guard, site, shift, times[i], SCHEDULED, None, None)];
      }
    }

    /** Skips when switched off, when the guard is blocked, or when checks are already coming up. */
    method ScheduleForDuty(guard: nat, site: string, shift: Option<string>, clockInAt: int, env: Env) returns (scheduled: nat)
      modifies db`checks
      ensures db.checks == old(db.checks) + DutyChecks(old(db.View()), cfg, guard, site, shift, clockInAt, env)
      ensures BringsChecks(old(db.View()), db.checks, cfg, guard, site, shift, clockInAt, env)
      ensures scheduled == |db.checks| - old(|db.checks|) <= HARD_CAP
    {
      DutyChecksAreBrought(db.View(), cfg, guard, site, shift, clockInAt, env);
      if !cfg.autoSchedule || guard >= |db.guards| || Blocked(db.guards[guard].status) {
        return 0;
      }
      var upcoming := HasUpcoming(guard, site, shift, clockInAt);
      if upcoming {
        return 0;
      }
      var windowEnd := clockInAt + cfg.dutyMs;
      if shift.Some? && env.shiftEnd.Some? && env.shiftEnd.value > clockInAt {
        windowEnd := env.shiftEnd.value;
      }
      var times := SlotLoop(clockInAt, windowEnd, cfg.pace, env.draw);
      DutyStaysInside(clockInAt, windowEnd, cfg.pace, env.draw);
      CreateChecks(guard, site, shift, times);
      scheduled := |times|;
    }

    method Confirm(user: string, id: nat, event: Option<string>, env: Env) returns (r: Result<Option<nat>, Refusal>)
      modifies db
      ensures Outcome(old(db.View()), Confirmed(old(db.View()), cfg, user, id, event, env), db.View(), r)
    {
      var dup: Option<nat> := None;
      if event.Some? {
        dup := FindCheck(db.checks, event.value);
        if event.value != "" && dup.Some? && Answered(db.checks[dup.value].status) {
          return Ok(dup);
        }
      }
      var guard := GuardOf(db.guards, user);
      if guard.None? {
        return Err(NotAGuard);
      }
      if id >= |db.checks| || db.checks[id].guard != guard.value {
        return Err(NotFound);
      }
      var check := db.checks[id];
      if Answered(check.status) {
        return Ok(Some(id));
      }
      if check.status == MISSED {
        return Err(AlreadyMissed);
      }
      if check.status == CANCELLED {
        return Err(CheckCancelled);
      }
      if dup.Some? {
        return Err(UniqueViolation);
      }
      var lateAfter := check.scheduledAt + cfg.lateGraceMs;
      var status := if env.now > lateAfter then LATE else CONFIRMED;
      db.checks := db.checks[id := check.(status := status, confirmedAt := Some(env.now), event := event)];
      r := Ok(Some(id));
    }

    method CancelScheduledForGuardAbsent(guard: nat) returns (cancelled: seq<nat>)
      modifies db`checks
      ensures db.checks == AllCancelledFor(old(db.checks), guard)
      ensures forall i :: i in cancelled <==>
                0 <= i < old(|db.checks|) && old(db.checks[i]).guard == guard && old(db.checks[i]).status == SCHEDULED
    {
      cancelled := [];
      for row := 0 to |db.checks|
        invariant |db.checks| == old(|db.checks|)
        invariant forall i | 0 <= i < row :: db.checks[i] == CancelledFor(old(db.checks[i]), guard)
        invariant forall i | row <= i < |db.checks| :: db.checks[i] == old(db.checks[i])
        invariant forall i :: i in cancelled <==>
                    0 <= i < row && old(db.checks[i]).guard == guard && old(db.checks[i]).status == SCHEDULED
      {
        if db.checks[row].guard == guard && db.checks[row].status == SCHEDULED {
          db.checks := db.checks[row := db.checks[row].(status := CANCELLED)];
          cancelled := cancelled + [row];
        }
      }
    }

    method MarkMissed(id: nat, granted: bool) returns (r: Result<Option<nat>, Refusal>)
      modifies db`checks, db`alerts
      ensures Outcome(old(db.View()), MarkedMissed(old(db.View()), id, granted), db.View(), r)
    {
      if id >= |db.checks| {
        return Err(NotFound);
      }
      if !granted {
        return Err(NotGranted);
      }
      var check := db.checks[id];
      if check.status == MISSED {
        return Ok(Some(id));
      }
      if check.status != SCHEDULED {
        return Err(NotScheduled);
      }
      db.checks := db.checks[id := check.(status := MISSED)];
      db.alerts := db.alerts + [Alert(check.guard, check.site)];
      r := Ok(Some(id));
    }

    /** `due` is the answer of the scan's query on the current rows. */
    method ScanMissed(cutoff: int, sites: set<string>, due: seq<nat>) returns (markedMissed: nat)
      requires IsDueList(db.checks, cutoff, sites, due)
      modifies db`checks, db`alerts
      ensures db.View() == ScannedMissed(old(db.View()), cutoff, sites, due)
      ensures markedMissed == |due|
    {
      for i := 0 to |due|
        invariant MarkedAll(old(db.View()), due) == MarkedAll(db.View(), due[i..])
      {
        assert due[i..][1..] == due[i + 1..];
        var r := MarkMissed(due[i], true);
      }
      markedMissed := |due|;
    }
  }

  class AttendanceService {
    const db: Database
    const alertness: AlertnessService

    constructor (db: Database, alertness: AlertnessService)
      ensures this.db == db && this.alertness == alertness
    {
      this.db := db;
      this.alertness := alertness;
    }

    method ClockIn(user: string, site: string, shift: Option<string>, event: Option<string>, env: Env)
      returns (r: Result<Option<nat>, Refusal>)
      requires alertness.db == db
      modifies db
      ensures Outcome(old(db.View()), ClockedIn(old(db.View()), alertness.cfg, user, site, shift, event, env), db.View(), r)
    {
      var dup: Option<nat> := None;
      if event.Some? {
        dup := FindIn(db.attendance, event.value);
        if event.value != "" && dup.Some? {
          return Ok(dup);
        }
      }
      var guard := GuardOf(db.guards, user);
      if guard.None? {
        return Err(NotAGuard);
      }
      if Blocked(db.guards[guard.value].status) {
        return Err(GuardBlocked);
      }
      if !env.granted {
        return Err(NotGranted);
      }
      if dup.Some? {
        return Err(UniqueViolation);
      }
      r := Ok(Some(|db.attendance|));
      db.attendance := db.attendance + [Attendance(guard.value, site, shift, env.now, None, event, None)];
      var scheduled := alertness.ScheduleForDuty(guard.value, site, shift, env.now, env);
    }

    method SupervisorClockIn(guard: nat, site: string, shift: Option<string>, env: Env) returns (r: Result<Option<nat>, Refusal>)
      requires alertness.db == db
      modifies db
      ensures Outcome(old(db.View()), SupervisorClockedIn(old(db.View()), alertness.cfg, guard, site, shift, env), db.View(), r)
    {
      if guard >= |db.guards| {
        return Err(NotFound);
      }
      if Blocked(db.guards[guard].status) {
        return Err(GuardBlocked);
      }
      if !env.granted {
        return Err(NotGranted);
      }
      var open := OpenOf(db.attendance, guard);
      if open.Some? {
        return Err(OpenAttendanceExists);
      }
      r := Ok(Some(|db.attendance|));
      db.attendance := db.attendance + [Attendance(guard, site, shift, env.now, None, None, None)];
      var scheduled := alertness.ScheduleForDuty(guard, site, shift, env.now, env);
    }

    method ClockOut(user: string, id: nat, event: Option<string>, env: Env) returns (r: Result<Option<nat>, Refusal>)
      modifies db
      ensures Outcome(old(db.View()), ClockedOut(old(db.View()), user, id, event, env), db.View(), r)
    {
      var dup: Option<nat> := None;
      if event.Some? {
        dup := FindOut(db.attendance, event.value);
        if event.value != "" && dup.Some? {
          return Ok(dup);
        }
      }
      var guard := GuardOf(db.guards, user);
      if guard.None? {
        return Err(NotAGuard);
      }
      if id >= |db.attendance| || db.attendance[id].guard != guard.value {
        return Err(NotFound);
      }
      if !IsOpen(db.attendance[id]) {
        return Err(AlreadyClockedOut);
      }
      if dup.Some? {
        return Err(UniqueViolation);
      }
      db.attendance := db.attendance[id := db.attendance[id].(clockOutAt := Some(env.now), outEvent := event)];
      r := Ok(Some(id));
    }

    method CloseOpenForGuardAbsent(guard: nat, now: int) returns (closed: seq<nat>)
      modifies db`attendance
      ensures db.attendance == AllClosedFor(old(db.attendance), guard, now)
      ensures forall i :: i in closed <==>
                0 <= i < old(|db.attendance|) && old(db.attendance[i]).guard == guard && IsOpen(old(db.attendance[i]))
    {
      closed := [];
      for row := 0 to |db.attendance|
        invariant |db.attendance| == old(|db.attendance|)
        invariant forall i | 0 <= i < row :: db.attendance[i] == ClosedFor(old(db.attendance[i]), guard, now)
        invariant forall i | row <= i < |db.attendance| :: db.attendance[i] == old(db.attendance[i])
        invariant forall i :: i in closed <==>
                    0 <= i < row && old(db.attendance[i]).guard == guard && IsOpen(old(db.attendance[i]))
      {
        if db.attendance[row].guard == guard && IsOpen(db.attendance[row]) {
          db.attendance := db.attendance[row := db.attendance[row].(clockOutAt := Some(now))];
          closed := closed + [row];
        }
      }
    }

    method IngestDevicePunch(guard: nat, site: string, forceIn: bool, event: Option<string>, env: Env)
      returns (r: Result<Option<nat>, Refusal>)
      requires alertness.db == db
      modifies db
      ensures Outcome(old(db.View()), DevicePunched(old(db.View()), alertness.cfg, guard, site, forceIn, event, env), db.View(), r)
    {
      if guard >= |db.guards| {
        return Ok(None);
      }
      var dupIn: Option<nat>, dupOut: Option<nat> := None, None;
      if event.Some? {
        dupIn, dupOut := FindIn(db.attendance, event.value), FindOut(db.attendance, event.value);
        if event.value != "" && dupIn.Some? {
          return Ok(dupIn);
        }
        if event.value != "" && dupOut.Some? {
          return Ok(dupOut);
        }
      }
      var open := OpenOf(db.attendance, guard);
      if open.Some? && !forceIn {
        if dupOut.Some? {
          return Err(UniqueViolation);
        }
        db.attendance := db.attendance[open.value :=
          db.attendance[open.value].(clockOutAt := Some(env.now), outEvent := event)];
        return Ok(open);
      }
      if Blocked(db.guards[guard].status) {
        return Ok(None);
      }
      if dupIn.Some? {
        return Err(UniqueViolation);
      }
      r := Ok(Some(|db.attendance|));
      db.attendance := db.attendance + [Attendance(guard, site, None, env.now, None, event, None)];
      var scheduled := alertness.ScheduleForDuty(guard, site, None, env.now, env);
      assert db.View() == Punched(old(db.View()), alertness.cfg, guard, site, None, event, env);
    }
  }

  class PatrolService {
    const db: Database

    constructor (db: Database)
      ensures this.db == db
    {
      this.db := db;
    }

    method Scan(user: string, checkpoint: string, event: Option<string>, env: Env) returns (r: Result<Option<nat>, Refusal>)
      modifies db
      ensures Outcome(old(db.View()), PatrolScanned(old(db.View()), user, checkpoint, event, env), db.View(), r)
    {
      var dup: Option<nat> := None;
      if event.Some? {
        dup := FindScan(db.scans, event.value);
        if event.value != "" && dup.Some? {
          return Ok(dup);
        }
      }
      var guard := GuardOf(db.guards, user);
      if guard.None? {
        return Err(NotAGuard);
      }
      if !env.granted {
        return Err(NotGranted);
      }
      if dup.Some? {
        return Err(UniqueViolation);
      }
      r := Ok(Some(|db.scans|));
      db.scans := db.scans + [PatrolScan(guard.value, checkpoint, event)];
    }
  }

  /** The status route, with the cleanup that the ABSENT bridge registers on it. */
  class GuardsService {
    const db: Database
    const attendance: AttendanceService
    const alertness: AlertnessService

    constructor (db: Database, attendance: AttendanceService, alertness: AlertnessService)
      ensures this.db == db && this.attendance == attendance && this.alertness == alertness
    {
      this.db := db;
      this.attendance := attendance;
      this.alertness := alertness;
    }

    method UpdateStatus(guard: nat, status: GuardStatus, env: Env) returns (r: Result<Option<nat>, Refusal>)
      requires attendance.db == db && alertness.db == db
      modifies db
      ensures Outcome(old(db.View()), StatusUpdated(old(db.View()), guard, status, env), db.View(), r)
    {
      if guard >= |db.guards| {
        return Err(NotFound);
      }
      if status == db.guards[guard].status {
        return Ok(Some(guard));
      }
      if status !in NextStatuses(db.guards[guard].status) {
        return Err(BadTransition);
      }
      db.guards := db.guards[guard := db.guards[guard].(status := status)];
      if status == ABSENT {
        AbsentDutyCleanup(guard, env.now);
      }
      r := Ok(Some(guard));
    }

    method AbsentDutyCleanup(guard: nat, now: int)
      requires attendance.db == db && alertness.db == db
      modifies db`attendance, db`checks
      ensures db.attendance == AllClosedFor(old(db.attendance), guard, now)
      ensures db.checks == AllCancelledFor(old(db.checks), guard)
    {
      var closed := attendance.CloseOpenForGuardAbsent(guard, now);
      var cancelled := alertness.CancelScheduledForGuardAbsent(guard);
    }
  }
}
