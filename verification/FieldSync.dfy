/** backend/libs/attendance, `syncBatch`: replaying offline events must be safe. */
module FieldSync {
  import opened Wrappers
  import opened Duty
  import opened DutyServices
  import opened DutyTheorems

  datatype Kind =
    | CLOCK_IN(site: string, shift: Option<string>)
    | CLOCK_OUT(attendance: nat)
    | ALERTNESS_CONFIRM(check: nat)
    | PATROL_SCAN(checkpoint: string)
    | UNKNOWN(name: string)

  datatype Event = Event(kind: Kind, clientEventId: string)

  datatype SyncStatus = ACCEPTED | DUPLICATE | REJECTED_EVENT

  datatype SyncResult = SyncResult(clientEventId: string, status: SyncStatus, serverId: Option<nat>)

  // ---------------------------------------------------------------- one event

  /** The service call an event stands for; an unknown type has none. */
  function Call(user: string, e: Event): Option<Command> {
    var id := Some(e.clientEventId);
    match e.kind
    case CLOCK_IN(site, shift) => Some(ClockIn(user, site, shift, id))
    case CLOCK_OUT(attendance) => Some(ClockOut(user, attendance, id))
    case ALERTNESS_CONFIRM(check) => Some(Confirm(user, check, id))
    case PATROL_SCAN(checkpoint) => Some(Patrol(user, checkpoint, id))
    case UNKNOWN(_) => None
  }

  /** A unique-constraint failure is reported as DUPLICATE, any other refusal as REJECTED. */
  function Report(e: Event, r: Result<Option<nat>, Refusal>): SyncResult {
    match r
    case Ok(id) => SyncResult(e.clientEventId, ACCEPTED, id)
    case Err(UniqueViolation) => SyncResult(e.clientEventId, DUPLICATE, None)
    case Err(_) => SyncResult(e.clientEventId, REJECTED_EVENT, None)
  }

  function Handled(s: Store, cfg: Config, user: string, e: Event, env: Env): (Store, SyncResult) {
    var call := Call(user, e);
    if call.None? then (s, SyncResult(e.clientEventId, REJECTED_EVENT, None))
    else
      var r := Attempt(s, cfg, call.value, env);
      match r
      case Ok(reply) => (reply.store, Report(e, Ok(reply.id)))
      case Err(refusal) => (s, Report(e, Err(refusal)))
  }

  /** How a service's answer is reported: its row if it accepted, DUPLICATE exactly for the unique constraint, else REJECTED. */
  predicate Told(outcome: Result<Reply, Refusal>, s: Store, t: Store, r: SyncResult) {
    match outcome
    case Ok(reply) => t == reply.store && r.status == ACCEPTED && r.serverId == reply.id
    case Err(e) => t == s && r.serverId == None && r.status == if e == UniqueViolation then DUPLICATE else REJECTED_EVENT
  }

  /** Each event reaches the service of its type with its own data and id, for the user who sent the batch. */
  lemma HandledOutcome(s: Store, cfg: Config, user: string, e: Event, env: Env)
    ensures var (t, r) := Handled(s, cfg, user, e, env);
            && r.clientEventId == e.clientEventId
            && match e.kind
               case CLOCK_IN(site, shift) => Told(ClockedIn(s, cfg, user, site, shift, Some(e.clientEventId), env), s, t, r)
               case CLOCK_OUT(id) => Told(ClockedOut(s, user, id, Some(e.clientEventId), env), s, t, r)
               case ALERTNESS_CONFIRM(check) => Told(Confirmed(s, cfg, user, check, Some(e.clientEventId), env), s, t, r)
               case PATROL_SCAN(checkpoint) => Told(PatrolScanned(s, user, checkpoint, Some(e.clientEventId), env), s, t, r)
               case UNKNOWN(_) => t == s && r.status == REJECTED_EVENT && r.serverId == None
  {
  }

  /** A batch: one event after the other, whatever became of the earlier ones. */
  function Synced(s: Store, cfg: Config, user: string, events: seq<Event>, envs: seq<Env>): (Store, seq<SyncResult>)
    requires |envs| == |events|
    decreases |events|
  {
    if events == [] then (s, [])
    else
      var (s1, first) := Handled(s, cfg, user, events[0], envs[0]);
      var (s2, rest) := Synced(s1, cfg, user, events[1..], envs[1..]);
      (s2, [first] + rest)
  }

  lemma SyncedUnfolds(s: Store, cfg: Config, user: string, events: seq<Event>, envs: seq<Env>, i: nat, before: seq<SyncResult>)
    requires |envs| == |events| && i < |events|
    ensures var (t, result) := Handled(s, cfg, user, events[i], envs[i]);
            var rest := Synced(t, cfg, user, events[i + 1..], envs[i + 1..]);
            var whole := Synced(s, cfg, user, events[i..], envs[i..]);
            whole.0 == rest.0 && before + whole.1 == (before + [result]) + rest.1
  {
    assert events[i..][1..] == events[i + 1..] && envs[i..][1..] == envs[i + 1..];
  }

  class FieldSyncService {
    const db: Database
    const attendance: AttendanceService
    const alertness: AlertnessService
    const patrol: PatrolService

    ghost predicate Wired() {
      attendance.db == db && alertness.db == db && patrol.db == db && attendance.alertness == alertness
    }

    constructor (db: Database, attendance: AttendanceService, alertness: AlertnessService, patrol: PatrolService)
      ensures this.db == db && this.attendance == attendance && this.alertness == alertness && this.patrol == patrol
    {
      this.db := db;
      this.attendance := attendance;
      this.alertness := alertness;
      this.patrol := patrol;
    }

    method Dispatch(user: string, event: Event, env: Env) returns (result: SyncResult)
      requires Wired()
      modifies db
      ensures (db.View(), result) == Handled(old(db.View()), alertness.cfg, user, event, env)
    {
      var id := Some(event.clientEventId);
      var r: Result<Option<nat>, Refusal>;
      match event.kind {
        case CLOCK_IN(site, shift) => r := attendance.ClockIn(user, site, shift, id, env);
        case CLOCK_OUT(row) => r := attendance.ClockOut(user, row, id, env);
        case ALERTNESS_CONFIRM(check) => r := alertness.Confirm(user, check, id, env);
        case PATROL_SCAN(checkpoint) => r := patrol.Scan(user, checkpoint, id, env);
        case UNKNOWN(_) =>
          return SyncResult(event.clientEventId, REJECTED_EVENT, None);
      }
      result := Report(event, r);
    }

    method SyncBatch(user: string, events: seq<Event>, envs: seq<Env>) returns (results: seq<SyncResult>)
      requires Wired() && |envs| == |events|
      modifies db
      ensures (db.View(), results) == Synced(old(db.View()), alertness.cfg, user, events, envs)
      ensures |results| == |events|
      ensures forall i | 0 <= i < |events| :: results[i].clientEventId == events[i].clientEventId
    {
      results := [];
      assert events[0..] == events && envs[0..] == envs;
      ghost var whole := Synced(db.View(), alertness.cfg, user, events, envs);
      assert [] + whole.1 == whole.1;
      for i := 0 to |events|
        invariant |results| == i
        invariant forall k | 0 <= k < i :: results[k].clientEventId == events[k].clientEventId
        invariant var done := Synced(db.View(), alertness.cfg, user, events[i..], envs[i..]);
                  whole == (done.0, results + done.1)
      {
        SyncedUnfolds(db.View(), alertness.cfg, user, events, envs, i, results);
        var result := Dispatch(user, events[i], envs[i]);
        results := results + [result];
      }
      assert results + [] == results;
    }
  }

  lemma {:induction false} OneResultPerEvent(s: Store, cfg: Config, user: string, events: seq<Event>, envs: seq<Env>)
    requires |envs| == |events|
    ensures var results := Synced(s, cfg, user, events, envs).1;
            |results| == |events| && forall i | 0 <= i < |events| :: results[i].clientEventId == events[i].clientEventId
    decreases |events|
  {
    if events != [] {
      OneResultPerEvent(Handled(s, cfg, user, events[0], envs[0]).0, cfg, user, events[1..], envs[1..]);
    }
  }

  /** The service calls of a batch, in order. */
  function Calls(user: string, events: seq<Event>, envs: seq<Env>): seq<(Command, Env)>
    requires |envs| == |events|
    decreases |events|
  {
    if events == [] then []
    else
      var call := Call(user, events[0]);
      (if call.Some? then [(call.value, envs[0])] else []) + Calls(user, events[1..], envs[1..])
  }

  /** A batch is a run like any other, so whatever every run keeps, batches keep. */
  lemma {:induction false} BatchIsARun(s: Store, cfg: Config, user: string, events: seq<Event>, envs: seq<Env>)
    requires |envs| == |events|
    ensures Synced(s, cfg, user, events, envs).0 == Run(s, cfg, Calls(user, events, envs))
    decreases |events|
  {
    if events != [] {
      var call, rest := Call(user, events[0]), Calls(user, events[1..], envs[1..]);
      BatchIsARun(Handled(s, cfg, user, events[0], envs[0]).0, cfg, user, events[1..], envs[1..]);
      if call.Some? {
        assert ([(call.value, envs[0])] + rest)[1..] == rest;
      } else {
        assert [] + rest == rest;
      }
    }
  }

  // ---------------------------------------------------------------- event ids stay where they were put

  /** Open punches carry no clock-out event, unanswered checks no event, and no event answers two checks. */
  ghost predicate Tidy(s: Store) {
    && (forall i | 0 <= i < |s.attendance| && IsOpen(s.attendance[i]) :: s.attendance[i].outEvent == None)
    && (forall i | 0 <= i < |s.checks| && !Answered(s.checks[i].status) :: s.checks[i].event == None)
    && (forall i, j | 0 <= i < j < |s.checks| && s.checks[i].event.Some? :: s.checks[i].event != s.checks[j].event)
  }

  lemma {:induction false} FindSame<T>(rows: seq<T>, more: seq<T>, column: T -> Option<string>, event: string)
    requires |rows| <= |more|
    requires forall i | 0 <= i < |rows| :: column(more[i]) == Some(event) <==> column(rows[i]) == Some(event)
    requires forall i | |rows| <= i < |more| :: column(more[i]) != Some(event)
    ensures Find(more, column, event) == Find(rows, column, event)
    decreases |more|
  {
    if |more| > |rows| {
      FindSame(rows, more[..|more| - 1], column, event);
    } else if more != [] {
      FindSame(rows[..|rows| - 1], more[..|more| - 1], column, event);
    }
  }

  /** Wherever a lookup by this event id answered before, it answers the same now. */
  ghost predicate Remembers(s: Store, t: Store, event: string) {
    && (FindIn(s.attendance, event).Some? ==> FindIn(t.attendance, event) == FindIn(s.attendance, event))
    && (FindOut(s.attendance, event).Some? ==> FindOut(t.attendance, event) == FindOut(s.attendance, event))
    && (FindCheck(s.checks, event).Some? ==> FindCheck(t.checks, event) == FindCheck(s.checks, event))
    && (FindScan(s.scans, event).Some? ==> FindScan(t.scans, event) == FindScan(s.scans, event))
  }

  lemma MarkedAllTidy(s: Store, due: seq<nat>)
    requires Tidy(s)
    ensures Tidy(MarkedAll(s, due))
    ensures forall event :: FindCheck(MarkedAll(s, due).checks, event) == FindCheck(s.checks, event)
  {
    MarkedAllEvolves(s, due);
    var t := MarkedAll(s, due);
    forall event ensures FindCheck(t.checks, event) == FindCheck(s.checks, event) {
      FindSame(s.checks, t.checks, CheckEvent, event);
    }
  }

  lemma PunchedTidy(s: Store, cfg: Config, guard: nat, site: string, shift: Option<string>, id: Option<string>, env: Env)
    requires Tidy(s)
    ensures Tidy(Punched(s, cfg, guard, site, shift, id, env))
  {
  }

  lemma PunchedRemembers(s: Store, cfg: Config, guard: nat, site: string, shift: Option<string>, id: Option<string>, env: Env, event: string)
    requires Tidy(s) && (id.Some? ==> FindIn(s.attendance, id.value).None?)
    ensures var t := Punched(s, cfg, guard, site, shift, id, env); Tidy(t) && Remembers(s, t, event)
  {
    var t := Punched(s, cfg, guard, site, shift, id, env);
    PunchedTidy(s, cfg, guard, site, shift, id, env);
    if id != Some(event) { FindSame(s.attendance, t.attendance, InEvent, event); }
    FindSame(s.attendance, t.attendance, OutEvent, event);
    FindSame(s.checks, t.checks, CheckEvent, event);
  }

  lemma PunchedOutRemembers(s: Store, row: nat, id: Option<string>, now: int, event: string)
    requires Tidy(s) && row < |s.attendance| && IsOpen(s.attendance[row])
    requires id.Some? ==> FindOut(s.attendance, id.value).None?
    ensures var t := PunchedOut(s, row, id, now); Tidy(t) && Remembers(s, t, event)
  {
    var t := PunchedOut(s, row, id, now);
    FindSame(s.attendance, t.attendance, InEvent, event);
    if id != Some(event) { FindSame(s.attendance, t.attendance, OutEvent, event); }
  }

  lemma ConfirmedRemembers(s: Store, cfg: Config, user: string, row: nat, id: Option<string>, env: Env, event: string)
    requires Tidy(s) && Confirmed(s, cfg, user, row, id, env).Ok?
    ensures var t := Confirmed(s, cfg, user, row, id, env).value.store; Tidy(t) && Remembers(s, t, event)
  {
    var t := Confirmed(s, cfg, user, row, id, env).value.store;
    if t != s && id != Some(event) {
      FindSame(s.checks, t.checks, CheckEvent, event);
    }
  }

  lemma ClosedForKeepsEvents(rows: seq<Attendance>, guard: nat, now: int, event: string)
    ensures FindIn(AllClosedFor(rows, guard, now), event) == FindIn(rows, event)
    ensures FindOut(AllClosedFor(rows, guard, now), event) == FindOut(rows, event)
  {
    FindSame(rows, AllClosedFor(rows, guard, now), InEvent, event);
    FindSame(rows, AllClosedFor(rows, guard, now), OutEvent, event);
  }

  lemma CancelledForKeepsEvents(rows: seq<Check>, guard: nat, event: string)
    ensures FindCheck(AllCancelledFor(rows, guard), event) == FindCheck(rows, event)
  {
    FindSame(rows, AllCancelledFor(rows, guard), CheckEvent, event);
  }

  lemma AbsenceTidy(s: Store, guard: nat, now: int)
    requires Tidy(s)
    ensures Tidy(s.(attendance := AllClosedFor(s.attendance, guard, now), checks := AllCancelledFor(s.checks, guard)))
  {
    var t := s.(attendance := AllClosedFor(s.attendance, guard, now), checks := AllCancelledFor(s.checks, guard));
    assert forall i | 0 <= i < |s.checks| :: t.checks[i].event == s.checks[i].event;
  }

  lemma AbsenceRemembers(s: Store, guard: nat, env: Env, event: string)
    requires Tidy(s) && StatusUpdated(s, guard, ABSENT, env).Ok?
    ensures var t := StatusUpdated(s, guard, ABSENT, env).value.store; Tidy(t) && Remembers(s, t, event)
  {
    if StatusUpdated(s, guard, ABSENT, env).value.store != s {
      ClosedForKeepsEvents(s.attendance, guard, env.now, event);
      CancelledForKeepsEvents(s.checks, guard, event);
      AbsenceTidy(s, guard, env.now);
    }
  }

  lemma ScheduledRemembers(s: Store, guard: nat, site: string, shift: Option<string>, at: int, env: Env, event: string)
    requires Tidy(s) && Scheduled(s, guard, site, shift, at, env).Ok?
    ensures var t := Scheduled(s, guard, site, shift, at, env).value.store; Tidy(t) && Remembers(s, t, event)
  {
    FindSame(s.checks, Scheduled(s, guard, site, shift, at, env).value.store.checks, CheckEvent, event);
  }

  lemma MarkedMissedRemembers(s: Store, id: nat, granted: bool, event: string)
    requires Tidy(s) && MarkedMissed(s, id, granted).Ok?
    ensures var t := MarkedMissed(s, id, granted).value.store; Tidy(t) && Remembers(s, t, event)
  {
    FindSame(s.checks, MarkedMissed(s, id, granted).value.store.checks, CheckEvent, event);
  }

  lemma PatrolRemembers(s: Store, user: string, checkpoint: string, id: Option<string>, env: Env, event: string)
    requires Tidy(s) && PatrolScanned(s, user, checkpoint, id, env).Ok?
    ensures var t := PatrolScanned(s, user, checkpoint, id, env).value.store; Tidy(t) && Remembers(s, t, event)
  {
    var t := PatrolScanned(s, user, checkpoint, id, env).value.store;
    if t != s && id != Some(event) { FindSame(s.scans, t.scans, ScanEvent, event); }
  }

  lemma DevicePunchRemembers(s: Store, cfg: Config, guard: nat, site: string, forceIn: bool, id: Option<string>, env: Env, event: string)
    requires Tidy(s) && DevicePunched(s, cfg, guard, site, forceIn, id, env).Ok?
    ensures var t := DevicePunched(s, cfg, guard, site, forceIn, id, env).value.store; Tidy(t) && Remembers(s, t, event)
  {
    var t := DevicePunched(s, cfg, guard, site, forceIn, id, env).value.store;
    if t != s {
      var open := OpenOf(s.attendance, guard);
      if open.Some? && !forceIn { PunchedOutRemembers(s, open.value, id, env.now, event); }
      else { PunchedRemembers(s, cfg, guard, site, None, id, env, event); }
    }
  }

  lemma ClockInRemembers(s: Store, cfg: Config, user: string, site: string, shift: Option<string>, id: Option<string>, env: Env, event: string)
    requires Tidy(s) && ClockedIn(s, cfg, user, site, shift, id, env).Ok?
    ensures var t := ClockedIn(s, cfg, user, site, shift, id, env).value.store; Tidy(t) && Remembers(s, t, event)
  {
    if ClockedIn(s, cfg, user, site, shift, id, env).value.store != s {
      PunchedRemembers(s, cfg, GuardOf(s.guards, user).value, site, shift, id, env, event);
    }
  }

  lemma ClockOutRemembers(s: Store, user: string, row: nat, id: Option<string>, env: Env, event: string)
    requires Tidy(s) && ClockedOut(s, user, row, id, env).Ok?
    ensures var t := ClockedOut(s, user, row, id, env).value.store; Tidy(t) && Remembers(s, t, event)
  {
    if ClockedOut(s, user, row, id, env).value.store != s {
      PunchedOutRemembers(s, row, id, env.now, event);
    }
  }

  lemma StepRemembers(s: Store, cfg: Config, cmd: Command, env: Env, event: string)
    requires Tidy(s)
    ensures Tidy(Step(s, cfg, cmd, env)) && Remembers(s, Step(s, cfg, cmd, env), event)
  {
    var r := Attempt(s, cfg, cmd, env);
    if r.Err? { return; }
    match cmd
    case ClockIn(user, site, shift, id) => ClockInRemembers(s, cfg, user, site, shift, id, env, event);
    case SupervisorClockIn(guard, site, shift) => PunchedRemembers(s, cfg, guard, site, shift, None, env, event);
    case DevicePunch(guard, site, forceIn, id) => DevicePunchRemembers(s, cfg, guard, site, forceIn, id, env, event);
    case ClockOut(user, row, id) => ClockOutRemembers(s, user, row, id, env, event);
    case Confirm(user, row, id) => ConfirmedRemembers(s, cfg, user, row, id, env, event);
    case UpdateStatus(guard, status) => if status == ABSENT { AbsenceRemembers(s, guard, env, event); }
    case Schedule(guard, site, shift, at) => ScheduledRemembers(s, guard, site, shift, at, env, event);
    case MarkMissed(id) => MarkedMissedRemembers(s, id, env.granted, event);
    case ScanMissed(_, _, due) =>
      MarkedAllTidy(s, due);
      MarkedAllEvolves(s, due);
    case Patrol(user, checkpoint, id) => PatrolRemembers(s, user, checkpoint, id, env, event);
    case Enlist(_) =>
    case Terminate(_) =>
  }

  // ---------------------------------------------------------------- accepted once, settled for good

  /** The rows already say what the event would say: its id leads to row `id`, or the check it names is answered. */
  ghost predicate Settled(s: Store, user: string, e: Event, id: Option<nat>) {
    match e.kind
    case CLOCK_IN(_, _) => id.Some? && FindIn(s.attendance, e.clientEventId) == id
    case CLOCK_OUT(_) => id.Some? && FindOut(s.attendance, e.clientEventId) == id
    case PATROL_SCAN(_) => id.Some? && FindScan(s.scans, e.clientEventId) == id
    case ALERTNESS_CONFIRM(check) =>
      id.Some? && id.value < |s.checks|
      && ((e.clientEventId != "" && FindCheck(s.checks, e.clientEventId) == id)
          || (id == Some(check) && Answered(s.checks[check].status) && GuardOf(s.guards, user) == Some(s.checks[check].guard)))
    case UNKNOWN(_) => false
  }

  lemma LastFound<T>(rows: seq<T>, row: T, column: T -> Option<string>, event: string)
    requires column(row) == Some(event)
    ensures Find(rows + [row], column, event) == Some(|rows|)
  {
  }

  lemma {:induction false} UpdatedFound<T>(rows: seq<T>, i: nat, row: T, column: T -> Option<string>, event: string)
    requires i < |rows| && column(row) == Some(event)
    requires forall k | 0 <= k < |rows| :: column(rows[k]) != Some(event)
    ensures Find(rows[i := row], column, event) == Some(i)
    decreases |rows|
  {
    var last := |rows| - 1;
    if i < last {
      assert rows[i := row][..last] == rows[..last][i := row];
      UpdatedFound(rows[..last], i, row, column, event);
    }
  }

  lemma ClockInSettles(s: Store, cfg: Config, user: string, site: string, shift: Option<string>, event: string, env: Env)
    requires ClockedIn(s, cfg, user, site, shift, Some(event), env).Ok?
    ensures var reply := ClockedIn(s, cfg, user, site, shift, Some(event), env).value;
            reply.id.Some? && FindIn(reply.store.attendance, event) == reply.id
  {
    var t := ClockedIn(s, cfg, user, site, shift, Some(event), env).value.store;
    if t != s { LastFound(s.attendance, t.attendance[|s.attendance|], InEvent, event); }
  }

  lemma ClockOutSettles(s: Store, user: string, row: nat, event: string, env: Env)
    requires ClockedOut(s, user, row, Some(event), env).Ok?
    ensures var reply := ClockedOut(s, user, row, Some(event), env).value;
            reply.id.Some? && FindOut(reply.store.attendance, event) == reply.id
  {
    var t := ClockedOut(s, user, row, Some(event), env).value.store;
    if t != s { UpdatedFound(s.attendance, row, t.attendance[row], OutEvent, event); }
  }

  lemma PatrolSettles(s: Store, user: string, checkpoint: string, event: string, env: Env)
    requires PatrolScanned(s, user, checkpoint, Some(event), env).Ok?
    ensures var reply := PatrolScanned(s, user, checkpoint, Some(event), env).value;
            reply.id.Some? && FindScan(reply.store.scans, event) == reply.id
  {
    var t := PatrolScanned(s, user, checkpoint, Some(event), env).value.store;
    if t != s { LastFound(s.scans, t.scans[|s.scans|], ScanEvent, event); }
  }

  lemma AcceptedIsSettled(s: Store, cfg: Config, user: string, e: Event, env: Env)
    requires Tidy(s) && Handled(s, cfg, user, e, env).1.status == ACCEPTED
    ensures Settled(Handled(s, cfg, user, e, env).0, user, e, Handled(s, cfg, user, e, env).1.serverId)
  {
    match e.kind
    case CLOCK_IN(site, shift) => ClockInSettles(s, cfg, user, site, shift, e.clientEventId, env);
    case CLOCK_OUT(row) => ClockOutSettles(s, user, row, e.clientEventId, env);
    case PATROL_SCAN(checkpoint) => PatrolSettles(s, user, checkpoint, e.clientEventId, env);
    case _ =>
  }

  lemma {:induction false} GuardStays(guards: seq<Guard>, more: seq<Guard>, user: string)
    requires |guards| <= |more| && forall i | 0 <= i < |guards| :: more[i].userId == guards[i].userId
    requires GuardOf(guards, user).Some?
    ensures GuardOf(more, user) == GuardOf(guards, user)
  {
    if guards[0].userId != user { GuardStays(guards[1..], more[1..], user); }
  }

  lemma StaysSettled(s: Store, t: Store, user: string, e: Event, id: Option<nat>)
    requires Settled(s, user, e, id) && Evolves(s, t) && Remembers(s, t, e.clientEventId)
    ensures Settled(t, user, e, id)
  {
    if e.kind.ALERTNESS_CONFIRM? && (e.clientEventId == "" || FindCheck(s.checks, e.clientEventId) != id) {
      assert CheckEvolves(s.checks[e.kind.check], t.checks[e.kind.check]);
      GuardStays(s.guards, t.guards, user);
    }
  }

  lemma {:induction false} RunStaysSettled(s: Store, cfg: Config, cmds: seq<(Command, Env)>, user: string, e: Event, id: Option<nat>)
    requires Tidy(s) && Settled(s, user, e, id)
    ensures Tidy(Run(s, cfg, cmds)) && Settled(Run(s, cfg, cmds), user, e, id)
    decreases |cmds|
  {
    if cmds != [] {
      var s1 := Step(s, cfg, cmds[0].0, cmds[0].1);
      StepEvolves(s, cfg, cmds[0].0, cmds[0].1);
      StepRemembers(s, cfg, cmds[0].0, cmds[0].1, e.clientEventId);
      StaysSettled(s, s1, user, e, id);
      RunStaysSettled(s1, cfg, cmds[1..], user, e, id);
    }
  }

  lemma {:induction false} RunTidy(s: Store, cfg: Config, cmds: seq<(Command, Env)>)
    requires Tidy(s)
    ensures Tidy(Run(s, cfg, cmds))
    decreases |cmds|
  {
    if cmds != [] {
      StepRemembers(s, cfg, cmds[0].0, cmds[0].1, "");
      RunTidy(Step(s, cfg, cmds[0].0, cmds[0].1), cfg, cmds[1..]);
    }
  }

  /** No check other than `id` carries the event id; only a confirmation looks there. */
  ghost predicate OwnEventId(s: Store, e: Event, id: Option<nat>) {
    e.kind.ALERTNESS_CONFIRM? ==>
      forall i | 0 <= i < |s.checks| && s.checks[i].event == Some(e.clientEventId) :: id == Some(i)
  }

  /** The id still leads to the row it led to; the empty id is never looked up, only the check itself is. */
  ghost predicate Recognised(s: Store, e: Event, id: Option<nat>) {
    if e.clientEventId != "" then OwnEventId(s, e, id) else e.kind.ALERTNESS_CONFIRM?
  }

  lemma ConfirmationReplaysIff(s: Store, cfg: Config, user: string, e: Event, id: Option<nat>, env: Env)
    requires Tidy(s) && Settled(s, user, e, id) && e.kind.ALERTNESS_CONFIRM?
    ensures Handled(s, cfg, user, e, env).1 == SyncResult(e.clientEventId, ACCEPTED, id) <==> Recognised(s, e, id)
    ensures Recognised(s, e, id) ==> Handled(s, cfg, user, e, env).0 == s
  {
    var found := FindCheck(s.checks, e.clientEventId);
    if found.Some? {
      assert s.checks[found.value].event == Some(e.clientEventId);
      assert Answered(s.checks[found.value].status);
    }
  }

  lemma PunchReplaysIff(s: Store, cfg: Config, user: string, e: Event, id: Option<nat>, env: Env)
    requires Settled(s, user, e, id) && !e.kind.ALERTNESS_CONFIRM?
    ensures Handled(s, cfg, user, e, env).1 == SyncResult(e.clientEventId, ACCEPTED, id) <==> Recognised(s, e, id)
    ensures Recognised(s, e, id) ==> Handled(s, cfg, user, e, env).0 == s
  {
  }

  /** A settled event, sent again, gets the same answer exactly while it is recognised, and then changes nothing. */
  lemma SettledReplaysIff(s: Store, cfg: Config, user: string, e: Event, id: Option<nat>, env: Env)
    requires Tidy(s) && Settled(s, user, e, id)
    ensures Handled(s, cfg, user, e, env).1 == SyncResult(e.clientEventId, ACCEPTED, id) <==> Recognised(s, e, id)
    ensures Recognised(s, e, id) ==> Handled(s, cfg, user, e, env).0 == s
  {
    if e.kind.ALERTNESS_CONFIRM? {
      ConfirmationReplaysIff(s, cfg, user, e, id, env);
    } else {
      PunchReplaysIff(s, cfg, user, e, id, env);
    }
  }

  /** An accepted clock-in, clock-out or patrol event without an id is never accepted again. */
  lemma EmptyIdIsNeverAcceptedAgain(s: Store, cfg: Config, user: string, e: Event, id: Option<nat>, env: Env)
    requires Settled(s, user, e, id) && e.clientEventId == "" && !e.kind.ALERTNESS_CONFIRM?
    ensures Handled(s, cfg, user, e, env).1.status != ACCEPTED && Handled(s, cfg, user, e, env).0 == s
  {
  }

  /**
   Whatever `syncBatch` once accepted is sent again after any further run, in any later
   conditions. It is answered with the same server row, and changes nothing, if and only if it is
   still recognised: clock-in, clock-out and patrol events by their non-empty id; a confirmation
   by an empty id, or by one under which no other check has meanwhile been answered.
   */
  lemma AcceptedEventReplays(history: seq<(Command, Env)>, cfg: Config, user: string, e: Event, env: Env,
                             further: seq<(Command, Env)>, later: Env)
    requires Handled(Run(EMPTY, cfg, history), cfg, user, e, env).1.status == ACCEPTED
    ensures var (s1, result) := Handled(Run(EMPTY, cfg, history), cfg, user, e, env);
            var s2 := Run(s1, cfg, further);
            && (Handled(s2, cfg, user, e, later) == (s2, result) <==> Recognised(s2, e, result.serverId))
            && (!e.kind.ALERTNESS_CONFIRM? ==>
                  if e.clientEventId != "" then Handled(s2, cfg, user, e, later) == (s2, result)
                  else Handled(s2, cfg, user, e, later).1.status != ACCEPTED && Handled(s2, cfg, user, e, later).0 == s2)
  {
    RunTidy(EMPTY, cfg, history);
    AcceptedReplaysFrom(Run(EMPTY, cfg, history), cfg, user, e, env, further, later);
  }

  lemma AcceptedReplaysFrom(s0: Store, cfg: Config, user: string, e: Event, env: Env, further: seq<(Command, Env)>, later: Env)
    requires Tidy(s0) && Handled(s0, cfg, user, e, env).1.status == ACCEPTED
    ensures var (s1, result) := Handled(s0, cfg, user, e, env);
            var s2 := Run(s1, cfg, further);
            && (Handled(s2, cfg, user, e, later) == (s2, result) <==> Recognised(s2, e, result.serverId))
            && (e.clientEventId == "" && !e.kind.ALERTNESS_CONFIRM? ==>
                  Handled(s2, cfg, user, e, later).1.status != ACCEPTED && Handled(s2, cfg, user, e, later).0 == s2)
  {
    var (s1, result) := Handled(s0, cfg, user, e, env);
    var s2 := Run(s1, cfg, further);
    HandledTidy(s0, cfg, user, e, env);
    AcceptedIsSettled(s0, cfg, user, e, env);
    RunStaysSettled(s1, cfg, further, user, e, result.serverId);
    SettledReplaysIff(s2, cfg, user, e, result.serverId, later);
    if e.clientEventId == "" && !e.kind.ALERTNESS_CONFIRM? {
      EmptyIdIsNeverAcceptedAgain(s2, cfg, user, e, result.serverId, later);
    }
  }

  lemma HandledTidy(s: Store, cfg: Config, user: string, e: Event, env: Env)
    requires Tidy(s)
    ensures Tidy(Handled(s, cfg, user, e, env).0)
  {
    var call := Call(user, e);
    if call.Some? { StepRemembers(s, cfg, call.value, env, e.clientEventId); }
  }

  /** The answers a batch got when every event in it was accepted. */
  function Accepted(events: seq<Event>, ids: seq<Option<nat>>): seq<SyncResult>
    requires |ids| == |events|
  {
    seq(|events|, i requires 0 <= i < |events| => SyncResult(events[i].clientEventId, ACCEPTED, ids[i]))
  }

  ghost predicate AllRecognised(s: Store, events: seq<Event>, ids: seq<Option<nat>>)
    requires |ids| == |events|
  {
    forall i | 0 <= i < |events| :: Recognised(s, events[i], ids[i])
  }

  /** A batch of settled events replays as a whole exactly while every event in it is recognised. */
  lemma {:induction false} SettledBatchReplaysIff(s: Store, cfg: Config, user: string, events: seq<Event>, ids: seq<Option<nat>>, envs: seq<Env>)
    requires Tidy(s) && |envs| == |ids| == |events|
    requires forall i | 0 <= i < |events| :: Settled(s, user, events[i], ids[i])
    ensures Synced(s, cfg, user, events, envs).1 == Accepted(events, ids) <==> AllRecognised(s, events, ids)
    ensures AllRecognised(s, events, ids) ==> Synced(s, cfg, user, events, envs).0 == s
    decreases |events|
  {
    if events != [] {
      SettledReplaysIff(s, cfg, user, events[0], ids[0], envs[0]);
      var (s1, first) := Handled(s, cfg, user, events[0], envs[0]);
      var rest := Synced(s1, cfg, user, events[1..], envs[1..]).1;
      assert Synced(s, cfg, user, events, envs).1 == [first] + rest;
      assert Accepted(events, ids)[0] == SyncResult(events[0].clientEventId, ACCEPTED, ids[0]);
      if Recognised(s, events[0], ids[0]) {
        SettledBatchReplaysIff(s, cfg, user, events[1..], ids[1..], envs[1..]);
        assert Accepted(events, ids)[1..] == Accepted(events[1..], ids[1..]);
        RecognisedUnfolds(s, events, ids);
      }
    }
  }

  lemma RecognisedUnfolds(s: Store, events: seq<Event>, ids: seq<Option<nat>>)
    requires |ids| == |events| && events != []
    ensures AllRecognised(s, events, ids) <==> Recognised(s, events[0], ids[0]) && AllRecognised(s, events[1..], ids[1..])
  {
    if Recognised(s, events[0], ids[0]) && AllRecognised(s, events[1..], ids[1..]) {
      forall i | 0 <= i < |events| ensures Recognised(s, events[i], ids[i]) {
        if i > 0 { assert Recognised(s, events[1..][i - 1], ids[1..][i - 1]); }
      }
    }
    if AllRecognised(s, events, ids) {
      forall i | 0 <= i < |events[1..]| ensures Recognised(s, events[1..][i], ids[1..][i]) {
        assert Recognised(s, events[i + 1], ids[i + 1]);
      }
    }
  }

  lemma {:induction false} SyncedSettles(s: Store, cfg: Config, user: string, events: seq<Event>, envs: seq<Env>)
    requires Tidy(s) && |envs| == |events|
    ensures var (t, results) := Synced(s, cfg, user, events, envs);
            && Tidy(t) && |results| == |events|
            && (forall i | 0 <= i < |events| && results[i].status == ACCEPTED ::
                  Settled(t, user, events[i], results[i].serverId))
    decreases |events|
  {
    if events != [] {
      var (s1, first) := Handled(s, cfg, user, events[0], envs[0]);
      HandledTidy(s, cfg, user, events[0], envs[0]);
      SyncedSettles(s1, cfg, user, events[1..], envs[1..]);
      if first.status == ACCEPTED {
        AcceptedIsSettled(s, cfg, user, events[0], envs[0]);
        BatchIsARun(s1, cfg, user, events[1..], envs[1..]);
        RunStaysSettled(s1, cfg, Calls(user, events[1..], envs[1..]), user, events[0], first.serverId);
      }
    }
  }

  /**
   A wholly accepted batch, sent again after any further run, gets the same answers in the same
   order and changes no row, if and only if every event in it is recognised.
   */
  lemma AcceptedBatchReplays(history: seq<(Command, Env)>, cfg: Config, user: string, events: seq<Event>, envs: seq<Env>,
                             further: seq<(Command, Env)>, later: seq<Env>)
    requires |envs| == |later| == |events|
    requires forall r | r in Synced(Run(EMPTY, cfg, history), cfg, user, events, envs).1 :: r.status == ACCEPTED
    ensures var (s1, results) := Synced(Run(EMPTY, cfg, history), cfg, user, events, envs);
            var s2 := Run(s1, cfg, further);
            && |results| == |events|
            && (Synced(s2, cfg, user, events, later) == (s2, results) <==>
                  forall i | 0 <= i < |events| :: Recognised(s2, events[i], results[i].serverId))
  {
    var s0 := Run(EMPTY, cfg, history);
    RunTidy(EMPTY, cfg, history);
    var (s1, results) := Synced(s0, cfg, user, events, envs);
    SyncedSettles(s0, cfg, user, events, envs);
    OneResultPerEvent(s0, cfg, user, events, envs);
    assert forall i | 0 <= i < |events| :: results[i] in results;
    var s2 := Run(s1, cfg, further);
    RunTidy(s1, cfg, further);
    var ids := seq(|results|, i requires 0 <= i < |results| => results[i].serverId);
    forall i | 0 <= i < |events| ensures Settled(s2, user, events[i], ids[i]) {
      RunStaysSettled(s1, cfg, further, user, events[i], ids[i]);
    }
    assert results == Accepted(events, ids);
    SettledBatchReplaysIff(s2, cfg, user, events, ids, later);
  }

  lemma RunOne(s: Store, cfg: Config, cmd: Command, env: Env)
    ensures Run(s, cfg, [(cmd, env)]) == Step(s, cfg, cmd, env)
  {
    assert [(cmd, env)][1..] == [];
  }

  lemma RunFour(s: Store, cfg: Config, a: Command, b: Command, c: Command, d: Command, env: Env)
    ensures Run(s, cfg, [(a, env), (b, env), (c, env), (d, env)])
         == Step(Step(Step(Step(s, cfg, a, env), cfg, b, env), cfg, c, env), cfg, d, env)
  {
    assert [(a, env), (b, env), (c, env), (d, env)][1..] == [(b, env), (c, env), (d, env)];
    assert [(b, env), (c, env), (d, env)][1..] == [(c, env), (d, env)];
    assert [(c, env), (d, env)][1..] == [(d, env)];
    var s1 := Step(s, cfg, a, env);
    var s2 := Step(s1, cfg, b, env);
    assert Run(s, cfg, [(a, env), (b, env), (c, env), (d, env)]) == Run(s1, cfg, [(b, env), (c, env), (d, env)]);
    assert Run(s1, cfg, [(b, env), (c, env), (d, env)]) == Run(s2, cfg, [(c, env), (d, env)]);
    RunOne(Step(s2, cfg, c, env), cfg, d, env);
  }

  /** A guard with two checks, the first of them answered under "x". */
  function FirstAnswered(user: string, cfg: Config, now: int): Store {
    Store([Guard(user, GuardStatus.ACTIVE)], [],
          [Check(0, "site", None, 0, if now > cfg.lateGraceMs then LATE else CONFIRMED, Some(now), Some("x")),
           Check(0, "site", None, 0, SCHEDULED, None, None)], [], [])
  }

  lemma FirstAnsweredIsReachable(cfg: Config, user: string, env: Env)
    requires env.granted
    ensures Run(EMPTY, cfg, [(Enlist(user), env), (Schedule(0, "site", None, 0), env),
                             (Schedule(0, "site", None, 0), env), (Confirm(user, 0, Some("x")), env)])
         == FirstAnswered(user, cfg, env.now)
  {
    var schedule: Command := Schedule(0, "site", None, 0);
    var guards, open := [Guard(user, GuardStatus.ACTIVE)], Check(0, "site", None, 0, SCHEDULED, None, None);
    RunFour(EMPTY, cfg, Enlist(user), schedule, schedule, Confirm(user, 0, Some("x")), env);
    GuardEnlisted(cfg, user, env);
    OneScheduled(guards, cfg, [], env);
    assert [] + [open] == [open] && [open] + [open] == [open, open];
    OneScheduled(guards, cfg, [open], env);
    FirstConfirmed(cfg, user, env);
  }

  lemma GuardEnlisted(cfg: Config, user: string, env: Env)
    ensures Step(EMPTY, cfg, Enlist(user), env) == Store([Guard(user, GuardStatus.ACTIVE)], [], [], [], [])
  {
  }

  lemma OneScheduled(guards: seq<Guard>, cfg: Config, checks: seq<Check>, env: Env)
    requires guards != [] && guards[0].status == GuardStatus.ACTIVE && env.granted
    ensures Step(Store(guards, [], checks, [], []), cfg, Schedule(0, "site", None, 0), env)
         == Store(guards, [], checks + [Check(0, "site", None, 0, SCHEDULED, None, None)], [], [])
  {
  }

  lemma FirstConfirmed(cfg: Config, user: string, env: Env)
    ensures var open := Check(0, "site", None, 0, SCHEDULED, None, None);
            var s := Store([Guard(user, GuardStatus.ACTIVE)], [], [open, open], [], []);
            Step(s, cfg, Confirm(user, 0, Some("x")), env) == FirstAnswered(user, cfg, env.now)
  {
    var open := Check(0, "site", None, 0, SCHEDULED, None, None);
    assert FindCheck([open, open], "x") == None;
  }

  /**
   A run in which a confirmation is no longer recognised: check 0, already answered, is confirmed
   under a new id, which stores nothing; check 1 is answered under that id; then the first
   confirmation, sent again, is answered with check 1.
   */
  lemma ConfirmationAnsweredElsewhere(cfg: Config, user: string, env: Env)
    requires env.granted
    ensures var e := Event(ALERTNESS_CONFIRM(0), "y");
            var s0 := Run(EMPTY, cfg, [(Enlist(user), env), (Schedule(0, "site", None, 0), env),
                                       (Schedule(0, "site", None, 0), env), (Confirm(user, 0, Some("x")), env)]);
            var (s1, result) := Handled(s0, cfg, user, e, env);
            var s2 := Run(s1, cfg, [(Confirm(user, 1, Some("y")), env)]);
            && result == SyncResult("y", ACCEPTED, Some(0)) && s1 == s0
            && Handled(s2, cfg, user, e, env) == (s2, SyncResult("y", ACCEPTED, Some(1)))
  {
    var s := FirstAnswered(user, cfg, env.now);
    FirstAnsweredIsReachable(cfg, user, env);
    assert FindCheck(s.checks, "y") == None;
    RunOne(s, cfg, Confirm(user, 1, Some("y")), env);
    var s2 := Step(s, cfg, Confirm(user, 1, Some("y")), env);
    assert s2.checks[1].event == Some("y") && Answered(s2.checks[1].status);
    assert FindCheck(s2.checks, "y") == Some(1);
  }

  /** With a non-empty id the handlers find the earlier row themselves: the database constraint is never what stops an event. */
  lemma NonEmptyIdIsNeverDuplicate(s: Store, cfg: Config, user: string, e: Event, env: Env)
    requires Tidy(s) && e.clientEventId != ""
    ensures Handled(s, cfg, user, e, env).1.status != DUPLICATE
  {
    if e.kind.ALERTNESS_CONFIRM? {
      var found := FindCheck(s.checks, e.clientEventId);
      if found.Some? { assert s.checks[found.value].event == Some(e.clientEventId); }
    }
  }

  /** So a batch whose events all carry an id never meets the constraint. */
  lemma {:induction false} NonEmptyBatchHasNoDuplicate(s: Store, cfg: Config, user: string, events: seq<Event>, envs: seq<Env>)
    requires Tidy(s) && |envs| == |events|
    requires forall e | e in events :: e.clientEventId != ""
    ensures forall r | r in Synced(s, cfg, user, events, envs).1 :: r.status != DUPLICATE
    decreases |events|
  {
    if events != [] {
      NonEmptyIdIsNeverDuplicate(s, cfg, user, events[0], envs[0]);
      HandledTidy(s, cfg, user, events[0], envs[0]);
      NonEmptyBatchHasNoDuplicate(Handled(s, cfg, user, events[0], envs[0]).0, cfg, user, events[1..], envs[1..]);
    }
  }
}
