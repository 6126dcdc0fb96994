/** What every run of the duty handlers keeps. */
module DutyTheorems {
  import opened Wrappers
  import opened Sets
  import opened DutySchedule
  import opened Duty

  // ---------------------------------------------------------------- how rows may evolve

  /** A closed punch is final; an open one keeps its identity and carries no clock-out event. */
  predicate AttendanceEvolves(a: Attendance, b: Attendance) {
    && b.(clockOutAt := a.clockOutAt, outEvent := a.outEvent) == a
    && (!IsOpen(a) ==> a == b)
  }

  /** A check that has left SCHEDULED is final. */
  predicate CheckEvolves(a: Check, b: Check) {
    && b.(status := a.status, confirmedAt := a.confirmedAt, event := a.event) == a
    && (a.status != SCHEDULED ==> a == b)
  }

  /** Nothing is deleted, identities stay, finished rows stay as they are. */
  ghost predicate Evolves(s: Store, t: Store) {
    && |s.guards| <= |t.guards| && (forall i | 0 <= i < |s.guards| :: t.guards[i].userId == s.guards[i].userId)
    && |s.attendance| <= |t.attendance|
    && (forall i | 0 <= i < |s.attendance| :: AttendanceEvolves(s.attendance[i], t.attendance[i]))
    && |s.checks| <= |t.checks|
    && (forall i | 0 <= i < |s.checks| :: CheckEvolves(s.checks[i], t.checks[i]))
    && s.scans <= t.scans
  }

  lemma EvolvesTransitive(s: Store, t: Store, u: Store)
    requires Evolves(s, t) && Evolves(t, u)
    ensures Evolves(s, u)
  {
    forall i | 0 <= i < |s.attendance| ensures AttendanceEvolves(s.attendance[i], u.attendance[i]) {
      assert AttendanceEvolves(s.attendance[i], t.attendance[i]) && AttendanceEvolves(t.attendance[i], u.attendance[i]);
    }
    forall i | 0 <= i < |s.checks| ensures CheckEvolves(s.checks[i], u.checks[i]) {
      assert CheckEvolves(s.checks[i], t.checks[i]) && CheckEvolves(t.checks[i], u.checks[i]);
    }
  }

  lemma {:induction false} MarkedAllEvolves(s: Store, due: seq<nat>)
    ensures var t := MarkedAll(s, due);
            && Evolves(s, t) && t.guards == s.guards && t.attendance == s.attendance && t.scans == s.scans
            && |t.checks| == |s.checks|
            && (forall i | 0 <= i < |s.checks| ::
                  t.checks[i] == if i in due && s.checks[i].status == SCHEDULED then s.checks[i].(status := MISSED) else s.checks[i])
    decreases |due|
  {
    if due != [] {
      var r := MarkedMissed(s, due[0], true);
      var s1 := if r.Ok? then r.value.store else s;
      MarkedAllEvolves(s1, due[1..]);
      EvolvesTransitive(s, s1, MarkedAll(s1, due[1..]));
    }
  }

  lemma PunchedEvolves(s: Store, cfg: Config, guard: nat, site: string, shift: Option<string>, event: Option<string>, env: Env)
    ensures Evolves(s, Punched(s, cfg, guard, site, shift, event, env))
  {
  }

  lemma PunchedOutEvolves(s: Store, id: nat, event: Option<string>, now: int)
    requires id < |s.attendance| && IsOpen(s.attendance[id])
    ensures Evolves(s, PunchedOut(s, id, event, now))
  {
  }

  lemma PunchStepEvolves(s: Store, cfg: Config, cmd: Command, env: Env)
    requires cmd.ClockIn? || cmd.SupervisorClockIn? || cmd.ClockOut? || cmd.DevicePunch?
    ensures Evolves(s, Step(s, cfg, cmd, env))
  {
    var t := Step(s, cfg, cmd, env);
    if t == s { return; }
    match cmd
    case ClockIn(user, site, shift, event) =>
      PunchedEvolves(s, cfg, GuardOf(s.guards, user).value, site, shift, event, env);
    case SupervisorClockIn(guard, site, shift) => PunchedEvolves(s, cfg, guard, site, shift, None, env);
    case ClockOut(_, id, event) => PunchedOutEvolves(s, id, event, env.now);
    case DevicePunch(guard, site, forceIn, event) =>
      var open := OpenOf(s.attendance, guard);
      if open.Some? && !forceIn { PunchedOutEvolves(s, open.value, event, env.now); }
      else { PunchedEvolves(s, cfg, guard, site, None, event, env); }
  }

  lemma CheckStepEvolves(s: Store, cfg: Config, cmd: Command, env: Env)
    requires cmd.Schedule? || cmd.Confirm? || cmd.MarkMissed? || cmd.Patrol?
    ensures Evolves(s, Step(s, cfg, cmd, env))
  {
  }

  lemma GuardStepEvolves(s: Store, cfg: Config, cmd: Command, env: Env)
    requires cmd.Enlist? || cmd.UpdateStatus? || cmd.Terminate?
    ensures Evolves(s, Step(s, cfg, cmd, env))
  {
  }

  lemma StepEvolves(s: Store, cfg: Config, cmd: Command, env: Env)
    ensures Evolves(s, Step(s, cfg, cmd, env))
  {
    if cmd.ScanMissed? { MarkedAllEvolves(s, cmd.due); }
    else if cmd.ClockIn? || cmd.SupervisorClockIn? || cmd.ClockOut? || cmd.DevicePunch? { PunchStepEvolves(s, cfg, cmd, env); }
    else if cmd.Enlist? || cmd.UpdateStatus? || cmd.Terminate? { GuardStepEvolves(s, cfg, cmd, env); }
    else { CheckStepEvolves(s, cfg, cmd, env); }
  }

  lemma {:induction false} RunEvolves(s: Store, cfg: Config, cmds: seq<(Command, Env)>)
    ensures Evolves(s, Run(s, cfg, cmds))
    decreases |cmds|
  {
    if cmds != [] {
      var s1 := Step(s, cfg, cmds[0].0, cmds[0].1);
      StepEvolves(s, cfg, cmds[0].0, cmds[0].1);
      RunEvolves(s1, cfg, cmds[1..]);
      EvolvesTransitive(s, s1, Run(s1, cfg, cmds[1..]));
    }
  }

  /** A check leaves SCHEDULED at most once: whatever it became, it stays, through every further run. */
  lemma AlertnessIsOneShot(s: Store, cfg: Config, cmds: seq<(Command, Env)>, id: nat)
    requires id < |s.checks| && s.checks[id].status != SCHEDULED
    ensures var t := Run(s, cfg, cmds); id < |t.checks| && t.checks[id] == s.checks[id]
  {
    RunEvolves(s, cfg, cmds);
    assert CheckEvolves(s.checks[id], Run(s, cfg, cmds).checks[id]);
  }

  // ---------------------------------------------------------------- on time or late

  /** CONFIRMED was answered within the grace period, LATE after it, anything else not at all. */
  predicate AnswerFits(c: Check, grace: int) {
    match c.status
    case CONFIRMED => c.confirmedAt.Some? && c.confirmedAt.value <= c.scheduledAt + grace
    case LATE => c.confirmedAt.Some? && c.confirmedAt.value > c.scheduledAt + grace
    case _ => c.confirmedAt.None?
  }

  ghost predicate AnswersFit(s: Store, cfg: Config) {
    forall i | 0 <= i < |s.checks| :: AnswerFits(s.checks[i], cfg.lateGraceMs)
  }

  lemma StepAnswersFit(s: Store, cfg: Config, cmd: Command, env: Env)
    requires AnswersFit(s, cfg)
    ensures AnswersFit(Step(s, cfg, cmd, env), cfg)
  {
    if cmd.ScanMissed? { MarkedAllEvolves(s, cmd.due); }
  }

  /** Over every run the status of a check and the time of its answer tell the same story. */
  lemma {:induction false} LateMeansAfterGrace(s: Store, cfg: Config, cmds: seq<(Command, Env)>)
    requires AnswersFit(s, cfg)
    ensures AnswersFit(Run(s, cfg, cmds), cfg)
    decreases |cmds|
  {
    if cmds != [] {
      StepAnswersFit(s, cfg, cmds[0].0, cmds[0].1);
      LateMeansAfterGrace(Step(s, cfg, cmds[0].0, cmds[0].1), cfg, cmds[1..]);
    }
  }

  /** A clock-in adds at most twelve checks, for that guard, site and shift, strictly inside the duty window. */
  lemma PunchSchedulesInsideDuty(s: Store, cfg: Config, guard: nat, site: string, shift: Option<string>, event: Option<string>, env: Env)
    ensures var t := Punched(s, cfg, guard, site, shift, event, env);
            && s.checks <= t.checks && |t.checks| <= |s.checks| + HARD_CAP
            && (forall i | |s.checks| <= i < |t.checks| ::
                  && t.checks[i].(scheduledAt := 0) == Check(guard, site, shift, 0, SCHEDULED, None, None)
                  && env.now < t.checks[i].scheduledAt < WindowEnd(cfg, shift, env.now, env))
            && (|t.checks| > |s.checks| ==>
                  forall i | 0 <= i < |s.checks| :: !Upcoming(s.checks[i], guard, site, shift, env.now))
  {
    var end := WindowEnd(cfg, shift, env.now, env);
    DutyStaysInside(env.now, end, cfg.pace, env.draw);
    var times := DutyTimes(env.now, end, cfg.pace, env.draw);
    assert forall i | 0 <= i < |times| :: times[i] in times;
  }

  // ---------------------------------------------------------------- an absent guard is off duty

  /** No open punch and no SCHEDULED check belongs to an ABSENT guard. */
  ghost predicate OffDuty(s: Store) {
    && (forall i | 0 <= i < |s.attendance| ::
          s.attendance[i].guard < |s.guards|
          && (IsOpen(s.attendance[i]) ==> s.guards[s.attendance[i].guard].status != ABSENT))
    && (forall i | 0 <= i < |s.checks| ::
          s.checks[i].guard < |s.guards|
          && (s.checks[i].status == SCHEDULED ==> s.guards[s.checks[i].guard].status != ABSENT))
  }

  lemma PunchedOffDuty(s: Store, cfg: Config, guard: nat, site: string, shift: Option<string>, event: Option<string>, env: Env)
    requires OffDuty(s) && guard < |s.guards| && !Blocked(s.guards[guard].status)
    ensures OffDuty(Punched(s, cfg, guard, site, shift, event, env))
  {
  }

  lemma StatusOffDuty(s: Store, guard: nat, status: GuardStatus, env: Env)
    requires OffDuty(s) && StatusUpdated(s, guard, status, env).Ok?
    ensures OffDuty(StatusUpdated(s, guard, status, env).value.store)
  {
  }

  lemma PunchStepOffDuty(s: Store, cfg: Config, cmd: Command, env: Env)
    requires OffDuty(s) && (cmd.ClockIn? || cmd.SupervisorClockIn? || cmd.ClockOut? || cmd.DevicePunch?)
    ensures OffDuty(Step(s, cfg, cmd, env))
  {
    if Step(s, cfg, cmd, env) == s { return; }
    match cmd
    case ClockIn(user, site, shift, event) =>
      PunchedOffDuty(s, cfg, GuardOf(s.guards, user).value, site, shift, event, env);
    case SupervisorClockIn(guard, site, shift) => PunchedOffDuty(s, cfg, guard, site, shift, None, env);
    case DevicePunch(guard, site, _, event) =>
      if !Blocked(s.guards[guard].status) { PunchedOffDuty(s, cfg, guard, site, None, event, env); }
    case ClockOut(_, _, _) =>
  }

  lemma CheckStepOffDuty(s: Store, cfg: Config, cmd: Command, env: Env)
    requires OffDuty(s) && (cmd.Schedule? || cmd.Confirm? || cmd.MarkMissed? || cmd.Patrol?)
    ensures OffDuty(Step(s, cfg, cmd, env))
  {
  }

  lemma GuardStepOffDuty(s: Store, cfg: Config, cmd: Command, env: Env)
    requires OffDuty(s) && (cmd.Enlist? || cmd.UpdateStatus? || cmd.Terminate?)
    ensures OffDuty(Step(s, cfg, cmd, env))
  {
    match cmd
    case UpdateStatus(guard, status) =>
      if StatusUpdated(s, guard, status, env).Ok? { StatusOffDuty(s, guard, status, env); }
    case _ =>
  }

  lemma StepOffDuty(s: Store, cfg: Config, cmd: Command, env: Env)
    requires OffDuty(s)
    ensures OffDuty(Step(s, cfg, cmd, env))
  {
    if cmd.ScanMissed? { MarkedAllEvolves(s, cmd.due); }
    else if cmd.ClockIn? || cmd.SupervisorClockIn? || cmd.ClockOut? || cmd.DevicePunch? { PunchStepOffDuty(s, cfg, cmd, env); }
    else if cmd.Enlist? || cmd.UpdateStatus? || cmd.Terminate? { GuardStepOffDuty(s, cfg, cmd, env); }
    else { CheckStepOffDuty(s, cfg, cmd, env); }
  }

  lemma {:induction false} RunOffDuty(s: Store, cfg: Config, cmds: seq<(Command, Env)>)
    requires OffDuty(s)
    ensures OffDuty(Run(s, cfg, cmds))
    decreases |cmds|
  {
    if cmds != [] {
      StepOffDuty(s, cfg, cmds[0].0, cmds[0].1);
      RunOffDuty(Step(s, cfg, cmds[0].0, cmds[0].1), cfg, cmds[1..]);
    }
  }

  /** In every run, under every kind of punch and scheduling, an ABSENT guard has no open punch and no check to answer. */
  lemma AbsentGuardIsOffDuty(cfg: Config, cmds: seq<(Command, Env)>, guard: nat)
    ensures var s := Run(EMPTY, cfg, cmds);
            guard < |s.guards| && s.guards[guard].status == ABSENT ==>
              && (forall i | 0 <= i < |s.attendance| && s.attendance[i].guard == guard :: !IsOpen(s.attendance[i]))
              && (forall i | 0 <= i < |s.checks| && s.checks[i].guard == guard :: s.checks[i].status != SCHEDULED)
  {
    RunOffDuty(EMPTY, cfg, cmds);
  }

  lemma OthersKeepGuards(s: Store, cfg: Config, cmd: Command, env: Env)
    requires !cmd.Enlist? && !cmd.UpdateStatus? && !cmd.Terminate?
    ensures Step(s, cfg, cmd, env).guards == s.guards
  {
    if cmd.ScanMissed? { MarkedAllEvolves(s, cmd.due); }
  }

  lemma StepKeepsTerminated(s: Store, cfg: Config, cmd: Command, env: Env, guard: nat)
    requires guard < |s.guards| && s.guards[guard].status == TERMINATED
    ensures var t := Step(s, cfg, cmd, env); guard < |t.guards| && t.guards[guard] == s.guards[guard]
  {
    if !cmd.Enlist? && !cmd.UpdateStatus? && !cmd.Terminate? { OthersKeepGuards(s, cfg, cmd, env); }
  }

  /** TERMINATED guards are never reinstated. */
  lemma {:induction false} TerminatedIsFinal(s: Store, cfg: Config, cmds: seq<(Command, Env)>, guard: nat)
    requires guard < |s.guards| && s.guards[guard].status == TERMINATED
    ensures var t := Run(s, cfg, cmds); guard < |t.guards| && t.guards[guard] == s.guards[guard]
    decreases |cmds|
  {
    if cmds != [] {
      StepKeepsTerminated(s, cfg, cmds[0].0, cmds[0].1, guard);
      TerminatedIsFinal(Step(s, cfg, cmds[0].0, cmds[0].1), cfg, cmds[1..], guard);
    }
  }

  // ---------------------------------------------------------------- one alert for each miss

  function MissedCount(checks: seq<Check>): nat {
    if checks == [] then 0
    else MissedCount(checks[..|checks| - 1]) + if checks[|checks| - 1].status == MISSED then 1 else 0
  }

  /** The alert each MISSED check calls for: its guard, at its site. */
  function CalledFor(checks: seq<Check>): multiset<Alert> {
    if checks == [] then multiset{} else CalledFor(checks[..|checks| - 1]) + Call(checks[|checks| - 1])
  }

  function Call(c: Check): multiset<Alert> {
    if c.status == MISSED then multiset{Alert(c.guard, c.site)} else multiset{}
  }

  lemma {:induction false} CalledForSize(checks: seq<Check>)
    ensures |CalledFor(checks)| == MissedCount(checks)
  {
    if checks != [] { CalledForSize(checks[..|checks| - 1]); }
  }

  lemma {:induction false} SameMissed(a: seq<Check>, b: seq<Check>)
    requires |a| == |b| && forall i | 0 <= i < |a| ::
               (a[i].status == MISSED <==> b[i].status == MISSED) && a[i].guard == b[i].guard && a[i].site == b[i].site
    ensures CalledFor(a) == CalledFor(b)
  {
    if a != [] { SameMissed(a[..|a| - 1], b[..|b| - 1]); }
  }

  lemma {:induction false} CalledForConcat(a: seq<Check>, b: seq<Check>)
    ensures CalledFor(a + b) == CalledFor(a) + CalledFor(b)
    decreases |b|
  {
    if b == [] {
      assert a + b == a;
    } else {
      var last := |b| - 1;
      assert (a + b)[..|a + b| - 1] == a + b[..last];
      CalledForConcat(a, b[..last]);
      assert CalledFor(a + b) == CalledFor(a) + CalledFor(b[..last]) + Call(b[last]);
    }
  }

  lemma {:induction false} NoneCalledFor(b: seq<Check>)
    requires forall i | 0 <= i < |b| :: b[i].status != MISSED
    ensures CalledFor(b) == multiset{}
  {
    if b != [] { NoneCalledFor(b[..|b| - 1]); }
  }

  lemma AppendMissed(a: seq<Check>, b: seq<Check>)
    requires forall i | 0 <= i < |b| :: b[i].status != MISSED
    ensures CalledFor(a + b) == CalledFor(a)
  {
    CalledForConcat(a, b);
    NoneCalledFor(b);
  }

  lemma CalledForMiddle(x: seq<Check>, c: Check, y: seq<Check>)
    ensures CalledFor(x + [c] + y) == CalledFor(x) + CalledFor(y) + Call(c)
  {
    CalledForConcat(x + [c], y);
    CalledForConcat(x, [c]);
    assert [c][..0] == [];
    assert CalledFor([c]) == Call(c);
  }

  lemma OneMissed(a: seq<Check>, id: nat)
    requires id < |a| && a[id].status != MISSED
    ensures CalledFor(a[id := a[id].(status := MISSED)]) == CalledFor(a) + multiset{Alert(a[id].guard, a[id].site)}
  {
    var m := a[id].(status := MISSED);
    assert a == a[..id] + [a[id]] + a[id + 1..];
    assert a[id := m] == a[..id] + [m] + a[id + 1..];
    CalledForMiddle(a[..id], a[id], a[id + 1..]);
    CalledForMiddle(a[..id], m, a[id + 1..]);
  }

  /** The alerts raised are exactly the ones the MISSED checks call for, one each. */
  ghost predicate AlertPerMiss(s: Store) {
    multiset(s.alerts) == CalledFor(s.checks)
  }

  lemma MarkedMissedAlerts(s: Store, id: nat)
    requires AlertPerMiss(s)
    ensures MarkedMissed(s, id, true).Ok? ==> AlertPerMiss(MarkedMissed(s, id, true).value.store)
  {
    if id < |s.checks| && s.checks[id].status == SCHEDULED { OneMissed(s.checks, id); }
  }

  lemma {:induction false} MarkedAllAlertPerMiss(s: Store, due: seq<nat>)
    requires AlertPerMiss(s)
    ensures AlertPerMiss(MarkedAll(s, due))
    decreases |due|
  {
    if due != [] {
      MarkedMissedAlerts(s, due[0]);
      var r := MarkedMissed(s, due[0], true);
      MarkedAllAlertPerMiss(if r.Ok? then r.value.store else s, due[1..]);
    }
  }

  /** No alert is raised and no check becomes MISSED. */
  ghost predicate Quiet(s: Store, t: Store) {
    && t.alerts == s.alerts && |s.checks| <= |t.checks|
    && (forall i | 0 <= i < |s.checks| ::
          && (s.checks[i].status == MISSED <==> t.checks[i].status == MISSED)
          && s.checks[i].guard == t.checks[i].guard && s.checks[i].site == t.checks[i].site)
    && (forall i | |s.checks| <= i < |t.checks| :: t.checks[i].status != MISSED)
  }

  lemma QuietKeeps(s: Store, t: Store)
    requires Quiet(s, t) && AlertPerMiss(s)
    ensures AlertPerMiss(t)
  {
    var kept, added := t.checks[..|s.checks|], t.checks[|s.checks|..];
    SameMissed(s.checks, kept);
    AppendMissed(kept, added);
    assert kept + added == t.checks;
  }

  lemma PunchedQuiet(s: Store, cfg: Config, guard: nat, site: string, shift: Option<string>, event: Option<string>, env: Env)
    ensures Quiet(s, Punched(s, cfg, guard, site, shift, event, env))
  {
  }

  lemma PunchStepQuiet(s: Store, cfg: Config, cmd: Command, env: Env)
    requires cmd.ClockIn? || cmd.SupervisorClockIn? || cmd.ClockOut? || cmd.DevicePunch?
    ensures Quiet(s, Step(s, cfg, cmd, env))
  {
    if Attempt(s, cfg, cmd, env).Err? { return; }
    match cmd
    case ClockIn(user, site, shift, event) =>
      if GuardOf(s.guards, user).Some? { PunchedQuiet(s, cfg, GuardOf(s.guards, user).value, site, shift, event, env); }
    case SupervisorClockIn(guard, site, shift) => PunchedQuiet(s, cfg, guard, site, shift, None, env);
    case DevicePunch(guard, site, _, event) => PunchedQuiet(s, cfg, guard, site, None, event, env);
    case ClockOut(_, _, _) =>
  }

  lemma CheckStepQuiet(s: Store, cfg: Config, cmd: Command, env: Env)
    requires cmd.Schedule? || cmd.Confirm? || cmd.Patrol?
    ensures Quiet(s, Step(s, cfg, cmd, env))
  {
  }

  lemma GuardStepQuiet(s: Store, cfg: Config, cmd: Command, env: Env)
    requires cmd.Enlist? || cmd.UpdateStatus? || cmd.Terminate?
    ensures Quiet(s, Step(s, cfg, cmd, env))
  {
  }

  lemma StepAlertPerMiss(s: Store, cfg: Config, cmd: Command, env: Env)
    requires AlertPerMiss(s)
    ensures AlertPerMiss(Step(s, cfg, cmd, env))
  {
    if cmd.MarkMissed? {
      if env.granted { MarkedMissedAlerts(s, cmd.check); }
    } else if cmd.ScanMissed? {
      MarkedAllAlertPerMiss(s, cmd.due);
    } else {
      if cmd.ClockIn? || cmd.SupervisorClockIn? || cmd.ClockOut? || cmd.DevicePunch? {
        PunchStepQuiet(s, cfg, cmd, env);
      } else if cmd.Schedule? || cmd.Confirm? || cmd.Patrol? {
        CheckStepQuiet(s, cfg, cmd, env);
      } else {
        GuardStepQuiet(s, cfg, cmd, env);
      }
      QuietKeeps(s, Step(s, cfg, cmd, env));
    }
  }

  lemma {:induction false} RunAlertPerMiss(s: Store, cfg: Config, cmds: seq<(Command, Env)>)
    requires AlertPerMiss(s)
    ensures AlertPerMiss(Run(s, cfg, cmds))
    decreases |cmds|
  {
    if cmds != [] {
      StepAlertPerMiss(s, cfg, cmds[0].0, cmds[0].1);
      RunAlertPerMiss(Step(s, cfg, cmds[0].0, cmds[0].1), cfg, cmds[1..]);
    }
  }

  /** Over every run there is exactly one field alert for each check marked MISSED, by hand or by scan, about its guard and site. */
  lemma OneAlertPerMiss(cfg: Config, cmds: seq<(Command, Env)>)
    ensures var s := Run(EMPTY, cfg, cmds);
            multiset(s.alerts) == CalledFor(s.checks) && |s.alerts| == MissedCount(s.checks)
  {
    RunAlertPerMiss(EMPTY, cfg, cmds);
    var s := Run(EMPTY, cfg, cmds);
    CalledForSize(s.checks);
    assert |s.alerts| == |multiset(s.alerts)|;
  }

  // ---------------------------------------------------------------- scanning to the end

  function OverdueSet(checks: seq<Check>, cutoff: int, sites: set<string>): set<nat> {
    set i | 0 <= i < |checks| && Overdue(checks[i], cutoff, sites)
  }

  /** One scan takes min(200, n) of the n overdue checks off the list. */
  lemma ScanTakesUpToLimit(s: Store, cutoff: int, sites: set<string>, due: seq<nat>)
    requires IsDueList(s.checks, cutoff, sites, due)
    ensures var t := ScannedMissed(s, cutoff, sites, due);
            && OverdueSet(t.checks, cutoff, sites) == OverdueSet(s.checks, cutoff, sites) - AsSet(due)
            && |OverdueSet(t.checks, cutoff, sites)|
               == if |OverdueSet(s.checks, cutoff, sites)| <= SCAN_LIMIT then 0
                  else |OverdueSet(s.checks, cutoff, sites)| - SCAN_LIMIT
  {
    var t := ScannedMissed(s, cutoff, sites, due);
    var before := OverdueSet(s.checks, cutoff, sites);
    MarkedAllEvolves(s, due);
    SetSize(due);
    SubsetSize(AsSet(due), before);
    assert OverdueSet(t.checks, cutoff, sites) == before - AsSet(due);
    if |due| < SCAN_LIMIT { assert before == AsSet(due); }
  }

  /** Each list is what the query may return on the rows its scan finds. */
  ghost predicate Scans(s: Store, cutoff: int, sites: set<string>, lists: seq<seq<nat>>)
    decreases |lists|
  {
    lists != [] ==> IsDueList(s.checks, cutoff, sites, lists[0])
                    && Scans(ScannedMissed(s, cutoff, sites, lists[0]), cutoff, sites, lists[1..])
  }

  function ScanAll(s: Store, cutoff: int, sites: set<string>, lists: seq<seq<nat>>): Store
    decreases |lists|
  {
    if lists == [] then s else ScanAll(ScannedMissed(s, cutoff, sites, lists[0]), cutoff, sites, lists[1..])
  }

  /** With no new checks, k scans at one cutoff clear n overdue checks exactly when 200 k >= n. */
  lemma {:induction false} ScansClearTheBacklog(s: Store, cutoff: int, sites: set<string>, lists: seq<seq<nat>>)
    requires Scans(s, cutoff, sites, lists)
    ensures OverdueSet(ScanAll(s, cutoff, sites, lists).checks, cutoff, sites) == {}
            <==> SCAN_LIMIT * |lists| >= |OverdueSet(s.checks, cutoff, sites)|
    decreases |lists|
  {
    if lists != [] {
      ScanTakesUpToLimit(s, cutoff, sites, lists[0]);
      ScansClearTheBacklog(ScannedMissed(s, cutoff, sites, lists[0]), cutoff, sites, lists[1..]);
    }
  }
}
