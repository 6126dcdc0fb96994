/**
 backend/libs/contracts on top of backend/libs/approvals: the contract lifecycle, with the
 approval queue and the contract routes writing the same rows.
 */
module Contracts {
  import opened Wrappers
  import opened Approvals

  datatype ContractStatus = DRAFT | PENDING_APPROVAL | APPROVED | ACTIVE | EXPIRING | TERMINATED | CANCELLED

  /** `link` is approvalInstanceId; rows are identified by their position. */
  datatype Contract = Contract(status: ContractStatus, monthlyFee: Amount, endDate: int, link: Option<nat>, version: nat)

  datatype Store = Store(workflows: map<string, seq<WorkflowStep>>, instances: seq<Instance>, contracts: seq<Contract>)

  const CONTRACT_WORKFLOW := "contract-approval"

  // ---------------------------------------------------------------- what each handler does to the rows

  /** Operational changes only. */
  function Transitions(from: ContractStatus): set<ContractStatus> {
    match from
    case APPROVED => {ACTIVE, CANCELLED}
    case ACTIVE => {TERMINATED, EXPIRING}
    case EXPIRING => {ACTIVE, TERMINATED}
    case _ => {}
  }

  /** Every change of status that is made by hand. */
  const OPERATIONAL_MOVES: set<(ContractStatus, ContractStatus)> := {
    (ContractStatus.APPROVED, ACTIVE), (ContractStatus.APPROVED, CANCELLED),
    (ACTIVE, TERMINATED), (ACTIVE, EXPIRING), (EXPIRING, ACTIVE), (EXPIRING, TERMINATED)}

  function StartIn(s: Store, code: string, resource: Resource, amount: Option<Amount>, user: User): Result<Store, Error> {
    if code !in s.workflows then Err(NotFound)
    else
      var r := Started(s.workflows[code], resource, amount, user);
      if r.Err? then Err(r.error) else Ok(s.(instances := s.instances + [r.value]))
  }

  /** A finished instance carries a contract that is still waiting along; no other contract. */
  function Synced(contracts: seq<Contract>, i: Instance): seq<Contract> {
    if !i.resource.ContractResource? || i.status == PENDING then contracts
    else
      var id := i.resource.contract;
      if id >= |contracts| || contracts[id].status != PENDING_APPROVAL then contracts
      else
        var c := contracts[id];
        contracts[id := if i.status == ApprovalStatus.APPROVED
                        then c.(status := ContractStatus.APPROVED, version := c.version + 1)
                        else c.(status := DRAFT, link := None, version := c.version + 1)]
  }

  function ActIn(s: Store, id: nat, user: User, decision: Decision): Result<Store, Error> {
    if id >= |s.instances| then Err(NotFound)
    else
      var r := Acted(s.instances[id], user, decision);
      if r.Err? then Err(r.error)
      else Ok(s.(instances := s.instances[id := r.value], contracts := Synced(s.contracts, r.value)))
  }

  function SubmitIn(s: Store, id: nat, user: User): Result<Store, Error> {
    if id >= |s.contracts| then Err(NotFound)
    else if s.contracts[id].status != DRAFT then Err(WrongStatus)
    else
      var c := s.contracts[id];
      var r := StartIn(s, CONTRACT_WORKFLOW, ContractResource(id), Some(c.monthlyFee), user);
      if r.Err? then r
      else Ok(r.value.(contracts := s.contracts[id :=
                c.(status := PENDING_APPROVAL, link := Some(|s.instances|), version := c.version + 1)]))
  }

  function ApproveIn(s: Store, id: nat, user: User): Result<Store, Error> {
    if id >= |s.contracts| then Err(NotFound)
    else if s.contracts[id].status != PENDING_APPROVAL then Err(WrongStatus)
    else if s.contracts[id].link.None? then Err(NoInstance)
    else
      var link := s.contracts[id].link.value;
      var r := ActIn(s, link, user, APPROVE);
      if r.Err? || r.value.instances[link].status != ApprovalStatus.APPROVED then r
      else
        var c := r.value.contracts[id];
        Ok(r.value.(contracts := r.value.contracts[id := c.(status := ContractStatus.APPROVED, version := c.version + 1)]))
  }

  function RejectIn(s: Store, id: nat, user: User): Result<Store, Error> {
    if id >= |s.contracts| then Err(NotFound)
    else if s.contracts[id].status != PENDING_APPROVAL then Err(WrongStatus)
    else
      var link := s.contracts[id].link;
      var r := if link.Some? then ActIn(s, link.value, user, REJECT) else Ok(s);
      if r.Err? then r
      else
        var c := r.value.contracts[id];
        Ok(r.value.(contracts := r.value.contracts[id := c.(status := DRAFT, link := None, version := c.version + 1)]))
  }

  function UpdateStatusIn(s: Store, id: nat, status: ContractStatus): Result<Store, Error> {
    if id >= |s.contracts| then Err(NotFound)
    else if status !in Transitions(s.contracts[id].status) then Err(WrongStatus)
    else
      var c := s.contracts[id];
      Ok(s.(contracts := s.contracts[id := c.(status := status, version := c.version + 1)]))
  }

  predicate Due(c: Contract, today: int, horizon: int) {
    c.status == ACTIVE && today <= c.endDate <= horizon
  }

  function Expired(c: Contract, today: int, horizon: int): Contract {
    if Due(c, today, horizon) then c.(status := EXPIRING, version := c.version + 1) else c
  }

  function ScannedContracts(cs: seq<Contract>, today: int, horizon: int): seq<Contract> {
    seq(|cs|, i requires 0 <= i < |cs| => Expired(cs[i], today, horizon))
  }

  // ---------------------------------------------------------------- the services

  class Database {
    var workflows: map<string, seq<WorkflowStep>>
    var instances: seq<Instance>
    var contracts: seq<Contract>

    ghost function View(): Store
      reads this
    {
      Store(workflows, instances, contracts)
    }

    constructor (workflows: map<string, seq<WorkflowStep>>)
      ensures View() == Store(workflows, [], [])
    {
      this.workflows := workflows;
      instances := [];
      contracts := [];
    }
  }

  /** Nothing but contract c differs. */
  ghost predicate OnlyContract(s: Store, t: Store, c: nat) {
    && t.workflows == s.workflows && t.instances == s.instances && |t.contracts| == |s.contracts|
    && forall d | 0 <= d < |s.contracts| && d != c :: t.contracts[d] == s.contracts[d]
  }

  /** The row a handler leaves, or its refusal with every row as before. */
  ghost predicate Outcome(before: Store, spec: Result<Store, Error>, after: Store, error: Option<Error>) {
    match spec
    case Ok(s) => after == s && error == None
    case Err(e) => after == before && error == Some(e)
  }

  class ApprovalsService {
    const db: Database

    constructor (db: Database)
      ensures this.db == db
    {
      this.db := db;
    }

    method Start(code: string, resource: Resource, amount: Option<Amount>, user: User) returns (id: nat, error: Option<Error>)
      modifies db
      ensures Outcome(old(db.View()), StartIn(old(db.View()), code, resource, amount, user), db.View(), error)
      ensures error.None? ==> id == old(|db.instances|)
    {
      id := |db.instances|;
      if code !in db.workflows {
        return id, Some(NotFound);
      }
      var steps := db.workflows[code];
      var first := FirstApplicableStep(steps, amount);
      if first.None? {
        return id, Some(NoApplicableStep);
      }
      db.instances := db.instances
      + [Instance(steps, Stored(amount), resource, user.id, PENDING, first.value.stepOrder, [])];
      error := None;
    }

    method Act(id: nat, user: User, decision: Decision) returns (status: ApprovalStatus, error: Option<Error>)
      modifies db
      ensures Outcome(old(db.View()), ActIn(old(db.View()), id, user, decision), db.View(), error)
      ensures error.None? ==> id < |db.instances| && status == db.instances[id].status
    {
      status := PENDING;
      if id >= |db.instances| {
        return status, Some(NotFound);
      }
      var instance := db.instances[id];
      if instance.status != PENDING {
        return status, Some(NotPending);
      }
      if instance.createdBy == user.id && SUPER_ADMIN !in user.roles {
        return status, Some(CreatorCannotApprove);
      }
      var step := StepAt(instance.steps, instance.currentStepOrder);
      if step.None? {
        return status, Some(StepMissing);
      }
      if step.value.requiredRole != ANY_ROLE && step.value.requiredRole !in user.roles && SUPER_ADMIN !in user.roles {
        return status, Some(RoleRequired);
      }

      var currentStepOrder := instance.currentStepOrder;
      var action := ApprovalAction(currentStepOrder, user, decision);
      if decision == REJECT {
        status := REJECTED;
      } else {
        var next := NextApplicableStep(instance.steps, instance.currentStepOrder, instance.amount);
        if next.Some? {
          currentStepOrder := next.value.stepOrder;
        } else {
          status := ApprovalStatus.APPROVED;
        }
      }
      var updated := instance.(actions := instance.actions + [action], status := status, currentStepOrder := currentStepOrder);
      db.instances := db.instances[id := updated];
      if (status == ApprovalStatus.APPROVED || status == REJECTED) && instance.resource.ContractResource? {
        SyncContractOnTerminal(instance.resource.contract, status);
      }
      error := None;
    }

    method SyncContractOnTerminal(id: nat, status: ApprovalStatus)
      requires status != PENDING
      modifies db`contracts
      ensures forall i: Instance | i.resource == ContractResource(id) && i.status == status ::
                db.contracts == Synced(old(db.contracts), i)
    {
      if id < |db.contracts| && db.contracts[id].status == PENDING_APPROVAL {
        var c := db.contracts[id];
        if status == ApprovalStatus.APPROVED {
          db.contracts := db.contracts[id := c.(status := ContractStatus.APPROVED, version := c.version + 1)];
        } else {
          db.contracts := db.contracts[id := c.(status := DRAFT, link := None, version := c.version + 1)];
        }
      }
    }
  }

  class ContractsService {
    const db: Database
    const approvals: ApprovalsService

    constructor (db: Database, approvals: ApprovalsService)
      requires approvals.db == db
      ensures this.db == db && this.approvals == approvals
    {
      this.db := db;
      this.approvals := approvals;
    }

    method Create(monthlyFee: Amount, endDate: int) returns (id: nat)
      modifies db`contracts
      ensures id == old(|db.contracts|)
      ensures db.View() == Step(old(db.View()), Command.Create(monthlyFee, endDate))
    {
      id := |db.contracts|;
      db.contracts := db.contracts + [Contract(DRAFT, Rounded(monthlyFee), endDate, None, 1)];
    }

    method UpdateStatus(id: nat, status: ContractStatus) returns (error: Option<Error>)
      modifies db
      ensures Outcome(old(db.View()), UpdateStatusIn(old(db.View()), id, status), db.View(), error)
      ensures error.None? <==> id < old(|db.contracts|) && (old(db.contracts[id].status), status) in OPERATIONAL_MOVES
      ensures error.None? ==>
                && OnlyContract(old(db.View()), db.View(), id)
                && db.contracts[id] == old(db.contracts[id]).(status := status, version := old(db.contracts[id].version) + 1)
    {
      if id >= |db.contracts| {
        return Some(NotFound);
      }
      var existing := db.contracts[id];
      if status !in Transitions(existing.status) {
        return Some(WrongStatus);
      }
      db.contracts := db.contracts[id := existing.(status := status, version := existing.version + 1)];
      error := None;
    }

    method Submit(id: nat, user: User) returns (error: Option<Error>)
      requires approvals.db == db
      modifies db
      ensures Outcome(old(db.View()), SubmitIn(old(db.View()), id, user), db.View(), error)
    {
      if id >= |db.contracts| {
        return Some(NotFound);
      }
      var existing := db.contracts[id];
      if existing.status != DRAFT {
        return Some(WrongStatus);
      }
      var approval, refused := approvals.Start(CONTRACT_WORKFLOW, ContractResource(id), Some(existing.monthlyFee), user);
      if refused.Some? {
        return refused;
      }
      db.contracts := db.contracts[id :=
        existing.(status := PENDING_APPROVAL, link := Some(approval), version := existing.version + 1)];
      error := None;
    }

    method Approve(id: nat, user: User) returns (error: Option<Error>)
      requires approvals.db == db
      modifies db
      ensures Outcome(old(db.View()), ApproveIn(old(db.View()), id, user), db.View(), error)
    {
      if id >= |db.contracts| {
        return Some(NotFound);
      }
      var existing := db.contracts[id];
      if existing.status != PENDING_APPROVAL {
        return Some(WrongStatus);
      }
      if existing.link.None? {
        return Some(NoInstance);
      }
      var status, refused := approvals.Act(existing.link.value, user, APPROVE);
      if refused.Some? || status != ApprovalStatus.APPROVED {
        return refused;
      }
      var c := db.contracts[id];
      db.contracts := db.contracts[id := c.(status := ContractStatus.APPROVED, version := c.version + 1)];
      error := None;
    }

    method Reject(id: nat, user: User) returns (error: Option<Error>)
      requires approvals.db == db
      modifies db
      ensures Outcome(old(db.View()), RejectIn(old(db.View()), id, user), db.View(), error)
    {
      if id >= |db.contracts| {
        return Some(NotFound);
      }
      var existing := db.contracts[id];
      if existing.status != PENDING_APPROVAL {
        return Some(WrongStatus);
      }
      if existing.link.Some? {
        var status, refused := approvals.Act(existing.link.value, user, REJECT);
        if refused.Some? {
          return refused;
        }
      }
      var c := db.contracts[id];
      db.contracts := db.contracts[id := c.(status := DRAFT, link := None, version := c.version + 1)];
      error := None;
    }

    /** Marks every ACTIVE contract ending inside the window and lists it, in row order. */
    method ScanExpiring(today: int, horizon: int) returns (touched: seq<nat>)
      modifies db`contracts
      ensures db.contracts == ScannedContracts(old(db.contracts), today, horizon)
      ensures forall i :: i in touched <==> 0 <= i < old(|db.contracts|) && Due(old(db.contracts[i]), today, horizon)
      ensures forall i, j | 0 <= i < j < |touched| :: touched[i] < touched[j]
    {
      touched := [];
      for row := 0 to |db.contracts|
        invariant |db.contracts| == old(|db.contracts|)
        invariant forall i | 0 <= i < row :: db.contracts[i] == Expired(old(db.contracts[i]), today, horizon)
        invariant forall i | row <= i < |db.contracts| :: db.contracts[i] == old(db.contracts[i])
        invariant forall i :: i in touched <==> 0 <= i < row && Due(old(db.contracts[i]), today, horizon)
        invariant forall i, j | 0 <= i < j < |touched| :: touched[i] < touched[j]
      {
        var c := db.contracts[row];
        if c.status == ACTIVE && today <= c.endDate <= horizon {
          db.contracts := db.contracts[row := c.(status := EXPIRING, version := c.version + 1)];
          assert forall k | 0 <= k < |touched| :: touched[k] in touched;
          touched := touched + [row];
        }
      }
    }
  }

  // ---------------------------------------------------------------- runs

  datatype Command =
    | Create(monthlyFee: Amount, endDate: int)
    | Start(code: string, resource: Resource, amount: Option<Amount>, user: User)
    | Act(instance: nat, user: User, decision: Decision)
    | Submit(contract: nat, user: User)
    | Approve(contract: nat, user: User)
    | Reject(contract: nat, user: User)
    | UpdateStatus(contract: nat, status: ContractStatus)
    | ScanExpiring(today: int, horizon: int)

  /** One request; a refused one changes nothing. */
  function Step(s: Store, cmd: Command): Store {
    var r := match cmd
      case Create(fee, endDate) => Ok(s.(contracts := s.contracts + [Contract(DRAFT, Rounded(fee), endDate, None, 1)]))
      case Start(code, resource, amount, user) => StartIn(s, code, resource, amount, user)
      case Act(id, user, decision) => ActIn(s, id, user, decision)
      case Submit(id, user) => SubmitIn(s, id, user)
      case Approve(id, user) => ApproveIn(s, id, user)
      case Reject(id, user) => RejectIn(s, id, user)
      case UpdateStatus(id, status) => UpdateStatusIn(s, id, status)
      case ScanExpiring(today, horizon) => Ok(s.(contracts := ScannedContracts(s.contracts, today, horizon)));
    if r.Ok? then r.value else s
  }

  function Run(s: Store, cmds: seq<Command>): Store
    decreases |cmds|
  {
    if cmds == [] then s else Run(Step(s, cmds[0]), cmds[1..])
  }

  function Empty(workflows: map<string, seq<WorkflowStep>>): Store {
    Store(workflows, [], [])
  }

  /** Past the approval. */
  predicate Settled(status: ContractStatus) {
    status != DRAFT && status != PENDING_APPROVAL
  }

  // ---------------------------------------------------------------- settled only after an approval

  ghost predicate ApprovedFor(s: Store, c: nat) {
    exists i | 0 <= i < |s.instances| :: s.instances[i].resource == ContractResource(c) && s.instances[i].status == ApprovalStatus.APPROVED
  }

  ghost predicate BackedAt(s: Store, c: nat)
    requires c < |s.contracts|
  {
    && (s.contracts[c].link.Some? ==>
          s.contracts[c].link.value < |s.instances|
          && s.instances[s.contracts[c].link.value].resource == ContractResource(c))
    && (Settled(s.contracts[c].status) ==> ApprovedFor(s, c))
  }

  ghost predicate Backed(s: Store) {
    forall c | 0 <= c < |s.contracts| :: BackedAt(s, c)
  }

  /** Instances keep their resource, and an APPROVED one stays APPROVED. */
  ghost predicate InstancesPersist(s: Store, s': Store) {
    && |s.instances| <= |s'.instances|
    && (forall i | 0 <= i < |s.instances| ::
          && s'.instances[i].resource == s.instances[i].resource
          && (s.instances[i].status == ApprovalStatus.APPROVED ==> s'.instances[i].status == ApprovalStatus.APPROVED))
  }

  lemma BackedPersists(s: Store, s': Store, c: nat)
    requires c < |s.contracts| && c < |s'.contracts| && BackedAt(s, c) && InstancesPersist(s, s')
    requires s'.contracts[c].link == s.contracts[c].link || s'.contracts[c].link == None
    requires Settled(s'.contracts[c].status) ==> Settled(s.contracts[c].status) || ApprovedFor(s', c)
    ensures BackedAt(s', c)
  {
    if Settled(s.contracts[c].status) {
      var i :| 0 <= i < |s.instances| && s.instances[i].resource == ContractResource(c) && s.instances[i].status == ApprovalStatus.APPROVED;
      assert s'.instances[i].status == ApprovalStatus.APPROVED;
    }
  }

  lemma ActBacked(s: Store, id: nat, user: User, decision: Decision)
    requires Backed(s) && ActIn(s, id, user, decision).Ok?
    ensures var s' := ActIn(s, id, user, decision).value;
            Backed(s') && InstancesPersist(s, s') && |s'.contracts| == |s.contracts|
  {
    var s' := ActIn(s, id, user, decision).value;
    forall c | 0 <= c < |s'.contracts| ensures BackedAt(s', c) {
      assert BackedAt(s, c);
      if s'.contracts[c] != s.contracts[c] {
        assert s'.instances[id].resource == ContractResource(c);
      }
      BackedPersists(s, s', c);
    }
  }

  lemma StepBacked(s: Store, cmd: Command)
    requires Backed(s)
    ensures Backed(Step(s, cmd))
  {
    var s' := Step(s, cmd);
    match cmd
    case Approve(id, user) => if s' != s { ApproveBacked(s, id, user); }
    case Reject(id, user) => if s' != s { RejectBacked(s, id, user); }
    case Act(id, user, decision) => if s' != s { ActBacked(s, id, user, decision); }
    case Submit(id, _) =>
      forall c | 0 <= c < |s'.contracts| ensures BackedAt(s', c) {
        assert BackedAt(s, c);
        if c != id || s' == s { BackedPersists(s, s', c); }
      }
    case _ =>
      forall c | 0 <= c < |s'.contracts| ensures BackedAt(s', c) {
        if c < |s.contracts| {
          assert BackedAt(s, c);
          BackedPersists(s, s', c);
        }
      }
  }

  lemma ApproveBacked(s: Store, id: nat, user: User)
    requires Backed(s) && ApproveIn(s, id, user).Ok?
    ensures Backed(ApproveIn(s, id, user).value)
  {
    assert BackedAt(s, id);
    var link := s.contracts[id].link.value;
    var mid := ActIn(s, link, user, APPROVE).value;
    ActBacked(s, link, user, APPROVE);
    if mid.instances[link].status == ApprovalStatus.APPROVED {
      var s' := ApproveIn(s, id, user).value;
      assert mid.instances[link].resource == ContractResource(id);
      forall c | 0 <= c < |s'.contracts| ensures BackedAt(s', c) {
        assert BackedAt(mid, c);
      }
    }
  }

  lemma RejectBacked(s: Store, id: nat, user: User)
    requires Backed(s) && RejectIn(s, id, user).Ok?
    ensures Backed(RejectIn(s, id, user).value)
  {
    var link := s.contracts[id].link;
    if link.Some? { ActBacked(s, link.value, user, REJECT); }
    var mid := if link.Some? then ActIn(s, link.value, user, REJECT).value else s;
    var s' := RejectIn(s, id, user).value;
    forall c | 0 <= c < |s'.contracts| ensures BackedAt(s', c) {
      assert BackedAt(mid, c);
    }
  }

  lemma {:induction false} RunBacked(s: Store, cmds: seq<Command>)
    requires Backed(s)
    ensures Backed(Run(s, cmds))
    decreases |cmds|
  {
    if cmds != [] {
      StepBacked(s, cmds[0]);
      RunBacked(Step(s, cmds[0]), cmds[1..]);
    }
  }

  /** However the two APIs are used, a contract is past DRAFT and PENDING_APPROVAL only if an instance for it was approved. */
  lemma SettledOnlyAfterApproval(workflows: map<string, seq<WorkflowStep>>, cmds: seq<Command>, c: nat)
    requires c < |Run(Empty(workflows), cmds).contracts|
    requires Settled(Run(Empty(workflows), cmds).contracts[c].status)
    ensures ApprovedFor(Run(Empty(workflows), cmds), c)
  {
    RunBacked(Empty(workflows), cmds);
    assert BackedAt(Run(Empty(workflows), cmds), c);
  }

  // ---------------------------------------------------------------- the link, however the two APIs are used

  /**
   A DRAFT has no link. From then on the link is an instance of the contract workflow about this
   contract and its fee, and it is PENDING while the contract waits.
   */
  ghost predicate RootedAt(s: Store, c: nat)
    requires c < |s.contracts|
  {
    var k := s.contracts[c];
    && Whole(k.monthlyFee)
    && (k.status == DRAFT <==> k.link == None)
    && (k.link.Some? ==>
          && k.link.value < |s.instances| && CONTRACT_WORKFLOW in s.workflows
          && var i := s.instances[k.link.value];
            && i.resource == ContractResource(c) && i.amount == Some(k.monthlyFee)
            && i.steps == s.workflows[CONTRACT_WORKFLOW]
            && (k.status == PENDING_APPROVAL ==> i.status == PENDING))
  }

  ghost predicate Rooted(s: Store) {
    forall c | 0 <= c < |s.contracts| :: RootedAt(s, c)
  }

  lemma ActRooted(s: Store, id: nat, user: User, decision: Decision)
    requires Rooted(s) && ActIn(s, id, user, decision).Ok?
    ensures Rooted(ActIn(s, id, user, decision).value)
  {
    var s' := ActIn(s, id, user, decision).value;
    forall c | 0 <= c < |s'.contracts| ensures RootedAt(s', c) { assert RootedAt(s, c); }
  }

  lemma ApproveRooted(s: Store, id: nat, user: User)
    requires Rooted(s) && ApproveIn(s, id, user).Ok?
    ensures Rooted(ApproveIn(s, id, user).value)
  {
    assert RootedAt(s, id);
    var link := s.contracts[id].link.value;
    ActRooted(s, link, user, APPROVE);
    var mid, s' := ActIn(s, link, user, APPROVE).value, ApproveIn(s, id, user).value;
    forall c | 0 <= c < |s'.contracts| ensures RootedAt(s', c) { assert RootedAt(mid, c); }
  }

  lemma RejectRooted(s: Store, id: nat, user: User)
    requires Rooted(s) && RejectIn(s, id, user).Ok?
    ensures Rooted(RejectIn(s, id, user).value)
  {
    assert RootedAt(s, id);
    var link := s.contracts[id].link.value;
    ActRooted(s, link, user, REJECT);
    var mid, s' := ActIn(s, link, user, REJECT).value, RejectIn(s, id, user).value;
    forall c | 0 <= c < |s'.contracts| ensures RootedAt(s', c) { assert RootedAt(mid, c); }
  }

  lemma SubmitRooted(s: Store, id: nat, user: User)
    requires Rooted(s) && SubmitIn(s, id, user).Ok?
    ensures Rooted(SubmitIn(s, id, user).value)
  {
    var s' := SubmitIn(s, id, user).value;
    assert RootedAt(s, id);
    RoundedIsWhole(s.contracts[id].monthlyFee);
    forall c | 0 <= c < |s'.contracts| ensures RootedAt(s', c) { assert RootedAt(s, c); }
  }

  lemma CreateRooted(s: Store, fee: Amount, endDate: int)
    requires Rooted(s)
    ensures Rooted(Step(s, Create(fee, endDate)))
  {
    var s' := Step(s, Create(fee, endDate));
    RoundedIsWhole(fee);
    forall c | 0 <= c < |s'.contracts| ensures RootedAt(s', c) {
      if c < |s.contracts| { assert RootedAt(s, c); }
    }
  }

  /** Commands that keep every link and add or change no instance it leads to. */
  lemma OtherRooted(s: Store, cmd: Command)
    requires Rooted(s) && (cmd.Start? || cmd.UpdateStatus? || cmd.ScanExpiring?)
    ensures Rooted(Step(s, cmd))
  {
    var s' := Step(s, cmd);
    forall c | 0 <= c < |s'.contracts| ensures RootedAt(s', c) { assert RootedAt(s, c); }
  }

  lemma StepRooted(s: Store, cmd: Command)
    requires Rooted(s)
    ensures Rooted(Step(s, cmd)) && Step(s, cmd).workflows == s.workflows
  {
    if Step(s, cmd) == s { return; }
    match cmd
    case Act(id, user, decision) => ActRooted(s, id, user, decision);
    case Approve(id, user) => ApproveRooted(s, id, user);
    case Reject(id, user) => RejectRooted(s, id, user);
    case Submit(id, user) => SubmitRooted(s, id, user);
    case Create(fee, endDate) => CreateRooted(s, fee, endDate);
    case _ => OtherRooted(s, cmd);
  }

  lemma {:induction false} RunRooted(s: Store, cmds: seq<Command>)
    requires Rooted(s)
    ensures Rooted(Run(s, cmds)) && Run(s, cmds).workflows == s.workflows
    decreases |cmds|
  {
    if cmds != [] {
      StepRooted(s, cmds[0]);
      RunRooted(Step(s, cmds[0]), cmds[1..]);
    }
  }

  /** In every run a contract's link is about it and its own fee, and a waiting contract has a PENDING link. */
  lemma LinkIsOwn(workflows: map<string, seq<WorkflowStep>>, cmds: seq<Command>, c: nat)
    requires c < |Run(Empty(workflows), cmds).contracts|
    ensures var s := Run(Empty(workflows), cmds);
            var k := s.contracts[c];
            && (k.status == DRAFT <==> k.link == None)
            && (k.link.Some? ==>
                  && k.link.value < |s.instances| && s.instances[k.link.value].resource == ContractResource(c)
                  && s.instances[k.link.value].amount == Some(k.monthlyFee))
            && (k.status == PENDING_APPROVAL ==> s.instances[k.link.value].status == PENDING)
  {
    RunRooted(Empty(workflows), cmds);
    assert RootedAt(Run(Empty(workflows), cmds), c);
  }

  // ---------------------------------------------------------------- waiting exactly while the link is pending

  predicate LinkPending(s: Store, c: nat)
    requires c < |s.contracts|
  {
    var link := s.contracts[c].link;
    link.Some? && link.value < |s.instances| && s.instances[link.value].status == PENDING
  }

  predicate AgreesAt(s: Store, c: nat)
    requires c < |s.contracts|
  {
    s.contracts[c].status == PENDING_APPROVAL <==> LinkPending(s, c)
  }

  predicate Agrees(s: Store) {
    forall c | 0 <= c < |s.contracts| :: AgreesAt(s, c)
  }

  /** An approval in the queue that completes an instance about a contract which waits on another one. */
  predicate Overtakes(s: Store, cmd: Command) {
    && cmd.Act? && cmd.decision == APPROVE && ActIn(s, cmd.instance, cmd.user, cmd.decision).Ok?
    && var i := s.instances[cmd.instance];
      && i.resource.ContractResource? && i.resource.contract < |s.contracts|
      && s.contracts[i.resource.contract].status == PENDING_APPROVAL
      && s.contracts[i.resource.contract].link != Some(cmd.instance)
      && NextApplicableStep(i.steps, i.currentStepOrder, i.amount).None?
  }

  /** One decision in the queue keeps a contract in agreement with its link exactly unless it overtakes that link. */
  lemma ActAgreesIff(s: Store, id: nat, user: User, decision: Decision, c: nat)
    requires c < |s.contracts| && AgreesAt(s, c) && ActIn(s, id, user, decision).Ok?
    requires var link := s.contracts[c].link;
             link.Some? ==> link.value < |s.instances| && s.instances[link.value].resource == ContractResource(c)
    ensures AgreesAt(ActIn(s, id, user, decision).value, c) <==>
              !(s.instances[id].resource == ContractResource(c) && Overtakes(s, Act(id, user, decision)))
  {
  }

  /** The link of a contract past approval is APPROVED. */
  ghost predicate ApprovedLinks(s: Store) {
    forall c | 0 <= c < |s.contracts| && Settled(s.contracts[c].status) ::
      && s.contracts[c].link.Some? && s.contracts[c].link.value < |s.instances|
      && s.instances[s.contracts[c].link.value].status == ApprovalStatus.APPROVED
  }

  lemma ApprovedLinksAgree(s: Store)
    requires Rooted(s) && ApprovedLinks(s)
    ensures Agrees(s)
  {
    forall c | 0 <= c < |s.contracts| ensures AgreesAt(s, c) { assert RootedAt(s, c); }
  }

  lemma ActAgrees(s: Store, id: nat, user: User, decision: Decision)
    requires Rooted(s) && ApprovedLinks(s) && ActIn(s, id, user, decision).Ok?
    ensures var t := ActIn(s, id, user, decision).value;
            if Overtakes(s, Act(id, user, decision)) then !Agrees(t) else ApprovedLinks(t)
  {
    var t := ActIn(s, id, user, decision).value;
    ApprovedLinksAgree(s);
    if Overtakes(s, Act(id, user, decision)) {
      var c := s.instances[id].resource.contract;
      assert RootedAt(s, c) && AgreesAt(s, c);
      ActAgreesIff(s, id, user, decision, c);
      assert !AgreesAt(t, c);
    } else {
      forall c | 0 <= c < |t.contracts| && Settled(t.contracts[c].status)
        ensures t.contracts[c].link.Some? && t.contracts[c].link.value < |t.instances|
        ensures t.instances[t.contracts[c].link.value].status == ApprovalStatus.APPROVED
      {
        assert RootedAt(s, c);
      }
    }
  }

  lemma ApproveAgrees(s: Store, id: nat, user: User)
    requires Rooted(s) && ApprovedLinks(s) && ApproveIn(s, id, user).Ok?
    ensures ApprovedLinks(ApproveIn(s, id, user).value)
  {
    assert RootedAt(s, id);
    ActAgrees(s, s.contracts[id].link.value, user, APPROVE);
  }

  lemma RejectAgrees(s: Store, id: nat, user: User)
    requires Rooted(s) && ApprovedLinks(s) && RejectIn(s, id, user).Ok?
    ensures ApprovedLinks(RejectIn(s, id, user).value)
  {
    assert RootedAt(s, id);
    ActAgrees(s, s.contracts[id].link.value, user, REJECT);
  }

  lemma OtherAgrees(s: Store, cmd: Command)
    requires Rooted(s) && ApprovedLinks(s) && !cmd.Act? && !cmd.Approve? && !cmd.Reject?
    ensures ApprovedLinks(Step(s, cmd))
  {
    var s' := Step(s, cmd);
    forall c | 0 <= c < |s'.contracts| && Settled(s'.contracts[c].status)
      ensures s'.contracts[c].link.Some? && s'.contracts[c].link.value < |s'.instances|
      ensures s'.instances[s'.contracts[c].link.value].status == ApprovalStatus.APPROVED
    {
      assert RootedAt(s, c);
    }
  }

  /** A command breaks the agreement exactly by overtaking. */
  lemma StepAgrees(s: Store, cmd: Command)
    requires Rooted(s) && ApprovedLinks(s)
    ensures if Overtakes(s, cmd) then !Agrees(Step(s, cmd)) else ApprovedLinks(Step(s, cmd))
  {
    match cmd
    case Act(id, user, decision) => if ActIn(s, id, user, decision).Ok? { ActAgrees(s, id, user, decision); }
    case Approve(id, user) => if ApproveIn(s, id, user).Ok? { ApproveAgrees(s, id, user); }
    case Reject(id, user) => if RejectIn(s, id, user).Ok? { RejectAgrees(s, id, user); }
    case _ => OtherAgrees(s, cmd);
  }

  lemma {:induction false} RunSnoc(s: Store, cmds: seq<Command>, n: nat)
    requires n < |cmds|
    ensures Run(s, cmds[..n + 1]) == Step(Run(s, cmds[..n]), cmds[n])
    decreases n
  {
    assert cmds[..n + 1][0] == cmds[0] && cmds[..n + 1][1..] == cmds[1..][..n];
    if n > 0 {
      assert cmds[..n][1..] == cmds[1..][..n - 1];
      RunSnoc(Step(s, cmds[0]), cmds[1..], n - 1);
    }
  }

  /** The store after the first n commands. */
  function After(workflows: map<string, seq<WorkflowStep>>, cmds: seq<Command>, n: nat): Store
    requires n <= |cmds|
  {
    Run(Empty(workflows), cmds[..n])
  }

  predicate NeverOvertaken(workflows: map<string, seq<WorkflowStep>>, cmds: seq<Command>) {
    forall n | 0 <= n < |cmds| :: !Overtakes(After(workflows, cmds, n), cmds[n])
  }

  /** As long as nothing overtakes or everything agrees, the links stay approved. */
  lemma {:induction false} LinksStayApproved(workflows: map<string, seq<WorkflowStep>>, cmds: seq<Command>, n: nat)
    requires n <= |cmds|
    requires forall k | 0 <= k < n ::
               !Overtakes(After(workflows, cmds, k), cmds[k]) || Agrees(After(workflows, cmds, k + 1))
    ensures Rooted(After(workflows, cmds, n)) && ApprovedLinks(After(workflows, cmds, n))
    decreases n
  {
    RunRooted(Empty(workflows), cmds[..n]);
    if n > 0 {
      LinksStayApproved(workflows, cmds, n - 1);
      RunSnoc(Empty(workflows), cmds, n - 1);
      StepAgrees(After(workflows, cmds, n - 1), cmds[n - 1]);
      assert !Overtakes(After(workflows, cmds, n - 1), cmds[n - 1]) || Agrees(After(workflows, cmds, n - 1 + 1));
    }
  }

  /**
   For every run from the empty store: each contract is PENDING_APPROVAL exactly while its linked
   instance is PENDING, at every moment, if and only if no approval in the queue ever completes an
   instance about a contract that waits on another one.
   */
  lemma PendingIffLinkPending(workflows: map<string, seq<WorkflowStep>>, cmds: seq<Command>)
    ensures (forall n | 0 <= n <= |cmds| :: Agrees(After(workflows, cmds, n))) <==> NeverOvertaken(workflows, cmds)
  {
    if forall n | 0 <= n <= |cmds| :: Agrees(After(workflows, cmds, n)) {
      forall n | 0 <= n < |cmds| ensures !Overtakes(After(workflows, cmds, n), cmds[n]) {
        assert Agrees(After(workflows, cmds, n + 1));
        LinksStayApproved(workflows, cmds, n);
        RunSnoc(Empty(workflows), cmds, n);
        StepAgrees(After(workflows, cmds, n), cmds[n]);
      }
    }
    if NeverOvertaken(workflows, cmds) {
      forall n | 0 <= n <= |cmds| ensures Agrees(After(workflows, cmds, n)) {
        LinksStayApproved(workflows, cmds, n);
        ApprovedLinksAgree(After(workflows, cmds, n));
      }
    }
  }

  // ---------------------------------------------------------------- when only submit starts contract instances

  predicate OnlySubmitStarts(cmds: seq<Command>) {
    forall cmd | cmd in cmds && cmd.Start? :: !cmd.resource.ContractResource?
  }

  /** A pending contract instance is its contract's link. */
  ghost predicate OwnedAt(s: Store, i: nat)
    requires i < |s.instances|
  {
    s.instances[i].resource.ContractResource? ==>
      var c := s.instances[i].resource.contract;
      c < |s.contracts| && (s.instances[i].status == PENDING ==> s.contracts[c].link == Some(i))
  }

  ghost predicate Owned(s: Store) {
    forall i | 0 <= i < |s.instances| :: OwnedAt(s, i)
  }

  lemma ActOwned(s: Store, id: nat, user: User, decision: Decision)
    requires Owned(s) && ActIn(s, id, user, decision).Ok?
    ensures Owned(ActIn(s, id, user, decision).value)
  {
    var s' := ActIn(s, id, user, decision).value;
    assert OwnedAt(s, id);
    forall i | 0 <= i < |s'.instances| ensures OwnedAt(s', i) { assert OwnedAt(s, i); }
  }

  lemma ApproveOwned(s: Store, id: nat, user: User)
    requires Owned(s) && ApproveIn(s, id, user).Ok?
    ensures Owned(ApproveIn(s, id, user).value)
  {
    var link := s.contracts[id].link.value;
    ActOwned(s, link, user, APPROVE);
    var mid, s' := ActIn(s, link, user, APPROVE).value, ApproveIn(s, id, user).value;
    forall i | 0 <= i < |s'.instances| ensures OwnedAt(s', i) { assert OwnedAt(mid, i); }
  }

  lemma RejectOwned(s: Store, id: nat, user: User)
    requires Rooted(s) && Owned(s) && RejectIn(s, id, user).Ok?
    ensures Owned(RejectIn(s, id, user).value)
  {
    assert RootedAt(s, id);
    var link := s.contracts[id].link.value;
    ActOwned(s, link, user, REJECT);
    var mid, s' := ActIn(s, link, user, REJECT).value, RejectIn(s, id, user).value;
    forall i | 0 <= i < |s'.instances| ensures OwnedAt(s', i) {
      assert OwnedAt(s, i) && OwnedAt(mid, i);
    }
  }

  lemma OtherOwned(s: Store, cmd: Command)
    requires Rooted(s) && Owned(s) && !cmd.Act? && !cmd.Approve? && !cmd.Reject?
    requires cmd.Start? ==> !cmd.resource.ContractResource?
    ensures Owned(Step(s, cmd))
  {
    var s' := Step(s, cmd);
    match cmd {
      case Submit(id, _) => if s' != s { assert RootedAt(s, id); }
      case _ =>
    }
    forall i | 0 <= i < |s'.instances| ensures OwnedAt(s', i) {
      if i < |s.instances| { assert OwnedAt(s, i); }
    }
  }

  lemma StepOwned(s: Store, cmd: Command)
    requires Rooted(s) && Owned(s)
    requires cmd.Start? ==> !cmd.resource.ContractResource?
    ensures Owned(Step(s, cmd)) && !Overtakes(s, cmd)
  {
    match cmd
    case Act(id, user, decision) =>
      if ActIn(s, id, user, decision).Ok? {
        assert OwnedAt(s, id);
        ActOwned(s, id, user, decision);
      }
    case Approve(id, user) => if ApproveIn(s, id, user).Ok? { ApproveOwned(s, id, user); }
    case Reject(id, user) => if RejectIn(s, id, user).Ok? { RejectOwned(s, id, user); }
    case _ => OtherOwned(s, cmd);
  }

  lemma {:induction false} RunOwned(s: Store, cmds: seq<Command>)
    requires Rooted(s) && Owned(s) && OnlySubmitStarts(cmds)
    ensures Owned(Run(s, cmds))
    decreases |cmds|
  {
    if cmds != [] {
      StepRooted(s, cmds[0]);
      StepOwned(s, cmds[0]);
      RunOwned(Step(s, cmds[0]), cmds[1..]);
    }
  }

  /** Runs in which contract instances are started by `submit` only are never overtaken. */
  lemma OnlySubmitNeverOvertakes(workflows: map<string, seq<WorkflowStep>>, cmds: seq<Command>)
    requires OnlySubmitStarts(cmds)
    ensures NeverOvertaken(workflows, cmds)
  {
    forall n | 0 <= n < |cmds| ensures !Overtakes(After(workflows, cmds, n), cmds[n]) {
      RunRooted(Empty(workflows), cmds[..n]);
      RunOwned(Empty(workflows), cmds[..n]);
      StepOwned(After(workflows, cmds, n), cmds[n]);
    }
  }

  /** Overtaking happens: a second instance, opened by hand, settles the contract while its link waits. */
  lemma SecondInstanceOvertakesLink(step: WorkflowStep, creator: User, officer: User)
    requires step.amountThreshold.None? && step.requiredRole in officer.roles && creator.id != officer.id
    ensures var cmds := [Create(0.0, 0), Submit(0, creator),
                         Start(CONTRACT_WORKFLOW, ContractResource(0), None, creator), Act(1, officer, APPROVE)];
            var s := Run(Empty(map[CONTRACT_WORKFLOW := [step]]), cmds);
            && |s.contracts| == 1 && |s.instances| == 2
            && s.contracts[0].link == Some(0) && s.instances[0].status == PENDING
            && s.contracts[0].status == ContractStatus.APPROVED
  {
    var s0 := Empty(map[CONTRACT_WORKFLOW := [step]]);
    RunFour(s0, Create(0.0, 0), Submit(0, creator),
            Start(CONTRACT_WORKFLOW, ContractResource(0), None, creator), Act(1, officer, APPROVE));
    var pending := Instance([step], None, ContractResource(0), creator.id, PENDING, step.stepOrder, []);
    RoundedIsWhole(0.0);
    var s2 := Step(Step(s0, Create(0.0, 0)), Submit(0, creator));
    assert s2 == Store(s0.workflows, [pending.(amount := Some(0.0))], [Contract(PENDING_APPROVAL, 0.0, 0, Some(0), 2)]);
    var s3 := Step(s2, Start(CONTRACT_WORKFLOW, ContractResource(0), None, creator));
    assert s3.instances == [pending.(amount := Some(0.0)), pending];
    assert [step][1..] == [] && Acted(pending, officer, APPROVE).Ok?;
  }

  lemma RunFour(s: Store, a: Command, b: Command, c: Command, d: Command)
    ensures Run(s, [a, b, c, d]) == Step(Step(Step(Step(s, a), b), c), d)
  {
    var s1 := Step(s, a);
    var s2 := Step(s1, b);
    assert [a, b, c, d][1..] == [b, c, d] && [b, c, d][1..] == [c, d] && [c, d][1..] == [d] && [d][1..] == [];
    assert Run(s, [a, b, c, d]) == Run(s1, [b, c, d]) == Run(s2, [c, d]);
    assert Run(Step(s2, c), [d]) == Step(Step(s2, c), d);
  }

  // ---------------------------------------------------------------- the whole matrix stands behind a settled contract

  predicate StrictOrders(workflows: map<string, seq<WorkflowStep>>) {
    forall code | code in workflows ::
      forall i, j | 0 <= i < j < |workflows[code]| :: workflows[code][i].stepOrder < workflows[code][j].stepOrder
  }

  /** The instance a contract is linked to leaves the exact trail. */
  ghost predicate LinkTrails(s: Store) {
    forall c | 0 <= c < |s.contracts| && s.contracts[c].link.Some? ::
      s.contracts[c].link.value < |s.instances| && Trail(s.instances[s.contracts[c].link.value])
  }

  /** A fee is stored already, so nothing is rounded when it is submitted. */
  lemma SubmittedTrail(s: Store, id: nat, user: User)
    requires StrictOrders(s.workflows) && Rooted(s) && SubmitIn(s, id, user).Ok?
    ensures var t := SubmitIn(s, id, user).value; Trail(t.instances[|s.instances|])
  {
    assert RootedAt(s, id);
    var steps, fee := s.workflows[CONTRACT_WORKFLOW], Some(s.contracts[id].monthlyFee);
    RoundedIsWhole(fee.value);
    FirstIsHead(steps, fee);
    assert Sorted(steps) && OwnOrders(steps, fee);
  }

  lemma DecidedTrails(s: Store, id: nat, user: User, decision: Decision)
    requires LinkTrails(s) && ActIn(s, id, user, decision).Ok?
    ensures LinkTrails(ActIn(s, id, user, decision).value)
  {
    if Trail(s.instances[id]) { ActedTrail(s.instances[id], user, decision); }
  }

  lemma SubmitTrails(s: Store, id: nat, user: User)
    requires StrictOrders(s.workflows) && Rooted(s) && LinkTrails(s) && SubmitIn(s, id, user).Ok?
    ensures LinkTrails(SubmitIn(s, id, user).value)
  {
    SubmittedTrail(s, id, user);
  }

  lemma ApproveTrails(s: Store, id: nat, user: User)
    requires LinkTrails(s) && ApproveIn(s, id, user).Ok?
    ensures LinkTrails(ApproveIn(s, id, user).value)
  {
    DecidedTrails(s, s.contracts[id].link.value, user, APPROVE);
  }

  lemma RejectTrails(s: Store, id: nat, user: User)
    requires LinkTrails(s) && RejectIn(s, id, user).Ok?
    ensures LinkTrails(RejectIn(s, id, user).value)
  {
    if s.contracts[id].link.Some? { DecidedTrails(s, s.contracts[id].link.value, user, REJECT); }
  }

  lemma OtherTrails(s: Store, cmd: Command)
    requires LinkTrails(s) && (cmd.Create? || cmd.Start? || cmd.UpdateStatus? || cmd.ScanExpiring?)
    ensures LinkTrails(Step(s, cmd))
  {
  }

  lemma StepKeepsTrails(s: Store, cmd: Command)
    requires StrictOrders(s.workflows) && Rooted(s) && LinkTrails(s)
    ensures LinkTrails(Step(s, cmd))
  {
    match cmd
    case Submit(id, user) => if SubmitIn(s, id, user).Ok? { SubmitTrails(s, id, user); }
    case Act(id, user, decision) => if ActIn(s, id, user, decision).Ok? { DecidedTrails(s, id, user, decision); }
    case Approve(id, user) => if ApproveIn(s, id, user).Ok? { ApproveTrails(s, id, user); }
    case Reject(id, user) => if RejectIn(s, id, user).Ok? { RejectTrails(s, id, user); }
    case _ => OtherTrails(s, cmd);
  }

  lemma {:induction false} RunKeepsTrails(s: Store, cmds: seq<Command>)
    requires StrictOrders(s.workflows) && Rooted(s) && LinkTrails(s)
    ensures LinkTrails(Run(s, cmds))
    decreases |cmds|
  {
    if cmds != [] {
      StepRooted(s, cmds[0]);
      StepKeepsTrails(s, cmds[0]);
      RunKeepsTrails(Step(s, cmds[0]), cmds[1..]);
    }
  }

  /** One approval by an authorised officer for every step the fee calls for, in step order. */
  ghost predicate MatrixApproved(i: Instance, steps: seq<WorkflowStep>, fee: Amount) {
    var matrix := Applicable(steps, Some(fee));
    && |i.actions| == |matrix|
    && forall n | 0 <= n < |matrix| ::
        && i.actions[n].stepOrder == matrix[n].stepOrder && i.actions[n].decision == APPROVE
        && Authorised(i.actions[n].actor, matrix[n], i.createdBy)
  }

  /**
   In any run, the whole matrix that a settled contract's fee calls for was approved on its link
   exactly if the link is APPROVED, and so it always was in a run without overtaking.
   */
  lemma SettledContractHasWholeMatrix(workflows: map<string, seq<WorkflowStep>>, cmds: seq<Command>, c: nat)
    requires StrictOrders(workflows) && c < |Run(Empty(workflows), cmds).contracts|
    requires Settled(Run(Empty(workflows), cmds).contracts[c].status)
    ensures var s := Run(Empty(workflows), cmds);
            && CONTRACT_WORKFLOW in workflows && s.contracts[c].link.Some? && s.contracts[c].link.value < |s.instances|
            && var i := s.instances[s.contracts[c].link.value];
              var approved := MatrixApproved(i, workflows[CONTRACT_WORKFLOW], s.contracts[c].monthlyFee);
              && (approved <==> i.status == ApprovalStatus.APPROVED)
              && (NeverOvertaken(workflows, cmds) ==> approved)
  {
    var s := Run(Empty(workflows), cmds);
    RunRooted(Empty(workflows), cmds);
    RunKeepsTrails(Empty(workflows), cmds);
    assert RootedAt(s, c);
    var i := s.instances[s.contracts[c].link.value];
    assert Trail(i);
    if i.status == REJECTED { assert i.actions[|i.actions| - 1].decision == REJECT; }
    assert cmds[..|cmds|] == cmds;
    if NeverOvertaken(workflows, cmds) { LinksStayApproved(workflows, cmds, |cmds|); }
  }

  // ---------------------------------------------------------------- the lifecycle only moves on

  predicate Ended(status: ContractStatus) {
    status == TERMINATED || status == CANCELLED
  }

  /** The fee and end date are fixed, a settled contract stays settled, an ended one keeps its status. */
  ghost predicate MovesOn(s: Store, t: Store) {
    && |s.contracts| <= |t.contracts|
    && (forall c | 0 <= c < |s.contracts| ::
          && t.contracts[c].monthlyFee == s.contracts[c].monthlyFee && t.contracts[c].endDate == s.contracts[c].endDate
          && (Settled(s.contracts[c].status) ==> Settled(t.contracts[c].status))
          && (Ended(s.contracts[c].status) ==> t.contracts[c] == s.contracts[c])
          && (Settled(s.contracts[c].status) && s.contracts[c].status != ContractStatus.APPROVED ==>
                t.contracts[c].status != ContractStatus.APPROVED
                && (t.contracts[c].status == CANCELLED ==> s.contracts[c].status == CANCELLED)))
  }

  lemma MovesOnTransitive(s: Store, t: Store, u: Store)
    requires MovesOn(s, t) && MovesOn(t, u)
    ensures MovesOn(s, u)
  {
    forall c | 0 <= c < |s.contracts| ensures Ended(s.contracts[c].status) ==> u.contracts[c] == s.contracts[c] {
      assert Ended(s.contracts[c].status) ==> t.contracts[c] == s.contracts[c];
    }
    forall c | 0 <= c < |s.contracts|
      ensures u.contracts[c].monthlyFee == s.contracts[c].monthlyFee && u.contracts[c].endDate == s.contracts[c].endDate
    {
      assert t.contracts[c].monthlyFee == s.contracts[c].monthlyFee && t.contracts[c].endDate == s.contracts[c].endDate;
    }
    forall c | 0 <= c < |s.contracts| && Settled(s.contracts[c].status)
      ensures Settled(u.contracts[c].status)
      ensures s.contracts[c].status != ContractStatus.APPROVED ==>
                u.contracts[c].status != ContractStatus.APPROVED
                && (u.contracts[c].status == CANCELLED ==> s.contracts[c].status == CANCELLED)
    {
      assert Settled(t.contracts[c].status);
    }
  }

  lemma ActMovesOn(s: Store, id: nat, user: User, decision: Decision)
    ensures ActIn(s, id, user, decision).Ok? ==> MovesOn(s, ActIn(s, id, user, decision).value)
  {
  }

  lemma ApproveMovesOn(s: Store, id: nat, user: User)
    ensures ApproveIn(s, id, user).Ok? ==> MovesOn(s, ApproveIn(s, id, user).value)
  {
    if ApproveIn(s, id, user).Ok? { ActMovesOn(s, s.contracts[id].link.value, user, APPROVE); }
  }

  lemma RejectMovesOn(s: Store, id: nat, user: User)
    ensures RejectIn(s, id, user).Ok? ==> MovesOn(s, RejectIn(s, id, user).value)
  {
    if RejectIn(s, id, user).Ok? && s.contracts[id].link.Some? {
      ActMovesOn(s, s.contracts[id].link.value, user, REJECT);
    }
  }

  lemma StepMovesOn(s: Store, cmd: Command)
    ensures MovesOn(s, Step(s, cmd))
  {
    match cmd
    case Act(id, user, decision) => ActMovesOn(s, id, user, decision);
    case Approve(id, user) => ApproveMovesOn(s, id, user);
    case Reject(id, user) => RejectMovesOn(s, id, user);
    case _ =>
  }

  /**
   Over every run: what has been approved never goes back to DRAFT or PENDING_APPROVAL, TERMINATED
   and CANCELLED contracts are never written again, and only a contract that has not yet been
   activated can be cancelled.
   */
  lemma {:induction false} LifecycleMovesOn(s: Store, cmds: seq<Command>)
    ensures MovesOn(s, Run(s, cmds))
    decreases |cmds|
  {
    if cmds != [] {
      StepMovesOn(s, cmds[0]);
      LifecycleMovesOn(Step(s, cmds[0]), cmds[1..]);
      MovesOnTransitive(s, Step(s, cmds[0]), Run(Step(s, cmds[0]), cmds[1..]));
    }
  }

  // ---------------------------------------------------------------- the two routes agree

  /** Rows alike except for contract version counters. */
  ghost predicate AlikeButVersion(s: Store, t: Store) {
    && s.workflows == t.workflows && s.instances == t.instances && |s.contracts| == |t.contracts|
    && (forall c | 0 <= c < |s.contracts| :: s.contracts[c].(version := 0) == t.contracts[c].(version := 0))
  }

  /** One decision about contract c, through the contract route or straight on its instance in the queue. */
  function DecideVia(s: Store, c: nat, instance: nat, user: User, decision: Decision, contractRoute: bool): Store {
    if !contractRoute then Step(s, Act(instance, user, decision))
    else if decision == APPROVE then Step(s, Approve(c, user))
    else Step(s, Reject(c, user))
  }

  function DecideAll(s: Store, c: nat, instance: nat, decisions: seq<(User, Decision, bool)>): Store
    decreases |decisions|
  {
    if decisions == [] then s
    else DecideAll(DecideVia(s, c, instance, decisions[0].0, decisions[0].1, decisions[0].2), c, instance, decisions[1..])
  }

  /** Contract c waits on that instance, or both have left their pending state. */
  ghost predicate Waiting(s: Store, c: nat, instance: nat) {
    && c < |s.contracts| && instance < |s.instances|
    && s.instances[instance].resource == ContractResource(c)
    && (s.contracts[c].status == PENDING_APPROVAL <==> s.instances[instance].status == PENDING)
    && (s.contracts[c].status == PENDING_APPROVAL ==> s.contracts[c].link == Some(instance))
  }

  lemma RoutesAgreeOnce(s: Store, t: Store, c: nat, instance: nat, user: User, decision: Decision, r1: bool, r2: bool)
    requires Waiting(s, c, instance) && Waiting(t, c, instance) && AlikeButVersion(s, t)
    ensures var s', t' := DecideVia(s, c, instance, user, decision, r1), DecideVia(t, c, instance, user, decision, r2);
            Waiting(s', c, instance) && Waiting(t', c, instance) && AlikeButVersion(s', t')
  {
    assert s.contracts[c].(version := 0) == t.contracts[c].(version := 0);
    RouteIsRaw(s, c, instance, user, decision, r1);
    RouteIsRaw(t, c, instance, user, decision, r2);
  }

  /** What one decision does, whatever the route: the instance is decided and the contract follows. */
  lemma RouteIsRaw(s: Store, c: nat, instance: nat, user: User, decision: Decision, route: bool)
    requires Waiting(s, c, instance)
    ensures var s' := DecideVia(s, c, instance, user, decision, route);
            var r := Acted(s.instances[instance], user, decision);
            && Waiting(s', c, instance)
            && s'.workflows == s.workflows
            && s'.instances == (if r.Ok? then s.instances[instance := r.value] else s.instances)
            && |s'.contracts| == |s.contracts|
            && (forall d | 0 <= d < |s.contracts| && d != c :: s'.contracts[d] == s.contracts[d])
            && s'.contracts[c].(version := 0) == if r.Err? || r.value.status == PENDING then s.contracts[c].(version := 0)
               else if r.value.status == ApprovalStatus.APPROVED then s.contracts[c].(version := 0, status := ContractStatus.APPROVED)
               else s.contracts[c].(version := 0, status := DRAFT, link := None)
    ensures var r := Acted(s.instances[instance], user, decision);
            DecideVia(s, c, instance, user, decision, route).contracts[c].version
            == s.contracts[c].version + (if r.Err? || r.value.status == PENDING then 0 else if route then 2 else 1)
  {
  }

  /**
   Deciding a submitted contract through `contracts.approve`/`reject`, through the approvals
   queue, or any mixture of both leaves the same instance, contract status and link; only
   the version counter can differ.
   */
  lemma {:induction false} RoutesAgree(s: Store, t: Store, c: nat, instance: nat,
                                       decisions: seq<(User, Decision, bool)>, others: seq<(User, Decision, bool)>)
    requires Waiting(s, c, instance) && Waiting(t, c, instance) && AlikeButVersion(s, t)
    requires |decisions| == |others|
    requires forall n | 0 <= n < |decisions| :: decisions[n].0 == others[n].0 && decisions[n].1 == others[n].1
    ensures AlikeButVersion(DecideAll(s, c, instance, decisions), DecideAll(t, c, instance, others))
    decreases |decisions|
  {
    if decisions != [] {
      var (user, decision, r1) := decisions[0];
      var r2 := others[0].2;
      RoutesAgreeOnce(s, t, c, instance, user, decision, r1, r2);
      RoutesAgree(DecideVia(s, c, instance, user, decision, r1), DecideVia(t, c, instance, user, decision, r2),
                  c, instance, decisions[1..], others[1..]);
    }
  }

  /** Every contract awaiting approval in a reachable store is in the position the two routes agree on. */
  lemma ReachablePendingIsWaiting(workflows: map<string, seq<WorkflowStep>>, cmds: seq<Command>, c: nat)
    requires c < |Run(Empty(workflows), cmds).contracts|
    requires Run(Empty(workflows), cmds).contracts[c].status == PENDING_APPROVAL
    ensures var s := Run(Empty(workflows), cmds); s.contracts[c].link.Some? && Waiting(s, c, s.contracts[c].link.value)
  {
    LinkIsOwn(workflows, cmds, c);
  }

  // ---------------------------------------------------------------- one request at a time

  /** A new contract is a DRAFT at version 1 whose fee is the nearest hundredth to the one sent. */
  lemma CreateOutcome(s: Store, fee: Amount, endDate: int)
    ensures var t := Step(s, Create(fee, endDate));
            && t.workflows == s.workflows && t.instances == s.instances
            && |t.contracts| == |s.contracts| + 1 && t.contracts[..|s.contracts|] == s.contracts
            && var k := t.contracts[|s.contracts|];
              && k.status == DRAFT && k.link == None && k.version == 1 && k.endDate == endDate
              && Whole(k.monthlyFee) && fee - 0.5 <= k.monthlyFee <= fee + 0.5
  {
    RoundedIsWhole(fee);
  }

  /** A status change by hand is one of six moves, and then only the status and the version of that row change. */
  lemma UpdateStatusOutcome(s: Store, c: nat, status: ContractStatus)
    ensures UpdateStatusIn(s, c, status).Ok? <==>
              c < |s.contracts| && (s.contracts[c].status, status) in OPERATIONAL_MOVES
    ensures UpdateStatusIn(s, c, status).Ok? ==>
              var t := Step(s, UpdateStatus(c, status));
              && OnlyContract(s, t, c)
              && t.contracts[c].status == status && t.contracts[c].version == s.contracts[c].version + 1
              && t.contracts[c].(status := s.contracts[c].status, version := s.contracts[c].version) == s.contracts[c]
    ensures UpdateStatusIn(s, c, status).Err? ==>
              Step(s, UpdateStatus(c, status)) == s
              && UpdateStatusIn(s, c, status).error == if c < |s.contracts| then WrongStatus else NotFound
  {
  }

  /** An instance is opened at the first step its amount selects, and nothing else changes. */
  lemma StartOutcome(s: Store, code: string, resource: Resource, amount: Option<Amount>, user: User)
    ensures StartIn(s, code, resource, amount, user).Ok? <==>
              code in s.workflows && Applicable(s.workflows[code], amount) != []
    ensures StartIn(s, code, resource, amount, user).Ok? ==>
              var t := StartIn(s, code, resource, amount, user).value;
              && t.workflows == s.workflows && t.contracts == s.contracts
              && t.instances == s.instances
                 + [Instance(s.workflows[code], Stored(amount), resource, user.id, PENDING,
                             Applicable(s.workflows[code], amount)[0].stepOrder, [])]
    ensures StartIn(s, code, resource, amount, user).Err? ==>
              StartIn(s, code, resource, amount, user).error == if code in s.workflows then NoApplicableStep else NotFound
  {
    if code in s.workflows { FirstIsHead(s.workflows[code], amount); }
  }

  /** A DRAFT is submitted exactly if its fee selects a step; it then waits on a new instance about itself and its fee. */
  lemma SubmitOutcome(s: Store, c: nat, user: User)
    requires Rooted(s)
    ensures SubmitIn(s, c, user).Ok? <==>
              && c < |s.contracts| && s.contracts[c].status == DRAFT && CONTRACT_WORKFLOW in s.workflows
              && Applicable(s.workflows[CONTRACT_WORKFLOW], Some(s.contracts[c].monthlyFee)) != []
    ensures SubmitIn(s, c, user).Ok? ==>
              var t, fee := SubmitIn(s, c, user).value, Some(s.contracts[c].monthlyFee);
              && t.instances == s.instances
                 + [Instance(s.workflows[CONTRACT_WORKFLOW], fee, ContractResource(c), user.id, PENDING,
                             Applicable(s.workflows[CONTRACT_WORKFLOW], fee)[0].stepOrder, [])]
              && OnlyContract(s, t.(instances := s.instances), c)
              && t.contracts[c] == s.contracts[c].(status := PENDING_APPROVAL, link := Some(|s.instances|),
                                                   version := s.contracts[c].version + 1)
    ensures SubmitIn(s, c, user).Err? ==>
              SubmitIn(s, c, user).error == if c >= |s.contracts| then NotFound
                                            else if s.contracts[c].status != DRAFT then WrongStatus
                                            else if CONTRACT_WORKFLOW in s.workflows then NoApplicableStep else NotFound
  {
    if c < |s.contracts| {
      assert RootedAt(s, c);
      RoundedIsWhole(s.contracts[c].monthlyFee);
      StartOutcome(s, CONTRACT_WORKFLOW, ContractResource(c), Some(s.contracts[c].monthlyFee), user);
    }
  }

  /**
   A decision in the queue is accepted exactly if its instance accepts it; then only that instance
   changes, and the contract it is about follows a final status, if it waits.
   */
  lemma ActOutcome(s: Store, id: nat, user: User, decision: Decision)
    ensures ActIn(s, id, user, decision).Ok? <==> id < |s.instances| && Acted(s.instances[id], user, decision).Ok?
    ensures ActIn(s, id, user, decision).Err? ==>
              ActIn(s, id, user, decision).error == if id >= |s.instances| then NotFound
                                                    else Acted(s.instances[id], user, decision).error
    ensures ActIn(s, id, user, decision).Ok? ==>
              var t, i := ActIn(s, id, user, decision).value, Acted(s.instances[id], user, decision).value;
              && t.workflows == s.workflows && t.instances == s.instances[id := i] && |t.contracts| == |s.contracts|
              && forall c | 0 <= c < |s.contracts| ::
                  var k, k' := s.contracts[c], t.contracts[c];
                  if i.resource != ContractResource(c) || k.status != PENDING_APPROVAL || i.status == PENDING then k' == k
                  else && k'.version == k.version + 1 && k'.monthlyFee == k.monthlyFee && k'.endDate == k.endDate
                       && (i.status == ApprovalStatus.APPROVED ==> k'.status == ContractStatus.APPROVED && k'.link == k.link)
                       && (i.status == REJECTED ==> k'.status == DRAFT && k'.link == None)
  {
  }

  /** The contract routes are open exactly while the contract waits; then its linked instance has the last word. */
  lemma RouteOutcome(s: Store, c: nat, user: User, decision: Decision)
    requires Rooted(s)
    ensures var r := if decision == APPROVE then ApproveIn(s, c, user) else RejectIn(s, c, user);
            if c >= |s.contracts| then r == Err(NotFound)
            else if s.contracts[c].status != PENDING_APPROVAL then r == Err(WrongStatus)
            else
              var link := s.contracts[c].link;
              && link.Some? && link.value < |s.instances|
              && match Acted(s.instances[link.value], user, decision)
                 case Ok(_) => r.Ok?
                 case Err(e) => r == Err(e)
  {
    if c < |s.contracts| { assert RootedAt(s, c); }
  }

  /** The scan moves exactly the ACTIVE contracts that end between today and the horizon, both days included. */
  lemma ScanOutcome(s: Store, today: int, horizon: int)
    ensures var t := Step(s, ScanExpiring(today, horizon));
            && t.workflows == s.workflows && t.instances == s.instances && |t.contracts| == |s.contracts|
            && forall c | 0 <= c < |s.contracts| ::
                if s.contracts[c].status == ACTIVE && today <= s.contracts[c].endDate <= horizon
                then t.contracts[c] == s.contracts[c].(status := EXPIRING, version := s.contracts[c].version + 1)
                else t.contracts[c] == s.contracts[c]
  {
  }

  /** Scanning again at the same dates finds nothing left to mark. */
  lemma ScanTwice(cs: seq<Contract>, today: int, horizon: int)
    ensures var once := ScannedContracts(cs, today, horizon); ScannedContracts(once, today, horizon) == once
  {
  }
}
