/**
 backend/libs/assets: the asset register, whose status column is a cached summary of the
 assignment table.
 */
module Assets {
  import opened Wrappers

  datatype AssetStatus = AVAILABLE | ASSIGNED | MAINTENANCE | DISPOSED | RETURN_PENDING

  datatype Asset = Asset(tag: string, status: AssetStatus)

  /**
   A custody record, open until it is returned. `requestedBy` is the user who asked for the
   return, `confirmedBy` the one who closed it.
   */
  datatype Assignment = Assignment(
    asset: nat,
    assignee: string,
    open: bool,
    requestedBy: Option<string>,
    condition: Option<string>,
    confirmedBy: Option<string>
  )

  /** Rows are identified by position; assignments are in the order they were made. */
  datatype Store = Store(assets: seq<Asset>, assignments: seq<Assignment>)

  datatype Error = NotFound | DuplicateTag | InvalidAssignee | NotAvailable | ReturnPending | NotAssigned
                 | NotDisposable | NotInMaintenance | Disposed | NotRequested | RequesterCannotConfirm

  const TRANSFER := "TRANSFER"
  const DAMAGED := "DAMAGED"
  const LOST := "LOST"

  predicate Held(status: AssetStatus) {
    status == ASSIGNED || status == RETURN_PENDING
  }

  function StatusAfterReturn(condition: string): AssetStatus {
    if condition == DAMAGED then MAINTENANCE
    else if condition == LOST then DISPOSED
    else AVAILABLE
  }

  /** The latest open assignment of an asset. */
  function Active(assignments: seq<Assignment>, asset: nat): (r: Option<nat>)
    ensures r.Some? ==> r.value < |assignments| && assignments[r.value].open && assignments[r.value].asset == asset
    ensures r.None? ==> forall i | 0 <= i < |assignments| :: !(assignments[i].open && assignments[i].asset == asset)
  {
    if assignments == [] then None
    else
      var last := |assignments| - 1;
      if assignments[last].open && assignments[last].asset == asset then Some(last)
      else Active(assignments[..last], asset)
  }

  // ---------------------------------------------------------------- what each handler does to the rows

  function Closed(a: Assignment, condition: string, user: string): Assignment {
    a.(open := false, condition := Some(condition), confirmedBy := Some(user))
  }

  function WithStatus(s: Store, id: nat, status: AssetStatus): Store
    requires id < |s.assets|
  {
    s.(assets := s.assets[id := s.assets[id].(status := status)])
  }

  function Created(s: Store, tag: string): Result<Store, Error> {
    if exists i | 0 <= i < |s.assets| :: s.assets[i].tag == tag then Err(DuplicateTag)
    else Ok(s.(assets := s.assets + [Asset(tag, AVAILABLE)]))
  }

  /** `assigneeKnown`: an employee or guard is named, and every one named is on the books. */
  function Assigned(s: Store, id: nat, assignee: string, assigneeKnown: bool): Result<Store, Error> {
    if !assigneeKnown then Err(InvalidAssignee)
    else if id >= |s.assets| then Err(NotFound)
    else if s.assets[id].status != AVAILABLE then Err(NotAvailable)
    else Ok(WithStatus(s.(assignments := s.assignments + [Assignment(id, assignee, true, None, None, None)]), id, ASSIGNED))
  }

  function Transferred(s: Store, id: nat, assignee: string, assigneeKnown: bool, user: string): Result<Store, Error> {
    if !assigneeKnown then Err(InvalidAssignee)
    else if id >= |s.assets| then Err(NotFound)
    else if s.assets[id].status == RETURN_PENDING then Err(ReturnPending)
    else if s.assets[id].status != ASSIGNED then Err(NotAssigned)
    else
      var active := Active(s.assignments, id);
      if active.None? then Err(NotFound)
      else
        var closed := s.assignments[active.value := Closed(s.assignments[active.value], TRANSFER, user)];
        Ok(WithStatus(s.(assignments := closed + [Assignment(id, assignee, true, None, None, None)]), id, ASSIGNED))
  }

  function DisposedOf(s: Store, id: nat): Result<Store, Error> {
    if id >= |s.assets| then Err(NotFound)
    else if s.assets[id].status != AVAILABLE && s.assets[id].status != MAINTENANCE then Err(NotDisposable)
    else Ok(WithStatus(s, id, DISPOSED))
  }

  function MaintenanceStarted(s: Store, id: nat): Result<Store, Error> {
    if id >= |s.assets| then Err(NotFound)
    else if s.assets[id].status != AVAILABLE then Err(NotAvailable)
    else Ok(WithStatus(s, id, MAINTENANCE))
  }

  function MaintenanceCompleted(s: Store, id: nat): Result<Store, Error> {
    if id >= |s.assets| then Err(NotFound)
    else if s.assets[id].status != MAINTENANCE then Err(NotInMaintenance)
    else Ok(WithStatus(s, id, AVAILABLE))
  }

  function DamageRecorded(s: Store, id: nat, condition: string): Result<Store, Error> {
    if id >= |s.assets| then Err(NotFound)
    else if s.assets[id].status == DISPOSED then Err(Disposed)
    else if s.assets[id].status == AVAILABLE && condition == DAMAGED then Ok(WithStatus(s, id, MAINTENANCE))
    else Ok(s)
  }

  /** Asking again for a return that is already requested changes nothing. */
  function ReturnRequested(s: Store, assignment: nat, user: string): Result<Store, Error> {
    if assignment >= |s.assignments| || !s.assignments[assignment].open then Err(NotFound)
    else
      var row := s.assignments[assignment];
      if row.asset >= |s.assets| then Err(NotFound)
      else if !Held(s.assets[row.asset].status) then Err(NotAssigned)
      else if row.requestedBy.Some? then Ok(s)
      else Ok(WithStatus(s.(assignments := s.assignments[assignment := row.(requestedBy := Some(user))]), row.asset, RETURN_PENDING))
  }

  /** Walk-in return by the storekeeper. */
  function Returned(s: Store, id: nat, condition: string, user: string): Result<Store, Error> {
    if id >= |s.assets| then Err(NotFound)
    else if !Held(s.assets[id].status) then Err(NotAssigned)
    else
      var active := Active(s.assignments, id);
      if active.None? then Err(NotFound)
      else if s.assignments[active.value].requestedBy == Some(user) then Err(RequesterCannotConfirm)
      else
        var row := Closed(s.assignments[active.value], condition, user);
        Ok(WithStatus(s.(assignments := s.assignments[active.value := row]), id, StatusAfterReturn(condition)))
  }

  function ReturnConfirmed(s: Store, assignment: nat, condition: string, user: string): Result<Store, Error> {
    if assignment >= |s.assignments| || !s.assignments[assignment].open then Err(NotFound)
    else
      var row := s.assignments[assignment];
      if row.requestedBy.None? then Err(NotRequested)
      else if row.requestedBy == Some(user) then Err(RequesterCannotConfirm)
      else if row.asset >= |s.assets| then Err(NotFound)
      else Ok(WithStatus(s.(assignments := s.assignments[assignment := Closed(row, condition, user)]),
                         row.asset, StatusAfterReturn(condition)))
  }

  // ---------------------------------------------------------------- the service

  ghost predicate Outcome(before: Store, spec: Result<Store, Error>, after: Store, error: Option<Error>) {
    match spec
    case Ok(s) => after == s && error == None
    case Err(e) => after == before && error == Some(e)
  }

  class AssetsService {
    var assets: seq<Asset>
    var assignments: seq<Assignment>

    ghost function View(): Store
      reads this
    {
      Store(assets, assignments)
    }

    constructor ()
      ensures View() == Store([], [])
    {
      assets := [];
      assignments := [];
    }

    method SetStatus(id: nat, status: AssetStatus)
      requires id < |assets|
      modifies this`assets
      ensures View() == WithStatus(old(View()), id, status)
    {
      assets := assets[id := assets[id].(status := status)];
    }

    method Create(tag: string) returns (error: Option<Error>)
      modifies this
      ensures Outcome(old(View()), Created(old(View()), tag), View(), error)
    {
      for i := 0 to |assets|
        invariant forall k | 0 <= k < i :: assets[k].tag != tag
      {
        if assets[i].tag == tag {
          return Some(DuplicateTag);
        }
      }
      assets := assets + [Asset(tag, AVAILABLE)];
      error := None;
    }

    method Assign(id: nat, assignee: string, assigneeKnown: bool) returns (error: Option<Error>)
      modifies this
      ensures Outcome(old(View()), Assigned(old(View()), id, assignee, assigneeKnown), View(), error)
    {
      if !assigneeKnown {
        return Some(InvalidAssignee);
      }
      if id >= |assets| {
        return Some(NotFound);
      }
      if assets[id].status != AVAILABLE {
        return Some(NotAvailable);
      }
      assignments := assignments + [Assignment(id, assignee, true, None, None, None)];
      SetStatus(id, ASSIGNED);
      error := None;
    }

    method Transfer(id: nat, assignee: string, assigneeKnown: bool, user: string) returns (error: Option<Error>)
      modifies this
      ensures Outcome(old(View()), Transferred(old(View()), id, assignee, assigneeKnown, user), View(), error)
    {
      if !assigneeKnown {
        return Some(InvalidAssignee);
      }
      if id >= |assets| {
        return Some(NotFound);
      }
      if assets[id].status == RETURN_PENDING {
        return Some(ReturnPending);
      }
      if assets[id].status != ASSIGNED {
        return Some(NotAssigned);
      }
      var active := Active(assignments, id);
      if active.None? {
        return Some(NotFound);
      }
      assignments := assignments[active.value := Closed(assignments[active.value], TRANSFER, user)];
      assignments := assignments + [Assignment(id, assignee, true, None, None, None)];
      SetStatus(id, ASSIGNED);
      error := None;
    }

    method Dispose(id: nat) returns (error: Option<Error>)
      modifies this
      ensures Outcome(old(View()), DisposedOf(old(View()), id), View(), error)
    {
      if id >= |assets| {
        return Some(NotFound);
      }
      if assets[id].status != AVAILABLE && assets[id].status != MAINTENANCE {
        return Some(NotDisposable);
      }
      SetStatus(id, DISPOSED);
      error := None;
    }

    method StartMaintenance(id: nat) returns (error: Option<Error>)
      modifies this
      ensures Outcome(old(View()), MaintenanceStarted(old(View()), id), View(), error)
    {
      if id >= |assets| {
        return Some(NotFound);
      }
      if assets[id].status != AVAILABLE {
        return Some(NotAvailable);
      }
      SetStatus(id, MAINTENANCE);
      error := None;
    }

    method CompleteMaintenance(id: nat) returns (error: Option<Error>)
      modifies this
      ensures Outcome(old(View()), MaintenanceCompleted(old(View()), id), View(), error)
    {
      if id >= |assets| {
        return Some(NotFound);
      }
      if assets[id].status != MAINTENANCE {
        return Some(NotInMaintenance);
      }
      SetStatus(id, AVAILABLE);
      error := None;
    }

    method RecordDamage(id: nat, condition: string) returns (error: Option<Error>)
      modifies this
      ensures Outcome(old(View()), DamageRecorded(old(View()), id, condition), View(), error)
    {
      if id >= |assets| {
        return Some(NotFound);
      }
      if assets[id].status == DISPOSED {
        return Some(Disposed);
      }
      var nextStatus := if assets[id].status == AVAILABLE && condition == DAMAGED then MAINTENANCE else assets[id].status;
      if nextStatus != assets[id].status {
        SetStatus(id, nextStatus);
      }
      error := None;
    }

    method RequestReturn(assignment: nat, user: string) returns (error: Option<Error>)
      modifies this
      ensures Outcome(old(View()), ReturnRequested(old(View()), assignment, user), View(), error)
      ensures assignment < |old(assignments)| && old(assignments)[assignment].requestedBy.Some? ==> View() == old(View())
    {
      if assignment >= |assignments| || !assignments[assignment].open || assignments[assignment].asset >= |assets| {
        return Some(NotFound);
      }
      var active := assignments[assignment];
      if assets[active.asset].status != ASSIGNED && assets[active.asset].status != RETURN_PENDING {
        return Some(NotAssigned);
      }
      if active.requestedBy.Some? {
        return None;
      }
      assignments := assignments[assignment := active.(requestedBy := Some(user))];
      SetStatus(active.asset, RETURN_PENDING);
      error := None;
    }

    method ReturnAsset(id: nat, condition: string, user: string) returns (error: Option<Error>)
      modifies this
      ensures Outcome(old(View()), Returned(old(View()), id, condition, user), View(), error)
    {
      if id >= |assets| {
        return Some(NotFound);
      }
      if assets[id].status != ASSIGNED && assets[id].status != RETURN_PENDING {
        return Some(NotAssigned);
      }
      var active := Active(assignments, id);
      if active.None? {
        return Some(NotFound);
      }
      if assignments[active.value].requestedBy == Some(user) {
        return Some(RequesterCannotConfirm);
      }
      assignments := assignments[active.value := Closed(assignments[active.value], condition, user)];
      SetStatus(id, StatusAfterReturn(condition));
      error := None;
    }

    method ConfirmReturn(assignment: nat, condition: string, user: string) returns (error: Option<Error>)
      modifies this
      ensures Outcome(old(View()), ReturnConfirmed(old(View()), assignment, condition, user), View(), error)
    {
      if assignment >= |assignments| || !assignments[assignment].open {
        return Some(NotFound);
      }
      var active := assignments[assignment];
      if active.requestedBy.None? {
        return Some(NotRequested);
      }
      if active.requestedBy == Some(user) {
        return Some(RequesterCannotConfirm);
      }
      if active.asset >= |assets| {
        return Some(NotFound);
      }
      assignments := assignments[assignment := Closed(active, condition, user)];
      SetStatus(active.asset, StatusAfterReturn(condition));
      error := None;
    }
  }

  // ---------------------------------------------------------------- runs

  datatype Command =
    | Create(tag: string)
    | Assign(id: nat, assignee: string, assigneeKnown: bool)
    | Transfer(id: nat, assignee: string, assigneeKnown: bool, user: string)
    | Dispose(id: nat)
    | StartMaintenance(id: nat)
    | CompleteMaintenance(id: nat)
    | RecordDamage(id: nat, condition: string)
    | RequestReturn(assignment: nat, user: string)
    | ReturnAsset(id: nat, condition: string, user: string)
    | ConfirmReturn(assignment: nat, condition: string, user: string)

  function Attempt(s: Store, cmd: Command): Result<Store, Error> {
    match cmd
    case Create(tag) => Created(s, tag)
    case Assign(id, assignee, known) => Assigned(s, id, assignee, known)
    case Transfer(id, assignee, known, user) => Transferred(s, id, assignee, known, user)
    case Dispose(id) => DisposedOf(s, id)
    case StartMaintenance(id) => MaintenanceStarted(s, id)
    case CompleteMaintenance(id) => MaintenanceCompleted(s, id)
    case RecordDamage(id, condition) => DamageRecorded(s, id, condition)
    case RequestReturn(assignment, user) => ReturnRequested(s, assignment, user)
    case ReturnAsset(id, condition, user) => Returned(s, id, condition, user)
    case ConfirmReturn(assignment, condition, user) => ReturnConfirmed(s, assignment, condition, user)
  }

  /** One request; a refused one changes nothing. */
  function Step(s: Store, cmd: Command): Store {
    var r := Attempt(s, cmd);
    if r.Ok? then r.value else s
  }

  function Run(s: Store, cmds: seq<Command>): Store
    decreases |cmds|
  {
    if cmds == [] then s else Run(Step(s, cmds[0]), cmds[1..])
  }

  // ---------------------------------------------------------------- the status column is right

  ghost predicate OpenFor(s: Store, i: int, asset: int) {
    0 <= i < |s.assignments| && s.assignments[i].open && s.assignments[i].asset == asset
  }

  /** An open assignment's asset is held, and pending exactly when the assignment is requested. */
  ghost predicate RowOk(s: Store, i: int)
    requires 0 <= i < |s.assignments|
  {
    var row := s.assignments[i];
    row.open ==>
      && row.asset < |s.assets| && Held(s.assets[row.asset].status)
      && (s.assets[row.asset].status == RETURN_PENDING <==> row.requestedBy.Some?)
  }

  ghost predicate NoTwoOpen(s: Store) {
    forall i, j | 0 <= i < j < |s.assignments| && s.assignments[i].open && s.assignments[j].open ::
      s.assignments[i].asset != s.assignments[j].asset
  }

  /** The status column summarises the assignment table. */
  ghost predicate Consistent(s: Store) {
    && (forall i | 0 <= i < |s.assignments| :: RowOk(s, i))
    && NoTwoOpen(s)
    && (forall a | 0 <= a < |s.assets| && Held(s.assets[a].status) :: exists i :: OpenFor(s, i, a))
  }

  lemma StatusOnly(s: Store, id: nat, status: AssetStatus)
    requires Consistent(s) && id < |s.assets| && !Held(s.assets[id].status) && !Held(status)
    ensures Consistent(WithStatus(s, id, status))
  {
    var s' := WithStatus(s, id, status);
    forall i | 0 <= i < |s'.assignments| ensures RowOk(s', i) { assert RowOk(s, i); }
    forall a | 0 <= a < |s'.assets| && Held(s'.assets[a].status) ensures exists i :: OpenFor(s', i, a) {
      var i :| OpenFor(s, i, a);
      assert OpenFor(s', i, a);
    }
  }

  lemma NewAsset(s: Store, asset: Asset)
    requires Consistent(s) && !Held(asset.status)
    ensures Consistent(s.(assets := s.assets + [asset]))
  {
    var s' := s.(assets := s.assets + [asset]);
    forall i | 0 <= i < |s'.assignments| ensures RowOk(s', i) { assert RowOk(s, i); }
    forall a | 0 <= a < |s'.assets| && Held(s'.assets[a].status) ensures exists i :: OpenFor(s', i, a) {
      var i :| OpenFor(s, i, a);
      assert OpenFor(s', i, a);
    }
  }

  lemma Opened(s: Store, id: nat, assignee: string)
    requires Consistent(s) && id < |s.assets| && !Held(s.assets[id].status)
    ensures Consistent(WithStatus(s.(assignments := s.assignments + [Assignment(id, assignee, true, None, None, None)]), id, ASSIGNED))
  {
    var s' := WithStatus(s.(assignments := s.assignments + [Assignment(id, assignee, true, None, None, None)]), id, ASSIGNED);
    forall i | 0 <= i < |s'.assignments| ensures RowOk(s', i) {
      if i < |s.assignments| { assert RowOk(s, i); }
    }
    forall i | 0 <= i < |s.assignments| && s.assignments[i].open ensures s.assignments[i].asset != id {
      assert RowOk(s, i);
    }
    forall a | 0 <= a < |s'.assets| && Held(s'.assets[a].status) ensures exists i :: OpenFor(s', i, a) {
      if a == id {
        assert OpenFor(s', |s.assignments|, a);
      } else {
        var i :| OpenFor(s, i, a);
        assert OpenFor(s', i, a);
      }
    }
  }

  lemma ClosedOff(s: Store, i: nat, row: Assignment, status: AssetStatus)
    requires Consistent(s) && OpenFor(s, i, row.asset) && !row.open && !Held(status)
    ensures row.asset < |s.assets|
    ensures Consistent(WithStatus(s.(assignments := s.assignments[i := row]), row.asset, status))
  {
    assert RowOk(s, i);
    var s' := WithStatus(s.(assignments := s.assignments[i := row]), row.asset, status);
    forall k | 0 <= k < |s'.assignments| ensures RowOk(s', k) { assert RowOk(s, k); }
    forall a | 0 <= a < |s'.assets| && Held(s'.assets[a].status) ensures exists k :: OpenFor(s', k, a) {
      var k :| OpenFor(s, k, a);
      assert OpenFor(s', k, a);
    }
  }

  lemma Requested(s: Store, i: nat, user: string)
    requires Consistent(s) && i < |s.assignments| && s.assignments[i].open && s.assignments[i].asset < |s.assets|
    ensures Consistent(WithStatus(s.(assignments := s.assignments[i := s.assignments[i].(requestedBy := Some(user))]),
                                  s.assignments[i].asset, RETURN_PENDING))
  {
    var s' := WithStatus(s.(assignments := s.assignments[i := s.assignments[i].(requestedBy := Some(user))]),
                         s.assignments[i].asset, RETURN_PENDING);
    assert RowOk(s, i);
    forall k | 0 <= k < |s'.assignments| ensures RowOk(s', k) { assert RowOk(s, k); }
    forall a | 0 <= a < |s'.assets| && Held(s'.assets[a].status) ensures exists k :: OpenFor(s', k, a) {
      var k :| OpenFor(s, k, a);
      assert OpenFor(s', k, a);
    }
  }

  lemma StepConsistent(s: Store, cmd: Command)
    requires Consistent(s)
    ensures Consistent(Step(s, cmd))
  {
    if Attempt(s, cmd).Err? || Step(s, cmd) == s { return; }
    match cmd
    case Create(tag) => NewAsset(s, Asset(tag, AVAILABLE));
    case Assign(id, assignee, _) => Opened(s, id, assignee);
    case Transfer(id, assignee, _, user) =>
      // a return to stock followed by a new assignment
      var active := Active(s.assignments, id).value;
      var row := Closed(s.assignments[active], TRANSFER, user);
      ClosedOff(s, active, row, AVAILABLE);
      var mid := WithStatus(s.(assignments := s.assignments[active := row]), id, AVAILABLE);
      Opened(mid, id, assignee);
      assert mid.assets[id := mid.assets[id].(status := ASSIGNED)] == s.assets[id := s.assets[id].(status := ASSIGNED)];
    case Dispose(id) => StatusOnly(s, id, DISPOSED);
    case StartMaintenance(id) => StatusOnly(s, id, MAINTENANCE);
    case CompleteMaintenance(id) => StatusOnly(s, id, AVAILABLE);
    case RecordDamage(id, _) => StatusOnly(s, id, MAINTENANCE);
    case RequestReturn(i, user) => Requested(s, i, user);
    case ReturnAsset(id, condition, user) =>
      var active := Active(s.assignments, id).value;
      ClosedOff(s, active, Closed(s.assignments[active], condition, user), StatusAfterReturn(condition));
    case ConfirmReturn(i, condition, user) =>
      ClosedOff(s, i, Closed(s.assignments[i], condition, user), StatusAfterReturn(condition));
  }

  lemma {:induction false} RunConsistent(s: Store, cmds: seq<Command>)
    requires Consistent(s)
    ensures Consistent(Run(s, cmds))
    decreases |cmds|
  {
    if cmds != [] {
      StepConsistent(s, cmds[0]);
      RunConsistent(Step(s, cmds[0]), cmds[1..]);
    }
  }

  /** In every reachable register: held exactly with one open assignment, pending exactly when that one is requested. */
  lemma StatusSummarisesAssignments(cmds: seq<Command>, a: nat)
    requires a < |Run(Store([], []), cmds).assets|
    ensures var s := Run(Store([], []), cmds);
            && (Held(s.assets[a].status) <==> exists i :: OpenFor(s, i, a))
            && (forall i, j | OpenFor(s, i, a) && OpenFor(s, j, a) :: i == j)
            && (forall i | OpenFor(s, i, a) ::
                  s.assets[a].status == RETURN_PENDING <==> s.assignments[i].requestedBy.Some?)
  {
    RunConsistent(Store([], []), cmds);
    var s := Run(Store([], []), cmds);
    forall i | OpenFor(s, i, a) ensures Held(s.assets[a].status) { assert RowOk(s, i); }
    forall i | OpenFor(s, i, a)
      ensures s.assets[a].status == RETURN_PENDING <==> s.assignments[i].requestedBy.Some?
    {
      assert RowOk(s, i);
    }
  }

  // ---------------------------------------------------------------- what the register means

  /** Where an asset is, read off both tables. */
  datatype Custody = InStock | InMaintenance | Gone | With(assignee: string, requestedBy: Option<string>)

  function CustodyOf(s: Store, a: nat): Custody
    requires a < |s.assets|
  {
    match s.assets[a].status
    case AVAILABLE => InStock
    case MAINTENANCE => InMaintenance
    case DISPOSED => Gone
    case _ =>
      var i := Active(s.assignments, a);
      if i.None? then Gone else With(s.assignments[i.value].assignee, s.assignments[i.value].requestedBy)
  }

  /** Damaged goods go to maintenance, lost ones are written off, all others are stock again. */
  function BackFrom(condition: string): Custody {
    if condition == "LOST" then Gone else if condition == "DAMAGED" then InMaintenance else InStock
  }

  /** The rules of custody for one asset: where it is afterwards, or why the request is refused. */
  function Ruled(c: Custody, cmd: Command): Result<Custody, Error> {
    match cmd
    case Create(_) => Err(DuplicateTag)
    case Assign(_, assignee, known) =>
      if !known then Err(InvalidAssignee) else if c == InStock then Ok(With(assignee, None)) else Err(NotAvailable)
    case Transfer(_, assignee, known, _) =>
      if !known then Err(InvalidAssignee)
      else if !c.With? then Err(NotAssigned)
      else if c.requestedBy.Some? then Err(ReturnPending) else Ok(With(assignee, None))
    case Dispose(_) => if c == InStock || c == InMaintenance then Ok(Gone) else Err(NotDisposable)
    case StartMaintenance(_) => if c == InStock then Ok(InMaintenance) else Err(NotAvailable)
    case CompleteMaintenance(_) => if c == InMaintenance then Ok(InStock) else Err(NotInMaintenance)
    case RecordDamage(_, condition) =>
      if c == Gone then Err(Disposed) else if c == InStock && condition == "DAMAGED" then Ok(InMaintenance) else Ok(c)
    case RequestReturn(_, user) =>
      if !c.With? then Err(NotFound) else if c.requestedBy.Some? then Ok(c) else Ok(c.(requestedBy := Some(user)))
    case ReturnAsset(_, condition, user) =>
      if !c.With? then Err(NotAssigned)
      else if c.requestedBy == Some(user) then Err(RequesterCannotConfirm) else Ok(BackFrom(condition))
    case ConfirmReturn(_, condition, user) =>
      if !c.With? then Err(NotFound)
      else if c.requestedBy.None? then Err(NotRequested)
      else if c.requestedBy == Some(user) then Err(RequesterCannotConfirm) else Ok(BackFrom(condition))
  }

  /** The asset a request is about: named directly, or by an open assignment. */
  function Subject(s: Store, cmd: Command): Option<nat> {
    var id: Option<nat> := match cmd
      case Create(_) => None
      case RequestReturn(i, _) => if i < |s.assignments| && s.assignments[i].open then Some(s.assignments[i].asset) else None
      case ConfirmReturn(i, _, _) => if i < |s.assignments| && s.assignments[i].open then Some(s.assignments[i].asset) else None
      case _ => Some(cmd.id);
    if id.Some? && id.value < |s.assets| then id else None
  }

  /** A row as its successor may look after one request. */
  predicate RowMayBecome(a: Assignment, b: Assignment, cmd: Command) {
    || b == a
    || (cmd.RequestReturn? && a.open && a.requestedBy.None? && b == a.(requestedBy := Some(cmd.user)))
    || (cmd.Transfer? && a.open && b == a.(open := false, condition := Some("TRANSFER"), confirmedBy := Some(cmd.user)))
    || ((cmd.ReturnAsset? || cmd.ConfirmReturn?) && a.open
        && b == a.(open := false, condition := Some(cmd.condition), confirmedBy := Some(cmd.user)))
  }

  /** The ledger is only written forward: at most one row changes, and a new one is added exactly by handing an asset out. */
  ghost predicate LedgerMovesOn(s: Store, s': Store, cmd: Command) {
    && |s'.assets| >= |s.assets| && (forall a | 0 <= a < |s.assets| :: s'.assets[a].tag == s.assets[a].tag)
    && |s'.assignments| >= |s.assignments|
    && (forall i | 0 <= i < |s.assignments| :: RowMayBecome(s.assignments[i], s'.assignments[i], cmd))
    && (forall i, j | 0 <= i < j < |s.assignments| ::
          s'.assignments[i] == s.assignments[i] || s'.assignments[j] == s.assignments[j])
    && s'.assignments[|s.assignments|..] ==
         if (cmd.Assign? || cmd.Transfer?) && s' != s then [Assignment(cmd.id, cmd.assignee, true, None, None, None)] else []
  }

  lemma StepLedger(s: Store, cmd: Command)
    ensures LedgerMovesOn(s, Step(s, cmd), cmd)
  {
    if cmd.Transfer? && Attempt(s, cmd).Ok? {
      var active := Active(s.assignments, cmd.id).value;
      var closed := s.assignments[active := Closed(s.assignments[active], TRANSFER, cmd.user)];
      var next := Assignment(cmd.id, cmd.assignee, true, None, None, None);
      assert (closed + [next])[|s.assignments|..] == [next];
    }
  }

  /** In a consistent register the only open row of an asset is its active one. */
  lemma ActiveIs(s: Store, i: nat, a: nat)
    requires Consistent(s) && OpenFor(s, i, a)
    ensures Active(s.assignments, a) == Some(i)
  {
    var active := Active(s.assignments, a).value;
    assert OpenFor(s, active, a);
  }

  lemma HeldIsWith(s: Store, a: nat)
    requires Consistent(s) && a < |s.assets|
    ensures Held(s.assets[a].status) <==> CustodyOf(s, a).With?
    ensures CustodyOf(s, a).With? ==>
              && Active(s.assignments, a).Some?
              && (s.assets[a].status == RETURN_PENDING <==> CustodyOf(s, a).requestedBy.Some?)
  {
    if Held(s.assets[a].status) {
      var i :| OpenFor(s, i, a);
      ActiveIs(s, i, a);
      assert RowOk(s, i);
    }
  }

  /** Assets whose status and rows are untouched stay where they are. */
  lemma CustodyFrame(s: Store, s': Store, a: nat)
    requires Consistent(s) && Consistent(s') && a < |s.assets| && a < |s'.assets| && s'.assets[a].status == s.assets[a].status
    requires |s.assignments| <= |s'.assignments|
    requires forall i | 0 <= i < |s.assignments| && s.assignments[i].asset == a :: s'.assignments[i] == s.assignments[i]
    ensures CustodyOf(s', a) == CustodyOf(s, a)
  {
    HeldIsWith(s, a);
    if Held(s.assets[a].status) {
      var i := Active(s.assignments, a).value;
      assert OpenFor(s', i, a);
      ActiveIs(s', i, a);
    }
  }

  /** Every request does to its own asset what the rules of custody say, refusals included, and nothing to any other. */
  lemma StepFollowsTheRules(s: Store, cmd: Command)
    requires Consistent(s) && !cmd.Create?
    ensures Subject(s, cmd).None? ==> Attempt(s, cmd).Err?
    ensures Subject(s, cmd).Some? ==>
              var a := Subject(s, cmd).value;
              match Ruled(CustodyOf(s, a), cmd)
              case Err(e) => Attempt(s, cmd) == Err(e)
              case Ok(c) => && Attempt(s, cmd).Ok? && |Step(s, cmd).assets| == |s.assets|
                            && CustodyOf(Step(s, cmd), a) == c
                            && forall b | 0 <= b < |s.assets| && b != a :: CustodyOf(Step(s, cmd), b) == CustodyOf(s, b)
  {
    if Subject(s, cmd).None? { return; }
    var a := Subject(s, cmd).value;
    HeldIsWith(s, a);
    if cmd.RequestReturn? || cmd.ConfirmReturn? {
      assert RowOk(s, cmd.assignment);
      ActiveIs(s, cmd.assignment, a);
    }
    if Attempt(s, cmd).Ok? {
      StepConsistent(s, cmd);
      OwnCustody(s, cmd, a);
      OtherCustody(s, cmd, a);
    }
  }

  lemma OwnCustody(s: Store, cmd: Command, a: nat)
    requires Consistent(s) && !cmd.Create? && Subject(s, cmd) == Some(a) && Attempt(s, cmd).Ok? && Consistent(Step(s, cmd))
    requires Held(s.assets[a].status) <==> CustodyOf(s, a).With?
    requires cmd.RequestReturn? || cmd.ConfirmReturn? ==> Active(s.assignments, a) == Some(cmd.assignment)
    requires CustodyOf(s, a).With? ==> Active(s.assignments, a).Some?
    requires CustodyOf(s, a).With? ==> (s.assets[a].status == RETURN_PENDING <==> CustodyOf(s, a).requestedBy.Some?)
    ensures Ruled(CustodyOf(s, a), cmd) == Ok(CustodyOf(Step(s, cmd), a))
  {
    var s' := Step(s, cmd);
    HeldIsWith(s', a);
    match cmd
    case Assign(_, _, _) =>
      assert OpenFor(s', |s.assignments|, a);
      ActiveIs(s', |s.assignments|, a);
    case Transfer(_, _, _, _) =>
      assert OpenFor(s', |s.assignments|, a);
      ActiveIs(s', |s.assignments|, a);
    case RequestReturn(i, _) =>
      assert OpenFor(s', i, a);
      ActiveIs(s', i, a);
    case ReturnAsset(_, condition, _) =>
      assert s'.assets[a].status == StatusAfterReturn(condition);
      assert CustodyOf(s', a) == BackFrom(condition);
    case ConfirmReturn(i, condition, _) =>
      assert RowOk(s, i) && s'.assets[a].status == StatusAfterReturn(condition);
    case RecordDamage(_, condition) =>
      if Held(s.assets[a].status) { assert s' == s; }
    case _ =>
  }

  lemma OtherCustody(s: Store, cmd: Command, a: nat)
    requires Consistent(s) && !cmd.Create? && Subject(s, cmd) == Some(a) && Attempt(s, cmd).Ok? && Consistent(Step(s, cmd))
    requires cmd.RequestReturn? || cmd.ConfirmReturn? ==> Active(s.assignments, a) == Some(cmd.assignment)
    ensures |Step(s, cmd).assets| == |s.assets|
    ensures forall b | 0 <= b < |s.assets| && b != a :: CustodyOf(Step(s, cmd), b) == CustodyOf(s, b)
  {
    var s' := Step(s, cmd);
    forall b | 0 <= b < |s.assets| && b != a ensures CustodyOf(s', b) == CustodyOf(s, b) {
      CustodyFrame(s, s', b);
    }
  }

  /** A tag is accepted once: the new asset is in stock under it, and no row changes. */
  lemma CreatedOnce(s: Store, tag: string)
    ensures Created(s, tag).Ok? <==> forall a | 0 <= a < |s.assets| :: s.assets[a].tag != tag
    ensures Created(s, tag).Ok? ==>
              Created(s, tag).value.assets == s.assets + [Asset(tag, AVAILABLE)] && Created(s, tag).value.assignments == s.assignments
    ensures Created(s, tag).Err? ==> Created(s, tag).error == DuplicateTag
  {
  }

  ghost predicate TagsDiffer(s: Store) {
    forall a, b | 0 <= a < b < |s.assets| :: s.assets[a].tag != s.assets[b].tag
  }

  /** Over every run no two assets share a tag. */
  lemma {:induction false} TagsAreUnique(s: Store, cmds: seq<Command>)
    requires TagsDiffer(s)
    ensures TagsDiffer(Run(s, cmds))
    decreases |cmds|
  {
    if cmds != [] {
      StepLedger(s, cmds[0]);
      TagsAreUnique(Step(s, cmds[0]), cmds[1..]);
    }
  }

  // ---------------------------------------------------------------- custody is conserved

  function OpenRows(s: Store): set<int> {
    set i | 0 <= i < |s.assignments| && s.assignments[i].open
  }

  function HeldAssets(s: Store): set<int> {
    set a | 0 <= a < |s.assets| && Held(s.assets[a].status)
  }

  function Image(keys: set<int>, f: int -> int): set<int> {
    set k | k in keys :: f(k)
  }

  lemma {:induction false} ImageSize(keys: set<int>, f: int -> int)
    requires forall x, y | x in keys && y in keys && x != y :: f(x) != f(y)
    ensures |Image(keys, f)| == |keys|
    decreases |keys|
  {
    if exists x :: x in keys {
      var x :| x in keys;
      var rest := keys - {x};
      ImageSize(rest, f);
      assert Image(keys, f) == Image(rest, f) + {f(x)};
      assert f(x) !in Image(rest, f);
    } else {
      assert keys == {} && Image(keys, f) == {};
    }
  }

  /** As many assets are out as there are open custody records, in every reachable register. */
  lemma CustodyConserved(cmds: seq<Command>)
    ensures var s := Run(Store([], []), cmds); |OpenRows(s)| == |HeldAssets(s)|
  {
    RunConsistent(Store([], []), cmds);
    var s := Run(Store([], []), cmds);
    var f := (i: int) => if 0 <= i < |s.assignments| then s.assignments[i].asset as int else -1;
    forall i, j | i in OpenRows(s) && j in OpenRows(s) && i != j ensures f(i) != f(j) {
      assert OpenFor(s, i, f(i)) && OpenFor(s, j, f(j));
    }
    ImageSize(OpenRows(s), f);
    forall a | a in HeldAssets(s) ensures a in Image(OpenRows(s), f) {
      var i :| OpenFor(s, i, a);
      assert i in OpenRows(s) && f(i) == a;
    }
    forall a | a in Image(OpenRows(s), f) ensures a in HeldAssets(s) {
      var i :| i in OpenRows(s) && f(i) == a;
      assert RowOk(s, i);
    }
    assert Image(OpenRows(s), f) == HeldAssets(s);
  }

  // ---------------------------------------------------------------- what never changes again

  /** DISPOSED assets, closed assignments and recorded requesters are as they were; nothing is deleted. */
  ghost predicate FinalKept(s: Store, s': Store) {
    && |s.assets| <= |s'.assets| && |s.assignments| <= |s'.assignments|
    && (forall a | 0 <= a < |s.assets| && s.assets[a].status == DISPOSED :: s'.assets[a] == s.assets[a])
    && (forall i | 0 <= i < |s.assignments| && !s.assignments[i].open :: s'.assignments[i] == s.assignments[i])
    && (forall i | 0 <= i < |s.assignments| && s.assignments[i].requestedBy.Some? ::
          s'.assignments[i].requestedBy == s.assignments[i].requestedBy)
  }

  lemma StepKeepsFinal(s: Store, cmd: Command)
    requires Consistent(s)
    ensures FinalKept(s, Step(s, cmd))
  {
    if cmd.ConfirmReturn? && cmd.assignment < |s.assignments| { assert RowOk(s, cmd.assignment); }
  }

  /** DISPOSED is final, and a closed assignment is never written again, so none is closed twice. */
  lemma {:induction false} DisposedAndClosedAreFinal(s: Store, cmds: seq<Command>)
    requires Consistent(s)
    ensures FinalKept(s, Run(s, cmds))
    decreases |cmds|
  {
    if cmds != [] {
      var s1 := Step(s, cmds[0]);
      StepConsistent(s, cmds[0]);
      StepKeepsFinal(s, cmds[0]);
      DisposedAndClosedAreFinal(s1, cmds[1..]);
      var s2 := Run(s1, cmds[1..]);
      assert forall a | 0 <= a < |s.assets| && s.assets[a].status == DISPOSED :: s1.assets[a] == s.assets[a];
      assert forall i | 0 <= i < |s.assignments| && !s.assignments[i].open :: s1.assignments[i] == s.assignments[i];
      assert forall i | 0 <= i < |s.assignments| && s.assignments[i].requestedBy.Some? ::
          s1.assignments[i].requestedBy == s.assignments[i].requestedBy;
    }
  }

  /** Every closed assignment names who closed it, and that is never the user who asked for the return. */
  ghost predicate DutiesSeparated(s: Store) {
    forall i | 0 <= i < |s.assignments| && !s.assignments[i].open ::
      s.assignments[i].confirmedBy.Some? && s.assignments[i].confirmedBy != s.assignments[i].requestedBy
  }

  lemma StepSeparatesDuties(s: Store, cmd: Command)
    requires Consistent(s) && DutiesSeparated(s)
    ensures DutiesSeparated(Step(s, cmd))
  {
    if cmd.Transfer? && Step(s, cmd) != s {
      // only an assignment without a return request is transferred
      assert RowOk(s, Active(s.assignments, cmd.id).value);
    }
  }

  /** By confirmation, walk-in return or transfer: nobody closes the assignment whose return they requested. */
  lemma {:induction false} RequesterNeverCloses(s: Store, cmds: seq<Command>)
    requires Consistent(s) && DutiesSeparated(s)
    ensures DutiesSeparated(Run(s, cmds))
    decreases |cmds|
  {
    if cmds != [] {
      StepConsistent(s, cmds[0]);
      StepSeparatesDuties(s, cmds[0]);
      RequesterNeverCloses(Step(s, cmds[0]), cmds[1..]);
    }
  }

  /** Asking again is accepted, and whoever asked, changes nothing. */
  lemma SecondRequestChangesNothing(s: Store, i: nat, user: string)
    requires Consistent(s) && i < |s.assignments| && s.assignments[i].open && s.assignments[i].requestedBy.Some?
    ensures ReturnRequested(s, i, user) == Ok(s)
  {
    assert RowOk(s, i);
  }

  /** Whoever first asked for a return stays its requester through every run, and never closes it. */
  lemma FirstRequesterNeverCloses(s: Store, i: nat, user: string, cmds: seq<Command>)
    requires Consistent(s) && DutiesSeparated(s) && i < |s.assignments| && s.assignments[i].open
    requires s.assignments[i].requestedBy.None? && ReturnRequested(s, i, user).Ok?
    ensures var t := Run(ReturnRequested(s, i, user).value, cmds);
            && i < |t.assignments| && t.assignments[i].requestedBy == Some(user)
            && (!t.assignments[i].open ==> t.assignments[i].confirmedBy.Some? && t.assignments[i].confirmedBy != Some(user))
  {
    var s1 := ReturnRequested(s, i, user).value;
    assert s1 == Step(s, RequestReturn(i, user));
    assert s1.assignments[i].requestedBy == Some(user);
    StepConsistent(s, RequestReturn(i, user));
    StepSeparatesDuties(s, RequestReturn(i, user));
    DisposedAndClosedAreFinal(s1, cmds);
    RequesterNeverCloses(s1, cmds);
  }

  // ---------------------------------------------------------------- what calls undo, and which calls agree

  /** Handing an asset out and taking it back in good order restores the register and leaves one closed record. */
  lemma AssignThenReturn(s: Store, id: nat, assignee: string, user: string)
    requires Consistent(s) && Assigned(s, id, assignee, true).Ok?
    ensures var r := Returned(Assigned(s, id, assignee, true).value, id, "GOOD", user);
            && r.Ok? && r.value.assets == s.assets
            && r.value.assignments == s.assignments + [Assignment(id, assignee, false, None, Some("GOOD"), Some(user))]
  {
    var t := Assigned(s, id, assignee, true).value;
    assert Active(t.assignments, id) == Some(|s.assignments|);
    assert Returned(t, id, "GOOD", user).value.assets == s.assets;
  }

  /** A damaged return goes through maintenance back to stock; a lost one is never seen again. */
  lemma ReturnConditionDecides(s: Store, id: nat, condition: string, user: string, cmds: seq<Command>)
    requires Consistent(s) && Returned(s, id, condition, user).Ok?
    ensures var t := Returned(s, id, condition, user).value;
            && (condition == LOST ==> id < |Run(t, cmds).assets| && Run(t, cmds).assets[id].status == DISPOSED)
            && (condition == DAMAGED ==> Assigned(t, id, "", true).Err?
                                         && MaintenanceCompleted(t, id).Ok?
                                         && MaintenanceCompleted(t, id).value.assets[id].status == AVAILABLE)
            && (condition != LOST && condition != DAMAGED ==> forall assignee :: Assigned(t, id, assignee, true).Ok?)
  {
    var t := Returned(s, id, condition, user).value;
    StepConsistent(s, ReturnAsset(id, condition, user));
    assert Step(s, ReturnAsset(id, condition, user)) == t;
    DisposedAndClosedAreFinal(t, cmds);
  }

  /** Once a return is requested, walk-in return and confirmation are the same operation, refusals included. */
  lemma ReturnRoutesAgree(s: Store, i: nat, condition: string, user: string)
    requires Consistent(s) && i < |s.assignments| && s.assignments[i].open && s.assignments[i].requestedBy.Some?
    ensures Returned(s, s.assignments[i].asset, condition, user) == ReturnConfirmed(s, i, condition, user)
  {
    assert RowOk(s, i);
    var asset := s.assignments[i].asset;
    assert Active(s.assignments, asset).Some?;
    var active := Active(s.assignments, asset).value;
    assert RowOk(s, active);
    assert active == i;
  }

  /** A transfer is a return and a new assignment in one step; only the recorded condition says TRANSFER. */
  lemma TransferIsReturnAndAssign(s: Store, id: nat, assignee: string, user: string)
    requires Consistent(s) && Transferred(s, id, assignee, true, user).Ok?
    ensures var returned := Returned(s, id, TRANSFER, user);
            && returned.Ok?
            && Assigned(returned.value, id, assignee, true) == Transferred(s, id, assignee, true, user)
  {
    var active := Active(s.assignments, id).value;
    assert RowOk(s, active);
    var t := Transferred(s, id, assignee, true, user).value;
    var u := Assigned(Returned(s, id, TRANSFER, user).value, id, assignee, true).value;
    assert u.assets == t.assets;
  }
}
