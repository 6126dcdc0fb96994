/** backend/libs/approvals: the amount-thresholded approval matrix, one instance at a time. */
module Approvals {
  import opened Wrappers

  /** Counted in hundredths, so that the whole amounts are those a Decimal(18,2) column holds. */
  type Amount = real

  datatype WorkflowStep = WorkflowStep(stepOrder: int, requiredRole: string, amountThreshold: Option<Amount>)

  datatype User = User(id: string, roles: set<string>)

  datatype Decision = APPROVE | REJECT

  datatype ApprovalStatus = PENDING | APPROVED | REJECTED

  datatype Resource = ContractResource(contract: nat) | OtherResource(kind: string, id: string)

  /** `actor` holds the user's roles at the time of the decision, which the table does not keep. */
  datatype ApprovalAction = ApprovalAction(stepOrder: int, actor: User, decision: Decision)

  datatype Instance = Instance(
    steps: seq<WorkflowStep>,   // the workflow version, in ascending step order
    amount: Option<Amount>,     // as stored
    resource: Resource,
    createdBy: string,
    status: ApprovalStatus,
    currentStepOrder: int,
    actions: seq<ApprovalAction>
  )

  datatype Error = NotFound | NoApplicableStep | NotPending | CreatorCannotApprove | StepMissing | RoleRequired
                 | WrongStatus | NoInstance

  const SUPER_ADMIN := "SUPER_ADMIN"
  const ANY_ROLE := "*"

  // ---------------------------------------------------------------- the engine

  predicate StepApplies(step: WorkflowStep, amount: Option<Amount>) {
    step.amountThreshold.None? || (if amount.Some? then amount.value else 0.0) >= step.amountThreshold.value
  }

  function FirstApplicableStep(steps: seq<WorkflowStep>, amount: Option<Amount>): Option<WorkflowStep> {
    if steps == [] then None
    else if StepApplies(steps[0], amount) then Some(steps[0])
    else FirstApplicableStep(steps[1..], amount)
  }

  function NextApplicableStep(steps: seq<WorkflowStep>, afterOrder: int, amount: Option<Amount>): (r: Option<WorkflowStep>)
    ensures r.Some? ==> r.value in steps && r.value.stepOrder > afterOrder
  {
    if steps == [] then None
    else if steps[0].stepOrder > afterOrder && StepApplies(steps[0], amount) then Some(steps[0])
    else NextApplicableStep(steps[1..], afterOrder, amount)
  }

  /** `steps.find(s => s.stepOrder === order)`. */
  function StepAt(steps: seq<WorkflowStep>, order: int): Option<WorkflowStep> {
    if steps == [] then None
    else if steps[0].stepOrder == order then Some(steps[0])
    else StepAt(steps[1..], order)
  }

  /** What the column keeps of an amount: the nearest hundredth, halves away from zero. */
  function Rounded(a: Amount): Amount {
    Nearest(a) as real
  }

  function Nearest(a: real): (n: int)
    ensures a - 0.5 <= n as real <= a + 0.5
  {
    if a >= 0.0 then (a + 0.5).Floor else -(0.5 - a).Floor
  }

  predicate Whole(a: Amount) {
    a == a.Floor as real
  }

  lemma RoundedIsWhole(a: Amount)
    ensures Whole(Rounded(a)) && (Whole(a) ==> Rounded(a) == a)
  {
    NearestIs(a, Nearest(a));
    if Whole(a) { NearestIs(a, a.Floor); }
  }

  /** Halves are rounded away from zero. */
  lemma HalvesRoundAway(n: nat)
    ensures Nearest(n as real + 0.5) == n + 1 && Nearest(-(n as real) - 0.5) == -(n + 1)
  {
    NearestIs((n + 1) as real, n + 1);
  }

  lemma NearestIs(a: real, n: int)
    ensures (n as real).Floor == n && (a == n as real ==> Nearest(a) == n)
  {
  }

  function Stored(amount: Option<Amount>): Option<Amount> {
    if amount.Some? then Some(Rounded(amount.value)) else None
  }

  /** The first step is chosen by the amount as sent; every later one will be by the amount as stored. */
  function Started(steps: seq<WorkflowStep>, resource: Resource, amount: Option<Amount>, user: User)
    : Result<Instance, Error>
  {
    var first := FirstApplicableStep(steps, amount);
    if first.None? then Err(NoApplicableStep)
    else Ok(Instance(steps, Stored(amount), resource, user.id, PENDING, first.value.stepOrder, []))
  }

  function Acted(i: Instance, user: User, decision: Decision): Result<Instance, Error> {
    if i.status != PENDING then Err(NotPending)
    else if i.createdBy == user.id && SUPER_ADMIN !in user.roles then Err(CreatorCannotApprove)
    else
      var step := StepAt(i.steps, i.currentStepOrder);
      if step.None? then Err(StepMissing)
      else if step.value.requiredRole != ANY_ROLE && step.value.requiredRole !in user.roles
              && SUPER_ADMIN !in user.roles then Err(RoleRequired)
      else
        var recorded := i.(actions := i.actions + [ApprovalAction(i.currentStepOrder, user, decision)]);
        if decision == REJECT then Ok(recorded.(status := REJECTED))
        else
          var next := NextApplicableStep(i.steps, i.currentStepOrder, i.amount);
          if next.Some? then Ok(recorded.(currentStepOrder := next.value.stepOrder))
          else Ok(recorded.(status := APPROVED))
  }

  // ---------------------------------------------------------------- the reference

  /** The matrix the amount selects: `steps.filter(stepApplies)`. */
  function Applicable(steps: seq<WorkflowStep>, amount: Option<Amount>): seq<WorkflowStep> {
    if steps == [] then []
    else (if StepApplies(steps[0], amount) then [steps[0]] else []) + Applicable(steps[1..], amount)
  }

  predicate Sorted(steps: seq<WorkflowStep>) {
    forall i, j | 0 <= i < j < |steps| :: steps[i].stepOrder <= steps[j].stepOrder
  }

  /** No earlier step shares the order of a step that applies. */
  predicate OwnOrders(steps: seq<WorkflowStep>, amount: Option<Amount>) {
    forall i, j | 0 <= i < j < |steps| :: StepApplies(steps[j], amount) ==> steps[i].stepOrder != steps[j].stepOrder
  }

  /** May decide on a step: someone other than the creator who holds its role; SUPER_ADMIN always may. */
  predicate Authorised(u: User, step: WorkflowStep, createdBy: string) {
    || SUPER_ADMIN in u.roles
    || (u.id != createdBy && (step.requiredRole == ANY_ROLE || step.requiredRole in u.roles))
  }

  /** How many applicable steps have been approved. */
  function Approvals(i: Instance): int {
    if i.status == REJECTED then |i.actions| - 1 else |i.actions|
  }

  /**
   The recorded actions are, in order, approvals of exactly the applicable steps before the
   current one (all of them once APPROVED; then one rejection of the next if REJECTED), each
   by somebody authorised for that very step.
   */
  ghost predicate Trail(i: Instance) {
    var matrix := Applicable(i.steps, i.amount);
    var k := Approvals(i);
    && Sorted(i.steps) && OwnOrders(i.steps, i.amount)
    && 0 <= k <= |matrix| && |i.actions| <= |matrix|
    && (i.status != APPROVED ==> k < |matrix| && i.currentStepOrder == matrix[k].stepOrder)
    && (i.status == APPROVED ==> k == |matrix|)
    && (forall n | 0 <= n < |i.actions| ::
          && i.actions[n].stepOrder == matrix[n].stepOrder
          && i.actions[n].decision == (if n < k then APPROVE else REJECT)
          && Authorised(i.actions[n].actor, matrix[n], i.createdBy))
  }

  // ---------------------------------------------------------------- the walk follows the filter

  lemma {:induction false} ApplicableMembers(steps: seq<WorkflowStep>, amount: Option<Amount>)
    ensures forall a | a in Applicable(steps, amount) :: a in steps && StepApplies(a, amount)
  {
    if steps != [] { ApplicableMembers(steps[1..], amount); }
  }

  /** The matrix holds exactly the steps without threshold and those whose threshold the amount reaches; no amount counts as zero. */
  lemma {:induction false} MatrixIs(steps: seq<WorkflowStep>, amount: Option<Amount>)
    ensures forall a :: a in Applicable(steps, amount) <==>
              a in steps && match a.amountThreshold
                            case None => true
                            case Some(t) => if amount.Some? then t <= amount.value else t <= 0.0
  {
    if steps != [] { MatrixIs(steps[1..], amount); }
  }

  /** A larger amount needs every approval a smaller one needs, in the same order. */
  lemma {:induction false} LargerAmountsNeedMore(steps: seq<WorkflowStep>, a: Amount, b: Amount)
    requires a <= b
    ensures Applicable(Applicable(steps, Some(b)), Some(a)) == Applicable(steps, Some(a))
  {
    if steps != [] {
      LargerAmountsNeedMore(steps[1..], a, b);
      var rest := Applicable(steps[1..], Some(b));
      if StepApplies(steps[0], Some(b)) {
        assert ([steps[0]] + rest)[1..] == rest;
      } else {
        assert [] + rest == rest;
      }
    }
  }

  /** With own orders, every applicable step after the first row lies strictly above it. */
  lemma TailAbove(steps: seq<WorkflowStep>, amount: Option<Amount>)
    requires steps != [] && Sorted(steps) && OwnOrders(steps, amount)
    ensures Sorted(steps[1..]) && OwnOrders(steps[1..], amount)
    ensures forall a | a in Applicable(steps[1..], amount) :: a.stepOrder > steps[0].stepOrder
  {
    ApplicableMembers(steps[1..], amount);
    forall a | a in Applicable(steps[1..], amount) ensures a.stepOrder > steps[0].stepOrder {
      var j :| 0 <= j < |steps[1..]| && steps[1..][j] == a;
      assert steps[j + 1] == a;
    }
  }

  lemma {:induction false} FirstIsHead(steps: seq<WorkflowStep>, amount: Option<Amount>)
    ensures var a := Applicable(steps, amount);
            FirstApplicableStep(steps, amount) == if a == [] then None else Some(a[0])
  {
    if steps != [] { FirstIsHead(steps[1..], amount); }
  }

  lemma ApplicableUnfolds(steps: seq<WorkflowStep>, amount: Option<Amount>)
    requires steps != []
    ensures var rest := Applicable(steps[1..], amount);
            Applicable(steps, amount) == if StepApplies(steps[0], amount) then [steps[0]] + rest else rest
  {
  }

  /** Looking up the order of an applicable step finds that step. */
  lemma {:induction false} LookupMember(steps: seq<WorkflowStep>, amount: Option<Amount>, a: WorkflowStep)
    requires Sorted(steps) && OwnOrders(steps, amount) && a in Applicable(steps, amount)
    ensures StepAt(steps, a.stepOrder) == Some(a)
  {
    TailAbove(steps, amount);
    ApplicableUnfolds(steps, amount);
    if a in Applicable(steps[1..], amount) { LookupMember(steps[1..], amount, a); }
  }

  lemma LookupFollowsFilter(steps: seq<WorkflowStep>, amount: Option<Amount>, k: nat)
    requires Sorted(steps) && OwnOrders(steps, amount) && k < |Applicable(steps, amount)|
    ensures var a := Applicable(steps, amount); StepAt(steps, a[k].stepOrder) == Some(a[k])
  {
    LookupMember(steps, amount, Applicable(steps, amount)[k]);
  }

  lemma NextSkipsHead(steps: seq<WorkflowStep>, after: int, amount: Option<Amount>)
    requires steps != [] && !(steps[0].stepOrder > after && StepApplies(steps[0], amount))
    ensures NextApplicableStep(steps, after, amount) == NextApplicableStep(steps[1..], after, amount)
  {
  }

  /** Searching the matrix is searching its filter. */
  lemma {:induction false} NextOfFilter(steps: seq<WorkflowStep>, after: int, amount: Option<Amount>)
    ensures NextApplicableStep(steps, after, amount) == NextApplicableStep(Applicable(steps, amount), after, amount)
  {
    if steps != [] {
      ApplicableUnfolds(steps, amount);
      NextOfFilter(steps[1..], after, amount);
      if StepApplies(steps[0], amount) {
        assert Applicable(steps, amount)[1..] == Applicable(steps[1..], amount);
      } else {
        NextSkipsHead(steps, after, amount);
      }
    }
  }

  predicate StrictlyRising(a: seq<WorkflowStep>) {
    forall i, j | 0 <= i < j < |a| :: a[i].stepOrder < a[j].stepOrder
  }

  lemma {:induction false} ApplicableRises(steps: seq<WorkflowStep>, amount: Option<Amount>)
    requires Sorted(steps) && OwnOrders(steps, amount)
    ensures StrictlyRising(Applicable(steps, amount))
  {
    if steps != [] {
      TailAbove(steps, amount);
      ApplicableRises(steps[1..], amount);
      ApplicableUnfolds(steps, amount);
    }
  }

  lemma {:induction false} NextOnRising(a: seq<WorkflowStep>, amount: Option<Amount>, k: nat)
    requires StrictlyRising(a) && k < |a| && forall s | s in a :: StepApplies(s, amount)
    ensures NextApplicableStep(a, a[k].stepOrder, amount) == if k + 1 < |a| then Some(a[k + 1]) else None
  {
    NextSkipsHead(a, a[k].stepOrder, amount);
    if k > 0 {
      NextOnRising(a[1..], amount, k - 1);
    } else if |a| > 1 {
      assert a[1..][0] == a[1] && a[1] in a;
    }
  }

  /** The k-th applicable order leads to that step, and searching past it finds the next applicable one. */
  lemma WalkFollowsFilter(steps: seq<WorkflowStep>, amount: Option<Amount>, k: nat)
    requires Sorted(steps) && OwnOrders(steps, amount) && k < |Applicable(steps, amount)|
    ensures var a := Applicable(steps, amount);
            && StepAt(steps, a[k].stepOrder) == Some(a[k])
            && NextApplicableStep(steps, a[k].stepOrder, amount) == if k + 1 < |a| then Some(a[k + 1]) else None
  {
    var a := Applicable(steps, amount);
    LookupFollowsFilter(steps, amount, k);
    NextOfFilter(steps, a[k].stepOrder, amount);
    ApplicableRises(steps, amount);
    ApplicableMembers(steps, amount);
    NextOnRising(a, amount, k);
  }

  // ---------------------------------------------------------------- every run leaves the trail

  /** Thresholds are columns of the same kind. */
  predicate WholeThresholds(steps: seq<WorkflowStep>) {
    forall i | 0 <= i < |steps| && steps[i].amountThreshold.Some? :: Whole(steps[i].amountThreshold.value)
  }

  /** Storing the amount lifts it onto the threshold of a step that the amount as sent has passed over. */
  predicate RoundedOver(steps: seq<WorkflowStep>, amount: Option<Amount>) {
    && amount.Some? && amount.value < Rounded(amount.value)
    && exists j | 0 <= j < |steps| ::
        steps[j].amountThreshold == Stored(amount) && forall i | 0 <= i < j :: !StepApplies(steps[i], amount)
  }

  lemma NearestReaches(a: real, t: int)
    ensures Nearest(a) >= t <==> a >= t as real || (a < Nearest(a) as real && t == Nearest(a))
  {
  }

  /** Rounding only ever adds the steps whose threshold is the rounded amount. */
  lemma StoredApplies(step: WorkflowStep, amount: Option<Amount>)
    requires step.amountThreshold.Some? ==> Whole(step.amountThreshold.value)
    ensures StepApplies(step, Stored(amount)) <==>
              StepApplies(step, amount)
              || (amount.Some? && amount.value < Rounded(amount.value) && step.amountThreshold == Stored(amount))
  {
    if amount.Some? && step.amountThreshold.Some? {
      NearestReaches(amount.value, step.amountThreshold.value.Floor);
    }
  }

  lemma {:induction false} RoundedOverMovesFirst(steps: seq<WorkflowStep>, amount: Option<Amount>)
    requires WholeThresholds(steps)
    ensures FirstApplicableStep(steps, amount).Some? ==> FirstApplicableStep(steps, Stored(amount)).Some?
    ensures FirstApplicableStep(steps, amount) == FirstApplicableStep(steps, Stored(amount)) <==> !RoundedOver(steps, amount)
  {
    if steps != [] {
      StoredApplies(steps[0], amount);
      if StepApplies(steps[0], amount) {
      } else if StepApplies(steps[0], Stored(amount)) {
        assert RoundedOver(steps, amount);
        FirstIsHead(steps, amount);
        ApplicableMembers(steps, amount);
      } else {
        RoundedOverMovesFirst(steps[1..], amount);
        RoundedOverUnfolds(steps, amount);
      }
    }
  }

  lemma RoundedOverUnfolds(steps: seq<WorkflowStep>, amount: Option<Amount>)
    requires steps != [] && !StepApplies(steps[0], amount) && steps[0].amountThreshold != Stored(amount)
    ensures RoundedOver(steps, amount) <==> RoundedOver(steps[1..], amount)
  {
    if RoundedOver(steps, amount) {
      var j :| 0 <= j < |steps| && steps[j].amountThreshold == Stored(amount) && forall i | 0 <= i < j :: !StepApplies(steps[i], amount);
      assert steps[1..][j - 1] == steps[j];
    }
    if RoundedOver(steps[1..], amount) {
      var j :| 0 <= j < |steps[1..]| && steps[1..][j].amountThreshold == Stored(amount)
               && forall i | 0 <= i < j :: !StepApplies(steps[1..][i], amount);
      assert steps[j + 1] == steps[1..][j];
      assert forall i | 0 <= i < j + 1 :: i > 0 ==> steps[i] == steps[1..][i - 1];
    }
  }

  /**
   An instance starts exactly if the amount as sent selects a step. It then stands at the head of
   the matrix its stored amount selects, if and only if the amount was not rounded over a step.
   */
  lemma StartedTrail(steps: seq<WorkflowStep>, resource: Resource, amount: Option<Amount>, user: User)
    requires Sorted(steps) && WholeThresholds(steps)
    ensures var r := Started(steps, resource, amount, user);
            && (r.Ok? <==> Applicable(steps, amount) != [])
            && (r.Ok? && OwnOrders(steps, Stored(amount)) ==> (Trail(r.value) <==> !RoundedOver(steps, amount)))
  {
    FirstIsHead(steps, amount);
    FirstIsHead(steps, Stored(amount));
    RoundedOverMovesFirst(steps, amount);
    if Started(steps, resource, amount, user).Ok? && OwnOrders(steps, Stored(amount)) {
      LookupFollowsFilter(steps, Stored(amount), 0);
      OwnHead(steps, amount);
    }
  }

  /** The step an instance starts at is the one its order leads to. */
  lemma OwnHead(steps: seq<WorkflowStep>, amount: Option<Amount>)
    requires Sorted(steps) && WholeThresholds(steps) && OwnOrders(steps, Stored(amount))
    requires FirstApplicableStep(steps, amount).Some?
    ensures var first := FirstApplicableStep(steps, amount).value; StepAt(steps, first.stepOrder) == Some(first)
  {
    var first := FirstApplicableStep(steps, amount).value;
    FirstIsHead(steps, amount);
    ApplicableMembers(steps, amount);
    assert first in Applicable(steps, amount);
    StoredApplies(first, amount);
    ApplicableContains(steps, Stored(amount), first);
    var k :| 0 <= k < |Applicable(steps, Stored(amount))| && Applicable(steps, Stored(amount))[k] == first;
    LookupFollowsFilter(steps, Stored(amount), k);
  }

  /** 99.999 stored as 100.00: the step for 100 and above is passed over although the instance will show that amount. */
  lemma RoundingPassesAStepOver(officer: WorkflowStep, chief: WorkflowStep, resource: Resource, user: User)
    requires officer.stepOrder < chief.stepOrder
    requires officer.amountThreshold == Some(10000.0) && chief.amountThreshold == None
    ensures var i := Instance([officer, chief], Some(10000.0), resource, user.id, PENDING, chief.stepOrder, []);
            && Started([officer, chief], resource, Some(9999.9), user) == Ok(i)
            && Applicable(i.steps, i.amount) == [officer, chief] && !Trail(i)
  {
    var steps := [officer, chief];
    assert steps[1..] == [chief] && [chief][1..] == [];
    assert Rounded(9999.9) == 10000.0;
    assert FirstApplicableStep(steps, Some(9999.9)) == FirstApplicableStep([chief], Some(9999.9)) == Some(chief);
    assert Applicable([chief], Some(10000.0)) == [chief];
    assert Applicable(steps, Some(10000.0)) == [officer] + [chief];
  }

  /** On a trail, a decision is accepted exactly from somebody authorised for the step that is due. */
  lemma ActedOkIffAuthorised(i: Instance, user: User, decision: Decision)
    requires Trail(i)
    ensures Acted(i, user, decision).Ok? <==>
              i.status == PENDING && Authorised(user, Applicable(i.steps, i.amount)[|i.actions|], i.createdBy)
  {
    if i.status == PENDING {
      WalkFollowsFilter(i.steps, i.amount, |i.actions|);
    }
  }

  lemma ActedTrail(i: Instance, user: User, decision: Decision)
    requires Trail(i) && Acted(i, user, decision).Ok?
    ensures Trail(Acted(i, user, decision).value)
  {
    WalkFollowsFilter(i.steps, i.amount, |i.actions|);
    ActedOkIffAuthorised(i, user, decision);
    var i' := Acted(i, user, decision).value;
    assert i'.actions == i.actions + [ApprovalAction(i.currentStepOrder, user, decision)];
    assert i'.steps == i.steps && i'.amount == i.amount && i'.createdBy == i.createdBy;
  }

  /** What an accepted decision writes, and why one is refused, told by the matrix. */
  lemma ActedOutcome(i: Instance, user: User, decision: Decision)
    requires Trail(i)
    ensures var matrix, k := Applicable(i.steps, i.amount), |i.actions|;
            match Acted(i, user, decision)
            case Ok(i') =>
              && i.status == PENDING && k < |matrix|
              && i'.(actions := i.actions, status := i.status, currentStepOrder := i.currentStepOrder) == i
              && i'.actions == i.actions + [ApprovalAction(matrix[k].stepOrder, user, decision)]
              && i'.status == (if decision == REJECT then REJECTED else if k + 1 == |matrix| then APPROVED else PENDING)
              && (i'.status == PENDING ==> i'.currentStepOrder == matrix[k + 1].stepOrder)
            case Err(e) =>
              e == if i.status != PENDING then NotPending
                   else if user.id == i.createdBy && SUPER_ADMIN !in user.roles then CreatorCannotApprove
                   else RoleRequired
  {
    if i.status == PENDING { WalkFollowsFilter(i.steps, i.amount, |i.actions|); }
  }

  /** A sequence of attempts; a refused one leaves the row as it was. */
  function Decided(i: Instance, attempts: seq<(User, Decision)>): Instance
    decreases |attempts|
  {
    if attempts == [] then i
    else
      var r := Acted(i, attempts[0].0, attempts[0].1);
      Decided(if r.Ok? then r.value else i, attempts[1..])
  }

  /** Over every run of decisions on a started instance the trail is exact. */
  lemma {:induction false} EveryRunLeavesTheTrail(i: Instance, attempts: seq<(User, Decision)>)
    requires Trail(i)
    ensures Trail(Decided(i, attempts))
    decreases |attempts|
  {
    if attempts != [] {
      var r := Acted(i, attempts[0].0, attempts[0].1);
      if r.Ok? { ActedTrail(i, attempts[0].0, attempts[0].1); }
      EveryRunLeavesTheTrail(if r.Ok? then r.value else i, attempts[1..]);
    }
  }

  ghost predicate AlwaysLeavesTheTrail(i: Instance) {
    forall attempts: seq<(User, Decision)> :: Trail(Decided(i, attempts))
  }

  lemma TrailFromTheStart(i: Instance)
    ensures AlwaysLeavesTheTrail(i) <==> Trail(i)
  {
    if Trail(i) {
      forall attempts: seq<(User, Decision)> ensures Trail(Decided(i, attempts)) { EveryRunLeavesTheTrail(i, attempts); }
    } else {
      var none: seq<(User, Decision)> := [];
      assert !Trail(Decided(i, none));
    }
  }

  /**
   For any amount sent to `start`: every run of decisions leaves the exact trail if and only if the
   amount was not rounded over a step.
   */
  lemma StartedRunsLeaveTheTrailIff(steps: seq<WorkflowStep>, resource: Resource, amount: Option<Amount>, user: User)
    requires Sorted(steps) && WholeThresholds(steps) && OwnOrders(steps, Stored(amount))
    requires Started(steps, resource, amount, user).Ok?
    ensures AlwaysLeavesTheTrail(Started(steps, resource, amount, user).value) <==> !RoundedOver(steps, amount)
  {
    StartedTrail(steps, resource, amount, user);
    TrailFromTheStart(Started(steps, resource, amount, user).value);
  }

  /** Applicable steps still to be decided. */
  function Remaining(i: Instance): int {
    if i.status == PENDING then |Applicable(i.steps, i.amount)| - |i.actions| else 0
  }

  /** Each accepted decision uses up an applicable step; an accepted rejection uses up all of them. */
  lemma AcceptedDecisionsRunOut(i: Instance, user: User, decision: Decision)
    requires Trail(i) && Acted(i, user, decision).Ok?
    ensures var i' := Acted(i, user, decision).value;
            && 0 <= Remaining(i') < Remaining(i)
            && (decision == APPROVE ==> Remaining(i') == Remaining(i) - 1)
            && (Remaining(i') == 0 <==> i'.status != PENDING)
  {
    WalkFollowsFilter(i.steps, i.amount, |i.actions|);
  }

  // ---------------------------------------------------------------- exactly when the filter is followed

  function StepsAfter(steps: seq<WorkflowStep>, order: int): nat {
    if steps == [] then 0
    else (if steps[0].stepOrder > order then 1 else 0) + StepsAfter(steps[1..], order)
  }

  lemma {:induction false} FewerStepsAfter(steps: seq<WorkflowStep>, order: int, next: int)
    requires order <= next
    ensures StepsAfter(steps, next) <= StepsAfter(steps, order)
    ensures (exists s | s in steps :: order < s.stepOrder <= next) ==> StepsAfter(steps, next) < StepsAfter(steps, order)
  {
    if steps != [] {
      FewerStepsAfter(steps[1..], order, next);
    }
  }

  /** The rows `act` consults when every decision is an approval, from a given order on. */
  function WalkFrom(steps: seq<WorkflowStep>, amount: Option<Amount>, order: int): seq<WorkflowStep>
    decreases StepsAfter(steps, order)
  {
    var row := StepAt(steps, order);
    var next := NextApplicableStep(steps, order, amount);
    if row.None? then []
    else if next.None? then [row.value]
    else
      FewerStepsAfter(steps, order, next.value.stepOrder);
      [row.value] + WalkFrom(steps, amount, next.value.stepOrder)
  }

  function Walk(steps: seq<WorkflowStep>, amount: Option<Amount>): seq<WorkflowStep> {
    var first := FirstApplicableStep(steps, amount);
    if first.None? then [] else WalkFrom(steps, amount, first.value.stepOrder)
  }

  lemma {:induction false} WalkIsSuffix(steps: seq<WorkflowStep>, amount: Option<Amount>, k: nat)
    requires Sorted(steps) && OwnOrders(steps, amount) && k < |Applicable(steps, amount)|
    ensures var a := Applicable(steps, amount); WalkFrom(steps, amount, a[k].stepOrder) == a[k..]
    decreases |Applicable(steps, amount)| - k
  {
    var a := Applicable(steps, amount);
    WalkFollowsFilter(steps, amount, k);
    if k + 1 < |a| { WalkIsSuffix(steps, amount, k + 1); }
  }

  lemma {:induction false} StepAtFindsOrder(steps: seq<WorkflowStep>, order: int)
    ensures StepAt(steps, order).Some? ==> StepAt(steps, order).value.stepOrder == order
  {
    if steps != [] { StepAtFindsOrder(steps[1..], order); }
  }

  lemma {:induction false} StepAtIsEarliest(steps: seq<WorkflowStep>, i: nat)
    requires i < |steps|
    ensures var r := StepAt(steps, steps[i].stepOrder); r.Some? && r.value in steps[..i + 1]
  {
    if steps[0].stepOrder == steps[i].stepOrder {
      assert steps[..i + 1][0] == steps[0];
    } else {
      StepAtIsEarliest(steps[1..], i - 1);
      assert steps[..i + 1] == [steps[0]] + steps[1..][..i];
    }
  }

  /** A walk's orders rise strictly, and each row is the first of its order. */
  ghost predicate Rising(steps: seq<WorkflowStep>, w: seq<WorkflowStep>, order: int) {
    && (forall i | 0 <= i < |w| :: StepAt(steps, w[i].stepOrder) == Some(w[i]) && w[i].stepOrder >= order)
    && (forall i, j | 0 <= i < j < |w| :: w[i].stepOrder < w[j].stepOrder)
  }

  lemma {:induction false} WalkRises(steps: seq<WorkflowStep>, amount: Option<Amount>, order: int)
    ensures Rising(steps, WalkFrom(steps, amount, order), order)
    decreases StepsAfter(steps, order)
  {
    StepAtFindsOrder(steps, order);
    var row := StepAt(steps, order);
    var next := NextApplicableStep(steps, order, amount);
    if row.Some? && next.Some? {
      FewerStepsAfter(steps, order, next.value.stepOrder);
      WalkRises(steps, amount, next.value.stepOrder);
      var rest := WalkFrom(steps, amount, next.value.stepOrder);
      assert WalkFrom(steps, amount, order) == [row.value] + rest;
      assert Rising(steps, [row.value] + rest, order);
    }
  }

  /** The filter of a prefix, then an applicable row, then the rest. */
  lemma {:induction false} ApplicableSplits(steps: seq<WorkflowStep>, amount: Option<Amount>, j: nat)
    requires j <= |steps|
    ensures Applicable(steps, amount) == Applicable(steps[..j], amount) + Applicable(steps[j..], amount)
  {
    if j == 0 {
      assert steps[0..] == steps && steps[..0] == [];
    } else {
      assert steps[..j][1..] == steps[1..][..j - 1] && steps[1..][j - 1..] == steps[j..];
      ApplicableSplits(steps[1..], amount, j - 1);
    }
  }

  lemma {:induction false} ApplicableContains(steps: seq<WorkflowStep>, amount: Option<Amount>, s: WorkflowStep)
    requires s in steps && StepApplies(s, amount)
    ensures s in Applicable(steps, amount)
  {
    if steps[0] != s { ApplicableContains(steps[1..], amount, s); }
  }

  /**
   Step orders are sorted but not declared unique. Approving all the way consults exactly the
   applicable steps, in order, if and only if no applicable step shares its order with an
   earlier row.
   */
  lemma WalkIsFilterIffOwnOrders(steps: seq<WorkflowStep>, amount: Option<Amount>)
    requires Sorted(steps)
    ensures Walk(steps, amount) == Applicable(steps, amount) <==> OwnOrders(steps, amount)
  {
    var a := Applicable(steps, amount);
    FirstIsHead(steps, amount);
    if OwnOrders(steps, amount) {
      if a != [] { WalkIsSuffix(steps, amount, 0); assert a[0..] == a; }
    } else {
      var i, j :| 0 <= i < j < |steps| && StepApplies(steps[j], amount) && steps[i].stepOrder == steps[j].stepOrder;
      SharedOrderBreaksWalk(steps, amount, i, j);
    }
  }

  lemma SharedOrderBreaksWalk(steps: seq<WorkflowStep>, amount: Option<Amount>, i: nat, j: nat)
    requires i < j < |steps| && StepApplies(steps[j], amount) && steps[i].stepOrder == steps[j].stepOrder
    ensures Walk(steps, amount) != Applicable(steps, amount)
  {
    var a := Applicable(steps, amount);
    ApplicableSplits(steps, amount, j);
    var p := |Applicable(steps[..j], amount)|;
    assert a[p] == Applicable(steps[j..], amount)[0] == steps[j];
    FirstIsHead(steps, amount);
    WalkRises(steps, amount, a[0].stepOrder);
    StepAtIsEarliest(steps, i);
    if Walk(steps, amount) == a {
      // the row consulted for this order is an earlier one, which then has to apply as well
      assert StepAt(steps, steps[j].stepOrder) == Some(a[p]);
      EarlierCopy(steps, amount, i, j);
      assert false;
    }
  }

  lemma EarlierCopy(steps: seq<WorkflowStep>, amount: Option<Amount>, i: nat, j: nat)
    requires i < j < |steps| && StepApplies(steps[j], amount) && steps[j] in steps[..i + 1]
    ensures var p := |Applicable(steps[..j], amount)|;
            p <= |Applicable(steps, amount)| && exists q | 0 <= q < p :: Applicable(steps, amount)[q] == steps[j]
  {
    assert steps[..i + 1] <= steps[..j];
    assert steps[j] in steps[..j];
    ApplicableContains(steps[..j], amount, steps[j]);
    ApplicableSplits(steps, amount, j);
    var before := Applicable(steps[..j], amount);
    var q :| 0 <= q < |before| && before[q] == steps[j];
    assert Applicable(steps, amount)[q] == steps[j];
  }
}
