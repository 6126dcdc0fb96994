/**
 backend/libs/approvals, `syncIamChangeOnTerminal`: an approved role change is a
 compare-and-swap on the target's role set.
 */
module RoleChange {
  import opened Wrappers
  import opened Sets

  datatype RequestStatus = PENDING | APPROVED | REJECTED | CANCELLED

  datatype Verdict = Approve | Reject

  /** `previous` is the role set the request was drawn up against. */
  datatype Request = Request(target: string, previous: seq<string>, proposed: seq<string>, status: RequestStatus)

  /** A user's role rows, and the parties the account is bound to. */
  datatype Account = Account(roles: seq<string>, customer: bool, supplier: bool, partner: bool)

  /** `roleTable` lists the organization's role codes, which are unique. */
  datatype Store = Store(accounts: map<string, Account>, roleTable: seq<string>, requests: seq<Request>)

  // ---------------------------------------------------------------- comparing role sets

  /** The order of `Array.prototype.sort` on strings. */
  predicate LexLe(a: string, b: string) {
    a == [] || (b != [] && (a[0] < b[0] || (a[0] == b[0] && LexLe(a[1..], b[1..]))))
  }

  function Insert(x: string, s: seq<string>): seq<string> {
    if s == [] || LexLe(x, s[0]) then [x] + s else [s[0]] + Insert(x, s[1..])
  }

  function Sort(s: seq<string>): seq<string> {
    if s == [] then [] else Insert(s[0], Sort(s[1..]))
  }

  predicate Ascending(s: seq<string>) {
    forall i, j | 0 <= i < j < |s| :: LexLe(s[i], s[j])
  }

  lemma {:induction a, b} LexTotal(a: string, b: string)
    ensures LexLe(a, b) || LexLe(b, a)
    ensures LexLe(a, b) && LexLe(b, a) ==> a == b
  {
    if a != [] && b != [] {
      assert a == [a[0]] + a[1..] && b == [b[0]] + b[1..];
    }
  }

  lemma {:induction a, b, c} LexTransitive(a: string, b: string, c: string)
    requires LexLe(a, b) && LexLe(b, c)
    ensures LexLe(a, c)
  {
  }

  /** Ascending from a least element on. */
  lemma AscendingCons(x: string, s: seq<string>)
    requires Ascending(s) && forall y | y in s :: LexLe(x, y)
    ensures Ascending([x] + s) && multiset([x] + s) == multiset{x} + multiset(s)
  {
    var t := [x] + s;
    forall i, j | 0 <= i < j < |t| ensures LexLe(t[i], t[j]) {
      assert t[j] == s[j - 1] && t[j] in s;
      if i > 0 { assert t[i] == s[i - 1]; }
    }
  }

  lemma HeadIsLeast(s: seq<string>)
    requires s != [] && Ascending(s)
    ensures Ascending(s[1..]) && forall y | y in s :: LexLe(s[0], y)
  {
    LexTotal(s[0], s[0]);
    forall y | y in s ensures LexLe(s[0], y) {
      var j :| 0 <= j < |s| && s[j] == y;
    }
  }

  lemma {:induction false} InsertSorts(x: string, s: seq<string>)
    requires Ascending(s)
    ensures Ascending(Insert(x, s)) && multiset(Insert(x, s)) == multiset{x} + multiset(s)
  {
    if s == [] {
      assert Insert(x, s) == [x];
    } else {
      HeadIsLeast(s);
      if LexLe(x, s[0]) {
        forall y | y in s ensures LexLe(x, y) { LexTransitive(x, s[0], y); }
        AscendingCons(x, s);
      } else {
        InsertSorts(x, s[1..]);
        InsertDeeper(x, s);
      }
    }
  }

  lemma InsertDeeper(x: string, s: seq<string>)
    requires s != [] && !LexLe(x, s[0]) && forall y | y in s :: LexLe(s[0], y)
    requires Ascending(Insert(x, s[1..])) && multiset(Insert(x, s[1..])) == multiset{x} + multiset(s[1..])
    ensures Ascending(Insert(x, s)) && multiset(Insert(x, s)) == multiset{x} + multiset(s)
  {
    var rest := Insert(x, s[1..]);
    LexTotal(x, s[0]);
    forall y | y in rest ensures LexLe(s[0], y) {
      assert y in multiset(rest);
      if y != x { assert y in multiset(s[1..]); }
    }
    AscendingCons(s[0], rest);
    assert s == [s[0]] + s[1..];
  }

  lemma {:induction false} SortSorts(s: seq<string>)
    ensures Ascending(Sort(s)) && multiset(Sort(s)) == multiset(s)
  {
    if s != [] {
      SortSorts(s[1..]);
      InsertSorts(s[0], Sort(s[1..]));
      assert s == [s[0]] + s[1..];
    }
  }

  /** Two ascending lists of the same elements are the same list. */
  lemma {:induction false} AscendingIsCanonical(a: seq<string>, b: seq<string>)
    requires Ascending(a) && Ascending(b) && multiset(a) == multiset(b)
    ensures a == b
  {
    SameLength(a, b);
    if a != [] {
      LeastFirst(a, b);
      LeastFirst(b, a);
      LexTotal(a[0], b[0]);
      SameTails(a, b);
      AscendingIsCanonical(a[1..], b[1..]);
      assert a == [a[0]] + a[1..] == b;
    }
  }

  lemma SameTails(a: seq<string>, b: seq<string>)
    requires a != [] && b != [] && a[0] == b[0] && multiset(a) == multiset(b)
    ensures multiset(a[1..]) == multiset(b[1..])
  {
    assert a == [a[0]] + a[1..] && b == [b[0]] + b[1..];
    assert multiset(a[1..]) == multiset(a) - multiset{a[0]};
    assert multiset(b[1..]) == multiset(b) - multiset{b[0]};
  }

  lemma SameLength(a: seq<string>, b: seq<string>)
    requires multiset(a) == multiset(b)
    ensures |a| == |b|
  {
    assert |a| == |multiset(a)| == |multiset(b)| == |b|;
  }

  lemma LeastFirst(a: seq<string>, b: seq<string>)
    requires a != [] && b != [] && Ascending(a) && multiset(a) == multiset(b)
    ensures LexLe(a[0], b[0])
  {
    assert b[0] in multiset(b);
    var i :| 0 <= i < |a| && a[i] == b[0];
    LexTotal(a[0], a[0]);
  }

  /** The lists differ in length, or somewhere after sorting. */
  predicate Stale(live: seq<string>, previous: seq<string>) {
    var a, b := Sort(live), Sort(previous);
    |a| != |b| || exists i | 0 <= i < |a| :: a[i] != b[i]
  }

  /** Comparing sorted lists entry by entry is comparing multisets. */
  lemma StaleIffDifferent(live: seq<string>, previous: seq<string>)
    ensures Stale(live, previous) <==> multiset(live) != multiset(previous)
  {
    var a, b := Sort(live), Sort(previous);
    SortSorts(live);
    SortSorts(previous);
    if multiset(live) == multiset(previous) {
      AscendingIsCanonical(a, b);
    }
    if !Stale(live, previous) {
      assert a == b;
    }
  }

  // ---------------------------------------------------------------- the swap

  predicate BindingsMissing(account: Account, proposed: seq<string>) {
    || (("CUSTOMER_PORTAL" in proposed || "CUSTOMER_EMPLOYEE" in proposed) && !account.customer)
    || ("SUPPLIER_PORTAL" in proposed && !account.supplier)
    || ("OTHER_SECURITY_COMPANY" in proposed && !account.partner)
  }

  /** `role.findMany({ code: { in: proposed } })`, in table order. */
  function Found(roleTable: seq<string>, proposed: seq<string>): seq<string> {
    if roleTable == [] then []
    else (if roleTable[0] in proposed then [roleTable[0]] else []) + Found(roleTable[1..], proposed)
  }

  function LiveRoles(s: Store, user: string): seq<string> {
    if user in s.accounts then s.accounts[user].roles else []
  }

  /** The status an APPROVED instance gives a pending request. */
  function SwapStatus(s: Store, r: Request): RequestStatus {
    if Stale(LiveRoles(s, r.target), r.previous) then CANCELLED
    else if r.target !in s.accounts || BindingsMissing(s.accounts[r.target], r.proposed) then CANCELLED
    else if |Found(s.roleTable, r.proposed)| != |r.proposed| then CANCELLED
    else APPROVED
  }

  function Finished(s: Store, id: nat, verdict: Verdict): Store {
    if id >= |s.requests| || s.requests[id].status != PENDING then s
    else
      var r := s.requests[id];
      var status := if verdict == Reject then REJECTED else SwapStatus(s, r);
      var requests := s.requests[id := r.(status := status)];
      if status == APPROVED then
        s.(requests := requests,
           accounts := s.accounts[r.target := s.accounts[r.target].(roles := Found(s.roleTable, r.proposed))])
      else s.(requests := requests)
  }

  class IamSync {
    var accounts: map<string, Account>
    var roleTable: seq<string>
    var requests: seq<Request>

    ghost function View(): Store
      reads this
    {
      Store(accounts, roleTable, requests)
    }

    constructor (accounts: map<string, Account>, roleTable: seq<string>, requests: seq<Request>)
      ensures View() == Store(accounts, roleTable, requests)
    {
      this.accounts := accounts;
      this.roleTable := roleTable;
      this.requests := requests;
    }

    method IsStale(live: seq<string>, previous: seq<string>) returns (stale: bool)
      ensures stale == (multiset(live) != multiset(previous))
    {
      StaleIffDifferent(live, previous);
      var liveCodes, expected := Sort(live), Sort(previous);
      if |liveCodes| != |expected| {
        return true;
      }
      for i := 0 to |liveCodes|
        invariant liveCodes[..i] == expected[..i]
      {
        if liveCodes[i] != expected[i] {
          return true;
        }
      }
      stale := false;
    }

    method SyncIamChangeOnTerminal(id: nat, verdict: Verdict)
      modifies this
      ensures View() == Finished(old(View()), id, verdict)
      ensures id < |old(requests)| && old(requests)[id].status == PENDING && verdict == Reject ==>
                accounts == old(accounts) && requests == old(requests)[id := old(requests)[id].(status := REJECTED)]
      ensures id >= |old(requests)| || old(requests)[id].status != PENDING ==> View() == old(View())
    {
      if id >= |requests| || requests[id].status != PENDING {
        return;
      }
      var request := requests[id];
      if verdict == Reject {
        requests := requests[id := request.(status := REJECTED)];
        return;
      }
      var live := if request.target in accounts then accounts[request.target].roles else [];
      var stale := IsStale(live, request.previous);
      StaleIffDifferent(live, request.previous);
      if stale {
        requests := requests[id := request.(status := CANCELLED)];
        return;
      }
      if request.target !in accounts || BindingsMissing(accounts[request.target], request.proposed) {
        requests := requests[id := request.(status := CANCELLED)];
        return;
      }
      var roles := Found(roleTable, request.proposed);
      if |roles| != |request.proposed| {
        requests := requests[id := request.(status := CANCELLED)];
        return;
      }
      accounts := accounts[request.target := accounts[request.target].(roles := roles)];
      requests := requests[id := request.(status := APPROVED)];
    }
  }

  // ---------------------------------------------------------------- what the swap guarantees

  lemma {:induction false} FoundMembers(table: seq<string>, proposed: seq<string>)
    requires Distinct(table)
    ensures Distinct(Found(table, proposed))
    ensures forall x :: x in Found(table, proposed) <==> x in table && x in proposed
  {
    if table != [] {
      FoundMembers(table[1..], proposed);
      assert table[0] !in table[1..];
    }
  }

  lemma {:induction false} DistinctCounts(s: seq<string>, x: string)
    requires Distinct(s)
    ensures multiset(s)[x] == if x in s then 1 else 0
  {
    if s != [] {
      DistinctCounts(s[1..], x);
      assert s == [s[0]] + s[1..];
      assert s[0] !in s[1..];
    }
  }

  /** As many roles as proposed codes are found exactly when the codes are distinct and all exist. */
  lemma FoundAllIff(table: seq<string>, proposed: seq<string>)
    requires Distinct(table)
    ensures |Found(table, proposed)| == |proposed| <==> Distinct(proposed) && AsSet(proposed) <= AsSet(table)
    ensures |Found(table, proposed)| == |proposed| ==> multiset(Found(table, proposed)) == multiset(proposed)
  {
    var found := Found(table, proposed);
    FoundMembers(table, proposed);
    SetSize(found);
    SetSize(proposed);
    assert AsSet(found) <= AsSet(proposed);
    SubsetSize(AsSet(found), AsSet(proposed));
    if |found| == |proposed| {
      assert AsSet(found) == AsSet(proposed);
      assert forall x :: x in found <==> x in AsSet(found);
      assert forall x :: x in proposed <==> x in AsSet(proposed);
      forall x ensures multiset(found)[x] == multiset(proposed)[x] {
        DistinctCounts(found, x);
        DistinctCounts(proposed, x);
      }
    }
    if Distinct(proposed) && AsSet(proposed) <= AsSet(table) {
      assert forall x | x in proposed :: x in AsSet(proposed);
      assert AsSet(found) == AsSet(proposed);
    }
  }

  datatype Party = Customer | Supplier | Partner

  /** The party a role acts for. */
  function PartyOf(role: string): Option<Party> {
    match role
    case "CUSTOMER_PORTAL" => Some(Customer)
    case "CUSTOMER_EMPLOYEE" => Some(Customer)
    case "SUPPLIER_PORTAL" => Some(Supplier)
    case "OTHER_SECURITY_COMPANY" => Some(Partner)
    case _ => None
  }

  predicate BoundTo(account: Account, party: Party) {
    match party
    case Customer => account.customer
    case Supplier => account.supplier
    case Partner => account.partner
  }

  /** Every proposed role that acts for a party has its party bound to the account. */
  predicate PartiesBound(account: Account, proposed: seq<string>) {
    forall role | role in proposed && PartyOf(role).Some? :: BoundTo(account, PartyOf(role).value)
  }

  lemma BindingsMissingIff(account: Account, proposed: seq<string>)
    ensures BindingsMissing(account, proposed) <==> !PartiesBound(account, proposed)
  {
    var bound := PartiesBound(account, proposed);
    assert bound && "CUSTOMER_PORTAL" in proposed ==> BoundTo(account, PartyOf("CUSTOMER_PORTAL").value);
    assert bound && "CUSTOMER_EMPLOYEE" in proposed ==> BoundTo(account, PartyOf("CUSTOMER_EMPLOYEE").value);
    assert bound && "SUPPLIER_PORTAL" in proposed ==> BoundTo(account, PartyOf("SUPPLIER_PORTAL").value);
    assert bound && "OTHER_SECURITY_COMPANY" in proposed ==> BoundTo(account, PartyOf("OTHER_SECURITY_COMPANY").value);
  }

  /** What it takes for the swap to go through. */
  ghost predicate Applies(s: Store, r: Request) {
    && r.target in s.accounts
    && multiset(s.accounts[r.target].roles) == multiset(r.previous)
    && PartiesBound(s.accounts[r.target], r.proposed)
    && Distinct(r.proposed) && AsSet(r.proposed) <= AsSet(s.roleTable)
  }

  /**
   The change goes through exactly when the live roles still are the snapshot (as multisets)
   and the proposal is valid. Then the live roles are exactly the proposed ones, and every
   party role has its binding; otherwise the request is CANCELLED and no account changes.
   */
  lemma CompareAndSwap(s: Store, id: nat)
    requires Distinct(s.roleTable) && id < |s.requests| && s.requests[id].status == PENDING
    ensures var r := s.requests[id];
            var s' := Finished(s, id, Approve);
            && (s'.requests[id].status == APPROVED <==> Applies(s, r))
            && (Applies(s, r) ==> && s'.accounts.Keys == s.accounts.Keys
                                  && multiset(s'.accounts[r.target].roles) == multiset(r.proposed)
                                  && forall u | u in s.accounts && u != r.target :: s'.accounts[u] == s.accounts[u])
            && (!Applies(s, r) ==> s'.requests[id].status == CANCELLED && s'.accounts == s.accounts)
    ensures Applies(s, s.requests[id]) ==>
              var target := s.requests[id].target;
              var account := Finished(s, id, Approve).accounts[target];
              account.(roles := s.accounts[target].roles) == s.accounts[target] && PartiesBound(account, account.roles)
  {
    var r := s.requests[id];
    StaleIffDifferent(LiveRoles(s, r.target), r.previous);
    FoundAllIff(s.roleTable, r.proposed);
    FoundMembers(s.roleTable, r.proposed);
    if r.target in s.accounts { BindingsMissingIff(s.accounts[r.target], r.proposed); }
  }

  /**
   A verdict decides its own PENDING request and nothing else: one that is already decided is never
   changed, a rejected one touches no account, and an approved one none but its target's.
   */
  lemma OneRequestDecided(s: Store, id: nat, verdict: Verdict)
    ensures var s' := Finished(s, id, verdict);
            && s'.roleTable == s.roleTable && |s'.requests| == |s.requests| && s'.accounts.Keys == s.accounts.Keys
            && (forall i | 0 <= i < |s.requests| && i != id :: s'.requests[i] == s.requests[i])
            && (id >= |s.requests| || s.requests[id].status != PENDING ==> s' == s)
            && (id < |s.requests| ==> s'.requests[id].(status := s.requests[id].status) == s.requests[id])
            && (id < |s.requests| && s.requests[id].status == PENDING ==>
                  && (s'.requests[id].status == REJECTED <==> verdict == Reject)
                  && s'.requests[id].status != PENDING
                  && (s'.requests[id].status != APPROVED ==> s'.accounts == s.accounts)
                  && forall u | u in s.accounts && u != s.requests[id].target :: s'.accounts[u] == s.accounts[u])
  {
  }

  /** Of two requests drawn up against one snapshot, once the first has really changed the roles the second is cancelled. */
  lemma SecondOfOneSnapshotCancelled(s: Store, first: nat, second: nat)
    requires Distinct(s.roleTable) && first < |s.requests| && second < |s.requests| && first != second
    requires s.requests[first].status == PENDING && s.requests[second].status == PENDING
    requires s.requests[first].target == s.requests[second].target
    requires s.requests[first].previous == s.requests[second].previous
    requires multiset(s.requests[first].proposed) != multiset(s.requests[first].previous)
    requires Finished(s, first, Approve).requests[first].status == APPROVED
    ensures var s1 := Finished(s, first, Approve);
            var s2 := Finished(s1, second, Approve);
            s2.requests[second].status == CANCELLED && s2.accounts == s1.accounts
  {
    CompareAndSwap(s, first);
    CompareAndSwap(Finished(s, first, Approve), second);
  }

  function FinishAll(s: Store, verdicts: seq<(nat, Verdict)>): Store
    decreases |verdicts|
  {
    if verdicts == [] then s else FinishAll(Finished(s, verdicts[0].0, verdicts[0].1), verdicts[1..])
  }

  /** The verdict that decides a pending request: the first one about it. */
  function FirstVerdict(verdicts: seq<(nat, Verdict)>, id: nat): Option<Verdict> {
    if verdicts == [] then None
    else if verdicts[0].0 == id then Some(verdicts[0].1)
    else FirstVerdict(verdicts[1..], id)
  }

  /**
   Over every sequence of verdicts: a request is decided by the first verdict about it, REJECTED
   exactly by a rejection and APPROVED only by an approval; and an account changes only for the sake
   of a request that was approved meanwhile and targets it.
   */
  lemma {:induction false} EveryDecisionHasItsVerdict(s: Store, verdicts: seq<(nat, Verdict)>)
    ensures var t := FinishAll(s, verdicts);
            && |t.requests| == |s.requests| && t.accounts.Keys == s.accounts.Keys
            && (forall i | 0 <= i < |s.requests| :: t.requests[i].(status := s.requests[i].status) == s.requests[i])
            && (forall i | 0 <= i < |s.requests| && s.requests[i].status != PENDING :: t.requests[i] == s.requests[i])
            && (forall i | 0 <= i < |s.requests| && s.requests[i].status == PENDING ::
                  && (t.requests[i].status == PENDING <==> FirstVerdict(verdicts, i) == None)
                  && (t.requests[i].status == REJECTED <==> FirstVerdict(verdicts, i) == Some(Reject)))
            && (forall u | u in s.accounts && t.accounts[u] != s.accounts[u] ::
                  exists i :: 0 <= i < |s.requests| && s.requests[i].target == u
                              && s.requests[i].status == PENDING && t.requests[i].status == APPROVED)
    decreases |verdicts|
  {
    if verdicts != [] {
      var (id, verdict) := verdicts[0];
      var s1, t := Finished(s, id, verdict), FinishAll(s, verdicts);
      OneRequestDecided(s, id, verdict);
      EveryDecisionHasItsVerdict(s1, verdicts[1..]);
      forall u | u in s.accounts && t.accounts[u] != s.accounts[u]
        ensures exists i :: 0 <= i < |s.requests| && s.requests[i].target == u
                            && s.requests[i].status == PENDING && t.requests[i].status == APPROVED
      {
        if s1.accounts[u] != s.accounts[u] {
          assert s.requests[id].target == u && t.requests[id] == s1.requests[id];
        }
      }
    }
  }

  /** Requests about one user drawn up against one snapshot, none of which proposes that snapshot. */
  ghost predicate RivalsFor(s: Store, user: string, snapshot: seq<string>) {
    forall i | 0 <= i < |s.requests| && s.requests[i].target == user ::
      s.requests[i].previous == snapshot && multiset(s.requests[i].proposed) != multiset(snapshot)
  }

  /** No rival is APPROVED yet, or exactly one is and the user's roles are no longer the snapshot. */
  ghost predicate AtMostOneWon(s: Store, user: string, snapshot: seq<string>) {
    && (forall i, j | 0 <= i < j < |s.requests| && s.requests[i].target == user && s.requests[j].target == user ::
          s.requests[i].status != APPROVED || s.requests[j].status != APPROVED)
    && (forall i | 0 <= i < |s.requests| && s.requests[i].target == user && s.requests[i].status == APPROVED ::
          user in s.accounts && multiset(s.accounts[user].roles) != multiset(snapshot))
  }

  lemma VerdictKeepsOneWinner(s: Store, id: nat, verdict: Verdict, user: string, snapshot: seq<string>)
    requires Distinct(s.roleTable) && RivalsFor(s, user, snapshot) && AtMostOneWon(s, user, snapshot)
    ensures var s' := Finished(s, id, verdict);
            s'.roleTable == s.roleTable && RivalsFor(s', user, snapshot) && AtMostOneWon(s', user, snapshot)
  {
    if id < |s.requests| && s.requests[id].status == PENDING {
      CompareAndSwap(s, id);
    }
  }

  /** Over every sequence of verdicts at most one of the rivals is ever applied. */
  lemma {:induction false} AtMostOneRivalApplied(s: Store, verdicts: seq<(nat, Verdict)>, user: string, snapshot: seq<string>)
    requires Distinct(s.roleTable) && RivalsFor(s, user, snapshot) && AtMostOneWon(s, user, snapshot)
    ensures AtMostOneWon(FinishAll(s, verdicts), user, snapshot)
    decreases |verdicts|
  {
    if verdicts != [] {
      VerdictKeepsOneWinner(s, verdicts[0].0, verdicts[0].1, user, snapshot);
      AtMostOneRivalApplied(Finished(s, verdicts[0].0, verdicts[0].1), verdicts[1..], user, snapshot);
    }
  }
}
