/** Turning a directory batch into an ordered list of directory operations. */
module Plan {
  import opened Store
  import opened OuOrder

  datatype Batch = Batch(
    ous: seq<OrganizationalUnit>,
    users: seq<UserInput>,
    groups: seq<GroupInput>,
    deleted: seq<string>,
    revision: nat)

  datatype Operation =
    | EnsureOu(ou: OrganizationalUnit)
    | EnsureUser(user: UserInput)
    | EnsureUserPlacement(id: string, unit: string)
    | EnsureGroup(group: GroupInput)
    | EnsureGroupMembers(group: GroupInput, members: seq<string>)
    | DisableUser(id: string)
    | MoveUserToQuarantine(id: string, dn: string)
    | RetireUser(id: string, dn: string)

  datatype DirectoryPlan = DirectoryPlan(targetRevision: nat, operations: seq<Operation>)

  /** The documented execution order. */
  function Stage(op: Operation): nat {
    match op
    case EnsureOu(_) => 0
    case EnsureUser(_) => 1
    case EnsureUserPlacement(_, _) => 2
    case EnsureGroup(_) => 3
    case EnsureGroupMembers(_, _) => 4
    case DisableUser(_) => 5
    case MoveUserToQuarantine(_, _) => 5
    case RetireUser(_, _) => 6
  }

  predicate HasUser(users: seq<UserInput>, id: string) {
    exists u :: u in users && u.id == id
  }

  /** The operations a batch calls for. */
  predicate Wanted(b: Batch, quarantine: string, op: Operation) {
    match op
    case EnsureOu(ou) => ou in b.ous
    case EnsureUser(user) => user in b.users
    case EnsureUserPlacement(id, unit) =>
      exists u :: u in b.users && u.id == id && u.profile.status == Active && u.profile.organizationalUnitId == unit
    case EnsureGroup(group) => group in b.groups
    case EnsureGroupMembers(group, members) => group in b.groups && members == group.members
    case DisableUser(id) => exists u :: u in b.users && u.id == id && u.profile.status == Disabled
    case MoveUserToQuarantine(id, dn) =>
      dn == quarantine && exists u :: u in b.users && u.id == id && u.profile.status == Disabled
    case RetireUser(id, dn) => dn == quarantine && id in b.deleted && !HasUser(b.users, id)
  }

  /** The operations of each element, one after the other. */
  function Each<T>(xs: seq<T>, f: T -> seq<Operation>): seq<Operation> {
    if xs == [] then [] else f(xs[0]) + Each(xs[1..], f)
  }

  function Placement(u: UserInput): seq<Operation> {
    if u.profile.status == Active then [EnsureUserPlacement(u.id, u.profile.organizationalUnitId)] else []
  }

  function Suspension(quarantine: string): UserInput -> seq<Operation> {
    (u: UserInput) =>
      if u.profile.status == Disabled then [DisableUser(u.id), MoveUserToQuarantine(u.id, quarantine)] else []
  }

  function Retirement(users: seq<UserInput>, quarantine: string): string -> seq<Operation> {
    (id: string) => if HasUser(users, id) then [] else [RetireUser(id, quarantine)]
  }

  function UnitOperations(ou: OrganizationalUnit): seq<Operation> { [EnsureOu(ou)] }
  function UserOperations(u: UserInput): seq<Operation> { [EnsureUser(u)] }
  function GroupOperations(g: GroupInput): seq<Operation> { [EnsureGroup(g)] }
  function MemberOperations(g: GroupInput): seq<Operation> { [EnsureGroupMembers(g, g.members)] }

  function Operations(ordered: seq<OrganizationalUnit>, b: Batch, quarantine: string): seq<Operation> {
    Each(ordered, UnitOperations)
    + (Each(b.users, UserOperations) + (Each(b.users, Placement) + LaterOperations(b, quarantine)))
  }

  function LaterOperations(b: Batch, quarantine: string): seq<Operation> {
    Each(b.groups, GroupOperations)
    + (Each(b.groups, MemberOperations)
       + (Each(b.users, Suspension(quarantine)) + Each(b.deleted, Retirement(b.users, quarantine))))
  }

  lemma {:induction false} EachIn<T(!new)>(xs: seq<T>, f: T -> seq<Operation>, op: Operation)
    ensures op in Each(xs, f) <==> exists x :: x in xs && op in f(x)
  {
    if xs != [] {
      EachIn(xs[1..], f, op);
      if x :| x in xs && op in f(x) {
        assert x == xs[0] || x in xs[1..];
      }
    }
  }

  ghost predicate Staged(ops: seq<Operation>, from: nat) {
    && (forall i | 0 <= i < |ops| :: from <= Stage(ops[i]))
    && (forall i, j | 0 <= i < j < |ops| :: Stage(ops[i]) <= Stage(ops[j]))
  }

  lemma {:induction false} EachStaged<T(!new)>(xs: seq<T>, f: T -> seq<Operation>, stage: nat, rest: seq<Operation>)
    requires forall x, op | x in xs && op in f(x) :: Stage(op) == stage
    requires Staged(rest, stage)
    ensures Staged(Each(xs, f) + rest, stage)
  {
    if xs == [] {
      assert Each(xs, f) + rest == rest;
    } else {
      EachStaged(xs[1..], f, stage, rest);
      assert Each(xs, f) + rest == f(xs[0]) + (Each(xs[1..], f) + rest);
      assert forall op | op in f(xs[0]) :: Stage(op) == stage;
    }
  }

  lemma DepartingStages(b: Batch, quarantine: string)
    ensures forall id, op | op in Retirement(b.users, quarantine)(id) :: Stage(op) == 6
    ensures forall u, op | op in Suspension(quarantine)(u) :: Stage(op) == 5
  {
    hide HasUser;
  }

  lemma DepartingStaged(b: Batch, quarantine: string)
    ensures Staged(Each(b.users, Suspension(quarantine)) + Each(b.deleted, Retirement(b.users, quarantine)), 5)
  {
    var retirements := Each(b.deleted, Retirement(b.users, quarantine));
    assert retirements + [] == retirements;
    DepartingStages(b, quarantine);
    hide Each, Suspension, Retirement, Stage;
    EachStaged(b.deleted, Retirement(b.users, quarantine), 6, []);
    EachStaged(b.users, Suspension(quarantine), 5, retirements);
  }

  lemma LaterStaged(b: Batch, quarantine: string)
    ensures Staged(LaterOperations(b, quarantine), 3)
  {
    hide Each;
    DepartingStaged(b, quarantine);
    var departing := Each(b.users, Suspension(quarantine)) + Each(b.deleted, Retirement(b.users, quarantine));
    hide Suspension, Retirement, HasUser;
    assert Staged(departing, 4);
    EachStaged(b.groups, MemberOperations, 4, departing);
    var members := Each(b.groups, MemberOperations) + departing;
    assert Staged(members, 3);
    EachStaged(b.groups, GroupOperations, 3, members);
  }

  /** Operations of an earlier stage come before those of a later one. */
  lemma PlanStaged(ordered: seq<OrganizationalUnit>, b: Batch, quarantine: string)
    ensures Staged(Operations(ordered, b, quarantine), 0)
  {
    hide Each;
    LaterStaged(b, quarantine);
    var later := LaterOperations(b, quarantine);
    hide LaterOperations;
    var placements := Each(b.users, Placement) + later;
    EachStaged(b.users, Placement, 2, later);
    EachStaged(b.users, UserOperations, 1, placements);
    EachStaged(ordered, UnitOperations, 0, Each(b.users, UserOperations) + placements);
  }

  lemma LaterExact(b: Batch, quarantine: string, op: Operation)
    ensures op in LaterOperations(b, quarantine) <==> Stage(op) >= 3 && Wanted(b, quarantine, op)
  {
    hide Each;
    EachIn(b.groups, GroupOperations, op);
    EachIn(b.groups, MemberOperations, op);
    EachIn(b.users, Suspension(quarantine), op);
    EachIn(b.deleted, Retirement(b.users, quarantine), op);
  }

  /** The plan holds exactly the operations that the batch calls for. */
  lemma PlanExact(ordered: seq<OrganizationalUnit>, b: Batch, quarantine: string, op: Operation)
    requires multiset(ordered) == multiset(b.ous)
    ensures op in Operations(ordered, b, quarantine) <==> Wanted(b, quarantine, op)
  {
    hide Each;
    LaterExact(b, quarantine, op);
    hide LaterOperations;
    EachIn(ordered, UnitOperations, op);
    EachIn(b.users, UserOperations, op);
    EachIn(b.users, Placement, op);
    if op.EnsureOu? {
      assert op.ou in ordered <==> op.ou in multiset(ordered);
      assert op.ou in b.ous <==> op.ou in multiset(b.ous);
    }
  }

  /** What each user, group and deleted user contributes to its stages, in this order. */
  lemma Pieces(b: Batch, quarantine: string, u: UserInput, g: GroupInput, id: string)
    ensures UserOperations(u) == [EnsureUser(u)]
    ensures Placement(u) ==
            if u.profile.status == Active then [EnsureUserPlacement(u.id, u.profile.organizationalUnitId)] else []
    ensures GroupOperations(g) == [EnsureGroup(g)] && MemberOperations(g) == [EnsureGroupMembers(g, g.members)]
    ensures Suspension(quarantine)(u) ==
            if u.profile.status == Disabled then [DisableUser(u.id), MoveUserToQuarantine(u.id, quarantine)] else []
    ensures Retirement(b.users, quarantine)(id) ==
            if exists u :: u in b.users && u.id == id then [] else [RetireUser(id, quarantine)]
  {
  }

  // ----- Order and number within a stage -----

  /** The operations of one stage, in the order of the plan. */
  function Only(ops: seq<Operation>, stage: nat): seq<Operation> {
    if ops == [] then []
    else (if Stage(ops[0]) == stage then [ops[0]] else []) + Only(ops[1..], stage)
  }

  /** What the batch calls for in one stage: element by element, in the order of the batch. */
  function StageOperations(ordered: seq<OrganizationalUnit>, b: Batch, quarantine: string, stage: nat): seq<Operation> {
    match stage
    case 0 => Each(ordered, UnitOperations)
    case 1 => Each(b.users, UserOperations)
    case 2 => Each(b.users, Placement)
    case 3 => Each(b.groups, GroupOperations)
    case 4 => Each(b.groups, MemberOperations)
    case 5 => Each(b.users, Suspension(quarantine))
    case 6 => Each(b.deleted, Retirement(b.users, quarantine))
    case _ => []
  }

  lemma {:induction false} OnlyJoin(ops: seq<Operation>, rest: seq<Operation>, stage: nat)
    ensures Only(ops + rest, stage) == Only(ops, stage) + Only(rest, stage)
  {
    OnlyNothing(stage);
    hide Only, Stage;
    if ops == [] {
      assert ops + rest == rest;
    } else {
      OnlyJoin(ops[1..], rest, stage);
      OnlyStep(ops, stage);
      OnlyStep(ops + rest, stage);
      assert (ops + rest)[1..] == ops[1..] + rest && (ops + rest)[0] == ops[0];
      Regroup([ops[0]], Only(ops[1..], stage), Only(rest, stage));
    }
  }

  lemma OnlyNothing(stage: nat)
    ensures Only([], stage) == []
  {
  }

  lemma Regroup(a: seq<Operation>, b: seq<Operation>, c: seq<Operation>)
    ensures (a + b) + c == a + (b + c)
  {
  }

  lemma OnlyStep(ops: seq<Operation>, stage: nat)
    requires ops != []
    ensures Stage(ops[0]) == stage ==> Only(ops, stage) == [ops[0]] + Only(ops[1..], stage)
    ensures Stage(ops[0]) != stage ==> Only(ops, stage) == Only(ops[1..], stage)
  {
  }

  lemma {:induction false} OnlyOfStage(ops: seq<Operation>, own: nat, stage: nat)
    requires forall i | 0 <= i < |ops| :: Stage(ops[i]) == own
    ensures Only(ops, stage) == if stage == own then ops else []
  {
    if ops != [] {
      OnlyOfStage(ops[1..], own, stage);
    }
  }

  /** A segment of one stage in front of the rest of the plan. */
  lemma OnlySegment<T(!new)>(xs: seq<T>, f: T -> seq<Operation>, own: nat, rest: seq<Operation>, stage: nat)
    requires forall x, op | x in xs && op in f(x) :: Stage(op) == own
    ensures Only(Each(xs, f) + rest, stage) == (if stage == own then Each(xs, f) else []) + Only(rest, stage)
  {
    var ops := Each(xs, f);
    forall i | 0 <= i < |ops| ensures Stage(ops[i]) == own {
      EachIn(xs, f, ops[i]);
    }
    OnlyJoin(ops, rest, stage);
    OnlyOfStage(ops, own, stage);
  }

  lemma LaterInOrder(b: Batch, quarantine: string, stage: nat)
    ensures Only(LaterOperations(b, quarantine), stage) == if stage >= 3 then StageOperations([], b, quarantine, stage)
            else []
  {
    hide Each, Only;
    DepartingStages(b, quarantine);
    var retirements := Each(b.deleted, Retirement(b.users, quarantine));
    var departing := Each(b.users, Suspension(quarantine)) + retirements;
    var members := Each(b.groups, MemberOperations) + departing;
    OnlyNothing(stage);
    assert retirements + [] == retirements;
    OnlySegment(b.deleted, Retirement(b.users, quarantine), 6, [], stage);
    OnlySegment(b.users, Suspension(quarantine), 5, retirements, stage);
    hide Suspension, Retirement;
    OnlySegment(b.groups, MemberOperations, 4, departing, stage);
    OnlySegment(b.groups, GroupOperations, 3, members, stage);
  }

  /** Each stage of the plan is what the batch calls for, as often and in the order in which the batch lists it. */
  lemma PlanInOrder(ordered: seq<OrganizationalUnit>, b: Batch, quarantine: string, stage: nat)
    ensures Only(Operations(ordered, b, quarantine), stage) == StageOperations(ordered, b, quarantine, stage)
  {
    hide Each, Only, Suspension, Retirement;
    LaterInOrder(b, quarantine, stage);
    var later := LaterOperations(b, quarantine);
    hide LaterOperations;
    var placements := Each(b.users, Placement) + later;
    OnlySegment(b.users, Placement, 2, later, stage);
    OnlySegment(b.users, UserOperations, 1, placements, stage);
    OnlySegment(ordered, UnitOperations, 0, Each(b.users, UserOperations) + placements, stage);
  }

  lemma {:induction false} OusLead(ordered: seq<OrganizationalUnit>, rest: seq<Operation>)
    ensures var ops := Each(ordered, UnitOperations) + rest;
            |ops| == |ordered| + |rest| && forall i | 0 <= i < |ordered| :: ops[i] == EnsureOu(ordered[i])
  {
    if ordered != [] {
      OusLead(ordered[1..], rest);
    }
  }

  /**
   Fails exactly on duplicate IDs or a cyclic hierarchy.  Otherwise the plan holds exactly the
   wanted operations in stage order, and its OUs come parents first.
   */
  method TryFromBatch(b: Batch, quarantine: string) returns (r: Result<DirectoryPlan>)
    ensures r.Ok? <==> UniqueIds(b.ous) && Acyclic(IndexOf(b.ous))
    ensures r.Ok? ==> r.value.targetRevision == b.revision
    ensures r.Ok? ==> forall op :: op in r.value.operations <==> Wanted(b, quarantine, op)
    ensures r.Ok? ==> Staged(r.value.operations, 0)
    ensures r.Ok? ==> exists ordered ::
                        && multiset(ordered) == multiset(b.ous) && ParentsFirst(IndexOf(b.ous), ordered)
                        && |ordered| <= |r.value.operations|
                        && (forall i | 0 <= i < |ordered| :: r.value.operations[i] == EnsureOu(ordered[i]))
                        && (forall stage: nat ::
                              Only(r.value.operations, stage) == StageOperations(ordered, b, quarantine, stage))
  {
    var ordering := OrderedOrganizationalUnits(b.ous);
    if ordering.Err? {
      return Err(ordering.error);
    }
    var ordered := ordering.value;
    var operations := Operations(ordered, b, quarantine);
    PlanStaged(ordered, b, quarantine);
    forall op ensures op in operations <==> Wanted(b, quarantine, op) {
      PlanExact(ordered, b, quarantine, op);
    }
    forall stage: nat ensures Only(operations, stage) == StageOperations(ordered, b, quarantine, stage) {
      PlanInOrder(ordered, b, quarantine, stage);
    }
    OusLead(ordered, operations[|Each(ordered, UnitOperations)|..]);
    r := Ok(DirectoryPlan(b.revision, operations));
  }
}
