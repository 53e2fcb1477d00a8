/**
 Employees with both a user row and a tombstone: what still holds for them, and what can go wrong.
 */
module Rehire {
  import opened Store
  import opened Sync
  import opened Guarantees
  import Reach

  // ----- The user row is the newer one -----

  /**
   After a commit, a tombstone that stands beside a user row is older than the user row: either
   both rows are as they were, or the user row is new and the tombstone is not.
   */
  ghost predicate TombstonesStay(t: Tables, t': Tables, revision: nat) {
    forall k | k in t' && k.TombstoneKey? && k.Twin() in t' ::
      k in t && t'[k] == t[k] && ((k.Twin() in t && t'[k.Twin()] == t[k.Twin()]) || t'[k.Twin()].revision > revision)
  }

  lemma {:induction false} PutOusTombstones(t: Tables, ous: seq<OuInput>, revision: nat)
    ensures TombstonesStay(t, PutOus(t, ous, revision + 1), revision)
  {
    if ous != [] {
      PutOusTombstones(t, ous[..|ous| - 1], revision);
    }
  }

  lemma {:induction false} PutUsersTombstones(t0: Tables, t: Tables, users: seq<UserInput>, revision: nat)
    requires TombstonesStay(t0, t, revision)
    ensures PutUsers(t, users, revision + 1).Some? ==>
              TombstonesStay(t0, PutUsers(t, users, revision + 1).value, revision)
  {
    if users != [] {
      PutUsersTombstones(t0, t, users[..|users| - 1], revision);
    }
  }

  lemma {:induction false} PutGroupsTombstones(t0: Tables, t: Tables, groups: seq<GroupInput>, revision: nat)
    requires TombstonesStay(t0, t, revision)
    ensures TombstonesStay(t0, PutGroups(t, groups, revision + 1), revision)
  {
    if groups != [] {
      PutGroupsTombstones(t0, t, groups[..|groups| - 1], revision);
    }
  }

  lemma CommitTombstones(s: Store, op: WriteOp)
    requires Commit(s, op).Some? && !op.DeleteUser?
    ensures TombstonesStay(s.directory, Commit(s, op).value.directory, s.directoryRevision)
  {
    if op.Upsert? {
      var revision := s.directoryRevision;
      PutOusTombstones(s.directory, op.ous, revision);
      var t1 := PutOus(s.directory, op.ous, revision + 1);
      PutUsersTombstones(s.directory, t1, op.users, revision);
      PutGroupsTombstones(s.directory, PutUsers(t1, op.users, revision + 1).value, op.groups, revision);
    }
  }

  /** Only groups have group rows. */
  ghost predicate GroupsFit(t: Tables) {
    forall k | k in t && t[k].GroupRow? :: k.GroupKey?
  }

  lemma {:induction false} PutsFit(t: Tables, ous: seq<OuInput>, users: seq<UserInput>, groups: seq<GroupInput>,
                                   revision: nat)
    requires GroupsFit(t)
    ensures GroupsFit(PutOus(t, ous, revision)) && GroupsFit(PutGroups(t, groups, revision))
    ensures PutUsers(t, users, revision).Some? ==> GroupsFit(PutUsers(t, users, revision).value)
    decreases |ous| + |users| + |groups|
  {
    if ous != [] {
      PutsFit(t, ous[..|ous| - 1], [], [], revision);
    }
    if users != [] {
      PutsFit(t, [], users[..|users| - 1], [], revision);
    }
    if groups != [] {
      PutsFit(t, [], [], groups[..|groups| - 1], revision);
    }
  }

  lemma CommitKeepsFit(s: Store, op: WriteOp)
    requires Commit(s, op).Some? && GroupsFit(s.directory)
    ensures GroupsFit(Commit(s, op).value.directory)
  {
    if op.Upsert? {
      var revision := s.directoryRevision + 1;
      PutsFit(s.directory, op.ous, [], [], revision);
      var t1 := PutOus(s.directory, op.ous, revision);
      PutsFit(t1, [], op.users, [], revision);
      PutsFit(PutUsers(t1, op.users, revision).value, [], [], op.groups, revision);
    }
  }

  /** No transaction makes a tombstone newer than the user row beside it. */
  lemma CommitKeepsUserNewer(s: Store, op: WriteOp)
    requires Commit(s, op).Some? && UserNewer(s.directory) && GroupsFit(s.directory)
    requires forall k | k in s.directory :: s.directory[k].revision <= s.directoryRevision
    ensures UserNewer(Commit(s, op).value.directory)
  {
    if !op.DeleteUser? {
      CommitTombstones(s, op);
    }
  }

  // ----- The governing row is mirrored, unless an old batch is executed again -----

  /** At or below the domain's watermark, and any claimed one, every governing row is mirrored. */
  ghost predicate GovernedMarks(s: Side) {
    && GoverningMirrored(s.tables, s.mirror, s.applied)
    && (forall m | m in s.claims :: GoverningMirrored(s.tables, s.mirror, m))
  }

  ghost predicate Governed(s: Side) {
    && UserNewer(s.tables) && GroupsFit(s.tables)
    && GovernedMarks(s)
    && (s.progress.Executed? ==> GoverningMirrored(s.tables, s.mirror, s.progress.cut))
  }

  // ----- The executions that do harm -----

  /** The revision has been confirmed or claimed. */
  predicate Marked(s: Side, revision: nat) {
    revision <= s.applied || exists m :: m in s.claims && revision <= m
  }

  /** The batch retires an employee whose user row, not in the batch, has been confirmed or claimed. */
  predicate Retires(s: Side, id: string) {
    && s.progress.Fetching?
    && TombstoneKey(id) in s.progress.got && UserKey(id) !in s.progress.got
    && UserKey(id) in s.tables && Marked(s, s.tables[UserKey(id)].revision)
  }

  /** The subjects that an execution gets to. */
  function Touched(s: Side, a: Action): set<Subject> {
    match a
    case ExecutionSucceeds => if s.progress.Fetching? then Subjects(s.progress.got) else {}
    case ExecutionFails(done, halfway) => done + halfway
    case _ => {}
  }

  /** The step executes a batch and retires an employee whose user row was confirmed or claimed. */
  ghost predicate Harms(sys: System, a: Action) {
    && sys.turn.RunningDirectory?
    && Ready(Directory, sys.directory) && Executable(sys.directory.progress.got)
    && exists id :: Retires(sys.directory, id) && Employee(id) in Touched(sys.directory, a)
  }

  lemma GoverningLater(t: Tables, revision: nat, t': Tables, revision': nat, mirror: Mirror, m: nat)
    requires Later(t, revision, t', revision') && m <= revision && GoverningMirrored(t, mirror, m)
    ensures GoverningMirrored(t', mirror, m)
  {
    forall k | Governs(t', k) && t'[k].revision <= m ensures SubjectOf(k) in mirror
      && mirror[SubjectOf(k)] == Exact(t'[k]) {
      assert k.Twin().Twin() == k;
      assert Governs(t, k);
    }
  }

  lemma CommitKeepsGoverned(s: Side, store: Store, op: WriteOp)
    requires Valid(Directory, s) && Governed(s) && Commit(store, op).Some?
    requires store.directory == s.tables && store.directoryRevision == s.revision
    ensures var store' := Commit(store, op).value;
            Governed(s.(tables := store'.directory, revision := store'.directoryRevision))
  {
    var store' := Commit(store, op).value;
    CommitLater(store, op);
    CommitKeepsUserNewer(store, op);
    CommitKeepsFit(store, op);
    hide Commit, UserNewer, GroupsFit, GoverningMirrored, Later, Mirrored;
    GoverningLater(s.tables, s.revision, store'.directory, store'.directoryRevision, s.mirror, s.applied);
    forall m | m in s.claims ensures GoverningMirrored(store'.directory, s.mirror, m) {
      GoverningLater(s.tables, s.revision, store'.directory, store'.directoryRevision, s.mirror, m);
    }
    if s.progress.Executed? {
      GoverningLater(s.tables, s.revision, store'.directory, store'.directoryRevision, s.mirror, s.progress.cut);
    }
  }

  /** What a batch plans for a governing row is that row, unless it retires the employee. */
  lemma PlansGoverning(s: Side, k: Key, bound: nat)
    requires s.progress.Fetching? && Fresh(s.tables, s.progress.got, bound)
    requires Governs(s.tables, k) && s.tables[k].revision <= bound && SubjectOf(k) in Subjects(s.progress.got)
    requires k.UserKey? ==> k in s.progress.got
    ensures Planned(s.progress.got)[SubjectOf(k)] == Exact(s.tables[k])
  {
    var got := s.progress.got;
    DecidingKeyInBatch(got, SubjectOf(k));
    assert k.Twin().Twin() == k;
    assert DecidingKey(got, SubjectOf(k)) == k;
  }

  /** What an execution leaves alone: what it does not plan, or would not change, or does not get to. */
  ghost predicate LeavesAlone(mirror: Mirror, planned: Mirror, touched: set<Subject>, mirror': Mirror) {
    && (forall x | x in mirror :: x in mirror')
    && (forall x | x in mirror && (x !in planned || mirror[x] == planned[x] || x !in touched) ::
          mirror'[x] == mirror[x])
  }

  lemma ExecutionKeepsGoverning(s: Side, touched: set<Subject>, mirror': Mirror, m: nat)
    requires s.progress.Fetching? && Fresh(s.tables, s.progress.got, s.progress.server)
    requires m <= s.progress.server && (m == s.applied || m in s.claims) && GoverningMirrored(s.tables, s.mirror, m)
    requires forall id | Retires(s, id) :: Employee(id) !in touched
    requires LeavesAlone(s.mirror, Planned(s.progress.got), touched, mirror')
    ensures GoverningMirrored(s.tables, mirror', m)
  {
    hide Fresh;
    forall k | Governs(s.tables, k) && s.tables[k].revision <= m
      ensures SubjectOf(k) in mirror' && mirror'[SubjectOf(k)] == Exact(s.tables[k])
    {
      var got := s.progress.got;
      if SubjectOf(k) in Subjects(got) {
        if k.UserKey? && k !in got {
          assert Retires(s, k.id);
        } else {
          PlansGoverning(s, k, s.progress.server);
        }
      }
    }
  }

  lemma ExecutionKeepsMarks(s: Side, touched: set<Subject>, mirror': Mirror)
    requires Valid(Directory, s) && s.progress.Fetching? && GovernedMarks(s)
    requires forall id | Retires(s, id) :: Employee(id) !in touched
    requires LeavesAlone(s.mirror, Planned(s.progress.got), touched, mirror')
    ensures GovernedMarks(s.(mirror := mirror'))
  {
    hide GoverningMirrored, Planned, Mirrored, Complete, Fresh, LeavesAlone, Retires;
    ExecutionKeepsGoverning(s, touched, mirror', s.applied);
    forall m | m in s.claims ensures GoverningMirrored(s.tables, mirror', m) {
      ExecutionKeepsGoverning(s, touched, mirror', m);
    }
  }

  /** A whole execution mirrors every governing row up to the cut. */
  lemma BatchGoverning(s: Side, mirror': Mirror)
    requires Valid(Directory, s) && Fetched(Directory, s)
    requires mirror' == s.mirror + Planned(s.progress.got)
    requires || GoverningMirrored(s.tables, mirror', s.applied)
             || GoverningMirrored(s.tables, mirror', s.progress.threshold)
    ensures GoverningMirrored(s.tables, mirror', s.progress.cut)
  {
    forall k | Governs(s.tables, k) && s.tables[k].revision <= s.progress.cut
      ensures SubjectOf(k) in mirror' && mirror'[SubjectOf(k)] == Exact(s.tables[k])
    {
      if s.tables[k].revision > s.progress.threshold {
        BatchHolds(s, k);
        PlansGoverning(s, k, s.progress.cut);
      }
    }
  }

  lemma GoverningBelow(t: Tables, mirror: Mirror, m: nat, m': nat)
    requires GoverningMirrored(t, mirror, m) && m' <= m
    ensures GoverningMirrored(t, mirror, m')
  {
  }

  lemma BatchHolds(s: Side, k: Key)
    requires Valid(Directory, s) && Fetched(Directory, s)
    requires k in s.tables && s.progress.threshold < s.tables[k].revision <= s.progress.cut
    ensures k in s.progress.got && SubjectOf(k) in Subjects(s.progress.got) && s.progress.threshold <= s.applied
  {
    EveryTableQueried(Directory, k);
  }

  lemma SucceedKeepsGoverned(sys: System)
    requires SystemValid(sys) && sys.turn.RunningDirectory? && Governed(sys.directory) && !Harms(sys, ExecutionSucceeds)
    ensures Governed(Succeed(Directory, sys.directory))
  {
    var s := sys.directory;
    hide Valid, UserNewer, GroupsFit, GoverningMirrored, Named, Executable, Retires;
    if Ready(Directory, s) && Executable(s.progress.got) {
      var mirror' := s.mirror + Planned(s.progress.got);
      assert LeavesAlone(s.mirror, Planned(s.progress.got), Subjects(s.progress.got), mirror');
      hide Planned, LeavesAlone;
      ExecutionKeepsMarks(s, Subjects(s.progress.got), mirror');
      BatchGoverning(s, mirror');
    }
  }

  lemma FailLeavesAlone(mirror: Mirror, planned: Mirror, done: set<Subject>, halfway: set<Subject>)
    ensures LeavesAlone(mirror, planned, done + halfway, AfterFailure(mirror, planned, done, halfway))
  {
  }

  lemma FailKeepsGoverned(sys: System, done: set<Subject>, halfway: set<Subject>)
    requires SystemValid(sys) && sys.turn.RunningDirectory? && Governed(sys.directory)
    requires !Harms(sys, ExecutionFails(done, halfway))
    ensures Governed(Fail(Directory, sys.directory, done, halfway))
  {
    var s := sys.directory;
    hide Valid, UserNewer, GroupsFit, GoverningMirrored, Named, Executable, Planned, AfterFailure, LeavesAlone, Retires;
    if Ready(Directory, s) && Executable(s.progress.got) {
      FailLeavesAlone(s.mirror, Planned(s.progress.got), done, halfway);
      ExecutionKeepsMarks(s, done + halfway, AfterFailure(s.mirror, Planned(s.progress.got), done, halfway));
    }
  }

  predicate Executes(a: Action) { a.ExecutionSucceeds? || a.ExecutionFails? }

  lemma SideStepKeepsGoverned(s: Side, a: Action, limit: nat)
    requires Governed(s) && !Executes(a)
    ensures Governed(SideStep(Directory, s, a, limit))
  {
    hide UserNewer, GroupsFit, GoverningMirrored, Named, Executable, Needed, UnitsOf, Succeed, Fail, RowsOf,
         RevisionsOf;
  }

  lemma NextKeepsGoverned(sys: System, a: Action, limit: nat)
    requires SystemValid(sys) && Governed(sys.directory) && !Harms(sys, a)
    ensures Governed(Next(sys, a, limit).directory)
  {
    hide Valid, UserNewer, GroupsFit, GoverningMirrored, Commit, Harms, Succeed, Fail;
    if a.ExecutionSucceeds? {
      if sys.turn.RunningDirectory? {
        SucceedKeepsGoverned(sys);
      }
    } else if a.ExecutionFails? {
      if sys.turn.RunningDirectory? {
        FailKeepsGoverned(sys, a.done, a.halfway);
      }
    } else {
      hide SideStep;
      SideStepKeepsGoverned(sys.directory, a, limit);
      if a.Write? && Commit(StoreOf(sys), a.op).Some? {
        CommitKeepsGoverned(sys.directory, StoreOf(sys), a.op);
      }
    }
  }

  /** A harmful step leaves a governing row, confirmed or claimed, that is not mirrored. */
  lemma HarmDone(sys: System, a: Action, limit: nat)
    requires SystemValid(sys) && Governed(sys.directory) && Harms(sys, a)
    ensures !GovernedMarks(Next(sys, a, limit).directory)
  {
    var s, s' := sys.directory, Next(sys, a, limit).directory;
    var id :| Retires(s, id) && Employee(id) in Touched(s, a);
    HarmfulStep(sys, a, limit);
    hide Valid, Next, GoverningMirrored, Retires, SideStep, UserNewer, GroupsFit;
    RetiredCopy(s, id, a, limit);
    RetiredNotGoverned(s, s', id);
  }

  lemma RetiredNotGoverned(s: Side, s': Side, id: string)
    requires Retires(s, id) && s'.tables == s.tables && s'.applied == s.applied && s'.claims == s.claims
    requires Employee(id) in s'.mirror && s'.mirror[Employee(id)] != Exact(s.tables[UserKey(id)])
    ensures !GovernedMarks(s')
  {
    var k := UserKey(id);
    assert Governs(s'.tables, k) && SubjectOf(k) == Employee(id);
  }

  lemma HarmfulStep(sys: System, a: Action, limit: nat)
    requires Harms(sys, a)
    ensures Next(sys, a, limit).directory == SideStep(Directory, sys.directory, a, limit)
  {
    hide SideStep, Commit;
  }

  /** Whether it finished or not, the execution does not leave the user row in the directory. */
  lemma RetiredCopy(s: Side, id: string, a: Action, limit: nat)
    requires Valid(Directory, s) && Governed(s) && Retires(s, id) && Employee(id) in Touched(s, a)
    requires Ready(Directory, s) && Executable(s.progress.got)
    ensures var s' := SideStep(Directory, s, a, limit);
            && s'.tables == s.tables && s'.applied == s.applied && s'.claims == s.claims
            && Employee(id) in s'.mirror && s'.mirror[Employee(id)] != Exact(s.tables[UserKey(id)])
  {
    RetiringPlan(s, id);
    UserMirrored(s, id);
    TombstoneOlder(s, id);
    hide Valid, GoverningMirrored, Named, Executable, Planned, Retires, UserNewer, GroupsFit;
    hide AfterFailure, Governed, Ready;
    if a.ExecutionSucceeds? {
      assert SideStep(Directory, s, a, limit) == Succeed(Directory, s);
    } else {
      assert SideStep(Directory, s, a, limit) == Fail(Directory, s, a.done, a.halfway);
      FailureRetires(s.mirror, Planned(s.progress.got), Employee(id), a.done, a.halfway, s.tables[UserKey(id)]);
    }
  }

  lemma FailureRetires(mirror: Mirror, planned: Mirror, x: Subject, done: set<Subject>, halfway: set<Subject>, row: Row)
    requires x in planned && planned[x] != Exact(row) && x in done + halfway
    ensures var mirror' := AfterFailure(mirror, planned, done, halfway); x in mirror' && mirror'[x] != Exact(row)
  {
  }

  /** The tombstone of such a batch is still in the tables, beside the newer user row. */
  lemma TombstoneOlder(s: Side, id: string)
    requires Valid(Directory, s) && UserNewer(s.tables) && Retires(s, id)
    ensures s.progress.got[TombstoneKey(id)].revision < s.tables[UserKey(id)].revision
  {
    hide MirrorValid, Complete;
    var k := TombstoneKey(id);
    assert k.Twin() == UserKey(id);
  }

  lemma RetiringPlan(s: Side, id: string)
    requires Retires(s, id)
    ensures Employee(id) in Planned(s.progress.got)
    ensures Planned(s.progress.got)[Employee(id)] == Exact(s.progress.got[TombstoneKey(id)])
  {
    assert SubjectOf(TombstoneKey(id)) in Subjects(s.progress.got);
  }

  lemma UserMirrored(s: Side, id: string)
    requires GovernedMarks(s) && Retires(s, id)
    ensures Employee(id) in s.mirror && s.mirror[Employee(id)] == Exact(s.tables[UserKey(id)])
  {
    assert Governs(s.tables, UserKey(id));
    assert SubjectOf(UserKey(id)) == Employee(id);
  }
  /** In every reachable state the user row of an employee with both rows is the newer one. */
  lemma {:induction false} UserRowIsNewer(sys: System, actions: seq<Action>, limit: nat)
    requires Initial(sys) && UserNewer(sys.directory.tables) && GroupsFit(sys.directory.tables)
    ensures UserNewer(Run(sys, actions, limit).directory.tables) && GroupsFit(Run(sys, actions, limit).directory.tables)
  {
    hide UserNewer, GroupsFit;
    if actions != [] {
      var init, a := actions[..|actions| - 1], actions[|actions| - 1];
      UserRowIsNewer(sys, init, limit);
      RunKeepsValid(sys, init, limit);
      UserRowStaysNewer(Run(sys, init, limit), a, limit);
      hide Next;
    }
  }

  lemma UserRowStaysNewer(sys: System, a: Action, limit: nat)
    requires SystemValid(sys) && UserNewer(sys.directory.tables) && GroupsFit(sys.directory.tables)
    ensures UserNewer(Next(sys, a, limit).directory.tables) && GroupsFit(Next(sys, a, limit).directory.tables)
  {
    NextTables(sys, a, limit);
    hide Next, Commit, UserNewer, GroupsFit, Mirrored, ProgressValid;
    if a.Write? && Commit(StoreOf(sys), a.op).Some? {
      CommitKeepsUserNewer(StoreOf(sys), a.op);
      CommitKeepsFit(StoreOf(sys), a.op);
    }
  }

  lemma NextTables(sys: System, a: Action, limit: nat)
    ensures Next(sys, a, limit).directory.tables ==
            if a.Write? && Commit(StoreOf(sys), a.op).Some? then Commit(StoreOf(sys), a.op).value.directory
              else sys.directory.tables
  {
    Reach.NextStore(sys, a, limit);
    hide Next, Commit;
  }

  lemma {:induction false} GovernedRun(sys: System, actions: seq<Action>, limit: nat, n: nat)
    requires Initial(sys) && UserNewer(sys.directory.tables) && GroupsFit(sys.directory.tables) && n <= |actions|
    requires forall i | 0 <= i < n :: !Harms(Run(sys, actions[..i], limit), actions[i])
    ensures Governed(Run(sys, actions[..n], limit).directory)
  {
    hide Valid, Next, UserNewer, GroupsFit, Harms;
    if n > 0 {
      GovernedRun(sys, actions, limit, n - 1);
      RunPrefix(sys, actions, limit, n - 1);
      RunKeepsValid(sys, actions[..n - 1], limit);
      hide Governed;
      NextKeepsGoverned(Run(sys, actions[..n - 1], limit), actions[n - 1], limit);
    }
  }

  /** A run whose first harmful step is step `n` breaks the guarantee in that step. */
  lemma {:induction false} FirstHarm(sys: System, actions: seq<Action>, limit: nat, n: nat) returns (i: nat)
    requires Initial(sys) && UserNewer(sys.directory.tables) && GroupsFit(sys.directory.tables) && n < |actions|
    requires Harms(Run(sys, actions[..n], limit), actions[n])
    ensures i <= n && !GovernedMarks(Run(sys, actions[..i + 1], limit).directory)
  {
    hide Valid, Next, UserNewer, GroupsFit, Harms;
    if earlier: nat :| earlier < n && Harms(Run(sys, actions[..earlier], limit), actions[earlier]) {
      i := FirstHarm(sys, actions, limit, earlier);
    } else {
      i := n;
      GovernedRun(sys, actions, limit, n);
      RunPrefix(sys, actions, limit, n);
      RunKeepsValid(sys, actions[..n], limit);
      hide Governed, GovernedMarks;
      HarmDone(Run(sys, actions[..n], limit), actions[n], limit);
    }
  }

  ghost predicate AlwaysGoverned(sys: System, actions: seq<Action>, limit: nat) {
    forall n | 0 <= n <= |actions| :: GovernedMarks(Run(sys, actions[..n], limit).directory)
  }

  /**
   For every run: the governing row of everything, employees with both rows included, is mirrored at
   or below all confirmed and claimed watermarks at every moment, if and only if no step executes a
   batch and gets to an employee whom it retires although the user row was confirmed or claimed.
   */
  lemma NoLostUpdateExactly(sys: System, actions: seq<Action>, limit: nat)
    requires Initial(sys) && UserNewer(sys.directory.tables) && GroupsFit(sys.directory.tables)
    ensures AlwaysGoverned(sys, actions, limit) <==>
            forall i | 0 <= i < |actions| :: !Harms(Run(sys, actions[..i], limit), actions[i])
  {
    hide Harms, UserNewer, GroupsFit, GovernedMarks, Run;
    if forall i | 0 <= i < |actions| :: !Harms(Run(sys, actions[..i], limit), actions[i]) {
      forall n | 0 <= n <= |actions| ensures GovernedMarks(Run(sys, actions[..n], limit).directory) {
        GovernedRun(sys, actions, limit, n);
      }
    } else {
      var n: nat :| n < |actions| && Harms(Run(sys, actions[..n], limit), actions[n]);
      var i := FirstHarm(sys, actions, limit, n);
      assert !GovernedMarks(Run(sys, actions[..i + 1], limit).directory);
    }
  }

  /** A batch cut at or above everything confirmed and claimed does no harm. */
  lemma CurrentBatchHarmless(s: Side, id: string)
    requires Valid(Directory, s) && UserNewer(s.tables) && Fetched(Directory, s)
    requires s.applied <= s.progress.cut && forall m | m in s.claims :: m <= s.progress.cut
    ensures !Retires(s, id)
  {
    if Retires(s, id) {
      TombstoneOlder(s, id);
      hide Fresh, MirrorValid;
      assert s.progress.threshold < s.tables[UserKey(id)].revision <= s.progress.cut;
      BatchHolds(s, UserKey(id));
    }
  }

  // ----- Up to the saved watermark, harm or no harm -----

  /** A request reads from the watermark in memory. */
  predicate ReadsFromMemory(s: Side) {
    match s.progress
    case Checked(threshold) => threshold == s.memory
    case Revising(threshold, _, _, _) => threshold == s.memory
    case Fetching(threshold, _, _, _, _, _) => threshold == s.memory
    case _ => true
  }

  ghost predicate Anchored(s: Side) {
    && UserNewer(s.tables) && GroupsFit(s.tables)
    && GoverningMirrored(s.tables, s.mirror, s.memory)
    && (s.progress.Executed? ==> GoverningMirrored(s.tables, s.mirror, s.progress.cut))
    && ReadsFromMemory(s)
  }

  /** No batch says anything about the subject of a governing row at or below its threshold. */
  lemma NotInBatch(s: Side, k: Key)
    requires Valid(Directory, s) && s.progress.Fetching? && UserNewer(s.tables)
    requires Governs(s.tables, k) && s.tables[k].revision <= s.progress.threshold
    ensures SubjectOf(k) !in Subjects(s.progress.got)
  {
    hide MirrorValid, Complete, Mirrored;
    assert k.Twin().Twin() == k;
    assert forall other :: SubjectOf(other) == SubjectOf(k) ==> other == k || other == k.Twin();
  }

  lemma ExecutionAnchors(s: Side, touched: set<Subject>, mirror': Mirror)
    requires Valid(Directory, s) && s.progress.Fetching? && UserNewer(s.tables)
    requires GoverningMirrored(s.tables, s.mirror, s.progress.threshold)
    requires LeavesAlone(s.mirror, Planned(s.progress.got), touched, mirror')
    ensures GoverningMirrored(s.tables, mirror', s.progress.threshold)
  {
    hide Valid, UserNewer;
    forall k | Governs(s.tables, k) && s.tables[k].revision <= s.progress.threshold
      ensures SubjectOf(k) in mirror' && mirror'[SubjectOf(k)] == Exact(s.tables[k])
    {
      NotInBatch(s, k);
    }
  }

  lemma SucceedKeepsAnchored(s: Side)
    requires Valid(Directory, s) && Anchored(s)
    ensures Anchored(Succeed(Directory, s))
  {
    hide Valid, UserNewer, GroupsFit, GoverningMirrored, Named, Executable;
    if Ready(Directory, s) && Executable(s.progress.got) {
      var mirror' := s.mirror + Planned(s.progress.got);
      assert LeavesAlone(s.mirror, Planned(s.progress.got), Subjects(s.progress.got), mirror');
      hide Planned, LeavesAlone;
      ExecutionAnchors(s, Subjects(s.progress.got), mirror');
      BatchGoverning(s, mirror');
    }
  }

  lemma FailKeepsAnchored(s: Side, done: set<Subject>, halfway: set<Subject>)
    requires Valid(Directory, s) && Anchored(s)
    ensures Anchored(Fail(Directory, s, done, halfway))
  {
    hide Valid, UserNewer, GroupsFit, GoverningMirrored, Named, Executable, Planned, AfterFailure, LeavesAlone;
    if Ready(Directory, s) && Executable(s.progress.got) {
      FailLeavesAlone(s.mirror, Planned(s.progress.got), done, halfway);
      ExecutionAnchors(s, done + halfway, AfterFailure(s.mirror, Planned(s.progress.got), done, halfway));
    }
  }

  lemma SideStepKeepsAnchored(s: Side, a: Action, limit: nat)
    requires Valid(Directory, s) && Anchored(s)
    ensures Anchored(SideStep(Directory, s, a, limit))
  {
    hide Valid, UserNewer, GroupsFit, GoverningMirrored, Named, Executable, Needed, UnitsOf, Succeed, Fail;
    hide RowsOf, RevisionsOf;
    match a
    case ExecutionSucceeds => SucceedKeepsAnchored(s);
    case ExecutionFails(done, halfway) => FailKeepsAnchored(s, done, halfway);
    case _ =>
  }

  lemma LoadKeepsAnchored(s: Side)
    requires Valid(Directory, s) && Anchored(s)
    ensures Anchored(Load(s)) && Anchored(s.(file := s.memory)) && Anchored(s.(file := 0)) && Anchored(Abandon(s))
    ensures Anchored(Abandon(s.(file := s.memory)))
  {
    hide UserNewer, GroupsFit, GoverningMirrored, MirrorValid, ProgressValid, TablesValid;
    GoverningBelow(s.tables, s.mirror, s.memory, s.file);
  }

  lemma CommitKeepsAnchored(s: Side, store: Store, op: WriteOp)
    requires Valid(Directory, s) && Anchored(s) && Commit(store, op).Some?
    requires store.directory == s.tables && store.directoryRevision == s.revision
    ensures var store' := Commit(store, op).value;
            Anchored(s.(tables := store'.directory, revision := store'.directoryRevision))
  {
    var store' := Commit(store, op).value;
    CommitLater(store, op);
    CommitKeepsUserNewer(store, op);
    CommitKeepsFit(store, op);
    hide Commit, UserNewer, GroupsFit, GoverningMirrored, Later, Mirrored;
    GoverningLater(s.tables, s.revision, store'.directory, store'.directoryRevision, s.mirror, s.memory);
    if s.progress.Executed? {
      GoverningLater(s.tables, s.revision, store'.directory, store'.directoryRevision, s.mirror, s.progress.cut);
    }
  }

  lemma NextKeepsAnchored(sys: System, a: Action, limit: nat)
    requires SystemValid(sys) && Anchored(sys.directory)
    ensures Anchored(Next(sys, a, limit).directory)
  {
    hide Valid, Anchored, SideStep, Commit;
    SideStepKeepsAnchored(sys.directory, a, limit);
    LoadKeepsAnchored(sys.directory);
    if a.Write? && Commit(StoreOf(sys), a.op).Some? {
      CommitKeepsAnchored(sys.directory, StoreOf(sys), a.op);
    }
  }

  lemma {:induction false} AnchoredRun(sys: System, actions: seq<Action>, limit: nat)
    requires Initial(sys) && UserNewer(sys.directory.tables) && GroupsFit(sys.directory.tables)
    ensures Anchored(Run(sys, actions, limit).directory)
  {
    hide Valid, Next, UserNewer, GroupsFit;
    if actions != [] {
      AnchoredRun(sys, actions[..|actions| - 1], limit);
      RunKeepsValid(sys, actions[..|actions| - 1], limit);
      hide Anchored;
      NextKeepsAnchored(Run(sys, actions[..|actions| - 1], limit), actions[|actions| - 1], limit);
    }
  }

  /**
   In every reachable state, harmful executions included, every governing row up to the saved
   watermark is mirrored: what the Syncer reads again starts after it.
   */
  lemma SavedIsGoverned(sys: System, actions: seq<Action>, limit: nat)
    requires Initial(sys) && UserNewer(sys.directory.tables) && GroupsFit(sys.directory.tables)
    ensures SavedGoverned(Run(sys, actions, limit).directory)
  {
    AnchoredRun(sys, actions, limit);
    RunKeepsValid(sys, actions, limit);
    hide Run, Initial, UserNewer, GoverningMirrored, MirrorValid, ProgressValid, TablesValid;
    var d := Run(sys, actions, limit).directory;
    GoverningBelow(d.tables, d.mirror, d.memory, d.file);
  }
}
