/** What holds in every state that Core and a Syncer can reach. */
module Guarantees {
  import opened Store
  import opened Sync

  // ----- No lost update -----

  /**
   A row at or below the domain's watermark is exactly what the downstream directory holds,
   whatever was written, failed, crashed, lost or delivered late.  The only rows it does not
   speak about are those of an employee with both a user row and a tombstone.
   */
  lemma NoLostUpdate(sys: System, actions: seq<Action>, limit: nat, ch: Channel, k: Key)
    requires Initial(sys)
    requires var s := SideOf(Run(sys, actions, limit), ch);
             k in s.tables && s.tables[k].revision <= s.applied && !Contested(s.tables, k)
    ensures var s := SideOf(Run(sys, actions, limit), ch);
            SubjectOf(k) in s.mirror && s.mirror[SubjectOf(k)] == Exact(s.tables[k])
  {
    RunKeepsValid(sys, actions, limit);
  }

  /** No create transaction of the run commits over a tombstone that it failed to clear. */
  ghost predicate RaceFree(sys: System, actions: seq<Action>, limit: nat) {
    forall i | 0 <= i < |actions| && actions[i].Write? ::
      !RacingCreate(StoreOf(Run(sys, actions[..i], limit)), actions[i].op)
  }

  lemma RunPrefix(sys: System, actions: seq<Action>, limit: nat, i: nat)
    requires i < |actions|
    ensures actions[..i + 1][..i] == actions[..i]
    ensures Run(sys, actions[..i + 1], limit) == Next(Run(sys, actions[..i], limit), actions[i], limit)
  {
    assert actions[..i + 1][..i] == actions[..i];
  }

  /** Fetched so far: no tombstones before the last query, and never both rows of one employee. */
  ghost predicate BatchDisjoint(s: Side) {
    s.progress.Fetching? ==>
      && (s.progress.next < |RowTables(Directory)| ==> forall k | k in s.progress.got :: !k.TombstoneKey?)
      && Uncontested(s.progress.got)
  }

  /** The rows of one more table, fetched from tables without such employees. */
  lemma FoundDisjoint(t: Tables, got: Tables, table: Table, threshold: nat, cut: nat)
    requires Uncontested(t) && Fresh(t, got, cut) && forall k | k in got :: !k.TombstoneKey?
    ensures var got' := got + RowsOf(t, table, threshold, cut);
            && Uncontested(got')
            && (table != TombstoneTable ==> forall k | k in got' :: !k.TombstoneKey?)
  {
    var got' := got + RowsOf(t, table, threshold, cut);
    assert forall k: Key :: k.Twin().Twin() == k;
    forall k | k in got' && k.TombstoneKey? ensures k.Twin() !in got' {
      assert k in t && t[k].revision <= cut;
      assert !Contested(t, k);
    }
  }

  lemma FetchKeepsDisjoint(s: Side)
    requires Valid(Directory, s) && Uncontested(s.tables) && BatchDisjoint(s)
    ensures BatchDisjoint(FetchRows(Directory, s))
  {
    hide MirrorValid, MarksValid, Noticed, Complete, Named, Fresh, Uncontested, RowsOf;
    if s.progress.Fetching? && s.progress.next < |RowTables(Directory)| {
      var p := s.progress;
      FoundDisjoint(s.tables, p.got, RowTables(Directory)[p.next], p.threshold, p.cut);
      assert RowTables(Directory)[p.next] == TombstoneTable ==> p.next == 3;
    }
  }

  lemma NextKeepsDisjoint(sys: System, a: Action, limit: nat)
    requires SystemValid(sys) && Uncontested(sys.directory.tables) && BatchDisjoint(sys.directory)
    requires a.Write? ==> !RacingCreate(StoreOf(sys), a.op)
    ensures Uncontested(Next(sys, a, limit).directory.tables) && BatchDisjoint(Next(sys, a, limit).directory)
  {
    hide Valid, Planned, AfterFailure, Named, Needed, UnitsOf, RevisionsOf, Executable;
    match a
    case Write(op) =>
      if Commit(StoreOf(sys), op).Some? {
        UncontestedExactly(StoreOf(sys), op);
      }
    case AskRows => FetchKeepsDisjoint(sys.directory);
    case _ =>
  }

  lemma {:induction false} RaceFreeRun(sys: System, actions: seq<Action>, limit: nat, n: nat)
    requires Initial(sys) && Uncontested(sys.directory.tables) && RaceFree(sys, actions, limit) && n <= |actions|
    ensures var d := Run(sys, actions[..n], limit).directory; Uncontested(d.tables) && BatchDisjoint(d)
  {
    hide Valid, Next, Uncontested, RacingCreate;
    if n > 0 {
      RaceFreeRun(sys, actions, limit, n - 1);
      RunPrefix(sys, actions, limit, n - 1);
      RunKeepsValid(sys, actions[..n - 1], limit);
      NextKeepsDisjoint(Run(sys, actions[..n - 1], limit), actions[n - 1], limit);
    }
  }

  /** On a race-free run every row of both channels at or below the watermark is mirrored exactly. */
  lemma NoLostUpdateRaceFree(sys: System, actions: seq<Action>, limit: nat, ch: Channel)
    requires Initial(sys) && Uncontested(sys.directory.tables) && RaceFree(sys, actions, limit)
    ensures var s := SideOf(Run(sys, actions, limit), ch);
            forall k | k in s.tables && s.tables[k].revision <= s.applied ::
              SubjectOf(k) in s.mirror && s.mirror[SubjectOf(k)] == Exact(s.tables[k])
  {
    assert actions[..|actions|] == actions;
    RaceFreeRun(sys, actions, limit, |actions|);
    RunKeepsValid(sys, actions, limit);
    var s := SideOf(Run(sys, actions, limit), ch);
    assert forall k | k in s.tables :: !Contested(s.tables, k);
  }

  // ----- The batch read between commits -----

  /** The batch is what the tables hold in (threshold, cut], or has been overtaken by something newer than the cut. */
  ghost predicate BatchIsComplete(s: Side) {
    && s.progress.Fetching?
    && (forall k | k in s.tables && s.progress.threshold < s.tables[k].revision <= s.progress.cut ::
          k in s.progress.got && s.progress.got[k] == s.tables[k])
    && (forall k | k in s.progress.got :: s.progress.threshold < s.progress.got[k].revision <= s.progress.cut)
    && Fresh(s.tables, s.progress.got, s.progress.cut)
  }

  /**
   When the last query of a sync request has returned, the batch holds the current contents of
   every row and tombstone whose revision is in (threshold, cut], although commits landed in
   between; anything it holds that is no longer current has been overtaken by a revision above the cut.
   */
  lemma BatchComplete(sys: System, actions: seq<Action>, limit: nat, ch: Channel)
    requires Initial(sys) && Fetched(ch, SideOf(Run(sys, actions, limit), ch))
    ensures var s := SideOf(Run(sys, actions, limit), ch); BatchIsComplete(s) && s.progress.cut <= s.revision
  {
    RunKeepsValid(sys, actions, limit);
    var s := SideOf(Run(sys, actions, limit), ch);
    forall k | k in s.tables ensures k.InTable() in RowTables(ch)[..s.progress.next] {
      EveryTableQueried(ch, k);
    }
  }

  /** On a race-free run no employee is in both `users` and `deleted_users` of a batch. */
  lemma BatchNeverContested(sys: System, actions: seq<Action>, limit: nat)
    requires Initial(sys) && Uncontested(sys.directory.tables) && RaceFree(sys, actions, limit)
    requires Run(sys, actions, limit).directory.progress.Fetching?
    ensures var got := Run(sys, actions, limit).directory.progress.got;
            forall id :: !(UserKey(id) in got && TombstoneKey(id) in got)
  {
    assert actions[..|actions|] == actions;
    RaceFreeRun(sys, actions, limit, |actions|);
    var got := Run(sys, actions, limit).directory.progress.got;
    forall id ensures !(UserKey(id) in got && TombstoneKey(id) in got) {
      assert UserKey(id) in got ==> !Contested(got, UserKey(id));
    }
  }

  // ----- The watermark chain -----

  lemma WatermarkChain(sys: System, actions: seq<Action>, limit: nat, ch: Channel)
    requires Initial(sys)
    ensures var s := SideOf(Run(sys, actions, limit), ch); s.file <= s.applied <= s.revision
    ensures var s := SideOf(Run(sys, actions, limit), ch); forall m | m in s.claims :: m <= s.revision
  {
    RunKeepsValid(sys, actions, limit);
  }

  /** Whatever revision a request names, Core accepts it exactly when the watermark stays in order. */
  lemma GuardExactly(s: Side, revision: nat)
    ensures GuardAccepts(s, revision) <==>
            var s' := s.(applied := revision); s.applied <= s'.applied && s'.applied <= s'.revision
  {
  }

  predicate Failing(a: Action) {
    a.ExecutionFails? || a.NothingToExecute? || a.GiveUp? || a.ReadFails? || a.Crash?
  }

  ghost predicate Forward(s: Side, s': Side, a: Action) {
    && s.revision <= s'.revision
    && s.applied <= s'.applied
    && (s'.file < s.file ==> a.LoseStateFile?)
    && (s'.file > s.file ==> a.Save? && s'.file == s.memory)
    && (Failing(a) ==> s'.applied == s.applied && s'.file == s.file)
    && (s'.applied != s.applied ==> s'.applied in s.claims)
  }

  lemma SideStepForward(ch: Channel, s: Side, a: Action, limit: nat)
    requires MarksValid(s)
    ensures Forward(s, SideStep(ch, s, a, limit), a)
  {
    hide Planned, AfterFailure, Named, Needed, UnitsOf, RevisionsOf, RowsOf, Executable;
  }

  lemma NextForward(sys: System, a: Action, limit: nat)
    requires MarksValid(sys.directory) && MarksValid(sys.credential)
    ensures Forward(sys.directory, Next(sys, a, limit).directory, a)
    ensures Forward(sys.credential, Next(sys, a, limit).credential, a)
  {
    hide Commit, SideStep;
    SideStepForward(Directory, sys.directory, a, limit);
    SideStepForward(Credential, sys.credential, a, limit);
    if a.Write? && Commit(StoreOf(sys), a.op).Some? {
      CommitLater(StoreOf(sys), a.op);
    }
  }

  /**
   No step of a run lowers Core's counter or the domain's watermark; only losing the state file
   lowers the saved one; a failure moves neither; and the domain's watermark only moves to a
   revision that the channel itself claimed.
   */
  lemma StepsMoveForward(sys: System, actions: seq<Action>, a: Action, limit: nat, ch: Channel)
    requires Initial(sys)
    ensures Forward(SideOf(Run(sys, actions, limit), ch), SideOf(Run(sys, actions + [a], limit), ch), a)
  {
    RunKeepsValid(sys, actions, limit);
    assert (actions + [a])[..|actions|] == actions;
    NextForward(Run(sys, actions, limit), a, limit);
  }
}
