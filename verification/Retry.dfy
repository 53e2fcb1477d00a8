/**
 Reading again from an old watermark: a confirmation was accepted, but the Syncer did not save it.
 */
module Retry {
  import opened Store
  import opened Cut
  import opened Sync
  import opened Paging
  import opened Quiet
  import opened Reach

  // ----- The cut of a later store -----

  lemma SmallerSet(a: set<nat>, b: set<nat>)
    requires a <= b
    ensures |a| <= |b|
  {
    assert b == a + (b - a);
  }

  /** A later store, read from the same threshold, is cut at or above the old cut exactly when some row is that new. */
  lemma LaterCut(t: Tables, revision: nat, t': Tables, revision': nat, threshold: nat, limit: nat)
    requires Later(t, revision, t', revision')
    requires forall k | k in t :: t[k].revision <= revision
    requires Pending(t, threshold) != {} && Pending(t', threshold) != {}
    ensures var cut := CutAt(Pending(t, threshold), limit);
            CutAt(Pending(t', threshold), limit) >= cut <==> exists k :: k in t' && t'[k].revision >= cut
  {
    var before, after := Pending(t, threshold), Pending(t', threshold);
    var cut := CutAt(before, limit);
    CutReaches(before, limit, cut);
    CutReaches(after, limit, cut);
    assert Below(after, cut) <= Below(before, cut);
    SmallerSet(Below(after, cut), Below(before, cut));
    if k :| k in t' && t'[k].revision >= cut {
      assert t'[k].revision in after;
    }
  }

  lemma KeptReaches(t: Tables, revision: nat, t': Tables, revision': nat, threshold: nat, limit: nat)
    requires Later(t, revision, t', revision') && Kept(t, t')
    requires forall k | k in t :: t[k].revision <= revision
    requires Pending(t, threshold) != {}
    ensures exists k :: k in t' && t'[k].revision >= CutAt(Pending(t, threshold), limit)
    ensures Pending(t', threshold) != {}
  {
    var cut := CutAt(Pending(t, threshold), limit);
    var k :| k in t && t[k].revision == cut;
    var successor := if k in t' then k else k.Twin();
    assert t'[successor].revision >= cut;
    assert t'[successor].revision in Pending(t', threshold);
  }

  // ----- Over every run -----

  /** The batch's revision is the one that the tables, as they are now, give for its threshold. */
  ghost predicate CutOfTables(ch: Channel, s: Side, limit: nat) {
    && Fetched(ch, s)
    && Pending(s.tables, s.progress.threshold) != {}
    && s.progress.cut == CutAt(Pending(s.tables, s.progress.threshold), limit)
  }

  /**
   The batch of `a` was read undisturbed; at `b` its revision is the domain's watermark and its
   threshold still, or again, the saved one: the confirmation was accepted and not saved.
   */
  ghost predicate AcceptedUnsaved(ch: Channel, a: Side, b: Side, limit: nat) {
    CutOfTables(ch, a, limit) && b.applied == a.progress.cut && b.file == a.progress.threshold
  }

  /** An undisturbed answer has the revision that its tables give. */
  lemma QuietCutOfTables(ch: Channel, s: Side, limit: nat)
    requires Valid(ch, s) && Pending(s.tables, s.file) != {}
    ensures CutOfTables(ch, ReadAll(ch, s, limit), limit)
  {
    ReadAllIsSnapshot(ch, s, limit);
    hide ReadAll, Valid, Pending, CanAnswer, Ready;
  }

  lemma SideLater(start: System, actions: seq<Action>, more: seq<Action>, limit: nat, ch: Channel)
    ensures var a, b := SideOf(Run(start, actions, limit), ch), SideOf(Run(start, actions + more, limit), ch);
            Later(a.tables, a.revision, b.tables, b.revision)
    ensures var a, b := SideOf(Run(start, actions, limit), ch), SideOf(Run(start, actions + more, limit), ch);
            (forall i | 0 <= i < |more| :: if ch.Directory? then !DeletesOu(more[i]) else !DeletesUser(more[i])) ==>
              Kept(a.tables, b.tables)
  {
    hide Next, Run, Later, Kept;
    RunSplit(start, actions, more, limit);
    RunLater(Run(start, actions, limit), more, limit);
  }

  /**
   Whatever happens between the undisturbed read and the retry (writes, crashes, failed passes,
   late confirmations), the guard accepts the revision of the retried batch if and only if some
   row is still, or again, as new as the domain's watermark.
   */
  lemma RetryExactly(start: System, actions: seq<Action>, more: seq<Action>, limit: nat, ch: Channel)
    requires Initial(start)
    requires var a, b := SideOf(Run(start, actions, limit), ch), SideOf(Run(start, actions + more, limit), ch);
             AcceptedUnsaved(ch, a, b, limit) && Pending(b.tables, b.file) != {}
    ensures var b := SideOf(Run(start, actions + more, limit), ch);
            GuardAccepts(b, NextCut(b, limit)) <==> exists k :: k in b.tables && b.tables[k].revision >= b.applied
  {
    var a, b := SideOf(Run(start, actions, limit), ch), SideOf(Run(start, actions + more, limit), ch);
    RunKeepsValid(start, actions, limit);
    RunKeepsValid(start, actions + more, limit);
    SideLater(start, actions, more, limit, ch);
    hide Run, Mirrored, ProgressValid;
    PendingBounded(ch, b, limit);
    LaterCut(a.tables, a.revision, b.tables, b.revision, b.file, limit);
  }

  /** So it is accepted when nothing that leaves no successor was deleted: an OU, or a user with its credential. */
  lemma RetryAccepted(start: System, actions: seq<Action>, more: seq<Action>, limit: nat, ch: Channel)
    requires Initial(start)
    requires forall i | 0 <= i < |more| :: if ch.Directory? then !DeletesOu(more[i]) else !DeletesUser(more[i])
    requires var a, b := SideOf(Run(start, actions, limit), ch), SideOf(Run(start, actions + more, limit), ch);
             AcceptedUnsaved(ch, a, b, limit)
    ensures var b := SideOf(Run(start, actions + more, limit), ch);
            Pending(b.tables, b.file) != {} && GuardAccepts(b, NextCut(b, limit))
  {
    var a, b := SideOf(Run(start, actions, limit), ch), SideOf(Run(start, actions + more, limit), ch);
    RunKeepsValid(start, actions, limit);
    SideLater(start, actions, more, limit, ch);
    hide Run, Mirrored, ProgressValid, Pending, Later, Kept;
    KeptReaches(a.tables, a.revision, b.tables, b.revision, b.file, limit);
    RetryExactly(start, actions, more, limit, ch);
  }

  // ----- The crash itself -----

  /** Executed and accepted, but neither heard of nor saved when the Syncer starts again. */
  function Unsaved(read: Side): Side
    requires read.progress.Fetching?
  {
    read.(mirror := read.mirror + Planned(read.progress.got), claims := read.claims + {read.progress.cut},
          applied := read.progress.cut, progress := Closed)
  }

  /** The directory batch has been answered and will be accepted. */
  predicate Acceptable(read: Side) {
    && Ready(Directory, read) && Executable(read.progress.got)
    && read.memory == read.file < read.progress.cut && GuardAccepts(read, read.progress.cut)
  }

  lemma LeadsAccepted(sys: System, mid: System, limit: nat)
    requires Leads(sys, mid, limit) && mid.turn.RunningDirectory? && Acceptable(mid.directory)
    ensures var read := mid.directory;
            Leads(sys, mid.(directory := Unsaved(read).(memory := read.progress.cut,
              progress := Accepted(read.progress.cut))), limit)
  {
    hide Leads, Planned, Executable, Named, Next;
    var read := mid.directory;
    var executed := Succeed(Directory, read);
    var sent := SendConfirm(executed);
    LeadsSideStep(sys, mid, Directory, ExecutionSucceeds, limit);
    LeadsSideStep(sys, mid.(directory := executed), Directory, Confirm, limit);
    LeadsSideStep(sys, mid.(directory := sent), Directory, ConfirmHeard, limit);
  }

  /** From an answered directory request, the Syncer can crash after Core accepted and before it saved. */
  lemma LeadsUnsaved(sys: System, mid: System, c: Side, limit: nat)
    requires Leads(sys, mid, limit) && mid.turn.ReadingDirectory? && Acceptable(mid.directory)
    requires mid.credential == Load(c) && Valid(Credential, c)
    ensures Leads(sys, System(Unsaved(mid.directory), Load(c), Idle), limit)
  {
    var read, heard := mid.directory, ReadAll(Credential, c, limit);
    ReadAllIsSnapshot(Credential, c, limit);
    hide Leads, Valid, ReadAll, Planned, Named, Next, Executable, NextPage, NextCut;
    LeadsMoveOn(sys, mid, limit);
    LeadsRead(sys, mid.(turn := ReadingCredentials), Credential, c, limit);
    LeadsMoveOn(sys, System(read, heard, ReadingCredentials), limit);
    LeadsAccepted(sys, System(read, heard, RunningDirectory), limit);
    LeadsCrash(sys, System(Unsaved(read).(memory := read.progress.cut, progress := Accepted(read.progress.cut)),
                           heard, RunningDirectory), limit);
  }

  lemma LeadsCrash(sys: System, mid: System, limit: nat)
    requires Leads(sys, mid, limit)
    ensures Leads(sys, Restart(mid), limit)
  {
    hide Leads, SideStep, Commit;
    LeadsStep(sys, mid, Crash, limit);
  }

  function WriteAll(ops: seq<WriteOp>): seq<Action> {
    seq(|ops|, i requires 0 <= i < |ops| => Write(ops[i]))
  }

  lemma {:induction false} WritesOnly(sys: System, ops: seq<WriteOp>, limit: nat)
    ensures var sys' := Run(sys, WriteAll(ops), limit);
            sys'.directory == sys.directory.(tables := sys'.directory.tables, revision := sys'.directory.revision)
    decreases |ops|
  {
    if ops != [] {
      WritesOnly(sys, ops[..|ops| - 1], limit);
      var actions := WriteAll(ops);
      assert actions[..|ops| - 1] == WriteAll(ops[..|ops| - 1]);
      hide Commit, Run, SideStep;
      assert Run(sys, actions, limit) == Next(Run(sys, actions[..|ops| - 1], limit), actions[|ops| - 1], limit) by {
        LastStep(sys, actions, limit);
      }
    }
  }

  lemma LastStep(sys: System, actions: seq<Action>, limit: nat)
    requires actions != []
    ensures Run(sys, actions, limit) == Next(Run(sys, actions[..|actions| - 1], limit), actions[|actions| - 1], limit)
  {
    hide Next;
  }

  /** The directory channel after an undisturbed pass that was accepted and crashed before saving. */
  function Crashed(d: Side, limit: nat): Side {
    d.(mirror := d.mirror + Planned(NextPage(d, limit)), claims := d.claims + {NextCut(d, limit)},
       applied := NextCut(d, limit), memory := d.file, progress := Closed)
  }

  function CrashedAt(sys: System, limit: nat): System {
    System(Crashed(sys.directory, limit), Load(sys.credential), Idle)
  }

  lemma MovesAcceptable(d: Side, limit: nat)
    requires Valid(Directory, d) && Moves(Directory, d, limit)
    ensures var read := ReadAll(Directory, d, limit); Acceptable(read) && Unsaved(read) == Crashed(d, limit)
    ensures d.file < NextCut(d, limit) && Pending(d.tables, d.file) != {}
  {
    ReadAllIsSnapshot(Directory, d, limit);
    ExecutablePending(d, limit);
    PendingBounded(Directory, d, limit) by { ValidTables(Directory, d); }
    hide ReadAll, Named, Executable, NextPage, CanAnswer, Planned;
  }

  lemma CrashedUnsaved(d: Side, limit: nat)
    requires Valid(Directory, d) && Moves(Directory, d, limit)
    ensures AcceptedUnsaved(Directory, ReadAll(Directory, d, limit), Crashed(d, limit), limit)
  {
    MovesAcceptable(d, limit);
    QuietCutOfTables(Directory, d, limit);
    ReadAllIsSnapshot(Directory, d, limit);
    hide Valid, ReadAll, Moves, NextPage, CanAnswer, CutOfTables;
  }

  /** The crash is a run, and the channel is then as `RetryExactly` and `RetryAccepted` ask. */
  lemma LeadsCrashedAt(sys: System, limit: nat)
    requires SystemValid(sys) && sys.turn.Idle? && Moves(Directory, sys.directory, limit)
    ensures Leads(sys, CrashedAt(sys, limit), limit)
    ensures AcceptedUnsaved(Directory, ReadAll(Directory, sys.directory, limit), CrashedAt(sys, limit).directory, limit)
  {
    MovesAcceptable(sys.directory, limit);
    CrashedUnsaved(sys.directory, limit);
    hide AcceptedUnsaved;
    hide Leads, Valid, ReadAll, Acceptable, Crashed, Moves;
    LeadsStart(sys, limit);
    var started := Restart(sys).(turn := ReadingDirectory);
    LeadsRead(sys, started, Directory, sys.directory, limit);
    LeadsUnsaved(sys, started.(directory := ReadAll(Directory, sys.directory, limit)), sys.credential, limit);
  }

  lemma LeadsRun(start: System, mid: System, actions: seq<Action>, limit: nat)
    requires Leads(start, mid, limit)
    ensures Leads(start, Run(mid, actions, limit), limit)
  {
    assert Leads(mid, Run(mid, actions, limit), limit);
    LeadsTransitive(start, mid, Run(mid, actions, limit), limit);
  }

  /**
   From every reachable idle state: an undisturbed pass has its directory batch accepted and the
   Syncer crashes before saving; after any writes but OU deletions the retried batch is accepted.
   */
  lemma DirectoryRetryAfterCrash(start: System, sys: System, ops: seq<WriteOp>, limit: nat)
    requires Initial(start) && Leads(start, sys, limit) && sys.turn.Idle?
    requires Moves(Directory, sys.directory, limit)
    requires forall i | 0 <= i < |ops| :: !ops[i].DeleteOu?
    ensures var sys' := Run(CrashedAt(sys, limit), WriteAll(ops), limit);
            && Leads(start, sys', limit)
            && sys'.directory.file < sys'.directory.applied
            && Pending(sys'.directory.tables, sys'.directory.file) != {}
            && GuardAccepts(sys'.directory, NextCut(sys'.directory, limit))
  {
    hide Leads, Run, Initial, Mirrored, Moves, NextCut, Planned, Pending;
    var crashed, sys' := CrashedAt(sys, limit), Run(CrashedAt(sys, limit), WriteAll(ops), limit);
    LeadsValid(start, sys, limit);
    LeadsCrashedAt(sys, limit);
    LeadsTransitive(start, sys, crashed, limit);
    LeadsRun(start, crashed, WriteAll(ops), limit);
    LeadsValid(start, sys', limit);
    MovesAcceptable(sys.directory, limit);
    RunLater(crashed, WriteAll(ops), limit);
    WritesOnly(crashed, ops, limit);
    RetriedAfter(sys.directory, sys'.directory, limit);
  }

  lemma RetriedAfter(d: Side, d': Side, limit: nat)
    requires TablesValid(Directory, d) && TablesValid(Directory, d') && Pending(d.tables, d.file) != {}
    requires Later(d.tables, d.revision, d'.tables, d'.revision) && Kept(d.tables, d'.tables)
    requires d'.file == d.file && d'.applied == NextCut(d, limit)
    ensures Pending(d'.tables, d'.file) != {} && GuardAccepts(d', NextCut(d', limit))
  {
    KeptReaches(d.tables, d.revision, d'.tables, d'.revision, d.file, limit);
    LaterCut(d.tables, d.revision, d'.tables, d'.revision, d.file, limit);
    PendingBounded(Directory, d', limit);
  }
}
