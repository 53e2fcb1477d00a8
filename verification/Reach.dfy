/** Which states runs lead to, and the undisturbed parts of a pass as runs. */
module Reach {
  import opened Store
  import opened Sync
  import opened Paging
  import opened Quiet

  /** Some run leads from one state to the other. */
  ghost predicate Leads(sys: System, sys': System, limit: nat) {
    exists actions: seq<Action> :: Run(sys, actions, limit) == sys'
  }

  lemma LeadsNowhere(sys: System, limit: nat)
    ensures Leads(sys, sys, limit)
  {
    assert Run(sys, [], limit) == sys;
  }

  lemma LeadsValid(start: System, sys: System, limit: nat)
    requires Initial(start) && Leads(start, sys, limit)
    ensures SystemValid(sys)
  {
    var actions :| Run(start, actions, limit) == sys;
    RunKeepsValid(start, actions, limit);
  }

  lemma LeadsStep(sys: System, mid: System, a: Action, limit: nat)
    requires Leads(sys, mid, limit)
    ensures Leads(sys, Next(mid, a, limit), limit)
  {
    hide Next;
    var actions :| Run(sys, actions, limit) == mid;
    assert (actions + [a])[..|actions|] == actions;
    assert Run(sys, actions + [a], limit) == Next(mid, a, limit);
  }

  lemma LeadsStart(sys: System, limit: nat)
    requires sys.turn.Idle?
    ensures Leads(sys, Restart(sys).(turn := ReadingDirectory), limit)
  {
    hide Leads, SideStep, Commit;
    LeadsNowhere(sys, limit);
    LeadsStep(sys, sys, Start, limit);
  }

  lemma LeadsMoveOn(sys: System, mid: System, limit: nat)
    requires Leads(sys, mid, limit)
    ensures Leads(sys, mid.(turn := NextTurn(mid)), limit)
  {
    hide Leads, SideStep, Commit, NextTurn;
    LeadsStep(sys, mid, MoveOn, limit);
  }

  /** The actions that are one step of the channel whose turn it is. */
  predicate OwnStep(a: Action) {
    match a
    case AskDomain => true
    case AskServer => true
    case AskRevisions => true
    case ChooseCut => true
    case AskRows => true
    case ExecutionSucceeds => true
    case ExecutionFails(_, _) => true
    case NothingToExecute => true
    case Confirm => true
    case ConfirmHeard => true
    case GiveUp => true
    case _ => false
  }

  lemma NextIsSideStep(sys: System, ch: Channel, a: Action, limit: nat)
    requires OwnStep(a) && Possible(sys.turn, a) && ActiveChannel(sys.turn) == ch
    ensures Next(sys, a, limit) == WithSide(sys, ch, SideStep(ch, SideOf(sys, ch), a, limit))
  {
    hide SideStep, Commit;
  }

  lemma LeadsSideStep(sys: System, mid: System, ch: Channel, a: Action, limit: nat)
    requires Leads(sys, mid, limit) && OwnStep(a) && Possible(mid.turn, a) && ActiveChannel(mid.turn) == ch
    ensures Leads(sys, WithSide(mid, ch, SideStep(ch, SideOf(mid, ch), a, limit)), limit)
  {
    hide Leads, SideStep, Next;
    NextIsSideStep(mid, ch, a, limit);
    LeadsStep(sys, mid, a, limit);
  }

  // ----- The sync request -----

  predicate Asking(sys: System, ch: Channel) {
    Reading(sys.turn) && ActiveChannel(sys.turn) == ch
  }

  lemma {:induction false} LeadsQueryAll(sys: System, mid: System, ch: Channel, limit: nat)
    requires Leads(sys, mid, limit) && Asking(mid, ch)
    ensures Leads(sys, WithSide(mid, ch, QueryAllRevisions(ch, SideOf(mid, ch))), limit)
    decreases if SideOf(mid, ch).progress.Revising? then |RevisionTables(ch)| - SideOf(mid, ch).progress.next else 0
  {
    hide Leads;
    var s := SideOf(mid, ch);
    if s.progress.Revising? && s.progress.next < |RevisionTables(ch)| {
      LeadsSideStep(sys, mid, ch, AskRevisions, limit);
      LeadsQueryAll(sys, WithSide(mid, ch, QueryRevisions(ch, s)), ch, limit);
    }
  }

  lemma {:induction false} LeadsFetchAll(sys: System, mid: System, ch: Channel, limit: nat)
    requires Leads(sys, mid, limit) && Asking(mid, ch)
    ensures Leads(sys, WithSide(mid, ch, FetchAllRows(ch, SideOf(mid, ch))), limit)
    decreases if SideOf(mid, ch).progress.Fetching? then |RowTables(ch)| - SideOf(mid, ch).progress.next else 0
  {
    hide Leads;
    var s := SideOf(mid, ch);
    if s.progress.Fetching? && s.progress.next < |RowTables(ch)| {
      LeadsSideStep(sys, mid, ch, AskRows, limit);
      LeadsFetchAll(sys, WithSide(mid, ch, FetchRows(ch, s)), ch, limit);
    }
  }

  lemma {:induction false} LeadsNameAll(sys: System, mid: System, limit: nat)
    requires Leads(sys, mid, limit) && mid.turn.ReadingDirectory?
    ensures Leads(sys, WithSide(mid, Directory, NameAll(mid.directory)), limit)
    decreases Unknown(mid.directory)
  {
    hide Leads, UnitsOf, Needed, Unknown, Named;
    var s := mid.directory;
    if exists id: string :: CanLookUp(s, id) {
      var id: string :| CanLookUp(s, id) && NameAll(s) == NameAll(LookUpUnit(s, id));
      LookUpShrinks(s, id);
      LeadsStep(sys, mid, AskUnit(id), limit);
      LeadsNameAll(sys, WithSide(mid, Directory, LookUpUnit(s, id)), limit);
    }
  }

  lemma LeadsChoice(sys: System, mid: System, ch: Channel, s: Side, limit: nat)
    requires Leads(sys, mid, limit) && Asking(mid, ch) && SideOf(mid, ch) == Load(s)
    ensures var chosen := CutBatch(ch, QueryAllRevisions(ch, ReadServer(CheckDomain(Load(s)))), limit);
            Leads(sys, WithSide(mid, ch, chosen), limit)
  {
    hide Leads, CheckDomain, ReadServer, QueryAllRevisions, CutBatch;
    var checked := CheckDomain(Load(s));
    var started := ReadServer(checked);
    LeadsSideStep(sys, mid, ch, AskDomain, limit);
    LeadsSideStep(sys, WithSide(mid, ch, checked), ch, AskServer, limit);
    LeadsQueryAll(sys, WithSide(mid, ch, started), ch, limit);
    LeadsSideStep(sys, WithSide(mid, ch, QueryAllRevisions(ch, started)), ch, ChooseCut, limit);
  }

  lemma LeadsRead(sys: System, mid: System, ch: Channel, s: Side, limit: nat)
    requires Leads(sys, mid, limit) && Asking(mid, ch) && SideOf(mid, ch) == Load(s)
    ensures Leads(sys, WithSide(mid, ch, ReadAll(ch, s, limit)), limit)
  {
    hide Leads, CheckDomain, ReadServer, QueryAllRevisions, CutBatch, FetchAllRows, NameAll;
    var chosen := CutBatch(ch, QueryAllRevisions(ch, ReadServer(CheckDomain(Load(s)))), limit);
    LeadsChoice(sys, mid, ch, s, limit);
    LeadsFetchAll(sys, WithSide(mid, ch, chosen), ch, limit);
    if ch.Directory? {
      LeadsNameAll(sys, WithSide(mid, ch, FetchAllRows(ch, chosen)), limit);
    }
  }

  // ----- Executing, confirming and saving -----

  function AfterTurn(ch: Channel): Turn { if ch.Directory? then RunningCredentials else Idle }

  predicate InStep(s: Side) { s.memory == s.file }

  lemma LeadsFinish(sys: System, mid: System, ch: Channel, limit: nat)
    requires Leads(sys, mid, limit) && mid.turn == RunningTurn(ch) && Ready(ch, SideOf(mid, ch))
    requires InStep(mid.directory) && InStep(mid.credential)
    ensures Leads(sys, WithSide(mid, ch, FinishRun(ch, SideOf(mid, ch))).(turn := AfterTurn(ch)), limit)
    ensures InStep(FinishRun(ch, SideOf(mid, ch))) && FinishRun(ch, SideOf(mid, ch)).progress.Closed?
  {
    hide Leads, Planned, Executable, Named, Next;
    var read := SideOf(mid, ch);
    if Executable(read.progress.got) {
      var executed := Succeed(ch, read);
      var sent := SendConfirm(executed);
      var heard := HearAccepted(sent);
      LeadsSideStep(sys, mid, ch, ExecutionSucceeds, limit);
      LeadsSideStep(sys, WithSide(mid, ch, executed), ch, Confirm, limit);
      LeadsSideStep(sys, WithSide(mid, ch, sent), ch, ConfirmHeard, limit);
      LeadsClose(sys, WithSide(mid, ch, heard), ch, limit);
    } else {
      LeadsSideStep(sys, mid, ch, NothingToExecute, limit);
    }
    LeadsMoveOn(sys, WithSide(mid, ch, FinishRun(ch, read)), limit);
  }

  /** An accepted confirmation is saved; any other end of the channel's part is an error. */
  lemma LeadsClose(sys: System, mid: System, ch: Channel, limit: nat)
    requires Leads(sys, mid, limit) && mid.turn == RunningTurn(ch)
    requires InStep(SideOf(mid, OtherThan(ch)))
    requires SideOf(mid, ch).progress.Executed? || SideOf(mid, ch).progress.Accepted?
    ensures var s := SideOf(mid, ch);
            Leads(sys, WithSide(mid, ch, if s.progress.Accepted? then Abandon(s.(file := s.memory)) else Abandon(s)),
              limit)
  {
    hide Leads;
    var s := SideOf(mid, ch);
    if s.progress.Accepted? {
      LeadsStep(sys, mid, Save, limit);
      assert Next(mid, Save, limit) == WithSide(mid, ch, Abandon(s.(file := s.memory)));
    } else {
      LeadsSideStep(sys, mid, ch, GiveUp, limit);
    }
  }

  lemma LeadsTransitive(a: System, b: System, c: System, limit: nat)
    requires Leads(a, b, limit) && Leads(b, c, limit)
    ensures Leads(a, c, limit)
  {
    var first :| Run(a, first, limit) == b;
    var second :| Run(b, second, limit) == c;
    RunSplit(a, first, second, limit);
  }

  lemma {:induction false} RunSplit(sys: System, first: seq<Action>, second: seq<Action>, limit: nat)
    ensures Run(sys, first + second, limit) == Run(Run(sys, first, limit), second, limit)
  {
    hide Next;
    if second == [] {
      assert first + second == first;
    } else {
      var all := first + second;
      assert all[..|all| - 1] == first + second[..|second| - 1];
      RunSplit(sys, first, second[..|second| - 1], limit);
    }
  }
  // ----- Tables along a run -----

  lemma NextLater(sys: System, a: Action, limit: nat)
    ensures var s, s' := StoreOf(sys), StoreOf(Next(sys, a, limit));
            && Later(s.directory, s.directoryRevision, s'.directory, s'.directoryRevision)
            && Later(s.credentials, s.credentialRevision, s'.credentials, s'.credentialRevision)
            && (!DeletesOu(a) ==> Kept(s.directory, s'.directory))
            && (!DeletesUser(a) ==> Kept(s.credentials, s'.credentials))
  {
    NextStore(sys, a, limit);
    hide Next, Commit;
    if a.Write? && Commit(StoreOf(sys), a.op).Some? {
      CommitLater(StoreOf(sys), a.op);
    }
  }

  /** Only writes change the store. */
  lemma NextStore(sys: System, a: Action, limit: nat)
    ensures StoreOf(Next(sys, a, limit)) ==
            if a.Write? && Commit(StoreOf(sys), a.op).Some? then Commit(StoreOf(sys), a.op).value else StoreOf(sys)
  {
    hide Commit, Planned, AfterFailure, Named, Needed, UnitsOf, RevisionsOf, RowsOf, Executable;
  }

  predicate DeletesOu(a: Action) { a.Write? && a.op.DeleteOu? }
  predicate DeletesUser(a: Action) { a.Write? && a.op.DeleteUser? }

  /**
   Along a run every row is replaced by a newer one; only an OU deletion removes a directory row
   for good, and only a user deletion a credential.
   */
  lemma {:induction false} RunLater(sys: System, actions: seq<Action>, limit: nat)
    ensures var s, s' := StoreOf(sys), StoreOf(Run(sys, actions, limit));
            && Later(s.directory, s.directoryRevision, s'.directory, s'.directoryRevision)
            && Later(s.credentials, s.credentialRevision, s'.credentials, s'.credentialRevision)
            && ((forall i | 0 <= i < |actions| :: !DeletesOu(actions[i])) ==> Kept(s.directory, s'.directory))
            && ((forall i | 0 <= i < |actions| :: !DeletesUser(actions[i])) ==> Kept(s.credentials, s'.credentials))
  {
    if actions != [] {
      var init, last := actions[..|actions| - 1], actions[|actions| - 1];
      RunLater(sys, init, limit);
      var mid := Run(sys, init, limit);
      NextLater(mid, last, limit);
      hide Next, Later, Kept;
      var s0, s1, s2 := StoreOf(sys), StoreOf(mid), StoreOf(Next(mid, last, limit));
      LaterTransitive(s0.directory, s0.directoryRevision, s1.directory, s1.directoryRevision,
                      s2.directory, s2.directoryRevision);
      LaterTransitive(s0.credentials, s0.credentialRevision, s1.credentials, s1.credentialRevision,
                      s2.credentials, s2.credentialRevision);
      KeptTransitive(s0.directory, s1.directory, s2.directory);
      KeptTransitive(s0.credentials, s1.credentials, s2.credentials);
    }
  }

  lemma KeptTransitive(t0: Tables, t1: Tables, t2: Tables)
    ensures Kept(t0, t1) && Kept(t1, t2) ==> Kept(t0, t2)
  {
    assert forall k: Key :: k.Twin().Twin() == k;
  }

  lemma RunFrom(sys: System, actions: seq<Action>, i: nat, limit: nat)
    requires i <= |actions|
    ensures Run(sys, actions, limit) == Run(Run(sys, actions[..i], limit), actions[i..], limit)
  {
    assert actions == actions[..i] + actions[i..];
    RunSplit(sys, actions[..i], actions[i..], limit);
  }

  // ----- States to start from -----

  /** A channel that holds the given tables and of which nothing has been confirmed. */
  function NewSide(t: Tables, revision: nat): Side { Side(t, revision, 0, 0, 0, Closed, {}, map[]) }

  function EmptySystem(): System { System(NewSide(map[], 0), NewSide(map[], 0), Idle) }

  lemma EmptyInitial()
    ensures Initial(EmptySystem())
    ensures Valid(Directory, NewSide(map[], 0)) && Valid(Credential, NewSide(map[], 0))
  {
  }

  /** A request about an empty directory is answered, so the credential channel gets its turn. */
  lemma LeadsPastEmptyDirectory(sys: System, limit: nat)
    requires sys.turn.Idle? && sys.directory == NewSide(map[], 0)
    ensures var d := ReadAll(Directory, sys.directory, limit);
            Ready(Directory, d) && Leads(sys, System(d, Load(sys.credential), ReadingCredentials), limit)
  {
    EmptyDirectoryAnswered(sys.directory, limit);
    hide Leads, ReadAll, Ready, Next;
    LeadsStart(sys, limit);
    var started := Restart(sys).(turn := ReadingDirectory);
    LeadsRead(sys, started, Directory, sys.directory, limit);
    LeadsMoveOn(sys, started.(directory := ReadAll(Directory, sys.directory, limit)), limit);
  }

  lemma EmptyDirectoryAnswered(s: Side, limit: nat)
    requires s == NewSide(map[], 0)
    ensures Valid(Directory, s) && Ready(Directory, ReadAll(Directory, s, limit))
  {
    EmptyInitial();
    hide Valid, ReadAll, Ready, Answerable;
    assert Pending(s.tables, s.file) == {};
    ReadAllIsSnapshot(Directory, s, limit);
    EmptyPageAnswered(s, limit);
  }
}
