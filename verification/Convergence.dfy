/** Undisturbed passes of the Syncer: when they bring both channels up to date. */
module Convergence {
  import opened Store
  import opened Cut
  import opened Sync
  import opened Sorting
  import opened Paging
  import opened Quiet
  import opened Reach
  import Rehire
  import Dn
  import OuOrder

  // ----- Whole passes -----

  /** One pass in which nothing goes wrong by accident and nobody writes; a failed request ends it for both channels. */
  ghost function QuietPass(sys: System, limit: nat): System {
    if CanAnswer(Directory, sys.directory, limit)
    then System(QuietRun(Directory, sys.directory, limit), QuietRun(Credential, sys.credential, limit), Idle)
    else Restart(sys)
  }

  lemma QuietRunReads(ch: Channel, s: Side, limit: nat)
    requires Valid(ch, s)
    ensures InStep(ReadAll(ch, s, limit))
    ensures Ready(ch, ReadAll(ch, s, limit)) <==> CanAnswer(ch, s, limit)
    ensures ch.Credential? ==> CanAnswer(ch, s, limit)
    ensures !CanAnswer(ch, s, limit) ==> QuietRun(ch, s, limit) == Load(s)
    ensures Load(ReadAll(ch, s, limit)) == Load(s)
  {
    ReadAllIsSnapshot(ch, s, limit);
    hide Valid, ReadAll, Named, Executable, NextCut, NextPage;
  }

  /** An undisturbed pass over both channels is a run of the step system. */
  lemma QuietPassIsRun(sys: System, limit: nat)
    requires SystemValid(sys) && sys.turn.Idle?
    ensures Leads(sys, QuietPass(sys, limit), limit)
  {
    hide Leads, Valid, ReadAll, FinishRun, CanAnswer, Ready, SideStep, Commit;
    var d, c := ReadAll(Directory, sys.directory, limit), ReadAll(Credential, sys.credential, limit);
    QuietRunReads(Directory, sys.directory, limit);
    QuietRunReads(Credential, sys.credential, limit);
    LeadsStart(sys, limit);
    var started := Restart(sys).(turn := ReadingDirectory);
    LeadsRead(sys, started, Directory, sys.directory, limit);
    if CanAnswer(Directory, sys.directory, limit) {
      LeadsMoveOn(sys, started.(directory := d), limit);
      var half := System(d, Load(sys.credential), ReadingCredentials);
      LeadsRead(sys, half, Credential, sys.credential, limit);
      LeadsMoveOn(sys, half.(credential := c), limit);
      LeadsFinish(sys, System(d, c, RunningDirectory), Directory, limit);
      LeadsFinish(sys, System(FinishRun(Directory, d), c, RunningCredentials), Credential, limit);
    } else {
      LeadsStep(sys, started.(directory := d), ReadFails, limit);
    }
  }

  ghost function QuietPasses(sys: System, limit: nat, n: nat): System
    decreases n
  {
    if n == 0 then sys else QuietPasses(QuietPass(sys, limit), limit, n - 1)
  }

  lemma QuietPassKeepsValid(sys: System, limit: nat)
    requires SystemValid(sys) && sys.turn.Idle?
    ensures SystemValid(QuietPass(sys, limit)) && QuietPass(sys, limit).turn.Idle?
    ensures QuietPass(sys, limit).directory == QuietRun(Directory, sys.directory, limit)
  {
    hide Valid, QuietRun, CanAnswer;
    QuietRunKeepsValid(Directory, sys.directory, limit);
    QuietRunKeepsValid(Credential, sys.credential, limit);
    QuietRunReads(Directory, sys.directory, limit);
    FilesKeepValid(sys);
  }

  /** How many of `n` passes have their request answered. */
  ghost function Passed(d: Side, limit: nat, n: nat): nat
    decreases n
  {
    if n == 0 || !CanAnswer(Directory, d, limit) then 0 else 1 + Passed(QuietRun(Directory, d, limit), limit, n - 1)
  }

  /** Undisturbed passes are runs; the credential channel takes part in those whose request is answered. */
  lemma {:induction false} QuietPassesAreRuns(sys: System, limit: nat, n: nat)
    requires SystemValid(sys) && sys.turn.Idle?
    ensures Leads(sys, QuietPasses(sys, limit, n), limit)
    ensures var end := QuietPasses(sys, limit, n);
            && end.turn.Idle? && SystemValid(end)
            && end.directory == QuietRuns(Directory, sys.directory, limit, n)
            && Load(end.credential) ==
               Load(QuietRuns(Credential, sys.credential, limit, Passed(sys.directory, limit, n)))
    decreases n
  {
    hide Leads, Valid, QuietRun, CanAnswer;
    if n == 0 {
      LeadsNowhere(sys, limit);
    } else {
      var next := QuietPass(sys, limit);
      QuietPassIsRun(sys, limit);
      QuietPassKeepsValid(sys, limit);
      QuietPassesAreRuns(next, limit, n - 1);
      LeadsTransitive(sys, next, QuietPasses(next, limit, n - 1), limit);
      if !CanAnswer(Directory, sys.directory, limit) {
        QuietRunReads(Directory, sys.directory, limit);
        SameNext(Directory, sys.directory, next.directory, limit);
        assert Passed(next.directory, limit, n - 1) == 0;
      }
    }
  }

  // ----- The directory decides which requests are answered -----

  /** The next `n` requests are answered, the watermark moving as it does in undisturbed runs. */
  ghost predicate AnswersFor(t: Tables, threshold: nat, applied: nat, limit: nat, n: nat)
    decreases n
  {
    var pending := Pending(t, threshold);
    if n == 0 || pending == {} then true
    else
      var cut := CutAt(pending, limit);
      var page := Between(t, threshold, cut);
      && Answerable(Directory, t, page)
      && (Executable(page) && cut >= applied ==> AnswersFor(t, cut, cut, limit, n - 1))
  }

  /** Requests that are answered from here on, when the watermark does not move. */
  lemma {:induction false} StandingStill(d: Side, limit: nat, n: nat)
    requires Valid(Directory, d) && CanAnswer(Directory, d, limit) && !Moves(Directory, d, limit)
    ensures Passed(d, limit, n) == n
    decreases n
  {
    if n > 0 {
      hide Valid, CanAnswer, NextPage, NextCut;
      QuietRunEffect(Directory, d, limit);
      QuietRunKeepsValid(Directory, d, limit);
      hide QuietRun;
      SameNext(Directory, d, QuietRun(Directory, d, limit), limit);
      StandingStill(QuietRun(Directory, d, limit), limit, n - 1);
    }
  }

  lemma {:induction false} PassedExactly(d: Side, limit: nat, n: nat)
    requires Valid(Directory, d)
    ensures Passed(d, limit, n) <= n
    ensures Passed(d, limit, n) == n <==> AnswersFor(d.tables, d.file, d.applied, limit, n)
    decreases n
  {
    hide Valid, Between, Pending, Executable, Answerable;
    if n > 0 {
      QuietRunEffect(Directory, d, limit);
      QuietRunKeepsValid(Directory, d, limit);
      hide QuietRun;
      PassedExactly(QuietRun(Directory, d, limit), limit, n - 1);
      if Pending(d.tables, d.file) == {} {
        EmptyPageAnswered(d, limit);
        StandingStill(d, limit, n);
      } else if CanAnswer(Directory, d, limit) && !Moves(Directory, d, limit) {
        StandingStill(d, limit, n);
      }
    }
  }

  lemma {:induction false} PassedMonotone(d: Side, limit: nat, n: nat, m: nat)
    requires m <= n
    ensures Passed(d, limit, m) == if Passed(d, limit, n) < m then Passed(d, limit, n) else m
    decreases n
  {
    hide QuietRun, CanAnswer;
    if m > 0 && CanAnswer(Directory, d, limit) {
      PassedMonotone(QuietRun(Directory, d, limit), limit, n - 1, m - 1);
    }
  }

  lemma WillCatchUpAnswersNext(d: Side, limit: nat)
    requires WillCatchUp(Directory, d, limit)
    ensures CanAnswer(Directory, d, limit)
  {
    hide Between, Pending, Answerable;
    if Pending(d.tables, d.file) == {} {
      EmptyPageAnswered(d, limit);
    }
  }

  /** A directory channel that will catch up has every request answered. */
  lemma {:induction false} WillCatchUpAnswers(d: Side, limit: nat, n: nat)
    requires Valid(Directory, d) && WillCatchUp(Directory, d, limit)
    ensures Passed(d, limit, n) == n
    decreases n
  {
    hide Valid, Pending, CanAnswer, QuietRun, WillCatchUp;
    if n > 0 {
      WillCatchUpAnswersNext(d, limit);
      if Pending(d.tables, d.file) == {} {
        IdleRun(Directory, d, limit);
        NothingPendingWorks(Directory, QuietRun(Directory, d, limit), limit);
      } else {
        ConvergingRun(Directory, d, limit);
      }
      WillCatchUpAnswers(QuietRun(Directory, d, limit), limit, n - 1);
    }
  }

  // ----- When the channels catch up -----

  lemma CaughtUpLoaded(s: Side)
    ensures CaughtUp(Load(s)) <==> CaughtUp(s)
  {
  }

  /** The runs that the credential channel needs. */
  function CredentialRuns(sys: System, limit: nat): nat {
    RunsNeeded(|Pending(sys.credential.tables, sys.credential.file)|, limit)
  }

  /**
   The credential channel catches up if and only if the guard accepts its next page and the
   directory lets as many requests be answered as the channel needs runs.
   */
  lemma CredentialsCatchUpExactly(sys: System, limit: nat)
    requires SystemValid(sys) && sys.turn.Idle?
    ensures (exists n: nat :: CaughtUp(QuietPasses(sys, limit, n).credential)) <==>
              && WillCatchUp(Credential, sys.credential, limit)
              && AnswersFor(sys.directory.tables, sys.directory.file, sys.directory.applied, limit,
                 CredentialRuns(sys, limit))
  {
    hide Valid, QuietRuns, WillCatchUp, AnswersFor, CaughtUp, QuietPasses, Leads;
    var d, c, needed := sys.directory, sys.credential, CredentialRuns(sys, limit);
    PassedExactly(d, limit, needed);
    if WillCatchUp(Credential, c, limit) && AnswersFor(d.tables, d.file, d.applied, limit, needed) {
      CredentialAfter(sys, limit, needed);
      Converges(Credential, c, limit, needed);
      assert CaughtUp(QuietPasses(sys, limit, needed).credential);
    }
    forall n: nat | CaughtUp(QuietPasses(sys, limit, n).credential)
      ensures WillCatchUp(Credential, c, limit) && Passed(d, limit, needed) == needed
    {
      CredentialAfter(sys, limit, n);
      CredentialNeeds(c, limit, Passed(d, limit, n));
      PassedExactly(d, limit, n);
      PassedMonotone(d, limit, n, needed);
    }
  }

  lemma CredentialAfter(sys: System, limit: nat, n: nat)
    requires SystemValid(sys) && sys.turn.Idle?
    ensures CaughtUp(QuietPasses(sys, limit, n).credential) <==>
            CaughtUp(QuietRuns(Credential, sys.credential, limit, Passed(sys.directory, limit, n)))
  {
    hide Valid, QuietRuns, CaughtUp, QuietPasses, Leads, Passed;
    QuietPassesAreRuns(sys, limit, n);
    CaughtUpLoaded(QuietPasses(sys, limit, n).credential);
    CaughtUpLoaded(QuietRuns(Credential, sys.credential, limit, Passed(sys.directory, limit, n)));
  }

  lemma CredentialNeeds(c: Side, limit: nat, k: nat)
    requires Valid(Credential, c) && CaughtUp(QuietRuns(Credential, c, limit, k))
    ensures WillCatchUp(Credential, c, limit) && k >= RunsNeeded(|Pending(c.tables, c.file)|, limit)
  {
    hide Valid, QuietRuns, WillCatchUp;
    if !WillCatchUp(Credential, c, limit) {
      StuckForever(Credential, c, limit, k);
    }
    if k < RunsNeeded(|Pending(c.tables, c.file)|, limit) {
      NotBefore(Credential, c, limit, k);
    }
  }

  /**
   Both channels catch up, together, if and only if every page of each works; fully, when the
   directory was governed up to its saved watermark, as it is in every reachable state.
   */
  lemma BothCatchUpExactly(sys: System, limit: nat)
    requires SystemValid(sys) && sys.turn.Idle?
    ensures (exists n: nat :: BothCaughtUp(QuietPasses(sys, limit, n))) <==>
            WillCatchUp(Directory, sys.directory, limit) && WillCatchUp(Credential, sys.credential, limit)
    ensures SavedGoverned(sys.directory) ==>
              ((exists n: nat :: AllCaughtUp(QuietPasses(sys, limit, n))) <==>
               WillCatchUp(Directory, sys.directory, limit) && WillCatchUp(Credential, sys.credential, limit))
  {
    BothCatchUp(sys, limit);
    hide Valid, WillCatchUp, QuietPasses, BothCaughtUp, AllCaughtUp, SavedGoverned;
    if SavedGoverned(sys.directory) {
      forall n: nat ensures AllCaughtUp(QuietPasses(sys, limit, n)) <==> BothCaughtUp(QuietPasses(sys, limit, n)) {
        AllIsBoth(sys, limit, n);
      }
    }
  }

  /** Every governing row of both channels is mirrored, and nothing is pending. */
  ghost predicate AllCaughtUp(sys: System) {
    FullyCaughtUp(sys.directory) && FullyCaughtUp(sys.credential)
  }

  lemma AllIsBoth(sys: System, limit: nat, n: nat)
    requires SystemValid(sys) && sys.turn.Idle? && SavedGoverned(sys.directory)
    ensures AllCaughtUp(QuietPasses(sys, limit, n)) <==> BothCaughtUp(QuietPasses(sys, limit, n))
  {
    hide Valid, QuietRuns, QuietPasses, Leads, CaughtUp, FullyCaughtUp, SavedGoverned, Passed;
    QuietPassesAreRuns(sys, limit, n);
    CaughtUpFully(Directory, sys.directory, limit, n);
    CredentialsFully(QuietPasses(sys, limit, n).credential);
  }

  /** Credentials have no twins, so there caught up is fully caught up. */
  lemma CredentialsFully(c: Side)
    requires Valid(Credential, c)
    ensures CaughtUp(c) <==> FullyCaughtUp(c)
  {
    hide MarksValid, MirrorValid, ProgressValid, Pending;
    assert forall k | k in c.tables :: Governs(c.tables, k) && !Contested(c.tables, k);
  }

  lemma BothCatchUp(sys: System, limit: nat)
    requires SystemValid(sys) && sys.turn.Idle?
    ensures (exists n: nat :: BothCaughtUp(QuietPasses(sys, limit, n))) <==>
            WillCatchUp(Directory, sys.directory, limit) && WillCatchUp(Credential, sys.credential, limit)
  {
    hide Valid, QuietRuns, WillCatchUp, QuietPasses, Leads, CaughtUp, RunsNeeded, Passed;
    var d, c := sys.directory, sys.credential;
    if WillCatchUp(Directory, d, limit) && WillCatchUp(Credential, c, limit) {
      var nd, nc := RunsNeeded(|Pending(d.tables, d.file)|, limit), CredentialRuns(sys, limit);
      BothCaughtUpAfter(sys, limit, if nd < nc then nc else nd);
    }
    forall n: nat | BothCaughtUp(QuietPasses(sys, limit, n))
      ensures WillCatchUp(Directory, d, limit) && WillCatchUp(Credential, c, limit)
    {
      CredentialAfter(sys, limit, n);
      CredentialNeeds(c, limit, Passed(d, limit, n));
      QuietPassesAreRuns(sys, limit, n);
      CatchesUpExactly(Directory, d, limit);
      assert CaughtUp(QuietRuns(Directory, d, limit, n));
    }
  }

  ghost predicate BothCaughtUp(sys: System) {
    CaughtUp(sys.directory) && CaughtUp(sys.credential)
  }

  lemma BothCaughtUpAfter(sys: System, limit: nat, n: nat)
    requires SystemValid(sys) && sys.turn.Idle?
    requires WillCatchUp(Directory, sys.directory, limit) && WillCatchUp(Credential, sys.credential, limit)
    requires n >= RunsNeeded(|Pending(sys.directory.tables, sys.directory.file)|, limit)
             && n >= CredentialRuns(sys, limit)
    ensures BothCaughtUp(QuietPasses(sys, limit, n))
    ensures QuietPasses(sys, limit, n).directory.tables == sys.directory.tables
    ensures QuietPasses(sys, limit, n).credential.tables == sys.credential.tables
  {
    hide Valid, QuietRuns, WillCatchUp, QuietPasses, Leads, CaughtUp, Passed;
    WillCatchUpAnswers(sys.directory, limit, n);
    QuietPassesAreRuns(sys, limit, n);
    CredentialAfter(sys, limit, n);
    Converges(Directory, sys.directory, limit, n);
    Converges(Credential, sys.credential, limit, n);
  }

  /**
   From every reachable idle state whose pages all work, a run leads to a state with the same
   tables in which both channels have caught up; it takes as many passes as the channel that
   needs more.  From a domain in which no tombstone is newer than the user row beside it, that
   includes the governing rows of employees with both rows.
   */
  lemma EveryReachableStateCatchesUp(start: System, actions: seq<Action>, limit: nat, n: nat)
    requires Initial(start) && Run(start, actions, limit).turn.Idle?
    requires var sys := Run(start, actions, limit);
             && WillCatchUp(Directory, sys.directory, limit) && WillCatchUp(Credential, sys.credential, limit)
             && n >= RunsNeeded(|Pending(sys.directory.tables, sys.directory.file)|, limit)
             && n >= CredentialRuns(sys, limit)
    ensures var sys, end := Run(start, actions, limit), QuietPasses(Run(start, actions, limit), limit, n);
            && Leads(start, end, limit)
            && end.directory.tables == sys.directory.tables && end.credential.tables == sys.credential.tables
            && BothCaughtUp(end)
            && (UserNewer(start.directory.tables) && Rehire.GroupsFit(start.directory.tables) ==> AllCaughtUp(end))
  {
    var sys := Run(start, actions, limit);
    RunKeepsValid(start, actions, limit);
    hide Valid, CaughtUp, WillCatchUp, RunsNeeded, Pending, Initial, QuietPasses, UserNewer, Rehire.GroupsFit;
    hide AllCaughtUp, BothCaughtUp, SavedGoverned;
    if UserNewer(start.directory.tables) && Rehire.GroupsFit(start.directory.tables) {
      Rehire.SavedIsGoverned(start, actions, limit);
      AllIsBoth(sys, limit, n);
    }
    assert Leads(start, sys, limit);
    hide Leads;
    QuietPassesAreRuns(sys, limit, n);
    LeadsTransitive(start, sys, QuietPasses(sys, limit, n), limit);
    BothCaughtUpAfter(sys, limit, n);
  }

  // ----- An OU without a complete chain of parents -----

  /** A request that cannot be answered stops both channels for good. */
  lemma {:induction false} UnanswerableStopsBoth(sys: System, limit: nat, n: nat)
    requires SystemValid(sys) && sys.turn.Idle? && !CanAnswer(Directory, sys.directory, limit) && n >= 1
    ensures QuietPasses(sys, limit, n) == Restart(sys)
    decreases n
  {
    hide Valid, CanAnswer;
    if n > 1 {
      SameNext(Directory, sys.directory, Restart(sys).directory, limit);
      FilesKeepValid(sys);
      UnanswerableStopsBoth(Restart(sys), limit, n - 1);
    } else {
      assert QuietPasses(QuietPass(sys, limit), limit, 0) == Restart(sys);
    }
  }

  const DANGLING: WriteOp := Upsert([OuInput("a", "a", Some("ghost"))], [], [])

  /** An OU whose parent does not exist can be written, and from then on neither channel moves. */
  lemma DanglingParentStops(limit: nat, n: nat)
    requires n >= 1
    ensures Initial(EmptySystem())
    ensures var sys := Next(EmptySystem(), Write(DANGLING), limit);
            && sys.directory.tables == map[OuKey("a") := OuRow("a", Some("ghost"), 1)]
            && Executable(NextPage(sys.directory, limit))
            && QuietPasses(sys, limit, n) == Restart(sys)
            && !CaughtUp(QuietPasses(sys, limit, n).directory)
  {
    var sys := Next(EmptySystem(), Write(DANGLING), limit);
    DanglingTables(limit);
    DanglingPage(sys.directory, limit);
    assert Run(EmptySystem(), [], limit) == EmptySystem();
    RunKeepsValid(EmptySystem(), [], limit);
    NextKeepsValid(EmptySystem(), Write(DANGLING), limit);
    hide Valid, CanAnswer, NextPage, Next;
    UnanswerableStopsBoth(sys, limit, n);
  }

  lemma DanglingTables(limit: nat)
    ensures var sys := Next(EmptySystem(), Write(DANGLING), limit);
            && sys.directory == NewSide(map[], 0).(tables := map[OuKey("a") := OuRow("a", Some("ghost"), 1)],
               revision := 1)
            && sys.credential == NewSide(map[], 0) && sys.turn.Idle?
  {
    var a := OuInput("a", "a", Some("ghost"));
    assert PutOus(map[], [a], 1) == map[OuKey("a") := OuRow("a", Some("ghost"), 1)] by {
      assert [a][..0] == [];
      assert PutOus(map[], [], 1) == map[];
    }
  }

  lemma DanglingPage(s: Side, limit: nat)
    requires s.tables == map[OuKey("a") := OuRow("a", Some("ghost"), 1)] && s.file == 0
    ensures Pending(s.tables, s.file) == {1}
    ensures Executable(NextPage(s, limit)) && !CanAnswer(Directory, s, limit)
  {
    assert s.tables[OuKey("a")].revision == 1;
    assert Pending(s.tables, 0) == {1};
    assert CutAt({1}, limit) == 1;
    assert NextPage(s, limit) == s.tables;
    assert OuKey("a") in s.tables && "a" in Involved(s.tables);
    assert UnitsOf(s.tables) == map["a" := Dn.Ou("a", Some("ghost"))] by { assert OuKey("a") in s.tables; }
    var units := UnitsOf(s.tables);
    assert !Dn.Grounded(units, "a") by {
      assert Dn.Up(units, "a", 0) == Some("a");
      assert Dn.Up(units, "a", 1) == Some("ghost");
      Dn.MissingNotGrounded(units, "a", 1);
    }
  }

  // ----- An answered page can be planned -----

  /** OUs of a page, none of them twice, in any order. */
  ghost predicate ListsUnits(ous: seq<OuOrder.OrganizationalUnit>, page: Tables) {
    && NoRepeats(ous)
    && (forall i | 0 <= i < |ous| ::
          && OuKey(ous[i].id) in page
          && page[OuKey(ous[i].id)] == OuRow(ous[i].name, ous[i].parentId, ous[i].changedRevision))
  }

  lemma {:induction false} AncestorIsUp(byId: OuOrder.Index, units: Dn.Ous, id: string, n: nat)
    requires forall x | x in byId :: x in units && units[x].parentId == byId[x].parentId
    requires OuOrder.Ancestor(byId, id, n).Some?
    ensures Dn.Up(units, id, n) == OuOrder.Ancestor(byId, id, n)
  {
    if n > 0 {
      AncestorIsUp(byId, units, id, n - 1);
    }
  }

  /** Planning never fails on the page of an answered undisturbed request: its OUs have no cycle. */
  lemma AnsweredPagePlans(t: Tables, page: Tables, ous: seq<OuOrder.OrganizationalUnit>)
    requires Answerable(Directory, t, page) && ListsUnits(ous, page)
    requires forall k | k in page :: k in t && t[k] == page[k]
    ensures OuOrder.UniqueIds(ous) && OuOrder.Acyclic(OuOrder.IndexOf(ous))
  {
    var byId, units := OuOrder.IndexOf(ous), UnitsOf(t);
    assert OuOrder.UniqueIds(ous) by {
      assert forall i, j | 0 <= i < j < |ous| :: ous[i].id == ous[j].id ==> ous[i] == ous[j];
    }
    OuOrder.IndexOfUnique(ous);
    forall id | id in byId ensures id in Involved(page) && id in units && units[id].parentId == byId[id].parentId {
      var i :| 0 <= i < |ous| && ous[i].id == id;
      assert OuKey(id) in page && t[OuKey(id)].OuRow?;
      assert byId[id] == ous[i];
    }
    hide Involved, UnitsOf, OuOrder.IndexOf;
    forall id | id in byId ensures !OuOrder.OnCycle(byId, id) {
      if n: nat :| n >= 1 && OuOrder.Ancestor(byId, id, n) == Some(id) {
        AncestorIsUp(byId, units, id, n);
        assert Dn.Up(units, id, 0) == Some(id);
        Dn.LoopNotGrounded(units, id, 0);
      }
    }
  }
}
