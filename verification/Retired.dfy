/**
 A run in which an employee who was deleted and created again is retired once more, although the
 confirmed watermark covers the newer user row.
 */
module Retired {
  import opened Store
  import opened Cut
  import opened Sync
  import opened Paging
  import opened Quiet
  import opened Reach
  import opened Convergence
  import opened Rehire
  import Dn

  const OU: Row := OuRow("ou", None, 1)
  const TEAM: Row := GroupRow("team", "ou", [], 2)
  const TOMBSTONE: Row := TombstoneRow(2)

  function First(p: Profile): Tables {
    map[OuKey("ou") := OU, UserKey("7") := UserRow(p, 1), GroupKey("team") := GroupRow("team", "ou", ["7"], 1)]
  }

  function Second(): Tables {
    map[OuKey("ou") := OU, GroupKey("team") := TEAM, TombstoneKey("7") := TOMBSTONE]
  }

  /** The user row has come back beside the tombstone. */
  function Third(p: Profile): Tables { Second()[UserKey("7") := UserRow(p, 3)] }

  function Hire(p: Profile): WriteOp {
    Upsert([OuInput("ou", "ou", None)], [UserInput("7", p)], [GroupInput("team", "team", "ou", ["7"])])
  }

  /** The create that overlooked the tombstone. */
  function HireAgain(p: Profile): WriteOp { Create(UserInput("7", p), "c", "v", false) }

  function Password(): Tables { map[CredentialKey("7") := CredentialRow("c", "v", 1)] }

  // ----- The three transactions -----

  lemma HireCommits(p: Profile)
    ensures Commit(Store(map[], map[], 0, 0), Hire(p)) == Some(Store(First(p), map[], 1, 0))
  {
    var ou, user, group := OuInput("ou", "ou", None), UserInput("7", p), GroupInput("team", "team", "ou", ["7"]);
    assert [ou][..0] == [] && [user][..0] == [] && [group][..0] == [];
    var t1: Tables := map[OuKey("ou") := OU];
    assert PutOus(map[], [], 1) == map[];
    assert PutOus(map[], [ou], 1) == t1;
    assert t1 - {TombstoneKey("7"), UserKey("7")} == t1;
    assert PutUsers(t1, [], 1) == Some(t1);
    var t2 := t1[UserKey("7") := UserRow(p, 1)];
    assert PutUsers(t1, [user], 1) == Some(t2);
    assert PutGroups(t2, [], 1) == t2;
    assert PutGroups(t2, [group], 1) == First(p);
  }

  lemma LeaveCommits(p: Profile)
    ensures Commit(Store(First(p), map[], 1, 0), DeleteUser("7")) == Some(Store(Second(), map[], 2, 0))
  {
    var members := ["7"];
    assert members[..0] == [];
    assert Without(members, "7") == [];
    var none: Tables := map[];
    assert none - {CredentialKey("7")} == map[];
    var left := LeaveGroups(First(p) - {UserKey("7")}, "7", 2);
    assert left == map[OuKey("ou") := OU, GroupKey("team") := TEAM];
  }

  lemma HireAgainCommits(p: Profile)
    ensures Commit(Store(Second(), map[], 2, 0), HireAgain(p)) == Some(Store(Third(p), Password(), 3, 1))
    ensures RacingCreate(Store(Second(), map[], 2, 0), HireAgain(p))
  {
  }

  function Rehired(p: Profile): System { System(NewSide(Third(p), 3), NewSide(Password(), 1), Idle) }

  lemma LeadsRehired(p: Profile)
    ensures Leads(EmptySystem(), Rehired(p), 2)
  {
    HireCommits(p);
    LeaveCommits(p);
    HireAgainCommits(p);
    hide Leads, Commit, SideStep, First, Second, Third;
    var empty := NewSide(map[], 0);
    LeadsNowhere(EmptySystem(), 2);
    LeadsStep(EmptySystem(), EmptySystem(), Write(Hire(p)), 2);
    LeadsStep(EmptySystem(), System(NewSide(First(p), 1), empty, Idle), Write(DeleteUser("7")), 2);
    LeadsStep(EmptySystem(), System(NewSide(Second(), 2), empty, Idle), Write(HireAgain(p)), 2);
  }

  // ----- The pages -----

  lemma OuGrounded(p: Profile)
    ensures Dn.Grounded(UnitsOf(Third(p)), "ou")
  {
    var t := Third(p);
    assert t[OuKey("ou")] == OU;
    assert Dn.Reaches(UnitsOf(t), "ou", 0);
  }

  lemma ThirdPending(p: Profile)
    ensures Pending(Third(p), 0) == {1, 2, 3} && Between(Third(p), 0, 2) == Second()
  {
    var t := Third(p);
    assert t[OuKey("ou")].revision == 1 && t[GroupKey("team")].revision == 2 && t[UserKey("7")].revision == 3;
  }

  lemma FirstPage(s: Side, p: Profile)
    requires s.tables == Third(p) && s.file == 0
    ensures NextCut(s, 2) == 2 && NextPage(s, 2) == Second()
  {
    ThirdPending(p);
    hide Third, Second, Pending, Between;
    assert Below({1, 2, 3}, 2) == {1} && Below({1, 2, 3}, 3) == {1, 2};
    CutReaches({1, 2, 3}, 2, 2);
    CutReaches({1, 2, 3}, 2, 3);
    assert 2 in {1, 2, 3};
  }

  lemma FirstPageWorks(p: Profile)
    ensures Executable(Second()) && Answerable(Directory, Third(p), Second())
    ensures Employee("7") in Planned(Second()) && Planned(Second())[Employee("7")] == Exact(TOMBSTONE)
  {
    OuGrounded(p);
    var page := Second();
    assert OuKey("ou") in page && TombstoneKey("7") in page;
    assert SubjectOf(TombstoneKey("7")) in Subjects(page);
    assert forall id | id in Involved(page) :: id == "ou";
  }

  lemma SecondPage(s: Side, p: Profile)
    requires s.tables == Third(p) && s.file == 2 && p.organizationalUnitId == "ou"
    ensures NextCut(s, 2) == 3 && Executable(NextPage(s, 2)) && CanAnswer(Directory, s, 2)
  {
    var t := Third(p);
    assert t[UserKey("7")].revision == 3;
    assert Pending(t, 2) == {3};
    assert CutAt({3}, 2) == 3;
    OuGrounded(p);
    var page := NextPage(s, 2);
    assert UserKey("7") in page;
    assert page == map[UserKey("7") := UserRow(p, 3)];
    assert forall id | id in Involved(page) :: id == "ou";
  }

  // ----- The passes -----

  /** Two undisturbed passes confirm everything. */
  lemma TwoRuns(p: Profile)
    requires p.organizationalUnitId == "ou"
    ensures var d := QuietRuns(Directory, Rehired(p).directory, 2, 2); d.tables == Third(p) && d.file == d.applied == 3
  {
    var d0 := Rehired(p).directory;
    RehiredValid(p);
    FirstPage(d0, p);
    FirstPageWorks(p);
    hide Valid, QuietRun, Executable, NextPage, NextCut, Answerable;
    QuietRunEffect(Directory, d0, 2);
    QuietRunKeepsValid(Directory, d0, 2);
    var d1 := QuietRun(Directory, d0, 2);
    SecondPage(d1, p);
    QuietRunEffect(Directory, d1, 2);
    assert QuietRuns(Directory, d1, 2, 1) == QuietRuns(Directory, QuietRun(Directory, d1, 2), 2, 0);
  }

  lemma RehiredValid(p: Profile)
    ensures SystemValid(Rehired(p))
  {
    LeadsRehired(p);
    EmptyInitial();
    hide Leads, Valid, Initial;
    LeadsValid(EmptySystem(), Rehired(p), 2);
  }

  ghost function Confirmed(p: Profile): System { QuietPasses(Rehired(p), 2, 2) }

  function Forget(sys: System): System {
    sys.(directory := sys.directory.(file := 0), credential := sys.credential.(file := 0))
  }

  lemma LeadsForget(start: System, sys: System, limit: nat)
    requires Leads(start, sys, limit)
    ensures Leads(start, Forget(sys), limit)
  {
    hide Leads, SideStep, Commit;
    LeadsStep(start, sys, LoseStateFile, limit);
  }

  /** An old page executed again. */
  lemma ThirdRun(d: Side, p: Profile)
    requires Valid(Directory, d) && d.tables == Third(p) && d.file == 0 && d.applied == 3
    ensures var d' := QuietRun(Directory, d, 2);
            && Employee("7") in d'.mirror && d'.mirror[Employee("7")] == Exact(TOMBSTONE)
            && d'.tables == Third(p) && d'.applied == 3 && d'.file == 0
  {
    FirstPage(d, p);
    FirstPageWorks(p);
    hide Valid, QuietRun, Executable, NextPage, NextCut, Answerable, Planned;
    QuietRunEffect(Directory, d, 2);
  }

  /**
   Hired, deleted, created again over the tombstone; two passes confirm everything; the state file
   is lost, and the next pass retires the employee although the domain's watermark covers the
   newer user row.  Every state is reached by a run from an empty domain.
   */
  lemma LeftoverTombstoneRetires(p: Profile)
    requires p.organizationalUnitId == "ou"
    ensures Initial(EmptySystem()) && Leads(EmptySystem(), Confirmed(p), 2)
    ensures Confirmed(p).directory.applied == Confirmed(p).directory.file == 3
    ensures var sys := QuietPass(Forget(Confirmed(p)), 2);
            && Leads(EmptySystem(), sys, 2)
            && Governs(sys.directory.tables, UserKey("7"))
               && sys.directory.tables[UserKey("7")].revision <= sys.directory.applied
            && Employee("7") in sys.directory.mirror && sys.directory.mirror[Employee("7")] == Exact(TOMBSTONE)
  {
    hide Valid, Leads, QuietRuns, QuietRun, Initial;
    EmptyInitial();
    LeadsRehired(p);
    RehiredValid(p);
    QuietPassesAreRuns(Rehired(p), 2, 2);
    TwoRuns(p);
    LeadsTransitive(EmptySystem(), Rehired(p), Confirmed(p), 2);
    LeadsForget(EmptySystem(), Confirmed(p), 2);
    LeadsLastPass(EmptySystem(), Forget(Confirmed(p)));
    ThirdRun(Forget(Confirmed(p)).directory, p);
    UserGoverns(QuietPass(Forget(Confirmed(p)), 2).directory, p);
  }

  lemma UserGoverns(d: Side, p: Profile)
    requires d.tables == Third(p)
    ensures Governs(d.tables, UserKey("7")) && d.tables[UserKey("7")].revision == 3
  {
  }

  lemma LeadsLastPass(start: System, sys: System)
    requires Initial(start) && Leads(start, sys, 2) && sys.turn.Idle?
    ensures SystemValid(sys) && Leads(start, QuietPass(sys, 2), 2)
    ensures QuietPass(sys, 2).directory == QuietRun(Directory, sys.directory, 2)
  {
    hide Valid, Leads, QuietPass, Initial;
    LeadsValid(start, sys, 2);
    QuietPassIsRun(sys, 2);
    QuietPassKeepsValid(sys, 2);
    LeadsTransitive(start, sys, QuietPass(sys, 2), 2);
  }
}
