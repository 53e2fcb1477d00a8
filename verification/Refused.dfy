/** Two runs after which a retried batch is refused, for good. */
module Refused {
  import opened Store
  import opened Cut
  import opened Sync
  import opened Paging
  import opened Quiet
  import opened Reach
  import opened Retry
  import Dn

  /** The saved watermark is behind, and no undisturbed run will ever bring it back. */
  ghost predicate Stranded(s: Side, limit: nat) {
    && s.file < s.applied
    && !GuardAccepts(s, NextCut(s, limit))
    && !WillCatchUp(Directory, s, limit)
  }

  lemma CutBelowStrands(s: Side, limit: nat)
    requires s.file < s.applied && Pending(s.tables, s.file) != {} && NextCut(s, limit) < s.applied
    ensures Stranded(s, limit)
  {
  }

  lemma RootsGrounded(units: Dn.Ous, id: string)
    requires id in units && units[id].parentId.None?
    ensures Dn.Grounded(units, id)
  {
    assert Dn.Reaches(units, id, 0);
  }

  // ----- An OU deletion between the crash and the retry -----

  const A: Row := OuRow("a", None, 1)
  const B: Row := OuRow("b", None, 2)

  function TwoUnits(): Tables { map[OuKey("a") := A, OuKey("b") := B] }

  function TwoUnitSystem(): System { System(NewSide(TwoUnits(), 2), NewSide(map[], 0), Idle) }

  lemma TwoUnitsMove(limit: nat)
    requires limit >= 2
    ensures NextCut(TwoUnitSystem().directory, limit) == 2 && Moves(Directory, TwoUnitSystem().directory, limit)
  {
    var t := TwoUnits();
    assert t[OuKey("a")].revision == 1 && t[OuKey("b")].revision == 2;
    assert Pending(t, 0) == {1, 2};
    assert Below({1, 2}, 2) == {1};
    CutReaches({1, 2}, limit, 2);
    assert CutAt({1, 2}, limit) == 2 by { assert 2 in {1, 2}; }
    assert Between(t, 0, 2) == t;
    TwoUnitsAnswerable();
    hide Answerable, UnitsOf, Involved;
    assert OuKey("a") in t;
  }

  lemma TwoUnitsAnswerable()
    ensures Answerable(Directory, TwoUnits(), TwoUnits())
  {
    var t := TwoUnits();
    assert OuKey("a") in t && OuKey("b") in t;
    assert Involved(t) == {"a", "b"};
    RootsGrounded(UnitsOf(t), "a");
    RootsGrounded(UnitsOf(t), "b");
  }

  function OneUnit(): Tables { map[OuKey("a") := A] }

  lemma OneUnitLeft(sys: System, limit: nat)
    requires sys.directory.tables == TwoUnits() && sys.directory.revision == 2
    ensures Run(sys, WriteAll([DeleteOu("b")]), limit) ==
            sys.(directory := sys.directory.(tables := OneUnit(), revision := 3))
  {
    var actions := WriteAll([DeleteOu("b")]);
    assert actions == [Write(DeleteOu("b"))] && actions[..0] == [];
    assert Run(sys, [], limit) == sys;
    LastStep(sys, actions, limit);
    hide Run, SideStep;
    var t := TwoUnits();
    assert t - {OuKey("b")} == OneUnit();
    assert !OuInUse(t, "b");
  }

  lemma OneUnitPending(s: Side, limit: nat)
    requires s.tables == OneUnit() && s.file == 0 && s.applied == 2
    ensures Stranded(s, limit)
  {
    assert s.tables[OuKey("a")].revision == 1;
    assert Pending(s.tables, 0) == {1};
    CutBelowStrands(s, limit);
  }

  /** For every limit above one: accepted, crashed, an OU deleted, and the retry is refused. */
  lemma OuDeletionBlocksRetry(limit: nat)
    requires limit >= 2
    ensures Initial(TwoUnitSystem()) && Moves(Directory, TwoUnitSystem().directory, limit)
    ensures var sys := Run(CrashedAt(TwoUnitSystem(), limit), WriteAll([DeleteOu("b")]), limit);
            Leads(TwoUnitSystem(), sys, limit) && Stranded(sys.directory, limit)
  {
    var start := TwoUnitSystem();
    TwoUnitsMove(limit);
    LeadsNowhere(start, limit);
    LeadsValid(start, start, limit);
    hide Leads, Moves, Stranded, NextCut, NextPage, Planned, Run;
    LeadsCrashedAt(start, limit);
    LeadsRun(start, CrashedAt(start, limit), WriteAll([DeleteOu("b")]), limit);
    OneUnitLeft(CrashedAt(start, limit), limit);
    OneUnitPending(Run(CrashedAt(start, limit), WriteAll([DeleteOu("b")]), limit).directory, limit);
  }

  // ----- Commits between the revision queries of the first read -----

  function Hired(profile: Profile): Tables { map[OuKey("a") := A, UserKey("7") := UserRow(profile, 2)] }

  const HIRE_UNIT: WriteOp := Upsert([OuInput("a", "a", None)], [], [])
  function Hire(profile: Profile): WriteOp { Upsert([], [UserInput("7", profile)], []) }

  /** The OUs are asked before both commits, everything else after them. */
  function HalfAsked(): System {
    System(NewSide(map[], 0).(progress := Revising(0, 0, {}, 1)), NewSide(map[], 0), ReadingDirectory)
  }

  lemma FirstQueries(limit: nat)
    ensures var d := NewSide(map[], 0);
            var checked, started := d.(progress := Checked(0)), d.(progress := Revising(0, 0, {}, 0));
            && SideStep(Directory, d, AskDomain, limit) == checked
            && SideStep(Directory, checked, AskServer, limit) == started
            && SideStep(Directory, started, AskRevisions, limit) == HalfAsked().directory
  {
    var none: set<nat> := {};
    assert none + RevisionsOf(map[], OuTable, 0) == none;
  }

  lemma LeadsHalfAsked(limit: nat)
    ensures Leads(EmptySystem(), HalfAsked(), limit)
  {
    var sys, d := EmptySystem(), NewSide(map[], 0);
    FirstQueries(limit);
    hide Leads, Next, SideStep;
    var m := System(d, d, ReadingDirectory);
    LeadsStart(sys, limit);
    LeadsSideStep(sys, m, Directory, AskDomain, limit);
    LeadsSideStep(sys, m.(directory := d.(progress := Checked(0))), Directory, AskServer, limit);
    LeadsSideStep(sys, m.(directory := d.(progress := Revising(0, 0, {}, 0))), Directory, AskRevisions, limit);
  }

  lemma CommitsHire(profile: Profile)
    ensures Commit(Store(map[], map[], 0, 0), HIRE_UNIT) == Some(Store(map[OuKey("a") := A], map[], 1, 0))
    ensures Commit(Store(map[OuKey("a") := A], map[], 1, 0), Hire(profile)) == Some(Store(Hired(profile), map[], 2, 0))
  {
    var ou, user := OuInput("a", "a", None), UserInput("7", profile);
    assert [ou][..0] == [] && [user][..0] == [];
    assert PutOus(map[], [], 1) == map[];
    var t: Tables := map[OuKey("a") := A];
    assert PutUsers(t, [], 2) == Some(t);
    assert t - {TombstoneKey("7"), UserKey("7")} == t;
  }

  function Written(profile: Profile): System {
    HalfAsked().(directory := HalfAsked().directory.(tables := Hired(profile), revision := 2))
  }

  lemma LeadsWritten(profile: Profile, limit: nat)
    ensures Leads(EmptySystem(), Written(profile), limit)
  {
    var sys, m := EmptySystem(), HalfAsked();
    LeadsHalfAsked(limit);
    CommitsHire(profile);
    hide Leads, SideStep, Commit;
    LeadsStep(sys, m, Write(HIRE_UNIT), limit);
    LeadsStep(sys, m.(directory := m.directory.(tables := map[OuKey("a") := A], revision := 1)), Write(Hire(profile)),
      limit);
  }

  lemma HiredQueries(profile: Profile)
    ensures RevisionsOf(Hired(profile), UserTable, 0) == {2}
    ensures RevisionsOf(Hired(profile), GroupTable, 0) == {} && RevisionsOf(Hired(profile), TombstoneTable, 0) == {}
  {
    assert Hired(profile)[UserKey("7")].revision == 2;
  }

  lemma HiredAsked(profile: Profile)
    ensures QueryAllRevisions(Directory, Written(profile).directory) ==
            Written(profile).directory.(progress := Revising(0, 0, {2}, 4))
  {
    HiredQueries(profile);
    hide RevisionsOf;
    var d := Written(profile).directory;
    var d2 := d.(progress := Revising(0, 0, {2}, 2));
    var d3 := d.(progress := Revising(0, 0, {2}, 3));
    var d4 := d.(progress := Revising(0, 0, {2}, 4));
    assert {} + {2} == {2} + {} == {2};
    assert QueryRevisions(Directory, d) == d2;
    assert QueryRevisions(Directory, d2) == d3;
    assert QueryRevisions(Directory, d3) == d4;
    assert QueryAllRevisions(Directory, d4) == d4;
    assert QueryAllRevisions(Directory, d3) == d4;
    assert QueryAllRevisions(Directory, d2) == d4;
  }

  /** The cut is the user's revision, because the OU's was never counted. */
  function Chosen(profile: Profile): Side {
    Written(profile).directory.(progress := Fetching(0, 0, 2, map[], 0, map[]))
  }

  lemma LeadsChosen(profile: Profile)
    ensures Leads(EmptySystem(), Written(profile).(directory := Chosen(profile)), 1)
  {
    LeadsWritten(profile, 1);
    HiredAsked(profile);
    HiredChosen(profile);
    hide Leads, Next, QueryAllRevisions, SideStep;
    var m := Written(profile);
    LeadsQueryAll(EmptySystem(), m, Directory, 1);
    LeadsSideStep(EmptySystem(), m.(directory := m.directory.(progress := Revising(0, 0, {2}, 4))), Directory,
      ChooseCut, 1);
  }

  lemma HiredChosen(profile: Profile)
    ensures SideStep(Directory, Written(profile).directory.(progress := Revising(0, 0, {2}, 4)), ChooseCut, 1) ==
            Chosen(profile)
  {
    assert CutAt({2}, 1) == 2;
  }

  ghost function Answer(profile: Profile): Side { NameAll(FetchAllRows(Directory, Chosen(profile))) }

  lemma HiredFetched(profile: Profile)
    ensures FetchAllRows(Directory, Chosen(profile)) ==
            Chosen(profile).(progress := Fetching(0, 0, 2, Hired(profile), 4, map[]))
  {
    var d, t := Chosen(profile), Hired(profile);
    assert RowTables(Directory)[..0] == [];
    assert RowsAmong(t, [], 0, 2) == map[];
    AllRows(Directory, d);
    forall k | k in t ensures k.InTable() in RowTables(Directory) {
      EveryTableQueried(Directory, k);
    }
    assert RowsAmong(t, RowTables(Directory), 0, 2) == t;
  }

  /** The answered batch holds both rows and will be accepted at revision 2. */
  lemma HiredAnswered(profile: Profile)
    requires profile.organizationalUnitId == "a"
    ensures Acceptable(Answer(profile))
    ensures var d := Answer(profile);
            d == Chosen(profile).(progress := Fetching(0, 0, 2, Hired(profile), 4, d.progress.units))
  {
    var t, fetched := Hired(profile), Chosen(profile).(progress := Fetching(0, 0, 2, Hired(profile), 4, map[]));
    HiredFetched(profile);
    assert OuKey("a") in t && UserKey("7") in t;
    assert Involved(t) == {"a"};
    RootsGrounded(UnitsOf(t), "a");
    assert Executable(t);
    hide UnitsOf, Involved, Named, FetchAllRows, Executable;
    NameAllExactly(fetched);
  }

  lemma HiredPending(s: Side, profile: Profile)
    requires s.tables == Hired(profile) && s.file == 0 && s.applied == 2
    ensures Stranded(s, 1)
  {
    var t := Hired(profile);
    assert t[OuKey("a")].revision == 1 && t[UserKey("7")].revision == 2;
    assert Pending(t, 0) == {1, 2};
    assert CutAt({1, 2}, 1) == 1;
    CutBelowStrands(s, 1);
  }

  ghost function Interleaved(profile: Profile): System {
    System(Chosen(profile).(applied := 2, claims := {2}, mirror := Planned(Hired(profile)), progress := Closed),
           NewSide(map[], 0), Idle)
  }

  /**
   With a limit of one and nothing ever deleted: commits between the revision queries of the first
   read let its cut run ahead of the snapshot's, so that the retry from the old watermark is refused.
   */
  lemma InterleavedReadBlocksRetry(profile: Profile)
    requires profile.organizationalUnitId == "a"
    ensures Initial(EmptySystem()) && Leads(EmptySystem(), Interleaved(profile), 1)
    ensures var d := Interleaved(profile).directory;
            && Stranded(d, 1)
            && UserKey("7") in d.tables && d.tables[UserKey("7")].revision >= d.applied
  {
    LeadsAnswer(profile);
    HiredAnswered(profile);
    HiredPending(Interleaved(profile).directory, profile);
    EmptyInitial();
    InterleavedUnsaved(profile);
    hide Leads, Answer, Acceptable, Planned, Stranded, Valid, Initial, Unsaved;
    LeadsUnsaved(EmptySystem(), Written(profile).(directory := Answer(profile)), NewSide(map[], 0), 1);
  }

  lemma InterleavedUnsaved(profile: Profile)
    requires profile.organizationalUnitId == "a"
    ensures Answer(profile).progress.Fetching? && Unsaved(Answer(profile)) == Interleaved(profile).directory
  {
    HiredAnswered(profile);
    hide Answer, Acceptable, Planned;
    var nothing: Mirror := map[];
    assert nothing + Planned(Hired(profile)) == Planned(Hired(profile));
  }

  lemma LeadsAnswer(profile: Profile)
    ensures Leads(EmptySystem(), Written(profile).(directory := Answer(profile)), 1)
  {
    LeadsChosen(profile);
    hide Leads, FetchAllRows, NameAll;
    LeadsFetchAll(EmptySystem(), Written(profile).(directory := Chosen(profile)), Directory, 1);
    LeadsNameAll(EmptySystem(), Written(profile).(directory := FetchAllRows(Directory, Chosen(profile))), 1);
  }
}
