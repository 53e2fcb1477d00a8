/** Runs that nothing disturbs: what they read, what they change, and when they catch up. */
module Quiet {
  import opened Store
  import opened Cut
  import opened Sync
  import opened Paging
  import Dn

  // ----- A sync request that no commit interrupts -----

  /** The remaining revision queries, one after the other. */
  function QueryAllRevisions(ch: Channel, s: Side): Side
    decreases if s.progress.Revising? then |RevisionTables(ch)| - s.progress.next else 0
  {
    if s.progress.Revising? && s.progress.next < |RevisionTables(ch)|
    then QueryAllRevisions(ch, QueryRevisions(ch, s))
    else s
  }

  /** The remaining row queries, one after the other. */
  function FetchAllRows(ch: Channel, s: Side): Side
    decreases if s.progress.Fetching? then |RowTables(ch)| - s.progress.next else 0
  {
    if s.progress.Fetching? && s.progress.next < |RowTables(ch)|
    then FetchAllRows(ch, FetchRows(ch, s))
    else s
  }

  ghost predicate CanLookUp(s: Side, id: string) {
    Wants(s, id) && id in UnitsOf(s.tables)
  }

  /** The OUs that the DN builder has not looked up. */
  function Unknown(s: Side): set<string> {
    UnitsOf(s.tables).Keys - if s.progress.Fetching? then s.progress.units.Keys else {}
  }

  lemma LookUpShrinks(s: Side, id: string)
    requires CanLookUp(s, id)
    ensures Unknown(LookUpUnit(s, id)) < Unknown(s)
  {
    hide UnitsOf, Involved;
    assert id in Unknown(s) && id !in Unknown(LookUpUnit(s, id));
  }

  /** The lookups of the DN builder, until every OU it still needs is missing. */
  ghost function NameAll(s: Side): Side
    decreases Unknown(s)
  {
    if exists id: string :: CanLookUp(s, id) then
      var id: string :| CanLookUp(s, id);
      LookUpShrinks(s, id);
      NameAll(LookUpUnit(s, id))
    else s
  }

  /** All the reading steps of one channel, one after the other. */
  ghost function ReadAll(ch: Channel, s: Side, limit: nat): Side {
    var fetched := FetchAllRows(ch, CutBatch(ch, QueryAllRevisions(ch, ReadServer(CheckDomain(Load(s)))), limit));
    if ch.Directory? then NameAll(fetched) else fetched
  }

  function RevisionsAmong(t: Tables, tables: seq<Table>, threshold: nat): set<nat> {
    set k | k in t && k.InTable() in tables && t[k].revision > threshold :: t[k].revision
  }

  function RowsAmong(t: Tables, tables: seq<Table>, threshold: nat, cut: nat): Tables {
    map k | k in t && k.InTable() in tables && threshold < t[k].revision <= cut :: t[k]
  }

  lemma {:induction false} AllRevisions(ch: Channel, s: Side)
    requires s.progress.Revising? && s.progress.next <= |RevisionTables(ch)|
    requires s.progress.seen == RevisionsAmong(s.tables, RevisionTables(ch)[..s.progress.next], s.progress.threshold)
    ensures QueryAllRevisions(ch, s) ==
            s.(progress := s.progress.(seen := RevisionsAmong(s.tables, RevisionTables(ch), s.progress.threshold),
                                       next := |RevisionTables(ch)|))
    decreases |RevisionTables(ch)| - s.progress.next
  {
    var p, tables := s.progress, RevisionTables(ch);
    assert tables[..|tables|] == tables;
    if p.next < |tables| {
      var s' := QueryRevisions(ch, s);
      assert tables[..p.next + 1] == tables[..p.next] + [tables[p.next]];
      assert s'.progress.seen == RevisionsAmong(s.tables, tables[..p.next + 1], p.threshold);
      AllRevisions(ch, s');
    }
  }

  lemma RowsAmongGrows(t: Tables, tables: seq<Table>, i: nat, threshold: nat, cut: nat)
    requires i < |tables|
    ensures RowsAmong(t, tables[..i], threshold, cut) + RowsOf(t, tables[i], threshold, cut)
         == RowsAmong(t, tables[..i + 1], threshold, cut)
  {
    assert tables[..i + 1] == tables[..i] + [tables[i]];
  }

  lemma {:induction false} AllRows(ch: Channel, s: Side)
    requires s.progress.Fetching? && s.progress.next <= |RowTables(ch)|
    requires s.progress.got == RowsAmong(s.tables, RowTables(ch)[..s.progress.next], s.progress.threshold,
             s.progress.cut)
    ensures FetchAllRows(ch, s) ==
            s.(progress := s.progress.(got := RowsAmong(s.tables, RowTables(ch), s.progress.threshold, s.progress.cut),
                                       next := |RowTables(ch)|))
    decreases |RowTables(ch)| - s.progress.next
  {
    hide RowsAmong, RowsOf;
    var p, tables := s.progress, RowTables(ch);
    assert tables[..|tables|] == tables;
    if p.next < |tables| {
      var s' := FetchRows(ch, s);
      RowsAmongGrows(s.tables, tables, p.next, p.threshold, p.cut);
      assert s'.progress.got == RowsAmong(s.tables, tables[..p.next + 1], p.threshold, p.cut);
      AllRows(ch, s');
    }
  }

  lemma AmongAll(ch: Channel, s: Side, threshold: nat, cut: nat)
    requires TablesValid(ch, s)
    ensures RevisionsAmong(s.tables, RevisionTables(ch), threshold) == Pending(s.tables, threshold)
    ensures RowsAmong(s.tables, RowTables(ch), threshold, cut) == Between(s.tables, threshold, cut)
  {
    forall k | k in s.tables ensures k.InTable() in RevisionTables(ch) && k.InTable() in RowTables(ch) {
      EveryTableQueried(ch, k);
    }
  }

  // ----- The DNs of an uninterrupted request -----

  /** Every OU that a directory batch involves has a complete chain of parents in the tables. */
  ghost predicate Answerable(ch: Channel, t: Tables, got: Tables) {
    ch.Directory? ==> forall id | id in Involved(got) :: Dn.Grounded(UnitsOf(t), id)
  }

  /** What the DN builder knows is right, and whatever it asks for belongs to an involved OU's chain. */
  ghost predicate NamingValid(s: Side)
    requires s.progress.Fetching?
  {
    && Dn.PartOf(s.progress.units, UnitsOf(s.tables))
    && (Answerable(Directory, s.tables, s.progress.got) ==>
          forall id | id in s.progress.units :: Dn.Grounded(UnitsOf(s.tables), id))
  }

  /** A parent of a grounded OU is grounded. */
  lemma ParentGrounded(units: Dn.Ous, id: string)
    requires Dn.Grounded(units, id) && units[id].parentId.Some?
    ensures Dn.Grounded(units, units[id].parentId.value)
  {
    var n: nat :| Dn.Reaches(units, id, n);
    assert Dn.Reaches(units, units[id].parentId.value, n - 1);
  }

  lemma NeededGrounded(s: Side, id: string)
    requires s.progress.Fetching? && NamingValid(s) && Answerable(Directory, s.tables, s.progress.got)
    requires id in Needed(s.progress.got, s.progress.units)
    ensures Dn.Grounded(UnitsOf(s.tables), id) && id in UnitsOf(s.tables)
  {
    hide UnitsOf, Involved;
    if id !in Involved(s.progress.got) {
      var child :| child in s.progress.units && s.progress.units[child].parentId == Some(id);
      ParentGrounded(UnitsOf(s.tables), child);
    }
  }

  /** Knowing part of the tables' OUs suffices only if the batch is answerable. */
  lemma NamedAnswerable(s: Side)
    requires s.progress.Fetching? && NamingValid(s) && Named(s.progress.got, s.progress.units)
    ensures Answerable(Directory, s.tables, s.progress.got)
  {
    hide UnitsOf, Involved;
    forall id | id in Involved(s.progress.got) ensures Dn.Grounded(UnitsOf(s.tables), id) {
      Dn.HasChainExactly(s.progress.units, id);
      var n: nat :| Dn.Reaches(s.progress.units, id, n);
      Dn.ReachesInWhole(s.progress.units, UnitsOf(s.tables), id, n);
    }
  }

  /** With nothing left to look up, an answerable batch has its DNs. */
  lemma AnswerableNamed(s: Side)
    requires s.progress.Fetching? && NamingValid(s) && Answerable(Directory, s.tables, s.progress.got)
    requires forall id | id in Needed(s.progress.got, s.progress.units) :: id !in UnitsOf(s.tables)
    ensures Named(s.progress.got, s.progress.units)
  {
    hide UnitsOf, Involved;
    var units, got := s.progress.units, s.progress.got;
    forall id | id in Needed(got, units) ensures false {
      NeededGrounded(s, id);
    }
    forall id | id in Involved(got) ensures Dn.HasChain(units, id, {}) {
      assert id in units;
      var n: nat :| Dn.Reaches(UnitsOf(s.tables), id, n);
      forall x | x in units && units[x].parentId.Some? ensures units[x].parentId.value in units {
        assert units[x].parentId.value !in Needed(got, units);
      }
      Dn.ReachesInPart(units, UnitsOf(s.tables), id, n);
      Dn.HasChainExactly(units, id);
    }
  }

  lemma LookUpNamingValid(s: Side, id: string)
    requires s.progress.Fetching? && NamingValid(s) && CanLookUp(s, id)
    ensures LookUpUnit(s, id).progress.Fetching? && NamingValid(LookUpUnit(s, id))
  {
    hide UnitsOf, Needed;
    if Answerable(Directory, s.tables, s.progress.got) {
      NeededGrounded(s, id);
    }
  }

  /** Whatever the order of the lookups, they end with all DNs exactly when the batch is answerable. */
  lemma {:induction false} NameAllExactly(s: Side)
    requires Fetched(Directory, s) && NamingValid(s)
    ensures var s' := NameAll(s);
            && s'.progress.Fetching?
            && s' == s.(progress := s.progress.(units := s'.progress.units))
            && (Ready(Directory, s') <==> Answerable(Directory, s.tables, s.progress.got))
    decreases Unknown(s)
  {
    hide Named, UnitsOf, Needed, NamingValid, Answerable, Unknown;
    if exists id: string :: CanLookUp(s, id) {
      var id: string :| CanLookUp(s, id) && NameAll(s) == NameAll(LookUpUnit(s, id));
      LookUpShrinks(s, id);
      LookUpNamingValid(s, id);
      NameAllExactly(LookUpUnit(s, id));
    } else {
      assert forall id | id in Needed(s.progress.got, s.progress.units) :: Wants(s, id) && !CanLookUp(s, id);
      if Answerable(Directory, s.tables, s.progress.got) {
        AnswerableNamed(s);
      }
      if Named(s.progress.got, s.progress.units) {
        NamedAnswerable(s);
      }
    }
  }

  // ----- The whole request -----

  /** The revision and the rows that the next undisturbed request answers, if it answers. */
  function NextCut(s: Side, limit: nat): nat {
    CutOr(Pending(s.tables, s.file), s.revision, limit)
  }

  function NextPage(s: Side, limit: nat): Tables {
    Between(s.tables, s.file, NextCut(s, limit))
  }

  ghost predicate CanAnswer(ch: Channel, s: Side, limit: nat) {
    Answerable(ch, s.tables, NextPage(s, limit))
  }

  /** Without interruption the cut is chosen from everything that is pending. */
  lemma ChosenFromSnapshot(ch: Channel, s: Side, limit: nat)
    requires Valid(ch, s)
    ensures CutBatch(ch, QueryAllRevisions(ch, ReadServer(CheckDomain(Load(s)))), limit) ==
            Load(s).(progress := Fetching(s.file, s.revision, NextCut(s, limit), map[], 0, map[]))
  {
    var started := ReadServer(CheckDomain(Load(s)));
    AllRevisions(ch, started);
    AmongAll(ch, s, s.file, 0);
  }

  lemma FetchAllIsSnapshot(ch: Channel, s: Side, limit: nat)
    requires Valid(ch, s)
    ensures FetchAllRows(ch, CutBatch(ch, QueryAllRevisions(ch, ReadServer(CheckDomain(Load(s)))), limit)) ==
            Load(s).(progress := Fetching(s.file, s.revision, NextCut(s, limit), NextPage(s, limit), |RowTables(ch)|,
              map[]))
  {
    ChosenFromSnapshot(ch, s, limit);
    AmongAll(ch, s, s.file, NextCut(s, limit));
    hide NextCut, QueryAllRevisions, CutBatch, Valid, FetchAllRows;
    var cutting := Load(s).(progress := Fetching(s.file, s.revision, NextCut(s, limit), map[], 0, map[]));
    assert RowsAmong(s.tables, RowTables(ch)[..0], s.file, NextCut(s, limit)) == map[];
    AllRows(ch, cutting);
  }

  /**
   Uninterrupted, the separate queries return one snapshot, cut as documented.  The request is
   answered exactly when every OU that the snapshot involves has a complete chain of parents.
   */
  lemma ReadAllIsSnapshot(ch: Channel, s: Side, limit: nat)
    requires Valid(ch, s)
    ensures var read := ReadAll(ch, s, limit);
            && read.progress.Fetching?
            && read == Load(s).(progress := Fetching(s.file, s.revision, NextCut(s, limit), NextPage(s, limit),
                                                     |RowTables(ch)|, read.progress.units))
            && (Ready(ch, read) <==> CanAnswer(ch, s, limit))
  {
    FetchAllIsSnapshot(ch, s, limit);
    hide NextCut, NextPage, Valid, FetchAllRows, Named, UnitsOf;
    if ch.Directory? {
      NameAllExactly(Load(s).(progress :=
        Fetching(s.file, s.revision, NextCut(s, limit), NextPage(s, limit), |RowTables(ch)|, map[])));
    }
  }

  // ----- One undisturbed run of a channel -----

  /** The rest of an undisturbed run, once the request is over. */
  function FinishRun(ch: Channel, read: Side): Side {
    if Ready(ch, read) && Executable(read.progress.got) then
      var heard := HearAccepted(SendConfirm(Succeed(ch, read)));
      if heard.progress.Accepted? then Abandon(heard.(file := heard.memory)) else Abandon(heard)
    else Abandon(read)
  }

  ghost function QuietRun(ch: Channel, s: Side, limit: nat): Side {
    FinishRun(ch, ReadAll(ch, s, limit))
  }

  /** The request is answered, its page can be executed, and the guard accepts its revision. */
  ghost predicate Moves(ch: Channel, s: Side, limit: nat) {
    CanAnswer(ch, s, limit) && Executable(NextPage(s, limit)) && NextCut(s, limit) >= s.applied
  }

  lemma PendingBounded(ch: Channel, s: Side, limit: nat)
    requires TablesValid(ch, s) && Pending(s.tables, s.file) != {}
    ensures s.file < CutAt(Pending(s.tables, s.file), limit) <= s.revision
  {
  }

  lemma PageEmptyWithoutPending(s: Side, limit: nat)
    requires Pending(s.tables, s.file) == {}
    ensures NextPage(s, limit) == map[]
  {
    assert forall k | k in s.tables ::
        s.tables[k].revision > s.file ==> s.tables[k].revision in Pending(s.tables, s.file);
  }

  lemma EmptyPageAnswered(s: Side, limit: nat)
    requires Pending(s.tables, s.file) == {}
    ensures CanAnswer(Directory, s, limit) && !Executable(NextPage(s, limit))
  {
    PageEmptyWithoutPending(s, limit);
  }

  lemma ExecutablePending(s: Side, limit: nat)
    requires Executable(NextPage(s, limit))
    ensures Pending(s.tables, s.file) != {}
  {
    if Pending(s.tables, s.file) == {} {
      PageEmptyWithoutPending(s, limit);
    }
  }

  lemma FinishExecutable(ch: Channel, read: Side)
    requires Ready(ch, read) && Executable(read.progress.got) && read.memory == read.file
    requires read.memory < read.progress.cut <= read.revision
    ensures var cut, s' := read.progress.cut, FinishRun(ch, read);
            if cut >= read.applied
            then s' == read.(mirror := read.mirror + Planned(read.progress.got), claims := read.claims + {cut},
                             applied := cut, memory := cut, file := cut, progress := Closed)
            else s' == read.(mirror := read.mirror + Planned(read.progress.got), claims := read.claims + {cut},
                             progress := Closed)
  {
    hide Planned, Named, Executable;
  }

  /**
   An undisturbed run either applies, confirms and saves the next page, or leaves both watermarks
   where they are: because the request fails, there is nothing to execute, or the guard refuses.
   */
  lemma QuietRunEffect(ch: Channel, s: Side, limit: nat)
    requires Valid(ch, s)
    ensures var s' := QuietRun(ch, s, limit);
            && s'.tables == s.tables && s'.revision == s.revision && s'.memory == s'.file && s'.progress.Closed?
            && (Moves(ch, s, limit) ==>
                  && Pending(s.tables, s.file) != {}
                  && s'.file == s'.applied == NextCut(s, limit)
                  && s'.mirror == s.mirror + Planned(NextPage(s, limit)))
            && (!Moves(ch, s, limit) ==>
                  && s'.file == s.file && s'.applied == s.applied
                  && s'.mirror == if CanAnswer(ch, s, limit) && Executable(NextPage(s, limit))
                                  then s.mirror + Planned(NextPage(s, limit)) else s.mirror)
  {
    ReadAllIsSnapshot(ch, s, limit);
    hide ReadAll, Planned, Between, Pending, CanAnswer, NextPage, Executable, Ready, FinishRun;
    var read := ReadAll(ch, s, limit);
    if CanAnswer(ch, s, limit) && Executable(NextPage(s, limit)) {
      ExecutablePending(s, limit);
      PendingBounded(ch, s, limit);
      FinishExecutable(ch, read);
    } else {
      FinishNothing(ch, read);
    }
  }

  lemma FinishNothing(ch: Channel, read: Side)
    requires read.progress.Fetching? && !(Ready(ch, read) && Executable(read.progress.got))
    ensures FinishRun(ch, read) == Abandon(read)
  {
  }

  lemma QuietRunKeepsValid(ch: Channel, s: Side, limit: nat)
    requires Valid(ch, s)
    ensures Valid(ch, QuietRun(ch, s, limit))
  {
    hide Valid, Executable, Ready;
    ReadAllKeeps(ch, s, limit);
    var read := ReadAll(ch, s, limit);
    ProgressKeeps(ch, read);
    SucceedKeeps(ch, read);
    var executed := Succeed(ch, read);
    ConfirmationKeeps(ch, executed, 0);
    ConfirmationKeeps(ch, SendConfirm(executed), 0);
    var heard := HearAccepted(SendConfirm(executed));
    FileKeeps(ch, heard);
    ProgressKeeps(ch, heard);
    ProgressKeeps(ch, heard.(file := heard.memory));
  }

  lemma ReadAllKeeps(ch: Channel, s: Side, limit: nat)
    requires Valid(ch, s)
    ensures Valid(ch, ReadAll(ch, s, limit))
  {
    hide Valid;
    FileKeeps(ch, s);
    ProgressKeeps(ch, Load(s));
    ProgressKeeps(ch, CheckDomain(Load(s)));
    var started := ReadServer(CheckDomain(Load(s)));
    QueryAllKeeps(ch, started);
    CutBatchKeeps(ch, QueryAllRevisions(ch, started), limit);
    FetchAllKeeps(ch, CutBatch(ch, QueryAllRevisions(ch, started), limit));
    NameAllKeeps(ch, FetchAllRows(ch, CutBatch(ch, QueryAllRevisions(ch, started), limit)));
  }

  lemma {:induction false} NameAllKeeps(ch: Channel, s: Side)
    requires Valid(ch, s)
    ensures Valid(ch, NameAll(s))
    decreases Unknown(s)
  {
    hide Valid;
    if exists id: string :: CanLookUp(s, id) {
      var id: string :| CanLookUp(s, id) && NameAll(s) == NameAll(LookUpUnit(s, id));
      LookUpShrinks(s, id);
      LookUpUnitKeeps(ch, s, id);
      NameAllKeeps(ch, LookUpUnit(s, id));
    }
  }

  lemma {:induction false} QueryAllKeeps(ch: Channel, s: Side)
    requires Valid(ch, s)
    ensures Valid(ch, QueryAllRevisions(ch, s))
    decreases if s.progress.Revising? then |RevisionTables(ch)| - s.progress.next else 0
  {
    hide Valid;
    if s.progress.Revising? && s.progress.next < |RevisionTables(ch)| {
      QueryRevisionsKeeps(ch, s);
      QueryAllKeeps(ch, QueryRevisions(ch, s));
    }
  }

  lemma {:induction false} FetchAllKeeps(ch: Channel, s: Side)
    requires Valid(ch, s)
    ensures Valid(ch, FetchAllRows(ch, s))
    decreases if s.progress.Fetching? then |RowTables(ch)| - s.progress.next else 0
  {
    hide Valid;
    if s.progress.Fetching? && s.progress.next < |RowTables(ch)| {
      FetchRowsKeeps(ch, s);
      FetchAllKeeps(ch, FetchRows(ch, s));
    }
  }

  // ----- Catching up -----

  ghost function QuietRuns(ch: Channel, s: Side, limit: nat, n: nat): Side
    decreases n
  {
    if n == 0 then s else QuietRuns(ch, QuietRun(ch, s, limit), limit, n - 1)
  }

  /**
   Every page on the way from `threshold` can be answered and executed, and the first one reaches
   the domain's watermark.
   */
  ghost predicate PagesWork(ch: Channel, t: Tables, threshold: nat, applied: nat, limit: nat)
    decreases Pending(t, threshold)
  {
    var pending := Pending(t, threshold);
    if pending == {} then true
    else
      var cut := CutAt(pending, limit);
      PendingAfterCut(t, threshold, cut);
      && cut >= applied
      && Answerable(ch, t, Between(t, threshold, cut))
      && Executable(Between(t, threshold, cut))
      && PagesWork(ch, t, cut, cut, limit)
  }

  ghost predicate WillCatchUp(ch: Channel, s: Side, limit: nat) {
    PagesWork(ch, s.tables, s.file, s.applied, limit)
  }

  /** Everything is mirrored and the saved watermark has nothing after it. */
  ghost predicate CaughtUp(s: Side) {
    && Pending(s.tables, s.file) == {}
    && Mirrored(s.tables, s.mirror, s.revision)
  }

  /** The same for every row that governs its subject, employees with both rows included. */
  ghost predicate FullyCaughtUp(s: Side) {
    && Pending(s.tables, s.file) == {}
    && GoverningMirrored(s.tables, s.mirror, s.revision)
  }

  lemma FullyCaughtUpWhenNothingPending(ch: Channel, s: Side)
    requires TablesValid(ch, s) && Pending(s.tables, s.file) == {} && SavedGoverned(s)
    ensures FullyCaughtUp(s)
  {
    assert forall k | k in s.tables ::
        s.tables[k].revision > s.file ==> s.tables[k].revision in Pending(s.tables, s.file);
  }

  /** What an undisturbed page plans for a row that it holds and that governs is that row. */
  lemma PagePlans(s: Side, limit: nat, k: Key)
    requires UserNewer(s.tables) && Governs(s.tables, k) && SubjectOf(k) in Subjects(NextPage(s, limit))
    ensures s.file < s.tables[k].revision
    ensures s.tables[k].revision <= NextCut(s, limit) ==>
              Planned(NextPage(s, limit))[SubjectOf(k)] == Exact(s.tables[k])
  {
    var page := NextPage(s, limit);
    DecidingKeyInBatch(page, SubjectOf(k));
    assert k.Twin().Twin() == k;
  }

  /** Executing the next page keeps what is saved, and mirrors everything up to its revision. */
  lemma PageGoverned(s: Side, limit: nat)
    requires SavedGoverned(s) && Pending(s.tables, s.file) != {}
    ensures GoverningMirrored(s.tables, s.mirror + Planned(NextPage(s, limit)), NextCut(s, limit))
    ensures GoverningMirrored(s.tables, s.mirror + Planned(NextPage(s, limit)), s.file)
  {
    var page, cut := NextPage(s, limit), NextCut(s, limit);
    var mirror' := s.mirror + Planned(page);
    assert cut > s.file;
    hide Planned, NextCut;
    forall k | Governs(s.tables, k) && s.tables[k].revision <= cut
      ensures SubjectOf(k) in mirror' && mirror'[SubjectOf(k)] == Exact(s.tables[k])
    {
      if SubjectOf(k) in Subjects(page) {
        PagePlans(s, limit, k);
      } else {
        assert k in page ==> SubjectOf(k) in Subjects(page);
      }
    }
  }

  lemma QuietRunKeepsSaved(ch: Channel, s: Side, limit: nat)
    requires Valid(ch, s) && SavedGoverned(s)
    ensures SavedGoverned(QuietRun(ch, s, limit))
  {
    QuietRunEffect(ch, s, limit);
    hide Valid, QuietRun, Planned, CanAnswer, NextPage, NextCut, Executable, UserNewer, GoverningMirrored;
    if Executable(NextPage(s, limit)) {
      ExecutablePending(s, limit);
      PageGoverned(s, limit);
    }
  }

  lemma {:induction false} QuietRunsKeepSaved(ch: Channel, s: Side, limit: nat, n: nat)
    requires Valid(ch, s) && SavedGoverned(s)
    ensures Valid(ch, QuietRuns(ch, s, limit, n)) && SavedGoverned(QuietRuns(ch, s, limit, n))
    decreases n
  {
    hide Valid, SavedGoverned, QuietRun;
    if n > 0 {
      QuietRunKeepsValid(ch, s, limit);
      QuietRunKeepsSaved(ch, s, limit);
      QuietRunsKeepSaved(ch, QuietRun(ch, s, limit), limit, n - 1);
    }
  }

  /** A channel that has caught up has caught up fully, if it started from a governed state. */
  lemma CaughtUpFully(ch: Channel, s: Side, limit: nat, n: nat)
    requires Valid(ch, s) && SavedGoverned(s)
    ensures CaughtUp(QuietRuns(ch, s, limit, n)) <==> FullyCaughtUp(QuietRuns(ch, s, limit, n))
  {
    QuietRunsKeepSaved(ch, s, limit, n);
    var s' := QuietRuns(ch, s, limit, n);
    hide QuietRuns, SavedGoverned;
    if Pending(s'.tables, s'.file) == {} {
      CaughtUpWhenNothingPending(ch, s');
      FullyCaughtUpWhenNothingPending(ch, s');
    }
  }

  lemma CaughtUpWhenNothingPending(ch: Channel, s: Side)
    requires Valid(ch, s) && Pending(s.tables, s.file) == {}
    ensures CaughtUp(s)
  {
    assert forall k | k in s.tables ::
        s.tables[k].revision > s.file ==> s.tables[k].revision in Pending(s.tables, s.file);
  }

  /** A run of a channel that will catch up works off one page and leaves a channel that will. */
  lemma ConvergingRun(ch: Channel, s: Side, limit: nat)
    requires Valid(ch, s) && WillCatchUp(ch, s, limit) && Pending(s.tables, s.file) != {}
    ensures var s' := QuietRun(ch, s, limit);
            && Valid(ch, s') && s'.tables == s.tables && WillCatchUp(ch, s', limit)
            && s'.file in Pending(s.tables, s.file)
            && RunsNeeded(|Pending(s.tables, s.file)|, limit) == 1 + RunsNeeded(|Pending(s.tables, s'.file)|, limit)
  {
    hide Valid, Between, Pending, Executable, Answerable;
    PendingCount(s.tables, s.file, limit);
    QuietRunEffect(ch, s, limit);
    QuietRunKeepsValid(ch, s, limit);
    hide QuietRun;
  }

  /** A run with nothing pending changes nothing that matters. */
  lemma IdleRun(ch: Channel, s: Side, limit: nat)
    requires Valid(ch, s) && Pending(s.tables, s.file) == {}
    ensures var s' := QuietRun(ch, s, limit); Valid(ch, s') && s'.tables == s.tables && s'.file == s.file
  {
    hide Valid, Between, Pending, Answerable, QuietRun;
    if Executable(NextPage(s, limit)) {
      ExecutablePending(s, limit);
    }
    QuietRunEffect(ch, s, limit);
    QuietRunKeepsValid(ch, s, limit);
  }

  lemma {:induction false} RunsConverge(ch: Channel, s: Side, limit: nat, n: nat)
    requires Valid(ch, s) && WillCatchUp(ch, s, limit) && n >= RunsNeeded(|Pending(s.tables, s.file)|, limit)
    ensures var s' := QuietRuns(ch, s, limit, n);
            && CaughtUp(s')
            && s'.tables == s.tables
            && (s'.file == s.file || s'.file in Pending(s.tables, s.file))
    decreases n
  {
    hide Valid, CaughtUp, WillCatchUp, QuietRun;
    if n == 0 {
      CaughtUpWhenNothingPending(ch, s);
    } else if Pending(s.tables, s.file) == {} {
      IdleRun(ch, s, limit);
      NothingPendingWorks(ch, QuietRun(ch, s, limit), limit);
      RunsConverge(ch, QuietRun(ch, s, limit), limit, n - 1);
    } else {
      ConvergingRun(ch, s, limit);
      var next := QuietRun(ch, s, limit);
      PendingAfterCut(s.tables, s.file, next.file);
      RunsConverge(ch, next, limit, n - 1);
    }
  }

  /**
   With Core quiet and everything succeeding, ceil(n / limit) runs, or more, catch up on n pending
   revisions when every page on the way can be answered and executed.
   Then everything is mirrored, and for a channel that had everything governed up to its saved
   watermark, employees with both rows too.
   */
  lemma Converges(ch: Channel, s: Side, limit: nat, n: nat)
    requires Valid(ch, s) && WillCatchUp(ch, s, limit) && n >= RunsNeeded(|Pending(s.tables, s.file)|, limit)
    ensures var s' := QuietRuns(ch, s, limit, n);
            && CaughtUp(s')
            && s'.tables == s.tables
            && (s'.file == s.file || s'.file in Pending(s.tables, s.file))
            && (SavedGoverned(s) ==> FullyCaughtUp(s'))
  {
    hide Valid, CaughtUp, WillCatchUp, QuietRuns, SavedGoverned, FullyCaughtUp, RunsNeeded;
    RunsConverge(ch, s, limit, n);
    if SavedGoverned(s) {
      CaughtUpFully(ch, s, limit, n);
    }
  }

  lemma NothingPendingWorks(ch: Channel, s: Side, limit: nat)
    requires Pending(s.tables, s.file) == {}
    ensures WillCatchUp(ch, s, limit)
  {
  }

  /** Otherwise no number of runs ever gets past the page that fails. */
  lemma {:induction false} StuckForever(ch: Channel, s: Side, limit: nat, n: nat)
    requires Valid(ch, s) && !WillCatchUp(ch, s, limit)
    ensures Pending(QuietRuns(ch, s, limit, n).tables, QuietRuns(ch, s, limit, n).file) != {}
    decreases n
  {
    hide Valid, Executable, Between, Pending, Answerable;
    if n > 0 {
      QuietRunEffect(ch, s, limit);
      QuietRunKeepsValid(ch, s, limit);
      hide QuietRun;
      StuckForever(ch, QuietRun(ch, s, limit), limit, n - 1);
    }
  }

  /** A channel catches up, sooner or later, if and only if every page on the way works. */
  lemma CatchesUpExactly(ch: Channel, s: Side, limit: nat)
    requires Valid(ch, s)
    ensures (exists n: nat :: CaughtUp(QuietRuns(ch, s, limit, n))) <==> WillCatchUp(ch, s, limit)
    ensures SavedGoverned(s) ==>
              ((exists n: nat :: FullyCaughtUp(QuietRuns(ch, s, limit, n))) <==> WillCatchUp(ch, s, limit))
  {
    hide Valid, QuietRuns, WillCatchUp, SavedGoverned;
    if WillCatchUp(ch, s, limit) {
      var n := RunsNeeded(|Pending(s.tables, s.file)|, limit);
      Converges(ch, s, limit, n);
      assert CaughtUp(QuietRuns(ch, s, limit, n));
    } else {
      forall n: nat ensures !CaughtUp(QuietRuns(ch, s, limit, n)) && !FullyCaughtUp(QuietRuns(ch, s, limit, n)) {
        StuckForever(ch, s, limit, n);
      }
    }
  }

  /** Fewer runs than needed never catch up. */
  lemma {:induction false} NotBefore(ch: Channel, s: Side, limit: nat, n: nat)
    requires Valid(ch, s) && n < RunsNeeded(|Pending(s.tables, s.file)|, limit)
    ensures Pending(QuietRuns(ch, s, limit, n).tables, QuietRuns(ch, s, limit, n).file) != {}
    decreases n
  {
    hide Valid, Between, Answerable, Executable, Pending;
    if n > 0 {
      QuietRunEffect(ch, s, limit);
      QuietRunKeepsValid(ch, s, limit);
      if Pending(s.tables, s.file) != {} {
        PendingCount(s.tables, s.file, limit);
      }
      hide QuietRun;
      NotBefore(ch, QuietRun(ch, s, limit), limit, n - 1);
    }
  }

  /** Credential pages hold no tombstones and need no DNs, so only the guard can stop that channel. */
  lemma {:induction false} CredentialPagesWork(s: Side, threshold: nat, applied: nat, limit: nat)
    requires TablesValid(Credential, s)
    ensures PagesWork(Credential, s.tables, threshold, applied, limit) <==>
            (Pending(s.tables, threshold) == {} || CutAt(Pending(s.tables, threshold), limit) >= applied)
    decreases Pending(s.tables, threshold)
  {
    var pending := Pending(s.tables, threshold);
    if pending != {} {
      var cut := CutAt(pending, limit);
      PendingAfterCut(s.tables, threshold, cut);
      var k :| k in s.tables && s.tables[k].revision == cut;
      assert k in Between(s.tables, threshold, cut);
      CredentialPagesWork(s, cut, cut, limit);
      if Pending(s.tables, cut) != {} {
        PendingAfterCut(s.tables, cut, CutAt(Pending(s.tables, cut), limit));
      }
    }
  }

  // ----- A watermark that has fallen behind -----

  /**
   From any local watermark, however far behind, the next revision is confirmable exactly when
   something pending has reached the domain's watermark and fewer than `limit` pending revisions
   lie below it.
   */
  lemma ConfirmableExactly(ch: Channel, s: Side, limit: nat)
    requires Valid(ch, s) && Pending(s.tables, s.file) != {}
    ensures GuardAccepts(s, NextCut(s, limit)) <==>
              && (exists x :: x in Pending(s.tables, s.file) && x >= s.applied)
              && |Below(Pending(s.tables, s.file), s.applied)| < AtLeastOne(limit)
  {
    CutReaches(Pending(s.tables, s.file), limit, s.applied);
    PendingBounded(ch, s, limit);
  }

  /**
   A channel whose saved watermark fell behind the domain's, for whatever reason, is back in step
   after any positive number of undisturbed runs if and only if its next page can be answered and
   executed, something pending has reached the domain's watermark and fewer than `limit` pending
   revisions lie below it.
   */
  lemma {:induction false} RecoversExactly(ch: Channel, s: Side, limit: nat, n: nat)
    requires Valid(ch, s) && s.file < s.applied && n >= 1
    ensures var s' := QuietRuns(ch, s, limit, n);
            s'.file == s'.applied <==>
              && CanAnswer(ch, s, limit) && Executable(NextPage(s, limit))
              && (exists x :: x in Pending(s.tables, s.file) && x >= s.applied)
              && |Below(Pending(s.tables, s.file), s.applied)| < AtLeastOne(limit)
    decreases n
  {
    hide Valid, Pending, Answerable, Executable, NextPage;
    if Executable(NextPage(s, limit)) {
      ExecutablePending(s, limit);
      ConfirmableExactly(ch, s, limit);
      PendingBounded(ch, s, limit) by { ValidTables(ch, s); }
    }
    QuietRunEffect(ch, s, limit);
    QuietRunKeepsValid(ch, s, limit);
    hide QuietRun, NextCut;
    var next := QuietRun(ch, s, limit);
    if Moves(ch, s, limit) {
      StaysInStep(ch, next, limit, n - 1);
    } else if n > 1 {
      SameNext(ch, s, next, limit);
      RecoversExactly(ch, next, limit, n - 1);
    }
  }

  lemma SameNext(ch: Channel, s: Side, s': Side, limit: nat)
    requires s'.tables == s.tables && s'.file == s.file && s'.revision == s.revision
    ensures NextCut(s', limit) == NextCut(s, limit) && NextPage(s', limit) == NextPage(s, limit)
    ensures CanAnswer(ch, s', limit) <==> CanAnswer(ch, s, limit)
  {
  }

  lemma ValidTables(ch: Channel, s: Side)
    requires Valid(ch, s)
    ensures TablesValid(ch, s)
  {
  }

  lemma {:induction false} StaysInStep(ch: Channel, s: Side, limit: nat, n: nat)
    requires Valid(ch, s) && s.file == s.applied
    ensures QuietRuns(ch, s, limit, n).file == QuietRuns(ch, s, limit, n).applied
    decreases n
  {
    hide Valid, Pending, Answerable, Executable, NextPage;
    if n > 0 {
      QuietRunEffect(ch, s, limit);
      QuietRunKeepsValid(ch, s, limit);
      hide QuietRun;
      StaysInStep(ch, QuietRun(ch, s, limit), limit, n - 1);
    }
  }
}
