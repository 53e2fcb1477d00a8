/**
 Whether a batch returns a row at its own revision.

 The protocol wants the batch revision not to lie beyond what the batch returns.  The revision is
 chosen from what the revision queries counted; the rows are fetched later.
 */
module Returned {
  import opened Store
  import opened Sync
  import opened Guarantees
  import opened Paging
  import opened Quiet
  import opened Reach

  /** Some row carries the revision. */
  ghost predicate HasRevision(t: Tables, revision: nat) {
    exists k :: k in t && t[k].revision == revision
  }

  /** Some row of the batch carries the batch revision. */
  ghost predicate CutReturned(s: Side)
    requires s.progress.Fetching?
  {
    HasRevision(s.progress.got, s.progress.cut)
  }

  /** The channel after the first `i` steps of a run. */
  ghost function SideAt(sys: System, actions: seq<Action>, limit: nat, ch: Channel, i: nat): Side
    requires i <= |actions|
  {
    SideOf(Run(sys, actions[..i], limit), ch)
  }

  /** The batch revision of the current request was chosen in step `b`. */
  ghost predicate ChosenIn(sys: System, actions: seq<Action>, limit: nat, ch: Channel, b: nat) {
    && b < |actions|
    && SideAt(sys, actions, limit, ch, b).progress.Revising?
    && (forall i | b < i <= |actions| :: SideAt(sys, actions, limit, ch, i).progress.Fetching?)
  }

  predicate InTableAt(t: Tables, table: Table, k: Key, revision: nat) {
    k in t && k.InTable() == table && t[k].revision == revision
  }

  /** Step `j` queried the rows of a table, one of which had the revision at that moment. */
  ghost predicate StillThere(sys: System, actions: seq<Action>, limit: nat, ch: Channel, j: nat, revision: nat) {
    && j < |actions|
    && var s, s' := SideAt(sys, actions, limit, ch, j), SideAt(sys, actions, limit, ch, j + 1);
    && s.progress.Fetching? && s'.progress.Fetching?
    && s.progress.next < |RowTables(ch)| && s'.progress.next == s.progress.next + 1
    && exists k :: InTableAt(s.tables, RowTables(ch)[s.progress.next], k, revision)
  }

  // ----- How a batch grows -----

  lemma FetchingStep(sys: System, a: Action, limit: nat, ch: Channel)
    requires SideOf(sys, ch).progress.Fetching? && SideOf(Next(sys, a, limit), ch).progress.Fetching?
    ensures var s, p, p' := SideOf(sys, ch), SideOf(sys, ch).progress, SideOf(Next(sys, a, limit), ch).progress;
            || p' == p.(units := p'.units)
            || (p.next < |RowTables(ch)|
                && p' == p.(got := p.got + RowsOf(s.tables, RowTables(ch)[p.next], p.threshold, p.cut),
                   next := p.next + 1))
  {
    hide Commit, Planned, AfterFailure, Named, Needed, UnitsOf, RevisionsOf, RowsOf, Executable;
  }

  lemma FetchingStarts(sys: System, a: Action, limit: nat, ch: Channel)
    requires SideOf(Next(sys, a, limit), ch).progress.Fetching? && !SideOf(sys, ch).progress.Fetching?
    ensures SideOf(sys, ch).progress.Revising?
    ensures SideOf(Next(sys, a, limit), ch) == CutBatch(ch, SideOf(sys, ch), limit)
  {
    hide Commit, Planned, AfterFailure, Named, Needed, UnitsOf, RevisionsOf, RowsOf, Executable;
  }

  /** Every batch has its revision chosen in some step. */
  lemma {:induction false} ChosenSomewhere(sys: System, actions: seq<Action>, limit: nat, ch: Channel, n: nat)
    returns (b: nat)
    requires Initial(sys) && n <= |actions| && SideAt(sys, actions, limit, ch, n).progress.Fetching?
    ensures b < n && SideAt(sys, actions, limit, ch, b).progress.Revising?
    ensures forall i | b < i <= n :: SideAt(sys, actions, limit, ch, i).progress.Fetching?
  {
    hide Next;
    if n == 0 {
      assert false;
    } else {
      RunPrefix(sys, actions, limit, n - 1);
      if SideAt(sys, actions, limit, ch, n - 1).progress.Fetching? {
        b := ChosenSomewhere(sys, actions, limit, ch, n - 1);
      } else {
        b := n - 1;
        FetchingStarts(Run(sys, actions[..n - 1], limit), actions[n - 1], limit, ch);
      }
    }
  }

  /** The batch as its queries have filled it so far. */
  ghost predicate Growing(sys: System, actions: seq<Action>, limit: nat, ch: Channel, b: nat, m: nat)
    requires b < m <= |actions|
  {
    var q, p := SideAt(sys, actions, limit, ch, b + 1).progress, SideAt(sys, actions, limit, ch, m).progress;
    && q.Fetching? && p.Fetching?
    && p.cut == q.cut && p.threshold == q.threshold && p.next <= |RowTables(ch)|
    && (forall k | k in p.got :: k.InTable() in RowTables(ch)[..p.next])
    && (HasRevision(p.got, p.cut) <==>
          p.threshold < p.cut && exists j :: b < j < m && StillThere(sys, actions, limit, ch, j, p.cut))
  }

  lemma TablesDistinct(ch: Channel, i: nat)
    requires i < |RowTables(ch)|
    ensures RowTables(ch)[i] !in RowTables(ch)[..i]
    ensures RowTables(ch)[..i + 1] == RowTables(ch)[..i] + [RowTables(ch)[i]]
  {
  }

  lemma GrowingStart(sys: System, actions: seq<Action>, limit: nat, ch: Channel, b: nat)
    requires ChosenIn(sys, actions, limit, ch, b)
    ensures Growing(sys, actions, limit, ch, b, b + 1)
    ensures SideAt(sys, actions, limit, ch, b + 1) == CutBatch(ch, SideAt(sys, actions, limit, ch, b), limit)
  {
    hide Next;
    RunPrefix(sys, actions, limit, b);
    assert SideAt(sys, actions, limit, ch, b + 1).progress.Fetching?;
    FetchingStarts(Run(sys, actions[..b], limit), actions[b], limit, ch);
  }

  lemma FoundAtCut(t: Tables, table: Table, threshold: nat, cut: nat)
    ensures HasRevision(RowsOf(t, table, threshold, cut), cut) <==>
            threshold < cut && exists k :: InTableAt(t, table, k, cut)
    ensures forall k | k in RowsOf(t, table, threshold, cut) :: k.InTable() == table
  {
    var found := RowsOf(t, table, threshold, cut);
    if k :| InTableAt(t, table, k, cut) && threshold < cut {
      assert k in found && found[k].revision == cut;
    }
    if k :| k in found && found[k].revision == cut {
      assert InTableAt(t, table, k, cut);
    }
  }

  lemma JoinAtCut(got: Tables, found: Tables, cut: nat)
    requires forall k | k in got :: k !in found
    ensures HasRevision(got + found, cut) <==> HasRevision(got, cut) || HasRevision(found, cut)
  {
    var all := got + found;
    if k :| k in got && got[k].revision == cut {
      assert k in all && all[k].revision == cut;
    }
    if k :| k in found && found[k].revision == cut {
      assert k in all && all[k].revision == cut;
    }
  }

  lemma GrowingStep(sys: System, actions: seq<Action>, limit: nat, ch: Channel, b: nat, m: nat)
    requires ChosenIn(sys, actions, limit, ch, b) && b < m < |actions| && Growing(sys, actions, limit, ch, b, m)
    ensures Growing(sys, actions, limit, ch, b, m + 1)
  {
    hide Next, Run, HasRevision, RowsOf, RowTables;
    RunPrefix(sys, actions, limit, m);
    assert SideAt(sys, actions, limit, ch, m + 1).progress.Fetching?;
    FetchingStep(Run(sys, actions[..m], limit), actions[m], limit, ch);
    var s, p, p' := SideAt(sys, actions, limit, ch, m), SideAt(sys, actions, limit, ch, m).progress,
      SideAt(sys, actions, limit, ch, m + 1).progress;
    if p'.next == p.next + 1 {
      var found := RowsOf(s.tables, RowTables(ch)[p.next], p.threshold, p.cut);
      TablesDistinct(ch, p.next);
      FoundAtCut(s.tables, RowTables(ch)[p.next], p.threshold, p.cut);
      JoinAtCut(p.got, found, p.cut);
      assert StillThere(sys, actions, limit, ch, m, p.cut)
             <==> exists k :: InTableAt(s.tables, RowTables(ch)[p.next], k, p.cut);
    } else {
      assert !StillThere(sys, actions, limit, ch, m, p.cut);
    }
  }

  lemma {:induction false} GrowingThroughout(sys: System, actions: seq<Action>, limit: nat, ch: Channel, b: nat, m: nat)
    requires ChosenIn(sys, actions, limit, ch, b) && b < m <= |actions|
    ensures Growing(sys, actions, limit, ch, b, m)
  {
    hide Growing, ChosenIn;
    if m == b + 1 {
      GrowingStart(sys, actions, limit, ch, b);
    } else {
      GrowingThroughout(sys, actions, limit, ch, b, m - 1);
      GrowingStep(sys, actions, limit, ch, b, m - 1);
    }
  }

  // ----- Nothing counted, nothing returned -----

  ghost predicate NothingIn(t: Tables, threshold: nat, server: nat) {
    forall k | k in t :: !(threshold < t[k].revision <= server)
  }

  lemma NothingAfterwards(sys: System, actions: seq<Action>, limit: nat, ch: Channel, b: nat, j: nat)
    requires Initial(sys) && b <= j <= |actions|
    requires var s := SideAt(sys, actions, limit, ch, b);
             s.progress.Revising? && s.progress.next == |RevisionTables(ch)| && s.progress.seen == {}
    ensures var p := SideAt(sys, actions, limit, ch, b).progress;
            NothingIn(SideAt(sys, actions, limit, ch, j).tables, p.threshold, p.server)
  {
    var s := SideAt(sys, actions, limit, ch, b);
    RunKeepsValid(sys, actions[..b], limit);
    forall k | k in s.tables ensures !(s.progress.threshold < s.tables[k].revision <= s.progress.server) {
      EveryTableQueried(ch, k);
      assert RevisionTables(ch)[..|RevisionTables(ch)|] == RevisionTables(ch);
    }
    assert actions[..j][..b] == actions[..b];
    RunFrom(sys, actions[..j], b, limit);
    RunLater(Run(sys, actions[..b], limit), actions[..j][b..], limit);
  }

  lemma NothingFetched(sys: System, actions: seq<Action>, limit: nat, ch: Channel, b: nat)
    requires Initial(sys) && ChosenIn(sys, actions, limit, ch, b)
    requires SideAt(sys, actions, limit, ch, b).progress.seen == {}
    ensures SideAt(sys, actions, limit, ch, |actions|).progress.got == map[]
  {
    GrowingStart(sys, actions, limit, ch, b);
    RunKeepsValid(sys, actions[..b], limit);
    NothingFetchedYet(sys, actions, limit, ch, b, |actions|);
  }

  lemma {:induction false} NothingFetchedYet(sys: System, actions: seq<Action>, limit: nat, ch: Channel, b: nat, m: nat)
    requires Initial(sys) && ChosenIn(sys, actions, limit, ch, b) && b < m <= |actions|
    requires var s := SideAt(sys, actions, limit, ch, b);
             s.progress.next == |RevisionTables(ch)| && s.progress.seen == {}
    ensures var q, p := SideAt(sys, actions, limit, ch, b).progress, SideAt(sys, actions, limit, ch, m).progress;
            p.got == map[] && p.threshold == q.threshold && p.cut == q.server
    decreases m
  {
    hide Next, Run;
    if m == b + 1 {
      GrowingStart(sys, actions, limit, ch, b);
    } else {
      NothingFetchedYet(sys, actions, limit, ch, b, m - 1);
      NothingAfterwards(sys, actions, limit, ch, b, m - 1);
      RunPrefix(sys, actions, limit, m - 1);
      assert SideAt(sys, actions, limit, ch, m).progress.Fetching?;
      FetchingStep(Run(sys, actions[..m - 1], limit), actions[m - 1], limit, ch);
    }
  }

  /**
   Over every run: the batch returns a row at its revision if and only if that revision was counted
   and some row still had it when the rows of its table were queried.  A request that counted
   nothing returns nothing, although its revision is the server's.
   */
  lemma CutReturnedExactly(sys: System, actions: seq<Action>, limit: nat, ch: Channel, b: nat)
    requires Initial(sys) && ChosenIn(sys, actions, limit, ch, b)
    ensures var seen, s := SideAt(sys, actions, limit, ch, b).progress.seen, SideAt(sys, actions, limit, ch, |actions|);
            && (CutReturned(s) <==>
                  && s.progress.cut in seen
                  && exists j :: b < j < |actions| && StillThere(sys, actions, limit, ch, j, s.progress.cut))
            && (seen == {} ==>
                  s.progress.got == map[] && s.progress.cut == SideAt(sys, actions, limit, ch, b).progress.server)
  {
    var before, s := SideAt(sys, actions, limit, ch, b), SideAt(sys, actions, limit, ch, |actions|);
    GrowingThroughout(sys, actions, limit, ch, b, |actions|);
    GrowingStart(sys, actions, limit, ch, b);
    RunKeepsValid(sys, actions[..b], limit);
    hide Next, Run, StillThere;
    if before.progress.seen == {} {
      NothingFetched(sys, actions, limit, ch, b);
    }
  }

  /** An undisturbed request returns a row at its revision exactly when something is pending. */
  lemma QuietCutReturned(ch: Channel, s: Side, limit: nat)
    requires Valid(ch, s)
    ensures ReadAll(ch, s, limit).progress.Fetching?
    ensures CutReturned(ReadAll(ch, s, limit)) <==> Pending(s.tables, s.file) != {}
  {
    ReadAllIsSnapshot(ch, s, limit);
    hide ReadAll, Valid, CanAnswer, Ready;
    if Pending(s.tables, s.file) == {} {
      PageEmptyWithoutPending(s, limit);
    } else {
      var k :| k in s.tables && s.tables[k].revision == NextCut(s, limit) && s.tables[k].revision > s.file;
      assert k in NextPage(s, limit);
    }
  }

  // ----- A password that changes between the two queries -----

  const OLD: Row := CredentialRow("old", "old", 1)
  const NEW: Row := CredentialRow("new", "new", 2)

  function Before(): System {
    System(NewSide(map[], 0), NewSide(map[CredentialKey("7") := OLD], 1), Idle)
  }

  /** The request counted revision 1, and fetched the rows after the password had moved on to revision 2. */
  ghost function Overtaken(limit: nat): System {
    System(ReadAll(Directory, NewSide(map[], 0), limit),
           NewSide(map[CredentialKey("7") := NEW], 2).(progress := Fetching(0, 1, 1, map[], 1, map[])),
           ReadingCredentials)
  }

  lemma OldPending(c: Side, limit: nat)
    requires c.tables == map[CredentialKey("7") := OLD] && c.file == 0
    ensures NextCut(c, limit) == 1
  {
    assert c.tables[CredentialKey("7")].revision == 1;
    assert Pending(c.tables, 0) == {1};
  }

  /** Before the rows are queried, revision 1 has been counted and chosen. */
  ghost function Counted(limit: nat): System {
    System(ReadAll(Directory, NewSide(map[], 0), limit),
           Before().credential.(progress := Fetching(0, 1, 1, map[], 0, map[])),
           ReadingCredentials)
  }

  lemma LeadsCounted(limit: nat)
    ensures Leads(Before(), Counted(limit), limit)
  {
    var sys, c := Before(), Before().credential;
    assert Valid(Credential, c);
    OldPending(c, limit);
    LeadsPastEmptyDirectory(sys, limit);
    hide Leads, ReadAll, Valid, NextCut, CutBatch, QueryAllRevisions;
    LeadsChoice(sys, System(ReadAll(Directory, sys.directory, limit), c, ReadingCredentials), Credential, c, limit);
    ChosenFromSnapshot(Credential, c, limit);
  }

  /** For every limit there is a run that returns an empty batch with a revision that was pending. */
  lemma CutCanBeUnreturned(limit: nat)
    ensures Initial(Before()) && Leads(Before(), Overtaken(limit), limit)
    ensures Ready(Credential, Overtaken(limit).credential)
    ensures !CutReturned(Overtaken(limit).credential)
  {
    LeadsCounted(limit);
    hide Leads, ReadAll, Named, Next, RowsOf;
    var write := Write(ChangePassword("7", "new", "new"));
    Overtakes(Counted(limit), limit);
    LeadsStep(Before(), Counted(limit), write, limit);
    LeadsSideStep(Before(), Next(Counted(limit), write, limit), Credential, AskRows, limit);
  }

  lemma Overtakes(sys: System, limit: nat)
    requires sys.credential ==
             NewSide(map[CredentialKey("7") := OLD], 1).(progress := Fetching(0, 1, 1, map[], 0, map[]))
    ensures var op := Write(ChangePassword("7", "new", "new"));
            Next(sys, op, limit) == sys.(credential := sys.credential.(tables := map[CredentialKey("7") := NEW],
              revision := 2))
    ensures RowsOf(map[CredentialKey("7") := NEW], CredentialTable, 0, 1) == map[]
  {
    var t: Tables := map[CredentialKey("7") := OLD];
    assert t[CredentialKey("7") := NEW] == map[CredentialKey("7") := NEW];
  }
}
