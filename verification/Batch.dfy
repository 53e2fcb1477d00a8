/** A batch of the step system as the program sends it: its lists, its plan and its DNs. */
module Batch {
  import opened Store
  import opened Sync
  import opened Sorting
  import Dn
  import OuOrder
  import Plan

  /** The row is of the kind that its key names. */
  predicate Fits(k: Key, row: Row) {
    match k
    case OuKey(_) => row.OuRow?
    case UserKey(_) => row.UserRow?
    case GroupKey(_) => row.GroupRow?
    case TombstoneKey(_) => row.TombstoneRow?
    case CredentialKey(_) => row.CredentialRow?
  }

  ghost predicate RowsFit(t: Tables) {
    forall k | k in t :: Fits(k, t[k])
  }

  function GroupAt(g: GroupInput, revision: nat): Row { GroupRow(g.name, g.organizationalUnitId, g.members, revision) }

  /** The lists of the batch hold exactly the fetched rows, kind by kind. */
  ghost predicate Lists(b: Plan.Batch, got: Tables) {
    && (forall ou :: ou in b.ous <==>
          OuKey(ou.id) in got && got[OuKey(ou.id)] == OuRow(ou.name, ou.parentId, ou.changedRevision))
    && (forall u :: u in b.users <==>
          UserKey(u.id) in got && got[UserKey(u.id)].UserRow? && got[UserKey(u.id)].profile == u.profile)
    && (forall g :: g in b.groups <==>
          && GroupKey(g.id) in got && got[GroupKey(g.id)].GroupRow?
          && got[GroupKey(g.id)] == GroupAt(g, got[GroupKey(g.id)].revision))
    && (forall id :: id in b.deleted <==> TombstoneKey(id) in got)
  }

  /** The row that an execution of the batch leaves for a subject. */
  ghost predicate Leaves(got: Tables, subject: Subject, row: Row) {
    subject in Planned(got) && Planned(got)[subject] == Exact(row)
  }

  lemma LeavesDeciding(got: Tables, subject: Subject, row: Row)
    ensures Leaves(got, subject, row) <==>
            DecidingKey(got, subject) in got && got[DecidingKey(got, subject)] == row
  {
    var k := DecidingKey(got, subject);
    assert SubjectOf(k) == subject;
    if k in got {
      assert subject in Subjects(got);
    }
    if subject in Subjects(got) {
      DecidingKeyInBatch(got, subject);
    }
  }

  /** The plan retires exactly the employees for whom the batch's tombstone decides. */
  lemma RetiredExactly(b: Plan.Batch, got: Tables, quarantine: string, id: string)
    requires Lists(b, got) && RowsFit(got)
    ensures Plan.Wanted(b, quarantine, Plan.RetireUser(id, quarantine)) <==>
            TombstoneKey(id) in got && Leaves(got, Employee(id), got[TombstoneKey(id)]) && UserKey(id) !in got
    ensures Plan.Wanted(b, quarantine, Plan.RetireUser(id, quarantine)) <==>
            DecidingKey(got, Employee(id)) == TombstoneKey(id) && TombstoneKey(id) in got
  {
    if UserKey(id) in got {
      assert UserInput(id, got[UserKey(id)].profile) in b.users;
    }
    if TombstoneKey(id) in got {
      LeavesDeciding(got, Employee(id), got[TombstoneKey(id)]);
    }
    hide Planned, Subjects;
  }

  /** The plan ensures exactly the users whose rows the execution leaves. */
  lemma EnsuredExactly(b: Plan.Batch, got: Tables, quarantine: string, user: UserInput)
    requires Lists(b, got) && RowsFit(got)
    ensures Plan.Wanted(b, quarantine, Plan.EnsureUser(user)) <==>
            exists revision: nat :: Leaves(got, Employee(user.id), UserRow(user.profile, revision))
  {
    hide Planned, Subjects;
    var k := UserKey(user.id);
    if user in b.users {
      LeavesDeciding(got, Employee(user.id), got[k]);
      assert got[k] == UserRow(user.profile, got[k].revision);
    }
    if revision: nat :| Leaves(got, Employee(user.id), UserRow(user.profile, revision)) {
      LeavesDeciding(got, Employee(user.id), UserRow(user.profile, revision));
    }
  }

  /** The same for OUs. */
  lemma UnitsExactly(b: Plan.Batch, got: Tables, quarantine: string, ou: OuOrder.OrganizationalUnit)
    requires Lists(b, got)
    ensures Plan.Wanted(b, quarantine, Plan.EnsureOu(ou)) <==>
            Leaves(got, Unit(ou.id), OuRow(ou.name, ou.parentId, ou.changedRevision))
  {
    hide Planned, Subjects;
    LeavesDeciding(got, Unit(ou.id), OuRow(ou.name, ou.parentId, ou.changedRevision));
  }

  /** The same for groups and their members. */
  lemma GroupsExactly(b: Plan.Batch, got: Tables, quarantine: string, group: GroupInput)
    requires Lists(b, got)
    ensures Plan.Wanted(b, quarantine, Plan.EnsureGroup(group)) <==>
            exists revision: nat :: Leaves(got, SecurityGroup(group.id), GroupAt(group, revision))
    ensures Plan.Wanted(b, quarantine, Plan.EnsureGroupMembers(group, group.members)) <==>
            Plan.Wanted(b, quarantine, Plan.EnsureGroup(group))
  {
    hide Planned, Subjects;
    var k := GroupKey(group.id);
    if group in b.groups {
      LeavesDeciding(got, SecurityGroup(group.id), got[k]);
      assert got[k] == GroupAt(group, got[k].revision);
    }
    if revision: nat :| Leaves(got, SecurityGroup(group.id), GroupAt(group, revision)) {
      LeavesDeciding(got, SecurityGroup(group.id), GroupAt(group, revision));
    }
  }

  // ----- Which batches are executed, and which OUs they involve -----

  lemma ListedUnit(b: Plan.Batch, got: Tables, k: Key)
    requires Lists(b, got) && k in got && k.OuKey? && got[k].OuRow?
    ensures exists ou :: ou in b.ous && ou.id == k.id
  {
    assert OuOrder.OrganizationalUnit(k.id, got[k].name, got[k].parentId, got[k].revision) in b.ous;
  }

  lemma ListedUser(b: Plan.Batch, got: Tables, k: Key)
    requires Lists(b, got) && k in got && k.UserKey? && got[k].UserRow?
    ensures UserInput(k.id, got[k].profile) in b.users
  {
  }

  lemma ListedGroup(b: Plan.Batch, got: Tables, k: Key)
    requires Lists(b, got) && k in got && k.GroupKey? && got[k].GroupRow?
    ensures GroupInput(k.id, got[k].name, got[k].organizationalUnitId, got[k].members) in b.groups
  {
    var g := GroupInput(k.id, got[k].name, got[k].organizationalUnitId, got[k].members);
    assert got[GroupKey(g.id)] == GroupAt(g, got[k].revision);
  }

  /** A directory batch is executed exactly when one of its three lists is not empty. */
  lemma ExecutedExactly(b: Plan.Batch, got: Tables)
    requires Lists(b, got) && RowsFit(got) && forall k | k in got :: !k.CredentialKey?
    ensures Executable(got) <==> b.ous != [] || b.users != [] || b.groups != []
  {
    if k :| k in got && !k.TombstoneKey? {
      assert Fits(k, got[k]);
      match k
      case OuKey(_) => ListedUnit(b, got, k);
      case UserKey(_) => ListedUser(b, got, k);
      case GroupKey(_) => ListedGroup(b, got, k);
    }
    if b.ous != [] {
      assert b.ous[0] in b.ous;
      assert OuKey(b.ous[0].id) in got;
    }
    if b.users != [] {
      assert b.users[0] in b.users;
      assert UserKey(b.users[0].id) in got;
    }
    if b.groups != [] {
      assert b.groups[0] in b.groups;
      assert GroupKey(b.groups[0].id) in got;
    }
  }

  /** A credential batch is executed exactly when it is not empty. */
  lemma CredentialsExecutedExactly(got: Tables)
    requires forall k | k in got :: k.CredentialKey?
    ensures Executable(got) <==> got != map[]
  {
    if got != map[] {
      assert got.Keys != {};
      var k :| k in got.Keys;
      assert k in got && !k.TombstoneKey?;
    }
  }

  /** The OUs of the batch itself, of its users and of its groups, and no others. */
  ghost predicate Names(b: Plan.Batch, id: string) {
    || (exists ou :: ou in b.ous && ou.id == id)
    || (exists u :: u in b.users && u.profile.organizationalUnitId == id)
    || (exists g :: g in b.groups && g.organizationalUnitId == id)
  }

  lemma InvolvedExactly(b: Plan.Batch, got: Tables, id: string)
    requires Lists(b, got) && RowsFit(got)
    ensures id in Involved(got) <==> Names(b, id)
  {
    if ou :| ou in b.ous && ou.id == id {
      assert OuKey(id) in got;
    }
    if u :| u in b.users && u.profile.organizationalUnitId == id {
      assert UserKey(u.id) in got;
    }
    if g :| g in b.groups && g.organizationalUnitId == id {
      assert GroupKey(g.id) in got;
    }
    if id in Involved(got) {
      InvolvedNamed(b, got, id);
    }
  }

  lemma InvolvedNamed(b: Plan.Batch, got: Tables, id: string)
    requires Lists(b, got) && RowsFit(got) && id in Involved(got)
    ensures Names(b, id)
  {
    if k :| k in got && k.OuKey? && k.id == id {
      assert Fits(k, got[k]);
      ListedUnit(b, got, k);
    } else if k :| k in got && got[k].UserRow? && got[k].profile.organizationalUnitId == id {
      assert Fits(k, got[k]);
      ListedUser(b, got, k);
    } else {
      var k :| k in got && got[k].GroupRow? && got[k].organizationalUnitId == id;
      assert Fits(k, got[k]);
      ListedGroup(b, got, k);
    }
  }

  // ----- Rows keep their kind -----

  lemma {:induction false} PutsFit(t: Tables, ous: seq<OuInput>, users: seq<UserInput>, groups: seq<GroupInput>,
                                   revision: nat)
    requires RowsFit(t)
    ensures RowsFit(PutOus(t, ous, revision)) && RowsFit(PutGroups(t, groups, revision))
    ensures PutUsers(t, users, revision).Some? ==> RowsFit(PutUsers(t, users, revision).value)
    decreases |ous| + |users| + |groups|
  {
    if ous != [] { PutsFit(t, ous[..|ous| - 1], [], [], revision); }
    if users != [] { PutsFit(t, [], users[..|users| - 1], [], revision); }
    if groups != [] { PutsFit(t, [], [], groups[..|groups| - 1], revision); }
  }

  lemma CommitKeepsFit(s: Store, op: WriteOp)
    requires Commit(s, op).Some? && RowsFit(s.directory) && RowsFit(s.credentials)
    ensures RowsFit(Commit(s, op).value.directory) && RowsFit(Commit(s, op).value.credentials)
  {
    if op.Upsert? {
      var revision := s.directoryRevision + 1;
      PutsFit(s.directory, op.ous, [], [], revision);
      var t1 := PutOus(s.directory, op.ous, revision);
      PutsFit(t1, [], op.users, [], revision);
      PutsFit(PutUsers(t1, op.users, revision).value, [], [], op.groups, revision);
    }
  }

  ghost predicate SideFits(s: Side) {
    RowsFit(s.tables) && (s.progress.Fetching? ==> RowsFit(s.progress.got))
  }

  lemma SideStepKeepsFit(ch: Channel, s: Side, a: Action, limit: nat)
    requires SideFits(s)
    ensures SideFits(SideStep(ch, s, a, limit))
  {
    hide Fits, Planned, AfterFailure, Named, Needed, UnitsOf, RevisionsOf, Executable;
  }

  lemma NextKeepsFit(sys: System, a: Action, limit: nat)
    requires SideFits(sys.directory) && SideFits(sys.credential)
    ensures SideFits(Next(sys, a, limit).directory) && SideFits(Next(sys, a, limit).credential)
  {
    hide SideStep, Commit, RowsFit;
    SideStepKeepsFit(Directory, sys.directory, a, limit);
    SideStepKeepsFit(Credential, sys.credential, a, limit);
    if a.Write? && Commit(StoreOf(sys), a.op).Some? {
      CommitKeepsFit(StoreOf(sys), a.op);
    }
  }

  /** In every reachable state the rows of the tables and of a batch are of the kind their keys name. */
  lemma {:induction false} RunKeepsFit(sys: System, actions: seq<Action>, limit: nat)
    requires Initial(sys) && RowsFit(sys.directory.tables) && RowsFit(sys.credential.tables)
    ensures SideFits(Run(sys, actions, limit).directory) && SideFits(Run(sys, actions, limit).credential)
  {
    hide Next, RowsFit;
    if actions != [] {
      RunKeepsFit(sys, actions[..|actions| - 1], limit);
      NextKeepsFit(Run(sys, actions[..|actions| - 1], limit), actions[|actions| - 1], limit);
    }
  }

  // ----- The DNs of an answered batch -----

  /** A lookup returns the name and the parent of the stored OU. */
  lemma LookUpExactly(t: Tables, id: string)
    ensures id in UnitsOf(t) <==> OuKey(id) in t && t[OuKey(id)].OuRow?
    ensures id in UnitsOf(t) ==> UnitsOf(t)[id] == Dn.Ou(t[OuKey(id)].name, t[OuKey(id)].parentId)
  {
    if OuKey(id) in t && t[OuKey(id)].OuRow? {
      assert OuKey(id).id == id;
    }
  }

  method ListIds(ids: set<string>) returns (l: seq<string>)
    ensures Elements(l) == ids
  {
    l := [];
    var rest := ids;
    while rest != {}
      invariant rest <= ids && Elements(l) == ids - rest
      decreases rest
    {
      var id :| id in rest;
      Dn.ElementsAppend(l, id);
      l := l + [id];
      rest := rest - {id};
    }
  }

  /** Every involved OU has its DN, and nothing but involved OUs and their ancestors is in the table. */
  ghost predicate NamesBatch(dns: map<string, string>, got: Tables, units: Dn.Ous, root: string) {
    && (forall id | id in Involved(got) :: id in dns && Dn.Grounded(units, id) && dns[id] == Dn.TheDn(units, root, id))
    && (forall id | id in dns :: exists first, n: nat :: first in Involved(got) && Dn.Up(units, first, n) == Some(id))
  }

  lemma NamedGrounded(got: Tables, units: Dn.Ous, involved: seq<string>)
    requires Named(got, units) && Elements(involved) == Involved(got)
    ensures forall i | 0 <= i < |involved| :: Dn.Grounded(units, involved[i])
  {
    hide Involved;
    forall i | 0 <= i < |involved| ensures Dn.Grounded(units, involved[i]) {
      assert involved[i] in Elements(involved);
      Dn.HasChainExactly(units, involved[i]);
    }
  }

  lemma BuiltNamesBatch(dns: map<string, string>, got: Tables, units: Dn.Ous, root: string, involved: seq<string>)
    requires Elements(involved) == Involved(got) && Elements(involved) <= dns.Keys
    requires Dn.MemoValid(units, root, dns) && Dn.MemoNeeded(units, involved, dns)
    ensures NamesBatch(dns, got, units, root)
  {
    hide Involved, Dn.Grounded, Dn.TheDn;
    forall id | id in dns ensures exists first, n: nat :: first in Involved(got) && Dn.Up(units, first, n) == Some(id) {
      var i, n: nat :| 0 <= i < |involved| && Dn.Up(units, involved[i], n) == Some(id);
      assert involved[i] in Elements(involved);
    }
  }

  /**
   The table that an answered directory request sends, built from the OUs as they were looked up
   between commits: it has the DN of the recursive definition for every involved OU, and building
   it cannot fail.
   */
  method DnTable(s: Side, root: string) returns (dns: map<string, string>)
    requires Ready(Directory, s)
    ensures NamesBatch(dns, s.progress.got, s.progress.units, root)
    ensures forall b: Plan.Batch | Lists(b, s.progress.got) && RowsFit(s.progress.got) :: Covers(dns, b)
  {
    hide Involved, Named, Dn.MemoValid, Dn.MemoNeeded, Dn.Grounded, Elements, NamesBatch, Covers, Lists, RowsFit;
    var involved := ListIds(Involved(s.progress.got));
    NamedGrounded(s.progress.got, s.progress.units, involved);
    var r;
    ghost var lookups;
    r, lookups := Dn.OrganizationalUnitDns(s.progress.units, root, involved);
    dns := r.value;
    BuiltNamesBatch(dns, s.progress.got, s.progress.units, root, involved);
    forall b: Plan.Batch | Lists(b, s.progress.got) && RowsFit(s.progress.got) ensures Covers(dns, b) {
      CoversBatch(dns, b, s.progress.got, s.progress.units, root);
    }
  }

  /** Every OU, and the OU of every user and group, of the batch has a DN in the table. */
  ghost predicate Covers(dns: map<string, string>, b: Plan.Batch) {
    && (forall ou | ou in b.ous :: ou.id in dns)
    && (forall u | u in b.users :: u.profile.organizationalUnitId in dns)
    && (forall g | g in b.groups :: g.organizationalUnitId in dns)
  }

  lemma CoversBatch(dns: map<string, string>, b: Plan.Batch, got: Tables, units: Dn.Ous, root: string)
    requires NamesBatch(dns, got, units, root) && Lists(b, got) && RowsFit(got)
    ensures Covers(dns, b)
  {
    hide Lists, RowsFit, Involved, Dn.Grounded, Dn.TheDn;
    forall ou | ou in b.ous ensures ou.id in dns { InvolvedExactly(b, got, ou.id); }
    forall u | u in b.users ensures u.profile.organizationalUnitId in dns {
      InvolvedExactly(b, got, u.profile.organizationalUnitId);
    }
    forall g | g in b.groups ensures g.organizationalUnitId in dns { InvolvedExactly(b, got, g.organizationalUnitId); }
  }
}
