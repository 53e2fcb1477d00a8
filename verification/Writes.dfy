/** What each write transaction leaves in the tables, stated row by row. */
module Writes {
  import opened Store

  /** Two sets of tables agree on a key. */
  predicate Same(t: Tables, t': Tables, k: Key) {
    (k in t <==> k in t') && (k in t ==> t[k] == t'[k])
  }

  predicate Holds(t: Tables, k: Key, row: Row) {
    k in t && t[k] == row
  }

  ghost predicate LastOu(ous: seq<OuInput>, i: nat) {
    i < |ous| && forall j | i < j < |ous| :: ous[j].id != ous[i].id
  }

  ghost predicate LastUser(users: seq<UserInput>, i: nat) {
    i < |users| && forall j | i < j < |users| :: users[j].id != users[i].id
  }

  ghost predicate LastGroup(groups: seq<GroupInput>, i: nat) {
    i < |groups| && forall j | i < j < |groups| :: groups[j].id != groups[i].id
  }

  lemma {:induction false} PutOusLast(t: Tables, ous: seq<OuInput>, revision: nat, i: nat)
    requires LastOu(ous, i)
    ensures Holds(PutOus(t, ous, revision), OuKey(ous[i].id), OuRow(ous[i].name, ous[i].parentId, revision))
  {
    var init := ous[..|ous| - 1];
    if i < |init| {
      assert ous[|init|].id != ous[i].id;
      PutOusLast(t, init, revision, i);
    }
  }

  lemma {:induction false} PutOusFrame(t: Tables, ous: seq<OuInput>, revision: nat, k: Key)
    requires forall i | 0 <= i < |ous| :: k != OuKey(ous[i].id)
    ensures Same(t, PutOus(t, ous, revision), k)
  {
    if ous != [] {
      PutOusFrame(t, ous[..|ous| - 1], revision, k);
    }
  }

  lemma {:induction false} PutUsersLast(t: Tables, users: seq<UserInput>, revision: nat, i: nat)
    requires LastUser(users, i) && PutUsers(t, users, revision).Some?
    ensures var t' := PutUsers(t, users, revision).value;
            && Holds(t', UserKey(users[i].id), UserRow(users[i].profile, revision))
            && TombstoneKey(users[i].id) !in t'
  {
    var init := users[..|users| - 1];
    if i < |init| {
      assert users[|init|].id != users[i].id;
      PutUsersLast(t, init, revision, i);
    }
  }

  lemma {:induction false} PutUsersFrame(t: Tables, users: seq<UserInput>, revision: nat, k: Key)
    requires PutUsers(t, users, revision).Some?
    requires forall i | 0 <= i < |users| :: k != UserKey(users[i].id) && k != TombstoneKey(users[i].id)
    ensures Same(t, PutUsers(t, users, revision).value, k)
  {
    if users != [] {
      PutUsersFrame(t, users[..|users| - 1], revision, k);
      assert k != UserKey(users[|users| - 1].id);
    }
  }

  lemma {:induction false} PutGroupsLast(t: Tables, groups: seq<GroupInput>, revision: nat, i: nat)
    requires LastGroup(groups, i)
    ensures Holds(PutGroups(t, groups, revision), GroupKey(groups[i].id),
                  GroupRow(groups[i].name, groups[i].organizationalUnitId, groups[i].members, revision))
  {
    var init := groups[..|groups| - 1];
    if i < |init| {
      assert groups[|init|].id != groups[i].id;
      PutGroupsLast(t, init, revision, i);
    }
  }

  lemma {:induction false} PutGroupsFrame(t: Tables, groups: seq<GroupInput>, revision: nat, k: Key)
    requires forall i | 0 <= i < |groups| :: k != GroupKey(groups[i].id)
    ensures Same(t, PutGroups(t, groups, revision), k)
  {
    if groups != [] {
      PutGroupsFrame(t, groups[..|groups| - 1], revision, k);
    }
  }

  /**
   A committed upsert stamps the last version of every OU, user and group it was given with the
   new revision, clears the tombstones of its users, and touches nothing else.
   */
  lemma UpsertWrites(s: Store, op: WriteOp)
    requires op.Upsert? && Commit(s, op).Some?
    ensures var s', revision := Commit(s, op).value, s.directoryRevision + 1;
            && s'.credentials == s.credentials && s'.directoryRevision == revision
               && s'.credentialRevision == s.credentialRevision
            && (forall i: nat | LastOu(op.ous, i) :: Holds(s'.directory, OuKey(op.ous[i].id),
               OuRow(op.ous[i].name, op.ous[i].parentId, revision)))
            && (forall i: nat | LastUser(op.users, i) ::
                  && Holds(s'.directory, UserKey(op.users[i].id), UserRow(op.users[i].profile, revision))
                  && TombstoneKey(op.users[i].id) !in s'.directory)
            && (forall i: nat | LastGroup(op.groups, i) ::
                  Holds(s'.directory, GroupKey(op.groups[i].id),
                        GroupRow(op.groups[i].name, op.groups[i].organizationalUnitId, op.groups[i].members, revision)))
            && (forall k | Untouched(op, k) :: Same(s.directory, s'.directory, k))
  {
    var revision := s.directoryRevision + 1;
    var t1 := PutOus(s.directory, op.ous, revision);
    var t2 := PutUsers(t1, op.users, revision).value;
    hide PutOus, PutUsers, PutGroups;
    forall i: nat | LastOu(op.ous, i)
      ensures Holds(PutGroups(t2, op.groups, revision), OuKey(op.ous[i].id),
              OuRow(op.ous[i].name, op.ous[i].parentId, revision))
    {
      PutOusLast(s.directory, op.ous, revision, i);
      PutUsersFrame(t1, op.users, revision, OuKey(op.ous[i].id));
      PutGroupsFrame(t2, op.groups, revision, OuKey(op.ous[i].id));
    }
    forall i: nat | LastUser(op.users, i)
      ensures Holds(PutGroups(t2, op.groups, revision), UserKey(op.users[i].id), UserRow(op.users[i].profile, revision))
      ensures TombstoneKey(op.users[i].id) !in PutGroups(t2, op.groups, revision)
    {
      PutUsersLast(t1, op.users, revision, i);
      PutGroupsFrame(t2, op.groups, revision, UserKey(op.users[i].id));
      PutGroupsFrame(t2, op.groups, revision, TombstoneKey(op.users[i].id));
    }
    forall i: nat | LastGroup(op.groups, i)
      ensures Holds(PutGroups(t2, op.groups, revision), GroupKey(op.groups[i].id),
                    GroupRow(op.groups[i].name, op.groups[i].organizationalUnitId, op.groups[i].members, revision))
    {
      PutGroupsLast(t2, op.groups, revision, i);
    }
    forall k | Untouched(op, k) ensures Same(s.directory, PutGroups(t2, op.groups, revision), k) {
      PutOusFrame(s.directory, op.ous, revision, k);
      PutUsersFrame(t1, op.users, revision, k);
      PutGroupsFrame(t2, op.groups, revision, k);
    }
  }

  /** The upsert does not mention the row. */
  ghost predicate Untouched(op: WriteOp, k: Key)
    requires op.Upsert?
  {
    && (forall i | 0 <= i < |op.ous| :: k != OuKey(op.ous[i].id))
    && (forall i | 0 <= i < |op.users| :: k != UserKey(op.users[i].id) && k != TombstoneKey(op.users[i].id))
    && (forall i | 0 <= i < |op.groups| :: k != GroupKey(op.groups[i].id))
  }

  lemma {:induction false} WithoutRemoves(members: seq<string>, id: string)
    ensures forall m :: m in Without(members, id) <==> m in members && m != id
  {
    if members != [] {
      WithoutRemoves(members[..|members| - 1], id);
      assert members == members[..|members| - 1] + [members[|members| - 1]];
    }
  }

  lemma WithoutOne(m: string, id: string)
    ensures Without([m], id) == if m == id then [] else [m]
  {
    assert [m][..0] == [];
  }

  /** Members are filtered one by one: the order and number of the others stay. */
  lemma {:induction false} WithoutFilters(a: seq<string>, b: seq<string>, id: string)
    ensures Without(a + b, id) == Without(a, id) + Without(b, id)
  {
    if b == [] {
      assert a + b == a;
    } else {
      var all := a + b;
      assert all[..|all| - 1] == a + b[..|b| - 1] && all[|all| - 1] == b[|b| - 1];
      WithoutFilters(a, b[..|b| - 1], id);
    }
  }

  /** A group that the employee left: the same but for the member and the new revision. */
  ghost predicate LeftGroup(row: Row, row': Row, id: string, revision: nat) {
    && row.GroupRow? && id in row.members
    && row'.GroupRow? && row' == row.(members := row'.members, revision := revision)
    && (forall m :: m in row'.members <==> m in row.members && m != id)
    && row'.members == Without(row.members, id)
  }

  /**
   The user, its credential and its group memberships are gone, and a tombstone carries the new
   revision; the groups that changed carry it too; no other row changed, and no credential but its own.
   */
  ghost predicate UserDeleted(s: Store, s': Store, id: string) {
    var revision := s.directoryRevision + 1;
    && UserKey(id) in s.directory && UserKey(id) !in s'.directory
    && Holds(s'.directory, TombstoneKey(id), TombstoneRow(revision))
    && (forall k | k in s'.directory && s'.directory[k].GroupRow? :: id !in s'.directory[k].members)
    && (forall k | k != UserKey(id) && k != TombstoneKey(id) ::
          || Same(s.directory, s'.directory, k)
          || (k in s.directory && k in s'.directory && LeftGroup(s.directory[k], s'.directory[k], id, revision)))
    && CredentialKey(id) !in s'.credentials && OnlyChanges(s.credentials, s'.credentials, CredentialKey(id))
    && s'.directoryRevision == revision && s'.credentialRevision == s.credentialRevision
  }

  /** The tables agree on every key but one. */
  ghost predicate OnlyChanges(t: Tables, t': Tables, key: Key) {
    forall k | k != key :: Same(t, t', k)
  }

  lemma DeleteUserWrites(s: Store, op: WriteOp)
    requires op.DeleteUser? && Commit(s, op).Some?
    ensures UserDeleted(s, Commit(s, op).value, op.id)
  {
    var revision := s.directoryRevision + 1;
    forall k | k in s.directory && s.directory[k].GroupRow?
      ensures op.id !in LeaveGroup(s.directory[k], op.id, revision).members
      ensures forall m ::
          m in LeaveGroup(s.directory[k], op.id, revision).members <==> m in s.directory[k].members && m != op.id
    {
      WithoutRemoves(s.directory[k].members, op.id);
    }
    hide Without;
  }

  // ----- The transactions that write one row -----

  /**
   A new user with a first credential: neither was there and no other user has the username; both
   rows carry the next revision of their channel; the tombstone goes if it was seen, nothing else changes.
   */
  ghost predicate Created(s: Store, s': Store, user: UserInput, ciphertext: string, verifier: string, cleared: bool) {
    && UserKey(user.id) !in s.directory && CredentialKey(user.id) !in s.credentials
    && !UsernameTaken(s.directory, user.profile.username)
    && Holds(s'.directory, UserKey(user.id), UserRow(user.profile, s.directoryRevision + 1))
    && Holds(s'.credentials, CredentialKey(user.id), CredentialRow(ciphertext, verifier, s.credentialRevision + 1))
    && (cleared ==> TombstoneKey(user.id) !in s'.directory)
    && (forall k | k != UserKey(user.id) && !(cleared && k == TombstoneKey(user.id)) ::
       Same(s.directory, s'.directory, k))
    && OnlyChanges(s.credentials, s'.credentials, CredentialKey(user.id))
    && s'.directoryRevision == s.directoryRevision + 1 && s'.credentialRevision == s.credentialRevision + 1
  }

  /** The three contact fields of an existing user change, and its revision; no other field and no other row does. */
  ghost predicate ContactChanged(s: Store, s': Store, id: string,
                                 email: Option<string>, mobile: Option<string>, telephone: Option<string>) {
    var k := UserKey(id);
    && k in s.directory && s.directory[k].UserRow? && k in s'.directory && s'.directory[k].UserRow?
    && var p, p' := s.directory[k].profile, s'.directory[k].profile;
    && p'.email == email && p'.mobile == mobile && p'.telephone == telephone
    && p'.username == p.username && p'.displayName == p.displayName
    && p'.surname == p.surname && p'.givenName == p.givenName
    && p'.organizationalUnitId == p.organizationalUnitId && p'.status == p.status
    && s'.directory[k].revision == s.directoryRevision + 1
    && OnlyChanges(s.directory, s'.directory, k)
    && s'.credentials == s.credentials
    && s'.directoryRevision == s.directoryRevision + 1 && s'.credentialRevision == s.credentialRevision
  }

  /** No OU has it as its parent, and no user and no group is in it. */
  ghost predicate Unreferenced(t: Tables, id: string) {
    && (forall k | k in t && t[k].OuRow? :: t[k].parentId != Some(id))
    && (forall k | k in t && t[k].UserRow? :: t[k].profile.organizationalUnitId != id)
    && (forall k | k in t && t[k].GroupRow? :: t[k].organizationalUnitId != id)
  }

  lemma InUseExactly(t: Tables, id: string)
    ensures OuInUse(t, id) <==> !Unreferenced(t, id)
  {
    if k :| k in t && RefersTo(t[k], id) {
      assert t[k].OuRow? || t[k].UserRow? || t[k].GroupRow?;
    }
    if !OuInUse(t, id) {
      assert forall k | k in t :: !RefersTo(t[k], id);
    }
  }

  /** An OU to which no OU, user or group referred is gone, without a tombstone, and a revision is spent. */
  ghost predicate OuDeleted(s: Store, s': Store, id: string) {
    && OuKey(id) in s.directory && OuKey(id) !in s'.directory
    && Unreferenced(s.directory, id) && Unreferenced(s'.directory, id)
    && OnlyChanges(s.directory, s'.directory, OuKey(id))
    && s'.credentials == s.credentials
    && s'.directoryRevision == s.directoryRevision + 1 && s'.credentialRevision == s.credentialRevision
  }

  /** The employee has the new credential at the next credential revision; nothing else changed. */
  ghost predicate PasswordChanged(s: Store, s': Store, id: string, ciphertext: string, verifier: string) {
    && Holds(s'.credentials, CredentialKey(id), CredentialRow(ciphertext, verifier, s.credentialRevision + 1))
    && OnlyChanges(s.credentials, s'.credentials, CredentialKey(id))
    && s'.directory == s.directory
    && s'.directoryRevision == s.directoryRevision && s'.credentialRevision == s.credentialRevision + 1
  }

  lemma CreateWrites(s: Store, op: WriteOp)
    requires op.Create? && Commit(s, op).Some?
    ensures Created(s, Commit(s, op).value, op.user, op.ciphertext, op.verifier, op.cleared)
  {
    var t := if op.cleared then s.directory - {TombstoneKey(op.user.id)} else s.directory;
    assert forall k | k in s.directory && k.UserKey? :: k in t && t[k] == s.directory[k];
  }

  lemma ContactWrites(s: Store, op: WriteOp)
    requires op.UpdateContact? && Commit(s, op).Some?
    ensures ContactChanged(s, Commit(s, op).value, op.id, op.email, op.mobile, op.telephone)
  {
  }

  lemma DeleteOuWrites(s: Store, op: WriteOp)
    requires op.DeleteOu? && Commit(s, op).Some?
    ensures OuDeleted(s, Commit(s, op).value, op.id)
  {
    InUseExactly(s.directory, op.id);
  }

  lemma PasswordWrites(s: Store, op: WriteOp)
    requires op.ChangePassword? && Commit(s, op).Some?
    ensures PasswordChanged(s, Commit(s, op).value, op.id, op.ciphertext, op.verifier)
  {
  }

  // ----- When a transaction commits -----

  /**
   When user `i` of an upsert is written, another employee holds the username: the last version
   before it of another user of the input, or a stored user whom the input has not replaced yet.
   */
  ghost predicate NameHeld(t: Tables, users: seq<UserInput>, i: nat)
    requires i < |users|
  {
    || (exists j: nat ::
          && LastUser(users[..i], j) && users[j].id != users[i].id
          && users[j].profile.username == users[i].profile.username)
    || (exists k ::
          && k in t && k.UserKey? && t[k].UserRow? && t[k].profile.username == users[i].profile.username
          && (forall j | 0 <= j <= i :: users[j].id != k.id))
  }

  lemma {:induction false} LastVersion(users: seq<UserInput>, id: string) returns (i: nat)
    requires exists j :: 0 <= j < |users| && users[j].id == id
    ensures LastUser(users, i) && users[i].id == id
  {
    var n := |users| - 1;
    if users[n].id == id {
      i := n;
    } else {
      var j :| 0 <= j < |users| && users[j].id == id;
      assert users[..n][j].id == id;
      i := LastVersion(users[..n], id);
      assert forall j | i < j < |users| :: j < n ==> users[..n][j] == users[j];
    }
  }

  lemma TakenExactly(t: Tables, users: seq<UserInput>, revision: nat, n: nat, before: Tables)
    requires n < |users| && PutUsers(t, users[..n], revision) == Some(before)
    ensures UsernameTaken(before - {TombstoneKey(users[n].id), UserKey(users[n].id)}, users[n].profile.username) <==>
            NameHeld(t, users, n)
  {
    var rest, name := before - {TombstoneKey(users[n].id), UserKey(users[n].id)}, users[n].profile.username;
    if k :| k in rest && k.UserKey? && rest[k].UserRow? && rest[k].profile.username == name {
      TakenHeld(t, users, revision, n, before, k);
    }
    if NameHeld(t, users, n) {
      HeldTaken(t, users, revision, n, before);
    }
  }

  lemma TakenHeld(t: Tables, users: seq<UserInput>, revision: nat, n: nat, before: Tables, k: Key)
    requires n < |users| && PutUsers(t, users[..n], revision) == Some(before)
    requires k in before && k.UserKey? && k.id != users[n].id && before[k].UserRow?
    requires before[k].profile.username == users[n].profile.username
    ensures NameHeld(t, users, n)
  {
    hide PutUsers;
    if exists j :: 0 <= j < |users[..n]| && users[..n][j].id == k.id {
      var j := LastVersion(users[..n], k.id);
      PutUsersLast(t, users[..n], revision, j);
    } else {
      assert forall j | 0 <= j < n :: users[..n][j] == users[j];
      PutUsersFrame(t, users[..n], revision, k);
    }
  }

  lemma HeldTaken(t: Tables, users: seq<UserInput>, revision: nat, n: nat, before: Tables)
    requires n < |users| && PutUsers(t, users[..n], revision) == Some(before) && NameHeld(t, users, n)
    ensures UsernameTaken(before - {TombstoneKey(users[n].id), UserKey(users[n].id)}, users[n].profile.username)
  {
    hide PutUsers;
    var rest, name := before - {TombstoneKey(users[n].id), UserKey(users[n].id)}, users[n].profile.username;
    if j: nat :| LastUser(users[..n], j) && users[j].id != users[n].id && users[j].profile.username == name {
      PutUsersLast(t, users[..n], revision, j);
      assert UserKey(users[j].id) in rest;
    } else {
      var k :| && k in t && k.UserKey? && t[k].UserRow? && t[k].profile.username == name
               && (forall j | 0 <= j <= n :: users[j].id != k.id);
      PutUsersFrame(t, users[..n], revision, k);
      assert k in rest;
    }
  }

  /** Writing the users succeeds exactly when each of them finds its username free. */
  lemma {:induction false} PutUsersExactly(t: Tables, users: seq<UserInput>, revision: nat)
    ensures PutUsers(t, users, revision).Some? <==> forall i | 0 <= i < |users| :: !NameHeld(t, users, i)
  {
    if users != [] {
      var n := |users| - 1;
      PutUsersExactly(t, users[..n], revision);
      forall i | 0 <= i < n ensures NameHeld(t, users, i) <==> NameHeld(t, users[..n], i) {
        assert users[..n][..i] == users[..i];
      }
      if PutUsers(t, users[..n], revision).Some? {
        TakenExactly(t, users, revision, n, PutUsers(t, users[..n], revision).value);
      }
      hide NameHeld;
    }
  }

  lemma OusKeepNames(t: Tables, ous: seq<OuInput>, revision: nat, users: seq<UserInput>, i: nat)
    requires i < |users|
    ensures NameHeld(PutOus(t, ous, revision), users, i) <==> NameHeld(t, users, i)
  {
    var t' := PutOus(t, ous, revision);
    forall k: Key | k.UserKey? ensures Same(t, t', k) { PutOusFrame(t, ous, revision, k); }
    hide PutOus;
  }

  /** An upsert commits exactly when it is not empty, the counter has room and every username is free. */
  ghost predicate UpsertPossible(s: Store, ous: seq<OuInput>, users: seq<UserInput>, groups: seq<GroupInput>) {
    && (ous != [] || users != [] || groups != [])
    && s.directoryRevision < 0x7fff_ffff_ffff_ffff
    && (forall i | 0 <= i < |users| :: !NameHeld(s.directory, users, i))
  }

  lemma UpsertCommitsExactly(s: Store, ous: seq<OuInput>, users: seq<UserInput>, groups: seq<GroupInput>)
    ensures Commit(s, Upsert(ous, users, groups)).Some? <==> UpsertPossible(s, ous, users, groups)
  {
    var revision := s.directoryRevision + 1;
    PutUsersExactly(PutOus(s.directory, ous, revision), users, revision);
    forall i | 0 <= i < |users|
      ensures NameHeld(PutOus(s.directory, ous, revision), users, i) <==> NameHeld(s.directory, users, i)
    {
      OusKeepNames(s.directory, ous, revision, users, i);
    }
    hide NameHeld, PutOus, PutUsers, PutGroups;
  }

  /** A create commits exactly when both rows and the username are free and both counters have room. */
  ghost predicate CreatePossible(s: Store, user: UserInput) {
    && UserKey(user.id) !in s.directory && CredentialKey(user.id) !in s.credentials
    && (forall k | k in s.directory && k.UserKey? && s.directory[k].UserRow? ::
          s.directory[k].profile.username != user.profile.username)
    && s.directoryRevision < 0x7fff_ffff_ffff_ffff && s.credentialRevision < 0x7fff_ffff_ffff_ffff
  }

  lemma CreateCommitsExactly(s: Store, op: WriteOp)
    requires op.Create?
    ensures Commit(s, op).Some? <==> CreatePossible(s, op.user)
  {
    var t := if op.cleared then s.directory - {TombstoneKey(op.user.id)} else s.directory;
    assert forall k | k in s.directory && k.UserKey? :: k in t && t[k] == s.directory[k];
  }

  // ----- Usernames stay unique -----

  ghost predicate UsernamesUnique(t: Tables) {
    forall k, k' | k in t && k' in t && k.UserKey? && k'.UserKey? && t[k].UserRow? && t[k'].UserRow? ::
      t[k].profile.username == t[k'].profile.username ==> k == k'
  }

  lemma {:induction false} PutOusUsernames(t: Tables, ous: seq<OuInput>, revision: nat)
    requires UsernamesUnique(t)
    ensures UsernamesUnique(PutOus(t, ous, revision))
  {
    if ous != [] { PutOusUsernames(t, ous[..|ous| - 1], revision); }
  }

  lemma {:induction false} PutUsersUsernames(t: Tables, users: seq<UserInput>, revision: nat)
    requires UsernamesUnique(t)
    ensures PutUsers(t, users, revision).Some? ==> UsernamesUnique(PutUsers(t, users, revision).value)
  {
    if users != [] { PutUsersUsernames(t, users[..|users| - 1], revision); }
  }

  lemma {:induction false} PutGroupsUsernames(t: Tables, groups: seq<GroupInput>, revision: nat)
    requires UsernamesUnique(t)
    ensures UsernamesUnique(PutGroups(t, groups, revision))
  {
    if groups != [] { PutGroupsUsernames(t, groups[..|groups| - 1], revision); }
  }

  /** No transaction lets two users share a username. */
  lemma CommitKeepsUsernames(s: Store, op: WriteOp)
    requires Commit(s, op).Some? && UsernamesUnique(s.directory)
    ensures UsernamesUnique(Commit(s, op).value.directory)
  {
    if op.Upsert? {
      var revision := s.directoryRevision + 1;
      var t1 := PutOus(s.directory, op.ous, revision);
      PutOusUsernames(s.directory, op.ous, revision);
      PutUsersUsernames(t1, op.users, revision);
      PutGroupsUsernames(PutUsers(t1, op.users, revision).value, op.groups, revision);
    }
  }
}
