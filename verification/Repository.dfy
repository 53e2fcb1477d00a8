/** The repository object: write transactions and the cut of a batch, as the store runs them. */
module Repository {
  import opened Store
  import opened Cut
  import opened Paging
  import opened Writes
  import opened Sorting

  // ----- The loops of an upsert -----

  method WriteOus(before: Tables, ous: seq<OuInput>, revision: nat) returns (t: Tables)
    ensures t == PutOus(before, ous, revision)
  {
    t := before;
    for i := 0 to |ous|
      invariant t == PutOus(before, ous[..i], revision)
    {
      assert ous[..i + 1][..i] == ous[..i];
      t := t[OuKey(ous[i].id) := OuRow(ous[i].name, ous[i].parentId, revision)];
    }
    assert ous[..|ous|] == ous;
  }

  /** None when a username belongs to somebody else, which rolls the transaction back. */
  method WriteUsers(before: Tables, users: seq<UserInput>, revision: nat) returns (r: Option<Tables>)
    ensures r == PutUsers(before, users, revision)
  {
    var t := before;
    for i := 0 to |users|
      invariant PutUsers(before, users[..i], revision) == Some(t)
    {
      assert users[..i + 1][..i] == users[..i];
      t := t - {TombstoneKey(users[i].id)};
      t := t - {UserKey(users[i].id)};
      assert t == PutUsersBase(before, users[..i], users[i], revision);
      if UsernameTaken(t, users[i].profile.username) {
        PutUsersFails(before, users, revision, i + 1);
        return None;
      }
      t := t[UserKey(users[i].id) := UserRow(users[i].profile, revision)];
    }
    assert users[..|users|] == users;
    r := Some(t);
  }

  method WriteGroups(before: Tables, groups: seq<GroupInput>, revision: nat) returns (t: Tables)
    ensures t == PutGroups(before, groups, revision)
  {
    t := before;
    for i := 0 to |groups|
      invariant t == PutGroups(before, groups[..i], revision)
    {
      assert groups[..i + 1][..i] == groups[..i];
      t := t[GroupKey(groups[i].id) := GroupRow(groups[i].name, groups[i].organizationalUnitId, groups[i].members,
        revision)];
    }
    assert groups[..|groups|] == groups;
  }

  // ----- The loop of a deletion -----

  /** Takes the employee out of one group after the other. */
  method LeaveAllGroups(before: Tables, id: string, revision: nat) returns (t: Tables)
    ensures t == LeaveGroups(before, id, revision)
  {
    hide Without;
    t := before;
    var todo := set k | k in before && before[k].GroupRow?;
    while todo != {}
      invariant todo <= before.Keys == t.Keys
      invariant forall k | k in t :: t[k] == if k in todo then before[k] else LeaveGroup(before[k], id, revision)
      decreases todo
    {
      var k :| k in todo;
      if id in t[k].members {
        t := t[k := t[k].(members := Without(t[k].members, id), revision := revision)];
      }
      todo := todo - {k};
    }
  }

  class Repository {
    var directory: Tables
    var credentials: Tables
    var directoryRevision: nat
    var credentialRevision: nat

    ghost function Contents(): Store
      reads this
    {
      Store(directory, credentials, directoryRevision, credentialRevision)
    }

    /** What a transaction leaves behind: the committed store and its revision, or the old store. */
    ghost predicate Ran(before: Store, op: WriteOp, committed: bool)
      reads this
    {
      match Commit(before, op)
      case None => !committed && Contents() == before
      case Some(after) => committed && Contents() == after
    }

    method UpsertDirectory(ous: seq<OuInput>, users: seq<UserInput>, groups: seq<GroupInput>)
      returns (committed: bool, revision: nat)
      modifies this
      ensures Ran(old(Contents()), Upsert(ous, users, groups), committed)
      ensures committed <==> UpsertPossible(old(Contents()), ous, users, groups)
      ensures committed || (ous == [] && users == [] && groups == []) ==> revision == directoryRevision
    {
      UpsertCommitsExactly(Contents(), ous, users, groups);
      hide UpsertPossible;
      committed, revision := false, directoryRevision;
      if (|ous| == 0 && |users| == 0 && |groups| == 0) || directoryRevision >= MAX_REVISION {
        return;
      }
      revision := directoryRevision + 1;
      var t := WriteOus(directory, ous, revision);
      var written := WriteUsers(t, users, revision);
      if written.None? {
        return;
      }
      t := WriteGroups(written.value, groups, revision);
      directory, directoryRevision, committed := t, revision, true;
    }

    method CreateUserWithInitialCredential(user: UserInput, ciphertext: string, verifier: string, cleared: bool)
      returns (committed: bool)
      modifies this
      ensures Ran(old(Contents()), Create(user, ciphertext, verifier, cleared), committed)
      ensures committed ==> Created(old(Contents()), Contents(), user, ciphertext, verifier, cleared)
      ensures !committed ==> Contents() == old(Contents())
      ensures committed <==> CreatePossible(old(Contents()), user)
    {
      committed := false;
      ghost var before, op := Contents(), Create(user, ciphertext, verifier, cleared);
      CreateCommitsExactly(before, op);
      if Commit(before, op).Some? {
        CreateWrites(before, op);
      }
      var t := directory;
      if cleared {
        t := t - {TombstoneKey(user.id)};
      }
      if directoryRevision >= MAX_REVISION { return; }
      if UserKey(user.id) in t || UsernameTaken(t, user.profile.username) { return; }
      t := t[UserKey(user.id) := UserRow(user.profile, directoryRevision + 1)];
      if credentialRevision >= MAX_REVISION { return; }
      if CredentialKey(user.id) in credentials { return; }
      credentials := credentials[CredentialKey(user.id) := CredentialRow(ciphertext, verifier, credentialRevision + 1)];
      directory, directoryRevision, credentialRevision := t, directoryRevision + 1, credentialRevision + 1;
      committed := true;
    }

    method UpdateUserContact(id: string, email: Option<string>, mobile: Option<string>, telephone: Option<string>)
      returns (committed: bool)
      modifies this
      ensures Ran(old(Contents()), UpdateContact(id, email, mobile, telephone), committed)
      ensures committed ==> ContactChanged(old(Contents()), Contents(), id, email, mobile, telephone)
      ensures committed <==> && old(directoryRevision) < 0x7fff_ffff_ffff_ffff
                             && UserKey(id) in old(directory) && old(directory)[UserKey(id)].UserRow?
      ensures !committed ==> Contents() == old(Contents())
    {
      committed := false;
      ghost var before, op := Contents(), UpdateContact(id, email, mobile, telephone);
      if Commit(before, op).Some? {
        ContactWrites(before, op);
      }
      if directoryRevision >= MAX_REVISION { return; }
      if UserKey(id) !in directory || !directory[UserKey(id)].UserRow? { return; }
      var existing := directory[UserKey(id)].profile;
      var t := directory - {UserKey(id)};
      t := t[UserKey(id) := UserRow(existing.(email := email, mobile := mobile, telephone := telephone),
        directoryRevision + 1)];
      assert t == Commit(Contents(), UpdateContact(id, email, mobile, telephone)).value.directory;
      directory, directoryRevision, committed := t, directoryRevision + 1, true;
    }

    method DeleteOrganizationalUnit(id: string) returns (committed: bool)
      modifies this
      ensures Ran(old(Contents()), DeleteOu(id), committed)
      ensures committed ==> OuDeleted(old(Contents()), Contents(), id)
      ensures !committed ==> Contents() == old(Contents())
      ensures committed <==> && old(directoryRevision) < 0x7fff_ffff_ffff_ffff
                             && OuKey(id) in old(directory)
                             && Unreferenced(old(directory), id)
    {
      committed := false;
      ghost var before := Contents();
      InUseExactly(directory, id);
      if Commit(before, DeleteOu(id)).Some? {
        DeleteOuWrites(before, DeleteOu(id));
      }
      if directoryRevision >= MAX_REVISION { return; }
      if OuKey(id) !in directory { return; }
      if OuInUse(directory, id) { return; }
      directory, directoryRevision, committed := directory - {OuKey(id)}, directoryRevision + 1, true;
    }

    method DeleteUserAndLeaveGroups(id: string) returns (committed: bool)
      modifies this
      ensures Ran(old(Contents()), DeleteUser(id), committed)
      ensures committed ==> UserDeleted(old(Contents()), Contents(), id)
      ensures committed <==> old(directoryRevision) < 0x7fff_ffff_ffff_ffff && UserKey(id) in old(directory)
      ensures !committed ==> Contents() == old(Contents())
    {
      committed := false;
      ghost var start := Contents();
      if Commit(start, DeleteUser(id)).Some? {
        DeleteUserWrites(start, DeleteUser(id));
      }
      if directoryRevision >= MAX_REVISION { return; }
      if UserKey(id) !in directory { return; }
      var revision := directoryRevision + 1;
      var before := directory - {UserKey(id)};
      var t := LeaveAllGroups(before, id, revision);
      hide LeaveGroups, Without;
      t := t[TombstoneKey(id) := TombstoneRow(revision)];
      credentials := credentials - {CredentialKey(id)};
      directory, directoryRevision, committed := t, revision, true;
    }

    method ChangeUserPassword(id: string, ciphertext: string, verifier: string) returns (committed: bool)
      modifies this
      ensures Ran(old(Contents()), ChangePassword(id, ciphertext, verifier), committed)
      ensures committed ==> PasswordChanged(old(Contents()), Contents(), id, ciphertext, verifier)
      ensures committed <==> old(credentialRevision) < 0x7fff_ffff_ffff_ffff
      ensures !committed ==> Contents() == old(Contents())
    {
      committed := false;
      ghost var before, op := Contents(), ChangePassword(id, ciphertext, verifier);
      if Commit(before, op).Some? {
        PasswordWrites(before, op);
      }
      if credentialRevision >= MAX_REVISION { return; }
      var t := credentials - {CredentialKey(id)};
      t := t[CredentialKey(id) := CredentialRow(ciphertext, verifier, credentialRevision + 1)];
      assert t == credentials[CredentialKey(id) := CredentialRow(ciphertext, verifier, credentialRevision + 1)];
      credentials, credentialRevision, committed := t, credentialRevision + 1, true;
    }
  }

  ghost function PutUsersBase(t: Tables, users: seq<UserInput>, user: UserInput, revision: nat): Tables {
    match PutUsers(t, users, revision)
    case None => map[]
    case Some(before) => before - {TombstoneKey(user.id), UserKey(user.id)}
  }

  /** Once one user fails, the whole list fails. */
  lemma {:induction false} PutUsersFails(t: Tables, users: seq<UserInput>, revision: nat, n: nat)
    requires n <= |users| && PutUsers(t, users[..n], revision).None?
    ensures PutUsers(t, users, revision).None?
    decreases |users|
  {
    if n < |users| {
      assert users[..|users| - 1][..n] == users[..n];
      PutUsersFails(t, users[..|users| - 1], revision, n);
    } else {
      assert users[..n] == users;
    }
  }

  // ----- The cut, computed by sorting and deduplicating -----

  function Leq(a: nat, b: nat): bool { a <= b }

  lemma SortedTail(sorted: seq<nat>)
    requires sorted != [] && Ascending(sorted, Leq) && NoRepeats(sorted)
    ensures sorted[0] in Elements(sorted) && Min(Elements(sorted)) == sorted[0]
    ensures Elements(sorted) - {sorted[0]} == Elements(sorted[1..])
    ensures Ascending(sorted[1..], Leq) && NoRepeats(sorted[1..])
  {
    var s := Elements(sorted);
    assert sorted[0] in s;
    forall x | x in sorted && x != sorted[0] ensures x in sorted[1..] {
      var i :| 0 <= i < |sorted| && sorted[i] == x;
      assert sorted[1..][i - 1] == x;
    }
  }

  lemma {:induction false} IndexIsCut(sorted: seq<nat>, limit: nat)
    requires sorted != [] && Elements(sorted) != {} && Ascending(sorted, Leq) && NoRepeats(sorted)
    ensures CutAt(Elements(sorted), limit) ==
            sorted[if AtLeastOne(limit) <= |sorted| then AtLeastOne(limit) - 1 else |sorted| - 1]
    decreases |sorted|
  {
    SortedTail(sorted);
    if |sorted| > 1 && limit > 1 {
      assert sorted[1] in Elements(sorted[1..]);
      hide Ascending, NoRepeats;
      IndexIsCut(sorted[1..], limit - 1);
    } else if |sorted| == 1 {
      assert Elements(sorted[1..]) == {};
    }
  }

  /** The batch revision and `has_more`, from the revisions that the queries returned, in any order, with repeats. */
  method BatchRevision(revisions: seq<nat>, limit: nat, server: nat) returns (cut: nat, hasMore: bool)
    ensures cut == CutOr(Elements(revisions), server, limit)
    ensures hasMore <==> |Elements(revisions)| > AtLeastOne(limit)
  {
    SortAscending(revisions, Leq);
    SortElements(revisions, Leq);
    var sorted := Dedup(Sort(revisions, Leq), Leq);
    NoRepeatsByCount(sorted);
    var size := if limit == 0 then 1 else limit;
    hasMore := |sorted| > size;
    if |sorted| == 0 {
      assert Elements(revisions) == {};
      cut := server;
    } else {
      assert sorted[0] in Elements(sorted);
      IndexIsCut(sorted, limit);
      cut := if size <= |sorted| then sorted[size - 1] else sorted[|sorted| - 1];
    }
  }
}
