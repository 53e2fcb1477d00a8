/**
 The rows Core keeps and the transactions that write them.

 A database table is a set of keys of one constructor, so a set of tables is one
 map from key to row.  The directory tables and the credential table are separate
 maps because each channel has its own revision counter.
 */
module Store {

  datatype Option<+T> = None | Some(value: T)

  datatype Table = OuTable | UserTable | GroupTable | TombstoneTable | CredentialTable

  /** Table plus primary key. */
  datatype Key =
    | OuKey(id: string)
    | UserKey(id: string)
    | GroupKey(id: string)
    | TombstoneKey(id: string)
    | CredentialKey(id: string)
  {
    function InTable(): Table {
      match this
      case OuKey(_) => OuTable
      case UserKey(_) => UserTable
      case GroupKey(_) => GroupTable
      case TombstoneKey(_) => TombstoneTable
      case CredentialKey(_) => CredentialTable
    }

    /** The other key that speaks about the same employee: a user row and a tombstone are twins. */
    function Twin(): Key {
      match this
      case UserKey(id) => TombstoneKey(id)
      case TombstoneKey(id) => UserKey(id)
      case _ => this
    }
  }

  datatype UserStatus = Active | Disabled

  datatype Profile = Profile(
    username: string,
    displayName: string,
    surname: string,
    givenName: string,
    email: Option<string>,
    mobile: Option<string>,
    telephone: Option<string>,
    organizationalUnitId: string,
    status: UserStatus)

  datatype Row =
    | OuRow(name: string, parentId: Option<string>, revision: nat)
    | UserRow(profile: Profile, revision: nat)
    | GroupRow(name: string, organizationalUnitId: string, members: seq<string>, revision: nat)
    | TombstoneRow(revision: nat)
    | CredentialRow(ciphertext: string, verifier: string, revision: nat)

  type Tables = map<Key, Row>

  datatype Store = Store(directory: Tables, credentials: Tables, directoryRevision: nat, credentialRevision: nat)

  datatype OuInput = OuInput(id: string, name: string, parentId: Option<string>)
  datatype UserInput = UserInput(id: string, profile: Profile)
  datatype GroupInput = GroupInput(id: string, name: string, organizationalUnitId: string, members: seq<string>)

  /**
   One write transaction.  `Create` records whether its early tombstone delete, which
   runs before the revision row is locked, found the tombstone or not.
   */
  datatype WriteOp =
    | Upsert(ous: seq<OuInput>, users: seq<UserInput>, groups: seq<GroupInput>)
    | Create(user: UserInput, ciphertext: string, verifier: string, cleared: bool)
    | UpdateContact(id: string, email: Option<string>, mobile: Option<string>, telephone: Option<string>)
    | DeleteOu(id: string)
    | DeleteUser(id: string)
    | ChangePassword(id: string, ciphertext: string, verifier: string)

  const MAX_REVISION: nat := 0x7fff_ffff_ffff_ffff

  predicate UsernameTaken(t: Tables, username: string) {
    exists k :: k in t && k.UserKey? && t[k].UserRow? && t[k].profile.username == username
  }

  function PutOus(t: Tables, ous: seq<OuInput>, revision: nat): Tables {
    if ous == [] then t
    else
      var last := ous[|ous| - 1];
      PutOus(t, ous[..|ous| - 1], revision)[OuKey(last.id) := OuRow(last.name, last.parentId, revision)]
  }

  /** Clears the tombstone, replaces the user row; fails when the username belongs to somebody else. */
  function PutUser(t: Tables, user: UserInput, revision: nat): Option<Tables> {
    var rest := t - {TombstoneKey(user.id), UserKey(user.id)};
    if UsernameTaken(rest, user.profile.username) then None
    else Some(rest[UserKey(user.id) := UserRow(user.profile, revision)])
  }

  function PutUsers(t: Tables, users: seq<UserInput>, revision: nat): Option<Tables> {
    if users == [] then Some(t)
    else
      match PutUsers(t, users[..|users| - 1], revision)
      case None => None
      case Some(before) => PutUser(before, users[|users| - 1], revision)
  }

  function PutGroups(t: Tables, groups: seq<GroupInput>, revision: nat): Tables {
    if groups == [] then t
    else
      var last := groups[|groups| - 1];
      PutGroups(t, groups[..|groups| - 1], revision)
      [GroupKey(last.id) := GroupRow(last.name, last.organizationalUnitId, last.members, revision)]
  }

  function Without(members: seq<string>, id: string): seq<string> {
    if members == [] then []
    else if members[|members| - 1] == id then Without(members[..|members| - 1], id)
    else Without(members[..|members| - 1], id) + [members[|members| - 1]]
  }

  /** A group row after its member `id` left; other rows are untouched. */
  function LeaveGroup(row: Row, id: string, revision: nat): Row {
    if row.GroupRow? && id in row.members then row.(members := Without(row.members, id), revision := revision) else row
  }

  function LeaveGroups(t: Tables, id: string, revision: nat): Tables {
    map k | k in t :: LeaveGroup(t[k], id, revision)
  }

  /** The row names the OU as its parent or its place. */
  predicate RefersTo(row: Row, id: string) {
    match row
    case OuRow(_, parentId, _) => parentId == Some(id)
    case UserRow(profile, _) => profile.organizationalUnitId == id
    case GroupRow(_, organizationalUnitId, _, _) => organizationalUnitId == id
    case _ => false
  }

  predicate OuInUse(t: Tables, id: string) {
    exists k :: k in t && RefersTo(t[k], id)
  }

  /** The store after the transaction commits; None when it rolls back. */
  function Commit(s: Store, op: WriteOp): Option<Store> {
    match op
    case Upsert(ous, users, groups) =>
      if (ous == [] && users == [] && groups == []) || s.directoryRevision >= MAX_REVISION then None
      else
        var revision := s.directoryRevision + 1;
        (match PutUsers(PutOus(s.directory, ous, revision), users, revision)
         case None => None
         case Some(t) => Some(s.(directory := PutGroups(t, groups, revision), directoryRevision := revision)))
    case Create(user, ciphertext, verifier, cleared) =>
      var t := if cleared then s.directory - {TombstoneKey(user.id)} else s.directory;
      if s.directoryRevision >= MAX_REVISION || UserKey(user.id) in t || UsernameTaken(t, user.profile.username)
         || s.credentialRevision >= MAX_REVISION || CredentialKey(user.id) in s.credentials then None
      else
        Some(Store(t[UserKey(user.id) := UserRow(user.profile, s.directoryRevision + 1)],
                   s.credentials[CredentialKey(user.id) := CredentialRow(ciphertext, verifier,
                     s.credentialRevision + 1)],
                   s.directoryRevision + 1,
                   s.credentialRevision + 1))
    case UpdateContact(id, email, mobile, telephone) =>
      if s.directoryRevision >= MAX_REVISION || UserKey(id) !in s.directory || !s.directory[UserKey(id)].UserRow?
        then None
      else
        var profile := s.directory[UserKey(id)].profile.(email := email, mobile := mobile, telephone := telephone);
        Some(s.(directory := s.directory[UserKey(id) := UserRow(profile, s.directoryRevision + 1)],
                directoryRevision := s.directoryRevision + 1))
    case DeleteOu(id) =>
      if s.directoryRevision >= MAX_REVISION || OuKey(id) !in s.directory || OuInUse(s.directory, id) then None
      else Some(s.(directory := s.directory - {OuKey(id)}, directoryRevision := s.directoryRevision + 1))
    case DeleteUser(id) =>
      if s.directoryRevision >= MAX_REVISION || UserKey(id) !in s.directory then None
      else
        var revision := s.directoryRevision + 1;
        Some(s.(directory := LeaveGroups(s.directory - {UserKey(id)}, id,
          revision)[TombstoneKey(id) := TombstoneRow(revision)],
                credentials := s.credentials - {CredentialKey(id)},
                directoryRevision := revision))
    case ChangePassword(id, ciphertext, verifier) =>
      if s.credentialRevision >= MAX_REVISION then None
      else
        Some(s.(credentials := s.credentials[CredentialKey(id) := CredentialRow(ciphertext, verifier,
          s.credentialRevision + 1)],
                credentialRevision := s.credentialRevision + 1))
  }

  // ----- What every transaction does to the revisions of one channel -----

  /**
   Between two moments the counter only grew, and every row is either untouched or carries
   a revision newer than the first moment.  When a row is gone, its twin, if there is one,
   is newer too.
   */
  ghost predicate Later(t: Tables, revision: nat, t': Tables, revision': nat) {
    && revision <= revision'
    && (forall k | k in t' :: (k in t && t'[k] == t[k]) || revision < t'[k].revision <= revision')
    && (forall k | k in t && k !in t' :: k.Twin() in t' ==> revision < t'[k.Twin()].revision)
  }

  lemma LaterTransitive(t0: Tables, r0: nat, t1: Tables, r1: nat, t2: Tables, r2: nat)
    requires Later(t0, r0, t1, r1) && Later(t1, r1, t2, r2)
    ensures Later(t0, r0, t2, r2)
  {
    forall k | k in t0 && k !in t2 && k.Twin() in t2
      ensures r0 < t2[k.Twin()].revision
    {
      var twin := k.Twin();
      if k !in t1 && twin in t1 && t2[twin] == t1[twin] {
        assert r0 < t1[twin].revision;
      }
    }
  }

  lemma {:induction false} PutOusLater(t: Tables, ous: seq<OuInput>, revision: nat)
    ensures Later(t, revision, PutOus(t, ous, revision + 1), revision + 1)
    ensures forall k | k in PutOus(t, ous, revision + 1) :: k in t || k.OuKey?
    ensures forall k | k in t :: k in PutOus(t, ous, revision + 1)
  {
    if ous != [] {
      PutOusLater(t, ous[..|ous| - 1], revision);
    }
  }

  lemma PutUserLater(t0: Tables, t: Tables, user: UserInput, revision: nat)
    requires Later(t0, revision, t, revision + 1)
    ensures match PutUser(t, user, revision + 1)
            case None => true
            case Some(t') =>
              && Later(t0, revision, t', revision + 1)
              && (forall k | k in t' :: k in t || k.UserKey?)
              && (forall k | k in t :: k in t' || (k == TombstoneKey(user.id) && k.Twin() in t'))
  {
  }

  /** Nothing disappeared except tombstones whose user row came back. */
  ghost predicate Kept(t: Tables, t': Tables) {
    forall k | k in t :: k in t' || k.Twin() in t'
  }

  lemma {:induction false} PutUsersLater(t0: Tables, t: Tables, users: seq<UserInput>, revision: nat)
    requires Later(t0, revision, t, revision + 1) && Kept(t0, t)
    ensures match PutUsers(t, users, revision + 1)
            case None => true
            case Some(t') =>
              && Later(t0, revision, t', revision + 1)
              && Kept(t0, t')
              && (forall k | k in t' :: k in t || k.UserKey?)
  {
    if users != [] {
      PutUsersLater(t0, t, users[..|users| - 1], revision);
      var before := PutUsers(t, users[..|users| - 1], revision + 1);
      if before.Some? {
        PutUserLater(t0, before.value, users[|users| - 1], revision);
      }
    }
  }

  lemma {:induction false} PutGroupsLater(t0: Tables, t: Tables, groups: seq<GroupInput>, revision: nat)
    requires Later(t0, revision, t, revision + 1) && Kept(t0, t)
    ensures Later(t0, revision, PutGroups(t, groups, revision + 1), revision + 1)
    ensures Kept(t0, PutGroups(t, groups, revision + 1))
    ensures forall k | k in PutGroups(t, groups, revision + 1) :: k in t || k.GroupKey?
  {
    if groups != [] {
      PutGroupsLater(t0, t, groups[..|groups| - 1], revision);
    }
  }

  lemma UpsertLater(s: Store, op: WriteOp)
    requires op.Upsert? && Commit(s, op).Some?
    ensures var s' := Commit(s, op).value;
            && Later(s.directory, s.directoryRevision, s'.directory, s'.directoryRevision)
            && Kept(s.directory, s'.directory)
            && (forall k | k in s'.directory :: k in s.directory || !k.CredentialKey?)
  {
    var revision := s.directoryRevision;
    PutOusLater(s.directory, op.ous, revision);
    var t1 := PutOus(s.directory, op.ous, revision + 1);
    PutUsersLater(s.directory, t1, op.users, revision);
    PutGroupsLater(s.directory, PutUsers(t1, op.users, revision + 1).value, op.groups, revision);
  }

  lemma CreateLater(s: Store, op: WriteOp)
    requires op.Create? && Commit(s, op).Some?
    ensures var s' := Commit(s, op).value;
            && Later(s.directory, s.directoryRevision, s'.directory, s'.directoryRevision)
            && Later(s.credentials, s.credentialRevision, s'.credentials, s'.credentialRevision)
            && Kept(s.directory, s'.directory)
  {
  }

  lemma DeleteUserLater(s: Store, op: WriteOp)
    requires op.DeleteUser? && Commit(s, op).Some?
    ensures var s' := Commit(s, op).value;
            && Later(s.directory, s.directoryRevision, s'.directory, s'.directoryRevision)
            && Kept(s.directory, s'.directory)
  {
    var left := LeaveGroups(s.directory - {UserKey(op.id)}, op.id, s.directoryRevision + 1);
    assert left.Keys == s.directory.Keys - {UserKey(op.id)};
  }

  /** Every committed transaction, seen by either channel, only replaces rows by newer ones. */
  lemma CommitLater(s: Store, op: WriteOp)
    requires Commit(s, op).Some?
    ensures var s' := Commit(s, op).value;
            && Later(s.directory, s.directoryRevision, s'.directory, s'.directoryRevision)
            && Later(s.credentials, s.credentialRevision, s'.credentials, s'.credentialRevision)
            && (!op.DeleteOu? ==> Kept(s.directory, s'.directory))
            && (!op.DeleteUser? ==> Kept(s.credentials, s'.credentials))
  {
    match op
    case Upsert(_, _, _) => UpsertLater(s, op);
    case Create(_, _, _, _) => CreateLater(s, op);
    case DeleteUser(_) => DeleteUserLater(s, op);
    case _ =>
  }

  /** Rows stay in the tables of their channel. */
  lemma CommitTables(s: Store, op: WriteOp)
    requires Commit(s, op).Some?
    ensures var s' := Commit(s, op).value;
            && (forall k | k in s'.directory :: k in s.directory || !k.CredentialKey?)
            && (forall k | k in s'.credentials :: k in s.credentials || k.CredentialKey?)
  {
    if op.Upsert? {
      UpsertLater(s, op);
    }
  }

  // ----- A user row and a tombstone for the same employee -----

  /** The twin row exists too, so two rows speak about one employee. */
  predicate Contested(t: Tables, k: Key) {
    k.Twin() != k && k.Twin() in t
  }

  ghost predicate Uncontested(t: Tables) {
    forall k | k in t :: !Contested(t, k)
  }

  /** A create whose early clear saw no tombstone although one is there at commit. */
  predicate RacingCreate(s: Store, op: WriteOp) {
    op.Create? && !op.cleared && TombstoneKey(op.user.id) in s.directory
  }

  lemma {:induction false} PutOusUncontested(t: Tables, ous: seq<OuInput>, revision: nat)
    requires Uncontested(t)
    ensures Uncontested(PutOus(t, ous, revision))
  {
    if ous != [] {
      PutOusUncontested(t, ous[..|ous| - 1], revision);
    }
  }

  lemma {:induction false} PutUsersUncontested(t: Tables, users: seq<UserInput>, revision: nat)
    requires Uncontested(t)
    ensures PutUsers(t, users, revision).Some? ==> Uncontested(PutUsers(t, users, revision).value)
  {
    if users != [] {
      PutUsersUncontested(t, users[..|users| - 1], revision);
    }
  }

  lemma {:induction false} PutGroupsUncontested(t: Tables, groups: seq<GroupInput>, revision: nat)
    requires Uncontested(t)
    ensures Uncontested(PutGroups(t, groups, revision))
  {
    if groups != [] {
      PutGroupsUncontested(t, groups[..|groups| - 1], revision);
    }
  }

  /** No employee has both rows after a commit, exactly unless the commit is a racing create. */
  lemma UncontestedExactly(s: Store, op: WriteOp)
    requires Commit(s, op).Some? && Uncontested(s.directory)
    ensures Uncontested(Commit(s, op).value.directory) <==> !RacingCreate(s, op)
  {
    var s' := Commit(s, op).value;
    if op.Upsert? {
      PutOusUncontested(s.directory, op.ous, s'.directoryRevision);
      var t1 := PutOus(s.directory, op.ous, s'.directoryRevision);
      PutUsersUncontested(t1, op.users, s'.directoryRevision);
      PutGroupsUncontested(PutUsers(t1, op.users, s'.directoryRevision).value, op.groups, s'.directoryRevision);
    } else if RacingCreate(s, op) {
      assert Contested(s'.directory, UserKey(op.user.id));
    }
  }
}
