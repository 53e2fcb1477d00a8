/**
 Concurrent write transactions: each loads the revision row, compares and sets it, writes
 its rows and commits.  The compare-and-set takes the lock of the revision row, which is
 held until commit or rollback; everything else reads committed data.
 */
module Transactions {
  import opened Store

  const MAX_ATTEMPTS: nat := 5

  datatype Tx =
    | Begun(op: WriteOp, attempt: nat)
    | Cleared(op: WriteOp, attempt: nat)
    | Loaded(op: WriteOp, attempt: nat, seen: nat)
    | Locked(op: WriteOp, revision: nat)
    | Prepared(op: WriteOp, revision: nat, pending: Store)

  /** A committed transaction, the revision its compare-and-set allocated, and the credential revision it left. */
  datatype Entry = Entry(op: WriteOp, revision: nat, credentialRevision: nat)

  datatype Db = Db(store: Store, holder: Option<nat>, txs: map<nat, Tx>, log: seq<Entry>)

  datatype TxAction =
    | Begin(id: nat, op: WriteOp)
    | ClearTombstone(id: nat)
    | LoadRevision(id: nat)
    | CompareAndSet(id: nat)
    | WriteRows(id: nat)
    | CommitTx(id: nat)
    | Rollback(id: nat)

  /** The counter that the transaction's first compare-and-set moves. */
  function Counter(s: Store, op: WriteOp): nat {
    if op.ChangePassword? then s.credentialRevision else s.directoryRevision
  }

  function End(db: Db, id: nat): Db {
    db.(txs := db.txs - {id}, holder := if db.holder == Some(id) then None else db.holder)
  }

  function With(db: Db, id: nat, tx: Tx): Db {
    db.(txs := db.txs[id := tx])
  }

  /** The early delete of a create transaction, which runs before the revision row is locked. */
  function Clear(db: Db, tx: Tx): WriteOp {
    if tx.op.Create? then tx.op.(cleared := TombstoneKey(tx.op.user.id) in db.store.directory) else tx.op
  }

  function Step(db: Db, a: TxAction): Db {
    if a.Begin? then
      if a.id in db.txs then db else With(db, a.id, Begun(a.op, 0))
    else if a.id !in db.txs then db
    else
      var tx := db.txs[a.id];
      match a
      case ClearTombstone(id) => if tx.Begun? then With(db, id, Cleared(Clear(db, tx), tx.attempt)) else db
      case LoadRevision(id) =>
        if tx.Cleared? then With(db, id, Loaded(tx.op, tx.attempt, Counter(db.store, tx.op))) else db
      case CompareAndSet(id) =>
        if !tx.Loaded? || db.holder.Some? then db
        else if tx.seen >= MAX_REVISION then End(db, id)
        else if Counter(db.store, tx.op) == tx.seen then With(db, id, Locked(tx.op, tx.seen + 1)).(holder := Some(id))
        else if tx.attempt + 1 < MAX_ATTEMPTS then With(db, id, Begun(tx.op, tx.attempt + 1))
        else End(db, id)
      case WriteRows(id) =>
        if !tx.Locked? then db
        else (match Commit(db.store, tx.op)
              case None => End(db, id)
              case Some(pending) => With(db, id, Prepared(tx.op, tx.revision, pending)))
      case CommitTx(id) =>
        if tx.Prepared?
        then End(db, id).(store := tx.pending, log := db.log + [Entry(tx.op, tx.revision,
          tx.pending.credentialRevision)])
        else db
      case Rollback(id) => End(db, id)
  }

  function Steps(db: Db, actions: seq<TxAction>): Db {
    if actions == [] then db else Step(Steps(db, actions[..|actions| - 1]), actions[|actions| - 1])
  }

  function NewDb(store: Store): Db {
    Db(store, None, map[], [])
  }

  /** The committed transactions one after the other, each on its own; None if one of them could not commit. */
  function Serial(store: Store, log: seq<Entry>): Option<Store> {
    if log == [] then Some(store)
    else
      match Serial(store, log[..|log| - 1])
      case None => None
      case Some(before) => Commit(before, log[|log| - 1].op)
  }

  /** The directory revisions that the transactions of a log allocated, in commit order. */
  function DirectoryRevisions(log: seq<Entry>): seq<nat> {
    if log == [] then []
    else
      var last := log[|log| - 1];
      DirectoryRevisions(log[..|log| - 1]) + if last.op.ChangePassword? then [] else [last.revision]
  }

  /** The credential revisions: password changes and user creations allocate one. */
  function CredentialRevisions(log: seq<Entry>): seq<nat> {
    if log == [] then []
    else
      var last := log[|log| - 1];
      CredentialRevisions(log[..|log| - 1])
      + if last.op.ChangePassword? || last.op.Create? then [last.credentialRevision] else []
  }

  ghost predicate TxValid(db: Db, id: nat)
    requires id in db.txs
  {
    match db.txs[id]
    case Begun(_, attempt) => attempt < MAX_ATTEMPTS
    case Cleared(_, attempt) => attempt < MAX_ATTEMPTS
    case Loaded(op, attempt, seen) => attempt < MAX_ATTEMPTS && seen <= Counter(db.store, op)
    case Locked(op, revision) => db.holder == Some(id) && revision == Counter(db.store, op) + 1
    case Prepared(op, revision, pending) =>
      db.holder == Some(id) && revision == Counter(db.store, op) + 1 && Commit(db.store, op) == Some(pending)
  }

  ghost predicate Valid(db: Db, initial: Store) {
    && (forall id | id in db.txs :: TxValid(db, id))
    && Serial(initial, db.log) == Some(db.store)
  }

  lemma CommitMovesCounter(s: Store, op: WriteOp, other: WriteOp)
    requires Commit(s, op).Some?
    ensures Counter(Commit(s, op).value, op) == Counter(s, op) + 1
    ensures Counter(s, other) <= Counter(Commit(s, op).value, other)
  {
  }

  lemma StepKeepsValid(db: Db, a: TxAction, initial: Store)
    requires Valid(db, initial)
    ensures Valid(Step(db, a), initial)
  {
    var db' := Step(db, a);
    if a.CommitTx? && a.id in db.txs && db.txs[a.id].Prepared? {
      var tx := db.txs[a.id];
      assert db'.log[..|db.log|] == db.log;
      forall id | id in db'.txs ensures TxValid(db', id) {
        assert TxValid(db, id) && TxValid(db, a.id);
        CommitMovesCounter(db.store, tx.op, db.txs[id].op);
      }
    } else {
      hide Commit;
      forall id | id in db'.txs ensures TxValid(db', id) {
        if id in db.txs { assert TxValid(db, id); }
      }
    }
  }

  /**
   Serializability: whatever the interleaving, the committed store is the one that the committed
   transactions produce when they run one after the other in commit order.
   */
  lemma {:induction false} Serializable(store: Store, actions: seq<TxAction>)
    ensures Valid(Steps(NewDb(store), actions), store)
  {
    if actions != [] {
      Serializable(store, actions[..|actions| - 1]);
      StepKeepsValid(Steps(NewDb(store), actions[..|actions| - 1]), actions[|actions| - 1], store);
    }
  }

  // ----- Revisions are allocated without gaps or repeats, in commit order -----

  ghost predicate Consecutive(s: seq<nat>, start: nat) {
    forall i | 0 <= i < |s| :: s[i] == start + i + 1
  }

  /** The log's revisions follow the counters. */
  ghost predicate Numbered(db: Db, initial: Store) {
    && Consecutive(DirectoryRevisions(db.log), initial.directoryRevision)
    && db.store.directoryRevision == initial.directoryRevision + |DirectoryRevisions(db.log)|
    && Consecutive(CredentialRevisions(db.log), initial.credentialRevision)
    && db.store.credentialRevision == initial.credentialRevision + |CredentialRevisions(db.log)|
  }

  /** Which counters a transaction moves. */
  lemma CommitCounters(s: Store, op: WriteOp)
    requires Commit(s, op).Some?
    ensures var s' := Commit(s, op).value;
            && s'.directoryRevision == s.directoryRevision + (if op.ChangePassword? then 0 else 1)
            && s'.credentialRevision == s.credentialRevision + (if op.ChangePassword? || op.Create? then 1 else 0)
  {
  }

  lemma RevisionsAppend(log: seq<Entry>, e: Entry)
    ensures DirectoryRevisions(log + [e]) ==
            DirectoryRevisions(log) + if e.op.ChangePassword? then [] else [e.revision]
    ensures CredentialRevisions(log + [e]) ==
            CredentialRevisions(log) + if e.op.ChangePassword? || e.op.Create? then [e.credentialRevision] else []
  {
    assert (log + [e])[..|log|] == log;
  }

  lemma StepKeepsNumbered(db: Db, a: TxAction, initial: Store)
    requires Valid(db, initial) && Numbered(db, initial)
    ensures Numbered(Step(db, a), initial)
  {
    hide Commit, DirectoryRevisions, CredentialRevisions, Serial;
    if a.CommitTx? && a.id in db.txs && db.txs[a.id].Prepared? {
      var tx := db.txs[a.id];
      assert TxValid(db, a.id);
      CommitCounters(db.store, tx.op);
      RevisionsAppend(db.log, Entry(tx.op, tx.revision, tx.pending.credentialRevision));
    }
  }

  /**
   In each channel the committed transactions got exactly the revisions that follow the initial
   one, in commit order, and the counter is the initial one plus their number.
   */
  lemma {:induction false} RevisionsConsecutive(store: Store, actions: seq<TxAction>)
    ensures Numbered(Steps(NewDb(store), actions), store)
  {
    if actions != [] {
      var before := Steps(NewDb(store), actions[..|actions| - 1]);
      RevisionsConsecutive(store, actions[..|actions| - 1]);
      Serializable(store, actions[..|actions| - 1]);
      StepKeepsNumbered(before, actions[|actions| - 1], store);
    }
  }

  /** A transaction that loses its compare-and-set starts over, and gives up with its fifth attempt. */
  lemma FiveAttempts(db: Db, id: nat)
    requires id in db.txs && db.txs[id].Loaded? && db.holder.None?
    requires db.txs[id].seen < MAX_REVISION && db.txs[id].seen != Counter(db.store, db.txs[id].op)
    ensures var db', tx := Step(db, CompareAndSet(id)), db.txs[id];
            && db'.store == db.store && db'.log == db.log && db'.holder.None?
            && db'.txs == if tx.attempt < 4 then db.txs[id := Begun(tx.op, tx.attempt + 1)] else db.txs - {id}
  {
  }

  /** A lost compare-and-set means that another transaction committed since the row was loaded. */
  lemma LostRaceMeansProgress(store: Store, actions: seq<TxAction>, id: nat)
    requires var db := Steps(NewDb(store), actions); id in db.txs && db.txs[id].Loaded?
    requires var db := Steps(NewDb(store), actions);
             Step(db, CompareAndSet(id)) != db && Step(db, CompareAndSet(id)).holder != Some(id)
               && db.txs[id].seen < MAX_REVISION
    ensures var db := Steps(NewDb(store), actions); db.txs[id].seen < Counter(db.store, db.txs[id].op)
  {
    Serializable(store, actions);
    assert TxValid(Steps(NewDb(store), actions), id);
  }

  // ----- The race between create and delete -----

  /** Create clears its tombstone while the user still exists; delete commits; create then commits. */
  function RaceSchedule(user: UserInput, ciphertext: string, verifier: string): seq<TxAction> {
    [Begin(1, Create(user, ciphertext, verifier, true)), ClearTombstone(1),
     Begin(2, DeleteUser(user.id)), ClearTombstone(2), LoadRevision(2), CompareAndSet(2), WriteRows(2), CommitTx(2),
     LoadRevision(1), CompareAndSet(1), WriteRows(1), CommitTx(1)]
  }

  lemma StepsSplit(db: Db, first: seq<TxAction>, second: seq<TxAction>)
    ensures Steps(db, first + second) == Steps(Steps(db, first), second)
  {
    if second == [] {
      assert first + second == first;
    } else {
      var all := first + second;
      assert all[..|all| - 1] == first + second[..|second| - 1];
      StepsSplit(db, first, second[..|second| - 1]);
    }
  }

  /** One transaction's own steps after its tombstone delete, undisturbed. */
  lemma UndisturbedCommit(db: Db, id: nat)
    requires id in db.txs && db.txs[id].Cleared? && db.holder.None? && Counter(db.store, db.txs[id].op) < MAX_REVISION
    requires Commit(db.store, db.txs[id].op).Some?
    ensures var op := db.txs[id].op;
            var db' := Steps(db, [LoadRevision(id), CompareAndSet(id), WriteRows(id), CommitTx(id)]);
            && db'.store == Commit(db.store, op).value
            && db'.holder.None? && db'.txs == db.txs - {id}
            && |db'.log| == |db.log| + 1 && db'.log[|db.log|].op == op
  {
    hide Commit, Counter;
    var a1, a2, a3, a4 := LoadRevision(id), CompareAndSet(id), WriteRows(id), CommitTx(id);
    var actions := [a1, a2, a3, a4];
    assert actions[..3] == [a1, a2, a3] && [a1, a2, a3][..2] == [a1, a2] && [a1, a2][..1] == [a1] && [a1][..0] == [];
    var db1 := Step(db, a1);
    var db2 := Step(db1, a2);
    var db3 := Step(db2, a3);
    assert Steps(db, [a1]) == db1;
    assert Steps(db, [a1, a2]) == db2;
    assert Steps(db, [a1, a2, a3]) == db3;
    assert Step(db3, a4).txs == db.txs - {id};
  }

  /** For every store in which the delete and then the create can commit, the schedule leaves both rows behind. */
  lemma RaceLeavesBothRows(s: Store, user: UserInput, ciphertext: string, verifier: string)
    requires TombstoneKey(user.id) !in s.directory
    requires Commit(s, DeleteUser(user.id)).Some?
    requires Commit(Commit(s, DeleteUser(user.id)).value, Create(user, ciphertext, verifier, false)).Some?
    ensures var db := Steps(NewDb(s), RaceSchedule(user, ciphertext, verifier));
            && UserKey(user.id) in db.store.directory && TombstoneKey(user.id) in db.store.directory
            && |db.log| == 2
  {
    var create := Create(user, ciphertext, verifier, true);
    var start := [Begin(1, create), ClearTombstone(1), Begin(2, DeleteUser(user.id)), ClearTombstone(2)];
    var delete := [LoadRevision(2), CompareAndSet(2), WriteRows(2), CommitTx(2)];
    var finish := [LoadRevision(1), CompareAndSet(1), WriteRows(1), CommitTx(1)];
    assert RaceSchedule(user, ciphertext, verifier) == (start + delete) + finish;
    StepsSplit(NewDb(s), start + delete, finish);
    StepsSplit(NewDb(s), start, delete);
    RaceStart(s, user, ciphertext, verifier);
    var db1 := Steps(NewDb(s), start);
    RaceRows(s, create.(cleared := false));
    hide Steps, Commit;
    UndisturbedCommit(db1, 2);
    var db2 := Steps(db1, delete);
    UndisturbedCommit(db2, 1);
  }

  lemma RaceRows(s: Store, create: WriteOp)
    requires create.Create? && !create.cleared && Commit(s, DeleteUser(create.user.id)).Some?
    requires Commit(Commit(s, DeleteUser(create.user.id)).value, create).Some?
    ensures var s1 := Commit(s, DeleteUser(create.user.id)).value;
            var s2 := Commit(s1, create).value;
            && UserKey(create.user.id) in s2.directory && TombstoneKey(create.user.id) in s2.directory
            && Counter(s, DeleteUser(create.user.id)) < MAX_REVISION && Counter(s1, create) < MAX_REVISION
  {
  }

  lemma RaceStart(s: Store, user: UserInput, ciphertext: string, verifier: string)
    requires TombstoneKey(user.id) !in s.directory
    ensures var create := Create(user, ciphertext, verifier, true);
            Steps(NewDb(s), [Begin(1, create), ClearTombstone(1), Begin(2, DeleteUser(user.id)), ClearTombstone(2)])
            == NewDb(s).(txs := map[1 := Cleared(create.(cleared := false), 0), 2 := Cleared(DeleteUser(user.id), 0)])
  {
    var a1, a2 := Begin(1, Create(user, ciphertext, verifier, true)), ClearTombstone(1);
    var a3, a4 := Begin(2, DeleteUser(user.id)), ClearTombstone(2);
    var all := [a1, a2, a3, a4];
    assert all[..3] == [a1, a2, a3] && [a1, a2, a3][..2] == [a1, a2] && [a1, a2][..1] == [a1] && [a1][..0] == [];
    var db := NewDb(s);
    var db1 := Step(db, a1);
    var db2 := Step(db1, a2);
    var db3 := Step(db2, a3);
    assert Steps(db, [a1]) == db1;
    assert Steps(db, [a1, a2]) == db2;
    assert Steps(db, [a1, a2, a3]) == db3;
  }

  // ----- Nothing else leaves a tombstone beside a new user -----

  lemma {:induction false} PutsLeaveTombstones(t: Tables, ous: seq<OuInput>, users: seq<UserInput>,
                                               groups: seq<GroupInput>, revision: nat, id: string)
    requires TombstoneKey(id) !in t
    ensures TombstoneKey(id) !in PutOus(t, ous, revision) && TombstoneKey(id) !in PutGroups(t, groups, revision)
    ensures PutUsers(t, users, revision).Some? ==> TombstoneKey(id) !in PutUsers(t, users, revision).value
    decreases |ous| + |users| + |groups|
  {
    if ous != [] { PutsLeaveTombstones(t, ous[..|ous| - 1], [], [], revision, id); }
    if users != [] { PutsLeaveTombstones(t, [], users[..|users| - 1], [], revision, id); }
    if groups != [] { PutsLeaveTombstones(t, [], [], groups[..|groups| - 1], revision, id); }
  }

  /** Only deleting the user writes the tombstone. */
  lemma CommitLeavesTombstone(s: Store, op: WriteOp, id: string)
    requires Commit(s, op).Some? && TombstoneKey(id) !in s.directory
    ensures TombstoneKey(id) in Commit(s, op).value.directory ==> op == DeleteUser(id)
  {
    if op.Upsert? {
      var revision := s.directoryRevision + 1;
      PutsLeaveTombstones(s.directory, op.ous, [], [], revision, id);
      var t1 := PutOus(s.directory, op.ous, revision);
      PutsLeaveTombstones(t1, [], op.users, [], revision, id);
      if PutUsers(t1, op.users, revision).Some? {
        PutsLeaveTombstones(PutUsers(t1, op.users, revision).value, [], [], op.groups, revision, id);
      }
    }
  }

  /** A deletion of the user was committed among the entries from `since` on. */
  ghost predicate DeletedSince(log: seq<Entry>, since: nat, id: string) {
    exists j :: since <= j < |log| && log[j].op == DeleteUser(id)
  }

  lemma StepTombstone(db: Db, a: TxAction, initial: Store, since: nat, id: string)
    requires Valid(db, initial) && since <= |db.log|
    requires TombstoneKey(id) in db.store.directory ==> DeletedSince(db.log, since, id)
    ensures since <= |Step(db, a).log|
    ensures TombstoneKey(id) in Step(db, a).store.directory ==> DeletedSince(Step(db, a).log, since, id)
  {
    var db' := Step(db, a);
    if a.CommitTx? && a.id in db.txs && db.txs[a.id].Prepared? {
      assert TxValid(db, a.id);
      var op := db.txs[a.id].op;
      assert db'.log[|db.log|].op == op;
      if TombstoneKey(id) in db.store.directory {
        var j :| since <= j < |db.log| && db.log[j].op == DeleteUser(id);
        assert db'.log[j] == db.log[j];
      } else {
        CommitLeavesTombstone(db.store, op, id);
      }
    } else {
      hide Commit;
      assert db'.store == db.store && db'.log == db.log;
    }
  }

  /** A tombstone that is not there at one moment and is there later was left by a committed deletion in between. */
  lemma {:induction false} TombstoneHasDeletion(initial: Store, db: Db, actions: seq<TxAction>, id: string)
    requires Valid(db, initial) && TombstoneKey(id) !in db.store.directory
    ensures var db' := Steps(db, actions);
            && Valid(db', initial) && |db.log| <= |db'.log|
            && (TombstoneKey(id) in db'.store.directory ==> DeletedSince(db'.log, |db.log|, id))
  {
    if actions != [] {
      var before, a := Steps(db, actions[..|actions| - 1]), actions[|actions| - 1];
      TombstoneHasDeletion(initial, db, actions[..|actions| - 1], id);
      StepKeepsValid(before, a, initial);
      hide Step, Valid;
      StepTombstone(before, a, initial, |db.log|, id);
    }
  }

  /** The transaction has cleared its tombstone, or found none, and has not started over since. */
  predicate PastClear(db: Db, id: nat) {
    id in db.txs && !db.txs[id].Begun?
  }

  lemma StepPastClear(db: Db, a: TxAction, id: nat)
    requires PastClear(Step(db, a), id)
    ensures id in db.txs
    ensures db.txs[id].Begun? ==> a == ClearTombstone(id) && Step(db, a).txs[id].op == Clear(db, db.txs[id])
    ensures !db.txs[id].Begun? ==> Step(db, a).txs[id].op == db.txs[id].op
  {
    hide Commit;
  }

  /** The step in which a transaction that is past it cleared its tombstone. */
  lemma {:induction false} ClearedIn(db: Db, actions: seq<TxAction>, n: nat, id: nat) returns (i: nat)
    requires n <= |actions| && id !in db.txs && PastClear(Steps(db, actions[..n]), id)
    ensures i < n && actions[i] == ClearTombstone(id)
    ensures var before := Steps(db, actions[..i]);
            && id in before.txs && before.txs[id].Begun?
            && Steps(db, actions[..n]).txs[id].op == Clear(before, before.txs[id])
  {
    if n == 0 {
      assert false;
    } else {
      assert actions[..n][..n - 1] == actions[..n - 1];
      var before := Steps(db, actions[..n - 1]);
      hide Step;
      StepPastClear(before, actions[n - 1], id);
      if before.txs[id].Begun? {
        i := n - 1;
      } else {
        i := ClearedIn(db, actions, n - 1, id);
      }
    }
  }

  /**
   In every schedule: a create that is about to commit over a tombstone it did not clear has, after
   its own look at the tombstone, seen a committed deletion of the same employee.
   */
  lemma RaceNeedsDeletion(store: Store, actions: seq<TxAction>, id: nat) returns (i: nat)
    requires var db := Steps(NewDb(store), actions); PastClear(db, id) && RacingCreate(db.store, db.txs[id].op)
    ensures i < |actions| && actions[i] == ClearTombstone(id)
    ensures var before, db := Steps(NewDb(store), actions[..i]), Steps(NewDb(store), actions);
            && id in before.txs && before.txs[id].Begun? && before.txs[id].op.Create?
            && DeletedSince(db.log, |before.log|, db.txs[id].op.user.id)
  {
    var start, n := NewDb(store), |actions|;
    assert actions[..n] == actions;
    i := ClearedIn(start, actions, n, id);
    var before := Steps(start, actions[..i]);
    var employee := Steps(start, actions).txs[id].op.user.id;
    assert TombstoneKey(employee) !in before.store.directory;
    Serializable(store, actions[..i]);
    assert actions == actions[..i] + actions[i..];
    StepsSplit(start, actions[..i], actions[i..]);
    hide Step, Steps, Valid;
    TombstoneHasDeletion(store, before, actions[i..], employee);
  }
}
