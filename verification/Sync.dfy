/**
 Core and one Syncer as a step system.

 Writers commit at any moment.  A sync request is answered by a series of separate
 queries, so commits can land between them.  The Syncer executes the batch, sends a
 confirmation, and saves its state file once Core has accepted.  Confirmations can be
 delivered late, more than once, or never; the Syncer can crash between any two steps
 and its state file can be lost.
 */
module Sync {
  import opened Store
  import opened Cut
  import Dn

  datatype Channel = Directory | Credential

  /** What a batch row is about in the downstream directory. */
  datatype Subject = Unit(id: string) | Employee(id: string) | SecurityGroup(id: string) | Password(id: string)

  function SubjectOf(k: Key): Subject {
    match k
    case OuKey(id) => Unit(id)
    case UserKey(id) => Employee(id)
    case TombstoneKey(id) => Employee(id)
    case GroupKey(id) => SecurityGroup(id)
    case CredentialKey(id) => Password(id)
  }

  /** What the downstream directory holds for a subject: exactly one Core row, or a half-applied mixture. */
  datatype Copy = Exact(row: Row) | Torn

  type Mirror = map<Subject, Copy>

  /** How far the channel's part of a Syncer run has come. */
  datatype Progress =
    | Closed
    | Checked(threshold: nat)
    | Revising(threshold: nat, server: nat, seen: set<nat>, next: nat)
    | Fetching(threshold: nat, server: nat, cut: nat, got: Tables, next: nat, units: Dn.Ous)
    | Executed(cut: nat)
    | Accepted(cut: nat)

  /**
   One channel: Core's tables, counter and domain watermark; the Syncer's state file, its
   in-memory watermark and its progress; the confirmations on the network; the directory.
   */
  datatype Side = Side(
    tables: Tables,
    revision: nat,
    applied: nat,
    file: nat,
    memory: nat,
    progress: Progress,
    claims: set<nat>,
    mirror: Mirror)

  // ----- The queries of one sync request -----

  /** The order of the revision queries. */
  function RevisionTables(ch: Channel): seq<Table> {
    match ch
    case Directory => [OuTable, UserTable, GroupTable, TombstoneTable]
    case Credential => [CredentialTable]
  }

  /** The order of the row queries. */
  function RowTables(ch: Channel): seq<Table> {
    match ch
    case Directory => [UserTable, GroupTable, OuTable, TombstoneTable]
    case Credential => [CredentialTable]
  }

  function RevisionsOf(t: Tables, table: Table, threshold: nat): set<nat> {
    set k | k in t && k.InTable() == table && t[k].revision > threshold :: t[k].revision
  }

  function RowsOf(t: Tables, table: Table, threshold: nat, cut: nat): Tables {
    map k | k in t && k.InTable() == table && threshold < t[k].revision <= cut :: t[k]
  }

  /** The OUs of the tables, by ID. */
  function UnitsOf(t: Tables): Dn.Ous {
    map k | k in t && k.OuKey? && t[k].OuRow? :: k.id := Dn.Ou(t[k].name, t[k].parentId)
  }

  /** The OUs whose DNs a directory batch needs: its own, and those of its users and groups. */
  function Involved(got: Tables): set<string> {
    (set k | k in got && k.OuKey? :: k.id)
    + (set k | k in got && got[k].UserRow? :: got[k].profile.organizationalUnitId)
    + (set k | k in got && got[k].GroupRow? :: got[k].organizationalUnitId)
  }

  /** The OUs that the DN builder still has to look up: involved ones, and parents of those it knows. */
  function Needed(got: Tables, units: Dn.Ous): set<string> {
    Involved(got) + (set id | id in units && units[id].parentId.Some? :: units[id].parentId.value) - units.Keys
  }

  /** Every involved OU has a complete chain of parents among the OUs looked up. */
  predicate Named(got: Tables, units: Dn.Ous) {
    forall id | id in Involved(got) :: Dn.HasChain(units, id, {})
  }

  /** All row queries are done. */
  predicate Fetched(ch: Channel, s: Side) {
    s.progress.Fetching? && s.progress.next == |RowTables(ch)|
  }

  /** The listing of the channel is complete; that of the directory also has its DNs. */
  predicate Ready(ch: Channel, s: Side) {
    Fetched(ch, s) && (ch.Directory? ==> Named(s.progress.got, s.progress.units))
  }

  /** Fresh run: the state file is loaded and everything else is forgotten. */
  function Load(s: Side): Side {
    s.(memory := s.file, progress := Closed)
  }

  function CheckDomain(s: Side): Side {
    if s.progress.Closed? && s.memory <= s.applied then s.(progress := Checked(s.memory)) else s
  }

  function ReadServer(s: Side): Side {
    if s.progress.Checked? && s.progress.threshold <= s.revision
    then s.(progress := Revising(s.progress.threshold, s.revision, {}, 0))
    else s
  }

  function QueryRevisions(ch: Channel, s: Side): Side {
    if s.progress.Revising? && s.progress.next < |RevisionTables(ch)| then
      var p := s.progress;
      var found := RevisionsOf(s.tables, RevisionTables(ch)[p.next], p.threshold);
      s.(progress := Revising(p.threshold, p.server, p.seen + found, p.next + 1))
    else s
  }

  function CutBatch(ch: Channel, s: Side, limit: nat): Side {
    if s.progress.Revising? && s.progress.next >= |RevisionTables(ch)| then
      var p := s.progress;
      var cut := if p.seen == {} then p.server else CutAt(p.seen, limit);
      s.(progress := Fetching(p.threshold, p.server, cut, map[], 0, map[]))
    else s
  }

  function FetchRows(ch: Channel, s: Side): Side {
    if s.progress.Fetching? && s.progress.next < |RowTables(ch)| then
      var p := s.progress;
      var found := RowsOf(s.tables, RowTables(ch)[p.next], p.threshold, p.cut);
      s.(progress := p.(got := p.got + found, next := p.next + 1))
    else s
  }

  predicate Wants(s: Side, id: string) {
    Fetched(Directory, s) && id in Needed(s.progress.got, s.progress.units)
  }

  /** The DN builder looks up one OU, which is there. */
  function LookUpUnit(s: Side, id: string): Side {
    if Wants(s, id) && id in UnitsOf(s.tables)
    then s.(progress := s.progress.(units := s.progress.units[id := UnitsOf(s.tables)[id]]))
    else s
  }

  /** The DN builder looks up an OU that is not there. */
  predicate UnitMissing(s: Side, id: string) {
    Wants(s, id) && id !in UnitsOf(s.tables)
  }

  // ----- Executing, confirming, saving -----

  /** A batch of nothing but tombstones is neither executed nor confirmed. */
  predicate Executable(got: Tables) {
    exists k :: k in got && !k.TombstoneKey?
  }

  /** The batch row that decides a subject: a tombstone only counts when the batch has no user row for the employee. */
  function DecidingKey(got: Tables, subject: Subject): Key {
    match subject
    case Unit(id) => OuKey(id)
    case Employee(id) => if UserKey(id) in got then UserKey(id) else TombstoneKey(id)
    case SecurityGroup(id) => GroupKey(id)
    case Password(id) => CredentialKey(id)
  }

  function Subjects(got: Tables): set<Subject> {
    set k | k in got :: SubjectOf(k)
  }

  lemma DecidingKeyInBatch(got: Tables, subject: Subject)
    requires subject in Subjects(got)
    ensures DecidingKey(got, subject) in got && SubjectOf(DecidingKey(got, subject)) == subject
  {
  }

  function Planned(got: Tables): Mirror {
    map subject | subject in Subjects(got) :: DecidingKeyInBatch(got, subject); Exact(got[DecidingKey(got, subject)])
  }

  function Succeed(ch: Channel, s: Side): Side {
    if Ready(ch, s) && Executable(s.progress.got)
    then s.(mirror := s.mirror + Planned(s.progress.got), progress := Executed(s.progress.cut))
    else s
  }

  /**
   A failed execution finished some subjects, left others half way, and did not reach the rest.
   Repeating operations on a subject that already is what they ask for changes nothing.
   */
  function AfterFailure(mirror: Mirror, planned: Mirror, done: set<Subject>, halfway: set<Subject>): Mirror {
    mirror
    + (map x | x in planned && x in done :: planned[x])
    + (map x | x in planned && x in halfway && !(x in mirror && mirror[x] == planned[x]) :: Torn)
  }

  function Fail(ch: Channel, s: Side, done: set<Subject>, halfway: set<Subject>): Side {
    if Ready(ch, s) && Executable(s.progress.got)
    then s.(mirror := AfterFailure(s.mirror, Planned(s.progress.got), done, halfway), progress := Closed)
    else s
  }

  function Skip(ch: Channel, s: Side): Side {
    if Ready(ch, s) && !Executable(s.progress.got) then s.(progress := Closed) else s
  }

  predicate ShouldConfirm(s: Side) {
    s.progress.Executed? && s.progress.cut > s.memory
  }

  function SendConfirm(s: Side): Side {
    if ShouldConfirm(s) then s.(claims := s.claims + {s.progress.cut}) else s
  }

  /** Core's guarded update. */
  predicate GuardAccepts(s: Side, revision: nat) {
    s.applied <= revision <= s.revision
  }

  function Deliver(s: Side, revision: nat): Side {
    if revision in s.claims && GuardAccepts(s, revision) then s.(applied := revision) else s
  }

  /** Core processes the confirmation and the Syncer hears that it was accepted. */
  function HearAccepted(s: Side): Side {
    if ShouldConfirm(s) && s.progress.cut in s.claims && GuardAccepts(s, s.progress.cut)
    then Deliver(s, s.progress.cut).(memory := s.progress.cut, progress := Accepted(s.progress.cut))
    else s
  }

  /** The read failed, the answer was lost, the confirmation was refused, or saving failed. */
  function Abandon(s: Side): Side {
    s.(progress := Closed)
  }

  // ----- The invariant of one channel -----

  ghost predicate Mirrored(t: Tables, mirror: Mirror, revision: nat) {
    forall k | k in t :: t[k].revision <= revision && !Contested(t, k) ==>
      SubjectOf(k) in mirror && mirror[SubjectOf(k)] == Exact(t[k])
  }

  /** Whenever an employee has both rows, the user row is the newer one. */
  ghost predicate UserNewer(t: Tables) {
    forall k | k in t && k.TombstoneKey? && k.Twin() in t :: t[k].revision < t[k.Twin()].revision
  }

  /** The row that speaks for its subject: every row but a tombstone beside a user row. */
  predicate Governs(t: Tables, k: Key) {
    k in t && !(k.TombstoneKey? && k.Twin() in t)
  }

  /** Every governing row up to the revision is what the directory holds. */
  ghost predicate GoverningMirrored(t: Tables, mirror: Mirror, revision: nat) {
    forall k | Governs(t, k) && t[k].revision <= revision ::
      SubjectOf(k) in mirror && mirror[SubjectOf(k)] == Exact(t[k])
  }

  /** Every governing row up to the saved watermark is mirrored. */
  ghost predicate SavedGoverned(s: Side) {
    UserNewer(s.tables) && GoverningMirrored(s.tables, s.mirror, s.file)
  }

  ghost predicate TablesValid(ch: Channel, s: Side) {
    forall k | k in s.tables :: (k.CredentialKey? <==> ch.Credential?) && 0 < s.tables[k].revision <= s.revision
  }

  ghost predicate MarksValid(s: Side) {
    && s.file <= s.memory <= s.applied <= s.revision
    && (forall m | m in s.claims :: m <= s.revision)
  }

  ghost predicate MirrorValid(s: Side) {
    && Mirrored(s.tables, s.mirror, s.applied)
    && (forall m | m in s.claims :: Mirrored(s.tables, s.mirror, m))
  }

  /** The batch started from a confirmed watermark, and nothing confirmed since is newer than `server`. */
  ghost predicate WindowValid(s: Side, threshold: nat, server: nat) {
    && threshold <= s.applied <= server <= s.revision
    && (forall m | m in s.claims :: m <= server)
  }

  /** Every row of the first `next` tables changed in (threshold, server] was seen by the revision queries. */
  ghost predicate Noticed(t: Tables, tables: seq<Table>, threshold: nat, server: nat, seen: set<nat>) {
    forall k | k in t :: k.InTable() in tables && threshold < t[k].revision <= server ==> t[k].revision in seen
  }

  /** The batch holds, unchanged, every row of the queried tables whose revision is in (threshold, cut]. */
  ghost predicate Complete(t: Tables, tables: seq<Table>, threshold: nat, cut: nat, got: Tables) {
    forall k | k in t :: k.InTable() in tables && threshold < t[k].revision <= cut ==> k in got && got[k] == t[k]
  }

  /** A batch row that is no longer current has been overtaken by something newer than `bound`. */
  ghost predicate Fresh(t: Tables, got: Tables, bound: nat) {
    forall k | k in got ::
      || (k in t && t[k] == got[k])
      || ((k in t ==> t[k].revision > bound) && (k !in t && k.Twin() in t ==> t[k.Twin()].revision > bound))
  }

  ghost predicate ProgressValid(ch: Channel, s: Side) {
    match s.progress
    case Closed => true
    case Checked(threshold) => threshold <= s.applied
    case Revising(threshold, server, seen, next) =>
      && WindowValid(s, threshold, server)
      && next <= |RevisionTables(ch)|
      && (forall x | x in seen :: threshold < x <= s.revision)
      && Noticed(s.tables, RevisionTables(ch)[..next], threshold, server, seen)
    case Fetching(threshold, server, cut, got, next, _) =>
      && WindowValid(s, threshold, server)
      && next <= |RowTables(ch)|
      && threshold <= cut <= s.revision
      && (forall k | k in got :: threshold < got[k].revision <= cut)
      && Complete(s.tables, RowTables(ch)[..next], threshold, cut, got)
      && Fresh(s.tables, got, server)
      && Fresh(s.tables, got, cut)
    case Executed(cut) => cut <= s.revision && Mirrored(s.tables, s.mirror, cut)
    case Accepted(cut) => true
  }

  ghost predicate Valid(ch: Channel, s: Side) {
    && TablesValid(ch, s)
    && MarksValid(s)
    && MirrorValid(s)
    && ProgressValid(ch, s)
  }

  // ----- Each step keeps the invariant -----

  lemma EveryTableQueried(ch: Channel, k: Key)
    requires k.CredentialKey? <==> ch.Credential?
    ensures k.InTable() in RevisionTables(ch)
    ensures k.InTable() in RowTables(ch)
    ensures RowTables(ch)[..|RowTables(ch)|] == RowTables(ch)
  {
    if ch.Directory? {
      var revisionTables, rowTables := RevisionTables(ch), RowTables(ch);
      assert revisionTables[0] == OuTable && revisionTables[1] == UserTable;
      assert revisionTables[2] == GroupTable && revisionTables[3] == TombstoneTable;
      assert rowTables[0] == UserTable && rowTables[1] == GroupTable;
      assert rowTables[2] == OuTable && rowTables[3] == TombstoneTable;
    } else {
      assert RevisionTables(ch)[0] == CredentialTable && RowTables(ch)[0] == CredentialTable;
    }
  }

  lemma MirroredLater(t: Tables, revision: nat, t': Tables, revision': nat, mirror: Mirror, m: nat)
    requires Later(t, revision, t', revision') && m <= revision && Mirrored(t, mirror, m)
    ensures Mirrored(t', mirror, m)
  {
    forall k | k in t' && t'[k].revision <= m && !Contested(t', k)
      ensures SubjectOf(k) in mirror && mirror[SubjectOf(k)] == Exact(t'[k])
    {
      assert k.Twin().Twin() == k;
    }
  }

  lemma FreshLater(t: Tables, revision: nat, t': Tables, revision': nat, got: Tables, bound: nat)
    requires Later(t, revision, t', revision') && bound <= revision && Fresh(t, got, bound)
    ensures Fresh(t', got, bound)
  {
  }

  /** A commit of any writer, whatever the reader is doing. */
  lemma WriteKeeps(ch: Channel, s: Side, t': Tables, revision': nat)
    requires Valid(ch, s) && Later(s.tables, s.revision, t', revision')
    requires forall k | k in t' :: k in s.tables || (k.CredentialKey? <==> ch.Credential?)
    ensures Valid(ch, s.(tables := t', revision := revision'))
  {
    MirroredLater(s.tables, s.revision, t', revision', s.mirror, s.applied);
    forall m | m in s.claims ensures Mirrored(t', s.mirror, m) {
      MirroredLater(s.tables, s.revision, t', revision', s.mirror, m);
    }
    match s.progress
    case Executed(cut) =>
      MirroredLater(s.tables, s.revision, t', revision', s.mirror, cut);
    case Fetching(threshold, server, cut, got, next, _) =>
      FreshLater(s.tables, s.revision, t', revision', got, server);
      FreshLater(s.tables, s.revision, t', revision', got, cut);
    case _ =>
  }

  lemma QueryRevisionsKeeps(ch: Channel, s: Side)
    requires Valid(ch, s)
    ensures Valid(ch, QueryRevisions(ch, s))
  {
    if s.progress.Revising? && s.progress.next < |RevisionTables(ch)| {
      var p := s.progress;
      var tables := RevisionTables(ch);
      assert tables[..p.next + 1] == tables[..p.next] + [tables[p.next]];
    }
  }

  lemma CutBatchKeeps(ch: Channel, s: Side, limit: nat)
    requires Valid(ch, s)
    ensures Valid(ch, CutBatch(ch, s, limit))
  {
  }

  /** One more table makes the batch complete for one more table, and nothing in it stale. */
  lemma FetchedComplete(t: Tables, tables: seq<Table>, table: Table, threshold: nat, cut: nat, got: Tables, bound: nat)
    requires Complete(t, tables, threshold, cut, got) && Fresh(t, got, bound)
    ensures var got' := got + RowsOf(t, table, threshold, cut);
            && Complete(t, tables + [table], threshold, cut, got')
            && Fresh(t, got', bound)
            && ((forall k | k in got :: threshold < got[k].revision <= cut) ==>
                  forall k | k in got' :: threshold < got'[k].revision <= cut)
  {
  }

  lemma FetchRowsKeeps(ch: Channel, s: Side)
    requires Valid(ch, s)
    ensures Valid(ch, FetchRows(ch, s))
  {
    hide Complete, Fresh, Mirrored, RowsOf, RowTables;
    if s.progress.Fetching? && s.progress.next < |RowTables(ch)| {
      var p := s.progress;
      var tables := RowTables(ch);
      assert tables[..p.next + 1] == tables[..p.next] + [tables[p.next]];
      FetchedComplete(s.tables, tables[..p.next], tables[p.next], p.threshold, p.cut, p.got, p.server);
      FetchedComplete(s.tables, tables[..p.next], tables[p.next], p.threshold, p.cut, p.got, p.cut);
    }
  }

  lemma LookUpUnitKeeps(ch: Channel, s: Side, id: string)
    requires Valid(ch, s)
    ensures Valid(ch, LookUpUnit(s, id))
  {
    hide Mirrored, Complete, Fresh, Named, UnitsOf, Needed;
  }

  /** Whatever the batch plans for a mirrored subject is what the mirror already holds. */
  lemma PlannedAgrees(s: Side, got: Tables, k: Key, bound: nat)
    requires Fresh(s.tables, got, bound)
    requires k in s.tables && s.tables[k].revision <= bound && !Contested(s.tables, k)
    requires SubjectOf(k) in Subjects(got)
    ensures Planned(got)[SubjectOf(k)] == Exact(s.tables[k])
  {
    DecidingKeyInBatch(got, SubjectOf(k));
    var deciding := DecidingKey(got, SubjectOf(k));
    assert deciding == k || deciding == k.Twin();
    assert k.Twin().Twin() == k;
  }

  lemma ExecutionKeeps(s: Side, got: Tables, mirror': Mirror, bound: nat, m: nat)
    requires Fresh(s.tables, got, bound) && m <= bound && Mirrored(s.tables, s.mirror, m)
    requires forall x | x in s.mirror :: x in mirror'
    requires forall x | x in s.mirror && (x !in Planned(got) || s.mirror[x] == Planned(got)[x]) ::
               mirror'[x] == s.mirror[x]
    ensures Mirrored(s.tables, mirror', m)
  {
    forall k | k in s.tables && s.tables[k].revision <= m && !Contested(s.tables, k)
      ensures SubjectOf(k) in mirror' && mirror'[SubjectOf(k)] == Exact(s.tables[k])
    {
      if SubjectOf(k) in Subjects(got) {
        PlannedAgrees(s, got, k, bound);
      }
    }
  }

  /** So an execution, whole or partial, keeps everything confirmed or claimed. */
  lemma ClaimsKeep(s: Side, got: Tables, mirror': Mirror, bound: nat)
    requires MirrorValid(s) && Fresh(s.tables, got, bound) && s.applied <= bound
             && forall m | m in s.claims :: m <= bound
    requires forall x | x in s.mirror :: x in mirror'
    requires forall x | x in s.mirror && (x !in Planned(got) || s.mirror[x] == Planned(got)[x]) ::
               mirror'[x] == s.mirror[x]
    ensures MirrorValid(s.(mirror := mirror'))
  {
    hide Planned, Fresh, Mirrored;
    ExecutionKeeps(s, got, mirror', bound, s.applied);
    forall m | m in s.claims ensures Mirrored(s.tables, mirror', m) {
      ExecutionKeeps(s, got, mirror', bound, m);
    }
  }

  lemma SucceedKeeps(ch: Channel, s: Side)
    requires Valid(ch, s)
    ensures Valid(ch, Succeed(ch, s))
  {
    if Ready(ch, s) && Executable(s.progress.got) {
      var p := s.progress;
      var mirror' := s.mirror + Planned(p.got);
      ClaimsKeep(s, p.got, mirror', p.server);
      BatchMirrored(ch, s);
    }
  }

  /** Executing a whole batch mirrors everything up to its cut. */
  lemma BatchMirrored(ch: Channel, s: Side)
    requires Valid(ch, s) && Ready(ch, s)
    ensures Mirrored(s.tables, s.mirror + Planned(s.progress.got), s.progress.cut)
  {
    var p := s.progress;
    var mirror' := s.mirror + Planned(p.got);
    ExecutionKeeps(s, p.got, mirror', p.server, s.applied);
    forall k | k in s.tables && s.tables[k].revision <= p.cut && !Contested(s.tables, k)
      ensures SubjectOf(k) in mirror' && mirror'[SubjectOf(k)] == Exact(s.tables[k])
    {
      if s.tables[k].revision > p.threshold {
        EveryTableQueried(ch, k);
        assert k in p.got;
        assert SubjectOf(k) in Subjects(p.got);
        PlannedAgrees(s, p.got, k, p.cut);
      }
    }
  }

  /** A failed execution leaves every subject that it did not have to change. */
  lemma FailureKeepsAgreeing(mirror: Mirror, planned: Mirror, done: set<Subject>, halfway: set<Subject>)
    ensures var mirror' := AfterFailure(mirror, planned, done, halfway);
            && (forall x | x in mirror :: x in mirror')
            && (forall x | x in mirror && (x !in planned || mirror[x] == planned[x]) :: mirror'[x] == mirror[x])
  {
  }

  lemma FailKeeps(ch: Channel, s: Side, done: set<Subject>, halfway: set<Subject>)
    requires Valid(ch, s)
    ensures Valid(ch, Fail(ch, s, done, halfway))
  {
    hide AfterFailure, Planned, Executable, Mirrored, Fresh, Complete;
    if Ready(ch, s) && Executable(s.progress.got) {
      var p := s.progress;
      FailureKeepsAgreeing(s.mirror, Planned(p.got), done, halfway);
      var mirror' := AfterFailure(s.mirror, Planned(p.got), done, halfway);
      ClaimsKeep(s, p.got, mirror', p.server);
    }
  }

  // ----- The whole system -----

  /** Which part of `run_once` the Syncer is in. */
  datatype Turn = Idle | ReadingDirectory | ReadingCredentials | RunningDirectory | RunningCredentials

  datatype System = System(directory: Side, credential: Side, turn: Turn)

  datatype Action =
    | Write(op: WriteOp)
    | Start
    | AskDomain
    | AskServer
    | AskRevisions
    | ChooseCut
    | AskRows
    | AskUnit(id: string)
    | ReadFails
    | ExecutionSucceeds
    | ExecutionFails(done: set<Subject>, halfway: set<Subject>)
    | NothingToExecute
    | Confirm
    | ConfirmHeard
    | ConfirmArrives(channel: Channel, revision: nat)
    | Save
    | GiveUp
    | MoveOn
    | Crash
    | LoseStateFile

  function StoreOf(sys: System): Store {
    Store(sys.directory.tables, sys.credential.tables, sys.directory.revision, sys.credential.revision)
  }

  function CommitWrite(sys: System, op: WriteOp): System {
    match Commit(StoreOf(sys), op)
    case None => sys
    case Some(s) =>
      sys.(directory := sys.directory.(tables := s.directory, revision := s.directoryRevision),
           credential := sys.credential.(tables := s.credentials, revision := s.credentialRevision))
  }

  predicate Reading(turn: Turn) { turn.ReadingDirectory? || turn.ReadingCredentials? }
  predicate Running(turn: Turn) { turn.RunningDirectory? || turn.RunningCredentials? }

  function ActiveChannel(turn: Turn): Channel {
    if turn.ReadingDirectory? || turn.RunningDirectory? then Directory else Credential
  }

  function RunningTurn(ch: Channel): Turn {
    if ch.Directory? then RunningDirectory else RunningCredentials
  }

  function OtherThan(ch: Channel): Channel {
    if ch.Directory? then Credential else Directory
  }

  function SideOf(sys: System, ch: Channel): Side {
    if ch.Directory? then sys.directory else sys.credential
  }

  function WithSide(sys: System, ch: Channel, s: Side): System {
    if ch.Directory? then sys.(directory := s) else sys.(credential := s)
  }

  /** The state file holds both watermarks, so saving writes both. */
  function SaveBoth(sys: System): System {
    sys.(directory := sys.directory.(file := sys.directory.memory),
         credential := sys.credential.(file := sys.credential.memory))
  }

  function Restart(sys: System): System {
    System(Load(sys.directory), Load(sys.credential), Idle)
  }

  /** The part of `run_once` in which the active channel can take this step. */
  predicate Possible(turn: Turn, a: Action) {
    match a
    case AskDomain => Reading(turn)
    case AskServer => Reading(turn)
    case AskRevisions => Reading(turn)
    case ChooseCut => Reading(turn)
    case AskRows => Reading(turn)
    case AskUnit(_) => turn.ReadingDirectory?
    case _ => Running(turn)
  }

  /** What the channel does in a step. */
  function SideStep(ch: Channel, s: Side, a: Action, limit: nat): Side {
    match a
    case AskDomain => CheckDomain(s)
    case AskServer => ReadServer(s)
    case AskRevisions => QueryRevisions(ch, s)
    case ChooseCut => CutBatch(ch, s, limit)
    case AskRows => FetchRows(ch, s)
    case AskUnit(id) => LookUpUnit(s, id)
    case ExecutionSucceeds => Succeed(ch, s)
    case ExecutionFails(done, halfway) => Fail(ch, s, done, halfway)
    case NothingToExecute => Skip(ch, s)
    case Confirm => SendConfirm(s)
    case ConfirmHeard => HearAccepted(s)
    case ConfirmArrives(_, revision) => Deliver(s, revision)
    case GiveUp => if Ready(ch, s) then s else Abandon(s)
    case _ => s
  }

  /** The Syncer moves on to its next part once the current one is finished. */
  function NextTurn(sys: System): Turn {
    match sys.turn
    case Idle => Idle
    case ReadingDirectory => if Ready(Directory, sys.directory) then ReadingCredentials else sys.turn
    case ReadingCredentials => if Ready(Credential, sys.credential) then RunningDirectory else sys.turn
    case RunningDirectory => if sys.directory.progress.Closed? then RunningCredentials else sys.turn
    case RunningCredentials => if sys.credential.progress.Closed? then Idle else sys.turn
  }

  /** One step; an action that is not possible in this state changes nothing. */
  function Next(sys: System, a: Action, limit: nat): System {
    var ch := ActiveChannel(sys.turn);
    match a
    case Write(op) => CommitWrite(sys, op)
    case Start => if sys.turn.Idle? then Restart(sys).(turn := ReadingDirectory) else sys
    case MoveOn => sys.(turn := NextTurn(sys))
    case ConfirmArrives(to, _) => WithSide(sys, to, SideStep(to, SideOf(sys, to), a, limit))
    case Save =>
      if Running(sys.turn) && SideOf(sys, ch).progress.Accepted?
      then WithSide(SaveBoth(sys), ch, Abandon(SideOf(SaveBoth(sys), ch)))
      else sys
    case AskUnit(id) =>
      if !sys.turn.ReadingDirectory? then sys
      else if UnitMissing(sys.directory, id) then Restart(sys)
      else WithSide(sys, Directory, SideStep(Directory, sys.directory, a, limit))
    case ReadFails => if Reading(sys.turn) then Restart(sys) else sys
    case Crash => Restart(sys)
    case LoseStateFile => sys.(directory := sys.directory.(file := 0), credential := sys.credential.(file := 0))
    case _ => if Possible(sys.turn, a) then WithSide(sys, ch, SideStep(ch, SideOf(sys, ch), a, limit)) else sys
  }

  function Run(sys: System, actions: seq<Action>, limit: nat): System {
    if actions == [] then sys
    else Next(Run(sys, actions[..|actions| - 1], limit), actions[|actions| - 1], limit)
  }

  /** A domain that has confirmed nothing yet, over any store and any downstream directory. */
  ghost predicate Initial(sys: System) {
    && sys.turn.Idle?
    && InitialSide(Directory, sys.directory)
    && InitialSide(Credential, sys.credential)
  }

  ghost predicate InitialSide(ch: Channel, s: Side) {
    TablesValid(ch, s) && s.applied == s.file == s.memory == 0 && s.progress.Closed? && s.claims == {}
  }

  ghost predicate SystemValid(sys: System) {
    Valid(Directory, sys.directory) && Valid(Credential, sys.credential)
  }

  lemma WriteKeepsValid(sys: System, op: WriteOp)
    requires SystemValid(sys)
    ensures SystemValid(CommitWrite(sys, op))
  {
    var s := StoreOf(sys);
    if Commit(s, op).Some? {
      var s' := Commit(s, op).value;
      CommitLater(s, op);
      CommitTables(s, op);
      WriteKeeps(Directory, sys.directory, s'.directory, s'.directoryRevision);
      WriteKeeps(Credential, sys.credential, s'.credentials, s'.credentialRevision);
    }
  }

  /** The steps of one channel that only move its progress. */
  lemma ProgressKeeps(ch: Channel, s: Side)
    requires Valid(ch, s)
    ensures Valid(ch, CheckDomain(s)) && Valid(ch, ReadServer(s)) && Valid(ch, Skip(ch, s)) && Valid(ch, Abandon(s))
  {
    hide Valid;
    ReadServerKeeps(ch, s);
    ClosingKeeps(ch, s);
  }

  lemma ReadServerKeeps(ch: Channel, s: Side)
    requires Valid(ch, s)
    ensures Valid(ch, ReadServer(s))
  {
    hide Mirrored, Complete, Fresh;
  }

  lemma ClosingKeeps(ch: Channel, s: Side)
    requires Valid(ch, s)
    ensures Valid(ch, CheckDomain(s)) && Valid(ch, Skip(ch, s)) && Valid(ch, Abandon(s))
  {
    hide Mirrored, Complete, Fresh, Noticed, Executable, Named;
  }

  /** The steps of one channel that only move claims and watermarks. */
  lemma ConfirmationKeeps(ch: Channel, s: Side, revision: nat)
    requires Valid(ch, s)
    ensures Valid(ch, SendConfirm(s)) && Valid(ch, Deliver(s, revision)) && Valid(ch, HearAccepted(s))
  {
    hide Mirrored, Noticed, Complete, Fresh;
  }

  lemma FileKeeps(ch: Channel, s: Side)
    requires Valid(ch, s)
    ensures Valid(ch, s.(file := s.memory)) && Valid(ch, s.(file := 0)) && Valid(ch, Load(s))
  {
    hide Mirrored, Noticed, Complete, Fresh;
  }

  lemma FilesKeepValid(sys: System)
    requires SystemValid(sys)
    ensures SystemValid(SaveBoth(sys)) && SystemValid(Restart(sys))
    ensures SystemValid(Next(sys, LoseStateFile, 0))
  {
    FileKeeps(Directory, sys.directory);
    FileKeeps(Credential, sys.credential);
  }

  lemma SideStepKeeps(ch: Channel, s: Side, a: Action, limit: nat)
    requires Valid(ch, s)
    ensures Valid(ch, SideStep(ch, s, a, limit))
  {
    hide Valid, QueryRevisions, CutBatch, FetchRows, Succeed, Fail, HearAccepted, SendConfirm, Deliver;
    match a
    case AskRevisions => QueryRevisionsKeeps(ch, s);
    case ChooseCut => CutBatchKeeps(ch, s, limit);
    case AskRows => FetchRowsKeeps(ch, s);
    case AskUnit(id) => LookUpUnitKeeps(ch, s, id);
    case ExecutionSucceeds => SucceedKeeps(ch, s);
    case ExecutionFails(done, halfway) => FailKeeps(ch, s, done, halfway);
    case Confirm => ConfirmationKeeps(ch, s, 0);
    case ConfirmHeard => ConfirmationKeeps(ch, s, 0);
    case ConfirmArrives(_, revision) => ConfirmationKeeps(ch, s, revision);
    case _ => ProgressKeeps(ch, s);
  }

  lemma NextKeepsValid(sys: System, a: Action, limit: nat)
    requires SystemValid(sys)
    ensures SystemValid(Next(sys, a, limit))
  {
    hide Valid;
    var ch := ActiveChannel(sys.turn);
    match a
    case Write(op) => WriteKeepsValid(sys, op);
    case Start => FilesKeepValid(sys);
    case AskUnit(_) =>
      FilesKeepValid(sys);
      SideStepKeeps(Directory, sys.directory, a, limit);
    case ReadFails => FilesKeepValid(sys);
    case Crash => FilesKeepValid(sys);
    case LoseStateFile => FilesKeepValid(sys);
    case MoveOn =>
    case ConfirmArrives(to, _) => SideStepKeeps(to, SideOf(sys, to), a, limit);
    case Save =>
      FilesKeepValid(sys);
      ProgressKeeps(ch, SideOf(SaveBoth(sys), ch));
    case _ => SideStepKeeps(ch, SideOf(sys, ch), a, limit);
  }

  lemma {:induction false} RunKeepsValid(sys: System, actions: seq<Action>, limit: nat)
    requires Initial(sys)
    ensures SystemValid(Run(sys, actions, limit))
  {
    if actions != [] {
      RunKeepsValid(sys, actions[..|actions| - 1], limit);
      NextKeepsValid(Run(sys, actions[..|actions| - 1], limit), actions[|actions| - 1], limit);
    }
  }
}
