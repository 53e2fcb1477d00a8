/**
 One pass of the Syncer: the sync request, answered by separate queries between which
 writers commit, then both channels executed, confirmed and saved.

 Whatever the environment answers, the pass is a run of the step system, so every guarantee
 about reachable states holds after it; its contract says which watermarks it moves.
 */
module Runtime {
  import opened Store
  import opened Sync
  import opened Guarantees
  import opened Quiet
  import opened StateFile
  import Reach

  /** What happens to a confirmation request. */
  datatype Reply = Answered | RequestLost | AnswerLost

  /**
   What the environment does to one channel of a pass, and what writers commit before the
   execution, before the confirmation arrives and before the state is saved.
   */
  datatype Outcome = Outcome(
    succeeds: bool,
    done: set<Subject>,
    halfway: set<Subject>,
    reply: Reply,
    saved: bool,
    early: seq<WriteOp>,
    meanwhile: seq<WriteOp>,
    late: seq<WriteOp>)

  function MarkOf(local: LocalState, ch: Channel): nat {
    if ch.Directory? then local.directory else local.credential
  }

  function WithMark(local: LocalState, ch: Channel, revision: nat): LocalState {
    if ch.Directory? then local.(directory := revision) else local.(credential := revision)
  }

  function Memory(sys: System): LocalState {
    LocalState(sys.directory.memory, sys.credential.memory)
  }

  // ----- What a pass should do to one channel that holds a complete batch -----

  predicate Reports(s: Side) {
    s.progress.Fetching? && Executable(s.progress.got) && s.progress.cut > s.memory
  }

  /** Core moves the domain's watermark. */
  predicate Advances(s: Side, o: Outcome) {
    Reports(s) && o.succeeds && !o.reply.RequestLost? && GuardAccepts(s, s.progress.cut)
  }

  /** The Syncer learns of it. */
  predicate Learns(s: Side, o: Outcome) {
    Advances(s, o) && o.reply.Answered?
  }

  predicate Saves(s: Side, o: Outcome) {
    Learns(s, o) && o.saved
  }

  /** The channel contributes an error to the result of the pass. */
  predicate Errs(s: Side, o: Outcome) {
    Reports(s) && if o.succeeds then !Saves(s, o) else !o.reply.Answered?
  }

  /** The channel afterwards, except for the state file, which the channels share, and what writers committed. */
  ghost predicate ChannelDone(s: Side, s': Side, o: Outcome)
    requires s.progress.Fetching?
  {
    && s'.revision >= s.revision && s'.progress.Closed?
    && s'.applied == (if Advances(s, o) then s.progress.cut else s.applied)
    && s'.memory == (if Learns(s, o) then s.progress.cut else s.memory)
    && s'.claims == (if Reports(s) && o.succeeds then s.claims + {s.progress.cut} else s.claims)
    && s'.mirror == (if !Executable(s.progress.got) then s.mirror
                     else if o.succeeds then s.mirror + Planned(s.progress.got)
                     else AfterFailure(s.mirror, Planned(s.progress.got), o.done, o.halfway))
  }

  /** Commits change tables and let the counter grow, and nothing else of a channel. */
  ghost predicate SameButStore(s: Side, s': Side) {
    s' == s.(tables := s'.tables, revision := s'.revision) && s.revision <= s'.revision
  }

  ghost predicate OnlyWrites(sys: System, sys': System) {
    sys'.turn == sys.turn && SameButStore(sys.directory, sys'.directory)
      && SameButStore(sys.credential, sys'.credential)
  }

  /** A failed request: the run is over and no watermark has moved. */
  ghost predicate Dropped(sys: System, sys': System) {
    && sys'.turn.Idle?
    && LoadedBack(sys.directory, sys'.directory) && LoadedBack(sys.credential, sys'.credential)
  }

  ghost predicate LoadedBack(s: Side, s': Side) {
    s'.applied == s.applied && s'.file == s.file && s'.memory == s.file && s'.progress.Closed?
    && s'.claims == s.claims && s'.mirror == s.mirror
  }

  /** An OU that is needed and missing makes the batch unanswerable. */
  lemma NotAnswerable(s: Side, id: string)
    requires NamingValidHere(s) && Wants(s, id) && !CanLookUp(s, id)
    ensures !Answerable(Directory, s.tables, s.progress.got)
  {
    hide UnitsOf, Needed, Answerable, NamingValid;
    if Answerable(Directory, s.tables, s.progress.got) {
      NeededGrounded(s, id);
    }
  }

  ghost predicate NamingValidHere(s: Side) {
    s.progress.Fetching? && NamingValid(s)
  }

  /** With nothing left to look up, the DNs are there exactly when the batch is answerable. */
  lemma NamedExactly(s: Side)
    requires NamingValidHere(s) && Needed(s.progress.got, s.progress.units) == {}
    ensures Named(s.progress.got, s.progress.units) <==> Answerable(Directory, s.tables, s.progress.got)
  {
    hide UnitsOf, Needed, Answerable, NamingValid, Named;
    if Answerable(Directory, s.tables, s.progress.got) {
      AnswerableNamed(s);
    }
    if Named(s.progress.got, s.progress.units) {
      NamedAnswerable(s);
    }
  }

  /** While one channel is read, neither watermark in memory moves and the other channel waits. */
  ghost predicate ReadingStill(sys: System, sys': System, ch: Channel) {
    && sys'.turn == sys.turn
    && SideOf(sys', ch).memory == SideOf(sys, ch).memory
    && SideOf(sys', OtherThan(ch)).memory == SideOf(sys, OtherThan(ch)).memory
    && SideOf(sys', OtherThan(ch)).progress == SideOf(sys, OtherThan(ch)).progress
    && SameOutside(sys.directory, sys'.directory) && SameOutside(sys.credential, sys'.credential)
  }

  /** Reading changes nothing outside the Syncer's memory. */
  ghost predicate SameOutside(s: Side, s': Side) {
    s'.applied == s.applied && s'.file == s.file && s'.claims == s.claims && s'.mirror == s.mirror
  }

  /** One channel has been worked off; a save records both watermarks. */
  ghost predicate Ended(ch: Channel, sys: System, sys': System, o: Outcome, failed: bool) {
    var s, s', other, other' := SideOf(sys, ch), SideOf(sys', ch), SideOf(sys, OtherThan(ch)),
      SideOf(sys', OtherThan(ch));
    && s.progress.Fetching?
    && ChannelDone(s, s', o)
    && (failed <==> Errs(s, o))
    && s'.file == (if Saves(s, o) then s.progress.cut else s.file)
    && SameButStore(other.(file := if Saves(s, o) then other.memory else other.file), other')
  }

  lemma EndedAfterWrites(ch: Channel, sys: System, written: System, sys': System, o: Outcome, failed: bool)
    requires OnlyWrites(sys, written) && Ended(ch, written, sys', o, failed)
    requires SideOf(sys, ch).progress.Fetching? && SideOf(sys, ch).progress.cut <= SideOf(sys, ch).revision
    ensures Ended(ch, sys, sys', o, failed)
  {
    hide Planned, Executable, AfterFailure;
  }

  lemma RunStep(start: System, trace: seq<Action>, a: Action, limit: nat)
    ensures Run(start, trace + [a], limit) == Next(Run(start, trace, limit), a, limit)
  {
    assert (trace + [a])[..|trace|] == trace;
  }

  class SyncerRuntime {
    /** Core, the state file and the downstream directory, as the Syncer's calls leave them. */
    var world: System
    const limit: nat
    ghost const start: System
    ghost var trace: seq<Action>

    /** Everything done so far is a run of the step system. */
    ghost predicate Reached()
      reads this
    {
      Initial(start) && world == Run(start, trace, limit)
    }

    constructor (start: System, limit: nat)
      requires Initial(start)
      ensures Reached() && world == start && this.limit == limit && this.start == start
    {
      this.world := start;
      this.limit := limit;
      this.start := start;
      this.trace := [];
    }

    /** One call to the outside, or one thing that happens there. */
    method Perform(a: Action)
      requires Reached()
      modifies this
      ensures Reached() && world == Next(old(world), a, limit) && trace == old(trace) + [a]
    {
      hide Next, Run, Initial;
      world := Next(world, a, limit);
      RunStep(start, trace, a, limit);
      trace := trace + [a];
    }

    /** A step of the channel whose turn it is. */
    method Step(ch: Channel, a: Action)
      requires Reached() && Reach.OwnStep(a) && Possible(world.turn, a) && ActiveChannel(world.turn) == ch
      modifies this
      ensures Reached() && world == WithSide(old(world), ch, SideStep(ch, SideOf(old(world), ch), a, limit))
    {
      hide Run, Initial, SideStep, Next;
      Reach.NextIsSideStep(world, ch, a, limit);
      Perform(a);
    }

    /** A confirmation reaches Core, which answers into the void. */
    method Arrive(ch: Channel, revision: nat)
      requires Reached()
      modifies this
      ensures Reached() && world == WithSide(old(world), ch, Deliver(SideOf(old(world), ch), revision))
    {
      hide Run, Initial, Commit;
      Perform(ConfirmArrives(ch, revision));
    }

    method SaveState(ch: Channel)
      requires Reached() && world.turn == RunningTurn(ch) && SideOf(world, ch).progress.Accepted?
      modifies this
      ensures Reached() && world.turn == old(world.turn)
      ensures SideOf(world, ch) == SideOf(old(world), ch).(file := SideOf(old(world), ch).memory, progress := Closed)
      ensures SideOf(world, OtherThan(ch)) ==
              SideOf(old(world), OtherThan(ch)).(file := SideOf(old(world), OtherThan(ch)).memory)
    {
      hide Run, Initial, SideStep;
      Perform(Save);
    }

    /** Writers commit; the Syncer's own progress stays where it is. */
    method LetWrite(ops: seq<WriteOp>)
      requires Reached()
      modifies this
      ensures Reached() && OnlyWrites(old(world), world)
      ensures ops == [] ==> world == old(world)
    {
      hide Run, Initial, Commit, SideStep;
      for i := 0 to |ops|
        invariant Reached() && OnlyWrites(old(world), world)
        invariant ops == [] ==> world == old(world)
      {
        Reach.NextLater(world, Write(ops[i]), limit);
        Perform(Write(ops[i]));
      }
    }

    /** Sends the confirmation and waits for the answer. */
    method SendAndHear(ch: Channel, revision: nat, o: Outcome) returns (heard: bool)
      requires Reached() && world.turn == RunningTurn(ch)
      requires SideOf(world, ch).progress == Executed(revision)
               && SideOf(world, ch).memory < revision <= SideOf(world, ch).revision
      modifies this
      ensures Reached() && world.turn == RunningTurn(ch)
      ensures SameButStore(old(SideOf(world, OtherThan(ch))), SideOf(world, OtherThan(ch)))
      ensures var s, s' := old(SideOf(world, ch)), SideOf(world, ch);
              && heard == (o.reply.Answered? && GuardAccepts(s, revision))
              && SameButStore(s.(claims := s.claims + {revision},
                                 applied := if !o.reply.RequestLost? && GuardAccepts(s, revision) then revision
                                   else s.applied,
                                 memory := if heard then revision else s.memory,
                                 progress := if heard then Accepted(revision) else s.progress), s')
    {
      hide Run, Initial, Next, Executable, QueryRevisions, CutBatch, FetchRows, LookUpUnit, Succeed, Fail, Skip;
      Step(ch, Confirm);
      LetWrite(o.meanwhile);
      heard := o.reply.Answered? && GuardAccepts(SideOf(world, ch), revision);
      if heard {
        Step(ch, ConfirmHeard);
      } else if o.reply.AnswerLost? {
        Arrive(ch, revision);
      }
    }

    /** Reports an executed batch; the local watermark moves once Core accepted, even if saving then fails. */
    method ConfirmChannel(ch: Channel, revision: nat, local: LocalState, o: Outcome)
      returns (local': LocalState, failed: bool)
      requires Reached() && world.turn == RunningTurn(ch) && local == Memory(world)
      requires SideOf(world, ch).progress == Executed(revision) && revision <= SideOf(world, ch).revision
      modifies this
      ensures Reached() && world.turn == RunningTurn(ch) && local' == Memory(world)
      ensures var s, s' := old(SideOf(world, ch)), SideOf(world, ch);
              var reports := revision > s.memory;
              var moves := reports && !o.reply.RequestLost? && GuardAccepts(s, revision);
              var learns := moves && o.reply.Answered?;
              && SameButStore(s.(claims := if reports then s.claims + {revision} else s.claims,
                                 applied := if moves then revision else s.applied,
                                 memory := if learns then revision else s.memory,
                                 file := if learns && o.saved then revision else s.file,
                                 progress := Closed), s')
              && (failed <==> reports && !(learns && o.saved))
              && var other, other' := old(SideOf(world, OtherThan(ch))), SideOf(world, OtherThan(ch));
              SameButStore(other.(file := if learns && o.saved then other.memory else other.file), other')
    {
      hide Run, Initial, Next, SideStep;
      local', failed := local, false;
      if revision <= MarkOf(local, ch) {
        Close(ch);
        return;
      }
      var heard := SendAndHear(ch, revision, o);
      if heard {
        local' := WithMark(local, ch, revision);
        LetWrite(o.late);
        if o.saved {
          SaveState(ch);
          return;
        }
      }
      Close(ch);
      failed := true;
    }

    /** The channel's part of the pass ends without a save. */
    method Close(ch: Channel)
      requires Reached() && world.turn == RunningTurn(ch) && !SideOf(world, ch).progress.Fetching?
      modifies this
      ensures Reached() && world == WithSide(old(world), ch, Abandon(SideOf(old(world), ch)))
    {
      hide Run, Initial, Next;
      Step(ch, GiveUp);
    }

    /** Executes one channel's batch and reports it; failures are reported without moving anything. */
    method ExecuteChannel(ch: Channel, local: LocalState, o: Outcome) returns (local': LocalState, failed: bool)
      requires Reached() && world.turn == RunningTurn(ch) && local == Memory(world)
      requires Ready(ch, SideOf(world, ch))
      modifies this
      ensures Reached() && world.turn == RunningTurn(ch) && local' == Memory(world)
      ensures Ended(ch, old(world), world, o, failed)
    {
      hide Run, Planned, Initial, Next, AfterFailure, QueryRevisions, CutBatch, FetchRows, LookUpUnit, Named,
           Executable;
      CutInRange(ch);
      var batch := SideOf(world, ch).progress;
      local', failed := local, false;
      if !Executable(batch.got) {
        Step(ch, NothingToExecute);
      } else if o.succeeds {
        Step(ch, ExecutionSucceeds);
        hide Succeed, Fail, Skip;
        local', failed := ConfirmChannel(ch, batch.cut, local, o);
      } else {
        Step(ch, ExecutionFails(o.done, o.halfway));
        failed := batch.cut > MarkOf(local, ch) && !o.reply.Answered?;
      }
    }

    /** The same after some commits, which do not change what the batch will do. */
    method RunChannel(ch: Channel, local: LocalState, o: Outcome) returns (local': LocalState, failed: bool)
      requires Reached() && world.turn == RunningTurn(ch) && local == Memory(world)
      requires Ready(ch, SideOf(world, ch))
      modifies this
      ensures Reached() && world.turn == RunningTurn(ch) && local' == Memory(world)
      ensures Ended(ch, old(world), world, o, failed)
    {
      hide Run, Initial, Named, Executable, Ended;
      CutInRange(ch);
      LetWrite(o.early);
      ghost var written := world;
      local', failed := ExecuteChannel(ch, local, o);
      EndedAfterWrites(ch, old(world), written, world, o, failed);
    }

    lemma CutInRange(ch: Channel)
      requires Reached() && SideOf(world, ch).progress.Fetching?
      ensures SideOf(world, ch).progress.cut <= SideOf(world, ch).revision
    {
      RunKeepsValid(start, trace, limit);
    }

    // ----- The sync request -----

    /** The domain check, the counter and the revision queries, each after some commits. */
    method AskForRevisions(ch: Channel, writes: nat -> seq<WriteOp>)
      requires Reached() && Reading(world.turn) && ActiveChannel(world.turn) == ch
      requires SideOf(world, ch).progress.Closed?
      modifies this
      ensures Reached() && ReadingStill(old(world), world, ch)
      ensures SideOf(world, ch).progress.Revising? && SideOf(world, ch).progress.threshold == SideOf(world, ch).memory
      ensures SideOf(world, ch).progress.next == |RevisionTables(ch)|
    {
      hide Run, Initial, Valid, Commit;
      Ordered(ch);
      Step(ch, AskDomain);
      LetWrite(writes(0));
      Ordered(ch);
      Step(ch, AskServer);
      for i := 0 to |RevisionTables(ch)|
        invariant Reached() && ReadingStill(old(world), world, ch)
        invariant SideOf(world, ch).progress.Revising?
                  && SideOf(world, ch).progress.threshold == SideOf(world, ch).memory
        invariant SideOf(world, ch).progress.next == i
      {
        LetWrite(writes(1 + i));
        Step(ch, AskRevisions);
      }
    }

    /** The row queries, each after some commits. */
    method AskForRows(ch: Channel, writes: nat -> seq<WriteOp>)
      requires Reached() && Reading(world.turn) && ActiveChannel(world.turn) == ch
      requires SideOf(world, ch).progress.Revising? && SideOf(world, ch).progress.threshold == SideOf(world, ch).memory
      requires SideOf(world, ch).progress.next == |RevisionTables(ch)|
      modifies this
      ensures Reached() && ReadingStill(old(world), world, ch)
      ensures Fetched(ch, SideOf(world, ch)) && SideOf(world, ch).progress.threshold == SideOf(world, ch).memory
      ensures SideOf(world, ch).progress.units == map[]
    {
      hide Run, Initial, Valid, Commit;
      Step(ch, ChooseCut);
      for i := 0 to |RowTables(ch)|
        invariant Reached() && ReadingStill(old(world), world, ch)
        invariant SideOf(world, ch).progress.Fetching?
                  && SideOf(world, ch).progress.threshold == SideOf(world, ch).memory
        invariant SideOf(world, ch).progress.next == i && SideOf(world, ch).progress.units == map[]
      {
        LetWrite(writes(1 + |RevisionTables(ch)| + i));
        Step(ch, AskRows);
      }
    }

    /** One lookup of the DN builder, after some commits; a missing OU fails the whole request. */
    method LookUp(id: string, ops: seq<WriteOp>) returns (found: bool)
      requires Reached() && world.turn.ReadingDirectory? && Wants(world.directory, id)
      modifies this
      ensures Reached()
      ensures found ==> ReadingStill(old(world), world, Directory) && Fetched(Directory, world.directory)
      ensures found ==> world.directory.progress ==
                        old(world.directory.progress).(units := world.directory.progress.units)
      ensures !found ==> Dropped(old(world), world)
      ensures ops == [] ==> (found <==> CanLookUp(old(world.directory), id))
      ensures ops == [] && found ==> world == old(world).(directory := LookUpUnit(old(world.directory), id))
      ensures ops == [] && found ==> world.directory.tables == old(world.directory.tables)
    {
      hide Run, Initial, Commit, Needed, UnitsOf, Named;
      LetWrite(ops);
      found := id in UnitsOf(world.directory.tables);
      Perform(AskUnit(id));
    }

    /**
     The DN builder: while an OU is still needed, look it up.  It fails when one is missing or when
     the lookups end in a cycle; undisturbed, exactly when the batch is not answerable.
     */
    method NameUnits(writes: seq<seq<WriteOp>>) returns (answered: bool)
      requires Reached() && world.turn.ReadingDirectory? && Fetched(Directory, world.directory)
      requires world.directory.progress.units == map[]
      modifies this
      ensures Reached()
      ensures answered ==> ReadingStill(old(world), world, Directory) && Ready(Directory, world.directory)
      ensures answered ==> world.directory.progress ==
                           old(world.directory.progress).(units := world.directory.progress.units)
      ensures !answered ==> Dropped(old(world), world)
      ensures writes == [] ==> (answered <==> Answerable(Directory, old(world.directory.tables),
              old(world.directory.progress.got)))
    {
      hide Run, Initial, Commit, Needed, UnitsOf, Named, Answerable, NamingValid, Unknown, LookUpUnit, Next;
      var i := 0;
      ghost var got := world.directory.progress.got;
      NothingKnown();
      while Needed(world.directory.progress.got, world.directory.progress.units) != {}
        invariant Reached() && ReadingStill(old(world), world, Directory) && Fetched(Directory, world.directory)
        invariant world.directory.progress == old(world.directory.progress).(units := world.directory.progress.units)
        invariant writes == [] ==> world.directory.tables == old(world.directory.tables) && NamingValid(world.directory)
        decreases if i < |writes| then |writes| - i else 0, Unknown(world.directory)
      {
        var id :| id in Needed(world.directory.progress.got, world.directory.progress.units);
        var ops := if i < |writes| then writes[i] else [];
        ghost var before := world.directory;
        var found := LookUp(id, ops);
        if !found {
          if writes == [] { NotAnswerable(before, id); }
          return false;
        }
        if ops == [] {
          LookUpShrinks(before, id);
          if writes == [] { LookUpNamingValid(before, id); }
        }
        i := i + 1;
      }
      answered := Named(world.directory.progress.got, world.directory.progress.units);
      if writes == [] { NamedExactly(world.directory); }
      if !answered {
        GiveUpRequest();
      }
    }

    /** The request ends in an error. */
    method GiveUpRequest()
      requires Reached() && Reading(world.turn)
      modifies this
      ensures Reached() && Dropped(old(world), world)
    {
      hide Run, Initial, Commit, SideStep;
      Perform(ReadFails);
    }

    lemma NothingKnown()
      requires world.directory.progress.Fetching? && world.directory.progress.units == map[]
      ensures NamingValid(world.directory)
    {
    }

    /**
     Core's answer for one channel: a series of queries, each after the commits `writes` gives for
     it, and for the directory the lookups of the DN builder.  An answered batch holds the current
     contents of everything in (threshold, cut]; a request that fails changes no watermark.
     */
    method ListChangedAfter(ch: Channel, writes: nat -> seq<WriteOp>, lookups: seq<seq<WriteOp>>)
      returns (answered: bool)
      requires Reached() && Reading(world.turn) && ActiveChannel(world.turn) == ch
      requires SideOf(world, ch).progress.Closed?
      modifies this
      ensures Reached()
      ensures answered ==>
                && ReadingStill(old(world), world, ch)
                && Ready(ch, SideOf(world, ch)) && SideOf(world, ch).progress.threshold == SideOf(world, ch).memory
                && BatchIsComplete(SideOf(world, ch))
      ensures !answered ==> ch.Directory? && Dropped(old(world), world)
    {
      hide Run, Initial, Valid, Commit, BatchIsComplete, Named, SideStep, Next;
      AskForRevisions(ch, writes);
      AskForRows(ch, writes);
      answered := true;
      if ch.Directory? {
        answered := NameUnits(lookups);
      }
      if answered {
        AnsweredCompletely(ch);
      }
    }

    lemma AnsweredCompletely(ch: Channel)
      requires Reached() && Ready(ch, SideOf(world, ch))
      ensures BatchIsComplete(SideOf(world, ch))
    {
      hide Run, Initial;
      BatchComplete(start, trace, limit, ch);
    }

    /** In a reached state nothing at or below the domain's watermark is missing downstream. */
    lemma NothingLost(ch: Channel)
      requires Reached()
      ensures Mirrored(SideOf(world, ch).tables, SideOf(world, ch).mirror, SideOf(world, ch).applied)
    {
      hide Run, Initial;
      RunKeepsValid(start, trace, limit);
    }

    /** In a reached state the local watermark never exceeds the domain's, nor that Core's counter. */
    lemma Ordered(ch: Channel)
      requires Reached()
      ensures SideOf(world, ch).memory <= SideOf(world, ch).applied <= SideOf(world, ch).revision
      ensures SideOf(world, ch).progress.Checked? ==> SideOf(world, ch).progress.threshold <= SideOf(world, ch).revision
    {
      RunKeepsValid(start, trace, limit);
    }

    // ----- A whole pass -----

    /** A pass with both batches answered. */
    method RunBatches(d: Outcome, c: Outcome) returns (failed: bool)
      requires Reached() && world.turn.RunningDirectory?
      requires Ready(Directory, world.directory) && Ready(Credential, world.credential)
      modifies this
      ensures Reached() && world.turn.Idle?
      ensures Worked(old(world), world, d, c, failed)
    {
      hide Run, Planned, Initial, Commit, AfterFailure, SideStep, Named, Executable;
      var local := Memory(world);
      var directoryFailed, credentialFailed;
      CutInRange(Credential);
      local, directoryFailed := RunChannel(Directory, local, d);
      Perform(MoveOn);
      CutInRange(Credential);
      local, credentialFailed := RunChannel(Credential, local, c);
      Perform(MoveOn);
      failed := directoryFailed || credentialFailed;
    }

    /**
     The state file is loaded and the request is sent.  If it is answered, both batches are worked
     off; if not, the pass fails and moves no watermark.
     */
    method RunOnce(directoryWrites: nat -> seq<WriteOp>, lookups: seq<seq<WriteOp>>,
                   credentialWrites: nat -> seq<WriteOp>,
                   d: Outcome, c: Outcome)
      returns (failed: bool, ghost answer: Option<System>)
      requires Reached() && world.turn.Idle?
      modifies this
      ensures Reached() && world.turn.Idle?
      ensures answer.None? ==> failed && Dropped(old(world), world)
      ensures answer.Some? ==> Answer(old(world), answer.value) && Worked(answer.value, world, d, c, failed)
      ensures Mirrored(world.directory.tables, world.directory.mirror, world.directory.applied)
      ensures Mirrored(world.credential.tables, world.credential.mirror, world.credential.applied)
    {
      hide Run, Initial, SideStep, BatchIsComplete, Commit, ChannelDone, Errs, Saves, Mirrored, Named;
      Perform(Start);
      var answered := ListChangedAfter(Directory, directoryWrites, lookups);
      if !answered {
        NothingLost(Directory);
        NothingLost(Credential);
        return true, None;
      }
      Perform(MoveOn);
      answered := ListChangedAfter(Credential, credentialWrites, []);
      Perform(MoveOn);
      answer := Some(world);
      AnsweredCompletely(Directory);
      AnsweredCompletely(Credential);
      failed := RunBatches(d, c);
      NothingLost(Directory);
      NothingLost(Credential);
    }
  }

  /** Both batches were read completely from the saved watermarks. */
  ghost predicate Answer(sys: System, answer: System) {
    && Ready(Directory, answer.directory) && BatchIsComplete(answer.directory)
    && Ready(Credential, answer.credential) && BatchIsComplete(answer.credential)
    && answer.directory.memory == answer.directory.progress.threshold == sys.directory.file
    && answer.credential.memory == answer.credential.progress.threshold == sys.credential.file
  }

  /**
   Both batches were worked off.  Each channel ends as its own outcome says, whatever the other did,
   and an error is reported exactly when one of them has one.  The state file holds both watermarks,
   so a later save of the credential channel also records a directory watermark whose save failed.
   */
  ghost predicate Worked(answer: System, sys: System, d: Outcome, c: Outcome, failed: bool)
    requires answer.directory.progress.Fetching? && answer.credential.progress.Fetching?
  {
    && ChannelDone(answer.directory, sys.directory, d)
    && ChannelDone(answer.credential, sys.credential, c)
    && (failed <==> Errs(answer.directory, d) || Errs(answer.credential, c))
    && sys.directory.file == (if Saves(answer.directory, d) || Saves(answer.credential, c)
                              then sys.directory.memory else answer.directory.file)
    && sys.credential.file == (if Saves(answer.credential, c) then sys.credential.memory
                               else if Saves(answer.directory, d) then answer.credential.memory
                               else answer.credential.file)
  }
}
