# Adscope in Dafny

Adscope keeps an organisation's directory in a central store, Core, and copies every change to
one Syncer per domain, which applies it to an LDAP directory. This project models the parts of
Adscope whose correctness depends on more than one function, and proves what they promise:

* the revision protocol: write transactions, tombstones, batches cut at a revision, execution,
  confirmation, the saved watermark, crashes (`Store`, `Writes`, `Transactions`, `Repository`,
  `Cut`, `Paging`, `Sync`, `Guarantees`, `Reach`, `Returned`, `Rehire`, `Retired`, `Quiet`,
  `Convergence`, `Retry`, `Refused`, `Batch`, `Runtime`);
* the algorithms it depends on: OU ordering and the plan (`OuOrder`, `Plan`), distinguished names
  (`Dn`), SQL placeholders (`Sql`), the state file (`StateFile`), employee IDs (`EmployeeId`);
* the authorization codes of the OpenID Connect endpoints (`Oidc`, `Redeem`, `Scopes`).

`Decimal`, `Sorting` and `Text` hold what several of them share.

## How to read it

`Store.Commit` is what one write transaction does to the tables. `Transactions` interleaves the
steps of many such transactions and shows that they amount to `Commit` in commit order.
`Repository` is the object whose methods carry the transactions out row by row. `Sync.Next` is one
step of Core together with a Syncer, over both channels; `Sync.Run` is any sequence of steps, and
`Reach.Leads` says that some run leads from one state to another. `Guarantees`, `Returned`, `Rehire`
and `Retry` hold for every run. `Quiet` and `Convergence` are about runs that nothing disturbs. `Batch` ties a batch of the
step system to the plan and the table of DNs that the program makes of it.
`Refused` and `Retired` are single runs in which something goes wrong. `Runtime` is the Syncer's loop
body as an object; its methods show that everything it does is a run of `Sync`.

A commit can land between any two queries of a sync request, the lookups of the DN builder included.
A confirmation can be processed late, more than once or never. An execution can fail having finished
some subjects and left others half way. The Syncer can crash after any step and its state file can
disappear.

## Assumptions

* One Syncer per domain, and a domain configuration that does not change.
* Commits are atomic. The row lock that the compare-and-set takes on `sync_metadata` is held until
  commit or rollback; all other reads see committed data.
* A successful execution applied the whole plan. A failed one applied any part of it; a plan that
  cannot be built is a failed execution that did nothing. Repeating an operation whose subject already
  is as it asks changes nothing, and no operation takes effect after the call that issued it has been
  given up.
* The downstream directory is kept per subject (OU, employee, group, password): executing one subject
  never changes the copy of another.
* Undisturbed runs are those without commits and without failures from outside: LDAP accepts a plan
  that can be built, requests and answers arrive, and Core can open the passwords it stored.
* Approving an authorization request is one step, although its checks, the clean-up of expired codes
  and the insertion are separate calls (`core/src/oidc/routes.rs:194-296`). Redeeming a code is two:
  authentication, then the transaction that consumes the code.
* Hashes, the PKCE transform and the redirect URI match are arbitrary functions. Injectivity is a
  hypothesis of the one lemma that needs it.
* Revisions are natural numbers bounded by 2^63 - 1, as `crates/store/src/revision.rs` enforces.

## Where the code does less than one might expect

* Creating a user clears the employee's tombstone before it takes the revision lock
  (`crates/store/src/repository.rs:661` and `:665`). A deletion that commits in between leaves a user row and
  a tombstone for one employee: `Transactions.RaceLeavesBothRows` gives the schedule for every store
  that allows it, `Store.UncontestedExactly` says which commits cause it, and
  `Transactions.RaceNeedsDeletion` that in every schedule such a commit follows a deletion of the same
  employee that was committed after the create had looked for the tombstone. The user row is
  always the newer one (`Rehire.UserRowIsNewer`). The no-lost-update guarantee then holds for it, at every
  moment of a run, if and only if no execution gets to an employee whom its batch retires although the
  user row was already confirmed or claimed (`Rehire.NoLostUpdateExactly`); a batch cut at or above
  everything confirmed and claimed never does that (`Rehire.CurrentBatchHarmless`). Up to the saved
  watermark it holds in every reachable state, harm or no harm (`Rehire.SavedIsGoverned`), so catching up
  repairs whatever was done.
  `Retired.LeftoverTombstoneRetires` is a run from an empty domain that does it, after a lost state file.
* A sync request builds a table of DNs and fails, for both channels, when an OU it involves has a
  missing or cyclic chain of parents (`crates/store/src/repository.rs:1040-1047`); nothing stops such a chain from
  being written (`core/src/routes/admin.rs:529-547`). A batch that holds only tombstones is neither executed nor
  confirmed (`syncer/src/runtime.rs:266`). A page cut below the domain's watermark is executed and refused.
  `Quiet.CatchesUpExactly` and `Convergence.BothCatchUpExactly` say that undisturbed runs catch up if and
  only if no page on the way is of one of these kinds, `Convergence.CredentialsCatchUpExactly` what that
  means for the credential channel alone, and `Convergence.DanglingParentStops` gives an input.
* A confirmation that was accepted and not saved can be refused when the batch is read again. If the
  first batch was read undisturbed, the retry is accepted if and only if some row is still as new as
  the domain's watermark (`Retry.RetryExactly`), so only after an OU was deleted, or a user in the
  credential channel (`Retry.RetryAccepted`, `Refused.OuDeletionBlocksRetry`). If commits landed between the
  queries of the first read, it can be refused although nothing was deleted
  (`Refused.InterleavedReadBlocksRetry`). For any watermark that has fallen behind, however it happened,
  `Quiet.ConfirmableExactly` has the exact condition, and `Quiet.RecoversExactly` says that a channel which
  does not recover in one undisturbed run never does.
* The protocol description says that a batch revision never lies beyond what the batch returns
  (`docs/reference/syncer-sync-protocol.md:68`). Over every run that holds if and only if the revision was
  counted and some row still had it when the rows of its table were queried
  (`Returned.CutReturnedExactly`); a request that counts nothing answers the server's revision and no
  rows. `Returned.CutCanBeUnreturned` is a run in which a password changes between the two queries.
  Undisturbed, it holds if and only if something is pending (`Returned.QuietCutReturned`).
  `Guarantees.BatchComplete` shows why nothing is lost when it fails.
* The preview of the next employee ID and the allocation differ only at the last value of the
  column (`EmployeeId.PreviewAgreesExactly`, `EmployeeId.PreviewDiffers`).

## Model

| member | source | states |
|---|---|---|
| Store.CommitLater | crates/store/src/repository.rs:449-923 | every kind of transaction leaves each row untouched or stamped with a revision above the old counter; a row that disappears has, if anything, a newer twin; only an OU deletion removes directory rows without a successor |
| Store.CommitTables | crates/store/src/repository.rs:449-923 | no transaction puts a credential among the directory rows or a directory row among the credentials |
| Store.UncontestedExactly | crates/store/src/repository.rs:661-665 | from a store where no employee has both a user row and a tombstone, a commit keeps that property if and only if it is not a create that overlooked a tombstone |
| Writes.UpsertWrites | crates/store/src/repository.rs:449-524 | the last version of every OU, user and group of the input is stored at the new revision, tombstones of its users are gone, every other row is unchanged |
| Writes.DeleteUserWrites | crates/store/src/repository.rs:855-923 | the user and its credential are gone, a tombstone carries the new revision, no group lists the employee, exactly the groups that did carry the new revision; no other row, no other credential and only the directory counter changed |
| Writes.CreateWrites | crates/store/src/repository.rs:628-758 | neither row existed and the username was free; the user and the credential carry the next revision of their channels, the tombstone goes if it was seen, every other row is unchanged |
| Writes.ContactWrites | crates/store/src/repository.rs:760-805 | exactly the three contact fields and the revision of an existing user change, field by field, and no other row |
| Writes.DeleteOuWrites | crates/store/src/repository.rs:807-853 | the OU is gone, no remaining row refers to it, nothing took its place, a revision is spent, every other row is unchanged |
| Writes.PasswordWrites | crates/store/src/repository.rs:1173-1200 | the new credential at the next credential revision, every other row and the directory unchanged |
| Writes.UpsertCommitsExactly | crates/store/src/repository.rs:449-524 | an upsert commits if and only if it is not empty, the counter has room, and no user of the input finds its username held by another employee: the last earlier version of another user of the input, or a stored user not yet replaced |
| Writes.WithoutFilters | crates/store/src/repository.rs:884-890 | leaving a group filters the member list and keeps the order and number of the others |
| Writes.CommitKeepsUsernames | crates/store/src/repository.rs:449-923 | no transaction lets two users share a username |
| Repository.Repository.UpsertDirectory | crates/store/src/repository.rs:449-524 | row by row in place, equals the transaction of the specification; commits exactly when `Writes.UpsertPossible` holds and otherwise leaves everything as it was |
| Repository.Repository.CreateUserWithInitialCredential | crates/store/src/repository.rs:628-758 | as `Writes.CreateWrites` says, exactly when both rows and the username are free and both counters have room; otherwise nothing at all changes |
| Repository.Repository.UpdateUserContact | crates/store/src/repository.rs:760-805 | as `Writes.ContactWrites` says, exactly when the user exists and the counter has room; otherwise nothing at all changes |
| Repository.Repository.DeleteOrganizationalUnit | crates/store/src/repository.rs:807-853 | as `Writes.DeleteOuWrites` says, exactly when the OU exists, no OU, user or group refers to it and the counter has room; otherwise nothing at all changes |
| Repository.Repository.DeleteUserAndLeaveGroups | crates/store/src/repository.rs:855-923 | the loop over groups ends in the specified deletion, as `Writes.DeleteUserWrites` says, exactly when the user exists and the counter has room; otherwise nothing at all changes |
| Repository.Repository.ChangeUserPassword | crates/store/src/repository.rs:1173-1200 | as `Writes.PasswordWrites` says, exactly while the counter has room |
| Repository.BatchRevision | crates/store/src/repository.rs:985-997 | sorting, deduplicating and indexing gives the limit-th distinct revision, the last one if there are fewer, the server's if there are none; `has_more` exactly when there are more distinct revisions than the limit |
| Repository.IndexIsCut | crates/store/src/repository.rs:985-997 | the entry of the sorted list at the limit is the cut of the set it lists |
| Cut.CutReaches | crates/store/src/repository.rs:988-997 | the cut is at least `a` if and only if some pending revision is and fewer than the limit lie below `a` |
| Cut.CutTakes | crates/store/src/repository.rs:988-997 | the cut takes in exactly the limit of distinct revisions, or all of them |
| Transactions.Serializable | crates/store/src/revision.rs:28-86 | under every interleaving of begin, clear, load, compare-and-set, write, commit, rollback and retry the store is what the committed transactions produce one after the other |
| Transactions.RevisionsConsecutive | crates/store/src/revision.rs:28-86 | in both channels committed transactions got consecutive revisions in commit order, and the counter is the initial one plus their number |
| Transactions.LostRaceMeansProgress | crates/store/src/revision.rs:28-56 | a compare-and-set fails only when the counter has moved on since it was loaded |
| Transactions.FiveAttempts | crates/store/src/repository.rs:461-521 | a transaction that loses its compare-and-set starts over, and gives up with its fifth attempt |
| Transactions.RaceLeavesBothRows | crates/store/src/repository.rs:661-670 | the schedule that leaves a user row and a tombstone, for every store in which both transactions can commit |
| Transactions.RaceNeedsDeletion | crates/store/src/repository.rs:661-670 | in every schedule a create about to commit over a tombstone that it did not clear has, after its own look at the tombstone, a committed deletion of the same employee in the log |
| Sync.WriteKeeps | crates/store/src/repository.rs:461-521 | a commit at any moment of a channel's progress keeps the invariant |
| Sync.QueryRevisionsKeeps | crates/store/src/repository.rs:945-984 | after each revision query, every row of the tables asked so far that changed in the window has been noticed |
| Sync.FetchRowsKeeps | crates/store/src/repository.rs:999-1049 | after each row query the batch is complete for the tables asked so far and holds nothing stale at or below the cut |
| Sync.SucceedKeeps | syncer/src/runtime.rs:257-326 | a successful execution mirrors everything up to the cut without undoing what was confirmed |
| Sync.FailKeeps | syncer/src/runtime.rs:257-326 | a failed execution, whatever part it applied, damages nothing that was confirmed or claimed |
| Sync.ConfirmationKeeps | crates/store/src/revision.rs:104-123 | sending, late or repeated processing, and hearing of a confirmation keep the invariant under the guard |
| Sync.NextKeepsValid | syncer/src/runtime.rs:67-214 | every step of the whole system keeps the invariant of both channels |
| Sync.RunKeepsValid | syncer/src/runtime.rs:67-214 | the invariant holds after every run from a domain that has confirmed nothing |
| Guarantees.NoLostUpdate | syncer/src/runtime.rs:67-214 | in every reachable state a row at or below the domain's watermark is exactly what the directory holds, unless its employee has both rows, which `Rehire.NoLostUpdateExactly` covers |
| Guarantees.NoLostUpdateRaceFree | syncer/src/runtime.rs:67-214 | on runs without the create race this holds for every row and tombstone of both channels |
| Rehire.UserRowIsNewer | crates/store/src/repository.rs:628-923 | in every reachable state the user row of an employee with both rows is newer than the tombstone |
| Rehire.NoLostUpdateExactly | syncer/src/runtime.rs:67-214 | for every run: at every moment every governing row (all rows but a tombstone beside a user row) at or below each confirmed or claimed watermark is mirrored, if and only if no execution gets to an employee whom its batch retires although the user row was confirmed or claimed |
| Rehire.CurrentBatchHarmless | syncer/src/runtime.rs:67-122 | a batch cut at or above everything confirmed and claimed retires no such employee |
| Rehire.SavedIsGoverned | syncer/src/runtime.rs:67-214 | in every reachable state, harmful executions included, every governing row up to the saved watermark is mirrored |
| Retired.LeftoverTombstoneRetires | crates/protocol/src/lib.rs:338-357 | a run from an empty domain in which a leftover tombstone retires an employee whose newer user row was confirmed |
| Guarantees.BatchComplete | crates/store/src/repository.rs:935-1049 | whatever commits land between the queries, the finished batch holds the current contents of every row and tombstone in (threshold, cut], and anything outdated in it was overtaken above the cut |
| Guarantees.BatchNeverContested | crates/store/src/repository.rs:935-1049 | on runs without the create race no employee is both in the users and the deleted users of a batch |
| Returned.CutReturnedExactly | crates/store/src/repository.rs:945-1049 | over every run, for both channels: a batch returns a row at its own revision if and only if that revision was counted and some row still had it when the rows of its table were queried; a request that counted nothing returns nothing |
| Returned.ChosenSomewhere | crates/store/src/repository.rs:985-997 | every batch of every run has a step in which its revision was chosen |
| Returned.QuietCutReturned | crates/store/src/repository.rs:1226-1296 | an undisturbed request returns a row at its revision if and only if something is pending |
| Returned.CutCanBeUnreturned | crates/store/src/repository.rs:1245-1273 | for every limit a run in which a counted password changes before the rows are queried, so that the batch is empty |
| Guarantees.WatermarkChain | crates/store/src/repository.rs:1421-1447 | saved watermark, domain watermark and server revision are ordered in every reachable state, for both channels |
| Guarantees.GuardExactly | crates/store/src/revision.rs:104-123 | whatever revision a request names, Core accepts it exactly when the domain's watermark does not fall and does not pass the counter |
| Guarantees.StepsMoveForward | syncer/src/runtime.rs:93-238 | no step of a run lowers the counter or the domain's watermark; only a lost file lowers the saved one; a failure moves neither; the domain's watermark moves only to a revision its own channel claimed |
| Runtime.SyncerRuntime.ConfirmChannel | syncer/src/runtime.rs:180-214 | exactly when Core's watermark, the watermark in memory and the saved one move, and when an error is returned |
| Runtime.SyncerRuntime.RunChannel | syncer/src/runtime.rs:93-122 | the channel's new state for every combination of execution, reply and save, with commits landing before and in between; failures move no watermark |
| Runtime.SyncerRuntime.NameUnits | crates/store/src/repository.rs:1072-1149 | the lookups of the DN builder with commits before each end in a complete table or fail the request; undisturbed, they fail exactly when an involved OU has no complete chain of parents |
| Runtime.SyncerRuntime.ListChangedAfter | crates/store/src/repository.rs:925-1070 | with arbitrary commits before each query, an answered request is a complete batch from the requested watermark; a failed one moves nothing; both are runs of the step system |
| Runtime.SyncerRuntime.RunBatches | syncer/src/runtime.rs:82-178 | each channel depends on its own outcome only, except that the shared file also records a directory watermark whose own save failed; the error is exactly that of either channel |
| Runtime.SyncerRuntime.RunOnce | syncer/src/runtime.rs:67-178 | a pass whose request fails reports an error and moves no watermark; any other works on complete batches read from the saved watermarks; after both nothing at or below the domain's watermarks is unmirrored |
| Paging.PagesInOrder | crates/store/src/repository.rs:985-1049 | pages over a fixed store are consecutive windows in revision order, hold at most max(limit, 1) distinct revisions, number the rounded-up quotient, and `has_more` marks all but the last |
| Paging.DeliveredOnce | crates/store/src/repository.rs:985-1049 | every changed row is on exactly one page, as it is |
| Paging.PagesConcatenate | crates/store/src/repository.rs:999-1038 | the pages of one kind of row, each ordered by revision and ID, put end to end are the ordered list of all changed rows of that kind |
| Paging.RunsNeededIsCeiling | crates/store/src/repository.rs:988-997 | the number of pages is n divided by the limit, rounded up |
| Quiet.ReadAllIsSnapshot | crates/store/src/repository.rs:925-1149 | undisturbed, the separate queries return the rows in (threshold, cut] of one snapshot, and the request is answered if and only if every OU they involve has a complete chain of parents |
| Quiet.NameAllExactly | crates/store/src/repository.rs:1072-1149 | whatever the order of the lookups, they end with all DNs exactly then |
| Quiet.QuietRunEffect | syncer/src/runtime.rs:67-122 | from any saved watermark, a run applies, confirms and saves the next page if it can be answered and executed and the guard accepts it; otherwise neither watermark moves |
| Quiet.Converges | syncer/src/runtime.rs:67-106 | with Core quiet, n divided by the limit, rounded up, runs, or more, reach the largest changed revision with everything mirrored, if every page on the way works; employees with both rows included, if everything up to the saved watermark was governed |
| Quiet.StuckForever | syncer/src/runtime.rs:257-273 | otherwise no number of runs ever catches up |
| Quiet.CatchesUpExactly | syncer/src/runtime.rs:67-122 | some number of runs catches up, and from a governed state fully, if and only if every page on the way can be answered and executed and the first reaches the domain's watermark |
| Quiet.ConfirmableExactly | crates/store/src/revision.rs:104-123 | from any saved watermark the guard accepts the next page if and only if something pending has reached the domain's watermark and fewer than the limit of pending revisions lie below it |
| Quiet.RecoversExactly | crates/store/src/revision.rs:104-123 | for every positive number of runs: a channel whose saved watermark fell behind is back in step if and only if its next page can be answered, executed and confirmed |
| Quiet.CredentialPagesWork | crates/store/src/repository.rs:1226-1296 | in the credential channel only the guard can stop the pages |
| Convergence.QuietPassIsRun | syncer/src/runtime.rs:67-178 | an undisturbed pass over both channels, a failing request included, is a run of the step system |
| Convergence.BothCatchUpExactly | syncer/src/runtime.rs:67-178 | some number of passes brings both channels up to date, employees with both rows included when the directory is governed up to its saved watermark, if and only if every page of each works |
| Convergence.CredentialsCatchUpExactly | syncer/src/runtime.rs:67-178 | the credential channel alone catches up if and only if its guard accepts and the directory lets as many requests be answered as it needs runs |
| Convergence.EveryReachableStateCatchesUp | syncer/src/runtime.rs:67-178 | from every reachable idle state whose pages work, as many passes as the slower channel needs lead to both channels caught up over the same tables, with every governing row mirrored, employees with both rows included |
| Convergence.UnanswerableStopsBoth | crates/store/src/repository.rs:1040-1047 | a request that cannot be answered stops both channels for every number of passes |
| Convergence.DanglingParentStops | core/src/routes/admin.rs:529-547 | an OU whose parent does not exist can be written, and from then on neither channel moves |
| Convergence.AnsweredPagePlans | crates/protocol/src/lib.rs:367-412 | the OUs of an answered undisturbed page are unique and acyclic, so that planning it succeeds |
| Retry.RetryExactly | crates/store/src/repository.rs:985-997 | over every run: a batch was read undisturbed, its revision is the domain's watermark and its threshold the saved one; the guard accepts the batch read again if and only if some row is as new as the domain's watermark |
| Retry.RetryAccepted | crates/store/src/repository.rs:1421-1447 | so it accepts when no OU, in the credential channel no user, was deleted in between |
| Retry.DirectoryRetryAfterCrash | syncer/src/runtime.rs:190-211 | from every reachable idle state: an undisturbed pass is accepted, the Syncer crashes before saving, anything but OU deletions is written, and the guard accepts the retried batch |
| Refused.OuDeletionBlocksRetry | crates/store/src/repository.rs:807-853 | for every limit above one, a run with an OU deletion after which the retry is refused and the channel never catches up |
| Refused.InterleavedReadBlocksRetry | crates/store/src/repository.rs:945-997 | a run with a limit of one and no deletion, whose first read was interleaved, after which the retry is refused although a row is as new as the domain's watermark |
| OuOrder.Visit | crates/protocol/src/lib.rs:388-412 | places an OU and its unplaced ancestors, parents first, or reports an OU on a cycle; ends because every call marks one more OU |
| OuOrder.OrderedOrganizationalUnits | crates/protocol/src/lib.rs:367-386 | succeeds if and only if IDs are unique and the hierarchy inside the batch is acyclic; a permutation with every in-batch parent before its child; errors name an ID at fault |
| Plan.PlanExact | crates/protocol/src/lib.rs:273-364 | an operation is in the plan if and only if the batch calls for it |
| Plan.PlanStaged | crates/protocol/src/lib.rs:273-364 | operations come in the documented stages |
| Plan.PlanInOrder | crates/protocol/src/lib.rs:273-364 | each stage holds what the batch calls for, as often and in the order in which the batch lists it |
| Plan.Pieces | crates/protocol/src/lib.rs:286-357 | what each user, group and deleted user contributes to its stages, and in which order |
| Plan.TryFromBatch | crates/protocol/src/lib.rs:273-364 | fails exactly on duplicate IDs or cycles; otherwise exactly the wanted operations, stage by stage in batch order, OUs parents first, for the batch's revision |
| Batch.RetiredExactly | crates/protocol/src/lib.rs:338-357 | for a batch that lists the fetched rows, the plan retires an employee if and only if the tombstone decides what an execution leaves |
| Batch.EnsuredExactly | crates/protocol/src/lib.rs:286-289 | the plan ensures a user if and only if that user's row is what an execution leaves |
| Batch.UnitsExactly | crates/protocol/src/lib.rs:279-284 | the plan ensures an OU if and only if its row is what an execution leaves |
| Batch.GroupsExactly | crates/protocol/src/lib.rs:307-317 | the plan ensures a group, and its members, if and only if its row is what an execution leaves |
| Batch.ExecutedExactly | syncer/src/runtime.rs:266-273 | a directory batch is executed if and only if its list of OUs, of users or of groups is not empty |
| Batch.CredentialsExecutedExactly | syncer/src/runtime.rs:131-135 | a credential batch is executed if and only if it is not empty |
| Batch.InvolvedExactly | crates/store/src/repository.rs:1081-1088 | the OUs whose DNs are needed are exactly those of the batch itself, of its users and of its groups |
| Batch.LookUpExactly | crates/store/src/repository.rs:1107-1117 | a lookup returns the name and the parent of the stored OU, and fails exactly when there is none |
| Batch.RunKeepsFit | crates/store/src/repository.rs:925-1070 | in every reachable state the rows of the tables and of a batch are of the kind that their keys name, as the four results above assume |
| Dn.EscapeLdapDnValue | crates/store/src/repository.rs:1496-1513 | for every string the escaped text unescapes to the value and reads, unit by unit, as the value with exactly the special characters, a leading space or number sign and a trailing space escaped |
| Dn.UnescapeInverts | crates/store/src/repository.rs:1496-1513 | dropping escape backslashes inverts escaping |
| Dn.EscapedExactly | crates/store/src/repository.rs:1496-1513 | which characters are escaped, written out, position by position and in both directions (section 2.4 of RFC 4514) |
| Dn.ReadEscaped | crates/store/src/repository.rs:1496-1513 | an escaped value followed by a comma is read back up to that comma and no further |
| Dn.DnDeterminesNames | crates/store/src/repository.rs:1130-1144 | under one mirror root two DNs are equal if and only if the whole chains of names are |
| Dn.WalkUp | crates/store/src/repository.rs:1096-1128 | the chain it returns leads from the OU to the memo table or a root; an error names a missing OU or one on a cycle above |
| Dn.FillDown | crates/store/src/repository.rs:1130-1144 | adds exactly the chain, each OU with its own DN; the parent's DN is always there |
| Dn.HasChainExactly | crates/store/src/repository.rs:1093-1128 | walking up with a set of visited OUs decides whether an OU has a complete chain of parents |
| Dn.TheDnStep | crates/store/src/repository.rs:1130-1144 | a DN is `OU=`, the escaped name, a comma and the DN of the parent or the mirror root |
| Dn.OrganizationalUnitDns | crates/store/src/repository.rs:1072-1149 | succeeds if and only if every involved OU has a complete acyclic chain; then holds exactly the involved OUs and their ancestors, with the DN of the recursive definition; no OU is looked up twice |
| Batch.DnTable | crates/store/src/repository.rs:1040-1149 | from the OUs of an answered request, as they were looked up between commits, building the table cannot fail and gives every OU of the batch, of its users and of its groups the DN of the recursive definition |
| Sql.BindPlaceholders | crates/store/src/sql.rs:7-56 | on PostgreSQL the text with its placeholders numbered, elsewhere the text itself |
| Sql.PlaceholderNumber | crates/store/src/sql.rs:7-56 | the character at any position becomes a dollar sign and k if it is the k-th question mark in code, and stays itself otherwise |
| Sql.ClassesKept | crates/store/src/sql.rs:7-56 | every character keeps its lexical class and what is inserted is code |
| Sql.CommentSegment | crates/store/src/sql.rs:7-56 | a comment runs from two dashes in code to the end of the line, and no further |
| Sql.StringSegment | crates/store/src/sql.rs:7-56 | a string runs from a quote in code to the next quote that is not one of two, and no further |
| Sql.CodeSegment | crates/store/src/sql.rs:7-56 | any other character in code is code |
| Sql.BindIdempotent | crates/store/src/sql.rs:7-56 | binding twice is binding once, for every text |
| StateFile.ParseLocalRevisionState | syncer/src/state.rs:103-139 | the loop with its two optional variables computes the recursive definition, in the range of 64 bits |
| StateFile.ParseFormat | syncer/src/state.rs:103-146 | parsing the printed text of any pair of 64-bit revisions returns the pair |
| StateFile.ParseExactly | syncer/src/state.rs:103-139 | a text is accepted if and only if, in braces, every comma-separated piece is blank or gives a number to one of the two names and both names get one; of several the last counts |
| StateFile.ParseU64Exactly | syncer/src/state.rs:124 | numbers are decimal, with or without a plus sign, up to 2^64 - 1 |
| StateFile.FormatText | syncer/src/state.rs:141-146 | the exact text that is written |
| StateFile.FileLocalStateStore.Save | syncer/src/state.rs:59-79 | after a completed save the file parses to the saved state |
| StateFile.FileLocalStateStore.LoadForSync | syncer/src/state.rs:81-100 | a missing file gives zeros, an unparsable one zeros and a rebuild, a parsable one its state and no rebuild |
| EmployeeId.AllocateEmployeeId | crates/store/src/repository.rs:1450-1477 | returns the ID of the first free number and leaves the counter behind it; ends because each skipped ID leaves a finite set |
| EmployeeId.PadShape | crates/store/src/repository.rs:1468 | IDs have six places, filled with zeros on the left, or as many as the number needs |
| EmployeeId.PreviewNextEmployeeId | crates/store/src/repository.rs:599-626 | returns the ID of the first free number up to the last value of the column |
| EmployeeId.PreviewAgreesExactly | crates/store/src/repository.rs:599-626 | preview and allocation agree if and only if the first free number is not the last value of the column |
| EmployeeId.PreviewDiffers | crates/store/src/repository.rs:599-626 | an input at which they differ: nobody registered and the counter at the last value |
| EmployeeId.IssuedIncrease | crates/store/src/repository.rs:1450-1477 | over any run of creations, deletions and rollbacks committed automatic numbers strictly increase |
| EmployeeId.NeverReissued | crates/store/src/repository.rs:1450-1477 | no two committed automatic creations ever get the same ID |
| Scopes.HasNoRepeats | core/src/oidc/validation.rs:17-40 | the length test after sorting and deduplicating holds if and only if the list has no repeats |
| Scopes.ValidateScopes | core/src/oidc/validation.rs:17-40 | accepts exactly the texts of 1 to 256 characters that are up to four of the four scope names, `openid` among them, without repeats and with one space between |
| Scopes.JoinedScopesValidate | core/src/oidc/validation.rs:17-40 | an accepted list joined with spaces validates to the same list |
| Oidc.CodesConserved | crates/store/src/repository.rs:253-351 | over any run, for each code hash, stores equal removals plus one while it is present, and tokens issued never exceed removals |
| Oidc.AttemptBurnsCode | core/src/oidc/routes.rs:439-461 | after any attempt of a known client that fails authentication, and any that finishes an exchange, no token is ever issued for the presented code unless an approval stores its hash again |
| Oidc.RunTraced | core/src/oidc/routes.rs:244-546 | in every reachable state each stored code goes back to its approval and each token to a redemption that met every check, right after its code was removed |
| Redeem.RedemptionSucceeds | core/src/oidc/routes.rs:427-546 | for web and desktop clients: a good request approved by an active user, then anything that does not concern its code, client or user, then a proper redemption finished less than 120 seconds after the approval, issues the token of that approval |
| Redeem.AuthorizationExactly | core/src/oidc/routes.rs:303-370 | the authorization endpoint accepts exactly the requests that meet every written-out condition |
| Redeem.ApprovalExactly | core/src/oidc/routes.rs:244-301 | an approval stores its fresh code exactly when the request is good, the user active and the times fit |
| Redeem.AuthenticatesExactly | core/src/oidc/routes.rs:579-608 | a web client authenticates exactly with the secret whose hash is on record, a desktop client exactly without credentials |
| Redeem.CleanUpExactly | crates/store/src/repository.rs:323-351 | an approval clears expired codes only |
| Redeem.OtherAttemptsKeepCodes | core/src/oidc/routes.rs:439-453 | an unknown client, and another grant of an authenticated one, change nothing |
| Redeem.DeletedUserHasNoCodes | crates/store/src/repository.rs:876-879 | deleting a user leaves none of the user's codes |
| Oidc.TokenHasApproval | core/src/oidc/routes.rs:427-546 | every token goes back to an earlier approval with the same issuer, client, employee, redirect URI, scopes, nonce and time of authentication, redeemed within 120 seconds, with a verifier that hashes to the challenge, for a user active at that moment, with claims that are that user's own fields as far as the scopes go |
| Oidc.TokensHaveDifferentApprovals | core/src/oidc/routes.rs:427-546 | no two tokens go back to the same approval (section 4.1.2 of RFC 6749) |
| Oidc.RedeemedCodeIsApprovedCode | core/src/oidc/routes.rs:244-301 | with an injective hash the code presented is the code that the approval handed out |
| Oidc.ScopeRejectionExactly | core/src/oidc/routes.rs:484-492 | at redemption the scope check rejects a stored code if and only if the client has lost one of its scopes |

## Left out

- LDAP itself: searching, binding, timeouts and attribute values of the Syncer's directory client are one abstract step that succeeds or applies any part of the plan.
- HTTP routing, request authentication of Syncers, cookies, the Portal proxy and static files: plumbing around the operations modelled.
- Argon2, XChaCha20, HMAC, RSA, JWT and random numbers: library code; hashes are function parameters.
- Redirect URI matching and URL parsing: the `url` crate is not part of this model; the match is an arbitrary predicate.
- `upsert_domain`, `create_domain`, `update_domain` and `seed_domain`: they set watermarks and configuration directly and are not steps of the protocol.
- Listing and administration handlers: field copying over the operations modelled.
- Order of rows within one batch of the step system: a batch is a map there; `Paging.PagesConcatenate` states the order for any order of IDs that the database uses.
- The user status that a credential batch looks up for each entry: read by separate queries, not stamped with a revision of the credential channel.
- Error texts and error codes: errors are told apart only where a contract names the ID at fault.
- Runtime.SyncerRuntime.NameUnits: commits land before finitely many lookups; writers who keep adding parents for ever would keep the builder busy for ever.
- Runtime.SyncerRuntime.RunOnce: a request that fails on the way, rather than at Core, is the step `ReadFails` of `Sync.Next` only.
- Repository.Repository.CreateUserWithInitialCredential: takes the employee ID as given; its automatic choice is modelled by itself in `EmployeeId`. The parameter `cleared` stands for what the early tombstone delete found.
- Repository.Repository.UpsertDirectory: one attempt; the retry loop of five attempts around every transaction is in `Transactions`.
- Plan.PlanExact: states which operations are in the plan; how often and in which order is in `Plan.PlanInOrder`.
- EmployeeId.IssuedIncrease: creations are atomic here, because the update of the sequence row locks it until commit.
- Oidc.AttemptBurnsCode: does not cover a clock that cannot be read or lies beyond 2^63 - 1 seconds, where the request fails before the code is touched.
- The NUL character of section 2.4 of RFC 4514: the code does not escape it, and neither does the model.
