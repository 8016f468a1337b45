# Canterlot: a verified model of its protocols, its search compiler and its club rules

Canterlot runs book clubs over MongoDB, Atlas Search and Redis. This project models the parts of it that branch,
race or calculate, and proves what they keep over every input and every run.

* **Search sync** (`WaitGroup`, `WaitGroupRuns`, `WaitGroupResults`, `SearchQuery`, `SyncAnswers`). Writers wait until the search index
  shows what they wrote. Callers register futures with a shared group, one task polls for all of them, and an answer
  is credited only to entries that are still the ones it was asked about. Every stretch between two `await`s is one
  step; a run is any sequence of steps of any number of callers, groups and answers.
* **Transactions** (`Transactions`). `@transactional` as an interpreter of programs made of reads, writes, raises, catches
  and nested decorated calls, against a driver that may fail writes, abort, retry and refuse as a script says.
* **Round completion** (`RoundCompletion`, `RoundProgress`, `RoundMembership`). The finishers' transactions under snapshot
  isolation, step by step, with write conflicts, aborts and retries, and with members who come and go meanwhile.
* **Search schema** (`Paths`, `Fields`, `Indexes`, `Drift`). The walk over a possibly cyclic graph of models, the nested
  mapping built from its paths, and the comparison with what the server echoes back.
* **Clubs** (`Club`, `ClubReplies`, `ClubRuns`, `ClubService`, `ClubRaces`). Membership and ownership: what runs of whole service calls
  keep, what is left when only single writes are atomic, and what callers have to arrange to keep it.
* **Rounds and catalog** (`Rounds`, `RoundRuns`, `RoundReplies`, `RoundService`, `RoundRaces`, `RoundTurns`,
  `RoundRaceRuns`). Reading rounds and the catalog that feeds them, by whole service calls and by their single reads and
  writes.
* **Arithmetic** (`Sorting`, `Weighting`, `RateLimit`, `Paging`). Fair-share weights over the reals, the fixed-window
  counter, and pages cut out of provider chunks.

Where the source updates objects in place the model has classes whose methods are proved equal to functions on values;
the theorems are about those functions, and runs are sequences of them in which a step that is not enabled does nothing.
`dafny verify dfyconfig.toml` checks the whole project.

## Results that are not what one would hope for

The code is modelled as it is. Where a promise fails, a lemma names the input and another says when it holds.

* A polling task cancelled from outside strands its waiters for ever, and one cancelled before its first step also every
  later registration of its key (`StrandedForever`, `CancelledTaskStrandsWaiters`; exactly when:
  `RegistrationReachesLiveGroupIff`). A late registrant may time out without ever having been asked about
  (`LateRegistrantMayGoUnchecked`; exactly when: `LateRegistrantIsAskedIffBudgetLeft`).
* A round whose members have all finished, because the one it waited for has left, is never closed by them
  (`DepartureLeavesRoundOpen`; exactly when: `NoMissedConclusion`, `OpenExactlyWhenAllWereTooEarly`).
* The drift test misses a field named like an injected key beside a field named `type`, and is exact precisely on
  mappings without that (`DriftIsExactIffTidy`), which the field paths show (`TidyExactlyByPaths`).
* With path overrides the order in which a set yields its fields decides between an error and the silent loss of a field
  (`OrderDecides`, `OverridesCanCollide`; exactly when: `BuildOutcome`, `BuildRoundTrips`).
* A former owner's reclaim inside the window is guaranteed precisely when the window is shorter than the cooldown; both
  are configurable and nothing ties them together (`ReclaimGuaranteedIffWindowInsideCooldown`). An heir who gives the
  club back can reclaim it for good within the first owner's window (`GivingBackUndoesThePromise`).
* A removal, departure or second admission racing a transfer leaves a club without an owner for good (`RaceOrphansClub`,
  `LateAdmissionOrphansClub`; exactly when: `OwnerlessExactlyWhenHit`). It cannot happen if none of these overlaps the
  passing of the club to the same user (`TurnsKeepTheOwner`).
* Two racing starts leave two active rounds (`RacingStartsLeaveTwoRounds`; exactly when:
  `OneActiveIffEverySaveLandsFree`), and removals racing a start leave a round that cannot be drawn
  (`RacingRemovalsEmptyTheDraw`; exactly when: `DrawableIffNothingTaken`, `DrawableIsDrawn`). Neither can happen if starts
  take their turns and removals keep apart from them (`StartsInTurnKeepOneActive`, `RemovalsApartKeepTheBooks`,
  `ArrangedClubsDrawInFull`). A round put to the vote is never decided (`VotingNeverEnds`).
* External paging is right for every page precisely when the page size divides 40 (`AllInPlaceIffDivides`), and a chunk
  is shown whole precisely when it has at most 40 books (`PagesShowWholeChunk`). Overlapping searches overwrite each
  other's chunk (`OverlappingMissesOverwrite`; what survives: `HitIsTheLastSave`).
* An interval of one window's length can let through almost twice the limit: `2 * limit - 1`, and no more (`RateBound`,
  `RateBoundIsReached`).

## Model

| member | source | states |
|---|---|---|
| `SearchSync.EventLoop.SetResult` | src/canterlot/hoodie/sync.py:375-378 | setting a result needs a future that is not done, and changes no other |
| `SearchSync.WaitGroup.constructor` | src/canterlot/hoodie/sync.py:301-307 | a new group waits for nobody |
| `SearchSync.WaitGroup.Register` | src/canterlot/hoodie/sync.py:309-317 | the newest entry of a document replaces the pending one, every waiter stays listed, its polling task is created once |
| `SearchSync.WaitGroup.Resolve` | src/canterlot/hoodie/sync.py:375-378 | exactly the document's waiting futures get the result, and its waiters are gone |
| `SearchSync.WaitGroup.ResolveEach` | src/canterlot/hoodie/sync.py:325-326 | resolving documents one by one is resolving them all at once, whatever the order |
| `SearchSync.WaitGroup.GiveUp` | src/canterlot/hoodie/sync.py:347-359 | with the budget spent all pending documents' waiters get the time-out and nothing stays pending |
| `SearchSync.WaitGroup.FailEveryone` | src/canterlot/hoodie/sync.py:322-326 | an exception reaches every waiter still listed |
| `SearchSync.WaitGroup.CreditOne` | src/canterlot/hoodie/sync.py:371-373 | one settled id leaves the group, with its waiters resolved, exactly if its pending entry is the snapshot's own |
| `SearchSync.WaitGroup.CreditSettled` | src/canterlot/hoodie/sync.py:369-373 | exactly the settled documents whose pending entry is the snapshot's own leave the group; it raises exactly at an id outside the snapshot |
| `SearchSync.WaitGroup.OnAnswer` | src/canterlot/hoodie/polling.py:78-84 | after an answer the poller crashes, ends settled, sleeps or gives up, by what is pending and what budget is left |
| `SearchSync.ResolveCompose` | src/canterlot/hoodie/sync.py:375-378 | resolving two sets of documents in turn is resolving their union: nobody is resolved twice |
| `SearchSyncRuns.NextKeeps` | src/canterlot/hoodie/sync.py:300-390 | every step of any caller, task or answer keeps the protocol's invariant |
| `SearchSyncRuns.NoLostWaiter` | src/canterlot/hoodie/sync.py:309-390 | in every run a live group has the same documents pending and waited for, each waiting future is listed by its live registered group, and a group that settled, timed out or crashed leaves no future waiting |
| `SearchSyncRuns.StrandedForever` | src/canterlot/hoodie/sync.py:309-328 | a future of a group whose task was cancelled, registered before or after, waits through every later run unless it is cancelled itself |
| `SearchSyncRuns.StalledExactlyWhen` | src/canterlot/hoodie/sync.py:315-328 | in every run the registry holds a group nobody polls for exactly when a task of that key was cancelled before its first step, which never enters the `finally` |
| `SearchSyncRuns.CancelledTaskStrandsWaiters` | src/canterlot/hoodie/sync.py:315-328 | such a run: the waiter of the cancelled task and the next registration of the key are never resolved, whatever follows |
| `SearchSyncRuns.ResolvedOnce` | src/canterlot/hoodie/sync.py:375-378 | a future that is done keeps its result through every later run |
| `SearchSyncRuns.RegistrationReachesLiveGroupIff` | src/canterlot/hoodie/sync.py:384-397 | in every run a registration joins the group the registry names, as latest entry and last waiter; that group is live if and only if no task of the key was cancelled before its first step, and otherwise the registration is stranded |
| `SearchSyncRuns.NoStaleCredit` | src/canterlot/hoodie/sync.py:361-373 | in every run a success comes from a query sent after the future and after the latest entry for its document registered |
| `SearchSyncRuns.DispatchIsNeverEmpty` | src/canterlot/hoodie/sync.py:361-368 | in every run a group about to poll has something pending |
| `SearchSyncRuns.LateRegistrantMayGoUnchecked` | src/canterlot/hoodie/polling.py:78-84 | a run in which a document times out although no query ever asked about it |
| `SearchSyncRuns.LateRegistrantIsAskedIffBudgetLeft` | src/canterlot/hoodie/polling.py:78-84 | an entry registered while a query is in flight is in the next query's snapshot if an attempt is left, and given up on with this answer if not |
| `SearchSyncRuns.AnswerInsideSnapshotNeverRaises` | src/canterlot/hoodie/sync.py:370-373 | the credit loop gets to its end exactly when all ids are in the snapshot |
| `SearchSyncRuns.PollingIsBounded` | src/canterlot/hoodie/polling.py:78-84 | over every run a task with a budget of B attempts takes at most 2B steps of its own, and where it stands is decided by their number |
| `SearchSyncResults.AnswerDecides` | src/canterlot/hoodie/sync.py:361-378 | after an answer a waiting future succeeds exactly if its document's entry is the one asked about and settled by it, else waits on while attempts are left, else times out |
| `SearchSyncResults.AnswerLeaves` | src/canterlot/hoodie/polling.py:78-84 | exactly the unsettled entries stay pending; the task ends when none is left, sleeps while attempts are left and gives up otherwise |
| `SearchSyncResults.ForeignIdFailsEveryone` | src/canterlot/hoodie/sync.py:319-328 | an id outside the snapshot fails every waiter that no earlier id has settled |
| `SearchSyncResults.OtherStepsDecide` | src/canterlot/hoodie/sync.py:309-397 | no other step gives a waiting future anything, but for its own cancellation, an exception in its group's task, and a task that starts without attempts |
| `SearchSyncResults.FirstQueryAsksAboutAll` | src/canterlot/hoodie/sync.py:361-368 | a task's first query asks about every document registered until then |
| `SearchSyncResults.UnsettledIsAskedAgainIffBudgetLeft` | src/canterlot/hoodie/polling.py:78-84 | every document an answer leaves unsettled, late or not, is in the next query's snapshot, whatever happens until it is sent, if and only if an attempt is left |
| `SearchSyncResults.TimedOutOnlyWhenSpent` | src/canterlot/hoodie/polling.py:78-84 | in every run a future times out only when its group has sent every query the policy allows |
| `SearchSyncAnswers.MatchedExactlyWhenShown` | src/canterlot/hoodie/sync.py:425-437 | the real answer to a snapshot's query is exactly the ids whose own entry the index shows |
| `SearchSyncAnswers.CreditedOfAnswer` | src/canterlot/hoodie/sync.py:368-373 | an answer inside the snapshot never raises, for writes and for deletions |
| `SearchSyncAnswers.CreditedExactlyWhenShown` | src/canterlot/hoodie/sync.py:361-373 | end to end: a document is credited exactly when its entry was not replaced meanwhile and the index showed, or for a deletion did not show, what that entry expects |
| `SearchSyncAnswers.FutureSucceedsExactlyWhenShown` | src/canterlot/hoodie/sync.py:361-378 | in every state of the protocol the real answer makes a waiting future succeed exactly if its entry was not replaced and the index shows it, or for a deletion does not |
| `SearchQueries.SearchQuery.Should` | src/canterlot/hoodie/query.py:178-198 | clauses accumulate in order and the last minimum wins |
| `SearchQueries.AddPhrases` | src/canterlot/hoodie/sync.py:445-450 | each non-empty expected string becomes one phrase, other values none |
| `SearchQueries.MatchClauses` | src/canterlot/hoodie/sync.py:440-452 | an entry's query insists on its id and all its phrases |
| `SearchQueries.BatchQuery` | src/canterlot/hoodie/sync.py:425-436 | one query with a clause for all id-only entries and one for each other entry |
| `SearchQueries.EntryQueryIsSatisfaction` | src/canterlot/hoodie/sync.py:440-452 | an entry's own query matches exactly the documents that show all it expects |
| `SearchQueries.BatchIsDisjunction` | src/canterlot/hoodie/sync.py:428-436 | the batched query matches a document exactly when some entry is satisfied by it |
| `SearchQueries.BatchedMatchIsPerEntry` | src/canterlot/hoodie/sync.py:425-452 | one query for a snapshot with distinct ids decides every entry as its own check would |
| `SearchQueries.BatchIsNotEmpty` | src/canterlot/hoodie/sync.py:428-436 | a snapshot's query is never the empty one that would match everything |
| `Transactions.Runtime.Run` | src/canterlot/hoodie/transactions.py:79-97 | the decorated call as the code runs it, with fallbacks only for the outermost, is the interpreter |
| `Transactions.Runtime.RunAttempts` | src/canterlot/hoodie/transactions.py:117 | attempts go on until one is not retried |
| `Transactions.Runtime.RunOutermost` | src/canterlot/hoodie/sync.py:276-297 | the outermost call resets the batch variable and waits on what the last attempt left |
| `Transactions.Runtime.RunInTransaction` | src/canterlot/hoodie/transactions.py:100-117 | a nested call only runs its body in the open transaction |
| `Transactions.StaysInside` | src/canterlot/hoodie/transactions.py:102-104 | whatever a body does inside a transaction, nothing outside it changes |
| `Transactions.InsideDecoratorsErase` | src/canterlot/hoodie/transactions.py:82-90 | inside a transaction, decorators and their fallbacks change nothing |
| `Transactions.NestedDecoratorsErase` | src/canterlot/hoodie/transactions.py:52-56 | for every program, state and script, deleting all inner decorators changes no reply, no document, no wait and no variable |
| `Transactions.AmbientRestored` | src/canterlot/hoodie/transactions.py:106-117 | every exit of every program leaves the session and batch variables as they were |
| `Transactions.BatchMirrorsWrites` | src/canterlot/hoodie/sync.py:226-239 | whatever a body raises and catches, its batch holds exactly the entries of the writes its transaction holds, in order |
| `Transactions.GivenUpForGood` | src/canterlot/hoodie/transactions.py:110-115 | once a write has failed, for whatever reason, a body that catches the error writes nothing more, whatever it goes on to do |
| `Transactions.AttemptsDecide` | src/canterlot/hoodie/transactions.py:106-117 | the first attempt that is not retried decides alone what is left |
| `Transactions.AllOrNothing` | src/canterlot/hoodie/transactions.py:79-117 | the outermost call leaves all writes of one attempt, none of which had failed, and waits on exactly their entries, or leaves nothing and waits on nothing; its reply is determined |
| `Transactions.ConflictGetsTheFallback` | src/canterlot/hoodie/transactions.py:83-90 | when the deciding attempt ends in a conflict the outermost call replies the declared fallback, or without one that very conflict, and no document has changed |
| `Transactions.UndisturbedIsPlain` | src/canterlot/hoodie/transactions.py:38-56 | a transaction nobody disturbs writes, replies and waits as its body does without any decorator, only that it waits once, at the end |
| `RoundCompletion.RoundStore.RecordCompletion` | src/canterlot/repositories/beanie/round_completion.py:29-81 | run alone, the call records the finisher once, and concludes exactly when no member is missing |
| `RoundCompletion.CommitIsSerial` | src/canterlot/repositories/beanie/round_completion.py:58-79 | the lock before the count makes every commit the one its call would make alone at that moment |
| `RoundCompletion.NextKeeps` | src/canterlot/repositories/beanie/round_completion.py:29-81 | every step of any open transaction keeps the invariant, conflicts and retries included |
| `RoundCompletion.Serializable` | src/canterlot/repositories/beanie/round_completion.py:29-81 | every interleaving leaves the documents and the replies of its committed calls run one at a time |
| `RoundCompletion.CommittedCallsAreListed` | src/canterlot/repositories/beanie/round_completion.py:29-81 | the serial order holds exactly calls that were made, and every committed one |
| `RoundCompletion.ConcludedExactlyWhen` | src/canterlot/repositories/beanie/round_completion.py:69-81 | whatever members the calls carry, the round is concluded exactly when some call completed its own set, and exactly one is told |
| `RoundCompletion.FinishedAreCallers` | src/canterlot/repositories/beanie/round_completion.py:39-56 | the finishers are exactly those with a committed call |
| `RoundCompletion.RepliesTell` | src/canterlot/repositories/beanie/round_completion.py:53-81 | a call is told it is new exactly if it is its user's first, and that it concluded the round exactly if it is the first to complete its member set |
| `RoundCompletion.ConcludedIffAllFinished` | src/canterlot/repositories/beanie/round_completion.py:69-79 | with one member set, from any start, the round is concluded exactly when all of it has finished and somebody finished since the start |
| `RoundCompletion.ConclusionIsExact` | src/canterlot/repositories/beanie/round_completion.py:29-81 | the same in every interleaving, and exactly one call reports it |
| `RoundCompletion.NoMissedConclusion` | src/canterlot/repositories/beanie/round_completion.py:29-81 | in every interleaving, once all members have a committed call, the round is concluded if and only if they had not all finished at the start; if they had, they never close it |
| `RoundProgress.UnhinderedCommits` | src/canterlot/repositories/beanie/round_completion.py:29-81 | in every state in which no other open transaction holds the round or the caller's completion, the steps of a call commit it with the documents and reply of the call run alone |
| `RoundProgress.EveryRunCanConclude` | src/canterlot/repositories/beanie/round_completion.py:58-81 | every interleaving can be continued so that all members have committed, and then the round is concluded exactly if they had not all finished at the start |
| `RoundMembership.PlayIsRun` | src/canterlot/services/round.py:290-302 | a game of joins, leaves and completions is a run of the protocol in which each call carries the members of its moment |
| `RoundMembership.OpenExactlyWhenAllWereTooEarly` | src/canterlot/services/round.py:294-302 | whoever joins, leaves and finishes, the round is open exactly when every first completion so far was made while a member read for it was missing |
| `RoundMembership.DepartureLeavesRoundOpen` | src/canterlot/services/round.py:294-302 | a run with a leave in between after which all who remain have finished, and which stays open through every later run until somebody else finishes |
| `Paths.SplitJoin` | src/canterlot/hoodie/indexes.py:35 | splitting a path built from names gives the names back |
| `Fields.UnwrapOptional` | src/canterlot/hoodie/fields.py:306-326 | the unwrapping loop computes the recursive reading of an annotation |
| `Fields.UnwrappedIsPeeled` | src/canterlot/hoodie/fields.py:306-326 | unwrapping takes wrappers and optionals off, and fails exactly on every other union |
| `Fields.ResolvedIsOfKind` | src/canterlot/hoodie/fields.py:90-143 | a type is searchable exactly if it is a string, or a container, variadic tuple or non-empty fixed tuple of strings |
| `Fields.BuiltIsDeclared` | src/canterlot/hoodie/fields.py:212-232 | what is built from a declaration is its name, configuration and kind under the declared path, or without one under the joined names |
| `Fields.EnqueueNestedModel` | src/canterlot/hoodie/fields.py:235-246 | a nested model is queued exactly when it is not on the way to itself |
| `Fields.VisitModel` | src/canterlot/hoodie/fields.py:257-266 | one model's fields move its share of the work to the result and the queue; it fails exactly if something at or below it raises |
| `Fields.GetSearchableFields` | src/canterlot/hoodie/fields.py:249-268 | on any finite, possibly cyclic graph the walk ends, fails exactly when a field on a repeat-free chain raises, and else returns exactly `_id` and what the declarations on those chains say, path overrides included |
| `Fields.DiscoveryIsExact` | src/canterlot/hoodie/fields.py:249-268 | what the recursion finds is exactly what is declared on repeat-free chains from the root |
| `Fields.NamesDecideModels` | src/canterlot/hoodie/fields.py:259-266 | chains from one root with the same names pass the same models |
| `Fields.ComparablePathsAreEqual` | src/canterlot/hoodie/fields.py:259-266 | without overrides, two discovered fields with equal or nested paths are the same field |
| `Fields.DiscoveredPathsPrefixFree` | src/canterlot/hoodie/fields.py:249-268 | without overrides, the discovered paths and `_id` are distinct and none is a prefix of another |
| `Indexes.InsertAddsLeaf` | src/canterlot/hoodie/indexes.py:45-56 | inserting a path that fits never fails, adds exactly that leaf and leaves all others alone |
| `Indexes.LeavesDetermineTable` | src/canterlot/hoodie/indexes.py:32-56 | a nested mapping is determined by its flattening |
| `Indexes.BuildTable` | src/canterlot/hoodie/indexes.py:32-42 | the loop over the set builds and flattens back to exactly the fields if and only if they are compatible |
| `Indexes.BuildRoundTrips` | src/canterlot/hoodie/indexes.py:32-56 | in any order, building then flattening gives the fields back if and only if no path lies on another's way with another mapping |
| `Indexes.BuildIgnoresOrder` | src/canterlot/hoodie/indexes.py:32-42 | compatible fields give the same mapping in every order |
| `Indexes.DiscoveredFieldsCompatible` | src/canterlot/hoodie/fields.py:249-268 | what discovery finds without overrides always builds and round-trips |
| `Indexes.InsertEffect` | src/canterlot/hoodie/indexes.py:45-56 | any insertion fails exactly below an existing leaf, and otherwise replaces what lay at or below its path and nothing else |
| `Indexes.BuildOutcome` | src/canterlot/hoodie/indexes.py:32-56 | for every order, the build fails exactly if a field comes after one whose path lies above its own, and otherwise leaves exactly the fields that no later one overwrites or cuts off |
| `Indexes.OrderDecides` | src/canterlot/hoodie/indexes.py:34-35 | for any two fields, one above the other, one order raises and the other silently loses the lower field |
| `Indexes.OverridesCanCollide` | src/canterlot/hoodie/fields.py:160-162 | path overrides of any two names make such a declaration, and both outcomes with it |
| `Drift.StripIsIdempotent` | src/canterlot/hoodie/indexes.py:170-181 | stripping twice is stripping once |
| `Drift.StripUndoesEcho` | src/canterlot/hoodie/indexes.py:165-181 | whatever the server injects into objects with a type, stripping takes out again |
| `Drift.StripDefinition` | src/canterlot/hoodie/indexes.py:170-181 | stripping a compiled definition is pruning its table of the fields it mistakes for injected keys |
| `Drift.DefinitionInjective` | src/canterlot/hoodie/indexes.py:37-42 | different mappings compile to different definitions |
| `Drift.DriftComparesPruned` | src/canterlot/hoodie/indexes.py:184-189 | for every echo, drift is reported exactly when the pruned mappings differ |
| `Drift.TidyIsUnpruned` | src/canterlot/hoodie/indexes.py:178-180 | pruning changes nothing exactly when no field named like an injected key stands beside one named `type` |
| `Drift.DriftIsExactIffTidy` | src/canterlot/hoodie/indexes.py:165-189 | the test is right about every echo of a mapping, against every tidy one, if and only if the mapping is tidy |
| `Drift.TidyExactlyByPaths` | src/canterlot/hoodie/indexes.py:167-181 | a built mapping is tidy exactly when no prefix of the field paths goes on both with `type` and with an injected key |
| `Drift.DriftSeesFields` | src/canterlot/hoodie/indexes.py:124-140 | end to end from two sets of fields with such paths: drift is reported exactly when some path is mapped differently |
| `Drift.DefinitionIndexesFields` | src/canterlot/hoodie/indexes.py:32-56 | the compiled definition says of every field, under the parts of its path, the type, analyzer and facets it was declared with |
| `Club.FindOwner` | src/canterlot/repositories/beanie/club_membership.py:241-248 | finds an owner exactly when there is one |
| `Club.Repository.ChangeMemberRole` | src/canterlot/repositories/beanie/club_membership.py:124-136 | changes the role exactly of an admin or plain member |
| `Club.Repository.TransferOwnership` | src/canterlot/repositories/beanie/club_membership.py:138-173 | promote, demote and record together, or every document as it was |
| `Club.Repository.ReclaimOwnership` | src/canterlot/repositories/beanie/club_membership.py:175-207 | promote, demote and clear together, or every document as it was |
| `ClubReplies.AdmitReplies` | src/canterlot/services/club.py:106-146 | every reply of an admission by an if and only if: a direct invitation goes before the ban, the ban before the policy |
| `ClubReplies.ReviewReplies` | src/canterlot/services/club.py:194-228 | likewise for the review of a request |
| `ClubReplies.RemoveReplies` | src/canterlot/services/club.py:289-320 | who removes whom: owners admins and members, admins members, nobody a shielded former owner |
| `ClubReplies.ChangeRoleReplies` | src/canterlot/services/club.py:366-481 | every reply of a role change; the guarded write never misses |
| `ClubReplies.LeaveReplies` | src/canterlot/services/club.py:483-511 | every member but the owner and a shielded former owner may leave |
| `ClubReplies.DissolveReplies` | src/canterlot/services/club.py:513-535 | the owner may dissolve the club, unless a former owner is shielded |
| `ClubReplies.TransferReplies` | src/canterlot/services/club.py:537-607 | every reply of a transfer, and the whole state it leaves |
| `ClubReplies.ReclaimReplies` | src/canterlot/services/club.py:609-642 | every reply of a reclaim, and the whole state it leaves |
| `ClubReplies.SetPolicyReplies` | src/canterlot/services/club.py:322-364 | owner and admin set the policy of a club that exists |
| `ClubService.Service.AdmitUser` | src/canterlot/services/club.py:106-146 | only a user without a role is let in, as a plain member, invited or by the policy and not banned; a request waits only where there was no record; nobody else is touched and the owner stays |
| `ClubService.Service.ReviewPendingRequest` | src/canterlot/services/club.py:194-228 | exactly a pending request is settled, to membership or to nothing, by owner or admin |
| `ClubService.Service.RemoveMember` | src/canterlot/services/club.py:289-320 | exactly an active member below the remover is banned, never the owner or the protected former owner |
| `ClubService.Service.EnsureRoleChangeIsAllowed` | src/canterlot/services/club.py:412-461 | the guards in their order: a refusal, no change, or a change that the repository will make |
| `ClubService.Service.ChangeMemberRole` | src/canterlot/services/club.py:366-410 | only the owner moves a member between admin and member, and the write never conflicts |
| `ClubService.Service.LeaveClub` | src/canterlot/services/club.py:483-511 | a member who leaves is gone, and was neither owner nor protected |
| `ClubService.Service.DissolveClub` | src/canterlot/services/club.py:513-535 | only the sole owner ends the club, and never while a former owner could still take it back |
| `ClubService.Service.TransferOwnership` | src/canterlot/services/club.py:537-607 | past its guards a transfer never conflicts, and exactly the two change roles |
| `ClubService.Service.ReclaimOwnership` | src/canterlot/services/club.py:609-642 | with the window inside the cooldown, the clock alone decides the former owner's reclaim |
| `ClubService.Service.UpdatePolicy` | src/canterlot/services/club.py:322-364 | the policy changes at the hand of owner or admin, and no standing with it |
| `ClubRuns.ServeKeeps` | src/canterlot/services/club.py:106-642 | every service call keeps the ownership invariant |
| `ClubRuns.OwnershipInvariant` | src/canterlot/services/club.py:289-642 | in every reachable live club there is exactly one owner, the transfer fields go together, and the protected former owner is an admin other than the owner |
| `ClubRuns.GuaranteedReclaim` | src/canterlot/services/club.py:609-642 | in every reachable club, with the window inside the cooldown, the former owner's reclaim is decided by the clock alone and inside the window gives the club back |
| `ClubRuns.ReclaimGuaranteedIffWindowInsideCooldown` | src/canterlot/services/club.py:80-81 | that guarantee holds if and only if the window is shorter than the cooldown |
| `ClubRuns.PromiseIsKept` | src/canterlot/services/club.py:537-642 | after a transfer, through any run in which ownership is not passed on, a reclaim succeeds up to exactly the time the transfer named and is expired after it |
| `ClubRuns.GivingBackUndoesThePromise` | src/canterlot/services/club.py:598-599 | wherever a transfer succeeds, the heir can give the club back, reclaim it at once, and leave the first owner nothing to reclaim |
| `ClubRuns.TransferAndReclaim` | src/canterlot/repositories/beanie/club_membership.py:138-207 | a transfer taken back restores every role but the heir's, who stays an admin |
| `ClubRuns.TransferNeverConflicts` | src/canterlot/services/club.py:561-571 | in a state that keeps the invariant a transfer past its guards succeeds |
| `ClubRuns.ConflictsNeedConcurrency` | src/canterlot/services/club.py:400-405 | calls made one after the other never meet the conflicts the writes guard against |
| `ClubRuns.OwnershipStaysWithinPair` | src/canterlot/services/club.py:598-607 | after a transfer, along any run without a successful reclaim whose transfers each come inside the last one's cooldown, owner and former owner are the same two people |
| `ClubRuns.RankIsRespected` | src/canterlot/services/club.py:444-458 | nobody's role changes at another's hand unless that one outranks both what it was and what it becomes, transfer, reclaim and dissolution apart |
| `ClubRuns.OnlyOwnersChangeRoles` | src/canterlot/services/club.py:444-458 | the rank rules leave only owners able to change a role, and a promotion is exactly member to admin |
| `ClubRuns.BanHolds` | src/canterlot/services/club.py:124-143 | through every run a ban lasts unless a direct invitation lifts it |
| `ClubRaces.ServeIsGuardsThenWrite` | src/canterlot/services/club.py:106-642 | a call run alone is its guards and then one write, and outside the two ownership transactions no write names an owner |
| `ClubRaces.NeverTwoOwners` | src/canterlot/repositories/beanie/club_membership.py:77-207 | for every interleaving of the single writes of any number of calls a club never has two owners |
| `ClubRaces.OwnerIsLostExactlyBy` | src/canterlot/repositories/beanie/club_membership.py:77-122 | the owner is lost exactly to an unguarded upsert, deletion or ban of the owner, or the club's end |
| `ClubRaces.OwnerlessExactlyWhenHit` | src/canterlot/repositories/beanie/club_membership.py:77-207 | for every interleaving of writes, a club ends without an owner if and only if some write hit its owner of that moment |
| `ClubRaces.OwnerlessForGood` | src/canterlot/repositories/beanie/club_membership.py:77-207 | and no sequence of writes gives it one again |
| `ClubRaces.RaceOrphansClub` | src/canterlot/repositories/beanie/club_membership.py:112-122 | wherever a transfer and a removal or departure of the heir would both succeed alone, checking first and writing last leaves no owner |
| `ClubRaces.RaceExists` | src/canterlot/services/club.py:302-319 | a club of two in which that happens |
| `ClubRaces.LateAdmissionOrphansClub` | src/canterlot/services/club.py:115-139 | two overlapping admissions of a user to whom the club passes in between leave no owner |
| `ClubRaces.EveryCallSpares` | src/canterlot/services/club.py:106-511 | the guard that reads the target of a call's write never lets the owner of that moment be demoted |
| `ClubRaces.TurnsKeepTheOwner` | src/canterlot/services/club.py:106-642 | for every interleaving, if no admission, review, removal or departure of a user overlaps a transfer to that user or that user's reclaim, the club has exactly one owner for as long as it exists |
| `Sorting.SortedInOrder` | src/canterlot/utils/weighting.py:98 | the sort puts the elements in order |
| `Sorting.SortedIsStable` | src/canterlot/utils/weighting.py:98 | and keeps the order of those that tie |
| `Weighting.AgeWeight` | src/canterlot/utils/weighting.py:21-23 | whole days, rounded down, at least one |
| `Weighting.GroupBySuggester` | src/canterlot/utils/weighting.py:27-29 | every entry stands in its suggester's list, in order, each suggester once |
| `Weighting.WeighGroup` | src/canterlot/utils/weighting.py:38-39 | the inner loop weighs this suggester's books and no others |
| `Weighting.WeighSuggester` | src/canterlot/utils/weighting.py:34-39 | after a suggester's turn all suggesters so far have their fair shares |
| `Weighting.BaseWeights` | src/canterlot/utils/weighting.py:26-41 | every book has its age's part of its suggester's equal share |
| `Weighting.SuggestersShareEqually` | src/canterlot/utils/weighting.py:31-39 | each of k suggesters totals exactly 1/k however many books they suggested |
| `Weighting.SharesFollowAge` | src/canterlot/utils/weighting.py:34-39 | of one suggester's books each counts by its age |
| `Weighting.BaseTotalsOne` | src/canterlot/utils/weighting.py:26-41 | the base weights total one |
| `Weighting.BaseIsPositive` | src/canterlot/utils/weighting.py:26-41 | every base weight is positive and at most one |
| `Weighting.LanguageBoost` | src/canterlot/utils/weighting.py:44-49 | doubled exactly when a preferred language is among the book's |
| `Weighting.FamiliarityMultiplier` | src/canterlot/utils/weighting.py:52-57 | between a fifth and one, whatever the counts |
| `Weighting.FamiliarityIsLinear` | src/canterlot/utils/weighting.py:52-57 | each further reader costs the same, and the floor only marks the end of the line |
| `Weighting.RatingBoost` | src/canterlot/utils/weighting.py:60-67 | between 0.6 and 1.5 for ratings in scale |
| `Weighting.RatingIsLinear` | src/canterlot/utils/weighting.py:60-67 | three ratings or more count on a straight line from 0.6 to 1.5 |
| `Weighting.BoostFormula` | src/canterlot/utils/weighting.py:80-88 | the three multipliers in the numbers known of a book |
| `Weighting.BoostBounds` | src/canterlot/utils/weighting.py:83-88 | the three multipliers together stay between 0.12 and 3 |
| `Weighting.BoostBoundsAreReached` | src/canterlot/utils/weighting.py:83-88 | and reach both |
| `Weighting.Multiply` | src/canterlot/utils/weighting.py:83-88 | three multiplications in place are one by the product, for this book alone |
| `Weighting.ComputeCandidateWeights` | src/canterlot/utils/weighting.py:70-90 | final weights are fair base weights times the boosts, positive, and within 0.12 to 3 times their base |
| `Weighting.PoolIsTheTop` | src/canterlot/utils/weighting.py:93-99 | no entry left out outweighs one kept, nor at equal weight is older |
| `Weighting.PoolIsDistinct` | src/canterlot/utils/weighting.py:93-99 | the pool's books are distinct books of the entries, all of them when they fit |
| `Weighting.DrawOrderPermutes` | src/canterlot/utils/weighting.py:34-39 | the draw goes through the entries suggester by suggester, each once |
| `Weighting.PickedExactlyOnItsStretch` | src/canterlot/utils/weighting.py:102-104 | for any value below the total, a candidate is picked exactly on its own stretch of the accumulated weights |
| `Weighting.DrawnInProportion` | src/canterlot/utils/weighting.py:102-104 | a candidate is drawn exactly when the random number, spread over the total, falls on a stretch as long as its weight |
| `Weighting.DrawableIffWeighty` | src/canterlot/utils/weighting.py:102-104 | it can be drawn at all exactly when its weight is positive |
| `Weighting.CandidatesCanBeDrawn` | src/canterlot/services/round.py:139-140 | with computed weights a draw never fails and every candidate can be drawn |
| `Rounds.FindActive` | src/canterlot/repositories/beanie/round.py:14-18 | the first active round, exactly when there is one |
| `Rounds.Repository.FindActiveByClubId` | src/canterlot/repositories/beanie/round.py:14-18 | the query over the stored rounds |
| `Rounds.Repository.FinalizeWithDraw` | src/canterlot/repositories/beanie/round.py:23-46 | of any callers that read SETUP exactly the first to write decides the round; pool, finishers and all other rounds are untouched |
| `Rounds.Repository.FinalizeWithVote` | src/canterlot/repositories/beanie/round.py:48-61 | likewise for opening the vote, which leaves the book open |
| `Rounds.Repository.RecordCompletion` | src/canterlot/services/round.py:295-302 | the completion transaction, run alone, on the stored round |
| `Rounds.Repository.AddEntry` | src/canterlot/repositories/beanie/catalog.py:149-154 | a book enters the catalog once |
| `Rounds.Repository.DeleteEntry` | src/canterlot/repositories/beanie/catalog.py:156-160 | the search and cut at one position leave exactly the other books' entries, in order |
| `RoundService.Service.StartRound` | src/canterlot/services/round.py:89-171 | one active round where there was none, on catalog books no majority has finished, and nothing else touched |
| `RoundService.Service.FinalizeRound` | src/canterlot/services/round.py:173-243 | exactly the round being set up moves, to a book of its pool or to the vote |
| `RoundService.Service.MarkFinished` | src/canterlot/services/round.py:280-307 | the caller is recorded for the decided round, which concludes exactly with a first completion and nobody missing |
| `RoundService.Service.SuggestBook` | src/canterlot/services/catalog.py:75-118 | one entry under its suggester for a book that had none; rounds untouched |
| `RoundService.Service.RemoveBook` | src/canterlot/services/catalog.py:120-158 | exactly the book's entry goes, at the hand of owner, admin or its suggester, who are refused only if there is none or an active round needs it |
| `RoundRuns.NewRoundOk` | src/canterlot/services/round.py:120-171 | a started round has two to five distinct pool books or a decided one, all eligible and in the catalog |
| `RoundRuns.StartOutcomes` | src/canterlot/services/round.py:120-171 | one eligible book is decided whatever the mode, random mode decides on an eligible one, curated mode keeps the five that no other outweighs, or all |
| `RoundRuns.ServeKeeps` | src/canterlot/services/round.py:103-307 | every service call keeps rounds and catalog in agreement |
| `RoundRuns.RoundsAndCatalogAgree` | src/canterlot/services/round.py:103-243 | in every run at most one round is active, rounds are as their status says, and the catalog holds every book the active round depends on |
| `RoundRuns.SuggestionCanBeTakenBack` | src/canterlot/services/catalog.py:120-158 | in a state that keeps the invariant, a suggestion can at once be removed by its suggester, and the state is then exactly as before |
| `RoundRuns.DrawSeesWholePool` | src/canterlot/services/round.py:208-231 | in every run a draw sees one entry for each pool book, at least two, never fails with the weights computed for them, and decides on one of them |
| `RoundRuns.EveryPoolBookCanBeDrawn` | src/canterlot/services/round.py:211-215 | and with the weights computed for them every pool book can be the one |
| `RoundRuns.RoundsOnlyAdvance` | src/canterlot/repositories/beanie/round.py:20-61 | no run takes a round back: pools are fixed, decisions final, finishers kept, conclusions closed |
| `RoundRuns.VotingNeverEnds` | src/canterlot/services/round.py:233-243 | after any run a round put to the vote is unchanged and every start is refused |
| `RoundRuns.NoRepeatForTheMajority` | src/canterlot/repositories/beanie/round_completion.py:83-109 | no round starts on a book of a past round most of whose finishers are members |
| `RoundRuns.ConcludesWithTheLastReader` | src/canterlot/services/round.py:294-307 | a completion concludes the round exactly when it is the caller's first and nobody is missing |
| `RoundReplies.EligibleExactly` | src/canterlot/repositories/beanie/round_completion.py:83-109 | eligible are exactly the entries whose book no round has had more of whose finishers are members than not |
| `RoundReplies.StartReplies` | src/canterlot/services/round.py:89-171 | every reply of a start by an if and only if over rounds, catalog and membership |
| `RoundReplies.FinalizeReplies` | src/canterlot/services/round.py:173-243 | a finalisation needs owner or admin and a round in its setup, and does exactly what it was asked for |
| `RoundReplies.FinishReplies` | src/canterlot/services/round.py:280-307 | every reply of a completion, and the whole state it leaves |
| `RoundReplies.SuggestReplies` | src/canterlot/services/catalog.py:75-118 | every reply of a suggestion |
| `RoundReplies.RemoveBookReplies` | src/canterlot/services/catalog.py:120-158 | a removal is granted exactly to owner, admin and the entry's suggester, for a book that no current round needs |
| `RoundRaces.ServeIsReadsThenWrite` | src/canterlot/services/round.py:89-307 | a call nothing comes between, read by read and then its write, leaves the state and gives the reply of the whole call |
| `RoundRaces.RacesNeverTakeBack` | src/canterlot/repositories/beanie/round.py:23-61 | in every interleaving of reads and writes pools are fixed, decisions final, stages only go forward and rounds are as their status says: of several finalisations the first wins |
| `RoundRaces.OneActiveIffEverySaveLandsFree` | src/canterlot/services/round.py:106-171 | for every interleaving, at most one round is active at every moment if and only if every new round is saved when none is |
| `RoundRaces.StartFindsItsPool` | src/canterlot/services/round.py:115-155 | when a start reads the entries the catalog has its whole pool |
| `RoundRaces.DrawableIffNothingTaken` | src/canterlot/services/catalog.py:144-151 | for every interleaving, a round stays drawable in full while it is set up if and only if no removal of a pool book lands meanwhile |
| `RoundRaces.DrawableIsDrawn` | src/canterlot/services/round.py:211-215 | a round drawable in full is drawn, and a draw fails exactly when no pool book is left |
| `RoundTurns.StartsInTurnKeepOneActive` | src/canterlot/services/round.py:106-171 | for every interleaving, if no start looks for an active round while another is between its look and its save, at most one round is ever active |
| `RoundTurns.RemovalsApartKeepTheBooks` | src/canterlot/services/catalog.py:144-151 | if besides no removal is about to delete while a start is about to save, the catalog has every book an active round depends on at every moment |
| `RoundTurns.ArrangedClubsDrawInFull` | src/canterlot/services/round.py:208-215 | so from a new club the active round can be drawn in full at every moment |
| `RoundRaceRuns.BothSave` | src/canterlot/services/round.py:106-171 | wherever two starts would each be granted, both save if both read first |
| `RoundRaceRuns.RacingStartsLeaveTwoRounds` | src/canterlot/services/round.py:106-171 | an executed run from an empty club in which this happens and two rounds end up active |
| `RoundRaceRuns.RacingRemovalsEmptyTheDraw` | src/canterlot/services/catalog.py:144-151 | an executed run from an empty club in which removals look before a start saves and no draw can decide the round |
| `RateLimit.Store.Evaluate` | src/canterlot/repositories/redis/repository.py:58-68 | the counter moves on under its first deadline, and the answer depends on the count and on what the server says later |
| `RateLimit.WaitExactlyOverLimit` | src/canterlot/repositories/redis/repository.py:64-68 | a wait is returned, and then a positive one, exactly when the request is over the limit, whatever the later answer |
| `RateLimit.WaitIsTheRestOfTheWindow` | src/canterlot/repositories/redis/repository.py:65-66 | asked at once, the wait is the rest of the window to within half a second |
| `RateLimit.WindowAdmitsLimit` | src/canterlot/repositories/redis/repository.py:60-68 | on every trace a window lets through exactly its first `limit` requests |
| `RateLimit.WithinAllowance` | src/canterlot/repositories/redis/repository.py:60-68 | what an interval can have let through, by where the current window opened |
| `RateLimit.RateBound` | src/canterlot/repositories/redis/repository.py:58-68 | on every trace an interval of a window's length lets through less than twice the limit |
| `RateLimit.RateBoundIsReached` | src/canterlot/repositories/redis/repository.py:58-68 | and a burst around the change of windows reaches that bound |
| `Paging.ChunkReachesPageEnd` | src/canterlot/services/book.py:91 | the chunk is the only one that the page reaches into last |
| `Paging.InPlaceIffInsideChunk` | src/canterlot/services/book.py:60-63 | a page is cut out at its place exactly when it does not reach over its chunk's end |
| `Paging.CrossingPage` | src/canterlot/services/book.py:91-92 | for any other page size, a page that is not |
| `Paging.AllInPlaceIffDivides` | src/canterlot/services/book.py:53-92 | all pages are in place if and only if the page size divides 40 |
| `Paging.PagesInChunk` | src/canterlot/services/book.py:91-92 | then chunk c serves exactly the pages from (c-1)m+1 to cm |
| `Paging.PagesTile` | src/canterlot/services/book.py:60-63 | and its first n pages are its first n times `limit` books, in order |
| `Paging.PagesShowWholeChunk` | src/canterlot/services/book.py:53-70 | its pages show each of its books once exactly when it has at most 40 |
| `Paging.BookService.AggregateProviderResults` | src/canterlot/services/book.py:178-228 | all well-formed records of all providers that answered, under their provider, and the sum of the totals |
| `Paging.CollectedExactly` | src/canterlot/services/book.py:178-228 | collected are exactly the well-formed records of the providers that answered, each under its provider |
| `Paging.SearchReplies` | src/canterlot/services/book.py:72-127 | every reply of a search, and the cache it leaves: only a miss that found something is saved, for five minutes |
| `Paging.ReplyShowsThePage` | src/canterlot/services/book.py:53-70 | a reply shows the books of the requested page, from its place in the chunk on |
| `Paging.KeysTellChunksApart` | src/canterlot/services/book.py:91-93 | two searches share a key exactly if they ask for the same and their pages end in the same chunk |
| `Paging.HitEqualsMiss` | src/canterlot/services/book.py:147-176 | for five minutes, through any other searches, every page of a cached chunk is cut from the list the miss ranked, and the miss's own page comes again |
| `Paging.HitIsTheLastSave` | src/canterlot/services/book.py:98-127 | however searches overlap, a key gives exactly the list ranked by the last search to save under it, for five minutes from that save |
| `Paging.PagesAgreeUntilNextSave` | src/canterlot/services/book.py:98-127 | so pages of a chunk are cut from one list until the next save under its key |
| `Paging.AloneIsDoSearch` | src/canterlot/services/book.py:72-127 | a search nothing comes between, its look and its save apart, leaves the cache and gives the reply of the whole search |
| `Paging.OverlappingMissesOverwrite` | src/canterlot/services/book.py:98-127 | and two misses on one key overwrite each other: each answers from its own list, later pages come from the list saved last |
| `Paging.RankedIsSorted` | src/canterlot/services/book.py:230-253 | a miss ranks every record once, isbn matches first, then by score |

## Left out

- Entry identity: an entry object is registered once, so its position in the event log stands for the object that the code compares with `is`.
- `_wait_all`: gathering the futures and dropping repeated exceptions is not modelled beyond "the wait settles or fails".
- `deferred_search_sync` used directly, and the `bulk_writer` and `_deferring` skips of `@synced`: single-branch switches around the batch that is modelled.
- Sleeping times between polls and `PollCoalescer`: when a task wakes up is left to the run.
- Custom type resolvers: field types are resolved by the built-in string and container resolvers.
- Aliasing of nested dicts in `_insert_field_mapping`: the nested mapping is a value; each insertion returns the new one.
- `_compute_schema_hash` is only logged; `json.dumps` with sorted keys is taken to tell distinct values apart.
- The index itself: a document matches a set of phrases, and ranking and analysis are not modelled.
- Transactions: attempts, failing writes and commit results, lost answers included, come from a script; the driver's timing is left to it. A read fails only in a transaction the server has given up. In `RoundCompletion` a write conflict aborts and restarts, and an update that changes nothing is not a write.
- User names: `transfer_ownership` starts from the resolved user; an unknown name is refused before anything modelled here.
- Clubs: names, slugs and the other settings fields are not modelled, only the join policy that admission reads.
- Dissolving a club deletes its catalog but not its rounds; the runs of rounds and catalog are those of a live club.
- Round deadlines: the arithmetic of durations touches nothing else; ratings kept by `mark_finished` belong to another collection.
- Weights: what they are computed from is read between the entries and the write; in runs of rounds the weights come with the call.
- Random choice: `random()` is any number from 0 up to 1, and `choices` is modelled by its accumulated weights. Weights are real numbers, not floats.
- Catalog: finding, creating and supplementing book records, and page queries over the catalog.
- Redis: a key is gone from the moment its time to live is over; a window of no seconds or less is not modelled.
- Book search: similarity scores are given per book; the cache key is the pair of criteria and chunk, and stored JSON reads back as written unless corrupt.
- Routers, gateways, mails, tokens, the preference cache, verification codes, invites and statistics.
