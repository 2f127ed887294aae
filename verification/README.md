# CodeBattle: a Dafny model of rooms, judging and event approval

This project models the parts of RogueLearn.CodeBattle where several goroutines share state, and the pure text and
ranking computations around them, and proves properties of the model over all inputs, interleavings and runs.
`dafny verify dfyconfig.toml` checks everything.

## What is modelled

**Rooms** (`RoomHub`, `RoomConsumers`, `Ranking`, `JoinTimes`, `RoomAccounting`, `SubmissionAccounting`, `Freshness`,
`Membership`, `Progress`). A room hub is a step system: a ten-slot mailbox, any number of consumers inside the `process*` handlers
(one program counter each), the room_players and submissions tables, and `leaderboardMu`. Every query, lock
operation and channel operation is one step; any write may fail and then changes nothing. A recalculation is a
snapshot of the ranks followed by a separate store. A stored snapshot only touches row versions it was taken of, so a
row deleted and inserted again is skipped. The handlers are also methods of the class `RoomConsumer`, a sole consumer
with no arrivals inside a handler, which update tables and mailbox in place; each is proved to be a run of the step
system.

**Connections** (`Connections`, `RoomSystem`). Registering, joining, leaving and cleanup of event-stream connections,
and the room and its connections together.

**Judging** (`WorkerPool`, `ContainerManagers`, `Judging`, `RoomVerdicts`). The pool of workers and containers as a step
system, the container manager as a class with one mutable record per container, the judging loop with its two verdict
mappings, and what a room's verdicts and points are worth when they come from that loop. The room's step system by
itself lets a judge answer anything at any time; `RoomVerdicts` ties its verdicts to jobs, and
`Progress.StuckIffAllHalted` covers judges that never answer. Sure drainage (`Progress.SureToDrainIff`) assumes they
answer, which a pool with enough containers does (`WorkerPool.EveryJobAnsweredOnce`).

**Text** (`Text`, `Templates`, `CodeBuilding`, `ShellQuoting`). Go's replace functions, run-command templates, driver
assembly and single-quote escaping, the last against the POSIX.1-2017 Shell Command Language.

**Event requests** (`EventApproval`). The approval transaction and the decline as methods of a class, and handlers
that interleave between their check and their write.

History that the code does not keep (which credits were applied, which tickets were accepted) is carried in the
model's state only to state properties of runs.

## Where the code does not do what one would expect

- A room can stop for good: a consumer waits for a free slot in the mailbox it drains itself, and submissions alone
  can bring every consumer there with the mailbox full (`Progress.SubmissionsCanWedge`, `Progress.WedgedForever`).
  Without arrivals a room is sure to drain exactly when the mailbox is not full or some consumer has no result still to
  send (`Progress.SureToDrainIff`); at most ten messages queued or in hand are enough for that.
- A job is lost, and its caller, a room's consumer among them, waits for ever, if every scan misses. This is excluded
  exactly when there are at least as many containers outside the error state as workers. Start-up does not ensure that:
  it ignores the error from balancing and counts stopped containers towards the limit. With no more workers listed than
  the limit, a pool never loses a job exactly when balancing reached the limit and none of them was stopped
  (`ContainerManagers.StartupNeverLosesIff`); where balancing removes containers it may drop running ones and keep
  stopped ones (`ContainerManagers.StoppedMayStay`).
- A room accepts a submission that never ran: one the full job queue refused, or whose code could not be copied. The
  HTTP handler does not.
- A submission can be credited and never get a verdict: once in nobody's hands, a credited row is accepted exactly when
  its consumer did not fail to read the leaderboard entries or to mark the row after the credit
  (`SubmissionAccounting.CreditedGetsVerdictIff`); otherwise it is pending for good. A credit for a player without a row
  adds no points, and the submission is accepted all the same (`RoomVerdicts.RefusedIsAccepted`, which also shows a
  refused job accepted).
- A player who joins is inserted without a state (event_hub.go:506-510); if the enum column rejects the empty value,
  every such insert fails, the player never becomes a member, and all statements here that exclude failing row queries
  say nothing of the run.
- Every room there is has two consumers: rooms are created only with the hub, and each is started once on creation and
  once more after it (event_hub.go:84-91, 119-126). They can handle a player's joined and left messages in the wrong
  order and keep a member who left. With at least two consumers, every way of handling what is queued in an idle room
  leaves a player's membership right exactly when that player's queued messages are all of one kind
  (`Membership.OrderKeptIff`); over runs with arrivals it is right whenever no message of the player is taken while
  another consumer is about to do the opposite.
- The listener map holds exactly the live connections all along a run if and only if nobody connects while still in
  the map, and each connected player's last message is joined if and only if no left message is sent while another
  connection of that player is connected. Neither is enforced; players who come back only after their left message was
  sent keep both (`Connections.CleanReturnsKeepBoth`).
- Two administrators can approve one request twice; the first event is then orphaned, for good.
- The two-pass expansion of a run command differs from simultaneous expansion for directories that can complete a
  placeholder, the empty directory among them.
- The comment beside the listener channel in sse.go speaks of a buffer; the channel has none. The comment before
  `balanceWorker` promises exactly maxWorkers containers; this holds when Docker does not fail.

## Model

| member | source | states |
|---|---|---|
| Ranking.PlaceOrder | internal/store/query.sql.go:55-67 | a player's place is better than another's exactly with a higher score, or the same score and an earlier joined_at; places are equal exactly when both columns are |
| Ranking.PlaceInRange | internal/store/query.sql.go:55-67 | every place of a room with n players lies in 1..n |
| Ranking.SomeoneIsFirst | internal/store/query.sql.go:55-67 | a nonempty room has a player in place 1 |
| Ranking.PlacesArePermutation | internal/store/query.sql.go:55-67 | the places are exactly 1..n if and only if no two players tie |
| Ranking.ScanIsCount | internal/store/query.sql.go:55-67 | RANK by sorting and scanning equals one plus the number strictly ahead, on every ordering the database may pick |
| Ranking.RankIsGroupStart | internal/store/query.sql.go:59 | a rank is the position at which the group of equal score and joined_at starts, behind rows that are all ahead in those columns |
| Ranking.SortedOrderExists | internal/store/query.sql.go:59 | every room has such an ordering |
| Ranking.CurrentSnapshotRefreshes | internal/store/query.sql.go:63-66 | storing the ranks of the current rows makes every place right |
| Ranking.LateStoreFreshIff | internal/hub/event_hub.go:532-534 | what the mutex prevents: a snapshot stored after a newer one leaves the places right if and only if it agrees with the current rows |
| Ranking.EntriesCarryRanks | internal/store/query.sql.go:2020-2024 | entries read by score then place from rows with right places are in place order, start at 1 and carry the ranks of their positions |
| Ranking.ClientSortChangesNothing | room.html:414 | the browser's stable sort by place leaves such entries as they are |
| Ranking.StableSortSorts | room.html:414 | that sort orders any entries by place and leaves the entries of one place in their order |
| RoomHub.SoundPc | internal/hub/event_hub.go:531-545 | exactly the consumer inside a recalculation holds the mutex, after every step |
| RoomHub.OtherRoomsUntouched | internal/hub/event_hub.go:504-522 | no step of a hub changes another room's rows |
| RoomHub.SoundRun | internal/hub/event_hub.go:183-211 | over whole runs messages carry the hub's room, results carry the award, the mailbox holds at most ten, and other rooms' rows stay as they were |
| RoomHub.MissedIff | internal/hub/event_hub.go:531-545 | a run counts as having missed a recalculation exactly when the last one that ended failed, or none ended and it had missed one before |
| RoomHub.RowErrorsIff | internal/hub/event_hub.go:567-634 | a run counts as having row errors exactly when a lookup, insert or delete failed |
| JoinTimes.InsertWrites | internal/hub/event_hub.go:505-515 | an insert gives the player a row of its own with score 0, the time of the insert as joined_at and no place, and changes nobody else's row |
| JoinTimes.DeleteWrites | internal/hub/event_hub.go:517-522 | a delete removes that player's row alone |
| JoinTimes.StoreWrites | internal/store/query.sql.go:55-67 | storing places writes nothing but places, the snapshot's for the rows it was taken of |
| JoinTimes.CreditWrites | internal/store/query.sql.go:14-18 | a credit adds fifty points to the player's row, if there is one, and writes nothing else |
| JoinTimes.RowOrigin | sqlc/schema.sql:129 | over every run a row keeps its join time: it was there at the start with that time, or a step of the run inserted it at that time |
| JoinTimes.EarlierJoinerAhead | internal/store/query.sql.go:59 | of two members inserted during a run, with equal scores, the one inserted at the earlier time has the better place |
| RoomAccounting.ScoresAreCredits | internal/hub/event_hub.go:422-426 | a member inserted during the run has exactly fifty points per credit to that row; an older row has those on top of its first score |
| RoomAccounting.CreditsAreEarned | internal/hub/event_hub.go:422-426 | every credit on a member's row was earned by that member's own submission |
| RoomAccounting.ConservedStep | internal/store/query.sql.go:14-18 | every step keeps score equal to first score plus credits, with distinct row identities |
| RoomAccounting.MatchStep | internal/store/query.sql.go:14-18 | every step keeps each logged credit on a row of the player who earned it |
| SubmissionAccounting.EachSubmissionInOnePlace | internal/hub/event_hub.go:299-360 | each accepted submission is always in exactly one of queued, in hand, settled and failed, for any number of consumers |
| SubmissionAccounting.RowsHandledOnce | internal/hub/event_hub.go:393-480 | a submission row gets at most one result and one score update over a run, ends accepted only after that update and wrong only without it, and older rows keep their status |
| SubmissionAccounting.AcceptedIsRewardedOnce | internal/hub/event_hub.go:422-426 | exactly one step of the run credits an accepted row; it adds fifty points to the player's row if there is one then, and otherwise points are added to nobody |
| SubmissionAccounting.CreditedGetsVerdictIff | internal/hub/event_hub.go:422-477 | a credited row that no consumer is handling any more is accepted if and only if no step failed to read the entries or to mark the row after the credit, and pending otherwise |
| SubmissionAccounting.CreditWithoutVerdict | internal/hub/event_hub.go:455-477 | such a failing step decides it: the credit stands and the row is pending in every continuation |
| SubmissionAccounting.StoppedRoomDecidesAll | internal/hub/event_hub.go:183-211 | in a room that cannot wedge, once the consumers stop without arrivals every accepted submission is settled or failed, and not both |
| SubmissionAccounting.SettledIff | internal/hub/event_hub.go:406-477 | a submission counts as settled exactly when some step of the run stored its verdict |
| SubmissionAccounting.IssuedIsAccepted | internal/handlers/submission.go:239-247 | the accepted submissions of a run are those that find fewer than ten messages queued |
| SubmissionAccounting.SettledForGood | internal/store/query.sql.go:3134-3139 | a row that has left pending never changes status again |
| SubmissionAccounting.SettledHaveVerdicts | internal/hub/event_hub.go:406-415 | a submission counted as settled has a row that has left pending |
| SubmissionAccounting.RowStep | internal/hub/event_hub.go:393-480 | each step of any consumer keeps the account of one row: one handler, one result, one credit |
| Freshness.StaleIsOwed | internal/hub/event_hub.go:531-545 | whenever places differ from the ranks of the current rows, some consumer still owes a recalculation or the last one failed |
| Freshness.IdleHubIsFresh | internal/hub/event_hub.go:567-591 | when all consumers are idle and the last recalculation succeeded, every place is right |
| Freshness.TrackedStep | internal/hub/event_hub.go:531-545 | every step keeps a waiting consumer behind any snapshot that has become old |
| Freshness.EntriesReadAreRanks | internal/hub/event_hub.go:441-463 | for any number of consumers, entries read after a successful recalculation while nobody owes another are in place order from 1 and unchanged by the browser's sort |
| Freshness.SoleReaderSeesRanks | internal/hub/event_hub.go:441-463 | a sole consumer always reads such entries after a successful recalculation |
| Progress.WedgedForever | internal/hub/event_hub.go:354-357 | once the mailbox is full and every consumer waits to send into it, no run changes anything |
| Progress.StuckIffAllHalted | internal/executor/worker_pool.go:127-128 | whichever jobs the judge never answers, some consumer can step if and only if one is not idle before an empty mailbox, sending into a full one, or waiting for such a job |
| Progress.StuckIffWedged | internal/hub/event_hub.go:183-211 | when the judge answers, some consumer can step if and only if there is work and the room is not wedged |
| Progress.SubmissionsCanWedge | internal/hub/event_hub.go:101 | for any number of consumers, submissions alone lead a new room into that state |
| Progress.OwnSendNeverWaits | internal/hub/event_hub.go:354-357 | with at most ten messages queued or in hand a consumer's own send finds a free slot |
| Progress.ConsumersStop | internal/hub/event_hub.go:183-211 | without arrivals a run of consumer steps is no longer than the work queued, and the load never grows |
| Progress.SureToDrainIff | internal/hub/event_hub.go:183-211 | without arrivals, consumers stop only when everything is handled, if and only if the mailbox is not full or some consumer has no result still to send |
| Progress.LightLoadDrains | internal/hub/event_hub.go:101 | at most ten messages queued or in hand are enough for that |
| Progress.CanDrainIff | internal/hub/event_hub.go:183-211 | some run of consumers alone drains the room if and only if it is not wedged already |
| Progress.CanDrain | internal/hub/event_hub.go:183-211 | such a run is no longer than the work bound |
| Membership.DrainedMembersFollowLastWord | internal/hub/event_hub.go:567-634 | for any number of consumers and no failing row query, a player is in a drained room exactly if the player's last message was joined, or if an initial member without messages, provided no message of the player is taken while another consumer is about to do the opposite |
| Membership.FollowsStep | internal/hub/event_hub.go:567-634 | every such step keeps the room heading for what the player's messages ask for |
| Membership.SoleNeverCrosses | internal/hub/event_hub.go:183-211 | with a sole consumer that proviso always holds |
| Membership.OrderKeptIff | internal/hub/event_hub.go:84-91 | in an idle room every error-free way of handling the queue leaves the player's membership right if and only if there is one consumer or all the player's queued messages are of one kind |
| Membership.TwoConsumersMayKeepAGhost | internal/hub/event_hub.go:84-91 | with two or more consumers a drained, error-free room may keep a member whose last message was left |
| Connections.EachStepOnce | internal/handlers/sse.go:66-80 | in every run a connection sends one joined and one left message, is removed once, and its channel is closed once |
| Connections.StepsInOrder | internal/handlers/sse.go:66-80 | a connection leaves and closes its channel only after its removal from the map, and is removed only after it joined |
| Connections.NoClosedListener | internal/handlers/sse.go:55-75 | in every run, even with repeated connections by one player, each listener is that player's and its channel is not closed |
| Connections.ListenersAreTheLiveOnes | internal/handlers/sse.go:63 | all along a run the map holds exactly the connections not yet removed, if and only if no connection overwrites an entry of its player |
| Connections.WordsFollowIffNoLateLeft | internal/handlers/sse.go:72-80 | all along a run every connected player's last message is joined, if and only if no left message is sent while another connection of its player is connected |
| Connections.CleanReturnsKeepBoth | internal/handlers/sse.go:66-75 | players who connect again only after their left message keep both, however often they return |
| Connections.ReconnectLosesListener | internal/handlers/sse.go:66-75 | otherwise a live connection may be missing from the map and have its player's last message be left |
| Connections.SpectatorMapsExact | internal/handlers/sse.go:128-153 | the event maps hold exactly the spectators between registration and cleanup, and only the seeded event keeps an empty map |
| RoomSystem.LobbyWaitsForSlots | internal/handlers/sse.go:72-80 | a connection waits for nothing but a free slot of the mailbox, and only to send; its message names its own player and the room |
| RoomSystem.MembershipRightIff | internal/handlers/sse.go:68-80 | for any number of consumers handling the player's messages in order and no failing row query, in a drained room with no left message pending the player is a member as connected, or as an initial member who never connected, if and only if a player still connected was not last heard of as leaving |
| RoomSystem.DrainedRoomHoldsTheConnected | internal/handlers/sse.go:68-80 | so such a player is a member exactly if connected, or an initial member who never connected, players who left and came back included, if no left message was sent while another connection of its player was connected |
| RoomConsumers.RoomConsumer.EnqueueSubmission | internal/handlers/submission.go:239-247 | a submission is appended if a slot is free and otherwise dropped with nothing changed |
| RoomConsumers.RoomConsumer.CreateRoomPlayer | internal/hub/event_hub.go:505-515 | fails exactly if the database does or the player has a row; otherwise the new row has score 0, the given time and no place |
| RoomConsumers.RoomConsumer.AddRoomPlayerScore | internal/store/query.sql.go:14-18 | fails exactly if the database does or the new score would not fit its column |
| RoomConsumers.RoomConsumer.CalculateLeaderboard | internal/hub/event_hub.go:531-545 | success leaves every place right, failure leaves the rows as they were, the mutex is released either way, and its statements are lock, snapshot, store |
| RoomConsumers.RoomConsumer.ProcessPlayerJoined | internal/hub/event_hub.go:567-617 | for every combination of database answers, the exact statements in order: look up, insert only if that finds no row, stop only if the insert fails, recalculate, read |
| RoomConsumers.RoomConsumer.ProcessPlayerLeft | internal/hub/event_hub.go:619-657 | the exact statements in order: delete, recalculate, read, whichever of them fail |
| RoomConsumers.RoomConsumer.ProcessSolutionSubmitted | internal/hub/event_hub.go:299-360 | the exact statements in order for every answer: create the pending row, judge, send; it blocks exactly with a result for a full mailbox, which leaves the room wedged |
| RoomConsumers.RoomConsumer.ProcessSolutionResult | internal/hub/event_hub.go:393-480 | the exact statements in order for every answer: mark a wrong result; credit a right one, recalculate, read, mark, stopping after a failing credit or read |
| RoomConsumers.RoomConsumer.ServeQueued | internal/hub/event_hub.go:183-211 | the receive loop of a sole consumer empties the mailbox, its own results included, and is a run of the step system |
| RoomConsumers.RoomConsumer.ServeFrom | internal/hub/event_hub.go:183-211 | serving what is queued leaves every place right unless the last recalculation failed, and the members decided by their last messages unless a row query failed |
| WorkerPool.MutualExclusion | internal/executor/worker_pool.go:168-187 | over every run a held container is busy, has one holder, and was never in the error state |
| WorkerPool.ExclusiveStep | internal/executor/container_manager.go:363-377 | every step keeps busy containers and holders in one-to-one correspondence and the error containers as they are |
| WorkerPool.ConcurrencyBound | internal/executor/worker_pool.go:87-90 | workers holding a container are as many as the busy containers, and no more than the usable containers or the workers |
| WorkerPool.FirstScanFinds | internal/executor/container_manager.go:291-309 | with a usable container per worker, every scan is a first scan and finds an idle container |
| WorkerPool.NoJobLostIffEnoughContainers | internal/executor/container_manager.go:308 | no run loses a job if and only if there are at least as many usable containers as workers |
| WorkerPool.LostAfterTenMisses | internal/executor/container_manager.go:291-309 | a job is lost only after exactly ten scans for it have missed, and none is scanned for while it is queued |
| WorkerPool.AdmissionRun | internal/executor/worker_pool.go:121-135 | over every run each submission is admitted or refused, the queue never outgrows its slots, and jobs leave it first in, first out |
| WorkerPool.InOrderStep | internal/executor/worker_pool.go:126-134 | a job is refused only when the queue is exactly full |
| WorkerPool.JobAccounted | internal/executor/worker_pool.go:121-135 | an admitted job is queued, in hand, answered once or lost, so its one-slot reply channel never blocks |
| WorkerPool.WorkersFinish | internal/executor/worker_pool.go:98-117 | without new jobs the workers stop after a bounded number of steps |
| WorkerPool.QuietIffNoWorkerStep | internal/executor/worker_pool.go:98-117 | workers can stop only when the queue is empty and all of them wait |
| WorkerPool.EveryJobAnsweredOnce | internal/executor/worker_pool.go:121-135 | with enough containers, a quiet pool has answered every admitted job exactly once |
| ContainerManagers.ContainerManager.GetAvailableContainer | internal/executor/container_manager.go:291-309 | hands out, now busy, a container idle at the first pass that meets one, in any iteration order and whatever others do between passes; the empty id only after ten passes that met none |
| ContainerManagers.ContainerManager.SetContainerState | internal/executor/container_manager.go:363-377 | sets the state of that id, changes no other, and reports an unknown id |
| ContainerManagers.ContainerManager.RemoveExcessContainer | internal/executor/container_manager.go:177-195 | removes that many, in any iteration order, keeping the states of the rest; the first failing removal ends it, with exactly those before it done |
| ContainerManagers.ContainerManager.BalanceWorker | internal/executor/container_manager.go:264-288 | fails exactly if one of the Docker calls it needs does; otherwise ends with exactly maxWorkers containers; growing keeps all old ones and adds new idle ones, shrinking keeps a subset, states unchanged |
| ContainerManagers.ContainerManager.InitializePool | internal/executor/container_manager.go:85-117 | files exactly the listed worker containers, idle if the last summary of the id is running and in error otherwise, and leaves what balancing makes of those; nothing is busy |
| ContainerManagers.FiledOnce | internal/executor/container_manager.go:94-105 | the listing determines what is filed |
| ContainerManagers.NoneStoppedIff | internal/executor/container_manager.go:95-98 | nothing is filed in error exactly when the last summary of every listed worker is running |
| ContainerManagers.BalancedPoolNeverLoses | internal/executor/worker_pool.go:87-90 | a balanced pool of containers without errors never loses a job |
| ContainerManagers.StartupNeverLosesIff | internal/executor/container_manager.go:92-117 | with at most maxWorkers workers listed, the containers in error are as many as the stopped ones, and no run loses a job if and only if balancing reached the limit and none was stopped |
| ContainerManagers.StoppedContainerTakesTheSlot | internal/executor/container_manager.go:95-98 | one stopped container at start-up fills a one-worker pool, which then loses a job |
| ContainerManagers.StoppedMayStay | internal/executor/container_manager.go:177-195 | any stopped container is among those of some outcome of balancing without failure, also where balancing removes others |
| ContainerManagers.StartupSureIff | internal/executor/container_manager.go:264-288 | balancing without failure is sure to leave a usable container for every worker, whatever it removes, if and only if no listed worker was stopped |
| Judging.TrimSpaceTrims | internal/executor/worker_pool.go:254-257 | trimming cuts exactly the white space at both ends |
| Judging.TrimmedOnce | internal/executor/worker_pool.go:254-257 | only one string is the text without the white space around it |
| Judging.SurroundingSpaceIgnored | internal/executor/worker_pool.go:254-258 | so white space around an output makes no difference |
| Judging.RunCases | internal/executor/worker_pool.go:234-290 | the loop answers for the first failing case, runs none after it, and reports the total time of all cases when none fails |
| Judging.CaseResultMeans | internal/executor/worker_pool.go:240-290 | success means that every run succeeds and prints the expected output, trimmed; otherwise the error tells what the first other case did |
| Judging.TotalAdds | internal/executor/worker_pool.go:239 | the total time is the sum over the cases |
| Judging.FirstFailingIs | internal/executor/worker_pool.go:234-279 | the first failing case is the one index with all earlier cases passing and itself not |
| Judging.ExecuteJob | internal/executor/worker_pool.go:160-308 | no answer exactly for admitted jobs that get no container; success if and only if the job was admitted, given a container, copied, compiled where needed, and every case passes |
| Judging.HttpAcceptsIffSolved | internal/handlers/submission.go:149-168 | the HTTP verdict is accepted exactly for jobs that ran and pass every case |
| Judging.HubAcceptsIffSolvedOrNotRun | internal/hub/event_hub.go:362-385 | the room's verdict is accepted exactly for jobs that pass, were refused, or could not be copied |
| Judging.VerdictsAgreeIffRun | internal/hub/event_hub.go:370-382 | the two verdicts on an answer agree exactly on jobs that were admitted, given a container and copied |
| Judging.VerdictsMean | internal/handlers/submission.go:155-167 | compilation error, runtime error and wrong answer each mean what happened first |
| Judging.NeverRanVerdicts | internal/handlers/submission.go:162-166 | jobs refused or not copied are runtime errors over HTTP, and accepted by the room |
| Judging.HiddenBlamedOnlyAfterPublic | internal/store/query.sql.go:2508-2512 | with public cases first, a hidden case fails the job only if every public case passes |
| RoomVerdicts.VerdictsAreEarned | internal/hub/event_hub.go:354-385 | over every run of the room, a row ends accepted only if its job passes every case, was refused or was not copied, wrong only if it ran and failed, and stays pending if its job never got a container |
| RoomVerdicts.PointsAreEarned | internal/hub/event_hub.go:422-426 | points are credited only for jobs that pass every case, were refused or were not copied |
| RoomVerdicts.TrueStep | internal/hub/event_hub.go:393-480 | every step keeps results, stored verdicts and credits in line with the judge's answers |
| RoomVerdicts.RefusedIsAccepted | internal/executor/worker_pool.go:129-133 | from any started room a refused submission can end accepted, with fifty points for its player, or for nobody if the player has no row |
| Templates.TwoPassesAreOneIff | internal/executor/worker_pool.go:229-230 | expanding directory then name equals simultaneous expansion for every template if and only if the directory cannot overlap the name placeholder, or the name is the placeholder |
| Templates.AbsoluteDirsAreSafe | internal/executor/worker_pool.go:229-230 | a nonempty directory starting with a slash and without braces satisfies that, so the two expansions agree |
| Templates.TwoPassesAreOne | internal/executor/code_builder.go:19-20 | no occurrence of the name placeholder straddles inserted text when the directory does not clash |
| Templates.ExpandsToMeaning | internal/executor/code_builder.go:19-20 | in a template of literal text and placeholders, simultaneous expansion replaces each placeholder by what it names and keeps the text |
| CodeBuilding.PlacementIndependentIff | internal/executor/code_builder.go:84-101 | imports and user code land at the driver's own markers for every user code if and only if the import marker comes first |
| CodeBuilding.GoBuildPlaces | internal/executor/code_builder.go:76-107 | a successful Go build is head, imports, middle, user code, tail for every user code |
| CodeBuilding.PlainBuild | internal/executor/code_builder.go:84-107 | without an analyzer only the first code marker is replaced, and a driver without one drops the user's code |
| CodeBuilding.MarkerTexts | internal/executor/code_builder.go:28-47 | the markers of the three languages, and empty ones for any other |
| CodeBuilding.BuildRefusedIff | internal/executor/code_builder.go:76-99 | a build is refused exactly for unsanitary code, or where the language's analyzer cannot parse the driver with the code in place |
| CodeBuilding.MarkerlessImports | internal/executor/code_builder.go:101 | an analyzer for a language without an import marker puts its imports in front of everything |
| ShellQuoting.QuotingRoundTrip | internal/executor/worker_pool.go:352-355 | escaped and single-quoted, every string is read by the shell as one word equal to itself |
| ShellQuoting.CodeCannotEscape | internal/executor/worker_pool.go:352-355 | after any command text ending inside single quotes, the code contributes itself and reading goes on unchanged |
| ShellQuoting.RawQuotingIff | internal/executor/worker_pool.go:353 | without escaping, a string survives quoting if and only if it has no single quote |
| EventApproval.EventDesk.ApproveEventRequest | internal/handlers/events.go:432-504 | it fails exactly if a statement does, the configuration does not parse or a key is taken, and then the store is unchanged; success writes the event with the request's title and room count, its rooms numbered from one, one participant, and the approved request naming the event, and nothing else |
| EventApproval.EventDesk.DeclineEventRequest | internal/handlers/events.go:506-515 | a failure changes nothing; success makes that request rejected, with the reason and no event, and changes nothing else |
| EventApproval.EventDesk.ProcessEventRequest | internal/handlers/events.go:370-430 | exactly when each answer is given; only pending requests are acted on, any answer but success means nothing changed, and linked requests and events stay linked both ways |
| EventApproval.NewRoomsNumbered | internal/handlers/events.go:470-473 | each room is called by the prefix, a blank and its number from one on, in decimal without leading zeros |
| EventApproval.NewRoomsDistinct | internal/handlers/events.go:469-479 | the rooms of one approval have distinct names |
| EventApproval.StoredCountRightIff | internal/handlers/events.go:459 | the stored 32-bit room count equals the rooms created exactly for counts that fit, and for negative multiples of 2^32 |
| EventApproval.ApprovalLinks | internal/handlers/events.go:492-498 | an approval of linked data stays linked if and only if the request was not approved already |
| EventApproval.DeclineLinks | internal/handlers/events.go:507-513 | the same for a decline |
| EventApproval.LinkedIffNoOverwrite | internal/handlers/events.go:388-405 | however handlers interleave, links hold both ways at the end if and only if no write on the way overwrote an approval |
| EventApproval.OrphanedForGood | internal/handlers/events.go:492-498 | an event its request does not name is never named again |
| EventApproval.ApprovedAlwaysNamed | internal/handlers/events.go:492-498 | in every interleaving each approved request names an event made for it |
| EventApproval.DecidedForGood | internal/handlers/events.go:388-391 | a decided request that no handler holds never passes the check again and stays as it was decided, a declined one with its reason |
| EventApproval.WritesDecide | internal/handlers/events.go:432-515 | interleaved handlers write what the transaction and the update write |
| EventApproval.OneAtATimeNeverOverwrites | internal/handlers/events.go:388-405 | handlers that never work on the same request at once never overwrite an approval |
| EventApproval.DoubleApproval | internal/handlers/events.go:398-405 | two handlers that both read a pending request can leave two events, one orphaned |

## Left out

- Docker, archive copying, command execution, clocks and timeouts: each is an arbitrary outcome.
- PostgreSQL: tables are maps under their primary keys, each statement is atomic, and a failed write changes nothing. A write that commits but reports an error is not modelled.
- Delivery of server-sent events: sends are best-effort and nothing is claimed about them; the data race between closing a channel and sending on it, which the code recovers from, is not modelled.
- `executeCode`, the only caller of `generateRunCmd`, is itself never called: `ShellQuoting` is about text no job reaches today.
- `checkHealth`, `MonitorContainers`, `ShutDown` and the pool's shutdown channel: nothing starts or signals them.
- `processRoomDeleted` and the guild leaderboard: marked incomplete in the code.
- `Sanitize`, the Go parser behind the package analyzer and the text of the import block: arbitrary outcomes; `NormalizeLanguage` is a finite table.
- HTTP, JSON, JWT, gRPC, configuration and pages other than the leaderboard sort: plumbing.
- Compile commands expand only the directory; nothing beyond what is proved of `ReplaceAll` is stated for them.
- `fmt.Sprintf` verbs other than the single place where the code goes into a run command.
- Stdout, stderr and message texts of judge results: only success, error kind and total time are kept.
- The worker loop and its channels appear as the step system of `WorkerPool`, not as a class; goroutine scheduling is the free choice of the next step.
- RoomConsumers.RoomConsumer.ServeQueued: a sole consumer, without new arrivals; the endless loop of several consumers with arrivals is the step system.
- RoomConsumers.RoomConsumer.ServeFrom: a sole consumer too; for several, the same ends are stated of runs, as `Freshness.IdleHubIsFresh` and `Membership.DrainedMembersFollowLastWord`.
- ContainerManagers.ContainerManager.BalanceWorker: takes the ids Docker will assign, new and distinct, and its first failing call as arguments instead of a Docker client.
