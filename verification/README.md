# flyc: verified models

Dafny models of the parts of flyc in which several processes share state without talking to each
other, and proofs about whole runs of them. `dafny verify dfyconfig.toml` checks everything.

The code is modelled as it is written: single Redis commands, single file operations, single SQL
statements, single requests, any of which may fail, with or without its effect, and between any two of
which other processes act. A file is either a protocol (a state machine of such steps, with the
theorems about all its runs), a program (a class or a method that does what the source does, command
by command, and is proved to be a run of the protocol), or a lemma file beside them.

## What is modelled

**The waiting room** (`queue/internal`). `QueueProtocol` is the state machine: visitors' requests,
status polls, ticks of any number of admitters, errors and deaths, interleaved command by command. It
also records what each process holds between two commands: the right to send a ticket's ZADD. `Store`,
`StatusPoll`, `Admitter`, `TickSequence` and `AdmitterLoop` are the programs: the Redis store, one
status poll, one tick, the ticks of a room, and the loop around one. `QueueRecovery`, `QueueFairness`,
`SweepOrder`, `Readmission`, `ActiveIndex` and `WaveTimes` hold the theorems about tickets; `TokenBucket`,
`RateRuns` and `WaitingTime` those about rates and announced times; `Lease`, `LeaseBreach`, `Handover` and
`HandoverRates` those about several replicas; `Scores` and `Shuffle` the arithmetic of ranks, with the
float64 rounding of scores. `QueueHead`, `QueueVisitors`, `Ranking` and `TickFrames` say what parts of a tick keep.

**Infrastructure jobs** (`runner/run.py`, `control/internal/jobs`). `JobProtocol` is the state machine
over rows and files, for any number of runners; `JobSafety`, `JobVerdicts`, `JobSingle`, `JobProgress`,
`JobCompletion` and `JobLater` its theorems; `JobMeasures` and `JobInevitable` those about runs that must
come to an end; `JobRerun` and `JobOverlap` exactly when a command runs twice and when two jobs overlap;
`JobPrograms` the programs.

**Load balancers** (`control/internal/dataplane`, `reconcile`, `compile`). `MapSync` is the entry by
entry synchronisation of a map; `Backends` and `PushEdge` the diff of backends and servers;
`BackendNames` the names of backends.

**Redis topology** (`edge/roles/redis_cluster`). `RedisTopology` is the assignment of replicas,
`MasterRebalance` the loop that gives masters back to hosts.

**Signing keys** (`control/internal/bootstrap`, `control/internal/api`, `queue/internal/keys`).
`KeyRotation` is the table of keys, the copy that control serves, and who accepts which key; `ServedKey`
how far that copy can be behind the table; `KeyRaces` rotations that overlap; `KeyClient` the age of the
key in the queue.

## What the proofs found

Where a property a reader would expect does not hold, the exact condition under which it does is proved,
or, for the hosts that the rebalancing of masters leaves without one, a bound on how many they are.

- `queue/internal/room/room_test.go` (lines 44-47) says wave n passes before wave n+1 whatever the rank. In
  float64 this holds up to 2^53 and fails right after, which with windows of one second is already
  the case (`Scores.EveryRankBeforeNextWaveIff`); all but the last 1024 ranks are always safe
  (`Scores.WavesOrdered`).
- A rate below one ticket in five seconds, which Validate accepts, admits nobody, ever
  (`RateRuns.AdmitsIffOneFifth`).
- A tick that fails while marking has admitted tickets it never pays for, and perhaps one more of which
  it has not heard: two such ticks, a second apart, exceed the configured rate
  (`RateRuns.FailingTicksAreFree`); `RateRuns.RateBound` has the term this adds. Nobody else is admitted
  (`Admitter.TickOnce`).
- A ticket can be admitted twice (`Readmission.AdmittedTwice`). An admitted ticket can come back into the
  queue exactly while somebody still holds the right to put it there: a poll that read it as waiting, a
  ranking that has not sent its ZADD, a tick that is not done with it (`Readmission.ReturnsIffHeld`). It
  leaves the queue exactly as often as it enters it (`Readmission.PopsUseEntries`).
- A request that is slow to join its wave can be overtaken (`QueueFairness.LateArrivalIsOvertaken`):
  some orderly continuation pops unfairly exactly if a ticket of a later wave is already being ranked,
  or is or can still get into the queue (`QueueFairness.LateAddIsUnfairIff`). Without such requests order
  is kept over all runs (`QueueFairness.EveryPopIsFair`), and ticks of one room keep it whether or not
  they fail (`TickSequence.RunTicks`), up to the next point.
- A sweep for stray waves whose scan outlasts the window of its tick finds the wave of the next window and
  closes it before its time, ahead of the current one and of the one before. With windows of one second,
  or of any length that ends on a sweep second, a short delay is enough (`SweepOrder.SweepOvertakes`). It
  leads to unfair pops exactly if some wave above the current one holds a ticket when the scan ends
  (`SweepOrder.LateSweepIsUnfairIff`).
- A ticket is lost for good when its request dies or fails between its two commands, when the ranking of
  its wave dies or fails after taking it out, or when its wave is deleted, and in no other way
  (`QueueRecovery.LostExactlyBy`). A CloseWave that fails leaves each ticket of its wave in the wave,
  ranked, or lost (`Store.Store.CloseWave`).
- A status poll whose second reading of the rank fails tells the visitor position 1
  (`StatusPoll.StatusOf`).
- While `lastwave` is absent a tick on the first second of a window closes nothing, and with windows
  of one second the closing loop never starts (`WaveTimes.FirstClosingIff`,
  `WaveTimes.OneSecondWavesNeverStart`).
- A pause lets two replicas tick at once exactly if it outlasts the lease of a replica that is inside its
  tick or its renewal while another one is running (`LeaseBreach.BreachedIffExposed`); a late renewal and
  a slow tick are the two ways (`Lease.LateRenewalLetsTwoIn`, `Lease.SlowTickLetsTwoIn`). The total rate
  of all replicas needs less: a replica that slept through its loss keeps a full bucket, but the five
  seconds of the bucket are the five seconds the lease took to run out
  (`Handover.RateBoundAcrossReplicas`).
- If cleanup cannot remove a request, the job can run again (`JobVerdicts.RequestLeftBehindRunsTwice`). If
  removals of requests succeed from some moment on, a command already started can be started again
  exactly if a runner has read its request again, or its request is still there and a runner has claimed
  it again, or its claim is gone, or the current cleanup is about to remove it
  (`JobRerun.StartedAgainIff`, `JobRerun.StartsTwiceIff`).
- A job whose row is there but whose request was never written, because control died or a statement or
  its reply failed in between (`JobProgress.GhostExactlyBy`), stays unfinished and blocks every later
  submission (`JobProgress.GhostBlocksForever`). These are the only jobs that cannot finish
  (`JobCompletion.CanFinishIffNotGhost`); every other one does, within a known number of steps, if
  nobody dies and no statement on it fails (`JobInevitable.JobEnds`).
- Jobs never overlap exactly if there is at most one runner (`JobOverlap.NoOverlapIffOneRunner`).
- A rotation whose commit takes effect while its reply is lost leaves control serving the key that it
  retired. Nothing but a restart or another rotation repairs this (`ServedKey.ServesActiveIff`): passes
  signed meanwhile are accepted until they expire exactly if they expire within 24 hours of that
  rotation, and a day after it none is accepted at all (`ServedKey.ServedPassesAcceptedIff`).
- Exactly one signing key is active after every rotation exactly if no two rotations overlap; nothing in
  the table prevents them (`KeyRaces.OneActiveKeyIff`).
- A push never changes the balance or the check path of a backend that exists, nor a maxconn that is
  the only difference (`Backends.StaleExactlyWhen`).
- The rebalancing of masters can stop while one host has two masters and another none, although two
  failovers would help (`MasterRebalance.StopsShort`); at least half as many hosts have a master then as
  any failovers could give one to (`MasterRebalance.StopsAtHalf`).
- Two clients' backends share a HAProxy name exactly when one tenant's slug continues the other's
  after two dashes and the backends' names make up for it (`BackendNames.SameNameIff`).
- Passes of 24 hours, which Validate accepts, can outlive their key
  (`KeyRotation.DayLongPassesOutliveTheirKey`); the comment in `control/internal/api/session.go` that
  the queue uses a new key within 60 seconds leaves out the time of the requests and failures
  (`KeyClient.KeyIsFresh`, `KeyClient.KeyCanBeThatOld`).

## Assumptions

- What may fail may do so at any time. To say what a program achieves when nothing does, the programs have
  constants for what can be relied on (`Store.Steady`, `Platform.database`, `LoadBalancer.reliable` and the
  like); they are arbitrary, so that contracts that do not mention them hold in any case.
- While a poll or a tick runs nobody else's clock shows more than `Store.clock`: others purge no pass that is
  still valid then.
- Ticket ids and job ids are not drawn twice. Random numbers are parameters.
- A process that returns on an error, or dies, sends nothing any more of what it held. A pipeline that
  fails has been applied up to one of its commands.
- Visitors' tickets do not join a wave that is closed already, nor one that is over with its second of
  grace when a tick begins (for the order of waves and for what a tick leaves in them only; without it:
  `QueueFairness.LateAddIsUnfairIff`).
- The command of a runner dies with it, as when its container stops.
- The database's clock moves on between two rotations of the key, and they do not overlap (without the
  latter: `KeyRaces`). Control finds a key when it starts.
- No Redis node follows a replica (for the bound on the rebalancing only).
- CLUSTER FAILOVER swaps roles or does nothing.

## Model

| member | source | states |
|---|---|---|
| Scores.WavesOrdered | queue/internal/room/room.go:161-164 | every safe rank of a wave scores strictly below every rank of a later wave, float64 rounding included |
| Scores.ScoreIsExact | queue/internal/room/room.go:163-164 | up to 2^53 a score is ten million times the wave plus the rank |
| Scores.EveryRankBeforeNextWaveIff | queue/internal/room/room.go:163-164 | all ranks of wave n come before wave n+1 if and only if the next wave starts at or below 2^53 |
| Scores.RanksDistinctIff | queue/internal/room/room.go:163-164 | the ranks of a wave keep distinct, increasing scores if and only if the last one is at most 2^53 |
| Scores.StoredScoreReadsBack | queue/internal/store/store.go:195-206 | a score survives being rounded again, so ticket hash and sorted set agree |
| Scores.RenumberingKeepsArrivalOrderIff | queue/internal/room/room.go:160-161 | a change of wave_s keeps later arrivals in later or equal waves if and only if windows do not get longer |
| Shuffle.ShuffleInPlace | queue/internal/store/store.go:210-217 | the swaps in place give the order of the choice vector, a permutation of the tickets |
| Shuffle.DifferentChoicesDifferentOrders | queue/internal/store/store.go:210-217 | two different choice vectors never give the same order |
| Shuffle.EveryOrderIsDrawn | queue/internal/store/store.go:210-217 | every order of the tickets is the result of some choice vector |
| Shuffle.ShuffleIsABijection | queue/internal/store/store.go:210-217 | each order is drawn by exactly one choice vector |
| Shuffle.OrderIsDrawnExactlyBy | queue/internal/store/store.go:210-217 | each order is drawn by exactly the random numbers with one residue each, modulo 1, 2, and so on, and by some |
| QueueProtocol.InvKept | queue/internal/store/store.go:107-294 | every command keeps each ticket in one place only, and every pending score, and every score a process may still send, equal to its hash's |
| QueueProtocol.InvReached | queue/internal/store/store.go:107-294 | the invariant holds after any interleaving of requests, polls, ticks, errors and deaths |
| QueueRecovery.ScoreIsWrittenOnce | queue/internal/store/store.go:195-206 | over any run a ticket keeps its wave and its score, and an admitted one stays admitted |
| QueueRecovery.PlaceIsKept | queue/internal/store/store.go:288-294 | two tickets in the queue at two moments are in the same order at both, even if one left and came back |
| QueueRecovery.PollRestores | queue/internal/api/api.go:255-277 | whatever happens between a poll's read of a ranked, waiting ticket and its ZADD, that ZADD puts the ticket back with the score of its hash and changes nothing else |
| QueueRecovery.LostExactlyBy | queue/internal/store/store.go:173-209 | a waiting ticket gets lost when a process that creates or ranks it lets go of it, by dying or by an error, or by the DEL of its wave while it is in it, and by nothing else |
| QueueRecovery.LostForever | queue/internal/store/store.go:173-209 | a lost ticket stays lost over any run |
| QueueRecovery.ReachesQueueIffNotLost | queue/internal/api/api.go:255-277 | a waiting ticket can still reach the queue if and only if it is not lost |
| QueueFairness.FairInvKept | queue/internal/admitter/admitter.go:148-173 | steps that respect the order of waves keep the fairness invariant: while a ticket is being ranked, or is or can still get into the queue, no earlier wave holds one |
| QueueFairness.PopsAreFair | queue/internal/store/store.go:262-276 | what ZPOPMIN returns leaves nobody of an earlier wave behind, in a wave or in the queue |
| QueueFairness.EveryPopIsFair | queue/internal/admitter/admitter.go:148-220 | over whole runs from an empty room every pop is fair, if waves are opened in order and no ticket joins a wave while one of a later wave is being queued; TickSequence.RunTicks proves the first of ticks, failing or not |
| QueueFairness.LateAddIsUnfairIff | queue/internal/store/store.go:107-121 | a ticket that joins its wave late is overtaken in some orderly continuation if and only if a ticket of a later wave is being ranked, or is or can still get into the queue |
| QueueFairness.LateArrivalIsOvertaken | queue/internal/api/api.go:178-245 | a concrete run in which a slow request is overtaken by a ticket of a later wave |
| SweepOrder.ClosingIsUnfairIff | queue/internal/store/store.go:173-209 | beginning to close a wave leads to an unfair pop in some orderly continuation if and only if somebody waits in an earlier wave |
| SweepOrder.LateSweepIsUnfairIff | queue/internal/store/store.go:225-243 | a sweep whose scan ends in an orderly room leads to an unfair pop, visitors included, if and only if a wave above the current one holds a ticket by then |
| SweepOrder.SweepOvertakes | queue/internal/admitter/admitter.go:174-190 | a concrete run with windows of one second in which the sweep closes the next wave before the current one, and its ticket is popped first |
| QueueVisitors.RelyOnVisitors | queue/internal/api/api.go:178-277 | whatever visitors do between two commands of an admitter, no ticket it holds changes, nothing it holds is let go, nothing leaves a wave or the queue, and the run goes on |
| Readmission.PopsUseEntries | queue/internal/store/store.go:262-294 | over any run the pops of a ticket, plus the flushes while it is queued, plus one if it is queued at the end, are the ZADDs that find it absent, plus one if it was queued at the start |
| Readmission.ReturnsIffHeld | queue/internal/api/api.go:246-304 | an admitted ticket that has left the queue can get into it again if and only if a poll that read it as waiting, a ranking, or a tick still holds it |
| Readmission.AdmittedTwice | queue/internal/admitter/admitter.go:225-241 | a concrete run that respects every order, in which a poll reads a ticket before it is marked and sends its ZADD after, and the ticket is admitted twice |
| ActiveIndex.ActiveCountsValidPasses | queue/internal/store/store.go:246-286 | after the purge of a tick the active set is, apart from the unsettled tickets, exactly the set of tickets admitted through the queue whose pass is still valid, under any interleaving |
| ActiveIndex.UnsettledAre | queue/internal/store/store.go:278-286 | the unsettled tickets are those whose MarkAdmitted is under way or was cut short after its first command, if two of them for one ticket do not overlap |
| Store.Draw | queue/internal/store/store.go:210-217 | the draw of a wave is the shuffle of its tickets by some random numbers |
| Store.Store.Interleave | queue/internal/store/store.go:173-209 | what an admitter may rely on after other processes acted |
| Store.Store.SPopN | queue/internal/store/store.go:176-187 | SPOP of up to count distinct members; empty exactly when the wave is |
| Store.Store.CollectWave | queue/internal/store/store.go:176-190 | the popped tickets are those that were in the wave and, while it is open, those that join it meanwhile, each once; on success the wave is empty |
| Store.Store.CloseWave | queue/internal/store/store.go:173-209 | success gives the tickets collected the order that the shuffle makes of them with the numbers drawn, writes each its rank's score, and queues all of them; after an error each is still in the wave, or ranked, or lost; either way the call holds nothing it did not hold before; the wave may still be open; a wave that is over is ranked and queued if Redis answers, and its key is deleted |
| Store.Store.Counts | queue/internal/store/store.go:245-260 | the purge is the one at the caller's time, with other processes before and after it; the sizes read lie between those at the start and the end; a pass that outlasts every clock is still indexed and counted, one that had expired is not |
| QueueHead.PopsByScoreThenId | queue/internal/store/store.go:262-276 | what ZPOPMIN returns has the smallest scores, in ascending order, and the smallest ids among equal ones |
| Store.Store.PopPending | queue/internal/store/store.go:262-276 | the head of the queue, in order, leaves it; a lost reply still pops |
| Store.Store.MarkAdmitted | queue/internal/store/store.go:278-286 | the ticket is admitted with its expiry and indexed with it; other tickets keep theirs; no index command is left to send, errors included |
| Store.Store.Requeue | queue/internal/store/store.go:288-294 | a tick's ranked ticket returns with its score; an unranked one does not; the tick is done with it either way |
| Store.Store.StrayWaves | queue/internal/store/store.go:225-243 | all waves that hold a ticket all along but the current one and the one before, and none that is empty at the end of the scan, while visitors act |
| StatusPoll.StatusOf | queue/internal/api/api.go:255-277 | among everybody else's commands: the reply has the number of tickets ahead, the position and the first second by which more can have been admitted, as of the moments of the call at which rank and size were read, unless the last reading of the rank failed, when it is position 1; a missing ranked ticket is put back with its score; an unranked one is told its wave_in |
| Hub.BuildStatus | queue/internal/hub/hub.go:182-195 | for a ranked ticket as many ahead as its rank, one more as position, and as eta the first whole second by which more tickets than those ahead can have been admitted; for another one the same of all that are queued, counted from the end of its wave_in |
| Admitter.CloseElapsed | queue/internal/admitter/admitter.go:143-173 | an error-free loop closes exactly the elapsed waves after the effective lastwave; with or without errors nobody waits at or below lastwave, nobody is admitted and nothing stays in hand, while visitors still join the wave before the current one in its second of grace |
| Admitter.SweepStrays | queue/internal/admitter/admitter.go:174-190 | the sweep closes waves other than the current two, all of those in which somebody waits if the scan returns, leaves lastwave and the rest alone, and keeps the order of the waves unless its scan finds a wave above the current one |
| Admitter.AdmitBatch | queue/internal/admitter/admitter.go:224-242 | the marked tickets are popped ones, each once; all are marked or skipped unless the tick fails; those it came to are marked or back in the queue, if Redis answers; nobody else is admitted but, when a mark fails, possibly its ticket; the tick is done with all of them; if nothing fails all are marked |
| Admitter.AdmitHead | queue/internal/admitter/admitter.go:215-242 | k tickets of the head leave the queue, in order and fairly; of all tickets only those marked are admitted, and at most one whose mark failed |
| Admitter.TickOnce | queue/internal/admitter/admitter.go:143-248 | one tick is a run of the protocol; it closes the elapsed waves and, on the half minute, the stray ones, pops a fair head that is as long as the tokens, the places and the queue allow and no longer, marks each ticket once or puts it back, keeps max_active, counts the passes that outlast every clock, and accounts for its tokens; it fails only if one of its commands does; errors included, it admits the marked tickets and at most one more, leaves nobody at or below lastwave and holds nothing afterwards; the order of waves is kept unless the scan of its sweep finds a wave above the current one |
| WaveTimes.ServedWhenAnnounced | queue/internal/api/api.go:264-275 | a ticket leaves its wave in a tick if and only if the announced wave_in is over, and is then queued or popped |
| WaveTimes.ClosesAllSinceLastwave | queue/internal/admitter/admitter.go:148-161 | exactly which waves a tick closes: all after lastwave and before the current one, the last of them not on the first second of the current window; only that last one if lastwave is not among the 200 waves before the current one |
| WaveTimes.FirstClosingIff | queue/internal/admitter/admitter.go:153-161 | without a usable lastwave a tick closes a wave if and only if it is not on the first second of a window |
| WaveTimes.OneSecondWavesNeverStart | queue/internal/admitter/admitter.go:153-161 | with windows of one second and no lastwave the loop closes nothing and lastwave stays absent |
| WaveTimes.NextTickFindsNothingLate | queue/internal/admitter/admitter.go:148-173 | the hypothesis of fairness reproduces itself from tick to tick, failing ticks included, while lastwave stays in its window |
| WaveTimes.EveryTickFindsOrder | queue/internal/admitter/admitter.go:148-173 | over any number of ticks, failing or not, every tick finds the waves in the order fairness asks for |
| TickSequence.RunTicks | queue/internal/admitter/admitter.go:99-141 | any number of ticks with visitors between them: visitors join any wave that is not closed; a head popped is fair if the ticks up to it met the hypotheses on lastwave and on the size of waves, and no scan of theirs found a wave above the current one, however many failed; each closes, pops and accounts as one tick does |
| TokenBucket.Refill | queue/internal/admitter/admitter.go:199-206 | the bucket stays between nothing and five seconds of rate and gains at most rate times time |
| TokenBucket.Quota | queue/internal/admitter/admitter.go:206-217 | never more than the tokens, the queue, or the free places, and one more would be |
| RateRuns.BucketBound | queue/internal/admitter/admitter.go:199-243 | over any run, charges plus what is left are at most the start plus rate times time |
| RateRuns.RateBound | queue/internal/admitter/admitter.go:199-243 | admissions over any run of ticks with changing rates, those without reply included, are bounded likewise, plus what failing ticks did not charge |
| RateRuns.FailingTicksAreFree | queue/internal/admitter/admitter.go:237-243 | n failing ticks a second apart can admit 5n tickets at rate 1, which exceeds the bound without that term exactly from the second on |
| RateRuns.Throughput | queue/internal/admitter/admitter.go:199-243 | steady ticks admit everything that waited at the start, or at least floor(rate times time), or one of them fills the places |
| RateRuns.SomebodyOnceFull | queue/internal/admitter/admitter.go:199-206 | from a rate of one fifth on, while places are free, somebody is admitted by the time the bucket is full |
| RateRuns.BelowOneFifthNobody | queue/internal/admitter/admitter.go:199-206 | below one ticket in five seconds nobody is ever admitted |
| RateRuns.AdmitsIffOneFifth | queue/internal/admitter/admitter.go:199-217 | a room can admit somebody if and only if its rate is at least one in five seconds |
| WaitingTime.PopMovesUp | queue/internal/hub/hub.go:184-195 | a pop moves every remaining ticket up by the number popped |
| WaitingTime.NotYetPopped | queue/internal/hub/hub.go:184-195 | while a ticket is not popped, those popped were ahead of it |
| WaitingTime.EtaIsKept | queue/internal/hub/hub.go:182-195 | while places are free, a ticket is popped within the announced time plus the time of one ticket |
| WaitingTime.EtaIsNotLate | queue/internal/hub/hub.go:182-195 | from an empty bucket no ticket is popped a second before the announced time, so it is not padded |
| AdmitterLoop.Loop.Turn | queue/internal/admitter/admitter.go:93-141 | one turn of the loop changes tokens, last and leader as an event of Handover does, and the room as one tick or not at all; a replica that holds the lease ticks: it serves the waves and pops as many as allowed unless a command fails; it admits the marked tickets and at most one more |
| Lease.InvKept | queue/internal/store/store.go:331-355 | every command keeps the lock with the last winner until it stops or its time is over |
| Lease.WinsAreSpaced | queue/internal/store/store.go:331-355 | the lease changes hands only a full TTL after its last renewal or after its holder stopped |
| Lease.MutualExclusion | queue/internal/admitter/admitter.go:113-139 | under both timing hypotheses no two replicas are inside tickOnce of one room |
| Lease.LateRenewalLetsTwoIn | queue/internal/store/store.go:340-347 | a renewal delayed past the expiry lets two replicas tick |
| Lease.SlowTickLetsTwoIn | queue/internal/admitter/admitter.go:133-139 | a tick longer than its lease lets two replicas tick |
| LeaseBreach.BreachedIffExposed | queue/internal/admitter/admitter.go:113-139 | after a pause of any length two replicas can tick at once, though every later pause is short, if and only if it outlasted the lease of a replica inside its tick or its renewal while another one runs |
| LeaseBreach.FirstBreach | queue/internal/store/store.go:331-355 | along any run exclusion holds as long as no pause exposes anybody, and a pause ends it in some continuation exactly if it does |
| LeaseBreach.QuickPauseIsSafe | queue/internal/admitter/admitter.go:113-139 | a pause that meets both timing hypotheses exposes nobody |
| Handover.LaterWinPaid | queue/internal/admitter/admitter.go:119-138 | a change of leader keeps the balance between buckets and elapsed time |
| Handover.RateBoundAcrossReplicas | queue/internal/admitter/admitter.go:99-141 | all replicas together charge at most the highest rate times the time since the first tick, plus one reading delay per change of leader |
| Handover.AdmissionsAcrossReplicas | queue/internal/admitter/admitter.go:99-141 | what all replicas together admit, tickets admitted without a reply included, is bounded likewise, plus what failing ticks did not charge |
| HandoverRates.ChargedAtMostEarned | queue/internal/admitter/admitter.go:99-141 | all replicas together charge at most the sum, over the winning ticks, of the rate then configured times the time credited |
| HandoverRates.RateIntegralAcrossReplicas | queue/internal/admitter/admitter.go:119-138 | if every loss of the lease is noticed before the next win, at most the integral of the configured rate |
| JobVerdicts.InvKept | runner/run.py:127-177 | every step of control or a runner keeps the invariants and all final rows |
| JobVerdicts.AtMostOnce | runner/run.py:63-71 | no command is started twice, for any number of runners and deaths |
| JobVerdicts.VerdictsAreFinal | control/internal/jobs/jobs.go:183-223 | a final status never changes |
| JobVerdicts.VerdictsAreTrue | control/internal/jobs/jobs.go:207-216 | "succeeded" means the command was started and ended by itself with exit code 0; "interrupted" that it ended with 75 or a sweep reported it; "failed" that it ended with any other code, or was given up before its start with 2 or 127 |
| JobVerdicts.RequestLeftBehindRunsTwice | control/internal/jobs/jobs.go:225-230 | if the request alone cannot be removed the command runs twice |
| JobRerun.StartsTwiceIff | control/internal/jobs/jobs.go:225-230 | from any reachable state, if cleanups remove their requests from then on, a command can be started twice if and only if there are two ways to start it: it has been, a runner has read the request, or the request is there and claimed, or its claim is gone or about to go |
| JobRerun.StartedAgainIff | runner/run.py:157-177 | a started one, if and only if a runner has read its request again, or it is there and a runner has claimed it, or its claim is gone, or about to be removed |
| JobSingle.NoOverlap | control/internal/db/migrations/0005_jobs.sql:23-26 | with one runner the running job's row is the only unfinished one, so every submission is refused meanwhile |
| JobSingle.VerdictIsExitCode | control/internal/jobs/jobs.go:200-216 | with one runner the status of a command that ended is "succeeded" exactly for 0, "interrupted" exactly for 75 and "failed" otherwise, or "interrupted" if a sweep reported it because the runner had died before |
| JobOverlap.TwoRunnersOverlap | runner/run.py:168-177 | from any initial state with two runners, the second one to start makes two commands run at once |
| JobOverlap.NoOverlapIffOneRunner | runner/run.py:22 | two jobs never run at once if and only if there is at most one runner |
| JobProgress.GhostExactlyBy | control/internal/jobs/jobs.go:83-107 | a job becomes a ghost by the death of control between row and file, by a failed withdrawal, or by an insert whose reply is lost, and by nothing else |
| JobProgress.GhostBlocksForever | control/internal/db/migrations/0005_jobs.sql:23-26 | a ghost stays unfinished and no job is ever submitted again |
| JobCompletion.RunnerSettles | runner/run.py:168-252 | from any state a runner can get back to polling, running the commands whose requests are there, having reported what it owed |
| JobCompletion.RefreshSettles | control/internal/jobs/jobs.go:183-223 | from any state control can finish its refresh, recording a job that has a result or keeping the result |
| JobCompletion.CanFinishIffNotGhost | runner/run.py:240-252 | from every reachable state an unfinished job can come to an end if and only if it is not a ghost |
| JobMeasures.EveryMoveShrinks | runner/run.py:220-252 | whatever a runner does between two polls, short of dying, brings it nearer to the next |
| JobMeasures.EveryRefreshStepShrinks | control/internal/jobs/jobs.go:183-223 | whatever control does in a refresh, failing statements included, brings it nearer to the end |
| JobInevitable.TakenIfRunnerMoves | runner/run.py:157-165 | in every run, a runner that lives and takes a known number of steps finds the job claimed or settled |
| JobInevitable.SettledIfOwnerMoves | runner/run.py:127-177 | in every run, a claimed job is settled if the runner that claimed it lives and takes a known number of steps, unless it is settled before |
| JobInevitable.EndedIfControlMoves | control/internal/jobs/jobs.go:183-223 | in every run, control, if it lives and fails no statement on the job, closes the row of a settled job within a known number of steps |
| JobInevitable.JobEnds | control/internal/jobs/jobs.go:167-223 | every run in which the three do that takes a job whose request was written to a final row |
| JobLater.LaterReached | control/internal/jobs/jobs.go:183-230 | settled jobs stay settled, removed requests stay removed, and a claim lasts until its job is settled |
| JobPrograms.Platform.SweepOne | runner/run.py:168-177 | a claim without result is reported with code 75 |
| JobPrograms.Platform.SweepInterrupted | runner/run.py:168-177 | afterwards no job claimed before is unfinished without a result |
| JobPrograms.Platform.RunJob | runner/run.py:127-154 | from the claim over the reading of the request to the written result, other processes acting between any two of these: the result is the exit code of the command, or 2 for a request that is gone, unreadable or refused, or 127 for a command that is not found |
| JobPrograms.Platform.Execute | runner/run.py:139-153 | a command that is accepted and found is started and its own exit code recorded; otherwise the code is 2 or 127 and it is not started |
| JobPrograms.Platform.WriteResultFile | runner/run.py:74-81 | the result appears in one step |
| JobPrograms.Platform.Claim | runner/run.py:63-71 | won exactly when nobody had claimed before |
| JobPrograms.Platform.PendingJobs | runner/run.py:157-165 | the requests are listed first and their results looked up one by one: the listed jobs are distinct, and a request not listed is settled |
| JobPrograms.Platform.Poll | runner/run.py:240-252 | every request found is claimed or settled, unless a signal stopped the runner |
| JobPrograms.Platform.Submit | control/internal/jobs/jobs.go:83-107 | refused or failed, with nothing changed, while a row is unfinished, and refused only then; success leaves the request of an unfinished row; if the request cannot be written the row is withdrawn; a failing insert leaves nothing or a row without request; nothing else can happen if statements and writes succeed |
| JobPrograms.Platform.Cleanup | control/internal/jobs/jobs.go:225-230 | after the three removals, whatever other processes do meanwhile, the request is gone |
| JobPrograms.Platform.CheckRow | control/internal/jobs/jobs.go:190-195 | "pending" becomes "running" only if the job is claimed, and then if the statement succeeds |
| JobPrograms.Platform.CloseRow | control/internal/jobs/jobs.go:196-221 | a job with a result is closed unless a statement or a reading fails, and its status is "succeeded" for 0, "interrupted" for 75 and "failed" for any other code read |
| JobPrograms.Platform.RefreshAll | control/internal/jobs/jobs.go:183-223 | unless something fails, every job that had a result is closed |
| JobPrograms.Platform.Round | runner/run.py:220-252 | when the only runner has started, swept and polled once, and control has refreshed, every request that was there is closed, unless the runner was stopped or a statement or a reading failed |
| MapSync.SyncMap | control/internal/dataplane/client.go:237-282 | success leaves exactly the desired pairs, each once, from any contents, and only a failing command prevents it; without duplicates every key reads as before or as desired all along, and a right map is not written to |
| MapSync.SwitchesOnce | control/internal/dataplane/client.go:263-280 | over a synchronisation each key goes from its old to its desired reading at most once and never back |
| MapSync.SyncKey | control/internal/dataplane/client.go:263-273 | one addition or update, or no command for a key that is right |
| MapSync.DropKey | control/internal/dataplane/client.go:274-280 | one removal of a key that is not wanted |
| MapSync.Collect | control/internal/dataplane/client.go:245-252 | the last value of each key, and whether a key comes twice |
| MapSync.AsMapAt | control/internal/dataplane/client.go:245-252 | what is kept of a list is the last value of each key |
| MapSync.LookupIsAsMap | control/internal/dataplane/client.go:245-252 | without duplicates what traffic reads is what SyncMap compares |
| BackendNames.SameNameIff | control/internal/compile/compile.go:46-49 | two backends get one HAProxy name exactly when they are the same or one tenant continues the other after two dashes |
| BackendNames.NoDoubleDashNoClash | control/internal/compile/compile.go:46-49 | names are distinct for tenants without two dashes in a row |
| BackendNames.BackendNamesAreManaged | control/internal/reconcile/reconcile.go:303-308 | every name built is one pushEdge takes for its own |
| BackendNames.ManagedIff | control/internal/reconcile/reconcile.go:303-308 | pushEdge takes for its own exactly the names that begin with bk_ and have two underscores in a row |
| Backends.TargetIsSettled | control/internal/reconcile/reconcile.go:313-377 | after a push the backends that are not somebody else's are the wanted ones, with servers of the wanted names, addresses and ports, and of the weights that are wanted |
| Backends.UnchangedIffSettled | control/internal/reconcile/reconcile.go:378-385 | a push changes something exactly when the load balancer was not settled |
| Backends.OthersUntouched | control/internal/reconcile/reconcile.go:303-326 | backends whose names do not begin with bk_, or have no two underscores in a row, stay as they are |
| Backends.ServerAfterPush | control/internal/reconcile/reconcile.go:350-369 | a server with the wanted address and port, and the weight if one is wanted, keeps its record; any other becomes the wanted one |
| Backends.StaleExactlyWhen | control/internal/reconcile/reconcile.go:327-377 | exactly which balance, check path and maxconn a push does not bring |
| PushEdge.SetServers | control/internal/reconcile/reconcile.go:350-369 | every wanted server is served at its address and port, with its weight if one is wanted; those not named are left; changed tells whether any was not served so before |
| PushEdge.SyncServers | control/internal/reconcile/reconcile.go:345-376 | the servers become the wanted ones, by name, address, port and weight; changed tells whether they were not |
| PushEdge.Prepare | control/internal/reconcile/reconcile.go:313-377 | the transaction holds the wanted backends with the wanted servers, and changed tells whether what is live does not |
| PushEdge.PushBackends | control/internal/reconcile/reconcile.go:298-385 | what is live becomes the wanted backends and servers or stays as it was; an error before the commit changes nothing; a commit happens exactly when needed; somebody else's backends are not touched; only a failing command prevents it |
| RedisTopology.Assign | edge/roles/redis_cluster/files/redis-topology.py:91-108 | never the same host, never a master twice; the rotation by one when it fits, which is as large as possible; at least half as large otherwise |
| RedisTopology.RotationIsMatching | edge/roles/redis_cluster/files/redis-topology.py:98-100 | the rotation, when it fits, is a host-disjoint assignment of the largest size |
| RedisTopology.MaximalIsHalf | edge/roles/redis_cluster/files/redis-topology.py:101-108 | a maximal assignment is at least half as large as any other |
| RedisTopology.Greedy | edge/roles/redis_cluster/files/redis-topology.py:101-108 | the greedy pass gives a host-disjoint assignment to which nothing can be added |
| RedisTopology.RegularIsPerfect | edge/roles/redis_cluster/files/redis-topology.py:92-94 | with a master and a replica on each of two hosts or more, everyone is served |
| MasterRebalance.OneMoreHost | edge/roles/redis_cluster/files/redis-topology.py:119-133 | a failover gives exactly one more host a master and takes the last one from none |
| MasterRebalance.SlotsKept | edge/roles/redis_cluster/files/redis-topology.py:130-131 | every slot stays served, by one master if it was |
| MasterRebalance.RebalanceMasters | edge/roles/redis_cluster/files/redis-topology.py:111-135 | at most ten attempts; unless the bound stops it, no promotion is left that would help, and at least half as many hosts have masters as any failovers could give one to |
| MasterRebalance.StopsAtHalf | edge/roles/redis_cluster/files/redis-topology.py:119-129 | with no helpful promotion left, no other choice of masters within the same groups gives one to more than twice the hosts |
| MasterRebalance.StopsShort | edge/roles/redis_cluster/files/redis-topology.py:119-129 | it can stop while one host has two masters and another none, although two failovers would give every host one |
| KeyRotation.SigningKeys.Rotate | control/internal/bootstrap/bootstrap.go:130-160 | for a rotation that overlaps no other: exactly one key is active, retired when the next was created, or nothing happened; control serves the active key afterwards exactly if it heard of the commit, or nothing happened and it did before |
| KeyRotation.SigningKeys.Start | control/internal/bootstrap/bootstrap.go:85-96 | a start of control serves the active key of the table, unless it cannot read it |
| ServedKey.ServesActiveIff | control/internal/api/session.go:581-591 | over any history control serves the active key if and only if every rotation it did not hear of was followed by one it heard of, or by a restart |
| ServedKey.ServedWasActive | control/internal/api/api.go:56-58 | the key served was last active at this moment, or when the first unheard rotation retired it |
| ServedKey.ServedPassesAcceptedIff | control/internal/api/api.go:277-303 | a pass signed with the served key is accepted until it expires if and only if control is not behind, or the pass expires within 24 hours of the first unheard rotation; a day after it none is accepted |
| KeyRaces.OneActiveKeyIff | control/internal/bootstrap/bootstrap.go:145-158 | over rotations that may overlap, exactly one key is active after every commit if and only if each UPDATE begins after the commit before it |
| KeyRotation.QueryIsOrdered | control/internal/compile/compile.go:163 | the eligible keys, active first and then the newest |
| KeyRotation.SelectKeys | control/internal/compile/compile.go:162-181 | the active key, and the last retired one while it is eligible |
| KeyRotation.KeyIsPublished | control/internal/api/api.go:287-303 | the key of an unexpired pass is published when life and staleness fit in 24 hours |
| KeyRotation.AlwaysPublishedIff | control/internal/api/api.go:287-303 | exactly then |
| KeyRotation.DayLongPassesOutliveTheirKey | queue/internal/room/room.go:87-92 | 24 hour passes with a key read a minute ago can be refused before they expire |
| KeyRotation.CompiledIff | control/internal/compile/compile.go:162-181 | a published key is one of the load balancers' two exactly when at most one rotation followed |
| KeyClient.Client.Run | queue/internal/keys/keys.go:39-62 | after a success Run waits 60 seconds, after the k-th failure in a row 2, 4, 8, 16 and then 32; the key is the last one read; every attempt that is answered reads one |
| KeyClient.KeyIsFresh | queue/internal/keys/keys.go:39-62 | after k failures in a row the key in use is at most as old as 60 seconds, k + 2 requests of 5 seconds each, and the k pauses together |
| KeyClient.KeyCanBeThatOld | queue/internal/keys/keys.go:39-62 | and it can be exactly that old |
| KeyClient.PassesAreAccepted | queue/internal/keys/keys.go:29-34 | passes signed with it are accepted until they expire, if their life, that age and the lag of the copy that control serves fit in 24 hours |

## Left out

- Expiry of ticket hashes and of wave keys, the ticket's domain, return address and pass, its signature and cookies: plumbing around the state that is modelled.
- Creation of tickets and direct admission appear as steps of the protocol only; the captcha call before them is the delay in QueueFairness.LateArrivalIsOvertaken.
- Flush is the steps DelPending, DelWave and SetLastWave of the protocol, not a program of its own; that a later poll brings a flushed ticket back is QueueRecovery.PollRestores.
- The order in which a runner takes requests, the oldest first: it lists them in any order.
- The uniformity of the random numbers and the bias of their reduction modulo i+1.
- Rounding of tokens and rates in float64: they are real numbers.
- The hub's subscriptions and event stream, which lose messages by design, metrics, and logs.
- Clocks of replicas and of Redis that do not agree: the timed models have one clock, and the delay between the lease and the reading of the clock is a parameter.
- The job's log file, its inventory, the pause of the runner and the check of its command line: a refused request is the code 2.
- JobPrograms.Platform.Cleanup: the removal of the request is taken to succeed, as the programs are runs of the protocol with that policy; JobRerun and JobVerdicts.RequestLeftBehindRunsTwice say what follows when it fails.
- WaitingTime.EtaIsKept: for tickets that are ranked; before that the announced time is a guess from the size of the queue.
- Certificates, certificate lists and the two key files of pushEdge: each is one comparison and one upload.
- CLUSTER FAILOVER beyond the swap of roles, the settling times, and detach.
- Encryption of keys, and the delay between a rotation and the next push to the load balancers.
- Handler, role and validation code: single branches without state.
