# Proofs about the approximate-computing task runtime and its kernels

A Dafny model of a task runtime that trades accuracy for work, and of the benchmark kernels it
schedules. Check it with `dafny verify dfyconfig.toml`.

| file | what it models |
|---|---|
| `WorkQueue.dfy` | the lock-free queue of each worker, as interleaved loads and compare-and-swaps |
| `Tasks.dfy`, `Scheduler.dfy` | significance buckets, the choice of tasks to run significantly, and their distribution |
| `Rendezvous.dfy` | `wait_group` and the workers: lock, counter and condition variable, over infinite schedules |
| `QueuedRendezvous.dfy` | the two together: the same protocol with every push and pop done by the queue's own instructions |
| `Lloyd.dfy`, `LloydProgress.dfy`, `PointLists.dfy` | k-means from scratch, why its rounds stop, and lists of point numbers with sums over them |
| `KMeans.dfy`, `KMeansRounds.dfy` | the incremental k-means: point arrays compacted in place, centres updated by differences |
| `SlotReservation.dfy` | the point tasks of a k-means round, interleaved, and the round that follows them |
| `Getopt.dfy`, `CommandLines.dfy` | GNU getopt for short options in permuting mode, and command lines written out and read back |
| `Jacobi.dfy`, `JacobiBound.dfy`, `JacobiSolver.dfy` | exact and band-limited Jacobi sweeps, what they do to the error, and the solver around them |
| `Bicubic.dfy` | sixteen-pixel and four-pixel bicubic interpolation |
| `LdpcLayout.dfy` | the two edge tables of an LDPC code |
| `Arithmetic.dfy` | multiplication and division facts used by several files |

Conventions shared by all files:

- Threads are steps: one load, store, fetch-and-add or compare-and-swap per step, under sequential
  consistency, because the `__sync` builtins are full barriers. A queue element is fresh when it is
  pushed.
- A condition variable wakes only on a signal; each group is waited on once, because its lock is
  not released afterwards.
- `float` and `double` are reals. The goal of a group is `total * ratio` truncated, with a ratio
  that is not negative.
- The significance of a task is at most 100; the source indexes its buckets with it.
- Methods carry ghost parameters (the state before the round, the matrix as a value) only to state
  their contracts.

Findings, where the code does less than its comments or names suggest:

- k-means: when a cluster loses its last point, the index is broken from then on: the repair branch
  counts one point that the cluster does not have. A round ends with correct lists if and only if
  every centre was nearest to some visited point (`KMeansRounds.Clustering.OneRound`); two equal
  first points are enough to fail (`KMeansRounds.EqualPairEmptiesACluster`).
- k-means: that branch does not re-initialise the centre either. It copies `sizeof(float)` bytes per
  coordinate although coordinates are doubles, and the update that follows multiplies the distance
  from the old mean by the old count; a cluster that never had a point ends at the origin
  (`KMeans.Cluster.Recentre`, `KMeansRounds.RepairedFromMean`, `KMeansRounds.RepairedFromNothing`).
- k-means: points beyond `ntasks * (npoints / ntasks)` are never visited; the model leaves them at
  membership -1, as the code does. All are visited if and only if `ntasks` divides `npoints`
  (`KMeansRounds.WholeTasksFit`).
- `wait_group` returns, under fair scheduling, if and only if some pushed task is significant, has an
  approximate body, or is adjustable while the goal is positive (`Scheduler.WaitReturnsIffSomeRuns`);
  one task of significance 0 without an approximate body is enough for it to sleep for ever
  (`Scheduler.LoneDroppedTaskHangs`).
- `accelerator.c` says above `main_acc` that tasks run as non-significant; the code follows the
  task's significance, and so does the model.
- The band of an approximate Jacobi task starts two blocks before its rows and ends two blocks after
  their first row, so it covers one block fewer on the right
  (`Jacobi.ApproximateIsMasked`).
- `fisheye.c` says that coordinates are clipped into the frame; outside it the code returns 0. It
  also says that the sixteen-pixel window stays in the extended frame. It does if and only if the
  pixel lies above the last row and not in the corner where the last column meets the row above it
  (`Bicubic.ReadsFitIff`, with failing inputs in `Bicubic.ReadsLeaveSmallFrames`). On the last column
  the window wraps around to the next row, with weight zero. The four-pixel form has no such limit.
- Jacobi: raising the diagonal makes the sweeps contract if and only if no diagonal entry was zero
  (`JacobiSolver.RaisedContracts`); where one was, in a row that was not all
  zeros, the error bound still holds, without shrinking.
- LDPC: the two tables undo each other only when every row of both lists ascends strictly; the code
  does not test this (`LdpcLayout.InverseIffAscending`, `LdpcLayout.DescendingRowBreaksInverse`).

## Model

| member | source | states |
|---|---|---|
| WorkQueue.Linearizable | queue.c:69-109 | for every interleaving of any number of pushers and poppers, calls and answers are those of a FIFO that serves each call in one step between its call and its answer |
| WorkQueue.RunSimulates | queue.c:69-109 | in every reachable state the linked list behind head is the FIFO's content and each thread's local pointers agree with its pending operation |
| WorkQueue.StepSimulates | queue.c:69-109 | one load or compare-and-swap corresponds to at most one FIFO action |
| WorkQueue.NextKeepsInv | queue.c:69-109 | every step keeps the list single, linked in order, with head in it and tail last or next to last |
| WorkQueue.TakenIsAPrefix | queue.c:69-109 | the values popped are exactly the first ones linked, in link order, none lost or repeated, and no element is linked twice |
| WorkQueue.FifoConserves | queue.c:69-109 | values in equal values out followed by the current content |
| WorkQueue.LinkedInOrder | queue.c:74-82 | the values enqueued are the payloads of the linked elements, in link order |
| WorkQueue.EmptyIsTrue | queue.c:93-99 | an empty answer is given only when the FIFO is empty at the read of next |
| WorkQueue.TailLagsByAtMostOne | queue.c:74-82 | at most one pusher is between its two swaps, tail then lags by one and otherwise by zero, the second swap cannot fail, and nobody follows a bad pointer |
| WorkQueue.LinkHitsTheTail | queue.c:76 | the first swap succeeds only on the last element, which tail then names |
| WorkQueue.SwingKeepsInv | queue.c:78 | the second swap always succeeds and brings tail up to date |
| WorkQueue.TakeKeepsInv | queue.c:101-104 | a successful swap of head moves it to the next element of the chain, whose data the popper then reads |
| WorkQueue.HeadCanPassTail | queue.c:69-109 | a run of eight steps after which head is the successor of tail |
| WorkQueue.SharedQueue.constructor | queue.c:25-44 | one dummy element, both ends on it |
| WorkQueue.SharedQueue.CasNext | queue.c:76 | the swap of next succeeds exactly on NULL and changes nothing else |
| WorkQueue.SharedQueue.CasTail | queue.c:78 | the swap of tail succeeds exactly on the expected element |
| WorkQueue.SharedQueue.CasHead | queue.c:101 | the swap of head succeeds exactly on the expected element |
| WorkQueue.SharedQueue.Advance | queue.c:69-109 | one instruction in place is one step of the model and keeps its invariant |
| Rendezvous.AlwaysInv | group.c:119-195 | at every instant of every schedule: mutual exclusion, each job owed or counted down once, bodies run once, no lost wake-up |
| Rendezvous.NextKeepsInv | group.c:119-195 | every step of wait_group or a worker keeps that invariant |
| Rendezvous.CounterIsExact | group.c:131-190 | executing_num equals queued plus in-flight tasks, up to the gap between push and increment, and is positive at every decrement |
| Rendezvous.ReturnsOnlyWhenDone | group.c:156-185 | when wait_group returns, every job has run exactly once with its selected body and been counted down exactly once, and the queues are empty |
| Rendezvous.NoLostWakeUp | group.c:172-190 | whenever wait_group sleeps on a zero counter, a worker inside the lock is about to signal |
| Rendezvous.StepsDescend | accelerator.c:36-72 | every step that changes the state lowers a measure over queued and in-flight jobs |
| Rendezvous.SomeoneMoves | group.c:131-195 | until wait_group returns, some thread can take a step that changes the state |
| Rendezvous.Eventually | group.c:131-195 | under a fair schedule a wait with at least one job returns |
| Rendezvous.ReturnsIffJobs | group.c:131-190 | under every fair schedule wait_group returns if and only if it enqueued a job |
| Rendezvous.Runtime.constructor | group.c:72-93 | nobody works for the group yet |
| Rendezvous.Runtime.AdvanceMain | group.c:119-172 | one instruction of wait_group in place is one step of the model and keeps its invariant |
| Rendezvous.Runtime.AdvanceWorker | accelerator.c:32-75 | one instruction of a worker in place is one step of the model, including the countdown of explicit_sync, and keeps its invariant |
| QueuedRendezvous.RunRefines | group.c:119-195 | every run of the protocol over the lock-free queues, one load or swap a step, looks like a run over atomic queues |
| QueuedRendezvous.NextSimulates | queue.c:69-109 | one instruction of it is one step of that run, or an idle turn |
| QueuedRendezvous.PusherTurn | queue.c:69-82 | a turn of wait_group inside a push adds its job to the queue once, by the swap that links it, and otherwise leaves the queue's content alone |
| QueuedRendezvous.PopperTurn | queue.c:85-109 | a turn of a worker inside a pop takes the oldest job once, by the swap of head, or finds the queue empty |
| QueuedRendezvous.TraceIsAlone | queue.c:69-109 | with one pusher and one popper what either has read of tail or head is still so when it swaps |
| QueuedRendezvous.TurnGoesAhead | queue.c:69-109 | so no swap fails, and at most eight of its own turns separate a thread from an effect on the queue |
| QueuedRendezvous.SeenIsFair | accelerator.c:32-54 | a fair schedule of the instructions is fair between effects |
| QueuedRendezvous.ReturnsOnlyWhenDone | group.c:156-185 | when wait_group returns every job has gone through its queue, run exactly once and been counted down exactly once |
| QueuedRendezvous.ReturnsIffJobs | group.c:131-190 | under every fair schedule of the single instructions wait_group returns if and only if it enqueued a job |
| QueuedRendezvous.GroupOverQueues | group.c:119-195 | from the pushes through selection and queues to the return: it comes, under every fair schedule, if and only if some task is significant, has an approximate body or may be promoted, and then each kept task has run once |
| Scheduler.Goal | group.c:122 | the goal is total times ratio, truncated |
| Scheduler.SelectionByRank | group.c:138-141 | a task strictly between 0 and 100 becomes significant exactly when fewer than goal such tasks come before it; others keep their significance |
| Scheduler.PromotesTheGoal | group.c:133-141 | exactly min(goal, count) of the adjustable tasks are promoted |
| Scheduler.NeverDemotesTheBetter | group.c:133-141 | no demoted task is more significant than a promoted one |
| Scheduler.VisitIsAStableSort | task.c:94-129 | for any push order, the visit lists every push once, by decreasing significance, equal ones in push order |
| Scheduler.VisitsEveryPush | task.c:94-129 | the buckets hold as many tasks as were pushed |
| Scheduler.PlanIsDealt | group.c:142-167 | the jobs are the tasks not dropped, in visiting order, dealt round robin starting at worker 1 |
| Scheduler.LoadsAreBalanced | group.c:150-156 | the loads of two workers differ by at most one |
| Scheduler.KeptAreRunnable | group.c:138-146 | an enqueued task is significant, or not significant with an approximate body |
| Scheduler.GroupRunsItsSelection | group.c:122-185 | from pushes to wake-up: each kept task has run once with the body its final significance selects, and nothing else has run |
| Scheduler.EnqueuesIffSomeRuns | group.c:133-168 | wait_group enqueues a job exactly when some task is significant, has an approximate body, or is adjustable while the goal is positive |
| Scheduler.WaitReturnsIffSomeRuns | group.c:119-190 | over the pushed tasks: under every fair schedule wait_group returns if and only if there is such a task |
| Scheduler.LoneDroppedTaskHangs | group.c:142-146 | after pushing one task of significance 0 without an approximate body the wait never returns, under any schedule |
| Scheduler.Group.constructor | group.c:79-89 | all buckets are empty |
| Scheduler.Group.Grow | task.c:98-103 | reallocation keeps the bucket and gives it 100 free slots |
| Scheduler.Group.Store | task.c:104-106 | the task is appended to its bucket and the other buckets stay |
| Scheduler.Group.Push | task.c:94-129 | after a push the buckets hold the pushes so far |
| Scheduler.Group.Decide | group.c:138-141 | the significance of one pending task is decided in place |
| Scheduler.Group.Account | group.c:158-166 | the counters of a group after one more enqueued task |
| Scheduler.Group.Visit | group.c:135-167 | the body of the inner loop: the next task is decided and, unless dropped, dealt to the next worker and counted |
| Scheduler.Group.DistributeBucket | group.c:135-167 | one bucket visited: jobs, final significances and counters are those of the specification |
| Scheduler.Group.Distribute | group.c:122-168 | jobs and final significances of the whole group, and exact counters |
| Lloyd.MeanMinimises | benchmarks/kmeans/kmeans.c:287-297 | of all positions the mean has the least sum of squared distances to a cluster's points |
| Lloyd.DistShare | benchmarks/kmeans/kmeans.c:145-158 | each coordinate has its own square in the distance |
| Lloyd.DistOfEqual | benchmarks/kmeans/kmeans.c:145-158 | a point is at no distance from itself |
| Lloyd.MoveOneCentre | benchmarks/kmeans/kmeans.c:287-297 | moving one centre changes the objective by the change in its own cluster |
| Lloyd.ReassignmentStep | benchmarks/kmeans/kmeans.c:205-219 | sending points to their nearest centres does not increase the objective |
| Lloyd.CentresStep | benchmarks/kmeans/kmeans.c:287-297 | moving centres to means, any number of them, does not increase the objective |
| Lloyd.RoundDescends | benchmarks/kmeans/kmeans.c:388-426 | one round does not increase the sum of squared distances |
| Lloyd.ObjectiveNeverIncreases | benchmarks/kmeans/kmeans.c:388-426 | over every run of rounds the sum of squared distances of the visited points to their centres never increases |
| Lloyd.QuietRoundIsFixedPoint | benchmarks/kmeans/kmeans.c:214-300 | a round that moves no point of populated, centred clusters changes nothing and leaves a fixed point |
| Lloyd.MembersFixCentres | benchmarks/kmeans/kmeans.c:287-297 | the centres of populated clusters follow from the membership |
| LloydProgress.RoundGoesDown | benchmarks/kmeans/kmeans.c:388-426 | a round that changes a membership lowers the objective, or keeps it and lowers the sum of the cluster numbers |
| LloydProgress.NoMembershipRecurs | benchmarks/kmeans/kmeans.c:388-426 | while every round moves some point, no membership comes back |
| LloydProgress.CodeTells | benchmarks/kmeans/kmeans.c:214 | memberships of the visited points are numbered without repetition |
| LloydProgress.BusyRunsAreShort | benchmarks/kmeans/kmeans.c:388-426 | a run in which every round moves some point has at most k^n rounds, for k clusters and n visited points |
| LloydProgress.LoopIsBounded | benchmarks/kmeans/kmeans.c:426 | with a threshold that is not negative the loop makes at most that many rounds before it ends, whatever its bound |
| PointLists.SwapOut | benchmarks/kmeans/kmeans.c:262-263 | overwriting a list entry by the last one drops exactly that entry |
| PointLists.SumOfList | benchmarks/kmeans/kmeans.c:238-245 | along a list without repetition, sum and length are those of its set of points |
| KMeans.Cluster.constructor | benchmarks/kmeans/kmeans.c:176-188 | a cluster starts empty at the given point |
| KMeans.Cluster.Accumulate | benchmarks/kmeans/kmeans.c:257-260 | one point is added to, or subtracted from, new_centers |
| KMeans.Cluster.SumJoiners | benchmarks/kmeans/kmeans.c:232-245 | new_centers is the sum of the points that joined |
| KMeans.Cluster.DropAt | benchmarks/kmeans/kmeans.c:257-264 | a moved point is replaced by the last older one and subtracted |
| KMeans.Cluster.DropMoved | benchmarks/kmeans/kmeans.c:249-270 | exactly the points that did not move remain, each once, and new_centers has lost the sum of the others |
| KMeans.Cluster.CopyDown | benchmarks/kmeans/kmeans.c:272-276 | the points that joined follow the remaining ones, in order |
| KMeans.Cluster.Balance | benchmarks/kmeans/kmeans.c:232-270 | new_centers is the sum of what joined less what left, and the moved points are dropped |
| KMeans.Cluster.CloseUp | benchmarks/kmeans/kmeans.c:272-281 | the remaining points are followed by those that joined; none are left exactly when all left and none joined |
| KMeans.Cluster.UpdateCentre | benchmarks/kmeans/kmeans.c:287-297 | the centre is the mean from its old weight and place and the change |
| KMeans.Cluster.Patch | benchmarks/kmeans/kmeans.c:282-286 | the memcpy of one float per coordinate copies the first half of the coordinates, tears the middle one of an odd number, and leaves the others |
| KMeans.PatchedIsCopied | benchmarks/kmeans/kmeans.c:282-286 | for every eight-byte representation of coordinates, the patched centre is what a copy of the first 4 * nfeatures bytes leaves, and nothing else is |
| KMeans.RepairedCoordinates | benchmarks/kmeans/kmeans.c:282-297 | the first half of a repaired centre's coordinates is the old count times the way from the old mean to feature[tid], the second half zero |
| KMeans.Cluster.Recentre | benchmarks/kmeans/kmeans.c:282-297 | the same after the repair branch, which counts one point for an empty cluster and starts from the patched centre |
| KMeans.Cluster.Regroup | benchmarks/kmeans/kmeans.c:232-281 | both halves of the point array and the change of the coordinate sums |
| KMeans.Cluster.Process | benchmarks/kmeans/kmeans.c:222-301 | one process_cluster task: point array, counters, delta, exactly when the repair branch is taken, and the new centre with and without it |
| KMeansRounds.RegionsListMembers | benchmarks/kmeans/kmeans.c:249-286 | a cluster takes the repair branch exactly when it has no member; otherwise its array lists its members once each |
| KMeansRounds.ShiftedIsMean | benchmarks/kmeans/kmeans.c:287-297 | a centre updated by differences is the mean recomputed over the members |
| KMeansRounds.RepairedFromMean | benchmarks/kmeans/kmeans.c:282-297 | the repair branch leaves the old count times the distance of the patched centre from the old mean |
| KMeansRounds.RepairedFromNothing | benchmarks/kmeans/kmeans.c:282-297 | a cluster that never had a point is repaired to the origin, wherever its first point is |
| KMeansRounds.ArrivalsAreChanges | benchmarks/kmeans/kmeans.c:246-300 | the joiners of all clusters are as many as the points that changed cluster |
| KMeansRounds.EqualCentresEmptyACluster | benchmarks/kmeans/kmeans.c:207-218 | of two equal centres the later one ends every round without members, for all points and numbers of tasks |
| KMeansRounds.EqualPairEmptiesACluster | benchmarks/kmeans/kmeans.c:349-398 | two equal points, two clusters and one task: both points are visited and the round leaves the second cluster empty |
| KMeansRounds.MembersIffAttracts | benchmarks/kmeans/kmeans.c:205-219 | a cluster has members after a round exactly when its centre was nearest to a visited point |
| KMeansRounds.WholeTasksFit | benchmarks/kmeans/kmeans.c:373 | the tasks cover all but fewer than ntasks points, and all of them if and only if ntasks divides npoints |
| KMeansRounds.EndedMeans | benchmarks/kmeans/kmeans.c:426 | at least one round; another one exactly while the bound is not reached and the last one moved more points than the threshold |
| KMeansRounds.QuietRoundInRun | benchmarks/kmeans/kmeans.c:388-426 | a round after the first with sum_delta zero leaves every visited point nearest to its own centre and every centre its mean |
| KMeansRounds.Clustering.EuclidDist2 | benchmarks/kmeans/kmeans.c:145-158 | the squared Euclidean distance |
| KMeansRounds.Clustering.FindNearestPoint | benchmarks/kmeans/kmeans.c:107-140 | the first nearest centre, or -1 exactly when all distances reach FLT_MAX |
| KMeansRounds.Clustering.AddPointToCluster | benchmarks/kmeans/kmeans.c:160-168 | the point is marked, gets its cluster, and is appended to the new region |
| KMeansRounds.Clustering.Join | benchmarks/kmeans/kmeans.c:214-218 | a point that changes cluster keeps all lists and marks in agreement, and there is room for it |
| KMeansRounds.Clustering.Visit | benchmarks/kmeans/kmeans.c:207-218 | one point ends at its nearest centre and no other membership changes |
| KMeansRounds.Clustering.ProcessPoint | benchmarks/kmeans/kmeans.c:195-220 | the points of one task go to their nearest centres, others stay |
| KMeansRounds.Clustering.Reassign | benchmarks/kmeans/kmeans.c:391-398 | after all tasks every visited point is at its nearest centre and the regions agree |
| KMeansRounds.Clustering.UpdateCluster | benchmarks/kmeans/kmeans.c:222-301 | one cluster ends listing its members around their mean, or repaired when it has none, and adds its joiners to sum_delta |
| KMeansRounds.Clustering.UpdateClusters | benchmarks/kmeans/kmeans.c:401-407 | the same for all clusters, without touching memberships or marks |
| KMeansRounds.Clustering.ClearCluster | benchmarks/kmeans/kmeans.c:327-331 | exactly the marks of the points that joined the cluster are cleared |
| KMeansRounds.Clustering.ClearMoveStatus | benchmarks/kmeans/kmeans.c:319-333 | every mark is cleared |
| KMeansRounds.Clustering.GroupedIffPopulated | benchmarks/kmeans/kmeans.c:282-286 | after a round the lists agree with the membership if and only if no cluster is empty |
| KMeansRounds.Clustering.EndRound | benchmarks/kmeans/kmeans.c:401-417 | the half of a round after the reassignment, from any state in which lists, marks and memberships agree |
| KMeansRounds.Clustering.OneRound | benchmarks/kmeans/kmeans.c:388-426 | one incremental round gives every centre exactly and sum_delta is the number of points that changed cluster; the lists agree with the membership, and the round is one of Lloyd's algorithm, if and only if every centre was nearest to some visited point when it began |
| KMeansRounds.Clustering.constructor | benchmarks/kmeans/kmeans.c:349-371 | no point has a cluster and the first points are the centres |
| KMeansRounds.Clustering.ClustersInit | benchmarks/kmeans/kmeans.c:170-192 | the cluster records are empty, separate, and centred on the first points |
| KMeansRounds.Clustering.KMeansClustering | benchmarks/kmeans/kmeans.c:388-426 | the loop makes a run of Lloyd rounds and ends settled at the first round that reaches the bound or moves no more points than the threshold; otherwise some point is beyond FLT_MAX from every centre, or some centre attracts no visited point and the lists are wrong |
| SlotReservation.NextKeepsInv | benchmarks/kmeans/kmeans.c:160-219 | every load, store or fetch-and-add of a point keeps the invariant of regions, slots and marks |
| SlotReservation.AlwaysInv | benchmarks/kmeans/kmeans.c:160-219 | the invariant holds after every interleaving |
| SlotReservation.ActingMoves | benchmarks/kmeans/kmeans.c:160-219 | a point that acts comes one action nearer to its end, whatever the others do, and the others stay |
| SlotReservation.DoneIffComplete | benchmarks/kmeans/kmeans.c:160-219 | the tasks are over exactly when every point has had its turns: one, or six when it joins a cluster |
| SlotReservation.SomeScheduleCompletes | benchmarks/kmeans/kmeans.c:160-219 | every round has such a schedule |
| SlotReservation.RoomForArrivals | benchmarks/kmeans/kmeans.c:166-167 | older points and reservations of a cluster never exceed npoints |
| SlotReservation.SlotsAreDistinct | benchmarks/kmeans/kmeans.c:166-167 | reserved slots lie behind the older points, inside the array, and no two points of a cluster share one |
| SlotReservation.EveryInterleavingGroups | benchmarks/kmeans/kmeans.c:160-219 | for every interleaving in which each point has had its turns, the new region holds exactly the points that joined the cluster, once each, behind the untouched older ones |
| SlotReservation.EveryInterleavingIsPending | benchmarks/kmeans/kmeans.c:160-219 | cluster records left by any such interleaving list their older points and their joiners, as after the sequential loop |
| SlotReservation.EndInterleavedRound | benchmarks/kmeans/kmeans.c:388-417 | so after every such interleaving of the point tasks the round ends as one of Lloyd's algorithm, under the same condition |
| Getopt.IndexOf | benchmarks/kmeans/getopt.c:869 | the first position of a character, or the length |
| Getopt.Decode | benchmarks/kmeans/getopt.c:865-1164 | a decoded character consumes an element exactly when nothing of it is left, and never reaches past the end |
| Getopt.ShapeDeclares | benchmarks/kmeans/getopt.c:1109-1115 | a string of some characters, c, none to two colons and the rest declares c as an option without, with a required, or with an optional argument |
| Getopt.DecodesOption | benchmarks/kmeans/getopt.c:865-1164 | by the shape of the option string: a flag, a required argument attached or in the next element, a missing one ('?', or ':' if the option string starts with it), an optional one given or left out, an unknown character or a colon; and how many elements each takes |
| Getopt.ScanSplits | benchmarks/kmeans/getopt.c:546-621 | the one-pass scan splits the arguments into two ascending lists that miss none |
| Getopt.ScanFindsNone | benchmarks/kmeans/getopt.c:567-591 | a scan finds no option exactly when no option element stands before the first double dash |
| Getopt.SwapBlocks | benchmarks/kmeans/getopt.c:346-369 | the inner loops swap two equally long blocks |
| Getopt.BottomInPlace | benchmarks/kmeans/getopt.c:339-355 | swapping the short bottom block with the far end leaves a smaller rotation with the same result |
| Getopt.TopInPlace | benchmarks/kmeans/getopt.c:356-372 | the same for a short top block |
| Getopt.Parser.Exchange | benchmarks/kmeans/getopt.c:301-379 | argv is the original with the two blocks swapped, each in its order, nothing else touched, and the indices bracket the moved block; it terminates |
| Getopt.ExchangeMoves | benchmarks/kmeans/getopt.c:559-563 | that rotation moves the later options before all other arguments scanned |
| Getopt.Parser.constructor | benchmarks/kmeans/getopt.c:524-532 | the static state before the first call |
| Getopt.Parser.Initialize | benchmarks/kmeans/getopt.c:526-532 | static state for a scan that starts at optind, or at element 1 when it is 0 |
| Getopt.Parser.Resume | benchmarks/kmeans/getopt.c:549-552 | the indices are brought back behind an optind that the caller has moved back, and a scan goes on or begins there |
| Getopt.Parser.Settle | benchmarks/kmeans/getopt.c:557-565 | options just scanned stand before the other arguments |
| Getopt.Parser.Skip | benchmarks/kmeans/getopt.c:567-572 | arguments that are no options are passed over |
| Getopt.Parser.StopAtDashes | benchmarks/kmeans/getopt.c:580-591 | after a double dash everything is an argument, and the dash counts as an option element |
| Getopt.Parser.NextElement | benchmarks/kmeans/getopt.c:546-621 | the next option element is found, or the scan is complete and argv permuted |
| Getopt.Parser.ShortOption | benchmarks/kmeans/getopt.c:865-1164 | the character, optarg, optind and nextchar are those of the one-pass decoding, including unknown characters and missing arguments, which are also the ones left in optopt |
| Getopt.Parser.TakeOption | benchmarks/kmeans/getopt.c:865-1164 | one more option of the scan is returned, argv stays laid out |
| Getopt.Parser.Step | benchmarks/kmeans/getopt.c:535-1166 | the same for a call with the static state initialized |
| Getopt.Parser.Next | benchmarks/kmeans/getopt.c:508-1166 | one call returns the next option of the scan, or -1 with argv permuted and optind at the first other argument; a call after -1, or after the caller has set optind, scans argv as it then is from there |
| Getopt.Parser.CalledAgain | benchmarks/kmeans/getopt.c:549-602 | after -1 a further call scans the other arguments, and finds an option exactly when one of them looks like one before any double dash |
| Getopt.ScanKeepsElements | benchmarks/kmeans/getopt.c:546-621 | option elements and other arguments together are all arguments, none lost or repeated |
| Getopt.PermutedIsStable | benchmarks/kmeans/getopt.c:546-621 | the permuted command line is a permutation with options first and both groups in original order |
| Getopt.ParseAll | benchmarks/kmeans/kmeans.c:511-532 | calling until -1 returns exactly the options of a one-pass scan of the original command line and leaves argv stably partitioned, optind at the first other argument |
| CommandLines.LineReads | benchmarks/kmeans/getopt.c:546-1164 | a command line written out from words, flags, options with their arguments, and a double dash or an option that lacks its argument at the end, is read back as exactly those |
| CommandLines.EveryLineIsWritten | benchmarks/kmeans/getopt.c:546-1164 | every command line can be written so, under every option string |
| CommandLines.LineIsParsed | benchmarks/kmeans/kmeans.c:511-532 | the options returned are those meant, and argv becomes the program name, the option elements and the words, each in order |
| JacobiBound.SumsDiffer | benchmarks/jacobi/jacobi.c:253-267 | a band sum differs from the full sum of the solution by at most m times the off-diagonal magnitudes |
| JacobiBound.RowError | benchmarks/jacobi/jacobi.c:269-273 | in a system that contracts by q a new value is off by at most q * m when its band is off by at most m and the ignored solution entries are at most m |
| JacobiBound.SweepBound | benchmarks/jacobi/jacobi.c:214-274 | whichever blocks ran approximately, the error after a sweep is at most the larger of the error before and the magnitude of the solution |
| JacobiBound.ExactSweepBound | benchmarks/jacobi/jacobi.c:111-158 | an all-exact sweep does not increase the error |
| JacobiBound.ErrorNeverExceeds | benchmarks/jacobi/jacobi.c:304-360 | over every run and every choice of approximate blocks the error stays within the larger of the initial error and the magnitude of the solution |
| JacobiBound.ExactRunsDescend | benchmarks/jacobi/jacobi.c:304-360 | once all blocks run exactly the error of a dominant system never increases again |
| JacobiBound.SweepContracts | benchmarks/jacobi/jacobi.c:214-274 | when every row's magnitudes are at most q times its diagonal, a mixed sweep leaves an error of at most q times the larger of the error before and the magnitude of the solution |
| JacobiBound.ExactSweepContracts | benchmarks/jacobi/jacobi.c:111-158 | an exact sweep multiplies the error by at most q |
| JacobiBound.MixedRunContracts | benchmarks/jacobi/jacobi.c:304-360 | after k sweeps, whichever blocks were approximate, the error is at most the larger of q^k times the initial one and q times the magnitude of the solution |
| JacobiBound.ExactRunContracts | benchmarks/jacobi/jacobi.c:304-360 | from the first sweep after which all blocks run exactly the error falls by a factor q each time |
| Jacobi.AddColumn | benchmarks/jacobi/jacobi.c:143-149 | the innermost loop adds one column to the sums, skipping the diagonal |
| Jacobi.AddTiles | benchmarks/jacobi/jacobi.c:137-151 | the tiled loops give the sums over the columns from lo to hi |
| Jacobi.StoreRows | benchmarks/jacobi/jacobi.c:153-157 | exactly the task's rows get their new values, for any matrix whose diagonal has no zero |
| Jacobi.JacobiTask | benchmarks/jacobi/jacobi.c:111-158 | the rows of the task hold the dense Jacobi formula, the others stay |
| Jacobi.JacobiTaskApprox | benchmarks/jacobi/jacobi.c:214-274 | the rows of the task hold the formula over the clipped band, the others stay |
| Jacobi.ApproximateIsMasked | benchmarks/jacobi/jacobi.c:235-273 | an approximate row is the exact one for the vector with zeros in the columns more than two blocks before, or more than one behind, the row's own block |
| Jacobi.BandedRowIsExact | benchmarks/jacobi/jacobi.c:235-273 | a row without entries in those columns is computed exactly |
| Jacobi.IgnoredDoNotMatter | benchmarks/jacobi/jacobi.c:235-273 | the entries of the vector in those columns do not affect the approximate value |
| Jacobi.EntryMattersIff | benchmarks/jacobi/jacobi.c:235-273 | changing an entry with a coefficient changes the row if and only if the row is exact or the column is not one of those |
| Jacobi.PushBlocks | benchmarks/jacobi/jacobi.c:306-324 | the tasks start at all blocks, from the given one round to it |
| Jacobi.EveryRowInOneTask | benchmarks/jacobi/jacobi.c:308-315 | from whatever block the pushes start, every row belongs to exactly one task |
| Jacobi.Sweep | benchmarks/jacobi/jacobi.c:306-326 | in whatever order the tasks run, x1 is the swept vector for the chosen bodies |
| JacobiSolver.CopyBack | benchmarks/jacobi/jacobi.c:351-358 | x becomes x1 and dif the relative error, which a missed zero of the solution makes infinite |
| JacobiSolver.ConstructRight | benchmarks/jacobi/jacobi.c:51-66 | the given solution solves the system |
| JacobiSolver.MakeDominant | benchmarks/jacobi/jacobi.c:96-104 | the diagonal is raised by the row's magnitudes and nothing else changes |
| JacobiSolver.RaisedIsDominant | benchmarks/jacobi/jacobi.c:96-104 | the raised matrix is dominant with a positive diagonal exactly when no row was all zeros |
| JacobiSolver.RaisedContracts | benchmarks/jacobi/jacobi.c:96-104 | the raised matrix contracts by some factor below one if and only if no diagonal entry was zero |
| JacobiSolver.RelativeErrorIsLargest | benchmarks/jacobi/jacobi.c:351-358 | dif is infinite exactly when a zero of the solution is missed, and otherwise the largest relative error over the other entries |
| JacobiSolver.StartSolvesDiagonal | benchmarks/jacobi/jacobi.c:288-291 | every start value times its diagonal entry is one |
| JacobiSolver.SettlesIff | benchmarks/jacobi/jacobi.c:343-347 | approximation stops exactly when two relative errors differ by less than the tolerance or nine tenths of the iterations are over |
| JacobiSolver.Solve | benchmarks/jacobi/jacobi.c:278-364 | for any matrix whose diagonal has no zero the solver makes such a run, approximates until the first iteration whose relative error hardly changed or that passes nine tenths of the total, and returns whether the relative error exceeds the tolerance; where the matrix is dominant, or contracts, the error bounds of those runs hold of the result |
| Bicubic.WeightsReproducePowers | benchmarks/fisheye/fisheye.c:552-566 | the weights sum to one and reproduce the first and second powers |
| Bicubic.WeightsAreCubicConvolution | benchmarks/fisheye/fisheye.c:552-566 | the weights are the cubic convolution kernel with parameter -1/2 at the distances of the four neighbours |
| Bicubic.LineReproduces | benchmarks/fisheye/fisheye.c:552-570 | one line reproduces every quadratic |
| Bicubic.ReproducesQuadratics | benchmarks/fisheye/fisheye.c:547-572 | the sixteen-pixel form reproduces every polynomial of degree at most two in each variable |
| Bicubic.OuterWeights | benchmarks/fisheye/fisheye.c:563-566 | outer weights are not positive and the approximate form adds them to the inner ones |
| Bicubic.ApproxWeights | benchmarks/fisheye/fisheye.c:622-626 | the approximate weights are not negative and sum to one |
| Bicubic.ApproxIsConvex | benchmarks/fisheye/fisheye.c:622-631 | the four-pixel value lies between the least and the greatest of its pixels |
| Bicubic.LineRange | benchmarks/fisheye/fisheye.c:552-570 | a line's value leaves the byte range by at most 255 times the outer weight |
| Bicubic.LineDiffers | benchmarks/fisheye/fisheye.c:622-629 | dropping the outer pixels of a line changes its value by at most 255 times their weight |
| Bicubic.FormsDiffer | benchmarks/fisheye/fisheye.c:547-631 | for all offsets and pixels the two forms differ by at most 255 * 9 / 32 before clipping |
| Bicubic.BoundIsMet | benchmarks/fisheye/fisheye.c:547-631 | an input at which they differ by exactly that much |
| Bicubic.OffsetIsNeighbour | benchmarks/fisheye/fisheye.c:528-545 | for every pixel of the frame the computed byte offsets are those of the sixteen neighbours, counting pixels row after row |
| Bicubic.LastColumnWraps | benchmarks/fisheye/fisheye.c:528-545 | to the right of the last column the offset is that of the first pixel of the next row |
| Bicubic.ReadsFitIff | benchmarks/fisheye/fisheye.c:518-545 | the sixteen reads of a pixel stay in the extended frame if and only if it lies above the last row and not in the last column of the row above that |
| Bicubic.ReadsLeaveSmallFrames | benchmarks/fisheye/fisheye.c:518-545 | two frames with an accepted coordinate and a read beyond their end |
| Bicubic.WindowHoldsPixels | benchmarks/fisheye/fisheye.c:530-545 | c[1 + dr][1 + dc] is the pixel dr rows below and dc columns to the right, for all sixteen |
| Bicubic.CornersHoldPixels | benchmarks/fisheye/fisheye.c:612-615 | the same for the four pixels of the approximate form, which are in the frame for every pixel |
| Bicubic.Clip | benchmarks/fisheye/fisheye.c:70-77 | the result is the closest value in range, so the lower bound below it, the upper one above it, and the argument itself when that is in range |
| Bicubic.BytesDiffer | benchmarks/fisheye/fisheye.c:497-635 | wherever the sixteen reads stay in the frame, and outside it, the returned bytes of the two forms differ by at most 72 |
| Bicubic.ApproxByteIsBetween | benchmarks/fisheye/fisheye.c:580-635 | at every coordinate in the frame the approximate byte lies between the least and the greatest of the frame's four pixels around it |
| Bicubic.LevelRows | benchmarks/fisheye/fisheye.c:612-631 | where the two rows around the coordinates are level, the approximate byte is the blend of their values over the distance down, whatever the one across |
| Bicubic.LevelColumns | benchmarks/fisheye/fisheye.c:612-631 | the same for two level columns and the distance across |
| Bicubic.ReproducesQuadraticFrames | benchmarks/fisheye/fisheye.c:497-575 | where the frame holds a polynomial of degree at most two across and down, the exact byte is its value at the coordinates, cut off and clipped |
| Bicubic.LastColumnIgnoresTheWrap | benchmarks/fisheye/fisheye.c:528-572 | on the last column the exact byte is that of the frame's four pixels above each other, whatever the window reads from the next row |
| Bicubic.PixelsAreKept | benchmarks/fisheye/fisheye.c:497-635 | on every pixel of the frame the approximate form returns that pixel, and so does the exact one wherever its reads stay in the frame |
| LdpcLayout.NumberEdges | benchmarks/LDPC/main.c:214-221 | the counting loops write stable ranks, and k reaches the number of edges exactly when all entries are in range |
| LdpcLayout.RankTableSorts | benchmarks/LDPC/main.c:214-237 | a completed table is a permutation that sorts the entries and keeps equal ones in order |
| LdpcLayout.ReadAlist | benchmarks/LDPC/main.c:173-237 | both tables are ready exactly for consistent edge counts and entries in range; the error returns otherwise |
| LdpcLayout.AscendingIsSorted | benchmarks/LDPC/main.c:203-207 | strictly ascending rows are the same as a strictly sorted edge list |
| LdpcLayout.TableIsPlace | benchmarks/LDPC/main.c:214-237 | a table gives the place of each edge among the other half's edges |
| LdpcLayout.PlaceIsInRow | benchmarks/LDPC/main.c:214-237 | sorted or not, that place is in the edge's own row of the other half |
| LdpcLayout.InverseIffAscending | benchmarks/LDPC/main.c:214-237 | for a regular code the tables undo each other if and only if both halves list strictly ascending rows |
| LdpcLayout.DescendingRowBreaksInverse | benchmarks/LDPC/main.c:214-237 | a code with one descending row whose generated tables do not undo each other |

## Left out

- Thread creation and pinning, timing, energy counters, signals and shutdown (`coordinator.c`): system calls; workers are steps that always may happen, and the `running` flag stays set.
- Failed allocations, freeing of queues and tasks, and `queue_destroy`.
- Spurious wake-ups and a second wait on the same group: the source has no loop around its wait and does not reset `pending_num`.
- `list.c` pools, group lookup by name, and the pool of tasks pushed without a group: easy members.
- `dependencies.c`: not part of the program that is built.
- `Rendezvous`: more than 2^32 - 1 jobs in one group, whose count would wrap.
- `Scheduler`: significances above 100 and negative ratios; rounding of the single-precision ratio.
- `Scheduler.Group` holds tasks by value where `group.c` holds pointers; the same descriptor pushed twice would be decided once in the source and is decided twice here.
- `Scheduler.Group.Distribute` returns the jobs in push order; that each push reaches the worker's queue is in `QueuedRendezvous`.
- KMeansRounds.Clustering.KMeansClustering: ends with an outcome of its own once a cluster has become empty, where the source goes on; its point array then starts with -1 or with a point of another cluster, and the next round may index `moved` by it.
- `membership_prev`, `prev_center`, `delta` of a cluster and the radius functions of k-means: written, never read by the clustering.
- `Clustering.ProcessPoint` runs the point tasks one after the other; their interleavings are in `SlotReservation`, point by point, up to the same end of the round.
- Getopt: long options, `-W`, the other orderings, POSIXLY_CORRECT, and error messages.
- Getopt.Parser.Next: not for an `optind` that the caller has put beyond the end of argv, where the source reads past it, or moved while characters of an element are left.
- Jacobi: the superblock variant, random matrix entries, and sizes that are no multiple of 190; the source asserts the last.
- Jacobi: zeros on the diagonal, by which the sweeps would divide; a zero entry of the solution gives an infinite relative error or a NaN that the comparison ignores.
- Bicubic.BicubicInterpolation: has no value where its reads leave the extended frame, because the source reads other memory there.
- Bicubic: how the border of the extended frame is filled (`xtd_current_frame`), and the fisheye mapping.
- LDPC: file reading, irregular codes, and the decoder kernels.
- Floating-point rounding everywhere; blackscholes, nbody, DCT and `fast_approx.h`: transcendental functions and bit tricks.
