# Verified model of the traffic-violation backend

A Dafny model of the part of the backend that decides: how detections become tracks, how people are
put on motorcycles, how observations become violations over time, how a job is leased to workers, and
how violation events survive retries.  Everything that is claimed below is proved for all inputs, all
histories and all interleavings of steps.  `dafny verify dfyconfig.toml` checks the whole project.

Floating-point numbers are modelled as reals.  Library calls are function values about which only a
defining property is known: the assignment solver returns a cheapest full assignment (`Solves`), the
pseudo-inverse inverts a positive diagonal matrix (`InvertsDiagonal`), and `hypot` is non-negative and
squares to the sum of squares (`IsNorm`).

## The parts

**Association.** `Assignment.dfy` is the theory of padded cost matrices: forbidden pairs get one large
cost, and what is kept of a cheapest full assignment is a largest matching of allowed pairs, cheapest
among the largest, as long as the smaller side at the worst allowed cost stays below the padding; where
the allowed pairs are those of equal groups, it is so for any size.  `MultiObjectTracker.dfy` (module
`Tracking`) instantiates it for tracks and detections and proves what happens to every track and
detection in every run; `AssociationLimit.dfy` shows, on frames the tracker can receive, that its bound
is exact.  `KalmanFilter.dfy` proves that the eight-dimensional filter is four independent
two-dimensional ones in every reachable state.  `RiderMotorcycle.dfy` (module `Riders`) expands
motorcycles into slots; `TemporalRider.dfy` confirms relationships over time; `HelmetRider.dfy` matches
helmets greedily.  `Sorting.dfy` is the stable sort in which results are reported.

**Time.** The four violation detectors of the program (lane, wrong way, no helmet, triple riding) repeat
one automaton per key.  `Hysteresis.dfy` states it once, as the generic object `Detector`, and proves it
equal to a specification over the whole history of a key.  `LaneViolation.dfy`, `WrongWay.dfy`,
`NoHelmet.dfy` and `TripleRiding.dfy` supply what each of them observes and remembers.
`TrafficLight.dfy` does the same for the stable colour of a signal, `RedLight.dfy` and `StopLines.dfy`
for crossings of stop lines, `LaneOccupancy.dfy` and `Geometry.dfy` for positions and distances.

**Jobs and events.** `JobLease.dfy` is the job table with one transaction per method.  `JobProtocol.dfy`
is the system of all workers, with crashes, lost replies, expired leases, ingestion and deletion.
`EventStore.dfy` holds the merges of transitions into durable events, and `EventKeys.dfy` the keys.
`JobLog.dfy` joins the detectors to the store: whatever they observe, everything a job persists under
one key is one episode.  `VideoWorker.dfy` is the frame loop of one attempt, which can break off at any
item of any frame; however many attempts break off, after a complete one the table of events is that of
a single run (`VideoWorker.AttemptsLeaveNoTrace`).  `JobSystem.dfy` puts workers, job table and event
table into one system, in which a superseded worker can go on writing events next to its successor.

## Findings

Some expected properties hold only under conditions, and each condition is proved.

* The association of the tracker is a largest one, and a cheapest among the largest, for all frames with
  n tracks or detections on the smaller side, if and only if the threshold is zero or n times
  1 - threshold stays below the invalid cost of one million (`AssociationLimit.BoundIsExact`).  Beyond
  that, two frames with a row of equal boxes, the second one place further back, make it give up a pair
  (`AssociationLimit.SecondFrameLosesPair`).
* Writing events is not covered by the ownership check, so writes of a superseded worker can mix with
  those of its successor.  In every reachable state, and for any interleaving of any attempts, the table
  is that of a single run if and only if, under every key, the last write is the last transition of the
  episode (`JobSystem.TableExactly`, `EventStore.MixedAttemptsExactly`).  After a success it changes
  exactly when a superseded worker writes a transition that is not the last of its episode
  (`JobSystem.AfterSuccess`), and `JobSystem.LateStartRun` is a run in which that happens.
* An attempt that nothing disturbs completes if and only if the video has frames and the progress interval
  is not zero; with an interval of zero it always breaks off at the first frame, once that frame is stored
  (`VideoWorker.CompletesExactly`), and no attempt ever completes (`VideoWorker.ZeroIntervalNeverCompletes`).
* An ended event is never reopened, except for lane violations, where the latest transition decides
  (`EventStore.EndedNeverReopened`).
* Under a minimum speed of zero some scores divide by zero: the motion score exactly for a pair with a
  standing track (`Riders.MotionUndefinedExactly`), the whole score exactly when both tracks stand, or
  when one stands and the pair passes the geometric gates (`Riders.ScoreUndefinedExactly`), the wrong-way
  score exactly for a standing vehicle (`WrongWay.UndefinedExactly`).
* The greedy helmet choice is worth at least half of any other (`HelmetRider.AssociationsAtLeastHalf`), and
  there is a frame of two riders and two helmets on which it is worth no more (`HelmetRider.HalfIsTight`).

## Model

| member | source | states |
|---|---|---|
| Assignment.PaddingGivesLargestAndCheapest | backend/app/tracking/multi_object.py:320-379 | what stays below the padding cost in a cheapest full assignment is a largest matching of allowed pairs and a cheapest one among the largest |
| Assignment.PaddingTooSmall | backend/app/tracking/multi_object.py:349-379 | of matrices only: in every size from the bound on there are matrices and optimal assignments that lose a pair |
| Assignment.StaircaseLosesPair | backend/app/tracking/multi_object.py:349-379 | on every staircase matrix that reaches the bound an optimal assignment gives up a pair that could be made |
| Assignment.GroupsNeedNoBound | backend/app/tracking/multi_object.py:320-379 | where exactly the pairs of equal groups are allowed, what is kept is largest and cheapest for any size |
| Assignment.OptimalExists | backend/app/tracking/multi_object.py:349-349 | what is asked of the solver can be met on every matrix |
| Boxes.IouRange | backend/app/tracking/geometry.py:7-50 | IoU lies in the unit interval, is symmetric, and is one only for boxes of equal area |
| Boxes.OverlapWithin | backend/app/tracking/geometry.py:33-43 | the overlap is no larger than either box |
| KalmanFilter.BoundingBoxKalmanFilter.constructor | backend/app/tracking/kalman.py:20-83 | starts at the box with standing velocities and the initial variances |
| KalmanFilter.BoundingBoxKalmanFilter.Predict | backend/app/tracking/kalman.py:85-123 | the new state and covariance are those of the specification of a prediction |
| KalmanFilter.BoundingBoxKalmanFilter.Update | backend/app/tracking/kalman.py:125-159 | the new state and covariance are those of the specification of an update |
| KalmanFilter.BoundingBoxKalmanFilter.EnforceValidSize | backend/app/tracking/kalman.py:210-219 | width and height are raised to one, nothing else changes |
| KalmanFilter.PredictDecouples | backend/app/tracking/kalman.py:85-123 | predicting the eight-dimensional filter is predicting four independent position-velocity filters |
| KalmanFilter.UpdateDecouples | backend/app/tracking/kalman.py:125-159 | so is updating it |
| KalmanFilter.PredictionKeepsDefinite | backend/app/tracking/kalman.py:85-123 | a prediction keeps each block positive definite |
| KalmanFilter.CorrectionKeepsDefinite | backend/app/tracking/kalman.py:125-159 | an update keeps each block positive definite, brings the position variance below the measurement noise and its old value, and never raises the velocity variance |
| KalmanFilter.CentreMovesInside | backend/app/tracking/kalman.py:125-159 | the centre lands strictly between prediction and measurement when the two differ |
| KalmanFilter.ReachableStates | backend/app/tracking/kalman.py:85-219 | every reachable state is four definite filters side by side, with width and height at least one, and position variance below the noise after an update |
| KalmanFilter.ReachableCovariance | backend/app/tracking/kalman.py:53-159 | every reachable covariance is symmetric, block-decoupled, with positive definite blocks |
| KalmanFilter.InverseExists | backend/app/tracking/kalman.py:125-159 | what is asked of the pseudo-inverse can be met |
| Tracking.AssociationIsBest | backend/app/tracking/multi_object.py:296-395 | for threshold zero, and otherwise as long as the smaller side times 1 - threshold stays below the invalid cost, the matches are a largest eligible matching and one of least total 1 - IoU |
| AssociationLimit.BoundIsExact | backend/app/tracking/multi_object.py:296-395 | for every size and threshold that holds of all frames if and only if the size is within this bound |
| AssociationLimit.SecondFrameLosesPair | backend/app/tracking/multi_object.py:146-254 | beyond the bound, two concrete frames given to an empty tracker, with its own filter, and an optimal solver, after which the matches of the second frame are not a best matching |
| AssociationLimit.IouInRow | backend/app/tracking/geometry.py:7-50 | in a row of equal boxes the IoU is one for a box with itself, exactly the given ratio for neighbours, and less for all others |
| Tracking.MatchesEligible | backend/app/tracking/multi_object.py:356-379 | for any number, matches are one to one, of one class, and at or above the threshold |
| Tracking.OthersComplete | backend/app/tracking/multi_object.py:381-389 | the unmatched indexes are exactly those missing from the matches, once each and in order |
| Tracking.OneFate | backend/app/tracking/multi_object.py:175-226 | in a frame every track is taken by exactly one high detection, or exactly one low one, or goes unseen |
| Tracking.DetectionsUsedOnce | backend/app/tracking/multi_object.py:175-226 | no detection updates two tracks |
| Tracking.NewbornsUnclaimed | backend/app/tracking/multi_object.py:228-234 | a track is born exactly from each high detection that no track claimed |
| Tracking.FateDecides | backend/app/tracking/multi_object.py:175-226 | the fate of a track decides its value after the frame |
| Tracking.StepSound | backend/app/tracking/multi_object.py:146-254 | one frame keeps ids ordered and unused ones fresh, hits at most age, misses within the limit, and confirmation equal to enough hits |
| Tracking.RunSound | backend/app/tracking/multi_object.py:142-293 | the same in every reachable state, and the next id is one plus live plus ever-dropped tracks |
| Tracking.Lineage | backend/app/tracking/multi_object.py:146-293 | over any later part of a run a track with an old id continues the track that had it: same class, confirmation kept, ids never reused |
| Tracking.Track.constructor | backend/app/tracking/multi_object.py:262-282 | a new track with one hit, confirmed at once only if one hit is enough |
| Tracking.Track.Predict | backend/app/tracking/multi_object.py:41-54 | moves the filter by at least a millisecond and ages the track |
| Tracking.Track.Update | backend/app/tracking/multi_object.py:56-65 | takes the detection over, counts a hit and forgets the misses |
| Tracking.MultiObjectTracker.Associate | backend/app/tracking/multi_object.py:296-395 | returns the matches of the specification and the indexes left on both sides |
| Tracking.MultiObjectTracker.CostMatrix | backend/app/tracking/multi_object.py:320-347 | entries are 1 - IoU for eligible pairs and the invalid cost elsewhere |
| Tracking.MultiObjectTracker.RefreshMatched | backend/app/tracking/multi_object.py:185-215 | every matched track takes its own detection, no other track changes |
| Tracking.MultiObjectTracker.AgeLost | backend/app/tracking/multi_object.py:217-226 | the test by ids marks exactly the tracks that neither association matched |
| Tracking.MultiObjectTracker.DropStale | backend/app/tracking/multi_object.py:236-242 | exactly the tracks missed too often are dropped and reported |
| Tracking.MultiObjectTracker.Update | backend/app/tracking/multi_object.py:146-254 | the objects after a frame have the values of the specified step, the tracker stays valid, and the visible tracks are those seen in this frame |
| Riders.ScoreIsMean | backend/app/reasoning/rider_motorcycle.py:222-310 | the score is the weighted mean of its five features, so limiting it never takes effect |
| Riders.ScoreInRange | backend/app/reasoning/rider_motorcycle.py:284-295 | accepted scores lie between the minimum and one |
| Riders.MotionUndefinedExactly | backend/app/reasoning/rider_motorcycle.py:499-555 | the motion score divides by zero exactly for a standing track under a minimum speed of zero |
| Riders.ScoreUndefinedExactly | backend/app/reasoning/rider_motorcycle.py:222-310 | scoring a pair divides by zero exactly under a minimum speed of zero when both tracks stand, or one stands and the pair passes the gates |
| Riders.CandidatesComplete | backend/app/reasoning/rider_motorcycle.py:172-190 | the pairs with a candidate are exactly those whose score was accepted |
| Riders.SeatingRespects | backend/app/reasoning/rider_motorcycle.py:312-407 | for any sizes, each person gets at most one motorcycle and no motorcycle more than its capacity |
| Riders.SeatingLargest | backend/app/reasoning/rider_motorcycle.py:312-407 | no capacity-respecting seating of candidates has more people, and none as large costs less, within the bound |
| Riders.SlotsFilledFromFirst | backend/app/reasoning/rider_motorcycle.py:328-368 | below a taken slot of a motorcycle every slot is taken |
| Riders.AssociationsAreSeats | backend/app/reasoning/rider_motorcycle.py:134-220 | a frame chooses one association per seat, each an accepted candidate, one motorcycle per person and within capacity |
| Riders.ReportedWithinCapacity | backend/app/reasoning/rider_motorcycle.py:134-220 | what a frame reports is in that order, holds exactly the chosen associations, and no motorcycle more than its capacity |
| Sorting.SortedKeeps | backend/app/reasoning/rider_motorcycle.py:208-219 | sorting keeps the elements with their multiplicities and puts them in order |
| Riders.MotorcycleSlots | backend/app/reasoning/rider_motorcycle.py:328-337 | the slot list is the one of the specification |
| Riders.CostMatrix | backend/app/reasoning/rider_motorcycle.py:339-368 | entries are 1 - score plus the slot penalty for candidates and the invalid cost elsewhere |
| Riders.SolveAssignment | backend/app/reasoning/rider_motorcycle.py:312-407 | the associations are the candidates at the seats of the specification |
| Riders.Associate | backend/app/reasoning/rider_motorcycle.py:134-220 | fails exactly on an undefined score, else returns the specified associations sorted by motorcycle, falling score and person, and the people left over in order |
| TemporalRider.StepExclusive | backend/app/reasoning/temporal_rider.py:142-239 | whatever a frame reports, afterwards nobody has two confirmed motorcycles |
| TemporalRider.RunSound | backend/app/reasoning/temporal_rider.py:142-248 | the same in every reachable state, with counters that agree with each other |
| TemporalRider.StepAt | backend/app/reasoning/temporal_rider.py:161-235 | a pair follows its own history exactly unless the frame confirms another pair of the same person; of several confirmed at once the first one mentioned stays |
| TemporalRider.ConfirmationIsSteady | backend/app/reasoning/temporal_rider.py:202-209 | a relationship is confirmed only after that many frames in a row |
| TemporalRider.SmoothedWithin | backend/app/reasoning/temporal_rider.py:191-194 | smoothed scores stay in the range of the reported ones |
| TemporalRider.Smoother.Update | backend/app/reasoning/temporal_rider.py:142-248 | the new states are those of the specified step, and the removed pairs are exactly those no longer there |
| TripleRiding.NobodyCountedTwice | backend/app/reasoning/triple_riding.py:338-368 | in one frame nobody is counted on two motorcycles or twice on one |
| TripleRiding.GroupWithinFrame | backend/app/reasoning/triple_riding.py:180-206 | a group is no larger than what this very frame assigned to the motorcycle |
| TripleRiding.RiderCountsBounded | backend/app/reasoning/triple_riding.py:165-330 | for all frames of tracks, through the rider assignment, the smoother and the detector: minimum <= riders <= peak <= the capacity of the assignment |
| TripleRiding.TripleRidingDetector.Group | backend/app/reasoning/triple_riding.py:338-368 | groups are the confirmed riders observed in this frame, by motorcycle |
| TripleRiding.TripleRidingDetector.Update | backend/app/reasoning/triple_riding.py:165-296 | the detector changes by the common rule on the groups that are large enough |
| HelmetRider.GreedyOneToOne | backend/app/reasoning/helmet_rider.py:245-271 | each person and each detection is assigned at most once |
| HelmetRider.GreedyDominates | backend/app/reasoning/helmet_rider.py:236-271 | every candidate is chosen or conflicts with a chosen one of at least its score |
| HelmetRider.GreedyAtLeastHalf | backend/app/reasoning/helmet_rider.py:236-271 | no one-to-one choice of candidates scores more than twice the greedy one |
| HelmetRider.HalfIsTight | backend/app/reasoning/helmet_rider.py:236-271 | the factor two cannot be improved: a frame of two riders and two helmets on which another choice is worth twice the greedy one |
| HelmetRider.SortedKeeps | backend/app/reasoning/helmet_rider.py:236-243 | the order is by score, confidence, person and detection, over the same candidates |
| HelmetRider.AssociationsAtLeastHalf | backend/app/reasoning/helmet_rider.py:203-271 | all of this for the candidates of a frame |
| HelmetRider.Associate | backend/app/reasoning/helmet_rider.py:138-289 | returns the greedy choice sorted by motorcycle and person, and exactly the supported detections it leaves over, in order |
| Hysteresis.EntrySummarises | backend/app/reasoning/lane_violation.py:236-307 | the entry of a key is there, counts and is confirmed exactly as its history says |
| Hysteresis.TransitionsExactly | backend/app/reasoning/lane_violation.py:236-307 | a violation starts exactly at the end of the confirmation-th candidate frame in a row while inactive and ends exactly at the (tolerance + 1)-th miss in a row while active |
| Hysteresis.StreakIsWindow | backend/app/reasoning/wrong_way.py:276-341 | a streak is a window of candidate frames |
| Hysteresis.TransitionsAlternate | backend/app/reasoning/wrong_way.py:276-365 | starts and ends alternate, each end naming the frame its start was confirmed at |
| Hysteresis.FlushBalances | backend/app/reasoning/lane_violation.py:317-349 | after the flush every start has its end |
| Hysteresis.TransitionFramesIncrease | backend/app/reasoning/no_helmet.py:197-293 | the transitions of one key are reported at increasing frames |
| Hysteresis.FirstCandidateStartsRun | backend/app/reasoning/lane_violation.py:399-409 | where gaps restart, the first candidate frame reported is the first of the frames in a row that confirmed |
| Hysteresis.FirstIsEpisodeStart | backend/app/reasoning/triple_riding.py:208-247 | where they do not, it is the first candidate frame after the last gap that was too long |
| Hysteresis.KeyRunsAlone | backend/app/reasoning/wrong_way.py:235-374 | in every run state and transitions of a key depend on its own observations alone |
| Hysteresis.DataKept | backend/app/reasoning/no_helmet.py:197-266 | what every observation establishes and keeps holds of the data always |
| Hysteresis.Detector.Update | backend/app/reasoning/lane_violation.py:206-315 | one frame changes every key by the rule for one key, and bad arguments change nothing |
| Hysteresis.Detector.Flush | backend/app/reasoning/triple_riding.py:298-330 | ends exactly what is confirmed and forgets everything |
| NoHelmet.SmoothedWithin | backend/app/reasoning/no_helmet.py:225-238 | smoothed confidence and score stay in the range of the observed ones |
| NoHelmet.NoHelmetDetector.Update | backend/app/reasoning/no_helmet.py:169-302 | only no-helmet associations count, the last one for each person |
| LaneViolation.ReportedFromFirstFrame | backend/app/reasoning/lane_violation.py:264-280 | a lane violation is reported from the first of the frames that confirmed it, with the latest observation |
| LaneViolation.DataIsLatest | backend/app/reasoning/lane_violation.py:390-434 | what is reported of a vehicle is its latest candidate observation |
| LaneViolation.LaneViolationDetector.Update | backend/app/reasoning/lane_violation.py:206-315 | the detector changes by the common rule on the candidates of the occupancy analysis |
| WrongWay.OpposingExactly | backend/app/reasoning/wrong_way.py:458-504 | a moving vehicle opposes its lane exactly when the scalar product is low enough, and the limits on the scores never take effect |
| WrongWay.UndefinedExactly | backend/app/reasoning/wrong_way.py:464-480 | the division fails exactly for a standing vehicle under a minimum speed of zero |
| WrongWay.OppositionIsPeak | backend/app/reasoning/wrong_way.py:303-323 | the reported opposition is the largest observed since the candidate began |
| WrongWay.WrongWayDetector.Update | backend/app/reasoning/wrong_way.py:235-374 | the detector changes by the common rule on the opposing vehicles |
| TrafficLight.StableIsDecided | backend/app/reasoning/traffic_light_temporal.py:269-403 | the stable colour is that of the latest decisive window: enough of one colour in a row, or unknown for too long |
| TrafficLight.DecidedUniquely | backend/app/reasoning/traffic_light_temporal.py:269-403 | there is only one such colour |
| TrafficLight.ChangesExactly | backend/app/reasoning/traffic_light_temporal.py:331-391 | a change is reported exactly when the colour changes, from the old to the new one, counting exactly the frames needed |
| TrafficLight.ChangesChain | backend/app/reasoning/traffic_light_temporal.py:331-391 | the changes of a region form a chain from unknown to the stable colour |
| TrafficLight.ConfidencesInUnit | backend/app/reasoning/traffic_light_temporal.py:393-403 | confidences stay in the unit interval |
| TrafficLight.RegionsRunAlone | backend/app/reasoning/traffic_light_temporal.py:196-262 | in every run a region follows its own history |
| TrafficLight.Stabilizer.ApplyColor | backend/app/reasoning/traffic_light_temporal.py:301-350 | a colour confirms the stable state, extends the candidate or replaces it |
| TrafficLight.Stabilizer.ApplyUnknown | backend/app/reasoning/traffic_light_temporal.py:352-391 | unknown clears the candidate and, when too long, the stable state |
| TrafficLight.Stabilizer.Update | backend/app/reasoning/traffic_light_temporal.py:196-262 | one frame applies every observation in order and an unknown to every other region |
| Geometry.InsideIsOdd | backend/app/scene/geometry.py:121-158 | inside means that an odd number of edges is crossed |
| Geometry.RotationKeepsInside | backend/app/scene/geometry.py:121-158 | starting the vertex list elsewhere does not matter |
| Geometry.ReversalKeepsInside | backend/app/scene/geometry.py:121-158 | nor does its direction |
| Geometry.ChordCuts | backend/app/scene/geometry.py:121-158 | cutting along a chord, a point is inside the whole exactly when it is inside one part and not the other |
| Geometry.CrossesEdge | backend/app/scene/geometry.py:140-154 | one edge; the branch that guards the division is never reached |
| Geometry.PointInPolygon | backend/app/scene/geometry.py:121-158 | the loop computes the parity of the crossed edges |
| Geometry.ProjectionNearest | backend/app/scene/geometry.py:176-215 | no point of a segment is nearer than the clamped projection |
| Geometry.EdgeDistanceNearest | backend/app/scene/geometry.py:218-247 | no point of any edge is nearer than the reported distance, and some point is that near |
| Geometry.PointToPolygonEdgeDistance | backend/app/scene/geometry.py:218-247 | the loop computes the least distance over all edges, and refuses fewer than three points |
| LaneOccupancy.CandidateExactly | backend/app/reasoning/lane_occupancy.py:150-231 | a vehicle is a candidate exactly when it is in the zone, inside no lane, farther than the tolerance from every point of every edge of every lane, and fast enough |
| LaneOccupancy.NearestIsLeast | backend/app/reasoning/lane_occupancy.py:291-335 | the reported lane is one at the least distance |
| LaneOccupancy.FindNearestLane | backend/app/reasoning/lane_occupancy.py:291-335 | the loop finds the first lane at the least distance |
| LaneOccupancy.FindContainingLane | backend/app/reasoning/lane_occupancy.py:274-288 | the loop finds the first lane that contains the anchor |
| LaneOccupancy.Analyze | backend/app/reasoning/lane_occupancy.py:109-148 | one observation per eligible track, none without an enabled scene, an error for a bad image |
| StopLines.CrossingParameters | backend/app/reasoning/red_light.py:429-450 | for a movement from before to behind the line the moving parameter is -prev / (cur - prev), in (0, 1] |
| StopLines.IntersectionReduces | backend/app/reasoning/red_light.py:713-757 | the intersection test comes down to the crossing point lying on the stop line up to the tolerance, once length times depth passes the parallel check |
| StopLines.DeepCrossingNotParallel | backend/app/reasoning/red_light.py:441-442 | a crossing of the demanded depth passes that check on every line that is long enough |
| StopLines.SamePoint | backend/app/reasoning/red_light.py:744-750 | both parameters name the same point |
| StopLines.SwapKeepsIntersection | backend/app/reasoning/red_light.py:713-757 | swapping the end points of the stop line never changes the verdict |
| StopLines.SwapKeepsDistance | backend/app/reasoning/red_light.py:597-662 | it flips the legal sign and the signed distance together |
| StopLines.LegalTravelIncreases | backend/app/reasoning/red_light.py:597-662 | moving along the lane's direction strictly increases the signed distance |
| RedLight.CrossingMeetsLine | backend/app/reasoning/red_light.py:407-450 | an evaluated crossing leads from the remembered pixel to the present one over the line, in the legal direction and deep enough, and this very movement meets the line's segment up to the tolerance; it starts inside the lane |
| RedLight.RunCrossingsLead | backend/app/reasoning/red_light.py:224-400 | in every run over one scene everything reported is such a movement of the track it names, from its anchor in the round of the previous frame to its anchor in the later round reported, over the stop line it names |
| RedLight.SwapChangesNothing | backend/app/reasoning/red_light.py:286-393 | drawing the stop line from its other end changes neither memory nor reports |
| RedLight.FrameReportsOnce | backend/app/reasoning/red_light.py:274-400 | a track is reported at a stop line at most once for as long as it is remembered |
| RedLight.RunNoneTwice | backend/app/reasoning/red_light.py:224-400 | in a whole run no track is reported twice at the same stop line and frame |
| RedLight.RedLightDetector.Update | backend/app/reasoning/red_light.py:224-400 | one frame visits every eligible track at every line in order, then expires; without a scene everything is forgotten |
| RedLight.RedLightDetector.ExpireMissing | backend/app/reasoning/red_light.py:533-543 | exactly the pairs missing too long are forgotten |
| JobLease.ProcessingJobRepository.RecoverExpired | backend/app/repositories/processing_job.py:86-150 | each expired row is requeued or failed, with its video |
| JobLease.ProcessingJobRepository.ClaimNext | backend/app/repositories/processing_job.py:152-208 | the row is claimed for the worker with a fresh lease and one more attempt |
| JobLease.ProcessingJobRepository.UpdateProgress | backend/app/repositories/processing_job.py:210-250 | progress is stored and the lease extended only if the worker owns the running row |
| JobLease.ProcessingJobRepository.MarkSucceeded | backend/app/repositories/processing_job.py:252-290 | an owned row and its video are completed, otherwise nothing changes |
| JobLease.ProcessingJobRepository.MarkFailedOrRetry | backend/app/repositories/processing_job.py:292-338 | an owned row is requeued or failed with its video, otherwise nothing changes |
| JobLease.ProcessingJobRepository.OwnedRunning | backend/app/repositories/processing_job.py:340-367 | the check compares worker and status only |
| JobProtocol.StepSound | backend/app/workers/video_worker.py:64-177 | every step of every process keeps rows, videos, leases and workers in agreement, and every busy owner in the row's attempt |
| JobProtocol.ReachableSound | backend/app/repositories/processing_job.py:86-367 | the same in every reachable state: status and video agree, a lease exactly while running, completion exactly when terminal, progress 100 exactly on success, queued rows scrubbed with attempts left |
| JobProtocol.SupersededWritesNothing | backend/app/repositories/processing_job.py:340-367 | a worker in a superseded attempt changes neither job nor video although the check ignores the attempt, and one that is not superseded is never turned away |
| JobProtocol.ClaimsBounded | backend/app/repositories/processing_job.py:164-194 | in every run a job is claimed at most the maximum number of times |
| JobProtocol.RowAfter | backend/app/repositories/processing_job.py:86-338 | terminal rows never change, attempts grow only by claims, and deleted jobs never return |
| JobProtocol.StepsMakeProgress | backend/app/repositories/processing_job.py:86-338 | every step leaves a row alone or lowers attempts left, status rank and frames left lexicographically |
| JobProtocol.NeverStuck | backend/app/repositories/processing_job.py:98-108 | a queued job can be claimed, and a running one recovered once its lease is over |
| JobProtocol.InactiveStays | backend/app/services/video.py:61-74 | once no job of a video is active that stays so under every step |
| JobProtocol.InactiveForever | backend/app/services/video.py:61-74 | and for the rest of every run |
| EventStore.EpisodeSettles | backend/app/services/violation_event_lifecycle.py:532-867 | persisting start and end again, in any order, moves between two rows only |
| EventStore.RowByLast | backend/app/services/violation_event_lifecycle.py:177-189 | the row depends only on whether the end was ever persisted and which transition came last |
| EventStore.RetriedEpisodeSame | backend/app/services/violation_event_lifecycle.py:120-193 | a retried episode equals an uninterrupted one exactly when its end was persisted last |
| EventStore.LateStartLeavesTrace | backend/app/workers/video_worker.py:450-516 | a start persisted by a stalled attempt after a complete one is visible, and these writes are an interleaving of the two attempts |
| EventStore.EndedNeverReopened | backend/app/services/violation_event_lifecycle.py:743-767 | an ended event stays ended in three families; a lane event is alive again exactly when a start came last |
| EventStore.KeysAlone | backend/app/services/violation_event_lifecycle.py:120-191 | an event depends on the transitions of its own key alone |
| EventStore.RetriesLeaveNoTrace | backend/app/services/violation_event_lifecycle.py:92-451 | any number of interrupted attempts followed by a complete one leave the same events as the complete one alone |
| EventStore.MixedWritesExactly | backend/app/workers/video_worker.py:450-516 | writes that start every key with its first transition leave the table of a single run if and only if under every key the last write was the last transition of its episode |
| EventStore.MixedAttemptsExactly | backend/app/workers/video_worker.py:450-516 | the same for every interleaving of any number of attempts, each cut off anywhere |
| EventStore.LateWriteExactly | backend/app/workers/video_worker.py:450-516 | a stalled attempt that writes one more item after a complete one leaves the table alone exactly when that item is the last of its episode |
| EventStore.DecisionsSurvive | backend/app/services/violation_event.py:77-104 | an event is the one its transitions leave, under the last human decision, whatever the order |
| EventStore.RetriesKeepDecisions | backend/app/services/lane_violation_lifecycle.py:43-161 | both together, over all interleavings of retries and reviews |
| EventStore.ViolationEventStore.PersistTransitions | backend/app/services/red_light_lifecycle.py:62-136 | one event per transition is created or updated, in order |
| EventStore.ViolationEventStore.ReviewViolation | backend/app/services/violation_event.py:77-104 | records the decision on a known event and nothing else |
| EventStore.ViolationEventStore.AttachPreviewToAll | backend/app/services/violation_event_lifecycle.py:453-481 | every event gets the preview and keeps the rest, and the number returned is that of the events changed |
| EventStore.ViolationEventStore.AttachImagesToAll | backend/app/services/violation_event_lifecycle.py:1037-1089 | every event gets the image nearest to its frame and keeps the rest, and the number returned is that of the events changed |
| EventStore.Nearest | backend/app/services/violation_event_lifecycle.py:1075-1078 | no image is nearer to the frame than the chosen one |
| EventKeys.KeysDiffer | backend/app/services/violation_event_lifecycle.py:484-529 | no two episodes share a key, within a job, across jobs or across the five families |
| EventKeys.JoinInjective | backend/app/services/lane_violation_lifecycle.py:164-175 | joined parts without the separator can be told apart again |
| EventKeys.IdentifierPlain | backend/app/schemas/camera_scene.py:119-123 | configured identifiers cannot contain the separator |
| EventKeys.EpisodesHaveOwnKeys | backend/app/services/violation_event_lifecycle.py:491-498 | in a flushed run two transitions of one detector key get the same event key exactly when they start and end the same episode |
| JobLog.LogOfKey | backend/app/workers/video_worker.py:450-516 | in everything a job persists, a key sees the transitions of its own family only, in their order |
| JobLog.ItemsOfEpisode | backend/app/services/violation_event_lifecycle.py:484-529 | the items under one event key are those of one detector key that name one frame |
| JobLog.DetectorEpisodic | backend/app/services/violation_event_lifecycle.py:484-529 | in a flushed run of a detector everything under one event key is one start with its end |
| JobLog.RedLightEpisodic | backend/app/services/red_light_lifecycle.py:139-152 | every reported crossing on red has a key of its own |
| JobLog.JobEpisodic | backend/app/workers/video_worker.py:318-423 | everything a job persists under one key, over all five families, is one episode |
| JobLog.JobRetriesLeaveNoTrace | backend/app/workers/video_worker.py:318-423 | from the frames to the table: interrupted attempts and a complete one leave the events of the complete one |
| VideoWorker.PersistedIsPrefix | backend/app/workers/video_worker.py:318-423 | what an attempt persists is a prefix of what the job has to persist, and all of it once the preview is attached |
| VideoWorker.ReportsExactly | backend/app/workers/video_worker.py:361-380 | progress is reported on exactly the frames that are due, in order, between 0 and 99 percent |
| VideoWorker.LeaseExtended | backend/app/workers/video_worker.py:361-380 | the lease is extended at least once in any interval of frames |
| VideoWorker.CompletesExactly | backend/app/workers/video_worker.py:361-383 | an undisturbed attempt completes if and only if there are frames and the interval is not zero; with an interval of zero its fate is an exception in the first frame, all of it stored |
| VideoWorker.ZeroIntervalNeverCompletes | backend/app/workers/video_worker.py:361-383 | whatever happens, no attempt with an interval of zero gets beyond the first frame |
| VideoWorker.CallsFollowProtocol | backend/app/workers/video_worker.py:318-448 | the transactions of an attempt are enabled steps of the job protocol, with at most one final one, at the end |
| VideoWorker.SuccessMeansStored | backend/app/workers/video_worker.py:385-434 | success is declared only after everything was stored and preview and images were attached |
| VideoWorker.AttemptsLeaveNoTrace | backend/app/workers/video_worker.py:133-448 | however many attempts were broken off, by exceptions at any item of any frame or by a lost lease, one complete attempt leaves the table of a single run |
| VideoWorker.VideoProcessingWorker.PersistViolationTransitions | backend/app/workers/video_worker.py:450-516 | stores the items in order |
| VideoWorker.VideoProcessingWorker.ProcessFrame | backend/app/workers/video_worker.py:318-380 | how the work on one frame ends, what it stores and what it reports |
| VideoWorker.VideoProcessingWorker.Finish | backend/app/workers/video_worker.py:382-434 | no frames are an error; else the last items, the preview, the images and the success, in this order |
| VideoWorker.VideoProcessingWorker.DecodeAndProcess | backend/app/workers/video_worker.py:250-448 | the loop ends with the fate of the specification and has stored exactly its prefix |
| VideoWorker.VideoProcessingWorker.ProcessJob | backend/app/workers/video_worker.py:133-177 | an exception is recorded as a failure, a lost lease is not |
| JobSystem.ReachableSound | backend/app/workers/video_worker.py:318-516 | in every reachable state of workers, job table and event table the writes for a job are an interleaving of prefixes, one per attempt, and a successful job has a complete one among them |
| JobSystem.TableExactly | backend/app/workers/video_worker.py:450-516 | in every reachable state the table is that of a single run if and only if under every key the last write was the last transition of its episode |
| JobSystem.SuccessHasEvents | backend/app/workers/video_worker.py:385-434 | a successful job has an event under every key it had to write, whatever else was written |
| JobSystem.LastAttemptAlone | backend/app/workers/video_worker.py:318-423 | whatever was written before, an attempt that runs to its end alone leaves the table of a single run |
| JobSystem.AfterSuccess | backend/app/workers/video_worker.py:450-516 | after a success only superseded workers write; the table stays that of a single run exactly unless one of them writes a transition that is not the last of its episode |
| JobSystem.LateStartRun | backend/app/repositories/processing_job.py:86-367 | a run of two workers in which the job succeeds with the table of a single run and a superseded start then changes it |

## Left out

- Rounding of floating-point numbers: all arithmetic is exact; not-a-number scores are the value `Undefined`.
- Order among simultaneous reports: dictionaries are iterated in some order, so the relative order of transitions of different keys in one frame is not modelled.
- Tracking.Track: holds the filter's state and covariance and a function value for the motion instead of a filter object; `KalmanFilter.KalmanMotion` is that function value for the filter of the program.
- JobLease.ProcessingJobRepository.ClaimNext: receives the row that the queue query returned, because priority order is not guaranteed while other rows are locked.
- JobLease.ProcessingJobRepository.RecoverExpired: receives the rows that the query returned, in its order.
- TrafficLight.Stabilizer: keeps region states as values in its map, and names regions by numbers, since only their equality matters.
- EventStore.Merge: metadata is a record of the keys the program writes; the status text of red-light events is its life field, and a red-light change carries no confirmed frame and no duration.
- EventStore.Geometry: the contents of an event's geometry are only boxes and an anchor, since merging overwrites it as a whole.
- The table of all overlaps of a frame (`build_iou_matrix`), which nothing calls.
- Evidence images: how a frame number is read from the name of an image is not modelled; images come with their frames.
- Riders.SeatingLargest: its bound on the sizes is sufficient, but not shown to be necessary.
- VideoWorker.VideoProcessingWorker: whether ownership checks pass and where exceptions strike are inputs of an attempt; the job row itself is in `JobLease` and `JobProtocol`, whose steps also make up the polling loop.
- JobLog.FromDetector: how boxes and confidences of an item are built from the frame is left open, beyond not being negative; the deterministic pipeline finds the same items in every attempt.
- Graceful shutdown inside the frame loop, which flushes and finishes early.
- Frame decoding, neural networks, pixel classification, annotation, artifact files, logging and metrics.
- SQL sessions, row locks and migrations: each repository method is one atomic step.
- Authentication, user and camera management, pagination and the frontend.
