# Scrap yard simulator: models and proofs

This project models the deterministic cores of the scrap yard simulation server and its visualizer in Dafny, and proves
what they are built to guarantee. `dafny verify dfyconfig.toml` checks all of it. There is one module per component;
values and pure arithmetic are datatypes and functions, and whatever the program updates in place is a class whose
methods are proved against those functions. The main results, by component:

* **Exact decimal time** (`Binary64`, `DecimalRatio`, `DoubleTimes`). Ratios of big integers are rounded once to binary64.
  The result is the nearest double with ties to even (IEEE 754-2019, section 4.3.1), it overflows exactly as section 7.4
  says, it is monotone, and it depends only on the value of the ratio. The first 2^52 multiples of an interval are
  different doubles, and computed sample times stay in their rotations. Doubles are bit patterns here, not `real`.
* **Height field** (`Sums`, `WaterFilling`, `Surface`, `SlopeRelaxation`, `RelaxationPass`, `Roughness`, `HeightField`).
  The water-filling solver moves exactly the requested volume; slope relaxation keeps volume, limits and a maximum
  principle over any number of passes, and each pass is what its pairs ask and its nodes allow; roughness is one
  volume-neutral bump.
* **Grid** (`Clipping`, `Tiling`, `Convexity`, `Triangulation`, `EarClipping`, `Windings`, `Simplification`,
  `MomentsOfArea`, `VolumeWeights`, `WeightPlacement`, `Neighbors`, `GridAssembly`). Clipping, tiling and ear clipping
  conserve area, the triangles cover every point as often as the boundary winds round it, the corner weights are the
  exact integrals of the bilinear shape functions, and the node weights of a boundary are not negative, add up to its
  area and are each the sum over the cells round the node.
* **Fill and collect machine** (`Randomness`, `RateProfile`, `RateProfileCreation`, `Scenario`, `ScenarioVolume`,
  `ScenarioRuns`, `ScenarioEvents`, `UpdateSchedule`, `Simulator`). Over every run the volume follows the integrated
  rate profile, phases end on target, the volume errors are unreachable, advancing in parts is the same as advancing at once, and a decimal
  update interval never holds a run up. What one event does - when, at which inlet, with which drawn plan, to which
  surface - is stated clause by clause.
* **Scene protocol** (`SceneState`, `ScenePublisher`, `SceneReceiver`, `SceneProtocol`, `Framing`). A lossy, latest-only
  publisher and a receiver that serves one connection and turns others away, as interleaved steps: segments arrive in
  order, every record and every missing number is accounted for, and nothing of a connection turned away is read.
* **Camera** (`CameraWorker`, `CameraPipeline`, `SyntheticCamera`). A latest-only pipeline with a child process: nothing
  stale is published, and every image goes out with its own frame.
* **Sampling** (`Rotation`, `Quality`, `Dropout`). Rotations partition the samples, qualities are drawn in proportion,
  and dropout does not depend on how points are batched.
* **Histories and the two-sensor runtime** (`Snapshots`, `Spatial`, `VoidCoverage`, `Coverage`, `Coordinator`,
  `CoordinatorRuns`, `CoordinatorBatches`, `Measuring`, `CoordinatorHistory`, `GenerationRuntime`). Pruned histories
  answer every later lookup as histories that never forget would, and each sample is measured against the surface in
  force at its own time. `Next` is the step of the runtime; the same step with `bounded` set
  to false is the reference that keeps everything.
* **S2E stream** (`S2e`, `Crc`, `Commands`). Capsules and the held tail are exactly the samples pushed, the checksum
  detects every four-byte burst, and the command parser is the exact inverse of framing.

Five things the proofs brought out about the code, where a reader might expect otherwise:

* The spatial history can be cut only at a time it has reached (`spatial.rs:388-396`), but the runtime cuts it at the
  next pending sample (`runtime/generation.rs:312-317`). When the sample rate is not a whole multiple of the rotation
  rate that sample may lie later. `BatchFailsWhenLate` says when one batch fails, and `RatesDecide` which rates n/d let
  a runtime with distortions go on: exactly those with (d - gcd(n, d)) <= 1e-12 * sample rate * d.
  `ThreeHalvesStopTheRuntime` is a concrete case. Within the tolerance the history may also forget an event that has not
  ended yet; `NextTogether` says exactly when that matters, and it never does for whole-number ratios.
* A void that starts at the very end of its interval would be accepted, and then spoil every later scan
  (`VoidAtTheEndIsSpoilt`). The generator never draws one (`CoverMeans`).
* The triangulation does not check that its last triangle turns left. If it did not, the node weights would represent too
  much area before they are normalised (`WeightsRepresentArea`).
* A fill within 1e-12 of the capacity is completed (`height_field.rs:566`), so volumes there are exact only up to 1e-12.
* A keyframe that `publish` refuses has already used up its sequence number (`scene_stream.rs:604-611`); the receiver
  counts it as missing.

Random generators are arbitrary streams of words with a read position. Lengths, times and volumes are reals, except for
the bit patterns of `Binary64`, `DecimalRatio` and `DoubleTimes`. A batch's scenario transitions are those of its events whose transition is due.

## Model

| member | source | states |
|---|---|---|
| `CoordinatorHistory.EveryRunFromTheStart` | services/simulation-server/src/runtime/generation.rs:125-157 | From a new runtime, without distortions or with whole-number sample-to-rotation ratios, any number of batches is exactly what histories that never forget would give; completion times rise strictly; the runtime is stopped only by tolerated scenario errors, refused or failed event draws, number ranges and limits, never by a failed lookup, resolution (retained events are validated again there) or discard |
| `CoordinatorHistory.EveryRun` | services/simulation-server/src/runtime/generation.rs:202-329 | The same for any paired state: the pruned batches are a prefix of the full ones, equal as long as the pruned run lasts, and the pair stays paired |
| `CoordinatorHistory.RatesDecide` | services/simulation-server/src/runtime/generation.rs:202-329 | From a new runtime with distortions whose sensors share the rates n/d, for any number of batches: if (d - gcd(n, d)) <= 1e-12 * sample rate * d no run fails to cut the spatial history; otherwise every run has failed after d - 1 batches. Runs not stopped by a possible error last exactly when the rates fit |
| `CoordinatorHistory.RunInStep` | services/simulation-server/src/runtime/generation.rs:202-329 | A run of sensors in step gets past no rotation whose first sample is late; it ends with a possible error or because of such a rotation |
| `CoordinatorHistory.EveryQuietRun` | services/simulation-server/src/runtime/generation.rs:202-329 | For any rates: as long as no spatial event ends between a completion and the next pending sample, the batches are those of the twin, until a possible error or a late sample |
| `CoordinatorBatches.NextTogether` | services/simulation-server/src/runtime/generation.rs:202-329 | One batch for any rates: same batch as the unpruned twin, later next completion, earliest pending sample never moves back; the two stay equivalent if and only if no spatial event ends after the completion and by the next pending sample; a failure is the twin's failure, the retained-event limit, or a late next sample |
| `CoordinatorBatches.BatchFailsWhenLate` | services/simulation-server/src/runtime/generation.rs:312-317 | Unless a possible error stops the batch first, it succeeds if and only if distortions are off or the first sample pending after it - known from rates and schedules alone - is at most 1e-12 after the completion; otherwise the discard fails |
| `CoordinatorBatches.NextGoes` | services/simulation-server/src/runtime/generation.rs:202-329 | One batch of any runtime on its own: histories reach back far enough for everything pending, so it goes on, or one of the possible errors stops it, or the next sample is late |
| `CoordinatorBatches.MeasuringSucceeds` | services/simulation-server/src/runtime/generation.rs:449-470 | A completed scan is always measured: every lookup is answered and resolving finds no invalid event |
| `CoordinatorBatches.ForgottenReaches` | services/simulation-server/src/runtime/generation.rs:312-317 | Forgetting keeps a steady runtime whose histories reach back to the next sample, or fails exactly for a late time |
| `CoordinatorBatches.PunctualStaysPaired` | services/simulation-server/src/runtime/generation.rs:202-329 | With distortions off or whole-number ratios no discard ever fails and the pairing is kept |
| `CoordinatorHistory.ThreeHalvesStopTheRuntime` | services/simulation-server/src/runtime/generation.rs:312-317 | Concrete failure: 3 Hz samples, 2 Hz rotation, distortions on - the first batch always fails, since the next sample (2/3 s) lies past the completion (1/2 s) |
| `Coverage.FirstSamplesWithin` | services/simulation-server/src/measurement/rotation.rs:251-308 | For all rates: every rotation's first sample is within a tolerance of the rotation's start if and only if (d - gcd(n, d)) <= tolerance * sample rate * d, for the exact ratio n/d |
| `Coverage.WidestGap` | services/simulation-server/src/measurement/rotation.rs:251-308 | The widest gap between a rotation's start and its first sample, (d - gcd(n, d)) units, occurs before the d-th rotation and not at the start unless it is 0 |
| `Coverage.WholeNumberHasNoGap` | services/simulation-server/src/measurement/rotation.rs:251-308 | If d divides n, every rotation's first sample is taken at the rotation's start |
| `Coverage.ThreeHalvesLeaveAGap` | services/simulation-server/src/measurement/rotation.rs:251-308 | For 3 Hz and 2 Hz the second rotation starts at 1/2 s and its first sample is at 2/3 s |
| `CoordinatorBatches.WholeNumberIsOnTime` | services/simulation-server/src/runtime/generation.rs:264-274 | After a rotation with a whole number of samples the next pending sample is at the completion itself |
| `CoordinatorBatches.LookupsTogether` | services/simulation-server/src/measurement/snapshots.rs:61-76 | Every sample of a pending scan is looked up successfully on the pruned history, with the full history's surface |
| `CoordinatorBatches.MeasureTogether` | services/simulation-server/src/runtime/generation.rs:449-470 | A completed scan is measured without error, to the distances the full histories give |
| `Measuring.BatchIsMeasured` | services/simulation-server/src/runtime/generation.rs:202-329 | A batch holds, in sensor order, the pending scans that complete first. Every sample is measured against the surface in force at its own time in the complete history - the entry that has started while the next one has not - and its distance is the ray's, or what material and holes of the complete spatial history make of it |
| `Measuring.ScanIsMeasured` | services/simulation-server/src/measurement/reference.rs:494-552 | The same for one scan and any history that rises in time; and every sample time has a surface in force |
| `Measuring.TurnMeans` | services/simulation-server/src/runtime/generation.rs:343-380 | A turn goes to the next surface event or the end of the batch, whichever is first; distortions move first, with the scenario as it stood; the scenario runs there, and each of its events adds one entry to the surface history |
| `Measuring.IntervalDistorts` | services/simulation-server/src/measurement/spatial.rs:495-576 | What an interval does to the spatial history: covered voids, or all while collecting, close at its start; falling material and rounds of voids join it in a fill, occlusions in a collection; the interval must continue the history inside the active phase, and at most 100000 events are retained |
| `Measuring.BatchIsRecorded` | services/simulation-server/src/runtime/generation.rs:369-379 | Over a batch the surface history gains exactly one entry for each event: its time and the surface it left |
| `Measuring.ForgettingDropsEnded` | services/simulation-server/src/runtime/generation.rs:312-317 | Forgetting drops exactly the surfaces replaced by the given time and the spatial events ended by then |
| `Measuring.BatchForgets` | services/simulation-server/src/runtime/generation.rs:311-317 | After a batch the runtime forgets up to the earliest sample still pending |
| `CoordinatorBatches.ForgottenTogether` | services/simulation-server/src/runtime/generation.rs:312-317 | Discarding fails exactly for a late time; what is discarded is never missed if and only if no spatial event ends between the time reached and that of the discard |
| `CoordinatorRuns.SpatialTogether` | services/simulation-server/src/measurement/spatial.rs:495-576 | Pruned and full spatial histories close the same open voids, lead to the same new events, and accept or reject them alike |
| `CoordinatorRuns.NewEventsTogether` | services/simulation-server/src/measurement/spatial.rs:543-576 | The same live voids lead to the same new events, generators and errors, although the search for open voids walks over all retained ones |
| `CoordinatorRuns.SpatialStays` | services/simulation-server/src/measurement/spatial.rs:495-576 | The timeline moves on with valid events, all voids started before the time reached; a void cursor that does not advance and invalid retained events are unreachable |
| `CoordinatorRuns.AdvanceAllStays` | services/simulation-server/src/runtime/generation.rs:331-386 | All turns of a batch end at its completion with histories in step, or with one of the possible errors |
| `VoidCoverage.CoverTogether` | services/simulation-server/src/measurement/spatial.rs:825-917 | Void coverage gives the same new voids, generator and errors for two histories that agree on the voids still alive |
| `VoidCoverage.OpenSeesLive` | services/simulation-server/src/measurement/spatial.rs:844-851 | The filter for open voids passes over everything that has ended |
| `VoidCoverage.CursorMoves` | services/simulation-server/src/measurement/spatial.rs:844-857 | The next end of an open void lies after the cursor and leaves fewer voids to end, so the loop ends and its no-progress error cannot occur |
| `VoidCoverage.CoverMeans` | services/simulation-server/src/measurement/spatial.rs:825-858 | Every new void is valid and starts inside the interval, before its end |
| `VoidCoverage.FillMeans` | services/simulation-server/src/measurement/spatial.rs:860-917 | Filling at one time keeps earlier voids and adds valid ones that start then; each attempt that finds no place counts towards the limit of 8 |
| `VoidCoverage.FillIsFilling` | services/simulation-server/src/measurement/spatial.rs:860-917 | Filling as a list of attempts: each sees the voids placed so far and continues the generators of the one before; it goes on exactly until the open area reaches the target or eight attempts found no place; a placed void lasts from now until its duration or the phase is over |
| `VoidCoverage.CoverGoesInRounds` | services/simulation-server/src/measurement/spatial.rs:825-858 | Covering as rounds of filling: at the start of the interval, and then at the earliest end of an open void, as long as that lies before the end of the interval |
| `VoidCoverage.FillVoidCoverage` | services/simulation-server/src/measurement/spatial.rs:860-917 | The loop of attempts as it runs |
| `VoidCoverage.MaintainVoidCoverage` | services/simulation-server/src/measurement/spatial.rs:825-858 | The loop over the cursor as it runs |
| `CoordinatorRuns.IntervalAccepted` | services/simulation-server/src/measurement/spatial.rs:495-511 | The interval up to the next surface event always lies in the active phase and continues the spatial timeline, so its check cannot fail |
| `CoordinatorRuns.AllPushed` | services/simulation-server/src/measurement/snapshots.rs:37-59 | The events of an advance are always accepted by the surface history |
| `CoordinatorRuns.TurnStays` | services/simulation-server/src/runtime/generation.rs:343-380 | A turn of the loop keeps scenario, surface history and spatial history in step; history errors are unreachable |
| `CoordinatorRuns.AdvanceTogether` | services/simulation-server/src/runtime/generation.rs:331-386 | All turns of a batch keep the pruned world together with the full one |
| `CoordinatorRuns.AdvanceStays` | services/simulation-server/src/scenario/simulator.rs:356-432 | Inside the runtime an advance can only be stopped by a held-up update schedule, a resource limit or the segment limit |
| `CoordinatorHistory.ScansInOrder` | services/simulation-server/src/runtime/generation.rs:202-329 | Over every run each sensor's scan ids appear once each and in order: none is lost, none repeated |
| `CoordinatorHistory.BatchHoldsWhatIsDue` | services/simulation-server/src/runtime/generation.rs:215-309 | A batch is never empty and holds exactly the pending scans that complete at its time; those sensors move on by one scan |
| `CoordinatorHistory.SensorsStayInStep` | services/simulation-server/src/runtime/generation.rs:418-432 | Sensors with the same rates complete together: every batch holds one scan of each, with the same id |
| `CoordinatorHistory.SameSchedules` | services/simulation-server/src/measurement/rotation.rs:251-302 | Whether and when the next scan comes does not depend on the first angle |
| `CoordinatorHistory.BatchesAreOneRun` | services/simulation-server/src/runtime/generation.rs:331-386 | However time is cut into batches and surface events, scenario state and events are those of one uninterrupted scenario run |
| `CoordinatorHistory.TurnsAreOneRun` | services/simulation-server/src/runtime/generation.rs:343-380 | The same within one batch |
| `CoordinatorHistory.BeginIsPaired` | services/simulation-server/src/runtime/generation.rs:125-157 | A new runtime has forgotten nothing, and first completes at the earlier end of the two first rotations |
| `Coordinator.MovedIsReady` | services/simulation-server/src/runtime/generation.rs:264-274 | A due sensor gets the following rotation pending: next id, later completion, no earlier sample; only number ranges can prevent it |
| `Coordinator.PendingTimes` | services/simulation-server/src/measurement/rotation.rs:251-302 | A pending scan's sample times rise and stay between 0 and its completion |
| `GenerationRuntime.GenerationRuntime.NextCompletedScans` | services/simulation-server/src/runtime/generation.rs:191-200 | Gives the batch of the specified step, counts it, and becomes terminal at the first error; a terminal runtime only reports that and never changes |
| `GenerationRuntime.GenerationRuntime.TryNextCompletedScans` | services/simulation-server/src/runtime/generation.rs:202-329 | The new state and counters of one batch, or the first error in the order of the source |
| `GenerationRuntime.GenerationRuntime.AdvanceScenarioAndDistortions` | services/simulation-server/src/runtime/generation.rs:331-386 | The candidate loop commits all turns of a batch, or nothing |
| `GenerationRuntime.GenerationRuntime.MakeTurn` | services/simulation-server/src/runtime/generation.rs:343-380 | One turn in the source's order: spatial history, scenario, event budget, surface history |
| `GenerationRuntime.GenerationRuntime.PushEvents` | services/simulation-server/src/runtime/generation.rs:369-379 | All events of an advance pushed in order, or the first refusal |
| `GenerationRuntime.GenerationRuntime.GenerateScan` | services/simulation-server/src/runtime/generation.rs:449-470 | One lookup per sample, then the distortions of the whole scan |
| `Snapshots.DiscardKeepsAnswers` | services/simulation-server/src/measurement/snapshots.rs:78-88 | After a discard every answer from the retention time on is the full history's |
| `Snapshots.PushKeepsAnswers` | services/simulation-server/src/measurement/snapshots.rs:37-59 | A pruned and a full history accept the same events and keep giving the same answers |
| `Snapshots.FullHistoryAnswers` | services/simulation-server/src/measurement/snapshots.rs:61-76 | A history that starts at 0 answers every time that is not negative |
| `Snapshots.AnswerIsInForce` | services/simulation-server/src/measurement/snapshots.rs:61-76 | The answer for a time is the surface of the entry in force then; there is one exactly for times from the first entry on that are not negative |
| `Snapshots.TrimDropsEnded` | services/simulation-server/src/measurement/snapshots.rs:78-88 | A discard drops exactly the entries whose successor has started by the given time |
| `Snapshots.SnapshotEventCoordinator.PushEvent` | services/simulation-server/src/measurement/snapshots.rs:37-59 | Appends a later event of the same grid, or changes nothing |
| `Snapshots.SnapshotEventCoordinator.Snapshot` | services/simulation-server/src/measurement/snapshots.rs:61-76 | Any retained time is answered successfully, as the complete history answers it |
| `Snapshots.SnapshotEventCoordinator.DiscardBefore` | services/simulation-server/src/measurement/snapshots.rs:78-88 | The popping loop leaves the trimmed history and moves the retention time; the complete history it stands for is unchanged |
| `Spatial.ForegroundIsNearest` | services/simulation-server/src/measurement/spatial.rs:990-1081 | Falling and collection distances: the least of the sample's own distance and all admissible shortened ones, for any order of events |
| `Spatial.BackgroundIsNearest` | services/simulation-server/src/measurement/spatial.rs:1083-1142 | Void distances: the least admissible lengthened distance, or the sample's own if there is none |
| `Spatial.ResolvedDistances` | services/simulation-server/src/measurement/spatial.rs:339-386 | A resolved distance, in coordinates: if running material meets the point hit, at a centre that moves evenly over its life, the nearest of distance - amount that is not below the minimum; otherwise the nearest distance + amount of a running void that passes neither the maximum nor the static scene; otherwise the sample's own distance |
| `Spatial.ResolvesWhen` | services/simulation-server/src/measurement/spatial.rs:339-386 | Resolving succeeds if and only if the scan lies between retention time and time reached (up to 1e-12) and every retained event is valid |
| `Spatial.AdvanceJoins` | services/simulation-server/src/measurement/spatial.rs:259-337 | An advance succeeds if and only if time does not go back, every new event is valid and starts in the interval, and there are at most 100000; then the new events join the old ones in start order and nothing else changes |
| `Spatial.CloseCutsShort` | services/simulation-server/src/measurement/spatial.rs:786-823 | Closing ends exactly the running voids that the test picks out, and changes nothing else |
| `Spatial.DiscardDropsEnded` | services/simulation-server/src/measurement/spatial.rs:388-416 | A discard succeeds if and only if its time lies between the retention time and the time reached (up to 1e-12); it drops exactly what has ended by then |
| `Spatial.SameResolution` | services/simulation-server/src/measurement/spatial.rs:339-386 | Events that end by a time have no part in samples from that time on |
| `Spatial.LiveOfSorted` | services/simulation-server/src/measurement/spatial.rs:311-334 | Dropping ended events and the stable sort by start commute |
| `Spatial.SortedIsInOrder` | services/simulation-server/src/measurement/spatial.rs:311-334 | Kept events are in order of their starts |
| `Spatial.SortedKeepsAll` | services/simulation-server/src/measurement/spatial.rs:311-334 | Sorting loses no event and invents none |
| `Spatial.DiscardStands` | services/simulation-server/src/measurement/spatial.rs:388-416 | A successful discard keeps a pruned resolver equivalent to the full one if and only if no event ends after the time reached and by the time of the discard |
| `Spatial.AdvanceStands` | services/simulation-server/src/measurement/spatial.rs:259-337 | Both accept the same new events and stay equivalent, or both give the same error |
| `Spatial.CloseStands` | services/simulation-server/src/measurement/spatial.rs:786-823 | Closing voids at the time reached keeps them equivalent |
| `Spatial.ResolveStands` | services/simulation-server/src/measurement/spatial.rs:339-386 | A covered scan is resolved as the full resolver would, errors included, as long as retained events are valid |
| `Spatial.AdvanceIsSound` | services/simulation-server/src/measurement/spatial.rs:259-337 | New events that are accepted are valid, so retained events stay valid, provided voids start before the end of their interval |
| `Spatial.CloseIsSound` | services/simulation-server/src/measurement/spatial.rs:786-823 | Voids closed at the time reached stay valid |
| `Spatial.DiscardIsSound` | services/simulation-server/src/measurement/spatial.rs:388-416 | So do those that are left after a discard |
| `Spatial.ResolveSucceeds` | services/simulation-server/src/measurement/spatial.rs:339-386 | A covered scan of such a resolver is resolved without error |
| `Spatial.VoidAtTheEndIsSpoilt` | services/simulation-server/src/measurement/spatial.rs:990-1142 | Concrete failure: a void that starts at the very end of its interval is accepted, but once it is closed there resolving fails |
| `Spatial.SpatialDistortionResolver.Advance` | services/simulation-server/src/measurement/spatial.rs:259-337 | All new events join in start order, or nothing changes; the first check that fails, event by event in the order of the source, decides the error |
| `Spatial.SpatialDistortionResolver.ResolveForeground` | services/simulation-server/src/measurement/spatial.rs:990-1034 | Validates every event, then the loop over samples and events gives every sample's nearest foreground distance |
| `Spatial.SpatialDistortionResolver.ResolveBackground` | services/simulation-server/src/measurement/spatial.rs:1083-1142 | Validates every void, then the loop gives every sample's nearest admissible void distance |
| `Spatial.SpatialDistortionResolver.ResolveDistances` | services/simulation-server/src/measurement/spatial.rs:339-386 | Coverage checks, validation of all three kinds, then their combination, sample by sample |
| `Spatial.SpatialDistortionResolver.Discard` | services/simulation-server/src/measurement/spatial.rs:388-416 | Keeps exactly the events that end later, or rejects the time and changes nothing |
| `DecimalRatio.RationalToF64IsCorrectlyRounded` | services/simulation-server/src/decimal_ratio.rs:59-118 | For all n and d the result is the double nearest to n/d, ties to even (IEEE 754-2019, section 4.3.1), on the normal, carry and subnormal paths; None exactly when d is zero, on overflow (section 7.4: n/d >= 2^1024 - 2^970) or when a bit length exceeds 32 bits |
| `DecimalRatio.RationalToF64Monotone` | services/simulation-server/src/decimal_ratio.rs:59-118 | A larger ratio never gives a smaller double, and overflow is upward closed |
| `DecimalRatio.RationalToF64OfEqualRatios` | services/simulation-server/src/decimal_ratio.rs:59-118 | The double depends only on the value of the ratio |
| `DecimalRatio.MultipleIsRoundedOnce` | services/simulation-server/src/decimal_ratio.rs:42-57 | Every multiple is one correct rounding of the exact product, so no drift accumulates |
| `DecimalRatio.IntervalAndRateShareBoundaries` | services/simulation-server/src/decimal_ratio.rs:42-57 | Multiples of an interval and reciprocal multiples of the rate with the same value agree bit for bit |
| `DecimalRatio.MultiplesMonotone` | services/simulation-server/src/decimal_ratio.rs:42-57 | Later multiples are never earlier doubles |
| `DoubleTimes.MultiplesRise` | services/simulation-server/src/decimal_ratio.rs:42-57 | The first 2^52 multiples of any ratio above the smallest double are different doubles, in order |
| `DoubleTimes.WithinHalfUnit` | services/simulation-server/src/decimal_ratio.rs:59-118 | A converted ratio is within half a unit in the last place of its double, in every binade up to the largest double |
| `DoubleTimes.SampleStaysInRotation` | services/simulation-server/src/measurement/rotation.rs:251-302 | In double arithmetic - indices converted and divided by a sample rate that is a double, boundaries from the decimal rotation rate - every sample that the scheduler gives a rotation lies in its half-open interval, while times are below 2^52 units of 1 / (d * sample rate) |
| `DoubleTimes.SamplesRise` | services/simulation-server/src/measurement/rotation.rs:276-283 | Successive computed sample times rise, under the same bound |
| `DoubleTimes.WholeNumberMeetsBoundary` | services/simulation-server/src/measurement/rotation.rs:251-308 | With a whole number of samples per rotation the first sample of every rotation has bit for bit the double of its start, for sample indices below 2^53, so no rounding makes it late |
| `DoubleTimes.TimesCompare` | services/simulation-server/src/measurement/rotation.rs:276-308 | A computed sample time equals, precedes or follows a computed boundary exactly as the exact times do |
| `DoubleTimes.WholeRatesAreExact` | services/simulation-server/src/measurement/rotation.rs:180-206 | Whole rates below 2^53 per second are doubles, so all this holds for them |
| `DecimalRatio.PositiveRatio.CeilMultiple` | services/simulation-server/src/decimal_ratio.rs:33-40 | The least integer at or above the multiple; None exactly when it exceeds 64 bits |
| `DecimalRatio.GcdFactors` | services/simulation-server/src/decimal_ratio.rs:145-152 | The computed divisor divides both numbers |
| `DecimalRatio.Gcd` | services/simulation-server/src/decimal_ratio.rs:145-152 | Euclid's loop computes that divisor |
| `DecimalRatio.FromDecimals` | services/simulation-server/src/decimal_ratio.rs:12-31 | The ratio of two decimals is exact and keeps both parts positive and within the size the conversions need |
| `DecimalRatio.NearestInBinade` | services/simulation-server/src/decimal_ratio.rs:99-118 | A significand rounded half to even within its binade beats every other bit pattern |
| `DecimalRatio.OverflowAtTopBinade` | services/simulation-server/src/decimal_ratio.rs:84-91 | Rounding carries out of the top binade exactly on overflow |
| `Binary64.ScaledValueStrictlyMonotone` | services/simulation-server/src/decimal_ratio.rs:92-96 | Finite bit patterns are ordered as the numbers they stand for |
| `Binary64.ScaledValueInBinade` | services/simulation-server/src/decimal_ratio.rs:78-96 | Patterns of a binade, carry included, are evenly spaced |
| `WaterFilling.HeightDeltaIsExact` | services/simulation-server/src/scenario/height_field.rs:552-629 | For every request: nothing at 0; everything at or above capacity - 1e-12 or when out of reach; otherwise one scale s >= 0 with delta[i] = min(s * profile[i], available[i]) whose weighted total is exactly the request |
| `WaterFilling.WalkReachesVolume` | services/simulation-server/src/scenario/height_field.rs:603-619 | The walk over sorted breakpoints finds a scale whose directly summed volume is the request if and only if the request can be reached |
| `WaterFilling.VolumeOnPiece` | services/simulation-server/src/scenario/height_field.rs:584-615 | Between two neighbouring breakpoints the direct sum is the linear piece with the suffix slope |
| `WaterFilling.WalkFinds` | services/simulation-server/src/scenario/height_field.rs:603-615 | On any rising piecewise-linear function the walk finds the piece and the point on it |
| `WaterFilling.OrderAccountsForAll` | services/simulation-server/src/scenario/height_field.rs:570-583 | The nodes left out of the order contribute nothing |
| `WaterFilling.EverythingReachable` | services/simulation-server/src/scenario/height_field.rs:489-500 | A profile positive wherever there is weight makes every volume reachable, so the unsolved branch is unreachable for this surface |
| `WaterFilling.SuffixSlopes` | services/simulation-server/src/scenario/height_field.rs:588-602 | The backward loop gives the slope of every suffix |
| `WaterFilling.WalkBreakpoints` | services/simulation-server/src/scenario/height_field.rs:603-619 | The walking loop stops at the specified scale, or reports that there is none |
| `WaterFilling.SolveHeightDelta` | services/simulation-server/src/scenario/height_field.rs:552-629 | The solver as it runs gives the specified change and never fails |
| `Surface.ChangeIsExact` | services/simulation-server/src/scenario/height_field.rs:211-248 | An update moves exactly the request, or all the room when within 1e-12 of it; heights stay in [floor, top] and move only in the asked direction |
| `Surface.ChangeIsSpread` | services/simulation-server/src/scenario/height_field.rs:211-248 | Every node moves in proportion to its speed until it meets its limit, with one common factor, and the volume changes by exactly the request; within 1e-12 of all there is, every node is at its limit |
| `Surface.ChangedByDelta` | services/simulation-server/src/scenario/height_field.rs:211-248 | The closing clamp never acts |
| `Surface.VolumeInRange` | services/simulation-server/src/scenario/height_field.rs:535-541 | Volume lies between 0 and the capacity |
| `HeightField.HeightField.ChangeVolume` | services/simulation-server/src/scenario/height_field.rs:211-248 | The update in place, with the reported change; its volume check cannot fail |
| `HeightField.HeightField.AddVolume` | services/simulation-server/src/scenario/height_field.rs:180-189 | Fails exactly for a negative volume or an unusable place, changing nothing; else the volume gained is specified |
| `HeightField.HeightField.RemoveVolume` | services/simulation-server/src/scenario/height_field.rs:191-200 | Likewise for removal around a point |
| `HeightField.HeightField.RemoveVolumeUniformly` | services/simulation-server/src/scenario/height_field.rs:202-209 | Likewise for uniform removal |
| `SlopeRelaxation.RelaxedKeepsVolume` | services/simulation-server/src/scenario/height_field.rs:402-458 | One simultaneous pass keeps the weighted volume exactly |
| `SlopeRelaxation.RelaxedHolds` | services/simulation-server/src/scenario/height_field.rs:402-458 | One pass keeps every height in [floor, top] |
| `SlopeRelaxation.MaximumPrinciple` | services/simulation-server/src/scenario/height_field.rs:402-458 | A pass leaves every node between the lowest and highest old height of itself and its partners |
| `SlopeRelaxation.FlowIsAllowed` | services/simulation-server/src/scenario/height_field.rs:460-487 | After two-sided scaling no node gives or takes more than it may |
| `RelaxationPass.PassIsSimultaneous` | services/simulation-server/src/scenario/height_field.rs:402-487 | One pass, pair by pair and node by node: a steep pair wants the v with v/a + v/b = excess; a node's scale is all it is asked for, or as much as its height limit and its steepest pair allow; a pair moves what both ends let pass; and all heights change at once by the net flow over the area |
| `RelaxationPass.LonePairIsLevelled` | services/simulation-server/src/scenario/height_field.rs:402-458 | A steep pair that shares no node ends at exactly its stable height difference, higher node still higher, with the same volume |
| `RelaxationPass.SettlesByPasses` | services/simulation-server/src/scenario/height_field.rs:345-400 | Settling is a sequence of passes, each on the result of the one before: all but the last move more than the tolerance, and the last moves no more or is the last allowed |
| `SlopeRelaxation.MovesUntilStable` | services/simulation-server/src/scenario/height_field.rs:402-458 | A pass moves nothing if and only if no pair is too steep |
| `SlopeRelaxation.SettleIsSafe` | services/simulation-server/src/scenario/height_field.rs:345-400 | Over any number of passes volume is exact, heights stay within limits, and no paired node leaves the old paired range; so the volume error is unreachable |
| `SlopeRelaxation.StableSurfaceRests` | services/simulation-server/src/scenario/height_field.rs:345-400 | A stable surface is left alone after one pass and reports no excess |
| `HeightField.HeightField.TransferScales` | services/simulation-server/src/scenario/height_field.rs:460-487 | The two loops give every node's scale |
| `HeightField.HeightField.Scatter` | services/simulation-server/src/scenario/height_field.rs:442-449 | Ordered scatter passes add up each node's net flow |
| `HeightField.HeightField.RelaxNeighborPairs` | services/simulation-server/src/scenario/height_field.rs:402-458 | The pass in place: new heights and moved volume |
| `HeightField.HeightField.RelaxSlopesWith` | services/simulation-server/src/scenario/height_field.rs:345-400 | Volume is kept by every call; failures are exactly the invalid angles and iteration counts and change nothing; otherwise heights and report are those of the passes |
| `HeightField.HeightField.ClampAll` | services/simulation-server/src/scenario/height_field.rs:380-387 | The final clamp changes nothing |
| `Roughness.RoughenKeepsVolume` | services/simulation-server/src/scenario/height_field.rs:250-336 | A bump keeps volume exactly and every height within limits, touches only its support, and applies its peak in full unless a node reaches a limit |
| `Roughness.RoughenIsBump` | services/simulation-server/src/scenario/height_field.rs:250-336 | A roughness is one bump: each node inside the radius changes in proportion to (1 - r^2)^2 less one common mean, no other node changes, the volume is kept, and the crest moves by the applied peak, which has the sign of the request and is smaller only when a node reaches its limit |
| `Roughness.UnevenActs` | services/simulation-server/src/scenario/height_field.rs:275-299 | It acts if and only if the peak is not 0 and two nodes with area inside the radius rise differently |
| `Roughness.FittingScaleFits` | services/simulation-server/src/scenario/height_field.rs:300-317 | The common scale keeps every node within limits and is below 1 only when some node reaches one |
| `Roughness.CenteredIsNeutral` | services/simulation-server/src/scenario/height_field.rs:270-294 | The centred bump carries no volume |
| `HeightField.HeightField.ApplyLocalRoughness` | services/simulation-server/src/scenario/height_field.rs:250-336 | The operation in place; it fails exactly for an unusable place and then changes nothing |
| `Clipping.ClipKeepsArea` | services/simulation-server/src/scenario/grid.rs:383-422 | Cutting any closed polygon at a bound on either axis, once on each side, splits its shoelace area exactly |
| `Clipping.ClippedArea` | services/simulation-server/src/scenario/grid.rs:383-422 | The clipped polygon's area is the sum over the parts of the edges on its side |
| `Clipping.ClipAxis` | services/simulation-server/src/scenario/grid.rs:383-422 | The loop gives the clipped polygon |
| `Tiling.CutTwice` | services/simulation-server/src/scenario/grid.rs:241-254 | A second, later cut leaves what it alone would leave |
| `Tiling.StripsTile` | services/simulation-server/src/scenario/grid.rs:241-254 | Strips between neighbouring lines tile every polygon between the outer lines |
| `Tiling.CellsTile` | services/simulation-server/src/scenario/grid.rs:241-254 | The cells of a grid cut every polygon over it into parts whose areas add up to its own |
| `Triangulation.CutKeepsArea` | services/simulation-server/src/scenario/grid.rs:334-372 | Ear clipping cuts an n-gon into n - 2 triangles whose signed areas add up to its own; all but the last turn left |
| `EarClipping.TrianglesKeepClear` | services/simulation-server/src/scenario/grid.rs:334-381 | For any two triangles each corner of the one cut later is a corner of the earlier, or lies more than the tolerance to the right of one of its sides, in coordinates |
| `EarClipping.CutsEars` | services/simulation-server/src/scenario/grid.rs:334-372 | The triangles are corners cut off one after the other, always at the first vertex that turns left and whose corner holds no other vertex; when it gives up with more than three vertices left, every corner to the left holds another vertex |
| `EarClipping.SimplifiedDrops` | services/simulation-server/src/scenario/grid.rs:307-333 | Simplifying drops exactly the vertices that turn by no more than the tolerance, all at once and again, until all turn or three are left |
| `Windings.CoveredAsOftenAsWound` | services/simulation-server/src/scenario/grid.rs:334-372 | Every point is covered by the triangles as often as the polygon winds round it |
| `Windings.TrianglesTile` | services/simulation-server/src/scenario/grid.rs:334-372 | If the polygon winds at most once round a point, as a simple one does, that point lies inside at most one triangle, and inside none or within one according to its winding number, once the last triangle turns left |
| `Windings.TriangleWindsOnce` | services/simulation-server/src/scenario/grid.rs:303-305 | A triangle that turns left winds once round what is inside and not at all round what lies beyond a side |
| `Triangulation.CornerArea` | services/simulation-server/src/scenario/grid.rs:340-370 | Removing any corner takes exactly its triangle's area away |
| `Triangulation.ReversedArea` | services/simulation-server/src/scenario/grid.rs:307-311 | Walking a polygon the other way round negates its area, so the reversal for clockwise boundaries is right |
| `Triangulation.Triangulate` | services/simulation-server/src/scenario/grid.rs:307-373 | Both loops: vertices that hardly turn go, then the first ear is cut until three vertices are left or there is none; the triangles add up to the area of the vertices that were kept, in either orientation |
| `Triangulation.BilinearWeights` | services/simulation-server/src/scenario/grid.rs:424-449 | The loop's four weights add up to the polygon's area, and are all zero at or below the tolerance |
| `MomentsOfArea.MomentsAreIntegrals` | services/simulation-server/src/scenario/grid.rs:424-442 | For every polygon the accumulated edge terms are the integrals of 1, x, y and xy, as the midpoint rule gives them on a fan of triangles |
| `MomentsOfArea.TriangleObeysRule` | services/simulation-server/src/scenario/grid.rs:424-442 | On one triangle the edge formula equals the midpoint rule, which is exact for quadratics |
| `MomentsOfArea.WeightsIntegrate` | services/simulation-server/src/scenario/grid.rs:443-449 | The four weights integrate the bilinear interpolation of any four corner values over the polygon |
| `Triangulation.Normalise` | services/simulation-server/src/scenario/grid.rs:269-298 | Weights are refused exactly when one is too far below zero; otherwise, when any area is left, they are cut off at zero and all rescaled by one factor, so that they represent exactly the boundary's area; cell areas by the same factor |
| `VolumeWeights.WeightsRepresentArea` | services/simulation-server/src/scenario/grid.rs:213-268 | At tolerance 0, for every boundary with distinct vertices on the grid: no accumulated node weight is negative and, before normalising, they add up to the boundary's area - exactly, unless the last triangle turns right; then to that triangle's area more |
| `VolumeWeights.NodeWeightsAreWeights` | services/simulation-server/src/scenario/grid.rs:213-282 | For every tolerance no node weight is ever negative, so the check for negative weights never fails and the cut at zero changes nothing |
| `VolumeWeights.AreasMatchWeights` | services/simulation-server/src/scenario/grid.rs:213-268 | For every tolerance no cell's area is negative, and the areas of all cells add up to the weights of all nodes |
| `WeightPlacement.NodesHoldTheirCorners` | services/simulation-server/src/scenario/grid.rs:242-266 | The weight of the node at column i and row j is the sum, over all triangles, of the corner weights of the up to four cells around it within the triangle's bounding box: lower left of its own cell, lower right of the one before, upper left and right of those below; rows follow one another |
| `WeightPlacement.CellsHoldTheirArea` | services/simulation-server/src/scenario/grid.rs:222-257 | There is one area for every cell between two columns and two rows, and it is the sum of what the triangles give that cell's corners |
| `WeightPlacement.CellIntegrates` | services/simulation-server/src/scenario/grid.rs:241-257 | What a triangle gives a cell's corners integrates the bilinear interpolation of any four corner values over the triangle's part in the cell, in units of the cell; a part of no more area than the tolerance gives nothing |
| `WeightPlacement.FewestCells` | services/simulation-server/src/scenario/grid.rs:139-147 | The lines reach over an extent with as few cells as can do so, and at least one |
| `VolumeWeights.VolumeWeights` | services/simulation-server/src/scenario/grid.rs:213-298 | Over all triangles and cells: fails only if triangulating fails or no area is left; otherwise node weights and cell areas in proportion to what was accumulated, both representing the boundary's area; at tolerance 0 normalising changes nothing unless the last triangle turns right |
| `VolumeWeights.AddTriangle` | services/simulation-server/src/scenario/grid.rs:224-268 | The two loops over the cells of a triangle's bounding box add exactly the specified weights and areas |
| `VolumeWeights.AddCell` | services/simulation-server/src/scenario/grid.rs:241-266 | One cell: four clips, the corner weights added to four nodes and their sum to the cell's area |
| `VolumeWeights.CellTotalIsArea` | services/simulation-server/src/scenario/grid.rs:241-266 | At tolerance 0 a cell adds in all the area of the triangle's part in it, or nothing for a triangle that turns right |
| `VolumeWeights.CornersNotNegative` | services/simulation-server/src/scenario/grid.rs:241-266 | No cell gives any corner a negative weight |
| `VolumeWeights.BoxCovers` | services/simulation-server/src/scenario/grid.rs:225-238 | The first and last cells computed from the extremes cover the triangle; where there is none the triangle has no area |
| `VolumeWeights.RowsTile` | services/simulation-server/src/scenario/grid.rs:239-240 | The cells of those rows add up to the whole area |
| `VolumeWeights.GridCovers` | services/simulation-server/src/scenario/grid.rs:139-162 | The lines computed from a boundary's extent cover it |
| `Convexity.ClipIsConvex` | services/simulation-server/src/scenario/grid.rs:383-422 | Cutting a convex polygon on either axis and side leaves a convex polygon of the same orientation |
| `Convexity.PartsHaveSign` | services/simulation-server/src/scenario/grid.rs:241-254 | Every cell's part of a triangle has the sign of the triangle's area |
| `Simplification.SimplifiedKeepsArea` | services/simulation-server/src/scenario/grid.rs:312-333 | At tolerance 0 dropping all vertices that do not turn, repeatedly and at once, keeps the area of every polygon with distinct vertices |
| `Simplification.TrianglesKeepArea` | services/simulation-server/src/scenario/grid.rs:307-373 | So at tolerance 0 the triangles have together exactly the boundary's area, and all but the last turn left |
| `Neighbors.PairsAre` | services/simulation-server/src/scenario/grid.rs:164-211 | A pair is listed if and only if its nodes are adjacent and both have area |
| `Neighbors.PairsAreUsable` | services/simulation-server/src/scenario/grid.rs:164-211 | Every listed pair joins two different nodes with area at a positive distance |
| `Neighbors.AdjacentNodesArePaired` | services/simulation-server/src/scenario/grid.rs:164-211 | Two nodes in index order are listed as a pair if and only if they are next to each other along a row, a column or a diagonal and both have area, and then with their distance: a step, or its diagonal |
| `Neighbors.PairsOnce` | services/simulation-server/src/scenario/grid.rs:164-211 | No pair is listed twice, and none the other way round |
| `Neighbors.NeighborPairs` | services/simulation-server/src/scenario/grid.rs:164-211 | The loops list those pairs in order |
| `GridAssembly.AssembledGridIsValid` | services/simulation-server/src/scenario/grid.rs:44-117 | A grid assembled from such weights and pairs meets every requirement the surface operations have |
| `Sums.WeightedSum` | services/simulation-server/src/geometry/mod.rs:24-37 | The compensated loop gives the exact weighted sum over reals |
| `RateProfile.IntegralIsExact` | services/simulation-server/src/rate_profile.rs:188-202 | For disjoint segments the prefix sum up to the completed segments plus the one under way equals t plus every segment's clamped deviation integral, added directly |
| `RateProfile.FactorIsExact` | services/simulation-server/src/rate_profile.rs:158-170 | The factor is 1 plus all deviations at that time |
| `RateProfile.AcceptedProfiles` | services/simulation-server/src/rate_profile.rs:109-149 | A profile is accepted if and only if its duration is positive, it has at most 100000 segments that follow each other within it, and their deviations cancel out, each up to the tolerance |
| `RateProfile.SegmentFactor` | services/simulation-server/src/rate_profile.rs:85-92 | After a share of a segment the factor is 1 plus the deviation times the bump there; at its ends and outside it is 1 |
| `RateProfile.SegmentIntegral` | services/simulation-server/src/rate_profile.rs:94-99 | What a segment has added by a time: nothing before it, half of deviation times duration after it, the bump's integral in between |
| `RateProfile.IntegralIsBounded` | services/simulation-server/src/rate_profile.rs:172-202 | A balanced profile has F(0) = 0, F(duration) = duration, strictly increasing F, and mean factors within the limits on every interval |
| `RateProfile.FactorIsBounded` | services/simulation-server/src/rate_profile.rs:158-170 | Its factor stays within the limits |
| `RateProfile.NewIsOrdered` | services/simulation-server/src/rate_profile.rs:109-149 | Every profile that the constructor accepts has starts and ends in order, tolerated overlaps included |
| `RateProfile.PartitionPoint` | services/simulation-server/src/rate_profile.rs:163-196 | On such segments halving finds exactly how many have started, or ended, by a time |
| `RateProfile.IntegrateTo` | services/simulation-server/src/rate_profile.rs:188-202 | The integral as it runs, with binary search, is the specified one |
| `RateProfile.FactorOf` | services/simulation-server/src/rate_profile.rs:158-170 | So is the factor |
| `RateProfile.New` | services/simulation-server/src/rate_profile.rs:109-149 | The constructor's cursors accept exactly the specified segments and build their prefix sums |
| `RateProfileCreation.CreatedProfileIsBalanced` | services/simulation-server/src/rate_profile.rs:212-284 | Every accepted request gives a balanced profile of its duration, or the segment limit, which needs more than 100000 minimum changes |
| `RateProfileCreation.CreatedProfileIsDrawn` | services/simulation-server/src/rate_profile.rs:212-284 | A profile that can vary consists of pairs, four words each, until less than two minimum changes are left: two durations drawn within what is left, a bit for which comes first, and the integral both share; any other profile is constant and uses no word |
| `RateProfileCreation.BuildFills` | services/simulation-server/src/rate_profile.rs:236-282 | The building loop keeps total deviation zero and leaves less than two minimum changes |
| `RateProfileCreation.RoundsShrink` | services/simulation-server/src/rate_profile.rs:277-281 | Each round advances by at least two minimum changes, so the loop ends |
| `RateProfileCreation.PairsAreGood` | services/simulation-server/src/rate_profile.rs:242-276 | A drawn pair stays within the limits and cancels out |
| `RateProfileCreation.FilledIsAccepted` | services/simulation-server/src/rate_profile.rs:267-283 | The segments drawn are always accepted by the constructor |
| `RateProfileCreation.Create` | services/simulation-server/src/rate_profile.rs:212-284 | The loop on the random source, with the words it consumes |
| `RateProfileCreation.DrawNext` | services/simulation-server/src/rate_profile.rs:242-276 | Every uniform call has ordered bounds, so a round never fails and consumes four words |
| `Randomness.Uniform` | services/simulation-server/src/randomness.rs:39-57 | A value within ordered bounds, below the upper one unless they agree |
| `Randomness.RandomSource.NextUniform` | services/simulation-server/src/randomness.rs:39-57 | One word per valid call, even for equal bounds; none for an invalid one |
| `ScenarioRuns.EveryRunFollowsPlan` | services/simulation-server/src/scenario/simulator.rs:356-432 | Whatever times a simulation is advanced to, its volume obeys the plan; no volume error can occur |
| `UpdateSchedule.UpdatesAreNeverHeldUp` | services/simulation-server/src/scenario/simulator.rs:356-432 | From the start and for any times, a decimal update interval longer than the smallest double never holds the simulation up, while the updates that so many advances can make stay below 2^52 and the last of them has a finite time; then only engine limits, too many rate segments and times that run backwards stop it |
| `UpdateSchedule.EveryRunKeepsSchedule` | services/simulation-server/src/scenario/simulator.rs:383-432 | For any schedule the surface stays between its last and next update, and only an index whose update is missing or no later than the one before can hold a run up, one that its advances can reach |
| `UpdateSchedule.HeldUpMeans` | services/simulation-server/src/scenario/simulator.rs:451-464 | On schedule the next update is refused if and only if its index has no time or no later time than the one before |
| `UpdateSchedule.DecimalIsNotHeldUp` | services/simulation-server/src/scenario/simulator.rs:451-464 | In a decimal schedule each of the first 2^52 updates with a finite time comes after the one before |
| `ScenarioRuns.VolumesFollowPlan` | services/simulation-server/src/scenario/simulator.rs:383-432 | Every event of every run shows the very state that the run has reached with it, and its surface is on plan: in a fill target * F / duration, in a collection start * (1 - F / duration), up to 1e-12 at a full or empty surface; phases end on target |
| `ScenarioRuns.StepKeepsPlan` | services/simulation-server/src/scenario/simulator.rs:383-432 | One event keeps the volume law; the unreachable errors are unreachable |
| `ScenarioRuns.StartIsOnPlan` | services/simulation-server/src/scenario/simulator.rs:238-273 | A new simulation is on plan |
| `ScenarioVolume.UpdateKeepsPlan` | services/simulation-server/src/scenario/simulator.rs:533-601 | Within a phase every update succeeds and keeps the volume law |
| `ScenarioVolume.PhaseEndsOnTarget` | services/simulation-server/src/scenario/simulator.rs:533-601 | A fill ends exactly at its target unless that is within 1e-12 of full; a collection ends exactly empty |
| `ScenarioVolume.PhaseChangeVolume` | services/simulation-server/src/scenario/simulator.rs:533-601 | What a phase change does to the volume, and exactly when it reports unapplied volume |
| `ScenarioVolume.TransitionChecksPass` | services/simulation-server/src/scenario/simulator.rs:638-669 | The transition's volume checks cannot fail |
| `ScenarioVolume.ChangedSurfaceVolume` | services/simulation-server/src/scenario/simulator.rs:570-594 | Slopes and roughness leave the volume to the solver alone |
| `ScenarioRuns.AdvanceSplits` | services/simulation-server/src/scenario/simulator.rs:356-432 | An advance to b that succeeds equals an advance to any a <= b followed by one to b: same state, random positions included, and the events in a row |
| `ScenarioRuns.AdvancesJoin` | services/simulation-server/src/scenario/simulator.rs:356-432 | Two advances equal one, unless together they pass the event limit |
| `ScenarioRuns.RunsJoin` | services/simulation-server/src/scenario/simulator.rs:383-432 | The same for the event loop with explicit budgets |
| `ScenarioRuns.EventsFollow` | services/simulation-server/src/scenario/simulator.rs:383-432 | Event times rise, phases flip exactly at transitions, and cycles are counted when fills begin |
| `ScenarioRuns.EventTimesIncrease` | services/simulation-server/src/scenario/simulator.rs:383-432 | Any two events of a run are in strict order of time |
| `ScenarioRuns.StepMeans` | services/simulation-server/src/scenario/simulator.rs:383-432 | What one event does to time, phase, cycle and update counters |
| `ScenarioEvents.InletOfEvent` | services/simulation-server/src/scenario/simulator.rs:418-420 | During a fill, with no transition, the inlet stays if and only if the surface is below the activation ratio or no inlet is lower by a positive amount of at least the difference; otherwise the fill goes on at the first inlet of least mean height. A new fill starts at inlet 0; a collection changes none |
| `ScenarioEvents.TimeOfEvent` | services/simulation-server/src/scenario/simulator.rs:396-413 | An event happens at the earlier of the scheduled update and the end of the phase, and is marked by which of them, or both, it meets |
| `ScenarioEvents.SurfaceOfEvent` | services/simulation-server/src/scenario/simulator.rs:533-635 | The surface of an event: the volume asked for - what the profile integrates to since the last event, or at the end of a phase whatever is missing or left - is poured around the current inlet or taken evenly, slopes settle within 32 passes, and a fill roughens the surface at the first of 32 drawn points inside the boundary |
| `ScenarioEvents.PlansOfEvent` | services/simulation-server/src/scenario/simulator.rs:488-531 | Only a transition draws a plan, and from which words: duration, target and rate profile of a fill, duration and rate profile of a collection that takes everything there is; no other event touches plans or streams |
| `ScenarioEvents.StartIsDrawn` | services/simulation-server/src/scenario/simulator.rs:238-273 | A simulation starts empty at inlet 0 with a fill plan drawn from the beginning of the streams |
| `ScenarioEvents.SnapshotOfEvent` | services/simulation-server/src/scenario/simulator.rs:310-347 | What the snapshot of an event reports: phase and its times, rate factor, target, fill ratio, volume, and the inlet only during a fill |
| `ScenarioEvents.AdvanceIsRun` | services/simulation-server/src/scenario/simulator.rs:356-381 | An advance refuses to go back, and refuses more updates than its limit by their numbers alone; otherwise it is the run with that limit |
| `ScenarioEvents.LimitOfEvents` | services/simulation-server/src/scenario/simulator.rs:434-449 | The limit is 4096 events, or as many as fit 16 MiB of heights at eight bytes each |
| `ScenarioRuns.RunIsUpToDate` | services/simulation-server/src/scenario/simulator.rs:383-432 | A run leaves nothing overdue, and its last event shows its final surface |
| `ScenarioRuns.PhaseBegins` | services/simulation-server/src/scenario/simulator.rs:638-669 | A phase begins where the one before it ended |
| `Scenario.CenterIsInside` | services/simulation-server/src/scenario/simulator.rs:621-636 | The drawn roughness centre is inside the boundary, so that error cannot occur |
| `Scenario.InletSwitchesToLowest` | services/simulation-server/src/scenario/simulator.rs:671-701 | From the activation ratio on, the inlet stays if and only if no other is lower by at least the difference; otherwise the lowest of all takes over |
| `Scenario.LowestIsFirst` | services/simulation-server/src/scenario/simulator.rs:678-691 | The loop's choice is the first of the lowest inlets |
| `Simulator.ScenarioSimulator.Build` | services/simulation-server/src/scenario/simulator.rs:238-273 | A new simulator on plan, or the error of its first fill plan |
| `Simulator.ScenarioSimulator.AdvanceTo` | services/simulation-server/src/scenario/simulator.rs:356-367 | The whole advance on a copy, or nothing: on failure the state is unchanged |
| `Simulator.ScenarioSimulator.AdvanceInner` | services/simulation-server/src/scenario/simulator.rs:383-432 | The event loop as it runs |
| `Simulator.ScenarioSimulator.TakeStep` | services/simulation-server/src/scenario/simulator.rs:398-427 | One turn of the loop, in the source's order |
| `Simulator.ScenarioSimulator.ApplyPhaseChange` | services/simulation-server/src/scenario/simulator.rs:533-601 | Surface, roughness stream and error of a phase change |
| `Simulator.ScenarioSimulator.TransitionPhase` | services/simulation-server/src/scenario/simulator.rs:638-669 | Plans, phase, cycle and inlet after a transition |
| `Simulator.ScenarioSimulator.SwitchInletIfNeeded` | services/simulation-server/src/scenario/simulator.rs:671-701 | The inlet after a possible switch |
| `Simulator.ScenarioSimulator.CreateFillPlan` | services/simulation-server/src/scenario/simulator.rs:488-511 | The new fill plan and the words it consumed |
| `Simulator.ScenarioSimulator.CreateCollectionPlan` | services/simulation-server/src/scenario/simulator.rs:513-531 | The new collection plan and the words it consumed |
| `Simulator.ScenarioSimulator.SampleRoughnessCenter` | services/simulation-server/src/scenario/simulator.rs:621-636 | The first of 32 candidates inside the boundary, or the inlet, and the words it took |
| `SceneProtocol.EveryRunIsOrdered` | services/simulation-server/src/scene_stream.rs:596-763 | Over every interleaving of publishing, taking, writing, loss, reconnecting, being turned away and closing: accepted segments rise in number and time, consecutive numbers continue each other's surface, last number = accepted + missing, and every accepted record is sent, dropped, queued or in flight |
| `SceneProtocol.NothingIsOutOfOrder` | services/visualizer/src/scrap_monitoring_visualizer/state/machine.py:73-106 | In every reachable state a segment that arrives can only be refused for its keyframes, never as duplicate, old, out of time order or of another run |
| `SceneProtocol.NextKeeps` | services/simulation-server/src/scene_stream.rs:685-720 | Every step keeps the invariant that orders everything on its way |
| `SceneProtocol.QueuedRecordIsDelivered` | services/simulation-server/src/scene_stream.rs:685-721 | On a connection being served, a queued record that the receiver's state accepts is taken, written and read in three steps: the receiver holds it, and both sides count it |
| `SceneProtocol.ConnectionIsServed` | services/simulation-server/src/scene_stream.rs:664-721 | From a quiet system a connection is opened, met and read: its header is accepted and it is the one served |
| `SceneProtocol.FailedWriteMayArrive` | services/simulation-server/src/scene_stream.rs:696-719 | A record whose write fails may have arrived; it counts as dropped, and the connection is given up |
| `SceneProtocol.InterruptedMayArrive` | services/simulation-server/src/scene_stream.rs:645-721 | What a failed attempt or a stop may leave on its way: a connection with or without its header, or the record in flight, which counts as dropped |
| `SceneProtocol.RejectedConnectionsAreNeverRead` | services/visualizer/src/scrap_monitoring_visualizer/receiver/server.py:57-76 | Over every run no record of a connection that was turned away is ever read or accepted, and the receiver counts exactly the connections it turned away |
| `SceneProtocol.ServedConnectionGoesOn` | services/visualizer/src/scrap_monitoring_visualizer/receiver/server.py:57-66 | Turning a connection away leaves the reading of the served one as it was; what was turned away can never be read |
| `SceneProtocol.RoutingKept` | services/visualizer/src/scrap_monitoring_visualizer/receiver/server.py:57-115 | Every step keeps served and turned-away connections apart |
| `ScenePublisher.PublisherStaysBalanced` | services/simulation-server/src/scene_stream.rs:596-763 | accepted = sent + dropped + queued + in flight after every operation |
| `ScenePublisher.ClosedIsReconciled` | services/simulation-server/src/scene_stream.rs:799-809 | After closing and reconciling accepted = sent + dropped, and nothing sent is forgotten |
| `ScenePublisher.EveryHistoryIsKept` | services/simulation-server/src/scene_stream.rs:596-809 | Over any publishing, taking, settling, failing and closing: accepted records form one chain in which each begins with the keyframe the one before ended with, numbers rise, sent records are accepted ones in order, every one is counted, and the queue holds the latest |
| `ScenePublisher.NewIsKept` | services/simulation-server/src/scene_stream.rs:557-594 | A new publisher has accepted nothing, counts from 1 and starts its first record at the initial keyframe |
| `ScenePublisher.PublishedIsQueued` | services/simulation-server/src/scene_stream.rs:596-620 | The answer to a keyframe and the whole new state, case by case: closed, numbers exhausted, no valid record (a number is used up), or queued in place of what was queued |
| `ScenePublisher.RecordsAreSettled` | services/simulation-server/src/scene_stream.rs:645-809 | Taking, sending, losing, closing and reconciling change exactly their one counter |
| `ScenePublisher.TcpScenePublisher.PublishKeyframe` | services/simulation-server/src/scene_stream.rs:596-620 | The latest-only queue, counters and numbering; a refused keyframe still uses up its sequence number |
| `ScenePublisher.TcpScenePublisher.Take` | services/simulation-server/src/scene_stream.rs:748-750 | Takes the queued record if there is one |
| `ScenePublisher.TcpScenePublisher.Settle` | services/simulation-server/src/scene_stream.rs:696-719 | A record in flight ends as sent or dropped |
| `ScenePublisher.TcpScenePublisher.Close` | services/simulation-server/src/scene_stream.rs:645-653 | Nothing accepted is left unaccounted |
| `SceneState.EveryHistoryIsAccounted` | services/visualizer/src/scrap_monitoring_visualizer/state/machine.py:50-146 | Whatever headers, segments and disconnections arrive, accepted segments are strictly ordered, belong to the run, fit its grid, and the last number counts accepted and missing ones |
| `SceneState.SegmentIsAccepted` | services/visualizer/src/scrap_monitoring_visualizer/state/machine.py:70-104 | A segment is accepted if and only if it comes on a connection after its run's header, is later in number and time than the one held, and both keyframes belong to the scene; the numbers left out count as missing |
| `SceneState.HeaderIsAccepted` | services/visualizer/src/scrap_monitoring_visualizer/state/machine.py:50-67 | A header is accepted if and only if its grid covers its boundary and a known run's header is unchanged; then the run resumes with everything held, and any other run starts afresh |
| `SceneState.NoErrorMeansBelongs` | services/visualizer/src/scrap_monitoring_visualizer/state/machine.py:107-146 | A keyframe belongs if and only if it names a valid inlet exactly while filling and gives every node of the grid a height within the limits |
| `SceneState.HandleKeepsAccount` | services/visualizer/src/scrap_monitoring_visualizer/state/machine.py:50-146 | One input keeps that account |
| `SceneReceiver.SceneReceiver.Accept` | services/visualizer/src/scrap_monitoring_visualizer/receiver/server.py:57-76 | Only one connection is served at a time |
| `SceneReceiver.RecordIsHandled` | services/visualizer/src/scrap_monitoring_visualizer/receiver/server.py:117-158 | What becomes of a record: the first one opens the run with a header or ends the connection; each later one is accepted as the next segment or only counted as rejected |
| `SceneReceiver.RecordsInOrder` | services/visualizer/src/scrap_monitoring_visualizer/receiver/server.py:78-92 | A read handles its records in their order, and none after the connection has ended |
| `SceneReceiver.ConnectionsTakeTurns` | services/visualizer/src/scrap_monitoring_visualizer/receiver/server.py:57-115 | One connection at a time; a second one is counted and turned away, and the end of the one served frees the receiver and marks the run as disconnected |
| `SceneReceiver.SceneReceiver.ReceiveOne` | services/visualizer/src/scrap_monitoring_visualizer/receiver/server.py:117-158 | Header, segment or error of one record |
| `SceneReceiver.SceneReceiver.ReceiveAll` | services/visualizer/src/scrap_monitoring_visualizer/receiver/server.py:78-104 | The records of one read in order, up to the end of the connection |
| `SceneReceiver.SceneReceiver.EndConnection` | services/visualizer/src/scrap_monitoring_visualizer/receiver/server.py:105-115 | State after a connection ends, with or without a partial record |
| `Framing.PiecesDoNotMatter` | services/visualizer/src/scrap_monitoring_visualizer/receiver/framing.py:25-45 | For every way of cutting a byte stream into pieces: same records, same held bytes, same error as for the whole |
| `Framing.SplitParts` | services/visualizer/src/scrap_monitoring_visualizer/receiver/framing.py:25-40 | Records are complete lines in order, and with what is held they make up the input |
| `Framing.TooLongMeans` | services/visualizer/src/scrap_monitoring_visualizer/receiver/framing.py:25-40 | An error is raised exactly when limit bytes in a row have no line feed |
| `Framing.RecordsBeforeLongLine` | services/visualizer/src/scrap_monitoring_visualizer/receiver/framing.py:29-45 | When a line is too long, the records are the complete lines before it |
| `Framing.SplitContinues` | services/visualizer/src/scrap_monitoring_visualizer/receiver/framing.py:25-40 | What is held together with the next piece continues the split of everything before |
| `Framing.LineFramer.Feed` | services/visualizer/src/scrap_monitoring_visualizer/receiver/framing.py:25-40 | The records completed by a piece and the new buffer; an error clears it |
| `Framing.LineFramer.DiscardPartial` | services/visualizer/src/scrap_monitoring_visualizer/receiver/framing.py:42-45 | Empties the buffer and tells whether it held anything |
| `CameraPipeline.EveryInterleaving` | services/visualizer/src/scrap_monitoring_visualizer/synthetic_camera/pipeline.py:117-320 | Over every interleaving of state changes, polls, child steps and closing: at most one render in flight, a request waits only behind it, at most two frames remembered, published targets rise within a run, every image is paired with the frame of its own target |
| `CameraPipeline.NothingStaleIsPublished` | services/visualizer/src/scrap_monitoring_visualizer/synthetic_camera/pipeline.py:267-320 | A poll publishes at most one image, of the current generation, as the child reported it |
| `CameraPipeline.AtMostTwoFrames` | services/visualizer/src/scrap_monitoring_visualizer/synthetic_camera/pipeline.py:138-150 | The frame dictionary never holds more than two entries |
| `CameraWorker.WorkerStaysSound` | services/visualizer/src/scrap_monitoring_visualizer/synthetic_camera/worker.py:181-227 | Every worker and child step keeps the one-slot queues and flags consistent; a reported outcome is of the current generation |
| `CameraWorker.NothingInFlightMeansRoom` | services/visualizer/src/scrap_monitoring_visualizer/synthetic_camera/worker.py:191-200 | With nothing in flight the request queue has room |
| `CameraWorker.SubmittedIsSentOrWaits` | services/visualizer/src/scrap_monitoring_visualizer/synthetic_camera/worker.py:181-200 | A request is sent when nothing is in flight; otherwise it waits, in place of the one that waited before it, which is named |
| `CameraWorker.PollReportsCurrent` | services/visualizer/src/scrap_monitoring_visualizer/synthetic_camera/worker.py:207-227 | An outcome sends the request that waits and is reported unless it is of an older generation |
| `CameraWorker.InvalidatedIsStale` | services/visualizer/src/scrap_monitoring_visualizer/synthetic_camera/worker.py:202-205 | Invalidating forgets what waits and makes everything in flight stale |
| `CameraWorker.ChildAnswersRequest` | services/visualizer/src/scrap_monitoring_visualizer/synthetic_camera/worker.py:64-146 | The child takes the one request there is and answers it under its target, with the image of its frame or without one |
| `CameraWorker.LatestSyntheticRenderWorker.SubmitFrame` | services/visualizer/src/scrap_monitoring_visualizer/synthetic_camera/worker.py:181-189 | Sends, or replaces what was pending and names it |
| `CameraWorker.LatestSyntheticRenderWorker.InvalidateAll` | services/visualizer/src/scrap_monitoring_visualizer/synthetic_camera/worker.py:202-205 | A new generation, and nothing pending |
| `CameraWorker.LatestSyntheticRenderWorker.PollOutcome` | services/visualizer/src/scrap_monitoring_visualizer/synthetic_camera/worker.py:207-227 | Reports a current outcome, drops a stale one, and sends what was pending |
| `CameraWorker.LatestSyntheticRenderWorker.DrainOutcomes` | services/visualizer/src/scrap_monitoring_visualizer/synthetic_camera/worker.py:207-219 | The loop empties the outcome queue, clears the in-flight flag if there was any outcome, and keeps the last |
| `CameraPipeline.DueIndex` | services/visualizer/src/scrap_monitoring_visualizer/synthetic_camera/pipeline.py:152-163 | Everything skipped is due, and the target it stops at is not |
| `CameraPipeline.LatestDueIsSubmitted` | services/visualizer/src/scrap_monitoring_visualizer/synthetic_camera/pipeline.py:152-176 | Of the targets from the next one on that are due, up to a last one, only that last one is submitted, if its id is new: drawn, remembered and handed to the worker; the index moves past it |
| `CameraPipeline.NothingDueNothingSubmitted` | services/visualizer/src/scrap_monitoring_visualizer/synthetic_camera/pipeline.py:152-176 | With nothing due nothing is submitted |
| `CameraPipeline.SegmentIsTaken` | services/visualizer/src/scrap_monitoring_visualizer/synthetic_camera/pipeline.py:194-265 | What a new segment submits, in order: the left end of the very first one, the latest due and the last target of the old schedule, and the only target of a segment that holds; otherwise its targets are scheduled from now on |
| `CameraPipeline.ChangeMeans` | services/visualizer/src/scrap_monitoring_visualizer/synthetic_camera/pipeline.py:194-215 | A closed pipeline ignores changes; a new run forgets the old one; a lost connection forgets what was about to be shown; a segment is taken only on a connection and only once |
| `CameraPipeline.PollPublishes` | services/visualizer/src/scrap_monitoring_visualizer/synthetic_camera/pipeline.py:267-320 | A poll publishes an image with the frame remembered for its target, or clears what is shown when there is none |
| `SyntheticCamera.SyntheticCameraPipeline.OnStateChanged` | services/visualizer/src/scrap_monitoring_visualizer/synthetic_camera/pipeline.py:194-265 | The pipeline after a new scene state |
| `SyntheticCamera.SyntheticCameraPipeline.PollWorker` | services/visualizer/src/scrap_monitoring_visualizer/synthetic_camera/pipeline.py:310-320 | The pipeline after a poll, published images included |
| `SyntheticCamera.SyntheticCameraPipeline.Submit` | services/visualizer/src/scrap_monitoring_visualizer/synthetic_camera/pipeline.py:138-150 | The frame dictionary and target ids after a submission |
| `SyntheticCamera.SyntheticCameraPipeline.SubmitWhatIsDue` | services/visualizer/src/scrap_monitoring_visualizer/synthetic_camera/pipeline.py:152-176 | Only the latest due target is submitted |
| `SyntheticCamera.SyntheticCameraPipeline.SubmitEndOfSegment` | services/visualizer/src/scrap_monitoring_visualizer/synthetic_camera/pipeline.py:178-192 | The final target of a segment replaces what is scheduled |
| `SyntheticCamera.SyntheticCameraPipeline.Reset` | services/visualizer/src/scrap_monitoring_visualizer/synthetic_camera/pipeline.py:117-136 | A run reset forgets everything of the run before |
| `Rotation.ScansPartition` | services/simulation-server/src/measurement/rotation.rs:251-302 | Over every run successive scans hold every sample index exactly once, in order |
| `Rotation.SamplesOfScan` | services/simulation-server/src/measurement/rotation.rs:251-302 | Scan k holds exactly the samples i with (k - 1) n <= i d < k n |
| `Rotation.RotationSize` | services/simulation-server/src/measurement/rotation.rs:251-302 | A rotation holds floor(n/d) or ceil(n/d) samples |
| `Rotation.TimesFit` | services/simulation-server/src/measurement/rotation.rs:72-131 | Sample times lie in their rotation's half-open interval |
| `Rotation.NextScanIsRotation` | services/simulation-server/src/measurement/rotation.rs:251-302 | A scan has between 1 and 32768 points; no-points and every validation error are unreachable |
| `Rotation.ScanHolds` | services/simulation-server/src/measurement/rotation.rs:251-302 | Scan k lasts from k - 1 to k rotations and holds exactly the samples that fall into it, each with the time at which the sample rate comes to it and the quantised angle at which the beam then points, whole turns left out |
| `Rotation.ScanStops` | services/simulation-server/src/measurement/rotation.rs:251-308 | There is no scan only when its id or its last sample no longer fits 63 bits, or a boundary no longer fits a double |
| `Rotation.AcceptedRates` | services/simulation-server/src/measurement/rotation.rs:334-358 | The checks accept exactly the rates with 1 to 32768 samples per rotation and an angle in range |
| `Rotation.SensorRotationScheduler.Create` | services/simulation-server/src/measurement/rotation.rs:180-206 | A scheduler, or the first failing check |
| `Rotation.SensorRotationScheduler.Next` | services/simulation-server/src/measurement/rotation.rs:251-302 | The next scan and schedule; on an error nothing advances |
| `Quality.ScaledWordThreshold` | services/simulation-server/src/measurement/generation.rs:55-69 | The 64-step division gives ceil(c * 2^64 / total) with a remainder that never exceeds the total |
| `Quality.ThresholdIsUnique` | services/simulation-server/src/measurement/generation.rs:55-69 | There is only one such threshold |
| `Quality.DrawnInProportion` | services/simulation-server/src/measurement/generation.rs:20-48 | Of all 2^64 words quality q is drawn by a number within one of freq[q] * 2^64 / total, and by none if its frequency is 0 |
| `Quality.DrawQuality` | services/simulation-server/src/measurement/generation.rs:42-48 | A word draws the one quality whose interval it lies in |
| `Quality.NewDistribution` | services/simulation-server/src/measurement/generation.rs:20-40 | Thresholds of the cumulative frequencies; fails exactly when all are 0 |
| `Dropout.ActiveMeans` | services/simulation-server/src/measurement/generation.rs:124-185 | A time is marked exactly when it lies in a half-open outage that the random stream defines |
| `Dropout.MaskAnswers` | services/simulation-server/src/measurement/generation.rs:124-185 | A batch is refused if and only if it is empty, negative, not rising or not later than the one before, or more than 100000 outages start by its last time; otherwise each time is answered by whether it lies in an outage |
| `Dropout.OutagesAreDrawn` | services/simulation-server/src/measurement/generation.rs:88-171 | From which words the outages are drawn: the first starts after one gap, each lasts one duration, the next starts another gap after its end |
| `Dropout.BatchesDoNotMatter` | services/simulation-server/src/measurement/generation.rs:117-185 | Two batches give the two masks in a row and the same final state, unless one call would pass the per-batch limit |
| `Dropout.CutsDoNotMatter` | services/simulation-server/src/measurement/generation.rs:117-185 | However times are cut into any number of batches, masks in a row and final state are those of one call, unless that call would pass the per-batch limit |
| `Dropout.SensorDropoutScheduler.ActiveMaskOf` | services/simulation-server/src/measurement/generation.rs:117-122 | The whole batch is answered, or the scheduler is unchanged |
| `Dropout.SensorDropoutScheduler.Generate` | services/simulation-server/src/measurement/generation.rs:124-185 | The event loop; exactly when it passes the limit |
| `S2e.EveryRunIsComplete` | services/simulation-server/src/s2e.rs:493-532 | Over any encodes and resets the capsules sent and then the held tail are exactly the nodes pushed since the last reset or gap, headers are first scan ids, and fewer than 96 nodes are held |
| `S2e.CapsuleRoundTrip` | services/simulation-server/src/s2e.rs:498-532 | Decoding an encoded capsule gives it back |
| `S2e.CapsuleLayout` | services/simulation-server/src/s2e.rs:508-530 | All 781 bytes of a capsule: sync byte, scan id with the low byte first, 96 nodes of eight bytes, and the checksum of everything before it |
| `S2e.DamagedIsRefused` | services/simulation-server/src/s2e.rs:523-544 | A receiver refuses a capsule with up to four damaged bytes in a row, of the content or of the checksum |
| `S2e.EncodeSends` | services/simulation-server/src/s2e.rs:498-532 | Encoding a scan sends what is held and its samples in order, the first one marked, in capsules of exactly 96, and holds the rest; what is held is dropped unless the scan id is the next one |
| `S2e.HqEncoder.EncodeAll` | services/simulation-server/src/s2e.rs:498-532 | The buffer, header and capsules after a scan |
| `S2e.HqEncoder.PushSample` | services/simulation-server/src/s2e.rs:508-530 | One node written in place; the 96th completes a capsule with its checksum |
| `S2e.HqEncoder.ResetHeld` | services/simulation-server/src/s2e.rs:493-496 | Forgets the held tail and the last scan id |
| `Crc.BurstsAreDetected` | services/simulation-server/src/s2e.rs:534-544 | Two strings of one length that differ only inside four consecutive bytes have different checksums |
| `Crc.PaddedCrcIsBitwise` | services/simulation-server/src/s2e.rs:534-544 | The checksum is the reflected CRC-32, bit by bit with the lowest bit first, of the bytes and the zeros that fill them up to the next multiple of four |
| `Crc.WindowsDiffer` | services/simulation-server/src/s2e.rs:534-544 | From one register two different windows of at most four bytes never meet |
| `Crc.ShiftInjective` | services/simulation-server/src/s2e.rs:534-544 | A shift step is injective |
| `Crc.PaddedCrc32` | services/simulation-server/src/s2e.rs:534-544 | The loop gives the checksum of the padded string |
| `Commands.ParseInvertsFrame` | services/simulation-server/src/s2e.rs:367-387 | A frame is accepted with a command if and only if it is that command's frame |
| `Commands.AcceptedFrames` | services/simulation-server/src/s2e.rs:367-387 | Byte by byte which frames are accepted: sync byte and a code below 0x80 alone, or a size, so many bytes, and a last byte that makes all bytes cancel out |
| `Commands.OneByteIsDetected` | services/simulation-server/src/s2e.rs:367-387 | No frame with a payload is accepted after a change of any one byte |
| `Commands.ParseCommand` | services/simulation-server/src/s2e.rs:367-387 | The parser as it runs |

## Left out

- RationalToF64IsCorrectlyRounded: for ratios whose bit length exceeds 32 bits it states only that the result is None; the conversions of the program never get that far (`FromDecimals` bounds the sizes).
- FromDecimals: starts from the digits and exponents of two decimals; printing and parsing the decimal text of a double is not part of this model.
- Uniform: over reals, so the step down to the next double when rounding reaches the upper bound does not occur.
- WeightedSum: over reals the running compensation is always 0; rounding errors of compensated sums are not modelled.
- Rounding of f64 in geometry, volumes, rates and angles, with the checks that a result is finite; that of sample times and boundaries is modelled where the sample rate is exactly its decimal value.
- The Gaussian profile, the tangent of the angle of repose and the sine bump: a footprint positive where there is weight, any positive slope, and any bump with the bounds and the integral that the proofs name.
- Boundary containment, the mean height around an inlet and ray casting: functions of the surface and the place.
- GenerationRuntime.GenerationRuntime.TryNextCompletedScans: worker threads and channels are calls, so a dead worker or a mismatched response does not occur, and after a failed batch the state is only said to be terminal.
- Measure: ends with the resolved distances; reflection errors, dropout, noise and quality are applied to them later (dropout and quality are modelled on their own).
- SpatialTo: where and when falling and collection events are placed, and what an attempt to place a void finds, is an arbitrary draw that may fail; which voids are open, closed and replaced is modelled.
- NextTogether: once an event that still lives was forgotten, later batches are not claimed to equal the twin's.
- RatesDecide: both sensors have the same rates, as the program builds them; for other pairs of rates `NextGoes` and `EveryQuietRun` hold.
- Triangulation.Triangulate: with a positive tolerance, removing vertices that hardly turn changes the area; it is related to that of the vertices kept.
- WeightsRepresentArea: that a simple polygon always has an ear, and that its last triangle turns left, is not proved; what a triangle turning right would add is stated exactly.
- TrianglesTile: that the last triangle of a simple polygon turns left is not proved, so it is a condition; the count of triangles over a point holds without it.
- GridAssembly.AssembledGridIsValid: node coordinates, cell coverage and the limit on the number of nodes are not modelled.
- Simulator.ScenarioSimulator.Build: starts from the empty surface the runtime builds, not from an arbitrary nearly empty one.
- ScenePublisher.TcpScenePublisher.PublishKeyframe: what makes a keyframe valid is an arbitrary check; sockets, timeouts, backoff and the wake-up of the sender are the steps they cause.
- SceneReceiver.SceneReceiver.ReceiveOne: a record arrives parsed, or unreadable; JSON and its schema are not modelled.
- CameraPipeline.EveryInterleaving: which frame a target shows, the due times and the clock are arbitrary; status, rates and the waiting loop are left out, and the death of the child is only a flag.
- Rotation.SensorRotationScheduler.Next: the quantisation of angles is any function that stays within a turn, and seeding the first angle is left out.
- S2e.HqEncoder.PushSample: a distance arrives as the 32-bit value of the capsule field.
- Commands.ParseCommand: answers to commands, device information and the endpoint's streaming state are left out.
- Allocation failures; the explicit limits of the program are kept.
- Seed derivation, SHA-256 and the generator's statistics.
- Configuration, HTTP, WebSockets, process management, rendering and the user interface.
