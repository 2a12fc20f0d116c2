# Alumina interface: coordinator, worker and client protocols

Dafny models and proofs for the protocols by which one browser starts, renews, stops and observes a job that runs on
several motion controllers at once. Devices answer over a channel that may lose a request or its reply.

`dafny verify dfyconfig.toml` checks everything. Each stateful object of the program has a value model that says what
one call computes (`…Model.dfy`, `StartTiming`, `ParticipantSchedule`), a class whose imperative methods are proved
equal to it, modules that say in other terms exactly when each call succeeds and what it must then do, and modules that
prove properties of all runs of the model.

| part | step functions | imperative objects | what each call must do | all runs |
|---|---|---|---|---|
| start coordinator | `ParticipantSchedule`, `CoordinatorModel`, `StartTiming`, `Ordering` | `DistributedScheduleCoordinator` | `ParticipantExactness`, `CoordinatorPhases`, `CoordinatorDuties`, `StartExactness` | `ParticipantRuns`, `CoordinatorRuns` (arbitrary replies), `Joint*` (with devices and channel) |
| retained job | `LiveJobModel` | `LiveCachedJob` | `LiveJobExactness` | `LiveJobRuns`, `LiveJobWitness` |
| browser worker | `WorkerModel`, `WorkerTiming` | `ControlWorker` | `WorkerTiming`, `WorkerProgress`, `WorkerCommands` | `WorkerRuns`, `WorkerJobRuns`, `WorkerBarrier`, `WorkerEnding`, `WorkerWitness` |
| waveform, telemetry, capability, framing clients | `WaveformModel`, `TelemetryModel`, `CapabilityModel`, `ProtocolClientModel` | `WaveformCapture`, `TelemetrySubscription`, `CapabilityDownload`, `ProtocolClient` | `WaveformProgress`, `TelemetryProgress`, `CapabilityProgress`, `ProtocolClientModel` | in the model files, `TelemetryDevice` |

## Assumptions about what is not in the repository

`DeviceModel.dfy` states the firmware behaviour the joint theorems rest on: a device starts blank, installs only from
the prepared state, confirms only what it installed, runs only what it confirmed, applies or refuses each request as a
whole, reports its own state truthfully and never forgets an installed commit. Aborted, Expired, Complete and
post-commit Faulted absorb. An actor of the job may fault at any time after the start, whatever the schedule does then
or later; the fault is reported, beside the schedule, until the actors are cancelled. A device that is told to abort a
commit it never installed stays as it is, or reports a bare Aborted or Cancelled. Blank devices only: a device left over
from an earlier coordinator is not modelled there. A request that was abandoned was applied before the abandonment or is
never applied: no abandoned request reaches its device later.

Device identities are distinct. `after_cached_artifacts` documents that duplicates are rejected
(src/distributed_schedule.rs:286) but does not check for them (src/distributed_schedule.rs:304-325), so this is a premise.

Clock estimates, clock refusals and canonical wire encodings enter as inputs. The only facts used of a clock are that
its interval endpoints are ordered and, where a lemma says so, that the interval contains the true value. Decoders yield
a value or a refusal; range decoders yield ranges that lie inside the record they announce.

## What the proofs found

- A stop that is accepted while some participant is shown Installing (bound, lost on the way, seen merely prepared)
  never ends Aborted, SplitAfterAbort, Cancelled or Complete, because no schedule report of that device can match the
  bound commit again. It ends Faulted once that very device has reported an actor fault beside its prepared schedule
  (and everyone else is cleaned up), and otherwise never: `JointStranded.StrandedEndsExactly`,
  `JointStranded.StrandedEndsFaultedOrNever`. Both cases are reached from blank devices in `JointWitness`. A quiet stop
  drains exactly when nobody is shown Installing (`JointStop.StopSettlesExactlyWhenNoneInstalling`): otherwise the
  stranded participant may be asked for its status forever, each truthful answer being refused.
- Once a stranded participant is shown Cancelled, the coordinator refuses to go on as soon as nobody before it in identity
  order has anything to send; nobody after it is asked to abort (`JointBlocked.CancelledBlocksTheRest`).
- A shown actor fault hides the schedule: a participant shown Faulted under a bound commit is asked to do nothing and
  counts as cleaned up even while its device is still confirmed or running (`JointAbort.ShownFaultEndsTheAbort`).
- `request_stop` drops the queue of begun requests without abandoning them (src/live_job.rs:555), even when the stop is
  then refused. Exactly the participants still queued are lost to every later request, abort included. The worker opens
  a status round and asks its first request in one step; a stop accepted when that request is answered leaves every
  other participant as it was last shown, for good (`LiveJobRuns.StopAfterFirstAnswerStrandsTheRest`, reached from a
  fresh coordinator in `LiveJobWitness.StopAfterFirstAnswerIsReachable`).
- When an attended lease round falls due, the worker faults the whole job exactly if a stop was accepted, a participant
  awaits an answer nobody can bring, or some participant can no longer be renewed (`WorkerJobRuns.DueRenewalFaultsExactly`).
  So one participant completing before the others, and a stop that misses the guard, both fault a healthy job; each is
  reached from a fresh coordinator in `WorkerWitness`.
- A participant that misses its confirmation ends the job at once while nobody has been seen past the guard: only a shown
  fault turns to cleanup (src/distributed_schedule.rs:1092-1106), so an Expired one makes the phase Faulted and terminal,
  its confirmed peers are asked nothing more, not even to abort, and a stop is refused although they are about to start
  (`CoordinatorPhases.FailureEndsTheConfirmation`, for the worker in every interleaving `WorkerEnding.EndedJobIsLeftAlone`;
  reached from a fresh coordinator in `LiveJobWitness.ExpiredPeerEndsTheConfirmation`).
- If the range decoder lets a capability identity of length zero through (the decoder is not part of this model), that
  identity is retained although its range is refused, and blocks the download until a reset
  (`CapabilityModel.NothingRemainsExactlyForEmptyIdentity`).
- A diagnostic mutation whose reply arrives but is refused is repeated without a status poll; only a lost one is
  reconciled first (`WaveformModel.RefusedMutationIsRepeated`). Lost stops and unsubscribes are only polled.
- A failed native request leaves both identities to the next one, so its late reply would be taken for the next request of the
  same operation (`ProtocolClientModel.EarlierReplyIsTakenExactly`); uniqueness holds among successful requests.

## Model

| member | source | states |
|---|---|---|
| JointTheorems.AllOrNothingStart | src/distributed_schedule.rs:778-790 | In every run of coordinator, devices and lossy channel, once any device is confirmed, priming, running or complete, every device has installed, and it is exactly the commit planned for it |
| JointProofs.HandleKeepsInv | src/m7_simulation.rs:606-677 | A device handling a request in any allowed way keeps the joint invariant |
| JointProofs.DeliverKeepsInv | src/distributed_schedule.rs:1036-1060 | Accepting a reply, whatever its status, keeps the joint invariant, and an observed fault activates cleanup in the same step |
| JointProofs.DropKeepsInv | src/distributed_schedule.rs:1067-1072 | Abandoning a request keeps the joint invariant whether or not the device applied it |
| JointRequests.CoordinateKeepsInv | src/distributed_schedule.rs:668-1028 | Every coordinator operation keeps the joint invariant |
| JointRequests.RunsKeepInv | src/distributed_schedule.rs:340-433 | The joint invariant holds in every state of every run from blank devices |
| JointTheorems.CleanupEndsFaulted | src/distributed_schedule.rs:1177-1199 | While fault cleanup is active the only terminal phase is Faulted, even when every actor ends cancelled |
| JointTheorems.FaultsAreNeverLaundered | src/distributed_schedule.rs:1050-1106 | Once active, fault cleanup stays active, intent and epoch never change, the intent is Abort or Cancel, and no success or clean stop is ever reported |
| JointTheorems.LeaseSafety | src/distributed_schedule.rs:480-498 | In every state, last reported lease <= device lease <= browser-authorized lease |
| JointTheorems.AuthorizedLeaseNeverFalls | src/distributed_schedule.rs:880-932 | Along every run a participant's authorized lease never falls |
| JointTheorems.RenewalRoundIsAtomic | src/distributed_schedule.rs:880-932 | A renewal round is opened for every participant or changes nothing; each requested expiry exceeds the report, is at least the authorized one, and repeats it only while unapplied |
| JointAbort.AbortIsClassified | src/distributed_schedule.rs:1177-1199 | With every device at rest or shown faulted, an aborting job is in exactly one of Complete, Aborted, SplitAfterAbort and Faulted, each characterised by the device states and the cleanup flag |
| JointAbort.ShownFaultEndsTheAbort | src/distributed_schedule.rs:1201-1250 | A participant shown Faulted under a bound commit is asked nothing more and counts as cleaned up, wherever its schedule stands |
| JointAbort.StepsAreBounded | src/distributed_schedule.rs:944-1028 | Sends, applications, arrivals and device moves in any order, anything in flight at the start: each of the first three strictly lowers a weight, until a device refuses an install that was still on its way |
| JointAbort.SilenceMeansResolved | src/distributed_schedule.rs:1201-1232 | A drainable abort is never refused, and falls silent only when everyone with nothing in flight is stopped, cancelled, faulted or past the guard |
| JointAbort.AbortDrains | src/distributed_schedule.rs:944-1028 | From any drainable aborting state: a device refuses its install on the way, or at most eight steps per participant remain and then everyone is stopped, cancelled, faulted or past its guard |
| JointAbort.QuietAbortDrains | src/distributed_schedule.rs:944-1028 | With no install in flight every settling run from such a state has that bound, is never refused and ends resolved at silence |
| JointStranded.StrandedEndsExactly | src/distributed_schedule.rs:1162-1250 | With a bound commit its device never held, the only terminal phase is Faulted, and it holds if and only if every such participant was shown an actor fault and everyone else is cleaned up |
| JointStranded.StrandedEndsFaultedOrNever | src/distributed_schedule.rs:1162-1199 | In every continuation of any length that participant stays stranded, and the job is terminal only as Faulted after its device reported an actor fault |
| JointStop.StopSettlesExactlyWhenNoneInstalling | src/distributed_schedule.rs:800-1028 | After a quiet accepted stop, every settling run has at most eight steps per participant and ends resolved at silence, if and only if no participant was shown Installing; those shown so are exactly the stranded ones, and with one of them the job has not ended |
| JointStop.InstallingLoops | src/distributed_schedule.rs:959-1028 | With a participant shown Installing at the stop there is a settling run beyond any such bound |
| JointBlocked.CancelledBlocksTheRest | src/distributed_schedule.rs:1201-1232 | With a stranded participant shown Cancelled the next request is refused if and only if nobody before it has anything to send, and otherwise goes to someone before it |
| JointBlocked.OnlyEarlierAreAsked | src/distributed_schedule.rs:959-1028 | In every settling run from there, nobody from that participant on is asked anything |
| JointWitness.StrandedStopIsReachable | src/distributed_schedule.rs:800-815 | A concrete run from blank devices ends in an accepted stop with a stranded participant |
| JointWitness.StrandedStopCanEndFaulted | src/distributed_schedule.rs:1234-1250 | The same run goes on to Faulted when the still prepared device reports an actor fault |
| CoordinatorRuns.IntentNeverReturns | src/distributed_schedule.rs:668-834 | Against arbitrary replies the intent only moves forward and the epoch is bound exactly in Install, Confirm and Abort |
| CoordinatorRuns.RequestGrammar | src/distributed_schedule.rs:974-1018 | No commit or prepare follows a confirm; no prepare, commit or confirm follows an abort or cancel; no prepare follows a commit |
| CoordinatorRuns.CommitFollowsReadyConfirmFollowsInstalled | src/distributed_schedule.rs:668-792 | Every commit is preceded by an all-ready state, every confirm by an all-installed one |
| CoordinatorPhases.PreparePhases | src/distributed_schedule.rs:349-368 | While preparing, each phase if and only if: Faulted when everyone reported and someone failed or is past the guard, Ready when everyone is, Preparing otherwise |
| CoordinatorPhases.InstallPhases | src/distributed_schedule.rs:369-389 | While installing, each phase if and only if: one failure means Faulted even beside a participant past its guard |
| CoordinatorPhases.ConfirmPhases | src/distributed_schedule.rs:390-411 | While confirming, each phase if and only if: one participant past its guard means Irrevocable even beside a failed one |
| CoordinatorPhases.AbortPhases | src/distributed_schedule.rs:1177-1199 | While aborting, each phase if and only if, in terms of who is bound and where it was shown |
| CoordinatorPhases.CancelPhases | src/distributed_schedule.rs:413-431 | While cancelling, each phase if and only if |
| CoordinatorPhases.AbortIsAcceptedExactly | src/distributed_schedule.rs:800-815 | An abort is accepted if and only if the start is bound and, while installing, nobody is past the guard or somebody failed; while confirming, nobody is past the guard; it turns the intent alone |
| CoordinatorPhases.CancelIsAcceptedExactly | src/distributed_schedule.rs:823-834 | A cancellation is accepted if and only if no start is bound and the job is neither complete nor already cancelled |
| CoordinatorDuties.NextRequestIsExact | src/distributed_schedule.rs:941-1028 | A request is emitted, with this resulting state, if and only if the job is open and it is what the first participant owes that neither awaits an answer nor is content; silence if and only if the job ended or everyone waits or is content |
| CoordinatorDuties.SilenceMeansDone | src/distributed_schedule.rs:941-1028 | Going forward, silence with nothing awaited means everyone is Ready, Installed, or confirmed, according to the intent |
| CoordinatorDuties.AnswerIsExact | src/distributed_schedule.rs:1036-1106 | An answer changes the machine it is for; if someone is then shown faulted once everyone reported, the job turns to cleanup, by abort when bound and by cancellation before; nothing else changes |
| CoordinatorDuties.StrangersAreRefused | src/distributed_schedule.rs:1036-1090 | An answer or a loss of a device that is no participant is refused and changes nothing |
| CoordinatorDuties.StatusRoundIsExact | src/distributed_schedule.rs:845-866 | A status round begins if and only if nobody awaits an answer, and then asks everyone |
| CoordinatorDuties.LeaseRoundIsExact | src/distributed_schedule.rs:880-932 | A lease round is granted, with this state and these requests, if and only if the job is attended and confirmed or running and the renewals can be dealt so that everyone may send its own |
| ParticipantRuns.DoubtBlocksMutations | crates/alumina-interface-client/src/schedule.rs:197-422 | In every run of one participant, after a mutation was lost or answered by nothing usable, no mutation of any kind is begun before a report was validated and retained |
| ParticipantRuns.ReportChangesOnlyBySettling | crates/alumina-interface-client/src/schedule.rs:369-411 | The retained report changes only to one that matches identity, commit and lease and does not regress, or to the blank one for a replaceable foreign attempt |
| ParticipantRuns.CommitIsBoundOnce | crates/alumina-interface-client/src/schedule.rs:225-256 | A bound commit is never replaced or forgotten |
| ParticipantExactness.PhaseIsExact | crates/alumina-interface-client/src/schedule.rs:148-194 | Each phase if and only if: an actor fault hides everything, cancelled actors hide the schedule, only a ready preparation is Ready or Installing |
| ParticipantExactness.OperationsAreExact | crates/alumina-interface-client/src/schedule.rs:197-365 | Each operation is emitted if and only if the machine may send it: which preparation, commit or lease it names, from which phases; what it binds |
| ParticipantExactness.ReportsAreJudgedExactly | crates/alumina-interface-client/src/schedule.rs:452-615 | A report is valid if and only if it names the own preparation and, under a commit, that commit field by field; it advances if and only if it repeats, follows in the schedule's order, or cancels as a whole |
| ParticipantExactness.AnswersAreExact | crates/alumina-interface-client/src/schedule.rs:369-411 | For every answer: what is retained, whether doubt ends, and which result is returned; a rejection whose report is retained still returns the device's status |
| DeviceModel.TruthfulReportsAdvance | crates/alumina-interface-client/src/schedule.rs:533-615 | Truthful reports of an ageing device always pass the client's regression check |
| DeviceModel.PhaseOfTruthfulReport | crates/alumina-interface-client/src/schedule.rs:148-194 | The phase the client derives from a truthful report is Faulted under a shown fault, and else that of the schedule |
| StartTiming.CeilProductRatioIsExact | src/distributed_schedule.rs:1123-1140 | The result is the least cycle count that covers the duration; the 128-bit steps never overflow; it fails exactly on a zero divisor or when no 64-bit count covers it |
| StartTiming.PlanCommitIsExact | src/distributed_schedule.rs:687-757 | A commit is planned if and only if its fifteen fields are those of the job, the participant, the mapped epoch and the timing, every deadline lies ahead in order, the duration converts, an autonomous lease covers it, and it encodes |
| StartTiming.BindStartIsAtomic | src/distributed_schedule.rs:668-765 | Binding changes nothing, or gives every participant the one commit for this job, that participant and the shared epoch, planned from that device's own clock and kept by every field |
| StartTiming.BindStartIsExact | src/distributed_schedule.rs:668-765 | A start is bound, with this resulting state, if and only if the job is Ready and unbound and the clocks can be dealt to the participants so that each has such a commit of its own |
| StartExactness.ShortLeaseIsExact | src/distributed_schedule.rs:724-737 | A lease is refused as too short if and only if an autonomous job outlasts it, and the error names the least lease that would do |
| StartTiming.BindStartIgnoresOrder | src/distributed_schedule.rs:668-765 | Permuting the inputs changes neither the new state nor success, and not the error when devices are distinct |
| StartTiming.DeadlineWindowIsWorst | src/distributed_schedule.rs:610-653 | The window is the worst class over all participants |
| StartExactness.DeadlineClassIsExact | src/distributed_schedule.rs:621-647 | A participant is past return, abort-only or open exactly as some cycle its device may be at has reached the guard, only the deadline, or neither |
| StartExactness.WindowIsExact | src/distributed_schedule.rs:621-652 | Open if and only if everybody is; no return if and only if somebody is met past its guard before anyone that cannot be judged |
| StartExactness.ConfirmationIsExact | src/distributed_schedule.rs:773-792 | A confirmation is granted if and only if everyone is shown Installed, an epoch is bound and no device may have reached its deadline or guard; it changes the intent alone |
| StartTiming.ConfirmationPrecedesEveryDeadline | src/distributed_schedule.rs:773-792 | If the clock intervals contain the true cycles, a granted confirmation is truly before every confirm deadline and guard |
| StartTiming.ReplayBoundsEveryStart | src/distributed_schedule.rs:512-597 | Spread and target error bound every set of true starts that lies in the mapped intervals |
| StartTiming.ReplayBoundsAreAttained | src/distributed_schedule.rs:512-597 | Both bounds are attained by interval endpoints |
| StartTiming.ReplayIgnoresOrder | src/distributed_schedule.rs:512-597 | Input order does not change the replay |
| StartExactness.ReplayIsExact | src/distributed_schedule.rs:512-597 | A replay with this evidence succeeds if and only if every participant's own clock reads the observation of its own planned start back, for the same boot, with the exact target error |
| DistributedCoordinator.DistributedScheduleCoordinator.BindStart | src/distributed_schedule.rs:668-765 | The staged loop and the final write leave the state that BindStartIsExact determines field by field, or the old one |
| DistributedCoordinator.DistributedScheduleCoordinator.DeadlineWindow | src/distributed_schedule.rs:610-653 | The loop with its early exit computes the worst window |
| DistributedCoordinator.DistributedScheduleCoordinator.BeginLeaseRenewal | src/distributed_schedule.rs:880-932 | The clone that is edited and swapped in gives the all-or-nothing round |
| DistributedCoordinator.DistributedScheduleCoordinator.BeginStatusRound | src/distributed_schedule.rs:845-866 | The loop begins a status request for every participant or changes nothing |
| DistributedCoordinator.DistributedScheduleCoordinator.NextRequest | src/distributed_schedule.rs:941-1028 | The scan with its early returns finds the first idle participant that owes something, in the state NextRequestIsExact determines |
| DistributedCoordinator.DistributedScheduleCoordinator.AcceptResponse | src/distributed_schedule.rs:1036-1060 | The reply is applied to its owner and cleanup is activated before the error is returned; the phase returned is the one PreparePhases to CancelPhases determine |
| DistributedCoordinator.DistributedScheduleCoordinator.ReconcileStartObservations | src/distributed_schedule.rs:512-597 | The collecting loop computes the replay whose bounds are proved above |
| DistributedCoordinator.DistributedScheduleCoordinator.SplitAfterAbortIsTerminal | src/distributed_schedule.rs:1252-1265 | The flag-carrying loop decides that everyone stopped or completed and both occur |
| LiveJobRuns.LossBarrier | src/live_job.rs:322-352 | With one operation outstanding and no stop inside a round, after a loss no mutation is emitted before every participant has answered a status request issued since |
| LiveJobRuns.LossAlwaysSweeps | src/live_job.rs:406-422 | Declaring a loss is never refused, drops the whole queue and asks for a sweep, also inside a sweep |
| LiveJobRuns.SweepAlwaysOpens | src/live_job.rs:326-334 | Opening a required sweep never fails and asks every participant |
| LiveJobRuns.AbandonQueueClears | src/live_job.rs:413-420 | Giving up a queue clears every begun request and is never refused |
| LiveJobExactness.OperationIsExact | src/live_job.rs:322-352 | Nothing after a fault; else the head of the queue; else the first request of a required sweep, refused if and only if someone awaits an answer; else what the coordinator asks |
| LiveJobExactness.LossIsExact | src/live_job.rs:406-422 | Losing an awaited answer gives up exactly that machine and those still queued, empties the queue and requires a sweep; losing what nobody awaits changes nothing |
| LiveJobExactness.AnswerChangesOnlyTheCoordinator | src/live_job.rs:359-395 | An answer is applied by the coordinator and touches neither queue, sweep nor stop |
| LiveJobExactness.FaultIsFinal | src/live_job.rs:303-325 | A faulted job is terminal, asks nothing and accepts no stop |
| CoordinatorPhases.ProjectionIsExact | src/live_job.rs:784-820 | Each job phase if and only if its coordinator phase; completion tells apart unbound, stopped and plain; terminal if and only if one of five phases |
| CoordinatorPhases.OneFailureEndsTheInstall | src/live_job.rs:303-352 | A job with a failed participant while installing is Faulted, asks nothing more and refuses a stop |
| CoordinatorPhases.FailureEndsTheConfirmation | src/live_job.rs:303-352 | While confirming such a job is Faulted if and only if nobody is past the guard, and then asks its confirmed peers nothing more and refuses a stop |
| LiveJobRuns.StopStrandsTheQueue | src/live_job.rs:551-567 | A stop strands exactly the participants whose requests were still queued, accepted or refused |
| LiveJobRuns.StuckForever | src/distributed_schedule.rs:959-962 | No later step of any kind reaches a stranded participant: its machine is frozen |
| LiveJobRuns.StuckForTheRun | src/distributed_schedule.rs:959-962 | In every continuation no emitted request names a stranded participant |
| LiveJobRuns.StuckBlocksEverySweep | src/live_job.rs:326-334 | With someone stranded a required sweep is refused forever, so nothing more is asked after the next loss |
| LiveJobRuns.StrandedStopNeverSettles | src/live_job.rs:303-314 | A stopped job with a participant stranded short of rest is never terminal unless it is faulted |
| LiveJobRuns.StopAfterFirstAnswerStrandsTheRest | src/live_job.rs:551-567 | Round, ask, answer, accepted stop: every participant but the first keeps its phase forever, is named by no later request, and if it was short of rest the job is never terminal unless faulted |
| LiveJobWitness.StopAfterFirstAnswerIsReachable | src/live_job.rs:551-567 | A concrete serial run from a fresh coordinator through that stop, with the second participant stranded while Confirmed |
| LiveJobWitness.ExpiredPeerEndsTheConfirmation | src/distributed_schedule.rs:390-411 | A concrete serial run from a fresh coordinator: one participant shown Confirmed, the other Expired; the job is Faulted, asks nothing more and refuses a stop |
| LiveJob.LiveCachedJob.NextOperation | src/live_job.rs:322-352 | The method opens the sweep, serves the queue and then the coordinator as specified |
| LiveJob.LiveCachedJob.AbandonPending | src/live_job.rs:406-422 | The loop abandons the queue one by one and flags the sweep only when a request was lost |
| LiveJob.LiveCachedJob.RequestStop | src/live_job.rs:551-567 | The queue is cleared before the coordinator decides |
| WorkerRuns.RunsKeepOwned | src/browser_worker.rs:1857-1932 | Over every interleaving of commands and completions the ownership invariant holds |
| WorkerRuns.BusyMeansExactlyOneTask | src/browser_worker.rs:2416-2437 | A device entry is Busy exactly when one live task, and only one, of its generation holds its state |
| WorkerRuns.FinishRestoresOrIsStale | src/browser_worker.rs:3036-3063 | A finishing task puts back its own state, or its connection is gone or of a later generation and nothing changes |
| WorkerRuns.FinishAlwaysRestoresBoth | src/browser_worker.rs:2338-2370 | A finishing job operation always restores job and device together |
| WorkerRuns.BusyJobMeansOneOperation | src/browser_worker.rs:2079-2089 | The job is Busy exactly while one operation task carries it, never two |
| WorkerRuns.RetainedConnectionsStay | src/browser_worker.rs:1857-1932 | While a job is retained its connections stay configured in the generations they were staged with |
| WorkerRuns.TakeShape | src/browser_worker.rs:1998-2091 | An operation leaves with the job and one idle matching device, or neither entry is taken |
| WorkerJobRuns.WorkerDrivesJobSerially | src/browser_worker.rs:1969-2120 | Over every interleaving, what the worker shows of the retained job at any later time is reached by a serial run of that job |
| WorkerBarrier.WorkerLossBarrier | src/live_job.rs:397-431 | Over every interleaving with no stop inside a round: between a lost operation and the next mutation launched for the same job, every participant has answered a status request |
| WorkerJobRuns.DueRenewalFaultsExactly | src/browser_worker.rs:2093-2190 | A due lease round fails if and only if a stop was accepted, a participant awaits an answer, or one can no longer be renewed |
| WorkerJobRuns.FailedPreparationFaultsTheJob | src/browser_worker.rs:2038-2050 | A preparation that fails faults the retained job and moves no device |
| WorkerWitness.CompletedPeerFaultsTheJob | src/browser_worker.rs:2093-2190 | Reached from a fresh coordinator: one participant complete, the other running, no stop, and the due round fails |
| WorkerWitness.MissedStopFaultsTheJob | src/live_job.rs:505-516 | Reached from a fresh coordinator: an accepted stop missed the guard, everyone runs and is renewable, and the due round fails |
| WorkerTiming.DueRenewalIsAdmittedExactly | src/browser_worker.rs:2122-2190 | The computed leases are never the obstacle: a due round is granted exactly when nothing is queued, swept or pending, no stop was accepted, and everyone is between confirmation and end |
| WorkerTiming.AttendedTargetIsAdmissible | src/browser_worker.rs:2209-2285 | The safety side of the exact target: it exceeds the report, is at least the authorized lease, and equals it only to re-send an unapplied one outside the retry guard |
| WorkerTiming.AttendedTargetIsExact | src/browser_worker.rs:2209-2285 | Due or not, the target is the authorized lease when an unapplied request is outside the retry guard, and else the least that is new and reaches the cycle predicted for the horizon; none if and only if the lease has run out |
| WorkerTiming.RenewalIsExact | src/browser_worker.rs:2122-2190 | These renewals are requested if and only if they are everyone's targets at the nine-second horizon and the round is the first or somebody is due |
| WorkerTiming.RunOutEndsThePass | src/browser_worker.rs:2144-2182 | A pass yields nothing if and only if it meets a lease that has run out before anyone it cannot judge |
| WorkerTiming.NoRenewalExactly | src/browser_worker.rs:2122-2190 | No round is asked for if and only if the policy is autonomous, or the pass meets a run-out lease first, or everyone has a target, none is due and a round was asked before |
| WorkerTiming.WorkerPolicyPassesTheCoordinator | src/browser_worker.rs:1654-1725 | The derived start policy is valid for any running clock and its autonomous lease is never refused as too short |
| WorkerTiming.WorkerCommitTimes | src/browser_worker.rs:1654-1725 | The commit that follows has its guard one and its confirm deadline three seconds of device cycles before the start, and its lease three seconds (attended) or the job's cover plus thirty seconds (autonomous) behind it |
| WorkerCommands.StartPolicyIsExact | src/browser_worker.rs:1654-1725 | This policy is derived if and only if its leads are three and one seconds and its lease three seconds, or the least cover of the job and thirty seconds, all within 64 bits |
| WorkerJobRuns.PendingStartIsExact | src/browser_worker.rs:1606-1652 | Only the named job starts, from Ready with all its devices idle, five seconds ahead; a failed start faults it, and the request is spent either way |
| WorkerCommands.PendingStartIsCarriedOut | src/browser_worker.rs:1606-1652 | A start is carried out, with this state, if and only if the named job and its devices are at rest, it is Ready and the epoch can be bound; otherwise a job that may start is faulted; it waits if and only if the job or a device is out |
| WorkerCommands.ConfigureIsExact | src/browser_worker.rs:1857-1906 | Accepted if and only if no job binds the connection, the request is sound and a generation is left; a fresh state under a new generation, nobody else touched |
| WorkerCommands.DisconnectIsExact | src/browser_worker.rs:1908-1932 | Dropped if and only if it exists and no job binds it; everyone else stays |
| WorkerCommands.TakeIsExact | src/browser_worker.rs:2416-2437 | A device is handed out, as it stands, if and only if its entry is at rest |
| WorkerCommands.ReturnIsExact | src/browser_worker.rs:3036-3063 | A returning device is put back if and only if the entry still waits for that generation |
| WorkerCommands.StageIsExact | src/browser_worker.rs:1444-1525 | Retained if and only if no job is and every participant's device is the qualified one it was compiled for |
| WorkerCommands.StartIsExact | src/browser_worker.rs:1572-1604 | A start is noted if and only if it names the Ready job at rest and no other start is noted |
| WorkerCommands.ClearIsExact | src/browser_worker.rs:1833-1855 | The job is cleared, and a noted start with it, if and only if it is the named one, at rest and ended |
| WorkerCommands.StopIsExact | src/browser_worker.rs:1808-1831 | Accepted if and only if the named job is at rest, not ended, and its coordinator accepts the abort or cancellation; the noted start is withdrawn either way |
| WorkerProgress.InstalledJobConfirmsExactly | src/browser_worker.rs:2093-2120 | An installed job with nothing to send goes on if and only if the clocks answer and the window is open, and then confirms its first idle participant's own commit; otherwise it is unchanged and refused |
| WorkerProgress.OpenWindowIsConfirmed | src/browser_worker.rs:1998-2120 | With its devices ready such a job leaves the worker carrying that confirmation |
| WorkerProgress.RunningJobAsksEveryone | src/browser_worker.rs:2111-2120 | With no lease round due a running job asks everyone's status, the first at once, if and only if nobody awaits an answer |
| WorkerProgress.DueRoundIsLaunched | src/browser_worker.rs:2122-2190 | A due, grantable round binds everyone to its wanted lease, asks the first renewal and queues the rest in device order |
| WorkerProgress.UnjudgedRoundFails | src/browser_worker.rs:2122-2190 | A running attended job whose clock or leases cannot be judged is refused unchanged |
| WorkerProgress.SendingComesFirst | src/browser_worker.rs:2093-2100 | A job with something to send sends that and begins nothing |
| WorkerProgress.OtherPhasesWait | src/browser_worker.rs:2117-2120 | With nothing to send, in any other phase than Installed, Confirmed and Irrevocable it waits unchanged |
| WorkerProgress.ReadyJobIsTakenExactly | src/browser_worker.rs:1998-2091 | With every bound device ready: the prepared operation leaves with job and device, a failed preparation gives the job up, and with nothing prepared the job goes back |
| WorkerProgress.UnreadyJobIsTakenExactly | src/browser_worker.rs:2022-2037 | Otherwise the first device that is not ready as compiled decides: changed gives the job up, not ready changes nothing |
| WorkerProgress.IdleTurnDoesNothing | src/browser_worker.rs:2009-2020 | Without a job, with the job out or ended, nothing happens |
| WorkerEnding.EndedJobIsLeftAlone | src/browser_worker.rs:1808-2020 | In every interleaving an ended job stays as it is until it is cleared by name, and no operation of it is ever out |
| ControlWorker.ControlWorkerRuntime.TakeLiveJobTask | src/browser_worker.rs:1998-2091 | On every path the job is put back or moved out together with one device, with the operation that WorkerProgress determines |
| ControlWorker.ControlWorkerRuntime.BeginPendingJobStart | src/browser_worker.rs:1606-1652 | On every path the job is put back, faulted if its start failed |
| ControlWorker.ControlWorkerRuntime.CollectTargets | src/browser_worker.rs:2144-2182 | The loop yields the one wanted lease per participant that RenewalIsExact determines, or nothing once one lease has run out |
| WaveformModel.RetainedBytesMatchOffset | crates/alumina-interface-client/src/diagnostics.rs:610-770 | Against any device the retained length is the download offset, and a complete record validated with the announced digest and length |
| WaveformModel.RetainedBytesAreAPrefix | crates/alumina-interface-client/src/diagnostics.rs:696-770 | Against a truthful device the bytes are a prefix of its record, and all of it once complete, across losses, retries and restarts |
| WaveformModel.RangeContinuesThePrefix | crates/alumina-interface-client/src/diagnostics.rs:546-560 | Each range request starts exactly where the retained prefix of the device's record ends and names its digest |
| WaveformModel.DownloadAdvances | crates/alumina-interface-client/src/diagnostics.rs:716-770 | Every accepted range brings the download strictly closer; a refused or lost one leaves it exactly as it was |
| WaveformModel.DownloadTerminates | crates/alumina-interface-client/src/diagnostics.rs:716-770 | No more ranges are accepted than bytes were missing |
| WaveformModel.CompleteIsTheAnnouncedRecord | crates/alumina-interface-client/src/diagnostics.rs:716-770 | Even a lying device cannot complete another record than the one with the announced digest |
| WaveformProgress.AnswersAreExact | crates/alumina-interface-client/src/diagnostics.rs:610-770 | For every pending action and every answer: accepted if and only if it leads somewhere, and the capture it leads to; a refused one only ends the wait, or restarts a spoiled download |
| WaveformProgress.FinishedIsFetchedExactly | crates/alumina-interface-client/src/diagnostics.rs:676-714 | From an arm or either poll a download opens at byte 0 of this length if and only if a finished status of this capture announces it, within the limit and with a digest |
| WaveformProgress.LossIsExact | crates/alumina-interface-client/src/diagnostics.rs:660-674 | After a loss a mutation is polled, a poll or range asked again, and nothing else changes |
| WaveformProgress.ArmIsExact | crates/alumina-interface-client/src/diagnostics.rs:580-589 | An arm is accepted, and is then the next request, if and only if the capture is configured and at rest |
| WaveformProgress.StopIsExact | crates/alumina-interface-client/src/diagnostics.rs:592-607 | A stop is accepted if and only if the capture is at rest and configured, armed, downloading, complete or stopped |
| WaveformProgress.AnsweredDownloadCompletes | crates/alumina-interface-client/src/diagnostics.rs:516-770 | However the device cuts its record, a download whose requests are all answered is complete within as many exchanges as bytes were missing, with exactly that record |
| WaveformProgress.WholeRecordIsReached | crates/alumina-interface-client/src/diagnostics.rs:516-770 | From a new capture a run against an answering device reaches Complete with the whole record |
| WaveformModel.LostConfigureIsNeverBlindlyRepeated | crates/alumina-interface-client/src/diagnostics.rs:516-674 | A lost configure is sent again only after a poll proved absence |
| WaveformModel.LostArmIsNeverBlindlyRepeated | crates/alumina-interface-client/src/diagnostics.rs:610-694 | A lost arm is sent again only after a poll showed the session merely configured |
| WaveformModel.LostStopIsOnlyPolled | crates/alumina-interface-client/src/diagnostics.rs:660-674 | A lost stop is never sent again |
| WaveformModel.RefusedMutationIsRepeated | crates/alumina-interface-client/src/diagnostics.rs:610-657 | A refused reply leaves the mutation as the next request |
| WaveformCapture.WaveformCaptureMachine.AcceptResponse | crates/alumina-interface-client/src/diagnostics.rs:610-657 | The updates in place, in the source's order, leave the capture that WaveformProgress.AnswersAreExact determines |
| WaveformCapture.WaveformCaptureMachine.AcceptRange | crates/alumina-interface-client/src/diagnostics.rs:716-770 | Append, judge, and restart on a bad record compute the modelled step |
| TelemetryModel.HistoryKeepsOrderAndCadence | crates/alumina-interface-client/src/diagnostics.rs:351-389 | In every run validated events rise in sequence, never fall in losses, and any two are at least their distance in periods apart |
| TelemetryModel.PollAcknowledgesNewestValidated | crates/alumina-interface-client/src/diagnostics.rs:223-241 | A poll acknowledges exactly the newest validated event, or nothing before the first |
| TelemetryDevice.OnlyValidatedEventsAreFreed | crates/alumina-interface-client/src/diagnostics.rs:218-241 | Beside a device that frees only what a poll acknowledges, with polls lost, repeated or late, every freed event is one the client validated |
| TelemetryProgress.AnswersAreExact | crates/alumina-interface-client/src/diagnostics.rs:259-331 | For every pending action and every answer: accepted if and only if it leads somewhere, and the subscription it leads to |
| TelemetryProgress.EventsAreExact | crates/alumina-interface-client/src/diagnostics.rs:351-389 | An event is taken as new if and only if it is newer, loses nothing counted and keeps the period; as a repeat if and only if it is the last one |
| TelemetryProgress.EventAnswersAreExact | crates/alumina-interface-client/src/diagnostics.rs:312-331 | A poll's answer is nothing published, a new event, a repeat or a refusal, each if and only if; the wait always ends |
| TelemetryProgress.EventPollIsExact | crates/alumina-interface-client/src/diagnostics.rs:187-241 | Events are polled if and only if the subscription is active and at rest |
| TelemetryProgress.LossIsExact | crates/alumina-interface-client/src/diagnostics.rs:334-348 | After a loss a mutation is polled and a poll asked again |
| TelemetryProgress.UnsubscribeIsExact | crates/alumina-interface-client/src/diagnostics.rs:243-257 | An unsubscription is accepted if and only if the subscription is at rest and active or ended |
| TelemetryProgress.ActiveIsReached | crates/alumina-interface-client/src/diagnostics.rs:187-307 | One answered request makes a new subscription active |
| TelemetryProgress.HeldEventIsDelivered | crates/alumina-interface-client/src/diagnostics.rs:223-331 | A held next event is validated by one answered poll and freed when the next poll arrives |
| TelemetryModel.LostSubscribeIsNeverBlindlyRepeated | crates/alumina-interface-client/src/diagnostics.rs:187-348 | A lost subscribe is sent again only after a poll proved absence |
| TelemetryModel.LostUnsubscribeIsOnlyPolled | crates/alumina-interface-client/src/diagnostics.rs:334-348 | A lost unsubscribe is never sent again and never becomes a subscribe |
| TelemetryModel.LostPollIsRepeatedExactly | crates/alumina-interface-client/src/diagnostics.rs:223-348 | A lost event poll restores the state and repeats the same acknowledgement |
| TelemetrySubscription.TelemetrySubscriptionMachine.AcceptEvent | crates/alumina-interface-client/src/diagnostics.rs:351-389 | Exact replays are accepted without advancing; disorder changes nothing |
| CapabilityModel.DownloadsAreSound | crates/alumina-interface-client/src/capability.rs:130-252 | Against any device Complete means whole bytes that decode to exactly the retained identity |
| CapabilityModel.PrefixOnlyGrows | crates/alumina-interface-client/src/capability.rs:167-238 | Only accepted ranges extend the prefix; refusals, losses and requests leave it; only a reset shortens it |
| CapabilityModel.PrefixIsTheDocuments | crates/alumina-interface-client/src/capability.rs:167-238 | Against a truthful device the prefix is the document's, and Complete is the whole document |
| CapabilityProgress.RangesAreTakenExactly | crates/alumina-interface-client/src/capability.rs:167-238 | A range is taken if and only if it is the one asked for, of the retained identity, and stops short of the end or ends there with a document that decodes to it; what is retained then |
| CapabilityProgress.RequestsAreExact | crates/alumina-interface-client/src/capability.rs:130-164 | The next range starts at the prefix, names the retained digest, and is the largest allowed inside the document; none if and only if complete |
| CapabilityProgress.AnsweredDownloadCompletes | crates/alumina-interface-client/src/capability.rs:130-238 | However the device cuts its document, answered requests complete it within as many exchanges as bytes were missing |
| CapabilityProgress.WholeDocumentIsReached | crates/alumina-interface-client/src/capability.rs:130-238 | From a new download answered requests lead to the whole document |
| CapabilityModel.NothingRemainsExactlyForEmptyIdentity | crates/alumina-interface-client/src/capability.rs:137-143 | The zero-remaining error occurs exactly when an identity of length zero was admitted |
| CapabilityModel.EmptyIdentityIsAdmitted | crates/alumina-interface-client/src/capability.rs:199-236 | If the decoder yields one, such an identity is admitted by a range that is itself refused |
| CapabilityModel.EmptyIdentityStays | crates/alumina-interface-client/src/capability.rs:130-143 | From then on every request fails until a reset |
| CapabilityModel.UnfinishedDownloadGoesOn | crates/alumina-interface-client/src/capability.rs:130-164 | Otherwise the next range is nonempty, contiguous and inside the document |
| CapabilityModel.LostRangeIsRepeatedExactly | crates/alumina-interface-client/src/capability.rs:241-243 | A lost range is asked for again exactly |
| CapabilityDownload.CapabilityDownloadMachine.AcceptResponse | crates/alumina-interface-client/src/capability.rs:167-238 | Allocation, identity and the copy into the array happen in the source's order |
| CapabilityDownload.CopyInto | crates/alumina-interface-client/src/capability.rs:217 | The copy overwrites exactly the range in place |
| ProtocolClientModel.RequestRoundTrip | crates/alumina-interface-client/src/lib.rs:80-182 | Through the simulator a request returns exactly the handler's answer if and only if both frames fit and are admitted |
| ProtocolClientModel.RepliesAreTakenExactly | crates/alumina-interface-client/src/lib.rs:139-182 | A reply is accepted, with this content, if and only if its lengths fit and it names this sequence, configuration, operation and correlation as an admitted response |
| ProtocolClientModel.RequestIsExact | crates/alumina-interface-client/src/lib.rs:80-182 | A request succeeds with this response if and only if its one frame is formed and the transport answers it with such a reply |
| ProtocolClientModel.CountersCountSuccesses | crates/alumina-interface-client/src/lib.rs:101-103 | Over any mix of failures the counters are determined by the number of successes |
| ProtocolClientModel.CorrelationIsNeverZero | crates/alumina-interface-client/src/lib.rs:101-103 | Correlation is never zero |
| ProtocolClientModel.PairRepeatsOnlyAfterFullCycle | crates/alumina-interface-client/src/lib.rs:80-105 | Two successful requests share both identities only 2^32 * (2^32 - 1) successes apart or more |
| ProtocolClientModel.RepliesAreNotConfused | crates/alumina-interface-client/src/lib.rs:139-182 | Within that span a reply accepted for one successful request is refused for every other |
| ProtocolClientModel.FailureKeepsThePair | crates/alumina-interface-client/src/lib.rs:80-105 | A request fails if and only if it leaves both identities to the next one |
| ProtocolClientModel.EarlierReplyIsTakenExactly | crates/alumina-interface-client/src/lib.rs:139-182 | The reply to an earlier attempt, failed or not, is accepted for a later one if and only if both ask the same operation and whole counter cycles of successes (none included) lie between |
| NativeClient.ProtocolClient.Request | crates/alumina-interface-client/src/lib.rs:80-105 | Identities advance on success only |

## Left out

- Cache delivery before the schedule exists: the retained job is modelled from the moment its coordinator is built.
- Passive reattachment to devices left by an earlier coordinator: the joint theorems start from blank devices.
- Byte encodings, digests and authenticated sessions: decoded values, and uninterpreted checks such as `encodes`, `validate`, `decode` and `admits`.
- The clock estimator: its answers are inputs of the calls that ask it.
- Allocation failures: every allocation succeeds.
- Device state behind one number: what device tasks do between taking and returning a state is any change that keeps connection and generation.
- Snapshots, diagnostics strings, failure counters, retry timers and message posting: no bearing on the properties.
- JointTheorems.AllOrNothingStart: rests on the device behaviour stated above, which the repository only uses.
- JointAbort.AbortDrains: nothing more is lost, and a status, abort or cancel that is applied takes effect and brings its report; other requests in flight may be applied or refused and answered in any form.
- LiveJobRuns.LossBarrier: a participant answers by replying at all; a participant whose own mutation is ambiguous additionally needs a valid status before its next mutation, which its machine checks.
- WorkerRuns.RunsKeepOwned: handlers are atomic, as in the single-threaded event loop.
- TelemetryModel.LostUnsubscribeIsOnlyPolled: claims no progress, since a device that never answers the poll leaves the client polling.
- CapabilityDownload.CapabilityDownloadMachine.AcceptResponse: the constructor's check of the caller's limit against the fixed header length is not modelled.
- Network provisioning, visual download, health and configuration observers, upload internals, compilation and display.
