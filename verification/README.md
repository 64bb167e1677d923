# Quaestor: a verified model of the governed execution protocol

Quaestor dispatches untrusted coding agents under a protocol whose claims are about whole runs: at most
one execution per identity, one writer per worktree, no blind retry after a possible write, bounded
loops, durable mail. This project models the code that decides those claims, in Dafny 4.11, and proves
them over every interleaving, every crash point and every sequence of events the code admits. Where a
claim turns out to need a condition, the condition is proved exactly and a lemma gives the input that
shows what happens without it.

`dafny verify dfyconfig.toml` checks the whole project.

## The modules

- `Domain`, `Liveness`, `Reconcile`: the execution states and their legal graph, the verdict on a worker,
  and the classification of a run that may have lost its worker. Pure decisions, modelled as functions.
- `RunProtocol`: dispatcher, detached worker, reconciler, reaper and canceller as one transition system.
  An action is one durable write, or one reading a later write relies on; a behaviour is any sequence of
  actions; an author who dies simply takes no further action.
- `Verdicts`: when the reconciler's verdicts on such a run are right, over its five separate readings, and
  when its "never dispatched" is final; both exactly.
- `ControlPlane`: the store's rows as a mutable class, the dispatch ladder, `reconcile_run` and
  `reconcile_all` as methods over it, each tied to steps of `RunProtocol`.
- `Dispatching`: one dispatch as a run of `RunProtocol`'s actions, and an undisturbed life to its handoff.
- `Reaper`: crash recovery and the bounded hold of an unmeasurable worker.
- `LaneEngine`, `Scheduler`: the life of a lane (attempts, reviews, parking, waking) as a state machine,
  and the scheduler's operations and passes as methods on a table of lanes.
- `Autonomy`: exactly which startable lanes cannot start more runs than their budget.
- `Completion`: exactly which histories of a lane complete it over unreviewed or faulted work.
- `Wakes`: the race between an answer, a park and the tick, at the grain of single reads and writes.
- `Graphs`, `Planner`, `Adoption`, `Programs`: the plan proposal's validation and hand-written
  topological sort, the wiring of an adopted plan, the dependencies that still block, and progress.
- `LaneLeases`: fenced ownership of a lane over whole histories.
- `MailLog`, `Mailbox`: the spool directory as a class, refined against an append-only log with cursors;
  and the causal budget.
- `Recovery`: the bounded scanner for a JSON object in prose, refined against recursive descent.
- `Reservation`: the reservation of a request identity, system call by system call.
- `Failover`: provider chains, exhaustion marks and epistemic independence.
- `Strategist`: the model-held strategist seat: validation, disposition, approval, refusal budget.
- `Runs`: facts about any machine's behaviours (invariants, amortised bounds), proved once.

What the outside world decides (authority, preflight, the concurrency ceiling, drift, a worktree's
state, the process table, whether an operation fails, what a model reports) is an argument of the
operation it affects, and the theorems hold for every value of it. Clocks are arguments; where a theorem
needs them not to go back, it says so.

## What the proofs found

Each of these is a lemma with the input or schedule that shows it, beside an if-and-only-if over all inputs
that says when the claim does hold.

- `reconcile_run` takes five readings, not one: the run row, the worker row, the exit receipt, the worker's
  liveness (its row again) and its row a third time. If the worker identifies itself after the second
  reading, starts its child and dies before the fourth, the verdict allows an automatic redispatch although
  a child ran (`Verdicts.SplitReadCanBeUnsound`). On one snapshot this cannot happen
  (`AutoRedispatchMeansNoChild`), the split reading goes wrong in no other way (`SplitReadSoundness`), and it
  cannot go wrong exactly if at the first reading the run is over, its worker is recorded, or it can start
  no child any more (`SplitReadExactly`).
- A `NEVER_DISPATCHED` verdict is true when read and final exactly if the dispatcher is gone, about to refuse,
  or waiting for a lease stranded with a run that will never give it up (`Verdicts.NeverDispatchedExactly`);
  a run just admitted is judged so and may yet spawn (`FirstRunCanStart`).
- A reviewer that cannot be dispatched parks the lane and the next line sets it ACTIVE again
  (`orchestrator.py:2356`): the lane starts runs without consuming attempts
  (`LaneEngine.RefusedReviewersNeverStop`), and its next run, finding nothing to commit, completes the
  lane over a candidate nobody reviewed (`RefusedReviewIsSkipped`; likewise after a failed review,
  `FailedReviewIsSkipped`). The comment at `orchestrator.py:2335` promises every committed candidate a
  review. Which histories end so: `Completion.CompletesUnreviewedExactly`.
- A fix attempt that commits nothing completes the lane with the review's findings outstanding
  (`LaneEngine.EmptyFixCompletes`), and nothing else does (`Completion.CompletesFlaggedExactly`).
- Once a lane has asked a question, runs that fail before delivering a report keep being treated as that
  pause: they are processed without consuming an attempt and the lane runs for ever
  (`LaneEngine.StaleQuestionNeverStops`); one question and one answer bring any new lane there
  (`Autonomy.StaleQuestionArises`). A startable lane's starts are bounded by its budget, every reviewer
  dispatched, exactly if nobody answers, no wake is pending and no question stands
  (`BoundedExactlyIfReviewed`); in general exactly if moreover no adversarial review can be asked for
  (`BoundedExactly`).
- The pending-wake flag is lost if a whole-checkpoint save started while the flag held its spent sentinel
  (`Wakes.StaleSaveLosesWake`), and does not cover a second park (`SecondParkLosesWake`); no wake is lost
  exactly with no park to come, or one park of a running lane and no such save (`NoLostWakeExactly`). A save can also replay a flag
  (`StaleSaveRepeatsWake`): exactly when ticks wake a lane more often than it was answered is
  `WakesArePaidExactly`.
- `MAX_KEY_CHARS` is defined and never consulted: a lane key of any length is admissible
  (`Planner.LaneExactly`).
- A lane whose `acceptance` is null has its dependencies left unvalidated (`planner.py:180-181`), so an
  unknown dependency is accepted and surfaces as a KeyError after the lanes were created
  (`Planner.NullAcceptanceSkipsDependencies`, `Adoption.AdoptPlanProposal`); no other lane can bring one
  (`Adoption.KnownExactly`). A dependency listed twice is reported as a cycle
  (`Planner.RepeatIsReportedAsCycle`; exactly when none is reported, `CycleErrors`).
- Message ids containing a dot break the mailbox's deduplication both ways
  (`MailLog.DottedIdsBreakDeduplication`), and no others do (`ReadsBackExactlyWhenDotless`,
  `DotlessIdsAreLoggedOnce`).
- `causal_budget` does not treat a cycle as an exhausted budget, as its docstring says
  (`Mailbox.ShortCyclesLeaveRoom`): there is room exactly if every walk without a repetition, on a cycle or
  not, is shorter than the cap (`CausalBudget`).
- The scanner's list can hold 57 entries, not the 50 the constant names: 49 fenced blocks around nested
  braces (`Recovery.FiftySevenIsAttained`).
- The reservation's temporary file is named by process id only. Two threads that share the name get two
  relays for one key (`Reservation.SharedTemporaryDiverges`), and a later process with the id of one that
  died after linking replaces the reservation on record (`ReusedTemporaryReplaces`). Retries converge, and a
  reservation on record stays, exactly if no two callers share a name (`ReservationsConvergeExactly`,
  `RecordKeptExactly`).
- `check_pairing` looks at a recorded partner only when the two kinds it is given already share a family
  (`Failover.RecordedPartnerCanBeMissed`), and so sees a recorded clash exactly then
  (`RecordedPartnerSeenExactly`); the gate in front of chains closes that gap (`PairingGate`).
- Inbox items are keyed by message id and the last wins: a directive queued earlier shadows an
  owner-routed item, and in AUTO it applies (`Strategist.OwnerItemCanBeShadowed`); an owner's item can be
  answered exactly when the last item under its id is not the owner's (`OwnerItemsExactly`). The seat's own
  path can answer an answered message (`SeatCanAnswerTwice`), exactly when it is shown one whose last item
  applies (`SeatAnswersOnceExactly`). The refusal budget never bites while two sets of questions alternate
  (`AlternatingWorkNeverHalts`), or while a turn fails only after its count was reset
  (`LateFailuresNeverHalt`); exactly when it does bite is `HaltsExactly`.
- The hold on an unmeasurable worker keeps one mark per lane, so two unprocessed runs on a lane would never
  escalate (`Reaper.TwoRunsAreNeverEscalated`; exactly when, `EscalatesExactlyAtItsOwnThirdHold`); the lane
  engine never has two (`LaneEngine.AtMostOneRun`).
- `check_fence` does not look at expiry (`LaneLeases.CheckIgnoresExpiry`): of the fences issued, exactly the
  latest passes, expired or not (`FencingIsSound`).

## Model

| member | source | states |
|---|---|---|
| Domain.HistoriesAreShortAndFinal | src/quaestor/core/domain.py:85-114 | a legal history has at most 8 edges, repeats no state, and never leaves a terminal state except to deliver a ready handoff |
| Domain.LongestHistory | src/quaestor/core/domain.py:89-99 | the bound of 8 edges is attained |
| Domain.EdgesExactly | src/quaestor/core/domain.py:89-122 | the legal graph, edge by edge |
| Liveness.DeadForcesRecordedPid | src/quaestor/core/proc.py:282-342 | DEAD if and only if the lock is free and a recorded non-zero pid is contradicted by the process table |
| Liveness.AliveExactly | src/quaestor/core/proc.py:282-342 | ALIVE if and only if the lock is held, or there is none and the very process recorded is present; UNKNOWN otherwise, when not DEAD |
| Liveness.DeadIsSound | src/quaestor/core/proc.py:282-342 | under pid reuse and non-simultaneous reads, DEAD implies the worker is gone if either signal is honest |
| Liveness.DeadNeedsAnHonestSignal | src/quaestor/core/proc.py:282-342 | with neither signal honest the verdict can be wrong: the reading that shows it |
| Liveness.DeadIsSoundExactly | src/quaestor/core/proc.py:282-342 | DEAD is sound over every table history and reading if and only if the lock or the process table is trusted to tell the truth |
| Liveness.AcquireExactly | src/quaestor/core/lease.py:74-95 | a free path is granted, one's own lease recognised, another's refused with its holder |
| Liveness.ReclaimExactly | src/quaestor/core/lease.py:121-157 | a lease is reclaimed if and only if it is held, its run is over and its holder reads dead |
| RunProtocol.LocalIsSound | src/quaestor/core/dispatcher.py:95-286 | every step of dispatcher, worker or outsider keeps the run's invariant, moves it along the legal graph, and never revives a lease |
| RunProtocol.RunKeepsInv | src/quaestor/core/store.py:295-484 | every sequence of actions keeps unique keys, unique leased paths and every run's invariant |
| RunProtocol.OneLiveWriterPerWorktree | src/quaestor/core/lease.py:74-157 | in every interleaving with crashes anywhere, two unfinished lease-needing workers never share a worktree path |
| RunProtocol.OneChildPerKey | src/quaestor/core/dispatcher.py:121-140 | a dispatch key has one run for ever and that run starts at most one child |
| RunProtocol.LivesClimb | src/quaestor/core/domain.py:59-114 | whatever follows, a run's state only climbs, changes at most 8 times, and stays terminal once terminal |
| RunProtocol.LeaseLeavesThreeWays | src/quaestor/core/dispatcher.py:216-228 | a lease leaves its holder only on refused drift before any process, by the worker's own last act, or by a reclaim on a terminal run with a dead worker |
| RunProtocol.RefusedDriftNeverSpawns | src/quaestor/core/dispatcher.py:199-228 | a run whose dispatcher refused it over lease or drift never gets a process |
| Verdicts.VerdictOnRecords | src/quaestor/core/reconcile.py:73-217 | over five separate readings, the one way an automatic redispatch can be allowed although a child started |
| Verdicts.AutoRedispatchMeansNoChild | src/quaestor/core/reconcile.py:73-217 | on any reachable snapshot, an automatic redispatch implies no child has started, and the dead-but-never-started branch is unreachable |
| Verdicts.LocalIsSteady | src/quaestor/core/dispatcher.py:95-286 | no step frees a stranded lease, revives an unrecorded worker, or brings a run past its lease other than by taking it |
| Verdicts.LeadsHopeless | src/quaestor/core/dispatcher.py:95-286 | a run that is refused, lost, or walled off from its lease never has a child, in any continuation |
| Verdicts.StartsIt | src/quaestor/core/dispatcher.py:140-286 | any other active run without a recorded worker has a continuation, other runs' leases freed on the way, in which its child starts |
| Verdicts.SplitReadSoundness | src/quaestor/core/reconcile.py:194-217 | over any behaviour between the five readings, a wrong verdict has exactly one cause |
| Verdicts.SplitReadCanBeUnsound | src/quaestor/core/reconcile.py:194-217 | every reachable run that may still start its child has readings that show it |
| Verdicts.SplitReadExactly | src/quaestor/core/reconcile.py:194-217 | every verdict is right, whatever happens between the readings, if and only if at the first the run is terminal, its worker recorded, or it can start no child |
| Verdicts.NeverDispatchedExactly | src/quaestor/core/reconcile.py:104-119 | no continuation has a child if and only if the dispatcher is gone or refusing, or its lease is stranded elsewhere |
| Verdicts.FirstRunCanStart | src/quaestor/core/reconcile.py:104-119 | one admission on an empty store reaches a run judged never dispatched that may still spawn |
| ControlPlane.Store.Admit | src/quaestor/core/store.py:295-355 | a new run exactly when no run has the key; otherwise the existing run and no change |
| ControlPlane.Store.Transition | src/quaestor/core/store.py:371-403 | the state changes exactly when both guards hold, and nothing else changes |
| ControlPlane.Store.AcquireLease | src/quaestor/core/store.py:410-441 | granted exactly when no unreleased lease has the path; this run's own is answered as held, another's names its holder; one holder per path is kept |
| ControlPlane.Store.PassGates | src/quaestor/core/dispatcher.py:140-197 | preflight first, then the first refusing gate's state, no lease touched |
| ControlPlane.Store.TakeWorktree | src/quaestor/core/dispatcher.py:205-214 | conflict refuses without a lease; otherwise the lease is held before LEASED is written |
| ControlPlane.Store.MeasureDrift | src/quaestor/core/dispatcher.py:216-228 | drift gives the lease back and refuses |
| ControlPlane.Store.Launch | src/quaestor/core/dispatcher.py:261-286 | DISPATCHED precedes the spawn; a failed spawn ends WORKER_FAILED with the lease kept |
| ControlPlane.Store.Dispatch | src/quaestor/core/dispatcher.py:95-286 | a known key changes nothing; otherwise a process exists exactly if nothing refused and the spawn was asked for and succeeded; the first of gate, conflict, drift and failed spawn names the state, and who keeps the lease; only the new run changes |
| ControlPlane.PlanSplits | src/quaestor/core/dispatcher.py:140-286 | the closed form of the ladder is its two halves in sequence |
| ControlPlane.PlanSettles | src/quaestor/core/dispatcher.py:140-286 | the same of the ladder's closed form |
| ControlPlane.DispatchKeepsInv | src/quaestor/core/dispatcher.py:95-286 | whatever the gates, drift and spawn decide, the run a dispatch leaves satisfies the protocol's invariant beside all others |
| Dispatching.DispatchIsRun | src/quaestor/core/dispatcher.py:95-286 | an uninterrupted dispatch is a run of the protocol's actions, in any configuration: admission, gates, lease, drift, spawn |
| Dispatching.RefusalsAreFinal | src/quaestor/core/dispatcher.py:140-283 | gate, conflict or drift and failed spawn end an active run in exactly the state refused with |
| Dispatching.RefusalsAreNamed | src/quaestor/core/dispatcher.py:142-196 | the states the gates refuse in, and those a worker fails in |
| Dispatching.RefusalsRewriteNothing | src/quaestor/core/dispatcher.py:266-283 | a run that is over keeps its own verdict |
| Dispatching.GuardedRungsAdvance | src/quaestor/core/dispatcher.py:140-261 | a guarded rung goes on from the state it expects, and else the ladder stops and the run keeps its state |
| Dispatching.OffItsRungADispatcherDoesNothing | src/quaestor/core/dispatcher.py:95-286 | no dispatcher step acts but from its own rung |
| Dispatching.OffItsStageAWorkerDoesNothing | src/quaestor/core/worker.py:107-312 | no worker step acts but at its own stage of a live worker |
| Dispatching.WorkerMarks | src/quaestor/core/worker.py:126-227 | what the worker writes down of itself and of its child |
| Dispatching.OutsidersAct | src/quaestor/core/reconcile.py:224-243 | what others may do to a run, exactly when |
| Dispatching.GuardedStepsAdvance | src/quaestor/core/worker.py:180-312 | each guarded step of the worker reaches its state exactly from the state it expects, and else goes to its cleanup |
| Dispatching.WorkerFailuresAreNamed | src/quaestor/core/worker.py:114-190 | a worker fails an active run in exactly the state it names, and gives the lease back last |
| Dispatching.UndisturbedRunHandsOver | src/quaestor/core/worker.py:107-312 | left alone, a booted worker records itself, runs one child, and ends HANDOFF_READY with its lease released |
| Dispatching.DispatchCompletes | src/quaestor/core/dispatcher.py:95-286 | so from any configuration with a free path a dispatch can reach its handoff, the path free again |
| ControlPlane.Store.ReconcileRun | src/quaestor/core/reconcile.py:187-245 | each verdict, its target, licence and authority exactly when the row and the readings call for them; the state and lease afterwards |
| Reconcile.PreSpawnExactly | src/quaestor/core/reconcile.py:70 | the states before the spawn are those with a legal history still to DISPATCHED |
| Reconcile.ClassifyDecides | src/quaestor/core/reconcile.py:73-177 | the same of the pure decision |
| ControlPlane.SettlingIsGuarded | src/quaestor/core/reconcile.py:224-243 | the target is written exactly if legal, the lease goes exactly from a dead holder of an ended run, nothing else changes |
| ControlPlane.NoBlindRetry | src/quaestor/core/reconcile.py:129-177 | of every reachable run whose child started and that does not read alive, exactly those in doubt end AMBIGUOUS_EXECUTION, and no others are retried |
| ControlPlane.Store.ReconcileAll | src/quaestor/core/reconcile.py:248-253 | each active run is judged and settled once, on its own rows; nothing else changes |
| ControlPlane.ReconciliationSettles | src/quaestor/core/reconcile.py:73-245 | after reconciliation a run is active exactly when it was never handed over or its worker reads alive; a lease goes only from a terminal run whose holder reads dead |
| ControlPlane.ReconcileIsThreeSteps | src/quaestor/core/reconcile.py:224-243 | what it does to a run is three outsider steps of the protocol |
| Reaper.Reap.HoldUnknownLiveness | src/quaestor/core/orchestrator.py:1807-1883 | escalation before its mark; the mark scoped to the run |
| Reaper.Reap.ClearUnknownLiveness | src/quaestor/core/orchestrator.py:1886-1900 | a clear reading drops the count |
| Reaper.Reap.RecoverRun | src/quaestor/core/orchestrator.py:2015-2043 | the run is failed, then its lease released through the reclaim predicate |
| Reaper.Reap.ReapRun | src/quaestor/core/orchestrator.py:1937-2083 | one pass skips, clears, holds, recovers or ends in doubt exactly when its readings call for it, and changes run, desk and bookkeeping accordingly |
| Reaper.DecisionsAct | src/quaestor/core/orchestrator.py:1953-2083 | what each decision does to the run and the owner's desk, over the readings |
| Reaper.PassReleasesOnlyDeadAndClean | src/quaestor/core/orchestrator.py:1953-2043 | a lease is released only after DEAD, clean at base, DEAD again, with the run terminal; doubt changes nothing |
| Reaper.RecoveryIsProtocolSteps | src/quaestor/core/orchestrator.py:1993-2044 | a recovery is steps of the run protocol, so its guarantees cover the reaper |
| Reaper.AmbiguityIsProtocolStep | src/quaestor/core/orchestrator.py:2064-2083 | so is the ambiguous ending |
| Reaper.RecoveredWorkersAreGone | src/quaestor/core/orchestrator.py:1993-2020 | a recovering pass over honest readings never fails a run whose worker lives |
| Reaper.MarkCountsTheStreak | src/quaestor/core/orchestrator.py:1842-1848 | the stored count is the number of consecutive holds, capped at three |
| Reaper.EscalatesExactlyAtTheThirdHold | src/quaestor/core/orchestrator.py:1842-1883 | for every sequence of hold and alive passes, escalation exactly at the third consecutive hold, once until an ALIVE |
| Reaper.BlockersCountThirds | src/quaestor/core/orchestrator.py:1866-1871 | blockers filed equal the times a streak reached three |
| Reaper.OwnerAskedExactlyAtThirdUnknown | src/quaestor/core/orchestrator.py:1953-2014 | over every sequence of readings without a death: the owner is asked exactly at the third pass in a row that cannot tell; ALIVE starts again |
| Reaper.LivingWorkersAreLeftAlone | src/quaestor/core/orchestrator.py:1957-1960 | a worker that reads alive in every pass never brings its lane before the owner |
| Reaper.CutsAreInOrder | src/quaestor/core/orchestrator.py:1849-1875 | the crash points of a hold stand one write apart |
| Reaper.EscalationIsNeverLost | src/quaestor/core/orchestrator.py:1849-1875 | with crashes inside the hold, an escalation marked as done was done, and three whole passes always suffice |
| Reaper.EscalatesExactlyAtItsOwnThirdHold | src/quaestor/core/orchestrator.py:1841-1883 | with any number of unprocessed runs on the lane, a hold escalates exactly if it is the third in a row of one run |
| Reaper.TwoRunsAreNeverEscalated | src/quaestor/core/orchestrator.py:1841-1846 | so two alternating runs never escalate |
| LaneEngine.AtMostOneRun | src/quaestor/core/orchestrator.py:1346-1348 | over all events a lane has at most one unprocessed run, and none once complete |
| LaneEngine.EventsAreNamed | src/quaestor/core/orchestrator.py:306-368 | what each event leaves of a lane, in the source's own states |
| LaneEngine.EndsAreNamed | src/quaestor/core/orchestrator.py:2148-2206 | which lane each ending of a run leaves, for every role and kind |
| LaneEngine.AttemptsAreNamed | src/quaestor/core/orchestrator.py:1463-1523 | which lane each scheduling attempt leaves |
| LaneEngine.BoundedAutonomy | src/quaestor/core/orchestrator.py:1329-1524 | for all event sequences, starts are at most 2*max(1, M+2-a) per answer, plus refused reviewers and swallowed ends |
| LaneEngine.BoundedAutonomyUndisturbed | src/quaestor/core/orchestrator.py:2148-2187 | with no wake pending, a history with no answer, no refused reviewer and no swallowed end makes at most 2*max(1, M+2-a) starts |
| LaneEngine.BudgetIsAttained | src/quaestor/core/orchestrator.py:2685-2726 | the bound is attained for every policy and attempt |
| LaneEngine.RefusedReviewersNeverStop | src/quaestor/core/orchestrator.py:2335-2357 | refused reviewers: any number of starts without consuming an attempt |
| LaneEngine.StaleQuestionNeverStops | src/quaestor/core/orchestrator.py:2106-2138 | an old question: any number of starts without consuming an attempt |
| Autonomy.StaleQuestionArises | src/quaestor/core/orchestrator.py:2106-2138 | a question and an answer bring any new lane to be startable with the question standing |
| Autonomy.QuestionThenNeverStops | src/quaestor/core/orchestrator.py:2106-2138 | from any startable lane, one answer or one pending wake allows any number of starts |
| Autonomy.BoundedExactlyIfReviewed | src/quaestor/core/orchestrator.py:2106-2138 | of any startable lane, every history with at most a answers and no refused reviewer starts at most (1+a) budgets if and only if a is 0, no wake is pending and no question stands |
| Autonomy.BoundedExactly | src/quaestor/core/orchestrator.py:2335-2357 | every history does so if and only if moreover it is no implementation lane under adversarial review |
| Autonomy.AmbiguousEndsWait | src/quaestor/core/orchestrator.py:2156-2187 | after an ambiguous or refused end no events start a run without an answer, if and only if no wake is pending; one answer is enough |
| LaneEngine.CompletionIsExact | src/quaestor/core/orchestrator.py:2685-2726 | exactly when an implementation lane completes, and what is then true of its candidate |
| LaneEngine.ReviewedBeforeComplete | src/quaestor/core/orchestrator.py:2335-2357 | if no reviewer is refused and every review is read, no lane completes over an unreviewed candidate |
| LaneEngine.PassedBeforeComplete | src/quaestor/core/orchestrator.py:2648-2726 | if moreover fixes commit something, the review it completes under found nothing |
| LaneEngine.RefusedReviewIsSkipped | src/quaestor/core/orchestrator.py:2335-2362 | the first hypothesis is needed |
| LaneEngine.FailedReviewIsSkipped | src/quaestor/core/orchestrator.py:2161-2182 | a failed review run is skipped the same way |
| LaneEngine.EmptyFixCompletes | src/quaestor/core/orchestrator.py:2359-2362 | the second hypothesis is needed |
| Completion.CandidateIsLastWord | src/quaestor/core/orchestrator.py:2335-2362 | what is true of the candidate is what the last commit or review read said |
| Completion.CompletesUnreviewedExactly | src/quaestor/core/orchestrator.py:2335-2362 | over all histories: complete over an unreviewed candidate if and only if after the last commit its review was lost and then an own run with nothing to commit completed the lane |
| Completion.CompletesFlaggedExactly | src/quaestor/core/orchestrator.py:2648-2726 | complete over reported faults if and only if a review was read with findings surviving and, nothing between, an empty fix completed the lane |
| Scheduler.Board.ResolveFindingsFrom | src/quaestor/core/orchestrator.py:2685-2726 | findings consume an attempt and replan or park; none complete |
| Scheduler.Board.ConsumeImplementation | src/quaestor/core/orchestrator.py:2293-2362 | commit, then reviewer or resolution; the lane is ACTIVE whenever a review was wanted |
| Scheduler.Board.ConsumeReview | src/quaestor/core/orchestrator.py:2648-2674 | the review's findings join the held ones |
| Scheduler.Board.ConsumeRun | src/quaestor/core/orchestrator.py:2148-2206 | ambiguous ends park before the owner and refused ones before the strategist, no attempt consumed; failed ones and faults try again; other work is complete |
| Scheduler.Board.ReapRun | src/quaestor/core/orchestrator.py:2087-2145 | processed first; abandoned and asking lanes are not advanced |
| Scheduler.Board.Reap | src/quaestor/core/orchestrator.py:2085-2145 | every finished run consumed exactly once, no other lane touched |
| Scheduler.Board.AnswerLane | src/quaestor/core/orchestrator.py:306-326 | a parked lane is planned; another unfinished lane is flagged |
| Scheduler.Board.ApplyPendingWakes | src/quaestor/core/orchestrator.py:334-368 | exactly the parked, flagged lanes wake, and lose their flag |
| Scheduler.Board.ScheduleLane | src/quaestor/core/orchestrator.py:1463-1523 | each answer of the dispatcher, and promotion from PLANNED only |
| Scheduler.Board.SchedulePass | src/quaestor/core/orchestrator.py:1298-1524 | starts within the ceiling, only unblocked startable lanes, and passes a lane over only if held back or at the ceiling |
| Scheduler.Board.Tick | src/quaestor/core/orchestrator.py:2852-2909 | a tick does to each lane: reap, wake, at most one scheduling attempt |
| Scheduler.TickIsBehaviour | src/quaestor/core/orchestrator.py:2852-2909 | so the lane engine's theorems hold over any number of ticks |
| Wakes.NoLostWake | src/quaestor/core/orchestrator.py:306-368 | one park, any answers, any ticks and whole-checkpoint saves, in every interleaving: awake after one more tick, unless the sentinel stood and there is a save |
| Wakes.WakesArePaidFor | src/quaestor/core/orchestrator.py:345-368 | without such saves, flag wakes never outnumber answers, whatever the parks |
| Wakes.NoLostWakeExactly | src/quaestor/core/orchestrator.py:306-368 | running or parked at the outset, no schedule loses the wake if and only if there is no park to come, or one park of a running lane and either no sentinel at the outset or no whole-checkpoint save |
| Wakes.StaleSaveLosesWake | src/quaestor/core/orchestrator.py:1453-1456 | with both, for any number of answers and savers, a schedule that loses it |
| Wakes.StaleSaveRepeatsWake | src/quaestor/core/orchestrator.py:1483-1488 | with an answer, a saver and more parks than answers: one wake more than answers |
| Wakes.WakesArePaidExactly | src/quaestor/core/orchestrator.py:306-368 | no schedule has more flag wakes than answers if and only if parks do not outnumber answers, or no flag stands at the outset and nobody answers or nobody saves |
| Wakes.SecondParkLosesWake | src/quaestor/core/orchestrator.py:306-326 | parked twice, the outset included, a schedule that loses the wake, for any flag, answers and savers |
| Graphs.StuckMeansCycle | src/quaestor/core/planner.py:233-238 | keys that all depend on one another's set contain a cycle |
| Graphs.TopologicalMeansAcyclic | src/quaestor/core/planner.py:222-232 | an order in which dependencies come first rules out cycles |
| Planner.Pay | src/quaestor/core/planner.py:228-232 | one inner pass keeps every in-degree at listed less distinct processed dependencies |
| Planner.Drain | src/quaestor/core/planner.py:222-232 | the loop ends with the processed keys in dependency order and all others still owing |
| Planner.CycleErrors | src/quaestor/core/planner.py:209-238 | no error exactly when the graph over known keys is acyclic and no lane repeats a known key; the reported keys are exactly those that repeat one or wait on a reported one |
| Planner.RepeatIsReportedAsCycle | src/quaestor/core/planner.py:219-232 | an acyclic proposal with a repeated dependency |
| Planner.CheckHeaders | src/quaestor/core/planner.py:132-162 | no complaint exactly when keys are distinct and every header is in bounds |
| Planner.CheckKinds | src/quaestor/core/planner.py:164-177 | when every kind is present: no complaint exactly when kinds and implementation acceptance are in order |
| Planner.CheckAcceptance | src/quaestor/core/planner.py:179-192 | no complaint exactly when the criteria are within bounds |
| Planner.CheckDeps | src/quaestor/core/planner.py:193-203 | no complaint exactly when the dependencies are non-blank, known and at most 16 |
| Planner.LaneExactly | src/quaestor/core/planner.py:132-203 | what an admissible lane is, in the source's own numbers and names |
| Planner.ValidatePlanProposal | src/quaestor/core/planner.py:113-206 | accepted exactly when admissible, null-acceptance gap included |
| Planner.NullAcceptanceSkipsDependencies | src/quaestor/core/planner.py:179-181 | an admissible proposal with an unknown dependency |
| Adoption.AdoptPlanProposal | src/quaestor/core/planner.py:306-386 | invalid, self-adopted, already decided or challenged, exactly when and in this order; else a KeyError exactly when a dependency is unknown, or lanes one-to-one with exactly the proposal's edges and the adoption on record |
| Adoption.BarExactly | src/quaestor/core/planner.py:323-350 | each bar to adoption, exactly when it stands |
| Adoption.KnownExactly | src/quaestor/core/planner.py:179-203 | an admissible proposal names no unknown dependency if and only if none of its lanes with null acceptance does |
| Adoption.AdoptedPlansProgress | src/quaestor/core/planner.py:352-365 | in every assignment of lane states, some unfinished adopted lane has nothing holding it back |
| Adoption.OneLanePlan | src/quaestor/core/planner.py:306-365 | its hypotheses can be met |
| Programs.BlockingDependencies | src/quaestor/core/programs.py:214-228 | an entry exactly for each lane with unsatisfied REQUIRES or MERGES_AFTER dependencies: their targets, sorted |
| Programs.GatesExactly | src/quaestor/core/programs.py:214-228 | REQUIRES and MERGES_AFTER gate until their target is complete; the other kinds never |
| Programs.StatesArePartitioned | src/quaestor/core/programs.py:46-64 | every lane state is planned, active, waiting or over |
| Programs.SchedulingBlockers | src/quaestor/core/orchestrator.py:1311-1320 | exactly the lanes held back once abandoned lanes are forgiven |
| LaneLeases.LeaseRow.ClaimLane | src/quaestor/core/strategic_store.py:304-353 | the claim's outcome and the row it leaves |
| LaneLeases.ClaimAnswers | src/quaestor/core/programs.py:167-186 | refused exactly while another's lease is in force; one's own renewed, its expiry moved and nothing else; any other lane taken, a lapsed one included, under a fence one higher |
| LaneLeases.LeaseRow.ReleaseLane | src/quaestor/core/strategic_store.py:379-387 | only the holder's token releases |
| LaneLeases.LeaseRow.SetLaneStateFenced | src/quaestor/core/strategic_store.py:355-377 | the state is written exactly when the fence passes |
| LaneLeases.FencingIsSound | src/quaestor/core/programs.py:135-201 | over all histories: the n-th acquisition has fence n, superseded leases never return, of issued fences exactly the latest passes, accepted writes never go back |
| LaneLeases.EventsAreTheMethods | src/quaestor/core/strategic_store.py:304-387 | the histories' events do to the row what the methods do |
| LaneLeases.RenewalIsTheHolders | src/quaestor/core/programs.py:167-186 | a renewal keeps fence and holder, and no superseded token renews |
| LaneLeases.CheckIgnoresExpiry | src/quaestor/core/programs.py:189-201 | an expired, unreplaced holder still passes |
| MailLog.InOrderExactlyOnce | src/quaestor/adapters/mailbox.py:196-240 | a consumer keeping its cursor, under any interleaving: append order, none twice, and an entry exactly if unexpired at the first receive after it was logged |
| MailLog.AliveExactly | src/quaestor/adapters/mailbox.py:272-286 | only no expiry, or a readable one still ahead, keeps a message alive |
| MailLog.DotlessIdsAreLoggedOnce | src/quaestor/adapters/mailbox.py:183-192 | with dotless ids an append is refused exactly when the id is logged, and ids stay distinct |
| MailLog.ReadsBackExactlyWhenDotless | src/quaestor/adapters/mailbox.py:295-304 | an id is read back from its file name exactly when it has no dot |
| MailLog.DottedIdsBreakDeduplication | src/quaestor/adapters/mailbox.py:295-304 | with a dot: stored twice, and a different id taken for known |
| Mailbox.Mailbox.KnownIds | src/quaestor/adapters/mailbox.py:295-304 | the ids read back from both directories |
| Mailbox.Mailbox.NextSeq | src/quaestor/adapters/mailbox.py:306-315 | one past every number ever used, from the disk alone |
| Mailbox.Mailbox.Append | src/quaestor/adapters/mailbox.py:161-192 | a known id changes nothing; otherwise the entry is logged under a new number |
| Mailbox.Mailbox.WriteExpired | src/quaestor/adapters/mailbox.py:288-292 | the copy keeps every logged entry in one of the two directories |
| Mailbox.Mailbox.Unlink | src/quaestor/adapters/mailbox.py:288-293 | so does the unlink that follows it |
| Mailbox.Mailbox.Scan | src/quaestor/adapters/mailbox.py:218-240 | delivers and moves exactly what it should, in order, one file per id |
| Mailbox.Mailbox.ReceiveReport | src/quaestor/adapters/mailbox.py:201-240 | the same; the cursor passes everything examined; the counts are what was moved and what repeated an id; with distinct ids it is the abstract receive |
| Mailbox.ReceiveIsWindow | src/quaestor/adapters/mailbox.py:201-240 | from any cursor, replays included: exactly the unexpired window after it |
| Mailbox.ChainLen | src/quaestor/adapters/mailbox.py:134-142 | the walk is a chain, and the longest from its start unless the cap was reached |
| Mailbox.CausalBudget | src/quaestor/adapters/mailbox.py:118-148 | terminates on every history and answers exactly: is every non-repeating chain shorter than the cap |
| Mailbox.ShortCyclesLeaveRoom | src/quaestor/adapters/mailbox.py:118-148 | a two-cycle does not exhaust a cap of ten |
| Recovery.ScanOpen | src/quaestor/core/executor_contract.py:274-296 | the depth, string and escape bookkeeping computes the reference view of the text |
| Recovery.EmbeddedJsonCandidates | src/quaestor/core/executor_contract.py:251-300 | the text's fenced blocks first, then the spans of the first 25 opens, up to the cap |
| Recovery.CandidatesAreBoundedAndSound | src/quaestor/core/executor_contract.py:79-85 | at most 57 entries, each fence entry a fenced block that begins with a brace, each brace entry a '{'...'}' substring, of the first 200000 characters |
| Recovery.FirstFence | src/quaestor/core/executor_contract.py:85 | a fence at the start of a text is its first block, and the search goes on behind it |
| Recovery.StripExactly | src/quaestor/core/executor_contract.py:265-267 | stripping takes white space off both ends, all of it, and nothing else |
| Wrappers.SpacesExactly | src/quaestor/core/executor_contract.py:265-267 | what counts as white space, by code point |
| Recovery.FiftySevenIsAttained | src/quaestor/core/executor_contract.py:79-82 | 57, and every number of candidates from 50, by a text made of that many fences |
| Recovery.BodyIsFirstFall | src/quaestor/core/executor_contract.py:274-296 | the scanner's depth first falls exactly where recursive descent ends the enclosing object |
| Recovery.BalancedSpanContributed | src/quaestor/core/executor_contract.py:273-296 | the exact balanced span is contributed if and only if it closes within eight string-aware closers |
| Recovery.ObjectsAreFound | src/quaestor/core/executor_contract.py:265-300 | and is in the list if its brace is among the first 25 and reached before the cap |
| Reservation.Disk.CreateExclusive | src/quaestor/core/corerelay.py:461-479 | the fallback without hard links |
| Reservation.Disk.ReserveRequest | src/quaestor/core/corerelay.py:415-481 | an undisturbed call returns the holder, claims a free key, or says it could not; what it returns is on record, whole |
| Reservation.UndisturbedCall | src/quaestor/core/corerelay.py:415-481 | taken call by call, an undisturbed caller returns what the whole call does, for every combination of failures |
| Reservation.Disk.ReleaseRequest | src/quaestor/core/corerelay.py:484-493 | gives the key back |
| Reservation.ReservationsConverge | src/quaestor/core/corerelay.py:415-493 | all interleavings, failures and crashes, both paths, taken or free: between releases all ids returned are equal and on record |
| Reservation.ReservationsConvergeExactly | src/quaestor/core/corerelay.py:415-481 | callers starting on a free key agree under every schedule if and only if no two share a temporary name |
| Reservation.StartsAreFine | src/quaestor/core/corerelay.py:415-445 | any callers about to start with names of their own satisfy its hypothesis |
| Reservation.SharedTemporaryDiverges | src/quaestor/core/corerelay.py:440-457 | any two callers that share one return two ids, the others standing still |
| Reservation.ReusedTemporaryReplaces | src/quaestor/core/corerelay.py:440-457 | a caller with the name of one that died after linking replaces the id on record, without a release |
| Reservation.RecordKeptExactly | src/quaestor/core/corerelay.py:415-481 | no schedule without a release changes an id once it is on record if and only if no two callers share a temporary name |
| Reservation.KeyIsUniqueExactlyWhenNulFree | src/quaestor/core/corerelay.py:397-408 | a key's text is its own exactly when none of the three names contains NUL |
| Failover.CheckPairing | src/quaestor/adapters/registry.py:433-471 | exactly when each refusal is returned |
| Failover.PairingExactly | src/quaestor/adapters/registry.py:433-471 | each answer, over the seats' pairs and measured families |
| Failover.PairingGate | src/quaestor/core/orchestrator.py:1156-1184 | refuses exactly the candidates sharing a family with a measured configured partner |
| Failover.RecordedPartnerSeenExactly | src/quaestor/adapters/registry.py:433-471 | of all candidates that clash with a recorded partner, check_pairing refuses exactly those that share a family with the other kind it is given |
| Failover.RecordedPartnerCanBeMissed | src/quaestor/adapters/registry.py:452-467 | the least candidate it lets through |
| Failover.MarkExhausted | src/quaestor/adapters/registry.py:475-491 | adds one kind to one seat, idempotently, others untouched |
| Failover.ChainNext | src/quaestor/adapters/registry.py:359-430 | the refusals in order, then the first live policy-clean member |
| Failover.BarredExactly | src/quaestor/adapters/registry.py:359-408 | each refusal of a whole chain, a single family included, exactly when it is given |
| Failover.PickIsFirstLive | src/quaestor/adapters/registry.py:409-430 | the first live clean member, none preceding it; nobody exactly when there is none, and which refusal then |
| Failover.PossibleWriteSelectsNothing | src/quaestor/adapters/registry.py:402-408 | while a possible write stands nobody is selected |
| Failover.FailoverVisitsTheRoster | src/quaestor/adapters/registry.py:359-430 | repeated failover visits the distinct live clean members in chain order and ends with the right refusal; on a barred chain, nobody and the bar |
| Failover.FailoverMarksOnlyItsSeat | src/quaestor/core/orchestrator.py:2050-2061 | it marks what it visited and no other seat |
| Failover.FailoverHalts | src/quaestor/adapters/registry.py:409-430 | within the number of distinct members |
| Strategist.Routes | src/quaestor/core/strategist.py:182-189 | the last item with an id decides its route |
| Strategist.ValidateDirectiveResponse | src/quaestor/core/strategist.py:145-242 | accepted exactly when admissible |
| Strategist.OwnerItemsAreNeverDisposedOf | src/quaestor/core/autonomy.py:98-124 | an admitted directive never targets an owner item as last shown, and which ones apply in which mode |
| Strategist.OwnerItemsExactly | src/quaestor/core/strategist.py:182-222 | some admissible response answers an item's id if and only if the last item shown under it is not the owner's |
| Strategist.AnsweredExactly | src/quaestor/core/autonomy.py:98-124 | and an answer is recorded at once if and only if that last item applies in the mode |
| Strategist.DistinctIdsProtectTheOwner | src/quaestor/core/orchestrator.py:800 | so with distinct ids no owner item is answered at all |
| Strategist.OwnerItemCanBeShadowed | src/quaestor/core/orchestrator.py:2996-3006 | without, a queued directive shadows it |
| Strategist.SeatAnswersOnceExactly | src/quaestor/core/orchestrator.py:844-880 | no admissible response makes the seat answer a message twice if and only if no answered id's last item applies |
| Strategist.NoMessageAnsweredTwice | src/quaestor/core/orchestrator.py:670-880 | over whole histories of turns, approvals, discards and human answers: no message answered twice if and only if each turn and human answer found its messages unanswered |
| Strategist.SeatCanAnswerTwice | src/quaestor/core/orchestrator.py:857-861 | the least input on which the seat does |
| Strategist.Seat.DisposeDirectives | src/quaestor/core/orchestrator.py:844-880 | of an admissible response, the owner's questions are escalated, what need not wait is answered, the rest queued with its text in place of earlier records; and what stands when a write fails |
| Strategist.HandleAllSortsOut | src/quaestor/core/orchestrator.py:844-880 | the same of the pure disposition |
| Strategist.DisposedSortsOut | src/quaestor/core/orchestrator.py:844-880 | the same after a failure, of the directives that took effect |
| Strategist.EscalatedExactly | src/quaestor/core/autonomy.py:98-110 | escalated: exactly what the last item shown under the id makes the owner's |
| Strategist.AnsweredNowExactly | src/quaestor/core/autonomy.py:111-116 | answered: exactly what need not wait in the mode |
| Strategist.QueuedExactly | src/quaestor/core/autonomy.py:117-124 | queued: exactly the rest, each with its own text |
| Strategist.KeptExactly | src/quaestor/core/orchestrator.py:862-870 | of the queue exactly the records for other questions are kept |
| Strategist.Seat.ConsumeRun | src/quaestor/core/orchestrator.py:766-841 | a finished turn is consumed once: given up uncounted if its row is missing, disposed of, or counted as a refusal, after whatever part of a failed disposition took effect |
| Strategist.Seat.GovernanceStep | src/quaestor/core/orchestrator.py:891-926 | consume, rescope the budget, then dispatch exactly if admitted, there is work, none is outstanding and fewer than three refusals stand; and what the count then is |
| Strategist.EventGovernsAs | src/quaestor/core/orchestrator.py:891-926 | the histories' events count and dispatch in the same way |
| Strategist.FingerprintExactly | src/quaestor/core/strategist.py:81-92 | what the budget is scoped to: exactly the ids shown that are not the owner's |
| Strategist.Seat.Approve | src/quaestor/core/orchestrator.py:670-715 | unqueues every record, applies only to an unanswered message |
| Strategist.Seat.Discard | src/quaestor/core/orchestrator.py:718-738 | unqueues every record and applies none |
| Strategist.DiscardExactly | src/quaestor/core/orchestrator.py:718-738 | exactly that question's records go, the others stay in order |
| Strategist.OnePendingPerQuestion | src/quaestor/core/orchestrator.py:670-738 | over all sequences: one record per question; approval answers an unanswered one once and leaves no record |
| Strategist.AtMostThreeHopelessTurns | src/quaestor/core/orchestrator.py:905-926 | on unchanged questions with every turn refused and its count not reset first, at most three turns are dispatched |
| Strategist.HaltsExactly | src/quaestor/core/orchestrator.py:751-926 | the seat stands halted if and only if one set of questions has been on offer without a break while three turns on it were refused, none admitted and the count not reset after the first |
| Strategist.LateFailuresNeverHalt | src/quaestor/core/orchestrator.py:829-888 | a turn that fails after the reset, every time, is dispatched for ever |
| Strategist.AlternatingWorkNeverHalts | src/quaestor/core/orchestrator.py:751-758 | so with alternating questions there is no bound |

## Left out

- RunProtocol.OneLiveWriterPerWorktree: speaks of live workers; a child that outlives its killed worker holds no lock and is not seen.
- Verdicts.SplitReadExactly: the liveness reading's own parts (row, lock, process table) are one instant; a recorded identity never changes and a missing one never reads DEAD, so this hides no wrong verdict. What the result and evidence rows say is arbitrary.
- ControlPlane.Store.Dispatch: the ladder as one uninterrupted call; its interleaving with everything else is RunProtocol's. In-process spawners that run the worker inside the call are not modelled.
- Reaper.Reap.ReapRun: one pass over one run is atomic, so the transition inside it is never refused; the collection of a zombie child is only its effect on the second reading.
- LaneEngine.BoundedAutonomy: a reap, a wake or a scheduling attempt on one lane is atomic, as is a tick; verdicts of lanes, worktree resets and prompt texts are not state of the model.
- Wakes.NoLostWake: no crashes, one tick at a time, and a lane that stays non-terminal; which question a flag answers is not tracked, as in the source.
- Planner.ValidatePlanProposal: proposals are typed (no wrong JSON types, no unknown or authority-bearing fields); the order of the sort's queue is arbitrary, since its result does not depend on it.
- Adoption.AdoptPlanProposal: the decision's text and the provenance stored with it are not modelled; digests are taken as given.
- Strategist.Seat.DisposeDirectives: each directive takes effect whole or not at all; a failure between the writes of one answer is not represented.
- LaneLeases.FencingIsSound: tokens are assumed never to be minted twice; time is a real number.
- Mailbox.Mailbox.ReceiveReport: one well-formed file per number, as append writes them; unreadable files and foreign writers reusing a number are not modelled, and the clock does not go back.
- Recovery.EmbeddedJsonCandidates: the fence pattern's search is a function of the text, not the regular-expression engine; whether a candidate parses, hence extract_structured's choice among them, is not modelled.
- Reservation.ReservationsConverge: hashing is taken as injective; file contents other than a whole or a torn reservation do not occur.
- Failover.ChainNext: kinds, families and declarations are a given table; the parsing of gateway kinds is not modelled.
- Strategist.ValidateDirectiveResponse: responses are typed; the length bound applies to the stripped text given.
- ownership_proof: lease.py:18 says dispatch refuses on it, but nothing in the repository calls it, so there is no behaviour to state.
- A bound on admitted strategist turns, and any claim that a terminal run never strands a lease: the code gives neither.
- SQLite, real files, locks, subprocesses and sockets: abstract rows, maps and ghost facts instead.
- Authority, preflight, concurrency and acceptance gates: arbitrary refusals inside the ladder.
- Cancellation, retention, credential policy, actors and the assurance ladder: finite tables that would add only easy members.
- Programs' aggregate outcome, integration and plan-challenge runs: not part of the properties proved here.
