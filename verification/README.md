# Verified model of the ssemaphore gateway

This project models the parts of the gateway that decide who is served and what clients
see, and proves what they promise. Everything is checked by `dafny verify
dfyconfig.toml`.

**Admission scheduler.** `Scheduling.dfy` describes the owner goroutine as a labelled
transition system: an event is one effect on queues, credit, permits or results, and its
guard is the branch condition under which the owner may cause it. Theorems about runs of
events follow: what the validated limits are for (`Capacity`), the invariant of every
run (`SchedulingInvariant`), weighted fairness over every backlogged interval
(`Fairness`), the processor bound of one scheduling opportunity (`FundingCost`), the
funded-head barrier (`Barrier`), exactly-once outcomes and stable drain (`Outcomes`),
why each answer is given (`Answers`), and agreement with the independent deficit
round-robin oracle of the saturation tool over whole runs (`Oracle`, `OracleTrace`,
`OracleBudget`, `OraclePlan`). `Service` bounds how much work is served to others while
a head waits, and `ServiceLimit` shows why that bound has to count visits that a
cancellation starts over.

`Owner.dfy` is the owner itself: a class with wrap-around counters, per-tenant queues,
the entry table and the indexed expiry heap (`ExpiryQueue`), whose methods follow the
program branch by branch. `Valid` says that the whole history since construction is a
legal run and that every record agrees with the state it leads to, so the theorems about
runs hold for the class. `OwnerLoop.dfy` is the goroutine's loop over commands and
timer.

**Clients.** `Acquire.dfy` puts any number of callers of Acquire, Finish, RequestCancel,
BeginDrain, ForceCancelInflight and Close beside the owner, over one bounded FIFO
mailbox, and proves what holds in every interleaving: what each call answers, what
Finish reports (`Completion`), and that nobody gets stuck (`Progress`). `Turns` shows
that every turn of the owner class is a list of the actions those interleavings are made
of. `PreDispatch.dfy` adds the HTTP layer's request slots and proves that the handler
never meets a full scheduler queue.

**Streams.** `Utf8` says what valid text is, `SseGrammar` states the strict event
grammar on bytes alone, `SseDecoder` is the incremental decoder proved to follow it for
every fragmentation, `JsonScan` and `JsonChunk` are the checks of a chunk as a JSON
document, `EventStream` reads the same bytes as a browser does, and `Relay` is the
downstream transcript. `UnicodeEscapes` is the surrogate scan of JSON strings,
`Reservation` the work reservation and its static bounds.

`Example` is a concrete configuration, state and run that meet the hypotheses of the
theorems about runs.

One place where the code differs from what its text suggests:

- `ValidateSSELimits` refuses limits that "cannot fit the smallest valid event" below 42
  bytes and streams below 56, but a chunk without the optional space has 41 bytes and the
  least stream 54. `SseMinimum.StreamFitsExactly` gives the limits that hold a stream,
  `SseMinimum.WronglyRefusedExactly` the ones refused all the same, and
  `SseMinimum.MinimumIsNotTheSmallestEvent` is one of them.


## Model

| member | source | states |
|---|---|---|
| Prelude.Mul64Exact | internal/admission/config.go:159-162 | a zero high word of the 128-bit product is exactly the absence of overflow, and the low word is then the product |
| Prelude.CeilDivReaches | internal/admission/config.go:155-157 | the rounded-up quotient is the least number of steps that reaches the value |
| AdmissionConfig.DivideRoundUpIsCeiling | internal/admission/config.go:155-157 | for positive operands the machine expression is the ceiling, without overflow |
| AdmissionConfig.CeilDivAntitone | internal/admission/config.go:129-136 | a larger quantum never needs more funding rounds, so checking the smallest quantum covers all tenants |
| AdmissionConfig.FundingBoundAntitone | internal/admission/config.go:129-136 | the funding bound of the smallest quantum dominates the bound of every tenant |
| AdmissionConfig.FundingVisits | internal/admission/config.go:129-136 | the guarded products reject exactly when the exact product exceeds 65,536 |
| AdmissionConfig.ValidateTenant | internal/admission/config.go:84-116 | accepts a tenant exactly when its quantum is a positive 64-bit product and its limits hold one request and stay within the global ones |
| AdmissionConfig.ValidateTenants | internal/admission/config.go:81-119 | accepts exactly lists of acceptable tenants with distinct identifiers; the running extrema are attained and the index map is exact |
| AdmissionConfig.ValidateCredit | internal/admission/config.go:121-136 | the cap check with carry and the visit check together decide exactly the credit conditions in exact integers |
| AdmissionConfig.ValidateConfig | internal/admission/config.go:45-139 | returns a configuration exactly when every bound holds in unbounded integers, and that configuration has every fact the scheduler theorems start from |
| Capacity.RestingAdmitsAllExactly | internal/admission/config.go:141-146 | a scheduler at rest admits every well-formed submission if and only if every queue limit holds one request of the largest size |
| Capacity.RestingFitsAllExactly | internal/admission/config.go:148-153 | with nothing in flight every permitted request fits its tenant's and the global limits if and only if every in-flight limit holds one of the largest size |
| Capacity.ValidatedHasRoom | internal/admission/config.go:45-153 | under a validated configuration nothing well formed is refused at rest and every head fits |
| Capacity.WithinExactly | internal/admission/config.go:100-108 | a tenant limit is within the global one exactly when whatever keeps the first keeps the second |
| Capacity.CapIsExact | internal/admission/config.go:121-127 | the credit of a closed visit is never cut exactly under the caps that validation accepts |
| Scheduling.RunSplit | internal/admission/owner.go:106-132 | every run splits at any point into two runs with the same end |
| Scheduling.RunJoin | internal/admission/owner.go:106-132 | runs that meet compose to one run |
| SchedulingInvariant.GlobalIsTenantSum | internal/admission/owner.go:540-566 | the global in-flight load is the sum of the tenants' loads |
| SchedulingInvariant.NothingQueued | internal/admission/owner.go:480-482 | the global queued count is zero exactly when every tenant's queue is empty |
| SchedulingInvariant.AdmittedExactlyWithinLimits | internal/admission/owner.go:175-215 | a submission is queued if and only if the owner accepts, the client is there, tenant and deadline are good, and tenant and global queues stay within all limits with it |
| SchedulingInvariant.StepQueued | internal/admission/owner.go:175-215 | requests enter a queue only by admission and leave it only by removal or dispatch |
| SchedulingInvariant.StepInflight | internal/admission/owner.go:393-410 | requests become in-flight only by dispatch and stop only by release |
| SchedulingInvariant.FundingIsExact | internal/admission/owner.go:332-335 | the deficit cap never bites: a funding adds exactly one quantum |
| SchedulingInvariant.ShapeStep | internal/admission/owner.go:298-427 | each event keeps the credit bounds, the sequence order of every queue and the placement of every entry |
| SchedulingInvariant.LimitsStep | internal/admission/owner.go:511-531 | each event keeps every tenant and global queue and in-flight limit |
| SchedulingInvariant.IdentityStep | internal/admission/owner.go:393-427 | each event keeps every entry in exactly one place: unresolved while queued, in flight while its permit is held |
| SchedulingInvariant.InvStep | internal/admission/owner.go:106-132 | the whole invariant is inductive over every event of the owner |
| SchedulingInvariant.InitialInv | internal/admission/owner.go:134-147 | a new owner satisfies the invariant |
| SchedulingInvariant.RunInv | internal/admission/owner.go:106-132 | the invariant holds after every run, of any length and order of events |
| Fairness.CreditStep | internal/admission/owner.go:326-364 | one event changes a backlogged tenant's credit by its funding minus its service and nothing else |
| Fairness.CreditConserved | internal/admission/owner.go:326-364 | over a backlogged period fundings x quantum equal work dispatched plus the change of the deficit |
| Fairness.FundingsAlternate | internal/admission/owner.go:309-382 | fundings of two unblocked backlogged tenants strictly alternate in every run |
| Fairness.FundingsDifferByAtMostOne | internal/admission/owner.go:309-382 | so their numbers of fundings differ by at most one |
| Fairness.ServiceIsProportional | internal/admission/owner.go:326-381 | work served to two such tenants satisfies the bound 3 q_a q_b + (MaxRequestUnits - 1)(q_a + q_b) on its cross-weighted difference |
| Fairness.ServiceIsProportionalOverIntervals | internal/admission/owner.go:326-381 | the same bound for every interval of a backlogged period, with the same constant |
| Fairness.FreshBacklogUnhindered | internal/admission/owner.go:201-214 | a tenant that becomes backlogged satisfies the starting condition of the fairness bound |
| FundingCost.DispatchesFillSlots | internal/admission/owner.go:363-374 | a pump dispatches exactly as many requests as the in-flight list grows by |
| FundingCost.TenantFundings | internal/admission/owner.go:332-335 | one pump funds a tenant at most ceil(MaxRequestUnits / quantum) x in-flight limit times, under any cancellations and expiries |
| FundingCost.PumpFundings | internal/admission/owner.go:298-391 | one pump executes the funding step at most ceil(MaxRequestUnits / least quantum) x tenants x in-flight limit times |
| FundingCost.PumpWithinCpuBound | internal/admission/config.go:129-136 | the validated constant 65,536 limits the fundings of every reachable pump |
| Service.DelayStep | internal/admission/owner.go:298-391 | every event pays for the work it dispatches out of what can still delay a waiting head |
| Service.WaitIsBounded | internal/admission/owner.go:298-391 | while a head waits whose tenant's own limit does not bind, the work dispatched for all others is at most what could delay it at the start, plus what visits that removals start over can serve again |
| Service.BoundedBypass | internal/admission/owner.go:298-391 | if no visit starts over, that work is at most (ceil(work / quantum) + 1) visits of every other tenant |
| ServiceLimit.RoundRepeats | internal/admission/owner.go:412-427 | a queue emptied by a cancellation in the middle of its visit and filled again is funded again |
| ServiceLimit.WaitWithoutBound | internal/admission/owner.go:412-427 | so the visits started over have to be counted: for every amount of work a run from the start serves it while an unblocked live head waits |
| Barrier.StopReasonsExactly | internal/admission/owner.go:298-391 | in every reachable state the reasons to stop are the stated comparisons of numbers: empty queues, limits used up, a paid-for head at the cursor over the global limits, or every head over its tenant's |
| Barrier.DispatchExactly | internal/admission/owner.go:337-364 | a head is dispatched exactly when it is paid for, alive, and its count and work stay within tenant and global limits in exact integers |
| Barrier.ReservedStep | internal/admission/owner.go:357-362 | while a funded head waits, no event but its own departure dispatches anything or takes its reservation |
| Barrier.NoOvertaking | internal/admission/owner.go:357-362 | over every later run no other request is dispatched before the reserved head leaves |
| Barrier.EmptyFitsGlobal | internal/admission/owner.go:357-362 | with nothing in flight a reserved head fits global capacity |
| Barrier.ReservedHeadLeaves | internal/admission/owner.go:357-362 | a pump that starts with nothing in flight and stops for a permitted reason has dispatched or removed the reserved head |
| Outcomes.ResolvedExactlyOnce | internal/admission/owner.go:452-455 | in every run an entry's result channel is written at most once, and holds a result exactly when it was written |
| Outcomes.ReleasedExactlyOnce | internal/admission/owner.go:236-254 | accounting is released once for each finished permit, only for dispatched entries, which are then no longer in flight |
| Outcomes.CauseIsFinal | internal/admission/owner.go:230-234 | a recorded cancel cause never changes in any later run |
| Outcomes.NoUnderflow | internal/admission/owner.go:546-566 | the underflow and release-twice panics are unreachable from every reachable state |
| Answers.EveryResultHasItsReason | internal/admission/owner.go:175-215 | over every run each decision was caused by one event whose circumstances it names: which limit was exceeded, who had left, which deadline had passed, or that drain had begun |
| Answers.EveryOutcomeIsNamed | internal/admission/owner.go:568-588 | over every run each terminal outcome is named after the recorded cause, or else after the serving reported by its release |
| Answers.EveryCauseHasItsReason | internal/admission/owner.go:217-296 | a client cause comes from a cancellation, a departure found at the end or a forced end that found the client gone; a shutdown cause only from a forced end |
| Outcomes.DrainAdmitsNothing | internal/admission/owner.go:256-275 | after drain begins nothing is queued, funded or dispatched in any later run |
| Outcomes.DrainIsStable | internal/admission/owner.go:480-490 | once both counts are zero they stay zero |
| Outcomes.DrainAnnouncedOnce | internal/admission/owner.go:484-490 | the drained channel is closed at most once and only when everything is finished for good |
| Oracle.VisitsRemaining | tools/run_saturation/workload.go:446-511 | jobs planned plus jobs remaining stay constant |
| Oracle.CompletePlanIsUnique | tools/run_saturation/workload.go:446-511 | two complete plans from one table are the same plan, whatever their visit budgets |
| Oracle.SchedulerFollowsOracle | tools/run_saturation/workload.go:446-511 | on every run without arrivals, removals or tenant limits the scheduler dispatches the oracle's requests in its order and keeps its queues, credit, open visits and cursor |
| Oracle.OneSlotPump | tools/run_saturation/workload.go:446-511 | with one in-flight place a pump dispatches at most one request and never rewinds or blocks |
| Oracle.PumpIsOraclePick | tools/run_saturation/workload.go:446-511 | with one free place and work queued, one pump dispatches exactly the oracle's next pick and ends in the oracle's table |
| OracleTrace.VisitsBehindHead | tools/run_saturation/workload.go:446-511 | any number of visits is the same whatever stands behind the heads that the visits leave |
| OracleTrace.TraceFollowsForesight | tools/run_saturation/harness.go:557-632 | a run that is joined and left only behind the heads stands where an oracle stands that knew from the start what the run would serve |
| OracleTrace.TraceIsThePlan | tools/run_saturation/harness.go:557-632 | with one in-flight place, the dispatch trace of every run that serves all it queues is the oracle's one complete plan, under arrivals behind others and removals behind heads at any time |
| OracleTrace.LoadedTraceIsThePlan | tools/run_saturation/harness.go:557-632 | from a loaded state without arrivals and removals that plan is the plan of the state's own queues |
| OracleBudget.SomebodyIsServed | tools/run_saturation/workload.go:461-486 | a waiting tenant sees a dispatch within its patience, a bound on closes and ring distance |
| OracleBudget.BudgetSuffices | tools/run_saturation/workload.go:460-461 | remaining x (cap / base + 2) x tenants visits finish every plan whose jobs fit the cap |
| OracleBudget.StuckForever | tools/run_saturation/workload.go:482-486 | a job above the cap is never planned, under any budget |
| OracleBudget.PlanCompletesExactlyWhenJobsFit | tools/run_saturation/workload.go:459-510 | the plan completes within the tool's budget if and only if every job fits the credit cap |
| OraclePlan.VisitOnce | tools/run_saturation/workload.go:461-505 | the loop body performs one visit of the table; it fails exactly when the head is no service job of its tenant |
| OraclePlan.ExpectedDispatchPlan | tools/run_saturation/workload.go:446-511 | within its own budget the loop returns a plan if and only if every queued job is a registered service job of its tenant that fits the cap, and the plan is the one complete plan |
| ExpiryQueue.HeadIsFirst | internal/admission/expiry.go:9-14 | in an ordered heap no entry comes before the head in (deadline, sequence) |
| ExpiryQueue.ExpiryQueue.Swap | internal/admission/expiry.go:16-20 | exchanges two entries and keeps every back pointer right |
| ExpiryQueue.ExpiryQueue.Up | internal/admission/expiry.go:22-26 | restores the order above a new or changed entry |
| ExpiryQueue.ExpiryQueue.Down | internal/admission/expiry.go:28-42 | restores the order below a changed entry and reports whether it moved |
| ExpiryQueue.ExpiryQueue.PopLast | internal/admission/expiry.go:28-36 | takes the last entry and clears its back pointer |
| ExpiryQueue.ExpiryQueue.Push | internal/admission/expiry.go:22-26 | adds exactly one entry and keeps order and back pointers |
| ExpiryQueue.ExpiryQueue.Remove | internal/admission/expiry.go:38-42 | removes exactly one given entry at any position and keeps order and back pointers |
| Ledger.CountersTakenOut | internal/admission/owner.go:546-553 | wrap-around subtraction keeps tenant and global counters equal to the queue sums |
| Ledger.CountersPutIn | internal/admission/owner.go:540-544 | wrap-around addition keeps them equal on admission |
| Ledger.CountersCharged | internal/admission/owner.go:555-558 | and on dispatch |
| Ledger.CountersRefunded | internal/admission/owner.go:560-566 | and on release |
| Owner.OwnerState.constructor | internal/admission/owner.go:134-147 | a new owner is valid, empty and accepting |
| Owner.OwnerState.Invariant | internal/admission/owner.go:80-92 | in every valid owner the scheduling invariant holds and the records agree with it |
| Owner.OwnerState.RemoveQueued | internal/admission/owner.go:412-427 | takes one entry out of queue, heap and counters; neither panic branch is reachable |
| Owner.OwnerState.Forget | internal/admission/owner.go:439-443 | removal, forgetting and the answer are one removal event |
| Owner.OwnerState.ExpireReady | internal/admission/owner.go:429-450 | removes exactly the queued entries with a passed deadline, in (deadline, sequence) order, answers each as expired unless its client left or set the deadline, and keeps the order of the survivors |
| Owner.OwnerState.Admit | internal/admission/owner.go:175-215 | answers with the first failing check or queues at the back; a refusal changes no counter, an admission exactly one queue |
| Owner.OwnerState.CancelEntry | internal/admission/owner.go:217-234 | a queued entry is answered canceled, an in-flight one is signaled once, an unknown one changes nothing |
| Owner.OwnerState.FinishEntry | internal/admission/owner.go:236-254 | releases exactly once, records a departure just observed, and names the outcome after the cause or after each serving by name |
| Owner.OwnerState.BeginDrain | internal/admission/owner.go:256-275 | answers all queues in order, a departed client as canceled and a present one as shut down; the reported counts are those of the shutdown answers and the permits held |
| Owner.OwnerState.DrainTenant | internal/admission/owner.go:261-272 | empties one queue from the front and answers each client |
| Owner.OwnerState.ForceCancelInflight | internal/admission/owner.go:277-296 | earlier causes are kept; a permit without one is the client's exactly if the client was found gone and shutdown otherwise, and the count is of the latter |
| Owner.OwnerState.NotifyDrained | internal/admission/owner.go:484-490 | announces the end of drain exactly when nothing is left, and only once |
| Owner.OwnerState.FundTenant | internal/admission/owner.go:332-335 | grants exactly one quantum within the cap and opens the visit |
| Owner.OwnerState.BlockTenant | internal/admission/owner.go:339-341 | a tenant at its own limit keeps its visit open while the cursor moves on |
| Owner.OwnerState.CloseVisit | internal/admission/owner.go:342-346 | a visit that needs credit closes and keeps its deficit |
| Owner.OwnerState.SkipTenant | internal/admission/owner.go:326-331 | an empty tenant forfeits its credit and its visit |
| Owner.OwnerState.RewindCursor | internal/admission/owner.go:383-386 | the cursor restarts only when nothing is queued |
| Owner.OwnerState.DispatchHead | internal/admission/owner.go:363-379 | pays for the head, moves it into flight and hands over its permit, in one event |
| Owner.OwnerState.SweepHead | internal/admission/owner.go:347-356 | a head is removed exactly when its client is gone or its deadline has passed, and answered accordingly |
| Owner.OwnerState.SweepTenant | internal/admission/owner.go:311-324 | dead heads are removed until a live one or nothing is left |
| Owner.OwnerState.ServeHead | internal/admission/owner.go:337-380 | one look at the head of an open visit: blocked, closed, removed, served, or the pump stops for a permitted reason |
| Owner.OwnerState.ServeVisit | internal/admission/owner.go:337-381 | one open visit ends for one of its reasons and touches no other tenant |
| Owner.OwnerState.VisitTenant | internal/admission/owner.go:310-381 | one turn of a tenant uses up potential credit whenever it asks for funding without progress |
| Owner.OwnerState.Cycle | internal/admission/owner.go:309-382 | a cycle visits every tenant; without dispatch or need of funding every tenant is idle |
| Owner.OwnerState.Pump | internal/admission/owner.go:298-391 | terminates, causes only pump events, stops only for the reasons that `Barrier.StopReasonsExactly` states in numbers, and rewinds the cursor when it has emptied the queues |
| OwnerLoop.PumpBudget | internal/admission/config.go:129-136 | a pump of the running owner adds at most 65,536 fundings to its history |
| OwnerLoop.PumpServesReserved | internal/admission/owner.go:357-362 | a head reserved when nothing was in flight has left when the running owner's pump returns |
| OwnerLoop.PumpPicksLikeOracle | tools/run_saturation/workload.go:446-511 | the running owner's pump with one place serves the oracle's pick |
| OwnerLoop.BoundedPump | internal/admission/owner.go:298-391 | the pump method with its cost bound and its service guarantee together |
| OwnerLoop.PumpAndNotify | internal/admission/owner.go:123-129 | pump and announcement leave the owner settled |
| OwnerLoop.ExpireDue | internal/admission/owner.go:116-117 | after the clock reading nothing due is queued, and a drained owner stays drained |
| Owner.OwnerState.AdmitWithin | internal/admission/owner.go:185-215 | after the first reading of the client the checks follow in order, and what was read is the events before the admission |
| OwnerLoop.HandleAdmit | internal/admission/owner.go:175-215 | the events of an admission are readings of its own client and then the one admission |
| OwnerLoop.HandleCancel | internal/admission/owner.go:217-234 | a cancellation has the one effect its entry's place calls for, and reports which of the three it was |
| OwnerLoop.HandleFinish | internal/admission/owner.go:236-254 | a finish is readings of its client and then the one release, and reports the outcome by its name |
| OwnerLoop.HandleDrain | internal/admission/owner.go:256-275 | a drain ends admission and then only removes queued entries, and reports how many of them were told of the shutdown |
| OwnerLoop.HandleForceCancel | internal/admission/owner.go:277-296 | a forced end stops admission at most once and then only removes and signals; each new cause is the one its client's presence calls for, and the present ones are counted |
| OwnerLoop.Handle | internal/admission/owner.go:149-173 | each command adds exactly own events around the one effect the clients' model allows for its message; a stop finds the owner drained, so its panic is unreachable |
| OwnerLoop.CommandTurn | internal/admission/owner.go:115-124 | a turn on a command reads the clock first, is such a list of events, and ends settled or stopped, with nothing queued that was due at the reading |
| OwnerLoop.TimerTurn | internal/admission/owner.go:125-129 | a turn on the expiry timer reads the clock first, adds own events only and ends settled, with nothing queued that was due |
| Acquire.BeginIsWellFormed | internal/admission/scheduler.go:75-109 | a call reaches the mailbox if and only if its admission is presentable, its client is there and its own deadline is ahead; the entry has the earlier deadline and the right attribution, and every other call gets the stated answer |
| Acquire.TrailPosted | internal/admission/scheduler.go:52-70 | the mailbox is first in, first out for the messages of one call |
| Acquire.StatusStep | internal/admission/owner.go:149-173 | an entry only ever moves from absent to queued or refused, from queued to refused or dispatched, from dispatched to released |
| Acquire.CallerStep | internal/admission/scheduler.go:75-155 | every step of a caller keeps the relation between its place, its messages, its entry and its permit |
| Acquire.OtherStep | internal/admission/scheduler.go:75-155 | no step of anybody else disturbs it |
| Acquire.OwnerTakesStep | internal/admission/owner.go:149-173 | nor does the owner taking a message |
| Acquire.OwnerMovesStep | internal/admission/owner.go:106-132 | nor any event the owner causes on its own |
| Acquire.WorldStep | internal/admission/scheduler.go:75-360 | the world invariant is inductive over every action |
| Acquire.EveryInterleavingOk | internal/admission/scheduler.go:75-360 | it holds after every interleaving of any number of clients with the owner |
| Acquire.ChannelStep | internal/admission/owner.go:443-455 | what the owner sends to a result channel is its decision, with a permit exactly for a dispatch, and the owner reads only real departures |
| Acquire.DepartureMayBeMissed | internal/admission/owner.go:347-379 | a client that leaves between the owner's reading and the dispatch does not stop the dispatch, so such schedules are among the interleavings |
| Acquire.PermitExactlyWhenDispatched | internal/admission/scheduler.go:118-155 | through every receive of the pair of permit and decision, Acquire returns a permit if and only if the decision it returns is dispatched |
| Acquire.AnswerIsTheResult | internal/admission/scheduler.go:118-155 | in every interleaving a returned call answers exactly its entry's result, or the cancellation before the start where that is a dispatch and no permit is returned |
| Acquire.NoResultAnswer | internal/admission/scheduler.go:75-155 | a returned call without a result answers what the place of its return dictates: the synchronous refusal, a cancellation, or draining |
| Progress.PermitOnlyToThePresent | internal/admission/scheduler.go:118-125 | a permit is handed only to a caller whose context is not done at the receive |
| Progress.OnlyTheDepartedLeave | internal/admission/scheduler.go:118-146 | an entry is withdrawn or a permit given back only for a caller whose context is done |
| Acquire.NilReturnLeavesNothing | internal/admission/scheduler.go:118-155 | after a nil return no entry of the call is queued or in flight, none can become so, and a permit made for it was released |
| Acquire.ReturnedPermitHoldsCapacity | internal/admission/scheduler.go:118-125 | a returned permit was dispatched, and its entry stays in flight until its Finish reaches the owner |
| Acquire.EveryPermitHasAHolder | internal/admission/scheduler.go:72-74 | whatever is in flight belongs to a call that still has to finish it |
| Acquire.FinishAlwaysReleases | internal/admission/scheduler.go:303-321 | every completed Finish released its accounting; the paths that lose it to shutdown are unreachable |
| Acquire.FinishResultIsCached | internal/admission/types.go:176-185 | the terminal result of a permit never changes for later callers |
| Completion.FinishTellsTheOutcome | internal/admission/scheduler.go:303-321 | every completed Finish reports the outcome on the owner's record, named after the recorded cause or else after a serving that a caller of Finish reported |
| Completion.ServingIsTheCallers | internal/admission/scheduler.go:303-321 | whatever serving reaches the owner is one a caller of Finish gave |
| Progress.MailboxIsBounded | internal/admission/scheduler.go:64 | the mailbox never holds more than 64 messages |
| Progress.RoomOrTake | internal/admission/scheduler.go:64 | below 64 messages a sender finds room; otherwise the owner can take one |
| Progress.NobodyIsStuck | internal/admission/scheduler.go:75-155 | every call of Acquire that has not returned can take a step, or the owner can take a message, unless its entry waits in a queue |
| Progress.PermitsCanFinish | internal/admission/scheduler.go:303-321 | every permit handed out can be finished with any serving, and a finish under way goes on |
| Progress.ClosersAreNotStuck | internal/admission/scheduler.go:249-281 | every call of Close can go on without giving up, or the owner can, unless work is left to finish |
| Progress.CloseFailsOnlyAbandoned | internal/admission/scheduler.go:249-281 | Close fails only by giving up |
| Progress.CallsAreFinite | internal/admission/scheduler.go:75-360 | a call of Acquire or Close takes at most seven steps of its own and the finish of a permit three, so together with the above every call comes to an end or waits for the scheduler |
| Acquire.CancellationFindsResult | internal/admission/scheduler.go:126-146 | the wait after a cancellation never blocks on a running owner |
| Acquire.AdmissionPrecedesCancellation | internal/admission/scheduler.go:283-301 | a call's pending messages are one of five ordered lists, admission first |
| Acquire.OwnerNeverPanics | internal/admission/owner.go:163-171 | the owner can always take the next message: a stop always finds it drained, from any number of concurrent Close calls |
| Acquire.StoppedOwnerHoldsNothing | internal/admission/scheduler.go:249-281 | after the owner stopped nothing is queued or in flight |
| Acquire.CloseMeansDrained | internal/admission/scheduler.go:249-281 | a successful Close has seen the owner stop with everything finished |
| Acquire.OwnerRunsLegally | internal/admission/owner.go:106-132 | whatever the clients do the owner performs a legal run, so every theorem about runs applies |
| Turns.OwnEventsInterleave | internal/admission/owner.go:106-132 | events of the owner's own are actions of the interleaving |
| Turns.TurnInterleaves | internal/admission/owner.go:115-124 | a turn of the owner class on the message at the head of the mailbox continues any interleaving that has led to its state |
| Turns.TimerInterleaves | internal/admission/owner.go:125-129 | so does a turn on the timer |
| PreDispatch.ValidateEnvelope | internal/httpapi/config.go:239-263 | accepts exactly the counts whose largest requests fit the queue in exact integers |
| PreDispatch.ValidateLimit | internal/httpapi/config.go:167-195 | accepts exactly acceptable tenant limits |
| PreDispatch.ValidateSlots | internal/httpapi/config.go:151-187 | accepts exactly acceptable slot tables and builds the table they describe |
| PreDispatch.SlotIsThere | internal/httpapi/handler.go:419-428 | a slot is returned only by a request that holds it, so no channel receive can block |
| PreDispatch.LeaseMoves | internal/httpapi/handler.go:401-428 | taking, rolling back and returning slots keeps the channel fill equal to the number of holders |
| PreDispatch.WithinStep | internal/httpapi/handler.go:217-223 | every scheduler step keeps the leases of the calls inside Acquire and the tenants of their entries |
| PreDispatch.QueuesHaveRoom | internal/httpapi/config.go:239-258 | tenant and global queues have room for the submission the owner takes next |
| PreDispatch.HandlerNeverMeetsFullQueue | internal/httpapi/config.go:239-258 | in every reachable state of handlers, clients and owner the next submission of the handler gets no tenant or global rejection |
| PreDispatch.SlotRefusedExactlyWhenFull | internal/httpapi/handler.go:401-417 | in every reachable state a newcomer is refused a tenant or global slot exactly when all of that kind are held |
| PreDispatch.SlotsBoundHandlers | internal/httpapi/handler.go:387-428 | calls inside Acquire never outnumber the configured slots, globally or per tenant |
| UnicodeEscapes.DecodeHexQuad | internal/contract/jsonscan.go:156-175 | decodes exactly four hexadecimal digits and never loses a bit in its 16-bit register |
| UnicodeEscapes.ReadEscape | internal/contract/jsonscan.go:105-122 | one escape, with its pair if it is a high surrogate, is read in one step without leaving the text |
| UnicodeEscapes.ValidUnicodeEscapes | internal/contract/jsonscan.go:84-126 | the indexed loop answers what the token-level scan answers, unless the context is canceled |
| UnicodeEscapes.ScanAcceptsExactlyPaired | internal/contract/jsonscan.go:84-126 | on every text with well-formed strings the scan accepts if and only if each surrogate escape is half of an adjacent high-low pair (section 7 of RFC 8259) |
| JsonScan.ScanJSONValue | internal/contract/jsonscan.go:28-82 | on the tokens of the decoder the recursive scan gives the verdict of the scan function and leaves what it leaves, unless the context is canceled |
| JsonScan.ScanObject | internal/contract/jsonscan.go:43-66 | the key loop of an object finds a repeated key against all keys before it |
| JsonScan.ScanArray | internal/contract/jsonscan.go:67-78 | the element loop of an array |
| JsonScan.ValidateJSONDocument | internal/contract/jsonscan.go:10-26 | a document is one value and then the end, otherwise it is named trailing or malformed |
| JsonScan.ScanOfTokens | internal/contract/jsonscan.go:28-82 | on the tokens of any value, whatever follows, the scan stops exactly behind them if nesting and keys are good, and names a reason that applies if not |
| JsonScan.AcceptedIsValue | internal/contract/jsonscan.go:28-82 | whatever tokens the scan accepts are those of one value with good nesting and keys |
| JsonScan.DocumentAcceptedExactly | internal/contract/jsonscan.go:10-82 | a token stream is accepted if and only if it is exactly one value, nested within the limit, whose objects repeat no key |
| JsonScan.RefusalIsDeserved | internal/contract/jsonscan.go:10-82 | a well-formed document is refused only for nesting or for a repeated key, whichever applies to it |
| JsonChunk.ReadField | internal/contract/sse.go:542-567 | one field of the root object is checked and consumed as the field function says |
| JsonChunk.ValidateSSEChunkObject | internal/contract/sse.go:530-577 | the object check gives the verdict of its tokens unless the context is canceled |
| JsonChunk.ObjectReasonOfValue | internal/contract/sse.go:530-577 | for a good value the object check finds exactly what its type field says: missing, of another type, unsupported or right |
| JsonChunk.RefusalsAreNamed | internal/contract/sse.go:517-577 | every refusal of a clean document that begins with a value has the name of its own defect |
| JsonChunk.ChunkAcceptedExactly | internal/contract/sse.go:507-577 | a payload passes both checks if and only if it is one good value that is an object whose type field is the expected string |
| Utf8.ValidUtf8Exactly | internal/contract/sse.go:302-327 | the byte tables accept exactly the encodings of sequences of scalar values (sections 3 and 4 of RFC 3629) |
| SseGrammar.AcceptedIsStrict | internal/contract/sse.go:273-357 | whatever is accepted is one strict event within the limits, with the payload that was judged |
| SseGrammar.WireIsAccepted | internal/contract/sse.go:273-357 | every admissible event is accepted whole, with either line ending and optional space, whatever follows it |
| SseGrammar.AcceptsExactlyStrictEvents | internal/contract/sse.go:273-357 | acceptance of a length and payload is equivalent to an independent grammar of one event whose payload encodes scalar values |
| SseGrammar.PayloadEncoding | internal/contract/sse.go:302-327 | an event is valid UTF-8 exactly when its payload is |
| SseDecoder.SSEDecoder.constructor | internal/contract/sse.go:247-266 | the wire is cut one byte past the limit, so an over-long stream is noticed |
| SseDecoder.SSEDecoder.AccountBytes | internal/contract/sse.go:465-479 | names the limit that a count would pass, total first, and changes nothing then |
| SseDecoder.SSEDecoder.ReadFragment | internal/contract/sse.go:410-419 | one fragment of any size is accounted for before it is kept |
| SseDecoder.SSEDecoder.ReadLine | internal/contract/sse.go:403-447 | the line read does not depend on how the bytes arrive in fragments |
| SseDecoder.SSEDecoder.ReadDataLine | internal/contract/sse.go:294-317 | the first line yields the payload, or fails for the reason the grammar names |
| SseDecoder.SSEDecoder.ReadDelimiter | internal/contract/sse.go:319-334 | the second line completes the event, or fails for the reason the grammar names |
| SseDecoder.SSEDecoder.ValidateChunk | internal/contract/sse.go:498-515 | the verdict on a chunk is that of its bytes and tokens unless the context is canceled |
| SseDecoder.SSEDecoder.NextOpen | internal/contract/sse.go:285-357 | an open decoder returns exactly the event the grammar accepts next |
| SseDecoder.SSEDecoder.Next | internal/contract/sse.go:273-357 | events concatenate to a prefix of the wire and are a function of its bytes; a failure is the grammar's or the cancellation, which a context done before the call always gets, and is returned by every later call |
| SseDecoder.SSEDecoder.VerifyEOF | internal/contract/sse.go:362-396 | succeeds exactly when nothing is unread after a clean end; otherwise names the trailing byte, the limit, the read failure or the cancellation; idempotent; a failure is final |
| SseDecoder.AcceptedIsGenuine | internal/contract/sse.go:339-356 | each returned event is a chunk that was judged good, or the terminal event after a chunk |
| SseDecoder.GrownCapacity | internal/contract/sse.go:453-463 | the buffer grows enough for what is appended and never past the event limit |
| SseMinimum.SmallestStreamFits | internal/contract/sse.go:234-241 | limits that pass validation hold a stream of one minimal chunk and the terminal event |
| SseMinimum.LiteralsAreAscii | internal/contract/sse.go:27-31 | the literals of the format are the bytes of their texts |
| SseMinimum.ValidatedExactly | internal/contract/sse.go:212-241 | validation accepts exactly the limits in order that hold the chunk and the terminal event written with their spaces |
| SseMinimum.StreamFitsExactly | internal/contract/sse.go:234-241 | some stream completes under given limits if and only if an event may have 41 bytes and the whole 54 |
| SseMinimum.WronglyRefusedExactly | internal/contract/sse.go:234-241 | among limits otherwise in order, the refused ones that hold a stream are exactly those with 41 bytes an event, or with 54 or 55 bytes in all and at least 41 an event; no accepted ones hold none |
| SseMinimum.MinimumIsNotTheSmallestEvent | internal/contract/sse.go:234-241 | limits of 41 bytes an event and 54 in all are refused although the least stream completes under them |
| EventStream.EventDispatchesPayload | internal/contract/sse.go:403-496 | one accepted event with any line endings dispatches one message whose data is its payload (sections 9.2.5 and 9.2.6 of the WHATWG HTML Living Standard) |
| EventStream.StreamDispatches | internal/contract/sse.go:403-496 | the same for every list of accepted events |
| EventStream.ClientSeesPayloads | internal/contract/sse.go:403-496 | a client reading the joined events gets exactly their payloads in order |
| EventStream.PayloadIsUnique | internal/contract/sse.go:487-496 | the bytes of an event determine its payload |
| Relay.ResponseSink.WriteError | internal/httpapi/errors.go:44-65 | writes part of one document, and only when nothing was committed |
| Relay.ResponseSink.WriteSSEEvent | internal/httpapi/errors.go:70-106 | success means the whole event was written and flushed; a failure wrote at most a part of it |
| Relay.HandleUpstreamContext | internal/httpapi/handler.go:450-490 | the step is handled if and only if request, permit or deadline ended it; a client that was sent nothing is told nothing if it left, the draining document for a lost permit, the timeout document for the deadline |
| Relay.FinishSSEFailure | internal/httpapi/relay.go:152-172 | a failed stream is answered by the same rule, otherwise with the timeout or the bad-upstream document as reported; after the first byte it ends in silence |
| Relay.NextSSEEvent | internal/httpapi/relay.go:100-124 | an event is returned exactly when the grammar accepts one and its own context was stopped before it ended; a timeout is reported exactly when that context ended by its deadline while the exchange went on |
| Relay.VerifySSEEOF | internal/httpapi/relay.go:126-150 | the end is verified exactly when nothing is unread after a clean end and its own context was stopped before it ended; timeouts are reported by the same rule |
| Relay.FinishStream | internal/httpapi/relay.go:63-92 | the terminal event is written only after verified end of file and a clean close |
| Relay.RelayEvents | internal/httpapi/relay.go:40-98 | every step keeps the transcript a prefix of the validated wire or part of one document; every outcome has its cause, and an exchange that had ended is sent no stream |
| Relay.RelaySSE | internal/httpapi/relay.go:20-98 | never both kinds of output; completion only when the whole upstream was verified, written and flushed; each other outcome implies its fault, and the document sent is the one of that fault |
| Relay.FaultlessCompletes | internal/httpapi/relay.go:40-98 | a whole stream is completed when the exchange has not ended, no timer or context fired, the close succeeded and no write failed |
| Relay.CompletedClientView | internal/httpapi/relay.go:63-92 | a client of a completed relay reads one message per chunk, each an object of the expected type, and then the terminal marker |
| Reservation.ReservationUnits | internal/contract/request.go:430-443 | the reservation is the exact sum or an error; overflow is never mistaken for a small number |
| Reservation.MinimumJSONStringBytes | internal/contract/request.go:200-216 | the count is the least length of any JSON string with this value (section 7 of RFC 8259) |
| Reservation.NewParser | internal/contract/request.go:138-198 | accepts exactly the limits whose largest reservation fits a word and whose smallest request fits the limits |
| Reservation.ReservationNeverOverflows | internal/contract/request.go:395-403 | for a constructed parser no request within the limits takes the overflow branch |

## Left out

- The sequence number and the entry identifier are unbounded: their 64-bit wrap-around after 2^64 admissions is not modelled. In `Acquire` a call is named by its entry identifier, which is assigned when the call begins instead of after its first checks.
- Entries are values in the queues, the in-flight list and the heap, and the table maps an identifier to one; the list elements and the entry pointers they share are not modelled. The heap's back pointers are a map from entry to index.
- Clock and context reads are nondeterministic monotone readings; where the code reads twice in one branch the model may read more often, never less.
- `dispatch` and the cursor step after a queue that became empty are one event, as in both places where the program performs them together.
- In `Acquire` a drain command ends admission in one action and the removals and signals that follow are separate actions, which admits more schedules than the program has; `Turns.TurnInterleaves` shows that the program's own turns are among them.
- `Permit.Finish` and the slot lease are states of the concurrent protocol instead of classes with a once flag, because their point is what concurrent callers see.
- Timers and their re-arming, snapshots, the goroutine start and channels other than by their contracts.
- The tokenizer of the JSON library is a function from payloads to token streams given to the decoder; JSON decoding of requests and of non-streaming responses is not modelled.
- The buffered reader is modelled by its slice contract with fragments of any size, so which of two exceeded byte limits is named may vary in the model.
- The relay's idle timer and the failures of the body and the writer are nondeterministic observations, and that a derived context ends with its parent is not used; panics of the upstream and header contents are not modelled.
- HTTP parsing, authentication, media types, the server, its listeners and shutdown, policy files, commands and visuals: plumbing without a hard property.
- The workload generator and shuffle of the saturation tool: only the planning loop is modelled, on any queues. The tool plans for its two service tenants; the model plans for every configured tenant, passing over empty ones.
- PreDispatch.ValidateSlots: does not model credentials and timeouts, which have no part in the queue envelope.
