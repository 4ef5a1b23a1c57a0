# A model of the agent department's hard core

The department is a set of hosts on which language-model agents work tickets taken from a shared
board. This project models, in Dafny, the parts of it whose correctness is not visible in any one
function body, and proves what they promise over every input and every run.

| file | what it models |
|---|---|
| `AdmissionQueue.dfy` | the admission control in front of a model's serving slots |
| `QueueSections.dfy` | what each of its critical sections does with the requests, in the queue's fields alone |
| `Record.dfy` | the questions asked of a ticket's comment log: who won, who holds it, how many attempts |
| `LogSteps.dfy` | what one more comment does to each of those answers, kind by kind |
| `TicketStore.dfy` | the store's view of one ticket, and claiming as the sequence of requests it is |
| `Stages.dfy` | the columns, the agents (one host's dispatcher for one role) and the comments they write |
| `ConditionalClaims.dfy` | claiming by conditional write, with work, hand-back, close, move, crash, restart and reconcile |
| `Reconcile.dfy`, `PlacedTickets.dfy` | when a restart may take a ticket over; handlers that place their ticket themselves |
| `Arbitration.dfy`, `AppendClaims.dfy` | what reading the log back decides; claiming by append, with the same steps around it |
| `AppendRuns.dfy`, `StampOrder.dfy` | what claiming by append rests on, time and stamps, and runs that end badly without it |
| `AppendReconcile.dfy` | when a restart may take a ticket over on the append path |
| `Ceilings.dfy` | the two places that ask whether a ticket has attempts left |
| `Dispatcher.dfy` | a stage's run loop, its workers, and which tickets a poll starts |
| `JsonRepair.dfy`, `JsonGrammar.dfy` | the scanner that repairs the JSON a model wrote; its escapes against the grammar of RFC 8259 |
| `Edit.dfy`, `Workspace.dfy` | addressing and applying an edit; the guarded tree with one level of undo |
| `StoredEdits.dfy` | what an accepted edit stores, line by line, and why a refused one is refused |
| `Toolbox.dfy`, `AgentLoop.dfy` | the tools a stage may call, and the bounded loop that runs it |
| `CheckedTrees.dfy` | whether the tree a turn leaves has been checked |
| `IdleStages.dfy` | one call's effect by tool and answer; stages whose calls get nothing done |
| `Session.dfy`, `Lease.dfy`, `Backoff.dfy` | single-flight login, sandbox leases, the polling interval |
| `Shell.dfy`, `TreeScript.dfy` | shell quoting, and laying a file tree down by a script |
| `Wrappers.dfy`, `Sorting.dfy`, `Text.dfy` | result types, the library sort, the library's string functions |

Where the source changes an object in place there is a class with the same fields whose methods are
proved equal to a function on the object's state; the properties are then lemmas about those
functions. What a function and its method share with the properties stated about them (which comment
closes a round, which digits are hexadecimal, what counts as progress) is in turn characterised on its
own, in constructors, characters and fields. Concurrency is a transition system: each critical section, store request or channel
operation is one atomic step, and the lemmas quantify over every sequence of steps. Everything
outside the process (the forge, the board, the model, the sandbox) answers by an arbitrary function
or by a parameter of the step.

## What the proofs found

Places where the code falls short of its own comments or of the expected property, each with a
concrete case and the exact condition where one exists:

- Cancelling a waiting critical request does not dispatch, so admissible requests can be left waiting
  until the next release (`CancelStrandsExactlyWhen`, `CancelStrandsAnExample`). In every reachable
  state somebody admissible is left waiting exactly when nothing critical runs or waits, a slot is free
  and others wait (`UnsettledExactlyWhen`), and further cancels leave it so as long as others wait
  (`StrandingLasts`). The queue still never stalls: whenever somebody waits, somebody runs.
- On the append path, a claim reads itself back exactly when it is the earliest fresh one standing
  (`ReadBackWinsExactlyWhen`), so exclusion rests on the order of the store's stamps. One comment
  stamped out of order lets the claim read back next make a second owner in exactly two ways
  (`OneStampGivesTwoOwnersExactlyWhen`): the claim itself is put before the winner's, as with two
  comments of one instant whose ids are out of append order (`TieMakesTwoWinners`); or the close or
  hand-back that ends the owner's round is put before a claim that waits to be read back
  (`EarlyCloseMakesTwoOwners`). Each has a run from a fresh ticket.
- Nothing makes a host append in the round in which it saw the ticket. An append takes a ticket that
  does not wait for its role, from whoever owns it, exactly when no claim of the role is live and the
  ticket has left the role's Ready column (`LateAppendTakesExactlyWhen`); a run from a fresh ticket ends
  with two agents at work (`LateAppendMakesTwoWorkers`). And a claim appended in time beside an owner
  wins as well exactly when every live claim of the round is past the stale window
  (`OwnerIsOutlivedExactlyWhen`, `LongAttemptIsOutlived`).
- `Reconcile` compares the host of the standing claim only, and does not look at the column again
  after listing. A restarted host can therefore take a live claim of another role on the same host
  for its own and put the ticket into its own queue while it is being worked
  (`StaleListingStealsLiveWork`, `StaleListingIsReachable`, on both claiming paths). Taking a ticket
  over is safe in every continuation exactly when the re-read ticket is in a Working column and no
  dispatcher of the same host owns it (`ReconcileIsSafeExactlyWhen`), which a host can look up
  (`HostVacantMeans`); and a whole run of the program as it is endangers nobody's work exactly when
  every takeover in it would have passed that check (`RunIsSafeExactlyWhen`).
- A handler that places the ticket itself has its round closed after the move. Whoever claims it next
  is not the holder the log names until then, and nobody is afterwards
  (`LateCloseErasesTheNextHolder`). In runs whose reconciles take over only tickets nobody owns, a
  worker is the named holder exactly when no claim stood when it recorded its own and no such late
  close has happened since (`WorkerIsNamedExactlyWhen`), and goes on being it whatever happens exactly
  when no round of a placed ticket was open at that moment (`WorkerStaysNamedExactlyWhen`). If the
  placing host dies before its close, the check above is not enough: a run passes it and robs a worker
  on another host (`DeadPlacerMisleadsReconcile`). With placed tickets a takeover is safe exactly when
  nobody on any host owns the ticket and it is in a Working column, or it has left every stage
  (`TakingOverIsSafeExactlyWhen`).
- The "not even its first line" refusal of a text address is wrong exactly when the quote matches
  loosely in two or more places (`AbsentIsTrueExactlyWhen`), as `a` does in a file of two indented
  lines `a` (`AbsentAlthoughThere`).
- The verdict of a check is read wrongly exactly when a later line of the configured command itself
  begins with `exit ` (`VerdictInvertsRenderingExactlyWhen`); `a`, newline, `exit 0` always passes
  (`AmbiguousCheckHidesAFailure`).
- With run_command offered and a sandbox attached, a turn that only writes is always followed by a
  check (without them, never: `WritingTurnIsChecked`), but one that has run the check itself is not:
  its tree goes on unchecked exactly when some path changed after the turn's last check differs from
  what was checked (`TreeGoesUncheckedExactlyWhen`). With no path changed twice that is: when any
  accepted write or undo came after it (`ChangeAfterCheckGoesUnchecked`). A change after the check is
  not enough by itself, as a write taken back leaves the checked tree
  (`CheckThenWriteGoesUnchecked`, `CheckThenWriteAndUndoIsChecked`).
- The script that lays a tree down fails on a directory that begins with a dash and is longer than
  that, because the name is quoted but not protected from being read as options, and on the path `.`,
  which the path check lets through (`ScriptLaysTheTreeExactlyWhen`, `DashedDirectoryFails`); a directory
  named `-` is fine (`DashIsADirectory`).
- A caller waiting for a login can return an error although that login succeeded, when a newer one
  has failed meanwhile (`OvertakenWaiterFails`, `WaiterGetsItsLoginExactlyWhen`).
- The polling interval is exact for all bounds up to 2^32 nanoseconds (about 4.3 seconds) and not
  beyond (`BackoffIsExactExactlyWhen`); the defaults are well inside.

## Hypotheses

They are preconditions, or guards of the steps, of the members that need them.

- The store stamps comments so that (time, id) strictly increases in append order; comment writes
  succeed; each store request is atomic; nobody outside the protocol moves the ticket, closes a round
  or hands the ticket back. The lemmas of `StampOrder.dfy` drop the first of these.
- On the append path, a claim is appended in time (implied by appending in the round in which the host
  saw the ticket, `SameRoundIsInTime`), the oldest live claim is too young to be pruned when a log is
  read back, and stage roles are not empty. The lemmas about late appends drop the
  first, the two about outlived owners the second.
- For exclusion, a reconcile that takes a ticket over checks its own host first; the exact conditions
  above say that nothing less would do.
- Claim comments carry no hand-back marker. Claims are rendered as JSON, which escapes the marker's
  angle brackets; `PrunedResetRevivesAttempts` shows what the hypothesis is for.
- Columns belong to one stage each, and Ready, Working and Exhausted differ.
- A board listing names each ticket once, and reading a ticket gives the ticket asked for.
- The lease that becomes ready is the lease that was created.

## Model

| member | source | states |
|---|---|---|
| AdmissionQueue.EveryRunKeepsInvariant | internal/queue/queue.go:103-134 | over every run of arrivals, cancels and releases, `running` is the number of grants not yet released, within the slots, exactly one while a critical request runs; at most `bound` wait; a waiter implies somebody running |
| AdmissionQueue.RunsFromNew | internal/queue/queue.go:126-134 | the same from a new queue, whatever its slots and bound were given as |
| AdmissionQueue.PickIsBestOfAll | internal/queue/queue.go:216-238 | the waiter admitted is better than all waiters, admissible or not |
| AdmissionQueue.StepOvertakesNobody | internal/queue/queue.go:216-238 | whatever any step grants is better than everybody still waiting after it |
| AdmissionQueue.CriticalDrains | internal/queue/queue.go:240-260 | while a critical request waits, only older critical requests are granted |
| AdmissionQueue.CriticalWaitIsBounded | internal/queue/queue.go:216-260 | a waiting critical request is granted or cancelled within as many releases as were running plus older waiting criticals, whatever else happens |
| AdmissionQueue.StepSettles | internal/queue/queue.go:199-238 | a release, and an arrival at a settled queue, leave no admissible request waiting |
| AdmissionQueue.UnsettledExactlyWhen | internal/queue/queue.go:216-260 | in every reachable state, somebody admissible is left waiting exactly when nothing critical runs or waits, a slot is free and others wait |
| AdmissionQueue.CancelStrandsExactlyWhen | internal/queue/queue.go:160-183 | from a settled queue, a cancel leaves an admissible waiter exactly when it removes the last waiting critical one, nothing critical runs, a slot is free and others wait |
| AdmissionQueue.StrandingLasts | internal/queue/queue.go:160-183 | from an unsettled queue, a cancel of any waiter leaves an admissible one exactly when others wait |
| AdmissionQueue.CancelStrandsAnExample | internal/queue/queue.go:168-176 | a run of three arrivals after which a cancel strands a waiter |
| AdmissionQueue.RacedCancelReturnsTheSlot | internal/queue/queue.go:168-183 | a cancel that lost the race to a grant is a release of that request's slot and nobody else's |
| AdmissionQueue.SecondReleaseIsNothing | internal/queue/queue.go:199-212 | releasing or cancelling after the release changes nothing |
| AdmissionQueue.ArriveShedsOnlyTheArrival | internal/queue/queue.go:146-166 | a full queue sheds nobody who was already waiting |
| AdmissionQueue.ArrivalIsShedExactlyWhen | internal/queue/queue.go:146-166 | an arrival is told the queue is full exactly when it neither runs nor waits afterwards |
| AdmissionQueue.Queue.BestLocked | internal/queue/queue.go:216-238 | the scan finds the admissible waiter the specification picks |
| AdmissionQueue.Queue.DispatchLocked | internal/queue/queue.go:216-238 | the loop on the fields is the dispatch of the state machine |
| AdmissionQueue.Queue.Arrive | internal/queue/queue.go:146-166 | the arrival section keeps the invariant and is the state machine's step, with the full error exactly when shed |
| AdmissionQueue.Queue.Cancel | internal/queue/queue.go:167-183 | the cancel section keeps the invariant and is the state machine's step |
| AdmissionQueue.Queue.Release | internal/queue/queue.go:199-212 | the release closure keeps the invariant and is the state machine's step |
| AdmissionQueue.Queue.RemoveLocked | internal/queue/queue.go:262-278 | removes the first waiter of that identity, or reports that it is gone |
| QueueSections.BetterMeans | internal/queue/queue.go:280-287 | critical before high before normal before low, and within a priority the older request |
| QueueSections.PrioritiesByName | internal/queue/queue.go:58-69 | which names are critical, high and normal; every other name is low |
| QueueSections.NewIsClamped | internal/queue/queue.go:126-134 | a new queue is empty and has the slots and the bound asked for, at least one of each |
| QueueSections.SettledMeans | internal/queue/queue.go:240-260 | in a settled queue a critical request waits because something runs, any other because a critical one runs or waits or the slots are full |
| QueueSections.CancelRemovesThatRequest | internal/queue/queue.go:168-176 | a cancel of the i-th waiter leaves the waiters before it and after it, in order, and every other field as it was |
| QueueSections.CancelOfAStranger | internal/queue/queue.go:168-183 | a cancel or release of a request that neither waits nor was granted changes nothing |
| QueueSections.DispatchConserves | internal/queue/queue.go:216-238 | dispatch grants waiters, each once and with its own priority, takes one slot for each, and does nothing else |
| QueueSections.ArrivalIsAccountedFor | internal/queue/queue.go:146-166 | an arrival waits, was granted with its priority, or was turned away with the queue at its bound; everybody else still waits or was granted |
| QueueSections.ReleaseIsAccountedFor | internal/queue/queue.go:199-212 | a release gives back one slot, the request's own, and hands freed slots to waiters |
| QueueSections.FreesMeans | internal/queue/queue.go:199-212 | the steps counted as releases are those that release a request holding a slot |
| Record.OldestForRole | internal/record/claim.go:130-176 | the loop over the ordered log computes the winner of the open round |
| Record.OldestIsEarliestStanding | internal/record/claim.go:100-176 | the winner is the earliest claim of the role with no close or hand-back at or after it, and there is none exactly when no claim stands |
| Record.OldestIgnoresListingOrder | internal/record/claim.go:130-176 | the winner does not depend on the order the comments are listed in |
| Record.Attempts | internal/record/claim.go:208-232 | the loop computes the attempts of the ordered log |
| Record.AttemptsCountsSpent | internal/record/claim.go:200-232 | attempts are the number of the role's claims after the last hand-back |
| Record.PruneStale | internal/record/claim.go:269-279 | the loop keeps what the specification keeps |
| Record.PrunedKeepsTheFresh | internal/record/claim.go:249-290 | a comment survives exactly when it is not a claim with a real time older than the limit |
| LogSteps.OneMoreCommentForARole | internal/record/claim.go:71-176 | kind by kind, what one more comment does to a role's winner: a hand-back or that role's readable close leaves none, that role's claim wins if nobody does, everything else changes nothing |
| LogSteps.OneMoreCommentForAnyRole | internal/record/claim.go:71-176 | the same for the ticket as a whole, where every close ends the round, readable or not |
| LogSteps.OtherNotesChangeNoWinner | internal/record/claim.go:71-98 | another role's close or claim, an unreadable one, and text leave a role's winner as it was wherever their stamp puts them |
| LogSteps.EarlierOfTwoWins | internal/record/claim.go:130-176 | of two claims the earlier wins, and of two of one instant the one with the smaller id, in either listing order |
| LogSteps.HolderIsTheWinner | internal/record/claim.go:185-198 | somebody holds the ticket exactly when its column is held in and a claim wins, and it is that claim's maker |
| LogSteps.OneMoreAttempt | internal/record/claim.go:208-241 | kind by kind, what one more comment does to a role's attempts |
| LogSteps.PruningDrops | internal/record/claim.go:249-290 | pruning drops exactly the comments opening as claims that are dated 2000 or later and more than 45 minutes old |
| TicketStore.Store.Claim | internal/platform/claim.go:32-68 | over a versioned store, wins exactly when the ticket was Ready and nobody wrote in the window, and losing writes nothing; over an unversioned one, wins exactly when the read-back names it; the ticket's whole new state, for every interleaving of other writes between any two of its requests |
| TicketStore.Store.ClaimByAppend | internal/platform/claim.go:71-110 | wins exactly when the pruned read-back's oldest claim is its own, and moves the ticket only then |
| TicketStore.Store.ReadBack | internal/platform/claim.go:77-105 | arbitration over the log as read back: won exactly when the oldest live claim is the host's own, otherwise which claim beat it or that none is visible |
| TicketStore.WinnerById | internal/platform/claim.go:93-105 | comparing ids identifies the claimant's own comment |
| TicketStore.WritesByField | internal/platform/claim.go:32-68 | field by field, what an update and a comment do to the ticket |
| AppendClaims.AppendClaimsExclude | internal/platform/claim.go:71-110 | over every run of any agents of any stages, with crashes, restarts, hand-backs and reconciles that check their own host, at most one has won or owns the ticket, its claim is the oldest live one and the one the log names, and the column is Working while it works |
| AppendClaims.StepKeepsInvariant | internal/dispatch/dispatch.go:504-553 | a step of check, append, read-back, take, forgive, close, move, crash or reconcile keeps that exactly unless it is a takeover that a check of its own host's dispatchers would have stopped |
| AppendClaims.SameRoundIsInTime | internal/platform/claim.go:71-77 | a host that appends while no round of its role has ended since it saw the ticket waiting appends in time |
| Arbitration.YoungerClaimNeverWins | internal/platform/claim.go:77-105 | of two claims with no close between them the younger never reads itself back as winner while the older is fresh, whatever the listing |
| Arbitration.SecondWinnerExactlyWhen | internal/record/claim.go:130-176 | after one claim has read itself back, a second one standing in the log reads itself back too exactly when its key is the smaller one |
| Arbitration.PendingClaimWinsExactlyWhen | internal/record/claim.go:130-176 | a claim written before the end of its round reads itself back after it exactly when the end's key comes before it and before no earlier live claim that is fresh |
| StampOrder.ReadBackWinsExactlyWhen | internal/platform/claim.go:77-105 | in any world, whatever the order of the keys, a claim reads itself back exactly when it is the earliest fresh one that stands |
| StampOrder.OneStampGivesTwoOwnersExactlyWhen | internal/platform/claim.go:71-105 | in every reachable state whose oldest live claim is fresh, whatever comment an agent or a bystander writes next and wherever it is stamped, the read-back that follows makes a second owner exactly when that claim was put before the winner's and after every end of a round, or when the owner's close or hand-back was put before that claim and before no fresh one ahead of it |
| StampOrder.TieGivesTwoOwnersExactlyWhen | internal/platform/claim.go:71-105 | in every reachable state with a winner, another agent's append, read back at once, wins as well exactly when its key comes before the winner's and after every close of the role; the first winner stays one |
| StampOrder.EarlyCloseMakesTwoOwners | internal/record/claim.go:130-176 | from a fresh ticket, a run in which every claim is in order, the holder's close is stamped below a claim that waits, and both own the ticket |
| StampOrder.TieMakesTwoWinners | internal/record/claim.go:130-176 | from a fresh ticket, a run ends with two winners whose claims carry one time |
| AppendRuns.LateAppendTakesExactlyWhen | internal/platform/claim.go:71-110 | in every reachable state, an append wins and takes a ticket outside its Ready column exactly when no claim of the role is live and the ticket is not in that column; everybody else stays as they are, owners included |
| AppendRuns.LateAppendMakesTwoWorkers | internal/platform/claim.go:71-110 | from a fresh ticket, one append that is not in time ends with two agents at work on it |
| AppendRuns.OwnerIsOutlivedExactlyWhen | internal/platform/claim.go:84-105 | in every reachable state with a winner or holder, another agent's later claim wins as well exactly when every live claim of the role is past the stale window |
| AppendRuns.LongAttemptIsOutlived | internal/record/claim.go:243-279 | from a fresh ticket, an attempt longer than the stale window is joined by a second owner |
| AppendReconcile.ReconcileIsSafeExactlyWhen | internal/dispatch/dispatch.go:248-308 | on the append path, taking over a claim of its own host takes no work away in any continuation exactly when the ticket is in a Working column and no dispatcher of that host owns it |
| AppendReconcile.RunIsSafeExactlyWhen | internal/dispatch/dispatch.go:248-308 | a run of the program as it is endangers nobody's work exactly when every takeover in it would have passed that check |
| AppendReconcile.StaleListingIsReachable | internal/dispatch/dispatch.go:248-308 | a run from a fresh ticket in which a restarted agent has listed a ticket that another role of its host works by now |
| AppendReconcile.StaleListingStealsLiveWork | internal/dispatch/dispatch.go:248-308 | from there its reconcile returns the ticket while the other role works it |
| Arbitration.WinnerSurvivesPruningExactlyWhen | internal/record/claim.go:269-279 | pruning leaves the winner of a log as it was exactly when the winner itself is not pruned |
| ConditionalClaims.ConditionalClaimsExclude | internal/dispatch/dispatch.go:504-553 | over every run of agents with crashes, restarts and reconciles that check their own host, at most one owns the ticket, the column is its Working column, and while it works the log names exactly it as holder |
| ConditionalClaims.StepKeepsInvariant | internal/dispatch/dispatch.go:248-308 | a step of look, swap, attribute, forgive, close, move, crash or reconcile keeps that exactly unless it is a handler's placing of the ticket or a takeover that a check of its own host's dispatchers would have stopped |
| ConditionalClaims.StepKeepsOwned | internal/dispatch/dispatch.go:504-553 | a step, a handler placing its own ticket included, keeps ownership exclusive and in the Working column exactly unless it is a takeover of a ticket that somebody owns or that is in no Working column |
| ConditionalClaims.WorkerIsHolder | internal/record/claim.go:185-198 | the claim a worker recorded is the one the log's holder query returns |
| Stages.NamedIsHeldBy | internal/record/claim.go:185-198 | on a log in append order the holder query answers with the maker of the first live claim, and with nobody exactly when no claim is live |
| Stages.CloseEndsOnlyItsRole | internal/record/claim.go:60-98 | a close ends the round of its own role and of no other, and gives no attempt back |
| Reconcile.StaleListingStealsLiveWork | internal/dispatch/dispatch.go:248-308 | a reconcile whose listing is stale returns a ticket another role of the same host is working |
| Reconcile.StaleListingIsReachable | internal/dispatch/dispatch.go:248-308 | a run from a fresh ticket gets there |
| Reconcile.ReconcileIsSafeExactlyWhen | internal/dispatch/dispatch.go:248-308 | taking over a claim of its own host takes no work away in any continuation exactly when no dispatcher of that host owns the ticket |
| Reconcile.HostVacantMeans | internal/dispatch/dispatch.go:248-308 | that condition in terms a host can look up: the agent the standing claim names is not working, and no other reconcile of the host has taken the ticket |
| Reconcile.RunIsSafeExactlyWhen | internal/dispatch/dispatch.go:248-308 | a run of the program as it is, without handler-placed tickets, endangers nobody's work exactly when every takeover in it would have passed that check |
| PlacedTickets.OwnershipIsExclusive | internal/platform/claim.go:32-68 | at most one agent owns the ticket over every run in which handlers place tickets and reconciles take over only unowned ones |
| PlacedTickets.OwnershipHoldsAlongExactlyWhen | internal/dispatch/dispatch.go:248-308 | any run, placing included, keeps ownership exclusive all along exactly when its reconciles take over only unowned tickets in a Working column |
| PlacedTickets.TakingOverIsSafeExactlyWhen | internal/dispatch/dispatch.go:248-308 | with placed tickets, a takeover robs nobody in any such continuation exactly when nobody at all owns the ticket and it is in a Working column, or it is outside every stage |
| PlacedTickets.WorkerIsNamedExactlyWhen | internal/dispatch/dispatch.go:636-650 | after any run whose reconciles take over only unowned tickets, a worker is the named holder exactly when no claim stood when it recorded its own and no round of a placed ticket has been closed since |
| PlacedTickets.WorkerStaysNamedExactlyWhen | internal/dispatch/dispatch.go:636-650 | a worker stays the named holder in every such continuation exactly when no claim stood and no round of a placed ticket was open when it recorded its own |
| PlacedTickets.LateCloseErasesTheNextHolder | internal/agent/scope/scope.go:271-281 | from a fresh ticket, a run in which a handler places the ticket, another agent claims it and works, and the log names first the wrong holder and, after the late close, nobody |
| PlacedTickets.DeadPlacerMisleadsReconcile | internal/dispatch/dispatch.go:248-308 | a run after which a restart on the dead placer's host passes the check of its own dispatchers, takes the ticket over and returns it while a worker on another host works it |
| Ceilings.CeilingsAgree | internal/dispatch/dispatch.go:448-463 | a failed attempt goes back to its queue exactly when a later poll will take it |
| Ceilings.LaterPollsChargeNothing | internal/record/claim.go:208-279 | closes, remarks, hand-backs, other roles' claims and time never raise the count |
| Ceilings.BudgetIsExact | internal/dispatch/dispatch.go:765-772 | a ticket that always fails is worked on exactly the polls its budget allows, then escalated for good |
| Ceilings.DestinationByOutcome | internal/workflow/outcome.go:58-95 | the column each of the seven outcomes leads to |
| Ceilings.PrunedResetRevivesAttempts | internal/record/claim.go:208-279 | what the hypothesis of the row above is for: a claim comment that also carried a hand-back marker would, once pruned, revive the attempt it had wiped out; the program writes none |
| Dispatcher.ReportsNeverBlock | internal/dispatch/dispatch.go:202-241 | a worker's send on the done channel has room in every reachable state, after the loop has returned too |
| Dispatcher.ConcurrencyIsRespected | internal/dispatch/dispatch.go:318-396 | tickets in flight never exceed the concurrency, and every running worker is among them |
| Dispatcher.PlanTakesTheBest | internal/dispatch/dispatch.go:815-835 | no candidate a plan leaves outranks one it takes, the plan is in order, and ties keep their listing order |
| Dispatcher.PlanSplitsTheOrder | internal/dispatch/dispatch.go:815-835 | plan and rest are together the candidates, and the plan fills the room there is |
| Dispatcher.CandidatesAreDistinct | internal/dispatch/dispatch.go:343-381 | a poll's candidates are distinct tickets |
| Dispatcher.CandidatesWereListed | internal/dispatch/dispatch.go:343-381 | no candidate is in flight or was not listed |
| Dispatcher.CandidatesAreTheStartable | internal/dispatch/dispatch.go:343-381 | a poll's candidates are the first fifty listed tickets that are ready and not in flight, read again, less the unreadable and the ineligible, in listing order |
| Dispatcher.WaitingMeans | internal/dispatch/dispatch.go:343-363 | which listed tickets are ready and not in flight |
| Dispatcher.StartableMeans | internal/dispatch/dispatch.go:364-381 | a candidate is an eligible ticket that reading one of those gave |
| Dispatcher.PreferredMeans | internal/dispatch/dispatch.go:815-835 | the plan's order by the names of the priorities, then by age |
| Dispatcher.FillIsItsSteps | internal/dispatch/dispatch.go:318-396 | one fill is its steps of the loop: the plan in order, each start won or lost, leaving exactly the won tickets in flight and being worked |
| Dispatcher.Dispatcher.Gather | internal/dispatch/dispatch.go:343-381 | the loop with its hydration cap computes the candidates |
| Dispatcher.Dispatcher.Fill | internal/dispatch/dispatch.go:318-396 | adds exactly the planned tickets that were won, within the concurrency |
| Dispatcher.FinishFreesOneSlot | internal/dispatch/dispatch.go:774-795 | in every reachable state, receiving or draining a report frees exactly one slot, for a ticket nobody is still working and that is not reported again |
| Dispatcher.DrainWaitsForTheRest | internal/dispatch/dispatch.go:782-795 | at every moment of a drain the reports still waited for are as many as the tickets in flight |
| Dispatcher.LoopByEvent | internal/dispatch/dispatch.go:217-240 | a report, a tick and a signal lead to the next fill, the end of the context to the drain |
| JsonRepair.RepairKeepsTheReading | internal/model/reply.go:86-121 | the output's string literals are legal, and read strictly it says what a lenient reader makes of the input |
| JsonRepair.RepairIsMinimal | internal/model/reply.go:60-121 | the text changes exactly when some literal in it is illegal |
| JsonRepair.RepairIsIdempotent | internal/model/reply.go:86-121 | repairing a repaired text changes nothing |
| JsonRepair.RepairChangesNoReading | internal/model/reply.go:123-201 | bytes outside strings and the strings' readings are as before |
| JsonRepair.EscapeControlCharsInStrings | internal/model/reply.go:86-121 | the scan with its index and flag computes the repair |
| JsonRepair.WriteEscape | internal/model/reply.go:140-153 | writes an accepted escape's two bytes or a doubled backslash, and says what it consumed |
| JsonRepair.DecodeJSON | internal/model/reply.go:40-58 | strict first, then repaired, then the original error; legal input is decoded as it is |
| JsonGrammar.FourHexMeans | internal/model/reply.go:187-201 | four hexadecimal digits are four characters of 0-9, a-f and A-F |
| JsonGrammar.EscapeMeans | internal/model/reply.go:177-185 | which characters start an escape after a backslash |
| JsonGrammar.LettersMean | internal/model/reply.go:177-185 | the character each one-letter escape stands for |
| JsonGrammar.UnicodeEscapeIsKept | internal/model/reply.go:140-201 | a u and four digits of either case are read as their value and come through the repair as they are |
| JsonGrammar.LiteralWithUnicodeIsUnchanged | internal/model/reply.go:86-201 | a literal of plain characters with such an escape is legal and comes through unchanged |
| JsonGrammar.StrayBackslashIsDoubled | internal/model/reply.go:140-153 | a backslash before anything else is doubled, and nothing after it is skipped |
| JsonGrammar.ControlByteIsWritten | internal/model/reply.go:103-114 | how each byte below 0x20 inside a string is written |
| JsonGrammar.OrdinaryBytesMean | internal/model/reply.go:103-121 | a byte below 0x80 that needs no escape reads as itself, and a higher one as the byte it is |
| JsonGrammar.OtherBytesAreKept | internal/model/reply.go:86-121 | bytes outside strings and plain bytes inside are kept, and quotes open and close |
| Edit.Matches | internal/edit/edit.go:224-239 | the nested loops list every place the quote occurs |
| Edit.LongestPrefixMatch | internal/edit/edit.go:493-509 | the loops find the first place of longest agreement |
| Edit.StrictMeans | internal/edit/edit.go:224-239 | strict comparison drops the blanks and tabs at the end of a line and nothing else |
| Edit.ResolveText | internal/edit/edit.go:165-220 | the branches compute what the address comes to |
| Edit.ResolvedSpanIsTheOneNamed | internal/edit/edit.go:165-220 | an address resolves to a span exactly when it is the unique strict match, or the unique trimmed match with no strict one; the span is inside the file |
| Edit.AmbiguityListsTheMatches | internal/edit/edit.go:165-220 | ambiguity lists exactly the strict matches, two or more |
| Edit.DivergenceIsReal | internal/edit/edit.go:493-509 | a reported divergence agrees for the longest prefix anywhere in the file, and the named line differs or is missing |
| Edit.AbsentIsTrueExactlyWhen | internal/edit/edit.go:165-220 | the claim that not even the first line appears is true exactly when there is no loose match |
| Edit.AbsentAlthoughThere | internal/edit/edit.go:165-220 | a file of two indented lines on which that claim is made and false |
| Edit.Apply | internal/edit/edit.go:566-599 | the builder loops compute the edited text, or which bound is wrong |
| Edit.ApplyTouchesOnlyItsSpan | internal/edit/edit.go:566-601 | the result's lines are the lines before, the replacement's, and the lines after |
| Edit.ResolvedEditsApply | internal/edit/edit.go:566-599 | a resolved address always applies |
| Edit.AppliedIsStoredAsChecked | internal/edit/edit.go:521-599 | what apply returns is a fixed point of adding the trailing newline |
| Workspace.Workspace.ApplyEdit | internal/tools/workspace.go:195-421 | decides as the specification does; commits the decided content, or changes nothing at all |
| Workspace.Workspace.Undo | internal/tools/workspace.go:431-451 | restores the previous content or absence, once |
| Workspace.Workspace.DuplicateAcrossFiles | internal/tools/workspace.go:470-492 | finds a name another file of the same directory and package declares exactly when there is one |
| Workspace.Workspace.Seen | internal/tools/workspace.go:105-113 | moves the path to the recent end |
| Workspace.Workspace.Known | internal/tools/workspace.go:129-137 | lists exactly the used paths that still exist |
| Workspace.DecideMeans | internal/tools/workspace.go:195-403 | an accepted edit is on a permitted clean path, really changes the file, stores what was checked, and collides with no sibling |
| Workspace.GuardedFromTheStart | internal/tools/workspace.go:195-451 | a path the guard refuses keeps its content or absence over every run |
| Workspace.UndoRestoresTheTreeBeforeTheLastEdit | internal/tools/workspace.go:423-451 | undo restores exactly the tree the last accepted edit found, whatever was read or refused since |
| Workspace.CollisionsNeverGrow | internal/tools/workspace.go:360-421 | no run makes two Go files of one directory and package share a top-level name that did not before |
| Workspace.WritesCountNetEdits | internal/tools/workspace.go:402-451 | the write count is accepted edits less undone ones over every run |
| Workspace.PromotionIsMostRecent | internal/tools/workspace.go:94-113 | the used path becomes the most recent, the others stay, nothing is listed twice |
| StoredEdits.AcceptedEditStores | internal/tools/workspace.go:195-403 | an accepted edit stores the lines before the place it names by quote, declaration or number, its own lines (as sent, or unfenced when only that parses), and the lines after; or its text as the whole file; and passed every gate |
| StoredEdits.RefusalIsDeserved | internal/tools/workspace.go:195-400 | whatever reason a refusal gives is the case |
| StoredEdits.DirectoryOf | internal/tools/workspace.go:470-492 | the directory of a path is what comes before its last slash |
| Toolbox.AcceptanceIsInTheText | internal/tools/tools.go:475-642 | for every tool that delivers, the answer's first characters say whether it was accepted, and the counters moved exactly then |
| Toolbox.ExecutionIsRecorded | internal/tools/tools.go:803-814 | a run of the check is over the current tree and answered with its rendering first |
| Toolbox.RepetitionByCount | internal/tools/tools.go:490-519 | the notice is appended from the third repetition of one answer on, and anything else starts the count again |
| Toolbox.AdviceIsFollowable | internal/tools/tools.go:506-514 | the notice names a tool only where it is offered |
| Toolbox.TreeByTool | internal/tools/tools.go:521-638 | write_file performs the decoded edit under the stage's flags, undo_edit takes the last one back, every other call leaves the tree alone |
| Toolbox.ToolSet.Invoke | internal/tools/tools.go:475-481 | a call on the fields is the call of the specification |
| Toolbox.ToolSet.NoteRepetition | internal/tools/tools.go:490-519 | repeats are counted per identical answer, and the notice is only ever appended |
| Toolbox.ToolSet.Attempt | internal/tools/tools.go:521-638 | each branch changes what it should and nothing else |
| AgentLoop.VerdictInvertsRenderingExactlyWhen | internal/agents/agent.go:864-871 | reading the verdict inverts the rendering, for every exit code, output and notice, exactly when no later line of the command begins like an exit status |
| AgentLoop.AmbiguousCheckHidesAFailure | internal/agents/agent.go:864-871 | a two-line command that reads as passed whatever its exit code |
| AgentLoop.ScanVerdict | internal/agents/agent.go:864-871 | the line scan reads that verdict |
| AgentLoop.PassIsAGreenExecution | internal/agents/agent.go:509-521 | whatever run_command answers, it reads as a pass exactly when the command ran and exited 0 |
| AgentLoop.PassedMeansThisTreePassed | internal/agents/agent.go:349-631 | a stage with a check and no merge passes only right after its check exited 0 over exactly the files it leaves, and otherwise no execution ever passed; the last check it reports is that passing output |
| AgentLoop.OneLineCheckPassedMeansThisTreePassed | internal/agents/agent.go:349-631 | the same for every stage whose check is one line, as the commands in internal/agents/roles.go are |
| AgentLoop.LoopCountsTheDeliverables | internal/agents/agent.go:363-371 | however a run ends, the loop's count is the workspace's net writes plus tickets plus merges |
| AgentLoop.UndoTakesBackADelivery | internal/agents/agent.go:498-506 | the clamp on an undo never fires |
| AgentLoop.ChecklessStageIsJudgedByItsDeliverables | internal/agents/agent.go:581-631 | a checkless stage that may write passes only with a net deliverable or a green run, and has none when it neither passed nor failed |
| AgentLoop.AnswersAreFinalWords | internal/agents/agent.go:431-442 | an answer is reported only by a passed stage without a check, and is the whole content of its last turn, which called no tool and was not cut off |
| AgentLoop.TheLoopStops | internal/agents/agent.go:371-372 | turns stay within the budget and no more than fifteen in a row move nothing |
| AgentLoop.StalledMeansNothingMoved | internal/agents/agent.go:581-613 | a stage is stopped for looping only when its last fourteen turns moved nothing |
| IdleStages.CallByTool | internal/agents/agent.go:471-545 | by tool and answer, what one call does to the counters and whether it ends the stage |
| IdleStages.SilentTurn | internal/agents/agent.go:431-442 | a turn that calls nothing ends the stage exactly when it has no check, was not cut off, and owes no file; otherwise it idles |
| IdleStages.SilentPassIsReported | internal/agents/agent.go:431-442 | what such a turn said is what the run reports |
| IdleStages.RunByTurn | internal/agents/agent.go:363-631 | how each kind of turn, a failed reply and the end of the budget end or continue a run, and at which turn |
| IdleStages.UselessStageStalls | internal/agents/agent.go:581-651 | a stage that owes a check or a file and whose first fifteen turns are refusals, readings and listings is stopped for looping after the fifteenth, with nothing delivered |
| IdleStages.ReadingStageStalls | internal/agents/agent.go:581-651 | in particular a stage that only reads and lists |
| CheckedTrees.WritingTurnIsChecked | internal/agents/agent.go:547-579 | in every run of a stage with a check, a turn that wrote and did not run the check has its tree run before the next turn exactly when run_command is offered and a sandbox is attached |
| CheckedTrees.TreeGoesUncheckedExactlyWhen | internal/agents/agent.go:547-579 | in every run of a stage with a check, a turn that wrote goes on with a tree no check has seen exactly when run_command is not offered or no sandbox is attached, or the turn ran the check itself and some path written or undone after its last run_command now differs from what was run |
| CheckedTrees.ChangeAfterCheckGoesUnchecked | internal/agents/agent.go:547-579 | when no path is changed twice after the last run_command: exactly when nothing can run the check, or the turn ran it and an accepted write or undo came after it |
| CheckedTrees.CheckThenWriteGoesUnchecked | internal/agents/agent.go:547-579 | a first turn that checks and then writes leaves a tree no check has seen |
| CheckedTrees.CheckThenWriteAndUndoIsChecked | internal/agents/agent.go:547-579 | a first turn that checks, writes and takes the write back leaves the checked tree |
| CheckedTrees.EveryProgressIsPlausible | internal/tools/workspace.go:402-451 | in every progress a stage reaches, the edit that undo would take back did change its file, and nothing has run if run_command is not offered or no sandbox is attached |
| AgentLoop.Agent.Run | internal/agents/agent.go:349-631 | the nested loops with their counters report what the specification of the run reports, and leave the tools as it does |
| AgentLoop.Agent.HandleCall | internal/agents/agent.go:471-545 | one call's effect on the counters and whether it ends the stage |
| AgentLoop.Agent.CheckByItself | internal/agents/agent.go:556-579 | when the check runs by itself, and what it ends |
| Session.OneLoginAtATime | internal/transport/session.go:78-113 | at most one login is under way in every reachable state |
| Session.RenewalIsFresh | internal/transport/session.go:78-113 | whatever a call returns is the outcome of a login that finished after the call began, even if a newer login overwrote the shared result |
| Session.HeldTokenIsNewest | internal/transport/session.go:55-63 | the session handed out without asking is the newest one any login has obtained |
| Session.SucceededByPhase | internal/transport/session.go:103-109 | a login has succeeded exactly when the outcome it stored is a token |
| Session.WaitersAreWoken | internal/transport/session.go:80-110 | a waiter's login is under way, about to close its channel, or closed it |
| Session.WaiterGetsItsLoginExactlyWhen | internal/transport/session.go:85-95 | a waiter returns the outcome of the login it waited for exactly when no other finished since |
| Session.OvertakenWaiterFails | internal/transport/session.go:85-95 | a run in which a waiter returns an error although its login succeeded |
| Session.Session.Enter | internal/transport/session.go:78-99 | the head section joins the login in flight or becomes it |
| Session.Session.Store | internal/transport/session.go:103-109 | the tail section publishes the outcome, keeps the token only on success, and frees the flight |
| Lease.LeasesAreConserved | internal/forge/sandbox.go:78-147 | over every sequence of operations on any number of sandboxes, each lease created is held by exactly one sandbox or has had exactly one release; a held sandbox's spec names its lease |
| Lease.AllReleasedMeansNoneLeaks | internal/forge/sandbox.go:298-309 | when every sandbox has been released, every lease ever created has been released exactly once |
| Lease.CommandsNameLiveLeases | internal/forge/sandbox.go:186-247 | a command is submitted at most twice, to the lease held and to its replacement, neither of them released |
| Lease.RunByReply | internal/forge/sandbox.go:230-247 | by the forge's replies, what a command answers, which leases it is submitted to, and what the sandbox holds afterwards |
| Lease.Sandbox.Run | internal/forge/sandbox.go:186-247 | the retry on the fields is the specification's, with its errors |
| Lease.Sandbox.Reacquire | internal/forge/sandbox.go:250-266 | gives the old lease back and holds the new one, or none |
| Lease.Sandbox.Release | internal/forge/sandbox.go:303-309 | gives back what is held, and holds nothing |
| Lease.Client.Acquire | internal/forge/sandbox.go:84-147 | a lease that never became ready is given back |
| Backoff.BackoffIsExactExactlyWhen | internal/forge/forge.go:201-207 | the wrapping arithmetic is min(lo * 2^n, hi) for all attempts and all bounds up to a limit exactly when that limit is at most 2^32 |
| Backoff.BackoffNeverShrinks | internal/forge/forge.go:200-207 | the interval stays between its bounds and never decreases |
| Backoff.DefaultsStayExact | internal/forge/forge.go:184-198 | the default bounds give half a second and then one second for ever |
| Backoff.BoundsMean | internal/forge/forge.go:184-198 | which bounds stand in for missing ones, in nanoseconds |
| Shell.QuoteReadsBackExactlyWhen | internal/forge/script.go:61-63 | quoted text reads as the single word it came from exactly when it holds no NUL |
| Shell.QuoteExtendsTheWord | internal/forge/script.go:50-63 | wherever it stands outside quotes it only extends the word being read |
| TreeScript.ScriptLaysTheTreeExactlyWhen | internal/tools/sandbox.go:207-235 | in an empty directory the script for cleaned, NUL-free paths and NUL-free bodies leaves exactly the files and the directories above them when no path is `.`, no directory reads as options and no path is a directory prefix of another, and otherwise one of its commands fails; other scripts are outside the model |
| TreeScript.DashIsADirectory | internal/tools/sandbox.go:226-233 | a directory named by a lone dash is laid down like any other |
| TreeScript.DashedDirectoryFails | internal/tools/sandbox.go:226-233 | a tree with a directory that begins with a dash and goes on makes the script fail |
| TreeScript.OrdinaryPath | internal/edit/edit.go:532-558 | a path is cleaned exactly when both sides of any of its slashes are |
| TreeScript.OneTreeOneScript | internal/tools/sandbox.go:223-225 | identical trees give the identical script |
| TreeScript.WriteTreeScript | internal/tools/sandbox.go:218-235 | the sort and the builder loop produce that script |

## Left out

- ConditionalClaims.ConditionalClaimsExclude: assumes that a reconcile checks its own host's dispatchers before it takes a ticket over, which the program does not do; a run of the program as it is excludes exactly as long as that check would have passed (`Reconcile.RunIsSafeExactlyWhen`). Tickets placed by their handler are the subject of `PlacedTickets.dfy`.
- AppendClaims.AppendClaimsExclude: assumes the same of a reconcile (`AppendReconcile.RunIsSafeExactlyWhen`), and the hypotheses above about time and order, because without them it is false; handler-placed tickets are modelled on the conditional path only.
- PlacedTickets.OwnershipIsExclusive: assumes that a reconcile takes over only a ticket nobody owns; a run keeps ownership exclusive exactly then (`OwnershipHoldsAlongExactlyWhen`).
- StampOrder.OneStampGivesTwoOwnersExactlyWhen: one comment out of order, read back next; with more of them out of order only the general condition (`ReadBackWinsExactlyWhen`) is stated.
- TreeScript.ScriptLaysTheTreeExactlyWhen: says nothing about paths that have not been cleaned (`a//b`, `./d`), which a shell would lay down; the tools only write cleaned ones.
- Lease.CommandsNameLiveLeases: what a reply means is a parameter; recognising a reaped lease by the words of the error is not modelled.
- Dispatcher.PlanTakesTheBest: ranks among the candidates read in this poll; tickets beyond the hydration cap are not compared.
- Workspace.CollisionsNeverGrow: top-level names come from an uninterpreted parser; text that does not parse declares nothing.
- Liveness and crash recovery: a crash between closing a round and moving the ticket leaves a ticket no reconcile picks up.
- Exclusion across people moving cards, and across the sweep of deadlocked tickets.
- Store writes that land after the host that sent them has crashed, failed comment writes, and failed moves.
- Rendering and parsing of claim bodies as JSON: a comment is what the parsers read out of it.
- Wrap-around of the queue's 64-bit sequence number.
- The Go parser, declaration lookup, vetting, unfencing and path cleaning: uninterpreted functions.
- The next_task queue mode of the agent loop, the diagram tool's own sandbox runs, and the promotion of paths that reading does.
- The wording of answers beyond the prefix that matters; the notice of repetition is shortened.
- The trail, the prompt built from it, temperatures and reasoning levels: the model's replies are arbitrary.
- The write notification sent after an edit, which is given the path as the model wrote it and not the cleaned one.
- The insides of the library sort and of string splitting; HTTP, git, docker and file-system plumbing; the terminal interface, role tables and configuration.
