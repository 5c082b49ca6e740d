# Failover Fabric: a verified model of the coordinator

The coordinator of Failover Fabric decides which worker holds authority over a service slot. It moves that authority in a
multi-phase cutover, writes durable checkpoints between the phases, fences the worker it replaces, and refuses every request
whose authorization is not current. This project models that core and proves what it promises, over all inputs, all
interleavings and all crash points.

Five groups of results:

* **Cutover** (`Fabric`, `Operations`, `Cutover`, `Authority`, `Revocation`, `Vetting`, `Reports`, `Attempts`, `Answers`, `Planning`).
  Each locked section of
  `execute_plan` is one step, the answers of the outside world are part of the event, and any number of attempts and other
  calls interleave. Runs refine an atomic compare-and-swap register per slot; revocation is permanent, after a restart too, but
  for workers without a boot identity on a slot whose key is handed out again; nothing that held authority is forgotten; only
  targets that passed every hard rule are promoted, as they last reported themselves; an attempt completes exactly when its plan is
  valid and everybody has agreed, in order; and a plan is valid in the state it was made in.
* **Crashes** (`Durable`, `Restart`, `Restored`, `Saved`, `Strays`). `save`, `load`, checkpoints and the restart epoch. Every crash
  point of an attempt comes back closed, with the assignment it was replacing; no authorization outlives an incarnation that has
  saved its epoch, which every incarnation has before it accepts anything on a slot with a saved route, unless the facade installed
  that route; what is saved can be loaded if services have slots, initial assignments name existing services, no slot is
  committed twice without ever having been assigned, and the size limits are met.
* **Codecs** (`Checksums`, `Endian`, `Wire`, `Records`, `Persistence`, `Writing`, `Reading`, `Frames`). The durable blob and the
  control protocol: round trips in both directions, and rejection of every one-byte change.
* **Connections** (`Conn`). Request/response correlation with a reader thread and a shutdown: no lost wakeup, and a caller returns with
  exactly the answer that was delivered to it last.
* **Supporting structures** (`Domains`, `Selection`, `Ranking`, `Routing`, `Evidence`, `Failback`, `Requests`).

`Witnesses`, `Limits` and `Overrun` hold the runs that show where these guarantees end.

`Coordinator`, `Writing`, `Reading`, `DomainRegistry`, `RouteTable`, `EvidenceStore`, `RequestTracker`, `PayloadWriter` and the methods
of `Selection`, `Ranking`, `Checksums`, `Frames` and `Domains` are the imperative form of the code: objects whose methods reassign fields, and
loops. Each is proved equal to a function on values, and the theorems are about those functions.

Identifiers and generations are 64-bit values and counters wrap or throw where the code does. Doubles are their 8-byte image. The
clock, the answers of workers and gateways, and whether a file can be written are inputs. Selection is proved for any rank; `Ranking`
has the code's, over the reals. Reading left to right is assumed where two arguments of one constructor call are both read from a byte cursor.

## What does not hold

Where the code does not do what it says, the model follows the code, and a lemma gives the exact condition.

* `Limits.SecondCommitPossibleIff`, `Limits.SecondCommitAfterRestartIff`, `Limits.SecondCommitUnderInitialIff`, `Authority.RivalCommitsIff`,
  `Authority.FirstKeyAfterRestart`: assignment ids start over in a new process and the assignment generation is always 2. The
  guard that stops a second commit compares those two numbers. After a restart, two attempts with one source can both commit on
  a slot if and only if the slot's saved assignment has generation 2 and an id that is not null, as every assignment that an
  attempt committed has: its key is then handed out again. An initial assignment given in the process is protected if and only
  if no attempt will be given its key.
* `Revocation.NullBootComesBackIff`, `Limits.NullBootReturnsIff`: the null boot is never fenced, so an authorization that names it is
  accepted again after its assignment was replaced if and only if its key is handed out again in the same process.
* `Strays.ReadableIffNotBlindTwice`, `Strays.UnassignedNeverServes`, `Limits.UnreadableFromFresh`: a slot created by a commit is not indexed,
  so the gate refuses everything on it until it is given an initial assignment. The saved record can be read if and only if no
  slot was committed twice that way, or once and then given an assignment that serves.
* `Authority.DisplacedIsCapturedIff`: an attempt that found its slot empty displaces whatever was put there meanwhile.
* `Authority.AuthorityDropsIff`, `Limits.AuthorityGoesBackFromFresh`: a commit sets the authority generation back if and only if the commits
  since its attempt was validated have raised it by two or more. Attempts that do not overlap count the commits
  (`Authority.AuthorityCountsCommits`).
* `Revocation.CompletedIsServableIff`: an attempt can complete and leave a slot that refuses everyone, for instance when the new worker
  has the boot of the old one.
* `Restart.RefusedLaterIffSaved`, `Restart.UnsavedAcceptsIff`: an incarnation that accepted an authorization but never saved hands its epoch
  to its successor. One that has only been loaded, and so has not saved, accepts the assignment it was loaded with if and only if
  that is active, its boot is not fenced and the slot came up without a route.
* `Saved.CreateReadableIff`, `Saved.InitialReadableIff`: a service without slots or an assignment to an unknown service is accepted and
  makes the saved record unreadable.
* `Frames.FrameRoundTrip`: the decoder asks for 31 bytes where an empty frame has 26, so payloads under five bytes are lost.
* `Conn.SharedIdStrandsIff`: when a request enters the table under an id that is pending, somebody can be left waiting for ever if and
  only if the connection is live or the frame of the first request is on its way and unanswered. That may be the first request,
  the second, whose entry the first one erases when it collects its answer, or a third one under the same id. The coordinator's
  own calls to gateways and workers use constant ids (src/coordinator/coordinator_main.cpp:71-95).
* `Fabric.ConfirmedFailureSeenIff`: a confirmed failure excludes a target only if it is bound to the service or current.
* `Domains.SelfComparisonNeverOverlaps`: a target never overlaps itself.
* `Domains.InDomainExactIff`, `Domains.InDomainMissesIff`, `Domains.RackIsMissed`: the header speaks of being in or under a domain, and the
  code looks at memberships declared at the domain itself. A target in a rack is not found to be in the rack's site. So
  `Selection.EligibleUnderFailedDomainIff`, `Selection.RackOfFailedSiteIsEligible`, `Vetting.ValidatedUnderFailedDomainIff`: under the independence
  rule an eligible target lies in or under a failed domain if and only if it is declared in a domain under it.
* `Evidence.ReloadRestoresIff`: failures cleared by hand come back after a reload. `Evidence.ConfirmedClearsIff`: no single publication clears a
  confirmed failure, but a clearing one does if and only if a publication that neither confirms nor clears was taken before it.
* `Failback.BudgetExceededIff`, `Failback.RaisedWithoutEnd`, `Failback.ExhaustedWithoutEnd`, `Overrun.BudgetOverrun`: a failback that ends with
  an exception is not counted, because the counter is updated only when the attempt returns. While the authority and route
  generations have room, more failbacks can fail than the budget allows if and only if checkpoints are configured; they stay
  within it in every run in which no checkpoint fails to be written (`Failback.BudgetNeverExceeded`). Once the slot's route generation
  is used up they fail without end in any case. A failback that is refused or finds no plan spends nothing.
* `Failback.LandsHomeIffEligible`, `Failback.HeartbeatDefersFailback`, `Failback.ManualAuthorizationPersists`: a failback can land on a third
  target; a target that publishes its readiness within every hysteresis window is never gone back to; and a manual
  authorization, documented as good for one attempt, is never used up.
* `Requests.ReplayPossibleIff`, `Requests.InterleavedHandlersReplay`: the handlers look at a request and record it under separate locks. A
  request that may not be replayed can be dispatched again if and only if a handler for it has passed its check and has not
  recorded yet.
* `Requests.LateResultsAreAmbiguous`, `Revocation.GrantedIsGoodIff`: the handlers never record a response as committed, so no late result is
  turned away as stale, and a result that is taken is taken again for as long as its authorization is good. A request is granted
  without asking the gate: the authorization handed out is good there if and only if the boot is not fenced and no route of the
  slot awaits revalidation.
* `Ranking.TieGoesToLongerPath`, `Ranking.ShorterPathWinsIff`: the comment at src/selection/selection.cpp:216 gives ties of the score to the smaller
  critical path, and the code adds the path's remainder by 1000 to a rank of which the larger wins. Between two paths of the same
  thousand a tie goes to the longer one. With all else equal the shorter path wins if both are at most thirty seconds, and beyond
  that if and only if its remainder is larger.
* `Reports.FailedIff`: a confirmed failure stands until its target reports ready; clearing the evidence does not end it.
* `Reports.RestartDropsObservation`: failures without a number are numbered from one again after a restart, so a new observation of a saved
  failure is kept if and only if that was saved without a number, or as number one with no later clock, and is not a confirmed
  failure being cleared.

## Model

| member | source | states |
|---|---|---|
| `Authority.RunsRefineCompareAndSwap` | src/coordinator/fabric.cpp:493-647 | in every run of every process, fresh or loaded, and in any interleaving, the current assignments change only by legal compare-and-swap operations, and the final state is what those operations give |
| `Authority.StepRefines` | src/coordinator/fabric.cpp:616-647 | every step is at most one such operation; of the answers to a verification exactly the completing ones commit, so every other attempt leaves the current assignment alone |
| `Authority.AtMostOneCommitPerSource` | src/coordinator/fabric.cpp:622-638 | what a commit displaces is its source, which is its immediate predecessor; on a slot that did not come up with a key that is handed out again, at most one attempt that captured a given source commits; only the key of an initial assignment on an empty slot is constrained |
| `Authority.InvariantOverRuns` | src/coordinator/fabric.cpp:459-651 | the invariant behind this, slot by slot (fresh keys, captured sources, commit log, the loaded assignment and its fencing), holds in every reachable state |
| `Authority.StartIsInvariant` | src/coordinator/fabric.cpp:108-115 | it holds at the start of any process, whatever keys it was loaded with |
| `Authority.RunTracked` | src/coordinator/fabric.cpp:459-651 | in every run, whatever the keys, the index is exact and the recorded chain of each visible slot ends with its current assignment |
| `Authority.RivalCommitsIff` | src/coordinator/fabric.cpp:622-632 | of two attempts that stand before verification with one source, the second commits after the first if and only if the first was given that source's key |
| `Limits.SecondCommitPossibleIff` | src/coordinator/fabric.cpp:513-632 | in a process with a lenient service and no target yet, some run commits two attempts with one source if and only if the slot came up with a key that is handed out again |
| `Limits.SecondCommitAfterRestartIff` | src/coordinator/fabric.cpp:919-938 | after a restart that is so exactly for the slots whose recorded assignment has generation 2 and an id that is not null |
| `Limits.SecondCommitUnderInitialIff` | src/coordinator/fabric.cpp:209-222 | after an initial assignment given in the process it is so if and only if that carries generation 2 and an id yet to be handed out |
| `Authority.FirstKeyAfterRestart` | src/coordinator/fabric.cpp:513-514 | whatever was loaded, the first attempt of a process is given assignment id 1 and generation 2 |
| `Authority.DisplacedIsCapturedIff` | src/coordinator/fabric.cpp:623-634 | a commit displaces what its attempt captured unless it captured an empty slot that was filled since |
| `Authority.AuthorityDropsIff` | src/coordinator/fabric.cpp:523-639 | in every run a commit sets the authority generation back if and only if the commits logged since its attempt was validated raised it by two or more; before the first such drop that takes two commits |
| `Authority.AuthorityCountsCommits` | src/coordinator/fabric.cpp:523-639 | in every run whose attempts do not overlap the authority generation is its first value plus the number of commits |
| `Limits.AuthorityGoesBack` | src/coordinator/fabric.cpp:523-639 | from any state in which three slots are open to one target, a run of overlapping attempts raises the authority generation by two and then sets it back by one |
| `Limits.AuthorityGoesBackFromFresh` | src/coordinator/fabric.cpp:209-647 | a run of a fresh coordinator in which it goes from three back to two |
| `Cutover.StepKeeps` | src/coordinator/fabric.cpp:459-651 | one step of any attempt, or any other call, keeps the invariant |
| `Cutover.StepTracked` | src/coordinator/fabric.cpp:459-651 | one step of any attempt, or any other call, keeps the recorded chains in line with the ledger |
| `Cutover.CommitKeeps` | src/coordinator/fabric.cpp:616-647 | the committing step keeps it: later keys stay without repetition, no source is used twice on a safe slot, and a displaced loaded assignment has its boot fenced |
| `Cutover.GuardIsExact` | src/coordinator/fabric.cpp:623-632 | with a captured source the slot is visible and the guard refuses exactly when the current key is another one |
| `Cutover.CommitCurrent` | src/coordinator/fabric.cpp:620-638 | a commit replaces the current assignment of its slot and of no other |
| `Cutover.InitialCurrent` | src/coordinator/fabric.cpp:209-222 | an initial assignment becomes current on its slot and on no other |
| `Operations.InitialAsGiven` | src/coordinator/fabric.cpp:209-222 | an initial assignment serves at once and is otherwise stored as given; only a null authority generation is replaced |
| `Operations.FacadeInstallsIff` | src/coordinator/fabric.cpp:846-852 | a route installed through the facade becomes the slot's entry if and only if it is of the running epoch, names a service, and is newer and not of an older epoch |
| `Revocation.RevocationIsPermanent` | src/coordinator/fabric.cpp:807-826 | in every run of every process, fresh or loaded: an accepted authorization whose assignment was replaced, even by one under the same key, or whose boot was fenced, is refused in every later state, if it names a boot or the slot's loaded key is not handed out again |
| `Revocation.FencedBootStaysRefused` | src/coordinator/fabric.cpp:116-117 | a boot that was ever fenced is refused in every later state, on every slot |
| `Revocation.DisplacedStaysRefused` | src/coordinator/fabric.cpp:625-638 | a displaced authorization can be taken again only for the null boot, on the assignment the slot came up with, under a key that is handed out again |
| `Revocation.NullBootComesBackIff` | src/coordinator/fabric.cpp:116-117 | for the null boot, a displaced authorization is taken again if and only if the slot came up with its key, that key is current again, and the rest of the gate agrees |
| `Limits.NullBootReturnsIff` | src/coordinator/fabric.cpp:513-640 | some run brings such an authorization back if and only if the slot came up with a key that is handed out again |
| `Revocation.NoSplitBrain` | src/coordinator/fabric.cpp:807-826 | once a successor under another key or boot has been accepted, its predecessor's authorization is refused then and for ever; so no state accepts two boots on one slot |
| `Revocation.FencingRevokesForGood` | src/coordinator/fabric.cpp:552-563 | the fencing section takes back exactly the authority of the replaced boot, on every slot and for good; for the null boot nothing changes at the gate |
| `Revocation.CompletedIsServableIff` | src/coordinator/fabric.cpp:807-826 | after a completed attempt the gate takes the new authorization if and only if slot visible, boot unfenced and different from the replaced one, route not blocked |
| `Revocation.GateFields` | src/coordinator/fabric.cpp:807-826 | the gate takes an authorization if and only if it names the current, active assignment with its route generation and boot in the running epoch, the boot is not fenced and no route of the slot awaits revalidation |
| `Revocation.RefusalIsTrue` | src/coordinator/fabric.cpp:807-826 | whatever reason a refusal gives is true of the authorization |
| `Revocation.GrantedIsGoodIff` | src/coordinator/coordinator_main.cpp:296-335 | the authorization recorded for a granted request passes the gate if and only if the boot is not fenced and no route awaits revalidation, and whatever messages follow its result is allowed exactly while the gate takes it |
| `Revocation.RevokedResultIsRefused` | src/coordinator/fabric.cpp:833-841 | no result of a revoked worker is taken, whatever requests are on record |
| `Revocation.HistoryIsKept` | src/coordinator/fabric.cpp:633-638 | in every run of every process a slot's stored history and current assignment end with exactly the assignments that held authority in this process, in order |
| `Revocation.StartRemembers` | src/coordinator/fabric.cpp:108-109 | that holds when a process starts |
| `Vetting.CommittedWasVetted` | src/coordinator/fabric.cpp:499-533 | every committed target had passed, in a state the run went through and in which its source was current, all hard rules, and the assignment names its target, replica, engine and boot; if bound to the service it had no confirmed failure there |
| `Vetting.FailedTargetIsNotPromoted` | src/coordinator/fabric.cpp:299-306 | a bound target whose failure was reported is not promoted by any attempt validated before it reports ready again, whatever else happens in between |
| `Vetting.StaysDown` | src/coordinator/fabric.cpp:256-279 | over any run a failed bound target stays failed and bound until it publishes readiness |
| `Vetting.RunsAreVetted` | src/coordinator/fabric.cpp:499-533 | in every run each attempt and commit is vetted on a state of that run |
| `Vetting.ValidatedUnderFailedDomainIff` | src/coordinator/fabric.cpp:499-533 | a validated target is never declared in the domain of a target with a visible confirmed failure, and lies under that domain if and only if it is declared under it |
| `Reports.DossiersOverRuns` | src/coordinator/fabric.cpp:250-306 | over every run the tables say about a target exactly what the calls told about it: its last accepted report, state and resources, whether a failure stands against it and whether it has reported for the service |
| `Reports.StartsEmpty` | src/coordinator/fabric.cpp:919-968 | a process starts with no targets, fresh or loaded, so the results below hold of every run |
| `Reports.FailedIff` | src/coordinator/fabric.cpp:256-306 | a target counts as failed if and only if some confirmed or unknown failure of it was not followed by an accepted report that it is ready |
| `Reports.CommittedAsReported` | src/coordinator/fabric.cpp:250-533 | every commit promotes its target as the target had last reported itself before validation: ready, with the identity, state and resources of those reports, and with every failure answered if it is bound |
| `Reports.ObservationsAreNumbered` | src/coordinator/fabric.cpp:299-301 | in every run failures that come without a number are numbered one after the other |
| `Reports.ObservationKeptIff` | src/coordinator/fabric.cpp:299-306 | an observation without a number replaces what is stored under its id if and only if that has a smaller number, or the same and no later clock, and is not a confirmed failure being cleared |
| `Reports.RestartDropsObservation` | src/coordinator/fabric.cpp:76-76 | the exact condition for a restarted coordinator, whose numbering starts again |
| `Fabric.ConfirmedFailureSeenIff` | src/coordinator/fabric.cpp:365-390 | a confirmed failure enters the context if and only if the target is bound to the service or is the current one |
| `Fabric.FailedDomainsExact` | src/coordinator/fabric.cpp:365-390 | the failed domains of the context are exactly those that a target with a visible confirmed failure is declared in |
| `Fabric.CandidatesExact` | src/coordinator/fabric.cpp:318-363 | up to the limit the snapshot holds exactly the bound targets with facts or, if none is bound, the compatible ones; no candidate has an unknown continuity class |
| `Fabric.Estimates` | src/coordinator/fabric.cpp:124-135 | the four possible cost estimates of a candidate, and when each continuity class is inferred |
| `Fabric.DecimalInjective` | src/coordinator/fabric.cpp:587-602 | different targets get different transport names |
| `Fabric.SortUniqueSorts` | src/coordinator/fabric.cpp:385-387 | the lists of the context are strictly increasing |
| `Attempts.ExecuteIsARun` | src/coordinator/fabric.cpp:459-651 | an attempt that is left alone, phase after phase with its early exits, is one of the interleaved runs |
| `Attempts.CompletesIff` | src/coordinator/fabric.cpp:459-651 | an attempt that is left alone completes if and only if its plan is valid, every configured checkpoint is written, the barrier is none of its four milestones, the fence is applied and proven if there is a source, the activation and the route are acknowledged and the verification succeeds |
| `Attempts.HowItEnds` | src/coordinator/fabric.cpp:471-651 | a valid attempt raises if and only if a checkpoint it gets to cannot be written, fails if and only if its fence is refused, is never superseded when left alone, and otherwise completes or waits for recovery |
| `Attempts.RefusedAttempt` | src/coordinator/fabric.cpp:552-619 | a refused fence ends as failed with nobody newly fenced; a refused activation or route waits for recovery with routes, current assignment and authority generation as they were and the replaced boot fenced; a failed verification waits for recovery |
| `Answers.CommittedWasAnswered` | src/coordinator/fabric.cpp:544-647 | in every interleaving, every commit was preceded by its own attempt's positive answers to fencing (if it captured a source), activation, routing and verification, in that order |
| `Answers.RunsAreAnswered` | src/coordinator/fabric.cpp:544-647 | in every run each live attempt has had the answers of the phases it has passed |
| `Planning.PlanIsValid` | src/coordinator/fabric.cpp:429-533 | a plan is valid in the state it was made in unless the authority generation is exhausted, and promotes the very candidate that was planned |
| `Planning.ValidatesIff` | src/coordinator/fabric.cpp:484-533 | a plan is accepted if and only if somebody was selected, the assignment it means to replace is still current, the planned target is a candidate under the planned boot and passes every rule now, and the authority generation is not exhausted |
| `Planning.PlannedCompletesIff` | src/coordinator/fabric.cpp:429-651 | in every reachable state planning and executing completes if and only if there is an authority generation left, the checkpoints are written, no barrier is set and everybody agrees |
| `Planning.SameTargetSameCandidate` | src/coordinator/fabric.cpp:318-363 | a snapshot holds a target in one form only |
| `Attempts.CompletedEffects` | src/coordinator/fabric.cpp:536-647 | a completed attempt has fenced its source, installed its route, committed, and touched nothing else |
| `Attempts.CompletedRouteIsCurrentIff` | src/coordinator/fabric.cpp:587-606 | after a completed attempt the current route names the committed assignment, its generation, target, engine incarnation, boot and route generation, the epoch and the gateway if and only if the table could take it |
| `Attempts.PlannedRouteIsCurrentIff` | src/coordinator/fabric.cpp:451-452 | for a plan made in the same state only a null service, a newer epoch or an emptied entry can keep the route out |
| `Restart.EveryCrashPointLoadsClosed` | src/coordinator/fabric.cpp:544-614 | for every crash point after the first checkpoint, the unsaved commit included: loading makes current on each slot the last active entry of the record, suspended, and on the attempt's slot the very assignment it was replacing; every authorization is refused, and the old boot is fenced from the fencing milestone on |
| `Restart.RunInFlight` | src/coordinator/fabric.cpp:471-483 | in every phase of an attempt that runs alone the disk records it with its source and milestone |
| `Restart.RunHolding` | src/coordinator/fabric.cpp:484-614 | until the commit the attempt's source stays current, and every record written meanwhile lists exactly it as active on the slot |
| `Restart.AcceptedMeansSaved` | src/coordinator/fabric.cpp:813-820 | on a slot that came up with a route, only an incarnation that has saved its epoch accepts anything, unless the facade installed a route of that slot |
| `Restart.LaterIncarnationsRefuse` | src/coordinator/coordinator_main.cpp:113-121 | over any chain of crashes and restarts, an authorization accepted for a slot with a persisted route is refused by every later incarnation, unless the facade had installed a route of that slot |
| `Restart.SavedEpochDiesWithIncarnation` | src/coordinator/coordinator_main.cpp:113-121 | once an incarnation has saved its epoch none of its authorizations survives it |
| `Restart.RefusedLaterIffSaved` | src/coordinator/coordinator_main.cpp:113-121 | for any slot, what an incarnation accepted is refused by all later ones if and only if it saved |
| `Restart.UnsavedAcceptsIff` | src/coordinator/fabric.cpp:807-826 | an incarnation that has done nothing yet, and so has not saved, accepts an authorization if and only if it names the loaded active assignment, unfenced, on a slot without a route |
| `Durable.InterruptedCutoverLoadsClosed` | src/coordinator/fabric.cpp:959-967 | loading any record of an interrupted cutover makes current on each slot exactly the last entry listed as active there, awaiting revalidation, and the gate refuses everything before and after the epoch advances |
| `Durable.LoadedCurrent` | src/coordinator/fabric.cpp:933-967 | after loading any record, the current assignment of a slot is the last entry listed as active there, demoted if a cutover was interrupted and it was fenced or about to be replaced |
| `Durable.RegistryRestoredIff` | src/coordinator/fabric.cpp:939-941 | saving and loading restores the domains and memberships, in order, if and only if none is null or declared twice |
| `Durable.RoutesRestored` | src/coordinator/fabric.cpp:944-946 | saving and loading restores the current route of every slot, awaiting revalidation if it was serving, and invents none |
| `Restored.TablesAreRestored` | src/coordinator/fabric.cpp:893-946 | both hold in every state of every run of a fresh coordinator, through crashes and restarts |
| `Restored.TablesOverRuns` | src/coordinator/fabric.cpp:459-651 | the route table stays ordered and the registry without repetition in every such run |
| `Durable.SaveLoadRestoresSlots` | src/coordinator/fabric.cpp:893-938 | saving and loading keeps every assignment of every slot in order; an active current one stays current unless a cutover was interrupted |
| `Durable.LoadRebuilds` | src/coordinator/fabric.cpp:933-938 | rebuilding from the flat list of assignments gives one indexed slot per recorded slot |
| `Durable.LoadFrame` | src/coordinator/fabric.cpp:925-928 | epoch, fenced boots and authority generation are restored, and the id counter is not |
| `Durable.KeptAndForgotten` | src/coordinator/fabric.cpp:893-968 | saving and loading keeps services, policy and authority generations, epoch, fenced boots and the transaction record; it forgets targets, confirmed failures, observation numbers, failback bookkeeping, barrier and the id count |
| `Saved.EverySaveIsReadable` | src/coordinator/fabric.cpp:893-917 | in every state of every prepared run from a fresh coordinator, through any number of restarts, what is saved decodes to itself if and only if it is within the size limits |
| `Saved.ReadableOverRuns` | src/persistence/persistence.cpp:306-337 | the decoder's conditions hold of every reachable state and every record on disk |
| `Saved.PreparedStepKeeps` | src/coordinator/fabric.cpp:459-651 | one prepared step keeps them: history holds nothing active, every slot occurs once, authority generations are not null, the pending assignment is authorized |
| `Saved.ReloadOk` | src/coordinator/fabric.cpp:919-968 | a coordinator that loads such a record satisfies them again |
| `Saved.ReadableIffOneActive` | src/persistence/persistence.cpp:312-337 | of a state reached with proper calls the decoder can object only to a second active assignment of a slot |
| `Saved.ProperStepKeeps` | src/coordinator/fabric.cpp:459-651 | one proper step, with attempts on whatever slot, leaves nothing on record that the decoder objects to by itself |
| `Saved.IndexedIsOrderly` | src/coordinator/fabric.cpp:901-904 | in a prepared run every slot is listed only by its own entry, so a crash comes back with what it held |
| `Saved.FabricIsReadable` | src/persistence/persistence.cpp:312-337 | a state in which moreover every stored slot can be found saves to a record that passes semantic validation |
| `Saved.CreateReadableIff` | src/coordinator/fabric.cpp:175-183 | creating a service keeps the record readable if and only if it has slots or is refused |
| `Saved.InitialReadableIff` | src/coordinator/fabric.cpp:209-222 | an initial assignment keeps the record readable if and only if its service exists or it is refused |
| `Strays.ReadableIffNotBlindTwice` | src/coordinator/fabric.cpp:621-638 | from any readable state, a run with attempts on whatever slots ends with a readable record if and only if no slot was committed twice without an index entry, or once and then given an assignment that serves |
| `Strays.UnassignedNeverServes` | src/coordinator/fabric.cpp:621-622 | however many attempts complete on a slot without an index entry, the gate refuses everything on it until it is given an initial assignment |
| `Limits.TwoBlindCommitsUnreadable` | src/coordinator/fabric.cpp:490-638 | from any state that knows the service and not the slot, two attempts complete on it one after the other, and the record cannot be loaded |
| `Limits.UnreadableFromFresh` | src/coordinator/fabric.cpp:175-638 | such a run of a fresh coordinator |
| `Coordinator.FailoverFabric.constructor` | src/coordinator/fabric.cpp:104-106 | a new object is in the initial state |
| `Coordinator.FailoverFabric.SetInitialAssignment` | src/coordinator/fabric.cpp:209-222 | refuses a null slot and a slot with a current assignment, otherwise stores and indexes it; both indexes stay exact |
| `Coordinator.FailoverFabric.CreateServiceDefinition` | src/coordinator/fabric.cpp:175-183 | refuses exactly the known identities |
| `Coordinator.FailoverFabric.Register` | src/coordinator/fabric.cpp:250-254 | adds a record for a new target and leaves known ones alone |
| `Coordinator.FailoverFabric.PublishCandidateFacts` | src/coordinator/fabric.cpp:256-279 | takes facts that are not older; binds the service, ends a confirmed failure and restarts the readiness window as the code does |
| `Coordinator.FailoverFabric.PublishFailureEvent` | src/coordinator/fabric.cpp:299-306 | numbers the event, marks the target and stores the event |
| `Coordinator.FailoverFabric.BeginAttempt` | src/coordinator/fabric.cpp:484-543 | the validating section: a refused plan is noted and spends no id, an accepted one spends exactly one |
| `Coordinator.FailoverFabric.Checkpoint` | src/coordinator/fabric.cpp:471-483 | the milestone, pending and source assignments and route are recorded before anything is written; nothing is written without a path; a failed write raises; the barrier is looked at only after a write |
| `Coordinator.FailoverFabric.ApplyFence` | src/coordinator/fabric.cpp:552-563 | fencing that is unproven or not applied fails the attempt and fences nobody; otherwise the replaced non-null boot is fenced, once |
| `Coordinator.FailoverFabric.InstallNewRoute` | src/coordinator/fabric.cpp:603-609 | an unacknowledged route ends the attempt; an acknowledged one is offered to the table, and the attempt goes on whether or not the table took it |
| `Coordinator.FailoverFabric.VerifyAndCommit` | src/coordinator/fabric.cpp:618-647 | commits only if verified and not superseded: the old assignment becomes fenced history, the new one current and active, the transaction record is closed |
| `Coordinator.FailoverFabric.ExecutePlan` | src/coordinator/fabric.cpp:459-651 | the whole attempt is `Execute`, in result, state and disk, with all early exits |
| `Coordinator.FailoverFabric.FencePlan` | src/coordinator/fabric.cpp:552-568 | from the fencing on, each exit leaves exactly the state, disk and result of its phase |
| `Coordinator.FailoverFabric.FinishPlan` | src/coordinator/fabric.cpp:570-647 | from the activation on, each exit leaves exactly the state, disk and result of its phase |
| `Coordinator.FailoverFabric.RunFailback` | src/coordinator/fabric.cpp:731-755 | the failback is `ExecuteFailback`, budget included |
| `Coordinator.FailoverFabric.Save` | src/coordinator/fabric.cpp:893-917 | the record is the snapshot of the state |
| `Coordinator.FailoverFabric.LoadFrom` | src/coordinator/fabric.cpp:919-968 | loading into a new object gives `Load` of the record |
| `Coordinator.SnapshotCandidates` | src/coordinator/fabric.cpp:318-363 | the candidate loop over bound or compatible targets computes the snapshot |
| `Coordinator.ComputeContext` | src/coordinator/fabric.cpp:365-390 | the loops of the context computation give the selection context |
| `Coordinator.ComputePlan` | src/coordinator/fabric.cpp:429-455 | planning runs the selection and asks for the next route generation |
| `Coordinator.Revalidate` | src/coordinator/fabric.cpp:490-533 | revalidation looks only at the first candidate with the planned target and boot |
| `Coordinator.CollectAssignments` | src/coordinator/fabric.cpp:901-904 | the saving loop lists each slot's current assignment and then its history |
| `Coordinator.RebuildSlots` | src/coordinator/fabric.cpp:933-938 | the loading loop rebuilds slots and index |
| `Coordinator.Reconcile` | src/coordinator/fabric.cpp:959-967 | the reconciliation loop demotes the active assignments left in doubt |
| `Coordinator.RebuildDomains` | src/coordinator/fabric.cpp:939-941 | domains and memberships are declared again one by one |
| `Coordinator.RebuildEvidence` | src/coordinator/fabric.cpp:942-943 | events are published again one by one |
| `Coordinator.RebuildRoutes` | src/coordinator/fabric.cpp:944-946 | routes are installed again one by one and await revalidation |
| `Persistence.RoundTrip` | src/persistence/persistence.cpp:228-339 | whatever can be encoded decodes to itself (unrecorded transaction fields reset) if and only if it is within the limits and semantically valid with an authorized pending assignment |
| `Persistence.DecodeAcceptsOnlyEncodings` | src/persistence/persistence.cpp:268-339 | whatever is decoded encodes to the very bytes that were read |
| `Persistence.OneByteCorruptionRejected` | src/persistence/persistence.cpp:268-282 | no blob that differs from an encoding in exactly one byte is accepted |
| `Persistence.SealDetectsOneByte` | src/persistence/persistence.cpp:24-27 | one changed byte anywhere breaks the checksum seal |
| `Persistence.SemanticFaultExact` | src/persistence/persistence.cpp:317-337 | the ordered checks refuse exactly the records that are not semantically valid |
| `Persistence.PayloadWritten` | src/persistence/persistence.cpp:228-256 | the payload reads back, across all nested lists, options and enumerations |
| `Persistence.PayloadCanonical` | src/persistence/persistence.cpp:284-315 | what the payload reader accepts is what the writer would have written |
| `Records.AssignmentWritten` | src/persistence/persistence.cpp:158-177 | assignments read back |
| `Records.AssignmentCanonical` | src/persistence/persistence.cpp:158-177 | an accepted assignment is its own encoding |
| `Records.ServiceWritten` | src/persistence/persistence.cpp:140-157 | service definitions read back |
| `Records.ServiceCanonical` | src/persistence/persistence.cpp:140-157 | an accepted service definition is its own encoding |
| `Records.EventWritten` | src/persistence/persistence.cpp:185-204 | failure events read back |
| `Records.EventCanonical` | src/persistence/persistence.cpp:185-204 | an accepted failure event is its own encoding |
| `Records.RouteWritten` | src/persistence/persistence.cpp:205-216 | routes read back |
| `Records.RouteCanonical` | src/persistence/persistence.cpp:205-216 | an accepted route is its own encoding |
| `Records.DomainWritten` | src/persistence/persistence.cpp:178-182 | domain declarations read back |
| `Records.MembershipWritten` | src/persistence/persistence.cpp:183-184 | memberships read back |
| `Records.CompatibilityWritten` | src/persistence/persistence.cpp:105-117 | compatibility requirements read back |
| `Records.RecoveryWritten` | src/persistence/persistence.cpp:129-136 | recovery objectives read back |
| `Wire.ListWritten` | src/persistence/persistence.cpp:235-248 | a counted list reads back if its elements do |
| `Wire.ListCanonical` | src/persistence/persistence.cpp:291-304 | an accepted list is its own encoding if its elements are |
| `Wire.OptWritten` | src/persistence/persistence.cpp:47-65 | an option reads back if its value does |
| `Wire.ScalarsCanonical` | src/persistence/persistence.cpp:52-63 | booleans, doubles, strings and signed words are accepted only as written |
| `Endian.LittleEndianRead` | src/persistence/persistence.cpp:29-35 | a word reads back from its bytes |
| `Writing.EncodeBlob` | src/persistence/persistence.cpp:228-266 | appending the payload and sealing it computes `Encode`, refusals included |
| `Writing.Writer.Payload` | src/persistence/persistence.cpp:230-256 | appending record by record writes exactly the payload, or throws exactly when a string is too long or a double is not finite |
| `Writing.Writer.Service` | src/persistence/persistence.cpp:140-147 | a service definition is appended in the order of the format |
| `Writing.Writer.Event` | src/persistence/persistence.cpp:185-193 | a failure event is appended in the order of the format |
| `Writing.Writer.Assignment` | src/persistence/persistence.cpp:158-166 | an assignment is appended in the order of the format |
| `Reading.DecodeBlob` | src/persistence/persistence.cpp:268-339 | the envelope checks, the cursor and the validation compute `Decode`, with the same fault first |
| `Reading.Reader.Payload` | src/persistence/persistence.cpp:284-315 | the cursor reads what the payload decoder reads, and stops with the same fault |
| `Reading.Reader.ReadService` | src/persistence/persistence.cpp:148-157 | the cursor reads a service definition |
| `Reading.Reader.ReadEvent` | src/persistence/persistence.cpp:194-204 | the cursor reads a failure event |
| `Reading.ValidateRecord` | src/persistence/persistence.cpp:317-324 | the loops over services find the first objection of the validation |
| `Reading.ValidateAssignments` | src/persistence/persistence.cpp:330-337 | the loop over assignments with its set of seen slots finds the first objection |
| `Checksums.Fnv1a` | src/persistence/persistence.cpp:24-27 | the loop computes the hash |
| `Checksums.FnvStepInjective` | src/persistence/persistence.cpp:24-27 | one hash step is injective in the state and in the byte |
| `Checksums.FnvDetectsOneByte` | src/persistence/persistence.cpp:24-27 | sequences that differ in one byte have different hashes |
| `Checksums.ComputeCrc32` | src/protocol/protocol.cpp:42-49 | the loops compute the CRC-32 of section 8 of RFC 1952 |
| `Checksums.CrcKnownValues` | src/protocol/protocol.cpp:42-49 | published values: the generator 0xEDB88320 and two CRC-32 check values, which fix generator, initial value and final complement |
| `Checksums.RemainderCancels` | src/protocol/protocol.cpp:42-49 | after any bytes, the register's own four bytes bring it to zero, as the remainder of a division does |
| `Checksums.FnvKnownValue` | src/persistence/persistence.cpp:24-27 | the hash of one byte, which fixes offset and prime; the offset is the code's, one digit short of the usual FNV-1a one |
| `Checksums.CrcStepInjective` | src/protocol/protocol.cpp:45-46 | one CRC step is injective in the state and in the byte |
| `Checksums.CrcDetectsOneByte` | src/protocol/protocol.cpp:42-49 | sequences that differ in one byte have different CRCs |
| `Frames.BuildFrame` | src/protocol/protocol.cpp:58-71 | filling the buffer computes `EncodeFrame` |
| `Frames.OpenFrame` | src/protocol/protocol.cpp:73-92 | the checks with their running offset compute `DecodeFrame` |
| `Frames.FrameFields` | src/protocol/protocol.cpp:58-71 | where each field of a frame lies: magic, version and type in bytes 0 to 5, message id in 6 to 9, epoch in 10 to 17, length in 18 to 21, then the payload |
| `Frames.FrameRoundTrip` | src/protocol/protocol.cpp:58-92 | a frame survives if and only if its type is valid and its payload has at least five bytes |
| `Frames.DecodeFrameAcceptsOnlyEncodings` | src/protocol/protocol.cpp:73-92 | an accepted frame is the encoding of what it decodes to |
| `Frames.OneByteFrameCorruptionRejected` | src/protocol/protocol.cpp:73-92 | nothing that differs from an encoded frame in exactly one byte is accepted |
| `Frames.PayloadWriter.Write` | src/protocol/protocol.cpp:98-119 | a writer call appends one field or throws |
| `Frames.ParseFields` | src/protocol/protocol.cpp:128-143 | the field loop computes `Parse`, faults included |
| `Frames.Find` | src/protocol/protocol.cpp:144-147 | the search returns the first field with the id |
| `Frames.ParseInvertsAppendAll` | src/protocol/protocol.cpp:98-143 | parsing gives back the written fields, in order |
| `Frames.PayloadRoundTrip` | src/protocol/protocol.cpp:98-190 | each getter returns the first value written under its id if that has its type, and reports it missing otherwise |
| `Frames.MessageRoundTrip` | src/protocol/protocol.cpp:58-143 | a message with at least one field reaches its reader unchanged |
| `Conn.NoRequesterLeftWaiting` | src/net/conn.hpp:60-104 | with distinct pending ids, once the reader or `shutdown` has resolved the table every waiting requester can return |
| `Conn.ResponsesAreCorrelated` | src/net/conn.hpp:60-134 | in every interleaving at most 64 requests are pending and a returned frame carries the requested id |
| `Conn.ReturnsExplained` | src/net/conn.hpp:60-134 | in every run with distinct ids a caller that waited returns with a frame if and only if the last delivery or resolution that reached its cell was the delivery of that frame; it returns with nothing only if it was turned away by a dead connection, found the table full, withdrew because the connection was down or the send failed, or was resolved last |
| `Conn.AnswerReachesCaller` | src/net/conn.hpp:106-134 | a waiting caller that can collect returns with a frame if and only if the delivery of that frame is what reached it last |
| `Conn.RunsDeliver` | src/net/conn.hpp:60-134 | in every reachable state the cell of a waiting caller holds what reached it last |
| `Conn.PhasesMove` | src/net/conn.hpp:60-104 | a caller moves only by its own steps, and each step only from its own phase |
| `Conn.HeldOverRuns` | src/net/conn.hpp:60-104 | in every run every table entry belongs to a caller that has not withdrawn, so no entry leaks |
| `Conn.InvariantsOverRuns` | src/net/conn.hpp:48-134 | the invariants behind these hold in every reachable state |
| `Conn.StepKeeps` | src/net/conn.hpp:48-134 | every step of a requester, the reader or `shutdown` keeps them |
| `Conn.SharedIdStrandsIff` | src/net/conn.hpp:60-104 | after a registration under a pending id, some continuation with distinct ids strands a caller if and only if the connection is live or the first request's frame is on its way and unanswered |
| `Conn.StrandedForever` | src/net/conn.hpp:60-134 | a stranded caller stays so in every continuation, shutdown included |
| `Domains.AncestorsExactIff` | src/domains/domains.cpp:47-58 | the 64-step walk finds exactly the reachable domains if and only if at most 64 are reachable, cycles or not |
| `Domains.SmallRegistryExact` | src/domains/domains.cpp:47-58 | with at most 64 declared domains it is always exact |
| `Domains.OverlapsExact` | src/domains/domains.cpp:60-79 | for different targets the answer is symmetric and true exactly when closures meet; unknown memberships make it undecided otherwise |
| `Domains.SelfComparisonNeverOverlaps` | src/domains/domains.cpp:63-72 | comparing a target with itself never finds an overlap |
| `Domains.InDomainExactIff` | src/domains/domains.cpp:81-98 | the answer is whether the target is in or under the domain if and only if no membership there is marked unknown, a member finds the domain declared, and a target declared under it is declared at it as well |
| `Domains.InDomainMissesIff` | src/domains/domains.cpp:81-98 | it denies a target that is under the domain exactly when the target is declared under it and nothing is declared at the domain |
| `Domains.RackIsMissed` | src/domains/domains.cpp:81-98 | such a registry: a target in a rack of a site |
| `Domains.InsideIff` | src/domains/domains.cpp:47-58 | being in or under a declared domain is being declared at it or in a domain from whose parent it is reached |
| `Domains.ComputeAncestors` | src/domains/domains.cpp:47-58 | the loop computes the bounded walk |
| `Domains.ComputeOverlaps` | src/domains/domains.cpp:60-79 | the loop with its accumulators computes `Overlaps` |
| `Domains.DomainRegistry.DeclareDomain` | src/domains/domains.cpp:13-22 | a declaration replaces one that is not newer and keeps identities distinct |
| `Domains.DomainRegistry.SetMembership` | src/domains/domains.cpp:24-29 | a membership replaces the one of its pair and keeps pairs distinct |
| `Domains.MembershipAnswers` | src/domains/domains.cpp:24-98 | the last membership set for a target and a domain is what the question about them is answered with, and no other answer changes |
| `Selection.EligibleExact` | src/selection/selection.cpp:36-173 | the ordered rules accept exactly the qualified candidates |
| `Selection.EligibleIsIndependent` | src/selection/selection.cpp:142-169 | under the independence rule an eligible candidate shares no closure domain with the failed target, and neither has an unknown membership |
| `Selection.EligibleUnderFailedDomainIff` | src/selection/selection.cpp:156-169 | under the independence rule an eligible candidate lies in or under a failed domain if and only if it is declared in a domain under it, and then the failed target is outside that domain |
| `Selection.RackOfFailedSiteIsEligible` | src/selection/selection.cpp:156-169 | a candidate in a rack of a failed site is eligible whenever it meets the other rules |
| `Selection.JudgeCandidate` | src/selection/selection.cpp:36-173 | the rule-by-rule judgement is that decision, with its annotation |
| `Selection.JudgeResources` | src/selection/selection.cpp:113-141 | the nested resource loops find the first unmet requirement |
| `Selection.ComparatorIsStrictOrder` | src/selection/selection.cpp:250-260 | the comparator is a strict order, total up to equal target and boot |
| `Selection.SelectedIsBest` | src/selection/selection.cpp:221-268 | without naming the comparator: the selected candidate is preferred if any eligible one is, and among those of equal preference has the highest rank, then the smallest target, then the smallest boot; the same holds between any two of the ordered alternatives |
| `Selection.ReasonIsFirstBroken` | src/selection/selection.cpp:36-173 | the reason for an exclusion names a rule the candidate breaks; a failed target is always reported as such, and otherwise no earlier rule is broken |
| `Selection.ExclusionsAreExplained` | src/selection/selection.cpp:227-248 | every reported exclusion is of a candidate of the snapshot that breaks the named rule; only an empty snapshot reports that there is no eligible target |
| `Selection.SelectionIgnoresOrder` | src/selection/selection.cpp:221-268 | when target and boot determine a candidate, permuting the snapshot changes neither the selection nor the order of alternatives |
| `Selection.TiesKeepSnapshotOrder` | src/selection/selection.cpp:250-260 | two different candidates with one target and boot are selected in snapshot order |
| `Selection.SelectionPartitions` | src/selection/selection.cpp:227-264 | every candidate is accounted for once, as selected, alternative or excluded, in comparator order |
| `Selection.PreferredWinsIffEligible` | src/selection/selection.cpp:250-262 | a preferred target is selected if and only if one of its candidates is eligible |
| `Selection.RunSelection` | src/selection/selection.cpp:221-268 | splitting, sorting and collecting compute `Select` |
| `Selection.SortSorts` | src/selection/selection.cpp:250-260 | the sort is an ordered permutation |
| `Selection.SortIsStable` | src/selection/selection.cpp:250-260 | candidates that the comparator cannot tell apart keep their order |
| `Selection.StableSort` | src/selection/selection.cpp:250-260 | the insertion loop computes that sort |
| `Ranking.ScoreIsBounded` | src/selection/selection.cpp:175-211 | whatever the amounts are, the weighted score lies between 0.295 and 0.895 |
| `Ranking.RankFits` | src/selection/selection.cpp:213-218 | the conversion to an integer and the doubling stay within 64 bits |
| `Ranking.DominanceIff` | src/selection/selection.cpp:175-218 | a candidate at least as good in every factor never has the smaller score, and has the smaller rank if and only if the remainder of its critical path costs more than its score gains |
| `Ranking.TieGoesToLongerPath` | src/selection/selection.cpp:216-217 | equal scores are decided by the larger remainder of the critical path |
| `Ranking.ShorterPathWinsIff` | src/selection/selection.cpp:181-217 | with all else equal, when the shorter critical path has the larger rank |
| `Ranking.HeldStateOutranks` | src/selection/selection.cpp:188-217 | of two ready targets with equal resources and class, the one with available state outranks the other |
| `Ranking.SelectedHasTopRank` | src/selection/selection.cpp:221-268 | under this rank nobody eligible of the same preference outranks the selected candidate |
| `Ranking.ComputeCapacity` | src/selection/selection.cpp:193-204 | the nested loops compute the mean spare capacity, over the first resource of each required class |
| `Routing.RoutesOnlyAdvance` | src/routing/route.cpp:18-82 | over any run each slot keeps one entry, every route it ever had stays in its lineage, in strictly increasing generation order, and generation and epoch never go back |
| `Routing.TableIsRegisters` | src/routing/route.cpp:18-82 | over any run the table is one independent register per slot: newer routes of no older epoch replace, a gateway binds, only the bound gateway acknowledges the present generation, revalidation takes serving routes back |
| `Routing.AcknowledgedIsVouched` | src/routing/route.cpp:18-82 | a route is acknowledged only if it was before, was installed so, or its own generation was acknowledged |
| `Routing.InstalledIsCurrent` | src/routing/route.cpp:18-32 | after an installation the entry is current if and only if it could be installed, and other slots are untouched |
| `Routing.RouteTable.InstallEntry` | src/routing/route.cpp:18-32 | refuses a null service, an old generation and an old epoch, and keeps the table ordered |
| `Routing.RouteTable.Bind` | src/routing/route.cpp:34-40 | binds a gateway to a route that is not empty |
| `Routing.RouteTable.AcknowledgeRoute` | src/routing/route.cpp:42-51 | acknowledges only the present generation of the bound gateway |
| `Routing.RouteTable.MarkRevalidationRequired` | src/routing/route.cpp:74-82 | demotes every serving route and counts them |
| `Evidence.QueriesAgreeAfterAnyRun` | src/failure/evidence.cpp:18-81 | if events keep their target, indexed answers equal those of a linear scan after any run |
| `Evidence.LatestIsGreatest` | src/failure/evidence.cpp:50-61 | the latest failure of a target is the standing event with the greatest sequence number, the last stored among equals; there is none if and only if no event stands |
| `Evidence.FailuresAreStanding` | src/failure/evidence.cpp:69-81 | the listed failures of a target are exactly its standing events |
| `Evidence.PublishKeepsIndexIff` | src/failure/evidence.cpp:18-43 | a publication keeps the target index exact if and only if it does not move a stored event to another target |
| `Evidence.ReceiptsNeverGoBack` | src/failure/evidence.cpp:27-37 | over any run a stored event keeps its place and its receipt order never goes back |
| `Evidence.ConfirmedClearsIff` | src/failure/evidence.cpp:27-37 | a run turns a confirmed failure into a cleared one if and only if the last publication taken under its id clears and an earlier one taken neither confirmed nor cleared |
| `Evidence.ConfirmedStays` | src/failure/evidence.cpp:29-31 | without such a doubt it stays confirmed |
| `Evidence.ReloadRestoresIff` | src/coordinator/fabric.cpp:942-943 | saving and loading restores the store if and only if no event was cleared by hand |
| `Evidence.EvidenceStore.PublishEvent` | src/failure/evidence.cpp:18-43 | publication through the id index, with its refusals |
| `Evidence.EvidenceStore.ClearEvent` | src/failure/evidence.cpp:45-48 | marks the event and keeps the index |
| `Evidence.EvidenceStore.LatestFailureFor` | src/failure/evidence.cpp:50-61 | the indexed loop finds what a scan of all events finds |
| `Evidence.EvidenceStore.FailuresFor` | src/failure/evidence.cpp:69-81 | the indexed loop lists what a scan lists, up to the limit |
| `Failback.AuthorizedFailbackIsCalm` | src/coordinator/fabric.cpp:662-724 | in every run of a process with a clock that never goes back an authorized failback comes after the cooldown, the preferred target was ready throughout the hysteresis window, and the failbacks that came back failed are fewer than the budget |
| `Failback.AuthorizedIff` | src/coordinator/fabric.cpp:662-724 | a failback is authorized if and only if the service is known, the slot is away from a known home, the policy allows it (automatic, or manual with an authorization, never for a service that stays), the home target is ready, cooldown and hysteresis have elapsed, and fewer failbacks have failed than the budget allows |
| `Failback.AuthorizedInRunIff` | src/coordinator/fabric.cpp:662-729 | the same in every run, in terms of its commands: the home is the target of the slot's initial assignment, ready means its last accepted report said so, and a manual service needs an earlier authorization of that slot |
| `Failback.ManualIffAuthorized` | src/coordinator/fabric.cpp:726-729 | in every run a slot counts as manually authorized if and only if an authorization of it is among the commands |
| `Failback.RefusalExplained` | src/coordinator/fabric.cpp:662-724 | each refusal names a condition that fails |
| `Failback.BudgetNeverExceeded` | src/coordinator/fabric.cpp:744-753 | the counter is the number of failbacks that came back without completing since the last success or initial assignment, and never exceeds the budget; in a run with room in the counters, told from its start and commands, in which no checkpoint fails to be written or none is configured, no failback raises and all that failed are within the budget |
| `Failback.BudgetExceededIff` | src/coordinator/fabric.cpp:731-755 | in any state of any run where a failback would be undertaken, none has raised yet and the counters have room, some continuation with room in the counters exceeds the budget if and only if checkpoints are configured |
| `Failback.FailbackReturns` | src/coordinator/fabric.cpp:459-651 | with room in the counters, and every checkpoint written or none configured, a failback returns |
| `Failback.ExhaustedWithoutEnd` | src/coordinator/fabric.cpp:451-453 | once the slot's route generation is used up, authorized failbacks that find a target raise without end and change nothing |
| `Failback.RaisedWithoutEnd` | src/coordinator/fabric.cpp:744-753 | wherever a failback would be undertaken with checkpoints configured, any number of them can end with an exception in a row while the counter stands still and the next is authorized |
| `Overrun.BudgetOverrun` | src/coordinator/fabric.cpp:731-755 | for every n a run of a fresh coordinator with a budget of one in which n failbacks fail in a row |
| `Failback.LandsHomeIffEligible` | src/coordinator/fabric.cpp:731-755 | a completed failback commits the preferred target if and only if it was eligible at planning |
| `Failback.HeartbeatDefersFailback` | src/coordinator/fabric.cpp:272-274 | in every run in which the preferred target has said ready within the window whenever a failback is asked for, no failback of the slot changes the coordinator |
| `Failback.HysteresisPassesIff` | src/coordinator/fabric.cpp:662-724 | in every run the hysteresis test passes if and only if no window is asked for or the last accepted ready publication is at least the window old |
| `Failback.ManualAuthorizationPersists` | src/coordinator/fabric.cpp:726-729 | an operator's authorization is never used up |
| `Failback.SoundOverRuns` | src/coordinator/fabric.cpp:256-279 | the bookkeeping matches the history of publications, commits and failed failbacks in every run |
| `Requests.NeverReplayed` | src/coordinator/coordinator_main.cpp:296-361 | over every interleaving of the handlers' locked sections, a request of unknown outcome that may not be retried stays so and is never dispatched again, if no handler for it is between check and record |
| `Requests.ReplayPossibleIff` | src/coordinator/coordinator_main.cpp:312-335 | some continuation dispatches such a request again if and only if a handler for it has passed its check and has not recorded |
| `Requests.OneAtATimeNeverReplays` | src/coordinator/coordinator_main.cpp:296-361 | messages handled one at a time never do |
| `Requests.HandleAllIsARun` | src/coordinator/coordinator_main.cpp:296-361 | handling messages one at a time is one of the interleavings |
| `Requests.WithheldResultDecides` | src/coordinator/coordinator_main.cpp:352-361 | a withheld result makes exactly the non-retryable requests refusable |
| `Requests.ReplayableIff` | src/coordinator/fabric.cpp:795-802 | a request of unknown outcome may be replayed if and only if its record has a retry authority, or is idempotent and without external effects |
| `Requests.ReplayedIffIdempotent` | src/coordinator/coordinator_main.cpp:296-361 | from the messages alone: after a granted request and its withheld result, asking again dispatches it a second time if and only if the first asked for it as idempotent, whatever was said about effects and whatever other requests came in between |
| `Requests.LateResultsAreAmbiguous` | src/recovery/request.cpp:28-49 | over any messages no response is recorded as committed, nothing is rejected as stale, and the ambiguous count rises by the late results and by the withheld results that newly make a request unknown |
| `Requests.LateIsStaleIff` | src/recovery/request.cpp:37-49 | a late result is stale if and only if its request was dispatched and its response is committed, and is counted once |
| `Requests.InterleavedHandlersReplay` | src/coordinator/coordinator_main.cpp:312-335 | a run that dispatches one: a withheld result of the same request handled between check and record |
| `Requests.RequestTracker.RecordRequest` | src/recovery/request.cpp:16-20 | overwrites the record of the same request or appends one |
| `Requests.RequestTracker.MarkOutcomeUnknown` | src/recovery/request.cpp:28-35 | marks the request and counts each new ambiguity once |
| `Requests.RequestTracker.ClassifyLateResult` | src/recovery/request.cpp:37-49 | a late result is stale if a response was committed, and ambiguous otherwise |

## Left out

- Sockets, processes, the gateway, worker and CUDA programs, the command line, examples and benchmarks: plumbing around the core.
- File operations: a checkpoint is an atomic, durable write of the record; only its bytes are modelled.
- Memory-model detail: every locked section and every access to an atomic flag is one step.
- Rounding inside the double arithmetic of the selection rank: `Ranking` computes over the reals, with the value of a double as a parameter.
- The expansion of a candidate's domain list (src/coordinator/fabric.cpp:336): no later decision reads it.
- Capacity limits of the runtime configuration other than the candidate limit, and lookups that only copy state out: easy members.
- The order of fields inside a durable record is the format itself; what is proved is that writer and reader agree on it.
- Recovery evaluation, plan printing and name tables: easy members.
- Loading into an object that is already in use: the coordinator loads only into a new one.
- The order of threads inside `Conn` is modelled as interleaved steps over a state value, not as an object on the heap, because several threads update one connection at once.
- The handlers of the coordinator's main loop are modelled as steps over values; peers and their maps are not part of this model.
- Attempts interleave freely in `Cutover`; failback is modelled only for attempts that do not overlap.
- The fields of `FailoverFabric` are grouped in four records (ledger, world, book, transaction); its nested tables are values there, and their own classes are in their modules.
- Failback.AuthorizedFailbackIsCalm: its history starts with the process; nothing before a restart counts, because the code keeps none of the bookkeeping on disk.
- Revocation.RevocationIsPermanent: not promised for the null boot on a slot whose loaded key is handed out again; `NullBootComesBackIff` and `NullBootReturnsIff` say exactly when it fails.
- Authority.AtMostOneCommitPerSource: not promised for a slot whose loaded key is handed out again; `SecondCommitPossibleIff` says exactly when it fails.
- Authority.InvariantOverRuns: runs that hand out 2^64 ids, or give an empty slot an initial assignment under a key that attempts are given, are not covered; `SecondCommitUnderInitialIff` says what such a key does.
