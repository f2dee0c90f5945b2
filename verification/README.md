# Configuration as a transaction: a Dafny model of nfvis

The program manages a network appliance. An operator edits a *candidate* configuration under a session
lock, commits it as a numbered *revision*, and an orchestrator carries the difference out on the data plane,
undoing everything if one step fails. Around that core sit a resource ledger, a tree merge, a statement
language, account lockout and a few small text machines. This project models those parts and proves what they
promise, for all configurations, all runs and all answers of the outside world. `dafny verify dfyconfig.toml`
checks everything.

| part of the program | model | facts |
|---|---|---|
| orchestrator | `DataPlane`, `Plan`, `Apply` | `PlanFacts`, `PlanExact`, `Convergence`, `Atomicity`, `References`, `Witnesses` |
| transaction engine and its store | `EngineSpec`, `Engine` | `EngineFacts`, `EngineRuns`, `EngineLaws` |
| engine over orchestrator | `Appliance` | in the same module |
| resource ledger | `Ledger`, `Ordering` | `LedgerFacts`, `LedgerExact`, `LedgerLaws` |
| tree merge | `JsonTree` (Json.dfy), `Merge` | `MergeFacts`, `MergeLaws`, `MergeExact` |
| statement language | `Schema`, `Statements`, `Quoting`, `Text`, `Decimal` | `StatementFacts`, `StatementRoundTrip`, `StatementNames`, `StatementEffects` |
| core lists | `CoreList` | in the same module |
| account lockout | `Lockout` | in the same module |
| UTF-8 assembler | `Utf8` | in the same module |

Code that changes state is a class (`Applier`, `Store`, `Engine`, `PoolLedger`, `Service`, `Utf8Accum`) or a method
with the loop of the source; each is proved equal to a specification function, and the theorems are about those
functions. What a provider, the validator, the clock or Go's map iteration answers is a parameter or is chosen
arbitrarily.

## What the proofs found

Properties that do not hold as one would wish are stated with the exact condition or with a witness:

* Whatever the providers answer, a commit that is rejected with every undo successful restores every object, *if and
  only if* its plan has no operation after one that turns a switch of another type into an l2 switch
  (`Atomicity.AllOrNothing`); for all other plans `TypeChangeIsNotUndone` gives the answers, and
  `Witnesses.SwitchTypeExample` a concrete commit. An applied commit converges *if and only if* no l2 switch was turned
  into another type (`Atomicity.Converges`): its bridge domain is never deleted. That types stay as created is said in
  a comment and in a help text (internal/model/model.go:160, internal/schema/tree_config.go:189); nothing that compares
  two configurations enforces it.
* In the middle of an applied plan a reference dangles *if and only if* the order of the kinds exposes it:
  `References.DanglesExactly` says when, for every pair of kinds. Among the references the program has these are an l2
  gateway, new or changed, into a VRF that comes with the same commit, or one whose switch stays behind under another
  type while the VRF goes (`GatewayDangles`); a vNIC port put into an l3 switch that comes with the same commit, or
  removed together with its switch (`VnicDangles`); and a mirroring session removed together with the bond it watches
  (`MirrorDangles`). The gateway and the vNIC provider create the missing table themselves
  (internal/orchestrator/network/l3.go:732-735, 839-846); nothing of the kind covers the session. `Witnesses.GatewayExample` and `MirrorExample` are concrete
  commits.
* A commit by somebody who holds nothing still confirms a pending confirmed commit (`EngineRuns.StrangerConfirms`).
* A confirmed commit that dies after its revision was written and before the pending row was leaves the new
  configuration committed for good, without anybody confirming it (`EngineRuns.CrashedConfirmedCommit`).
* A confirm that times out restores the stored configuration but leaves the data plane as it was
  (`EngineRuns.TimeoutLeavesDataPlane`).
* A sweep frees a lock row *if and only if* the row is idle and this process has a session open
  (`EngineRuns.IdleLockFreed`); so a row that survives a restart never expires for anybody but its own holder
  (`OrphanedLockStays`).
* The alarm table lives in memory, so a restart forgets which objects a failed undo left behind. What ties the data
  plane to the committed configuration over whole runs (`Appliance.DataPlaneAccounted`) therefore asks that no residue
  alarm is active at a restart.
* The comment on pruning says an empty list in a patch clears the list; the code leaves it alone
  (`MergeLaws.EmptyListClearsNothing`). The model follows the code. A zero inside a list, such as core 0, is
  dropped from the patch (`MergeLaws.ListReadsBackExactly`). Elements without identity, such as static NAT entries,
  are appended each time (`MergeExact.NamelessDoubles`), so a patch that holds some may not be merged twice.
* A client that writes back what it read without password hashes leaves the accounts as they are exactly if users of
  one name have one hash (`EngineLaws.WriteBackKeepsHashes`).
* An instance name written in another way than it prints (`virtual-switches vs0 ports 007` after `ports 7`) adds a
  second element with the same identity, and the configuration no longer comes back from its printed statements
  (`StatementNames.OddNameDoubles`, `PortExample`). `StatementRoundTrips` says exactly which statements keep the round
  trip, wherever in the tree their names stand, and `StatementsRoundTrip` exactly which sequences of statements do.
* The lockout bound of n failures per lock time begun holds with one clock reading per call. The code reads the
  clock twice, and a failure whose lock runs out in between is forgotten by the next sweep
  (`Lockout.ForgottenFailure`); `FailuresBounded` counts exactly those in addition.

## Model

| member | source | states |
|---|---|---|
| Plan.MakePlan | internal/orchestrator/apply.go:268-601 | whatever order the maps of old objects are iterated in, the loops produce additions in dependency order, then removals in the opposite order |
| Plan.ComputeRemovedRoutes | internal/orchestrator/apply.go:618-636 | routes declared before and not now, each (prefix, next hop) once |
| PlanFacts.PlanBlock | internal/orchestrator/apply.go:268-601 | every operation leads to the new value and its undo to the old one, no object is moved twice, and operations come in the order of their ranks |
| PlanFacts.PlanComplete | internal/orchestrator/apply.go:268-601 | every object whose wanted value differs is moved by some operation, unless an l2 switch changed type |
| PlanFacts.RoutesComplete | internal/orchestrator/apply.go:506-542 | every route no longer declared is withdrawn, also of a VRF that goes away |
| PlanFacts.RestoreIsOld | internal/orchestrator/apply.go:667-688 | the undo of an object leads to its old value exactly if it is not a switch that became l2 |
| PlanExact.WantedIsDeclared | internal/orchestrator/apply.go:268-601 | what the plan works towards is what the configuration's sections declare: l2 switches as bridge domains, an absent nat or lldp section as the empty one |
| PlanExact.PutsExactly | internal/orchestrator/apply.go:300-456 | an object is applied, and with which content, exactly if it is declared so and was not declared so before; nat and lldp exactly if their sections differ |
| PlanExact.DelsExactly | internal/orchestrator/apply.go:458-599 | an object is deleted exactly if it was declared and is no longer, a bridge domain only if no switch of its name is left, an interface never |
| PlanExact.WithdrawnExactly | internal/orchestrator/apply.go:496-530 | a route is withdrawn exactly if it was declared and is no longer, by prefix and next hop |
| PlanExact.RemovedOnceInOrder | internal/orchestrator/apply.go:618-636 | each removed route once, as first declared, in declaration order |
| PlanExact.PutOffExactly | internal/orchestrator/apply.go:127-204 | only interfaces with a per-device entry may be put off when applied, and only VRFs when deleted |
| PlanExact.UnchangedStays | internal/orchestrator/apply.go:219-249 | an object that is declared as before is named by no operation and stays as it was, whatever the providers answer and however the commit ends |
| PlanExact.UnplacedVnicRefused | internal/orchestrator/apply.go:286-290 | a vNIC that names no switch: rejected before anything is touched |
| PlanExact.LastDeclarationCounts | internal/orchestrator/apply.go:690-696 | in an index a later declaration of a name wins |
| Convergence.LeftoverTablesReported | internal/orchestrator/apply.go:166-204 | for all answers, however the commit ends: no table whose VRF is deleted is left over without an alarm |
| Convergence.StepReports | internal/orchestrator/apply.go:187-249 | after a deletion the deferral alarm is active exactly if the table stays; success of an operation clears its residue alarm |
| Apply.Applier.Apply | internal/orchestrator/apply.go:219-249 | equal configurations: no call; otherwise the plan runs until the first failure, a failed composite operation is compensated itself, everything before it is undone in reverse, and failed undos are reported and alarmed |
| Apply.Applier.CompensateAll | internal/orchestrator/apply.go:226-246 | the backward loop undoes every executed operation once, last first |
| Convergence.CommitsStayAccounted | internal/orchestrator/apply.go:206-261 | whatever fails, undos included: every object and route of the configuration in force is at its declared value or named by an active alarm, after an applied commit unless an l2 switch changed type, after a rejected one unless a switch became l2 |
| Atomicity.AllOrNothing | internal/orchestrator/apply.go:206-249 | for all answers of the providers, a rejected commit with clean undos restores every object, exactly if the plan has no operation after one that turns a switch into an l2 switch |
| Atomicity.RestoredExactly | internal/orchestrator/apply.go:219-249 | for one such run: all objects are back exactly if no switch had become l2 before the failure, even when a failing VRF call left its object in any state; interfaces the new configuration does not declare are as before in either case |
| Atomicity.RejectedFib | internal/orchestrator/apply.go:506-542 | rejected with clean undos: no old route is missing, and extra routes are routes of the new configuration |
| Atomicity.Converges | internal/orchestrator/apply.go:127-165 | applied: every object is at its new value, exactly if no l2 switch changed type; an interface is at its declared value, or has a per-device entry and was put off |
| Atomicity.FibConverges | internal/orchestrator/apply.go:506-542 | applied: the FIB holds exactly the declared routes by prefix and next hop, and nothing of a VRF whose table deletion was put off |
| Atomicity.DeclaredRoutesStay | internal/orchestrator/apply.go:603-636 | at no moment of a plan is a route withdrawn that the new configuration declares |
| Atomicity.DistanceChangeWithdrawsNothing | internal/orchestrator/apply.go:603-608 | a change of distances alone withdraws no route |
| Atomicity.UnwindAlarms | internal/orchestrator/apply.go:251-261 | compensation raises one residue alarm per undo it reports as failed, and no other |
| Atomicity.TypeChangeIsNotUndone | internal/orchestrator/apply.go:342-355 | whenever the plan goes on after a type change to l2, there are answers for which every undo succeeds and the old state is not back |
| Witnesses.HealthyProvidersApply | internal/orchestrator/apply.go:219-249 | if every provider call succeeds, every plan is applied |
| Witnesses.SwitchTypeExample | internal/orchestrator/apply.go:342-355 | a concrete commit of that kind: after a clean compensation a bridge domain is left over |
| References.ForwardClosed | internal/orchestrator/apply.go:266-601 | after every completed operation no live object refers to a missing one, for the reference kinds the plan orders, NAT out-interfaces on bonds and vNICs included, unless an l2 switch changed type |
| References.DanglesExactly | internal/orchestrator/apply.go:266-601 | for every two kinds but interfaces: at some moment of an applied plan an object refers to a missing one exactly if it comes before what it newly refers to, goes after what it referred to, or stays behind it under another type; otherwise at no moment of any plan |
| References.BackwardClosed | internal/orchestrator/apply.go:226-246 | the same after every undo, until one fails |
| References.RejectedClosed | internal/orchestrator/apply.go:219-246 | a rejected commit with clean undos ends with all its references resolved, if no switch became or ceased to be l2 |
| References.OrderedNeverDangles | internal/orchestrator/apply.go:266-601 | a reference whose kinds are created target first and deleted source first dangles at no moment of any plan, unless its switch changes type |
| References.GatewayDangles | internal/orchestrator/apply.go:342-370 | a bridge domain refers to a missing VRF at some moment of an applied plan exactly if its new gateway names a VRF that was not there before, or it stays behind under another type and its VRF goes |
| References.VnicDangles | internal/orchestrator/apply.go:303-317 | a vNIC port refers to a missing VRF at some moment of an applied plan exactly if its l3 switch comes with the commit, or port and switch go together |
| References.MirrorDangles | internal/orchestrator/apply.go:542-580 | a mirroring session watches a missing bond or vNIC at some moment of an applied plan exactly if both are removed |
| References.ExposedBackward | internal/orchestrator/apply.go:226-246 | while a failed plan is undone only exposed references can dangle |
| Witnesses.GatewayExample | internal/orchestrator/apply.go:342-370 | a switch that exists gets a gateway into a VRF of the same commit, and for a moment the VRF is missing |
| Witnesses.MirrorExample | internal/orchestrator/apply.go:542-580 | a session and the bond it watches are removed together, and for a moment the session watches nothing |
| EngineFacts.PruneKeepsNewest | internal/config/store_sqlite.go:234-244 | after pruning a revision reads back, unchanged and under its number, exactly if it is among the newest that are kept |
| Engine.Engine.Edit | internal/config/engine.go:216-251 | opening a session: refused while another holder's row stands, refreshed by its own holder, otherwise a candidate equal to the latest revision |
| Engine.Engine.UpdateCandidate | internal/config/engine.go:280-320 | the candidate is replaced, missing password hashes inherited from the committed users |
| Engine.Engine.Commit | internal/config/engine.go:396-554 | sweep, take a pending confirm as given, then holder check, validation, confirm-required, image check, apply, append, prune, and a new pending confirm if asked for |
| Engine.Engine.RollbackTo | internal/config/engine.go:587-624 | the candidate becomes the n-th predecessor of the latest revision |
| Engine.Engine.Sweep | internal/config/engine.go:699-731 | an overdue confirm is rolled back first, then an idle lock is released |
| Engine.Engine.DoConfirmedRollback | internal/config/engine.go:733-765 | the base revision is appended again, the pending row cleared, an open candidate replaced, the applier not called |
| EngineFacts.ReachableInv | internal/config/engine.go:148-765 | in every reachable state: revisions are a gap-free interval that reaches 50 back, a pending confirm has a stored base older than the latest, a candidate implies the stored lock is the engine's, dirty implies a candidate |
| EngineFacts.CrashInCommitInv | internal/config/engine.go:514-553 | the same after a crash anywhere between apply, append, prune and the pending row |
| EngineRuns.ConfirmedCommitAwaits | internal/config/engine.go:524-541 | a successful confirmed commit awaits confirmation with the configuration before it as base |
| EngineRuns.CrashedConfirmedCommit | internal/config/engine.go:514-553 | a confirmed commit that dies halfway: committed exactly if its revision was written, awaiting confirmation with the right base exactly if the pending row was |
| EngineRuns.ConfirmTimesOut | internal/config/engine.go:699-779 | if nobody commits, confirms or rolls back, the first sweep, timer or restart at or after the deadline restores the base, across restarts and across crashes in the rollback itself; before that nothing changes |
| EngineRuns.StrangerConfirms | internal/config/engine.go:401-412 | a commit refused for not holding the lock has still confirmed |
| EngineRuns.LogStaysShort | internal/config/store_sqlite.go:234-244 | without crashes at most 52 revisions are stored |
| EngineRuns.RollbackFinds | internal/config/engine.go:587-624 | a holder's rollback succeeds exactly for 1 to 50 existing predecessors and selects the right one |
| EngineRuns.RollbackThenCommit | internal/config/engine.go:396-624 | committing after a rollback makes the snapshot the committed configuration, unless it is refused |
| EngineRuns.NoLostUpdate | internal/config/engine.go:216-298 | while one session holds the lock nobody else writes a revision; only a time-out of an earlier confirm can |
| EngineRuns.TimeoutReplacesCandidate | internal/config/engine.go:757-764 | such a time-out replaces the open candidate by the restored configuration |
| EngineRuns.OnlyVettedHistory | internal/config/engine.go:420-465 | every stored revision is the empty configuration or passed validator, image check and, unless waived, the super-user check |
| EngineRuns.FailedCommitKeepsEverything | internal/config/engine.go:396-520 | a refused or failing commit leaves revisions, candidate, dirty flag and lock as its sweep left them |
| EngineRuns.CommitWrites | internal/config/engine.go:396-554 | a revision is written exactly if the holder has changes that nothing refuses and the data plane takes |
| EngineRuns.IdleLockFreed | internal/config/engine.go:689-716 | in every reachable state a sweep frees the lock row exactly if it is idle and this process has a session open |
| EngineRuns.OrphanedLockStays | internal/config/store_sqlite.go:283-294 | after a restart an abandoned lock row refuses every other session, however long they wait |
| EngineRuns.HolderTakesOver | internal/config/engine.go:216-251 | its own holder gets it back with a fresh candidate |
| EngineRuns.RunApplied | internal/config/engine.go:396-554 | on every run without time-outs and halfway commits the data plane was last told the committed configuration |
| Appliance.DataPlaneAccounted | internal/config/engine.go:514-531 | engine and orchestrator together: on every run from an empty store, whatever providers and undos do, each object and route of the committed configuration is on the data plane or named by an active alarm |
| Appliance.CommitKeepsOrMoves | internal/config/engine.go:396-554 | the committed configuration becomes the candidate exactly if the orchestrator is called and applies it |
| EngineRuns.TimeoutLeavesDataPlane | internal/config/engine.go:733-765 | after a time-out the data plane still has the configuration that was not confirmed |
| EngineLaws.CommitAnswers | internal/config/engine.go:396-512 | for each answer of a commit exactly when it is given; confirmation is required exactly for a checked change of the management interface from elsewhere than the console without a time to confirm in |
| EngineLaws.ManagementGuarded | internal/config/engine.go:444-453 | a commit that writes another management interface came from the console or awaits confirmation with the old configuration as base |
| EngineLaws.CutOffComesBack | internal/config/engine.go:444-453 | whoever cuts off a network session gets the old configuration back after the time to confirm, unless somebody confirms |
| EngineLaws.CommitLeaves | internal/config/engine.go:514-553 | the new revision carries the next number, the candidate and the user's name behind the newest old ones, and the pending row the session's name |
| EngineLaws.CommitAudited | internal/config/engine.go:431-553 | one audit entry per commit that was looked at, telling how it ended |
| EngineLaws.EditAnswers | internal/config/engine.go:216-251 | refused for others, candidate equal to the committed configuration on a free lock, changes kept for the session that has it open |
| EngineLaws.ReleasedForAll | internal/config/engine.go:253-278 | after a release anybody may edit and starts from what is committed |
| EngineLaws.UpdateAnswers | internal/config/engine.go:280-320 | the holder's candidate is the given configuration, where a missing hash is the last one committed for that name; nothing else changes |
| EngineLaws.WriteBackKeepsHashes | internal/config/engine.go:289-320 | writing back a configuration read without its hashes restores it exactly if users of one name have one hash |
| EngineLaws.MergeAnswers | internal/config/engine.go:322-338 | the candidate is the merge of itself and the patch, or stays if the merge fails |
| EngineLaws.ConfirmAnswers | internal/config/engine.go:567-585 | a pending confirm is cleared and audited, nothing else changes |
| EngineLaws.ConfirmedForGood | internal/config/engine.go:567-585 | what is confirmed in time no later time-out takes back |
| EngineLaws.RollbackAnswers | internal/config/engine.go:587-624 | the whole state after a rollback, for each answer |
| EngineLaws.TimeoutAnswers | internal/config/engine.go:733-765 | the whole state after a confirm timed out |
| EngineLaws.DueBeforeIdle | internal/config/engine.go:699-731 | a confirm that is overdue and a session that is idle at once: in this order |
| EngineLaws.RestartAnswers | internal/config/engine.go:767-779 | a restart before the deadline forgets the session, keeps its lock row and waits on |
| Ledger.PoolLedger.constructor | internal/model/resources.go:43-73 | pools all free, cores sorted, VPP's cores set aside |
| Ledger.PoolLedger.Allocate | internal/model/resources.go:108-162 | serving all machines in name order, shortages reported and serving going on |
| Ledger.PoolLedger.AllocateCores | internal/model/resources.go:164-192 | the lowest free cores of the machine's NUMA node or of the isolated set, or a shortage |
| LedgerFacts.PermutationInvariant | internal/model/resources.go:108-162 | the outcome does not depend on the order in which machines are listed |
| LedgerFacts.LastMachineDisturbsNobody | internal/model/resources.go:108-162 | a machine that sorts last changes no other machine's cores and no earlier shortage |
| LedgerFacts.AllocationIsStable | internal/model/resources.go:90-106 | adding such a machine leaves every other machine's allocation as it was, if the larger configuration fits |
| LedgerFacts.LowestFree | internal/model/resources.go:164-192 | with fewer cores in use, taking the lowest free ones ends within the cores that would be in use otherwise |
| LedgerFacts.RemovalKeepsAdmission | internal/model/resources.go:108-192 | a configuration that fits still fits without any one machine, NUMA restrictions included |
| LedgerExact.HugepagesExact | internal/model/resources.go:108-162 | per page size: a shortage exactly if machines draw on the pool and want more than it holds |
| LedgerExact.CoresExact | internal/model/resources.go:164-192 | without NUMA restrictions: a shortage exactly if more vCPUs are pinned than isolated cores are left by VPP |
| LedgerExact.AllPartition | internal/model/resources.go:164-192 | core sets are duplicate-free, disjoint from each other and from VPP's |
| LedgerExact.AdmittedBooks | internal/model/resources.go:108-245 | an admitted configuration: every pinned machine has exactly what it asked for, allocated plus free is the total, and the free cores are exactly the isolated ones nobody took |
| LedgerLaws.LowestLeft | internal/model/resources.go:108-192 | every pinned machine gets the lowest cores of its list that VPP and the machines before it in name order have left, or none if these are too few; its list is that of the first entry for its NUMA node, else the isolated cores |
| LedgerLaws.ShortCoresExactly | internal/model/resources.go:180-186 | a shortage of cores is reported exactly if too few are left on that list |
| LedgerLaws.UnpinnedGetsNone | internal/model/resources.go:152-158 | a machine without vCPUs or with pinning off gets no cores |
| LedgerLaws.NoPoolExactly | internal/model/resources.go:123-135 | a missing pool is reported exactly for machines that need pages of a size nobody declared, the first pool's if they name none |
| LedgerLaws.ReportsAreTrue | internal/model/resources.go:131-146 | every reported shortage names a machine, what it needs, and less than that |
| LedgerLaws.PagesCover | internal/model/resources.go:200-210 | the fewest pages of 2 or 1024 MB that cover the memory |
| LedgerLaws.ReservedIsVpp | internal/model/resources.go:57-68 | reserved are VPP's main core, unless 0, and its workers |
| LedgerLaws.PoolsAreDeclared | internal/model/resources.go:48-51 | a pool holds what the last declaration of its page size says |
| LedgerLaws.AllocationIs | internal/model/resources.go:90-106 | what the orchestrator is told: nothing unless all fits, no page size for ordinary memory |
| Merge.PruneZero | internal/model/merge.go:49-76 | the loops prune exactly the zero values, whatever the map order |
| Merge.ComputeMergeMaps | internal/model/merge.go:78-101 | the loop over the patch merges key by key, whatever the map order |
| Merge.ComputeMergeArrays | internal/model/merge.go:108-138 | elements are matched by identity in the array as it grows; one plain value replaces the whole array |
| MergeFacts.ArraysForm | internal/model/merge.go:108-138 | for named patches the result is the old elements, each merged at most once, followed by the unmatched ones |
| MergeLaws.MergeIdempotent | internal/model/merge.go:16-46 | merging the same patch twice equals merging it once |
| MergeLaws.PatchReadsBack | internal/model/merge.go:8-76 | every non-zero value of the patch reads back at its identity path, lists without their zeros |
| MergeLaws.ListReadsBackExactly | internal/model/merge.go:49-66 | a list reads back as written exactly if none of its items is zero |
| MergeLaws.RestUntouched | internal/model/merge.go:78-138 | what the non-zero part of the patch does not touch reads as before, present or absent |
| MergeLaws.ElementsKeepOrder | internal/model/merge.go:108-138 | old elements keep place and identity, new ones follow in patch order |
| MergeLaws.PruneStaysNamed | internal/model/diff.go:112-121 | pruning keeps distinct non-zero identities distinct |
| MergeLaws.ReadsMerged | internal/model/merge.go:78-138 | where both trees have something at a path, the merged tree has the merge of the two |
| MergeLaws.EmptyListClearsNothing | internal/model/merge.go:48-66 | an empty list in the patch changes nothing, at any depth |
| MergeExact.PruneExactly | internal/model/merge.go:48-76 | kept is exactly what holds a true, a number other than zero, a text or an empty container somewhere |
| MergeExact.ItemsPruned | internal/model/merge.go:60-67 | the items of a list that are kept stay in order |
| MergeExact.IdentityExactly | internal/model/diff.go:18-121 | the first of name, interface, prefix, seq, node, server and page_size that has a plain value identifies an element |
| MergeExact.OldInPlace | internal/model/merge.go:108-138 | old elements keep their places, those without identity unchanged |
| MergeExact.NamelessAppended | internal/model/merge.go:116-120 | every patch element without identity stands in the result as written, behind the old ones and in patch order |
| MergeExact.NamelessExactly | internal/model/merge.go:116-120 | the elements without identity are the old ones followed by the patch's, each as often as there |
| MergeExact.NamelessMerged | internal/model/merge.go:8-46 | in whole trees: a list whose entries have no identity is appended, without its empty entries, wherever it stands |
| MergeExact.StaticNatJoins | internal/model/merge.go:116-120 | a static NAT entry joins the old ones |
| MergeExact.NamelessDoubles | internal/model/merge.go:116-120 | merging such a list twice appends it twice |
| Statements.ApplyTokens | internal/api/cliexec.go:1432-1739 | one pass with a cursor in the command tree and one in the configuration computes the recursive meaning of the statement, errors included |
| Statements.EmitMechanical | internal/api/setstmt.go:222-398 | the recursive printer emits, in name order, exactly the statements of the tree under its prefix |
| StatementFacts.LeafReadsBack | internal/api/setstmt.go:400-434 | a leaf's printed value reads back exactly if it is of the leaf's type and no text that looks like another type |
| StatementFacts.RunKeepsBuilt | internal/api/cliexec.go:1432-1739 | set statements keep a tree free of empty containers, with values that print and read back, and with distinct names if names are canonical |
| StatementFacts.KeywordsFacts | internal/api/setstmt.go:227-234 | the printer visits each keyword of a node once, in name order |
| StatementRoundTrip.RoundTrip | internal/api/setstmt.go:222-398 | replaying a tree's printed statements on an empty tree gives it back with array order kept, exactly for the trees described there |
| StatementRoundTrip.StatementsRebuild | internal/api/setstmt.go:146-167 | whatever canonical statements built, its printed statements rebuild |
| StatementRoundTrip.TextRoundTrip | internal/api/setstmt.go:105-122 | the same through the printed lines, with any characters in names and values |
| StatementRoundTrip.SiblingAfterValue | internal/api/cliexec.go:1587-1608 | keywords of the same level after a value mean the same as separate statements |
| StatementNames.StatementRoundTrips | internal/api/cliexec.go:1543-1577 | a set statement on a tree that comes back gives one that comes back exactly if each instance name in it, at whatever depth, is there as written, or no element has the name it would print as |
| StatementNames.StatementsRoundTrip | internal/api/setstmt.go:146-167 | what any sequence of set statements built comes back exactly if the names of each fitted when it was carried out; no later statement mends a doubled name |
| StatementNames.OddNameDoubles | internal/api/cliexec.go:1838-1847 | inside an element of an array: a name that reads as the number of an element but is written differently adds a second one, and the tree no longer comes back |
| StatementNames.PortExample | internal/schema/tree_config.go:199-200 | port 007 after port 7 of a switch |
| StatementEffects.NumberOnLeaf | internal/api/cliexec.go:1915-1936 | digits become a number on leaves without type or of type uint, int, number or bool, and stay text on all others |
| StatementEffects.WordOnLeaf | internal/api/cliexec.go:1899-1936 | other tokens are text, except the two words for truth values |
| StatementEffects.SpecialLeaf | internal/api/cliexec.go:1861-1897 | core lists are expanded, switches take the two words, VLAN leaves a number, and anything else is refused |
| StatementEffects.IdentityFields | internal/api/cliexec.go:39-49 | the identity field of each array |
| StatementEffects.AcceptedExactly | internal/api/cliexec.go:1432-1739 | a statement that follows the command tree fails exactly on a value that does not suit its leaf, and names it |
| StatementEffects.UnknownAtTop | internal/api/cliexec.go:1589-1620 | an unknown keyword is named |
| StatementEffects.UnfinishedStatement | internal/api/cliexec.go:1660-1739 | a keyword that needs more is no statement |
| StatementEffects.NearestAncestor | internal/api/cliexec.go:1587-1606 | a keyword that is not at its place is the nearest ancestor's |
| StatementEffects.DisableMidway | internal/api/cliexec.go:1620-1628 | only as the last word is disable the flag |
| StatementEffects.TakesEffect | internal/api/cliexec.go:1432-1739 | what an accepted statement says stands where it points |
| StatementEffects.ChangesNothingElse | internal/api/cliexec.go:1432-1739 | whatever stands elsewhere stands there as before |
| StatementEffects.SecretsUnprinted | internal/api/setstmt.go:345-360 | trees that differ in secret leaves only print the same |
| StatementEffects.LeafPrinted | internal/model/diff.go:198-222 | a leaf is printed exactly if its key is not one of the six secret ones |
| StatementEffects.PrintedAs | internal/api/setstmt.go:400-434 | the text of truth values, numbers, texts and core lists |
| Quoting.SplitFieldsQuoted | internal/api/cliexec.go:2327-2356 | the scanning loop computes the fields of the line |
| Quoting.SplitOfJoin | internal/api/setstmt.go:436-465 | splitting a joined statement gives its tokens back, for all tokens |
| Quoting.LinesDiffer | internal/api/setstmt.go:455-465 | different statements print as different lines |
| Quoting.QuotedExactly | internal/api/setstmt.go:436-453 | a token is quoted exactly if it is empty or has a blank, quote or backslash |
| Quoting.BlankSeparates | internal/api/cliexec.go:2327-2356 | a space or tab outside quotes parts the line, however many there are and wherever they stand |
| Quoting.UnclosedQuote | internal/api/cliexec.go:2352-2355 | an open quote takes the rest of the line as one token |
| Quoting.QuotesInside | internal/api/cliexec.go:2327-2356 | quotes may stand inside a token |
| Quoting.WordIsToken | internal/api/cliexec.go:2334-2351 | a backslash before other characters is kept |
| CoreList.CompressCores | internal/api/cli_kernel_baseline.go:111-134 | the loop prints the maximal runs in order |
| CoreList.ExpandCores | internal/api/cliexec.go:1875-1897 | the loop expands the parts from left to right, first bad part first |
| CoreList.ParseCoreList | internal/cli/setup.go:132-165 | the loop collects each core once and sorts |
| CoreList.ExpandCompressed | internal/api/cli_kernel_baseline.go:111-134 | expandCores reads back what coreListText prints exactly for non-empty lists of natural numbers, and fails on all others |
| CoreList.ExpandListed | internal/api/setstmt.go:402-415 | the same for lists printed core by core |
| CoreList.ParseCompressed | internal/cli/setup.go:275-298 | parseCoreListText returns the same cores sorted without repetition, or an error if one is negative |
| CoreList.ParseCompressedExactly | internal/cli/setup.go:132-165 | it returns the list itself exactly for strictly increasing lists of natural numbers |
| CoreList.ExpandedAreCores | internal/api/cliexec.go:1875-1897 | whatever text is accepted gives a non-empty list of natural numbers |
| CoreList.CompressedExactly | internal/api/cli_kernel_baseline.go:111-134 | the printed runs are the maximal ones, a single core without a dash |
| CoreList.ExpandedByParts | internal/api/cliexec.go:1875-1897 | the parts between commas in order, with repetitions, first bad part first |
| CoreList.NumberPart | internal/api/cliexec.go:1891-1894 | a part without dash is a number or refused |
| CoreList.RangeOfText | internal/api/cliexec.go:1879-1889 | a part with a dash is a range, spaces around it allowed, or refused |
| CoreList.ParsedByParts | internal/cli/setup.go:132-165 | the wizard's parser: the cores of all parts, each once and sorted, first bad part first |
| CoreList.ParsedPart | internal/cli/setup.go:137-163 | its empty parts are skipped |
| CoreList.ParsedRange | internal/cli/setup.go:142-155 | its ranges take no spaces around the dash |
| Decimal.AtoiSpelled | internal/api/cliexec.go:1899-1911 | digits with at most one sign, leading zeros included, as far as 64 bits reach |
| Lockout.Service.Login | internal/aaa/service.go:191-230 | sweep, refuse while locked, count a failure, or forget the user's failures on success |
| Lockout.Service.RecordFailure | internal/aaa/service.go:325-348 | at the threshold the account is locked and the counter starts again |
| Lockout.Service.SweepLocked | internal/aaa/service.go:350-362 | exactly the locks that ran out are dropped |
| Lockout.FailuresBounded | internal/aaa/service.go:191-220 | in any window without a success, at most n failures per lock time begun are counted, plus those whose lock ran out between the two clock readings |
| Lockout.OneReadingNoRace | internal/aaa/service.go:194-197 | with one clock reading per call there are none of the latter |
| Lockout.LockHolds | internal/aaa/service.go:196-199 | while locked, nothing is counted, nobody gets in, and the lock stays |
| Lockout.ForgottenFailure | internal/aaa/service.go:350-362 | five failures counted in one lock time with threshold two |
| Lockout.DefaultPolicy | internal/aaa/service.go:325-342 | five failures and ten minutes unless the policy says otherwise |
| Lockout.LoginAnswers | internal/aaa/service.go:191-230 | locked out exactly until the lock runs out; else granted exactly for the right password, and then the failures are forgotten |
| Lockout.LockedAtThreshold | internal/aaa/service.go:325-348 | nobody is locked out before the n-th failure since the last success, and the n-th locks for the whole time |
| Utf8.Utf8Accum.FeedByte | internal/cli/rawmode.go:228-253 | one byte: buffered, dropped, or completing a character |
| Utf8.GrammarIsEncoding | internal/cli/rawmode.go:216-226 | the grammar in section 4 of RFC 3629 generates exactly the encodings of the scalar values |
| Utf8.SelfSynchronising | internal/cli/rawmode.go:228-253 | from any buffer state, the encoding of a text yields exactly that text |
| Utf8.CompletesExactly | internal/cli/rawmode.go:228-253 | a byte completes a character exactly if the stream ends with that character's octets |
| Utf8.OnlyScalars | internal/cli/rawmode.go:228-253 | no byte stream yields anything but scalar values |

## Left out

- References.ForwardClosed: the references gateway to VRF, vNIC port to VRF, and mirroring session to bond have theorems of their own, because they may dangle; an interface that the new configuration does not declare keeps its policy binding and is not counted.
- References.DanglesExactly: references of interfaces are covered by ForwardClosed only.
- References.MirrorDangles: also speaks of sessions on a vNIC, which the provider refuses (internal/orchestrator/network/services.go:64-67).
- References.BackwardClosed: supposes that switches keep their type.
- Appliance.DataPlaneAccounted: not for runs with a confirm time-out, a commit that dies halfway, a restart over a residue alarm or a switch that changes its type; what the program repairs by itself after a restart is not modelled.
- Statements.ApplyTokens: set statements; delete statements, scalar parameters, identity-value keywords and the decoding of the resulting tree are not modelled.
- Statements.EmitMechanical: without scalar parameters, identity-value keywords, names that require a sub-statement, and the printers of statement families.
- StatementNames.StatementRoundTrips: for statements that name every keyword in its place, and about the tree they give; that the program then decodes it into its types, which refuses a number as a textual name, is not modelled.
- StatementEffects.TakesEffect: for statements whose instance names are written as they print; names written otherwise are covered by StatementNames.
- StatementEffects.LeafPrinted: keys are lower-case, as the command tree has them; the program also recognises secret keys in capitals.
- StatementRoundTrip.RoundTrip: covers object keywords, named arrays, value leaves, core lists and the disable flag; scalar parameters, identity-value keywords such as page-size and names that require a sub-statement are not modelled.
- StatementFacts.RunKeepsBuilt: speaks of statements that name every keyword in its place; keywords looked up several levels up can write where the command tree has no place for them.
- MergeLaws.MergeIdempotent: on patches whose object arrays have distinct non-zero identities; static NAT entries, which MergeExact.NamelessDoubles covers, and NUMA node 0 fall outside.
- Lockout.FailuresBounded: for a policy that does not change within the window.
- VPP, libvirt, Docker and kernel providers: a provider call is an action on keyed objects and FIB routes with an arbitrary answer; a failing call other than a VRF call changes nothing.
- vNIC ports and switch members derived from machines and containers: taken as given lists of the configuration. A machine's pinned cores are not part of its view, because a machine with an unchanged declaration is skipped.
- Validator, image check, super-user lookup beyond the role field, and the engine's use of the tree merge: uninterpreted functions.
- SQL, JSON encoding and store failures other than a crash between two writes; messages, events, audit texts, commit warnings and high-risk intents.
- Statement aliases.
- JSON text that formatScalar would print for a container in the place of a value; numbers beyond integers, and the rounding of integers above 2 to the 53rd in JSON.
- Wrap-around of a run of cores at the largest 64-bit integer.
- Tokens, their expiry, password hashing and login classes.
- HTTP, TLS, console, web pages, show output and completion.
