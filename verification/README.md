# Verified models of the avenOS deployment and client protocols

Dafny models of the code in this repository that drives durable, retryable work, with proofs about
whole runs of it. `dafny verify dfyconfig.toml` checks everything.

Code that changes things step by step is modelled by classes and methods with loops; each is proved
against a specification function on values, and what the repository promises is then proved about that
function for all inputs, runs or crash points. Several promises turned out to hold only under a
condition; those lemmas state the condition (mostly as an if and only if) and a witness where they fail.

| file | models |
|---|---|
| `Movement.dfy`, `MovementLaws.dfy` | the journal of the movement service, with returns and rollbacks, and the cohort controller of a rollout; interruption at every call and in every phase, lost answers, retries |
| `Deployment.dfy`, `DeploymentLaws.dfy`, `DeploymentProgress.dfy` | the durable writes of a platform deployment, a crash between any two of them, movement activity in between, abandoned candidates and retries; what every attempt keeps, and which attempts get through |
| `ReleaseArchive.dfy` | the content-addressed release archive with its atomically replaced pointer |
| `Recovery.dfy`, `RecoveryProgress.dfy` | admission of a restored backup set, against the history of placements and of the stamps on every copy; which backups are admitted |
| `Uninstall.dfy` | interrupted and repeated teardown of one generation next to others |
| `BucketReconcile.dfy` | the unbounded reconciliation loop with its two retry budgets |
| `Mime.dfy` | recursive multipart splitting against the printed form of section 5.1.1 of RFC 2046 |
| `Download.dfy` | resumable downloads with byte accounting |
| `TokenCache.dfy` | a session-bound credential cache on a monotonic and a wall clock |
| `StationRail.dfy` | the window over a chapter tree |
| `HostRewrite.dfy` | renaming of service hosts in nested JSON |
| `Icns.dfy` | canonical ordering of icon chunks |
| `JsonPath.dfy` | path reads and writes in a mutable tree, and the rejected credential rotation |
| `LineFramer.dfy` | framing of two interleaved output streams into lines |
| `SenderRules.dfy`, `RateLimit.dfy` | envelope sender whitelist and the per-address limit behind it |

What the environment decides (provider answers, failures, clocks, chunk sizes, file contents) is a
parameter of the models, so every theorem ranges over all of it.

## What does not hold, or holds only under a condition

- A rollout that ends with a count may leave a movement uncompleted, although everybody is placed: one that an
  earlier run drove to its activation and no further. There is none exactly if no run was interrupted there
  (`NothingIsStrandedIffNoRunWasCut`; for instance `ActivatedIsNotCompleted`). A rollout comes to its end exactly
  when nobody is held by anything but a plain move that is on its way to the destination (`CompleteRunFinishes`).
- A rollout started on its own after an interrupted deployment leaves a default runtime that can be recovered
  exactly when the deployment had got past its archive write (`StandaloneRolloutNeedsTheArchive`; a history on
  which it had not: `RolloutTooEarly`). If it dies between its writes, the operator configuration may name a
  runtime that the durable registry lacks; `RolloutCrashPoints` states exactly when every runtime named there
  is served.
- Comparing generations admits a copy that was made before the customer arrived, if the movement had stamped
  it by then. A copy is admitted exactly when the event that set the directory's record stamped it last
  (`AdmissionIsExact`, `ExactCopyIs`; for instance `VerifiedCopyIsAdmitted`), so a renewal leaves a copy inadmissible
  until it is provisioned again; at rest, everything else is admitted (`BackupAtRestIsAdmitted`).
- `create` does not validate an already existing configuration directory; it publishes a recoverable pair
  exactly when what lies there already passes the checks (`CreateTrustsWhatIsThere`; an archive on which it
  does not: `DamageIsNotNoticed`, `SampleIsAccepted`).
- An uninterrupted uninstall completes exactly when its guards are clear (`Uninstall.Providers.Run`), so never
  while a saved billing webhook points elsewhere.
- The billing catalogue belongs to no generation. Another generation that sells from the same account keeps its
  items exactly when it sells no listed marked one (`OthersKeepTheirItems`; for instance
  `SharedProductIsRemoved`), and nothing marked is left exactly when it was all on the first page of a hundred
  (`ClearedIsClean`; an item that stays: `LaterPagesAreNotSeen`).
- A rejected credential is put back, but where a scalar, an array or nothing stood on the way to its field, an
  object stays: a path reads as before exactly when it is not strictly above the field or read an object before
  (`RejectedRotationRestores`; for instance `ScalarAboveIsLost`).
- The reconciliation loop is bounded if tracked buckets stay tracked (`LoopIsBounded`); there is an environment
  in which they do not and the loop never ends (`FlappingNeverEnds`).
- A mail part without header fields begins with its blank line, which the splitter takes for header text; a
  printed tree is read back exactly when every part inside it has a header field (`FlattenUndoesPrint`; a text
  that is lost: `HeadlessTextIsLost`).
- A part file that is complete but was never renamed makes every range request fail; a cooperative download
  succeeds exactly when no server refuses such a part (`EnsureFiles`; a run that gets stuck:
  `DieBeforeTheRename`). Two destinations that differ in extension only share a part file
  (`SeparateMeansDistinctStems`).
- The bound on token exchanges needs lifetimes above 75 s; with exactly 75 s it fails
  (`SeventyFiveSecondsAreNotEnough`).
- Icon files whose chunks do not tile the body lose up to seven trailing bytes (`LengthIsKeptByTiles`; for
  instance `TrailingBytesAreLost`).
- A whitelist none of whose entries says anything admits every sender, the empty one included
  (`DecisionIsExact`; for instance `MalformedWhitelistAdmitsAll`).
- The search for a delimiter after CRLF in `markerAt` can never find anything that the search after LF
  has not found (`CrlfMarkerIsLfMarker`).

## Model

| member | source | states |
|---|---|---|
| `Movement.Authority.BeginMovement` | services/platform-provisioner/src/movement.ts:96-229 | begin succeeds only for the placement, generation and free hold that the caller saw and between two runtimes, takes exactly one hold and appends one paused movement; otherwise nothing changes |
| `Movement.Authority.ResumeMovement` | services/platform-provisioner/src/movement.ts:406-466 | resume drives a movement on or back, as far as the interruption lets it: activation publishes the next generation on the destination and releases the hold, completion follows, a return publishes the generation after next on the source, and a changed placement stops both |
| `Movement.Authority.AdvanceMovement` | services/platform-provisioner/src/movement.ts:307-388 | the way to the destination: never backwards, and placed only if the directory still shows what the movement began with |
| `Movement.Authority.ReturnMovement` | services/platform-provisioner/src/movement.ts:452-458 | the way back to the source, interrupted before or after its copy is stamped anew |
| `Movement.ResumeChecked` | deploy/runtime/rollout.py:85-99 | the checked resume, with lost requests and answers, matches its specification in journal and verdict |
| `Movement.MoveCustomers` | deploy/runtime/rollout.py:80-104 | the cohort loop, stopped at any call, leaves the journal and reports the outcome of the specification function over which all laws are proved, those about the listed record it begins with included |
| `MovementLaws.ReachableIsConsistent` | services/platform-provisioner/src/movement.ts:96-388 | every journal reachable by sign-ups, renewals, begins, resumes, rollbacks and returns is consistent: a customer is held exactly by its one live movement, which began with what the directory shows |
| `MovementLaws.VisitLaw` | deploy/runtime/rollout.py:84-99 | one visit preserves all other customers, conserves begins and generations, counts a completion exactly when one happened, strands a movement exactly when cut off between activation and completion, and undisturbed it stops exactly at a conflict or a movement turned back |
| `MovementLaws.CohortLaw` | deploy/runtime/rollout.py:80-104 | a cohort run, however interrupted, preserves the conservation laws; if it finishes, the returned count is the number of movements it completed |
| `MovementLaws.CompleteRunFinishes` | deploy/runtime/rollout.py:80-104 | an uninterrupted run finishes if and only if every hold is a plain move to the destination that has not been turned back, and then everybody is placed and the count is exact |
| `MovementLaws.RunsPreserve` | deploy/runtime/rollout.py:80-104 | from any reachable journal, any number of interrupted runs conserve begins and routing generations of every customer that no operator has turned back |
| `MovementLaws.InterruptedRolloutConverges` | deploy/runtime/rollout.py:80-104 | main result: from any reachable journal held to the destination, any interrupted runs and one complete run leave everybody placed and free, with exactly one begin for each customer that needed one and one generation step for each not yet activated, and an exact count |
| `MovementLaws.CutsStrand` | deploy/runtime/rollout.py:84-99 | each run that breaks off between an activation and the completion leaves exactly one movement behind, and no number of further runs completes any of those |
| `MovementLaws.NothingIsStrandedIffNoRunWasCut` | deploy/runtime/rollout.py:80-104 | main result: a rollout that ends with a count leaves no movement uncompleted if and only if there was none before and no run was interrupted between activation and completion |
| `MovementLaws.ActivatedIsNotCompleted` | deploy/runtime/rollout.py:90-93 | a concrete rollout on which it does |
| `MovementLaws.ConflictIsNeverResumed` | deploy/runtime/rollout.py:85-88 | a held movement to elsewhere, or a rollback, is untouched by any number of runs |
| `MovementLaws.PerformStaysWithin` | services/platform-provisioner/src/movement.ts:96-388 | the journal names only runtimes that movements and sign-ups were aimed at; a rollback or a return adds none |
| `MovementLaws.CohortStaysWithin` | deploy/runtime/rollout.py:80-104 | a run stays within a set of runtimes that holds its destination, however others edit placements and move customers within that set meanwhile |
| `MovementLaws.VisitActsOnListing` | deploy/runtime/rollout.py:84-99 | whatever others do, one visit begins a movement only for a record that was listed free elsewhere and that the directory still shows exactly, under the listed runtime and generation; otherwise it resumes the listed movement, or leaves the journal to the others |
| `MovementLaws.RunActsOnItsListing` | deploy/runtime/rollout.py:80-104 | main result: with any activity of others before every call, each visit of a run acts on the record that the run listed at its start, and on nothing newer |
| `MovementLaws.ChangedCustomerStopsTheRun` | deploy/runtime/rollout.py:94-95 | a customer changed after the listing stops the run with a refusal, and the journal stays as the others left it |
| `MovementLaws.CountMeansPlaced` | deploy/runtime/rollout.py:90-104 | with any activity of others, a returned count is the number of visits that completed a movement, and everybody is placed and free |
| `MovementLaws.MovedElsewhereIsRefused` | deploy/runtime/rollout.py:94-95 | a concrete customer that somebody else moves elsewhere between listing and begin, and that stays there |
| `MovementLaws.DrivenMovementArrives` | services/platform-provisioner/src/movement.ts:406-466 | a live movement that is resumed any number of times, interrupted anywhere, and then once to its end is completed on its destination with the next generation or, turned back, cancelled on its source with the one after, nobody else touched |
| `MovementLaws.TurningBack` | services/platform-provisioner/src/movement.ts:295-305 | a return is accepted exactly for a live movement that has not been turned back, and moves nobody by itself |
| `MovementLaws.ChangedPlacementIsNotActivated` | services/platform-provisioner/src/movement.ts:307-330 | when the directory no longer shows what a movement began with, driving it gets as far as its verification and moves nobody |
| `MovementLaws.RollBackIff` | services/platform-provisioner/src/movement.ts:166-211 | a rollback begins exactly along an activated or completed movement whose destination still shows the customer free; it supersedes one that is not completed |
| `MovementLaws.RolledBackIsHome` | services/platform-provisioner/src/movement.ts:166-211 | driven on with any interruptions, a rollback brings the customer back to the source with one more generation |
| `MovementLaws.SecondListingDecides` | deploy/runtime/rollout.py:100-104 | whatever others do, a run completes exactly if it gets through everybody it listed and everybody is placed and free at its second listing |
| `Deployment.ValidateRegistry` | deploy/runtime/rollout.py:36-49 | accepts exactly the registries of 1 to 32 entries that have well-formed, distinct ids, routes under the same ids and commit identities, and that keep the primary |
| `Deployment.EnrollAgain` | deploy/runtime/rollout.py:63-68 | enrolling an enrolled runtime again returns the registry unchanged, so a retry never appends twice |
| `Deployment.Installation.Live` | deploy/runtime/host.py:180-311 | between two durable steps any journal activity permitted by the operator configuration may happen, or the process may die |
| `Deployment.Installation.Commit` | deploy/runtime/host.py:180-311 | one durable write: applied wholly or, after a crash, not at all |
| `Deployment.Installation.CommitAll` | deploy/runtime/rollout.py:123-135 | a plan of writes, cut off by a crash at any point, leaves the state of the specification |
| `Deployment.Installation.Initialise` | deploy/runtime/initialize.py:58-73 | registry, operator configuration and default runtime are written in this order, and an existing registry must be the same |
| `Deployment.Installation.EstablishBaseline` | deploy/runtime/host.py:200-241 | the baseline file binds the first candidate; another candidate is refused until it is complete |
| `Deployment.Installation.PublishRuntime` | deploy/runtime/host.py:254-308 | enrolment, routes, registry, fleet, archive and rollout in the order of the code |
| `Deployment.Installation.RetainAndRollOut` | deploy/runtime/host.py:299-308 | the directory is archived before any customer can depend on it |
| `Deployment.Installation.PrepareAndPublish` | deploy/runtime/host.py:243-311 | preparation binds an id to one entry for ever, then publishes it |
| `Deployment.Installation.PlaceCustomers` | deploy/runtime/rollout.py:135-136 | the cohort run that ends a rollout, with other operators, sign-ups and edits by hand in between, leaves the journal and reports the outcome of the run |
| `Deployment.Installation.Deploy` | deploy/runtime/host.py:180-311 | a whole attempt, crashed anywhere, ends in the state of the specification function and reports the outcome of its cohort run, none if it did not get there |
| `Deployment.ExecuteConcat` | deploy/runtime/host.py:243-310 | a crash in one part of a plan leaves the rest unexecuted; otherwise the parts compose |
| `Deployment.ExecuteFiles` | deploy/runtime/host.py:243-310 | what ends up in the files does not depend on journal activity in between |
| `DeploymentLaws.EnabledWriteIsSafe` | deploy/runtime/host.py:298-310 | each write, under its ordering condition, keeps every placement registered, routed and archived |
| `DeploymentLaws.PlanIsEnabled` | deploy/runtime/host.py:200-310 | in every safe state the deployment writes in an order in which each write's condition holds |
| `DeploymentLaws.ExecutionIsSafe` | deploy/runtime/host.py:180-311 | every crash point of a plan, with any permitted activity between the writes, is safe |
| `DeploymentLaws.AttemptIsSafe` | deploy/runtime/host.py:180-311 | one attempt, its interrupted rollout and whatever others do to placements during it keep the state safe |
| `DeploymentLaws.HistoryIsSafe` | deploy/runtime/host.py:180-311 | any sequence of attempts, abandoned or retried, keeps the state safe |
| `DeploymentLaws.EveryCrashPointServesEveryCustomer` | deploy/runtime/host.py:298-310 | main result: after any history, with others moving and editing at any time, each placement and the default are registered, routed once routes exist, and archived unless primary |
| `DeploymentLaws.RegistryOnlyGrows` | deploy/runtime/rollout.py:52-68 | over any continuation of a history the registry only grows by appending |
| `DeploymentLaws.StandaloneRolloutNeedsTheArchive` | deploy/runtime/rollout.py:107-139 | after a deployment of a new runtime that died anywhere, a rollout on its own leaves the default served if and only if the deployment had got past its archive write |
| `DeploymentLaws.RolloutTooEarly` | deploy/runtime/rollout.py:107-139 | a concrete history on which it does not |
| `DeploymentLaws.RolloutCrashPoints` | deploy/runtime/rollout.py:123-135 | main result: wherever a rollout started by hand dies, all runtimes of the operator configuration are served if and only if nothing was written yet, or the archive holds the whole new registry and the runtime is registered and routed by then |
| `DeploymentProgress.FinishesIff` | deploy/runtime/host.py:180-311 | which attempts write everything: the plan finishes if and only if no other candidate or original runtime is bound by an unfinished baseline and the registry has, or has room for, exactly this entry |
| `DeploymentProgress.FinishedFiles` | deploy/runtime/host.py:243-311 | an attempt that gets through its plan leaves registry, operator configuration, routes, fleet file and archive in agreement on the old registry with the candidate's entry behind it, each bundle as prepared, the baseline complete and the candidate the default, whatever happens in between |
| `DeploymentProgress.RetryCanFinish` | deploy/runtime/host.py:243-311 | wherever an attempt that can finish dies, with permitted activity in between, the same candidate can still be deployed |
| `DeploymentProgress.RetriesCanFinish` | deploy/runtime/host.py:243-311 | so do any number of cut off attempts at the same candidate |
| `DeploymentProgress.DeploymentPlacesEverybody` | deploy/runtime/host.py:298-310 | an attempt comes to move the customers exactly if nothing stands in its way and it lives long enough; undisturbed it then completes exactly if every hold is a plain move to its runtime, and leaves every customer there and that runtime the default and served |
| `DeploymentProgress.RetriedDeploymentPlacesEverybody` | deploy/runtime/host.py:180-311 | main result: however often the deployment of a candidate died, wherever it was, an attempt that lives long enough gets through and, undisturbed and with every hold a plain move to its runtime, leaves every customer there |
| `DeploymentProgress.HistoryIsConsistent` | deploy/runtime/host.py:180-311 | without edits by hand the journal in which a deployment moves the customers is consistent |
| `ReleaseArchive.Directory.Create` | deploy/release/archive.py:64-136 | create, dying after any durable step, leaves the directory and reports the error of the specification |
| `ReleaseArchive.RefusalIsCause` | deploy/release/archive.py:64-101 | each error is reported exactly for its own cause, stated on manifest, target, files, images and the image store |
| `ReleaseArchive.CreateSucceedsIffAcceptable` | deploy/release/archive.py:64-136 | main result: an uninterrupted create on a sound archive publishes the bundle if and only if it is acceptable, a bundle with a fleet file for its target included |
| `ReleaseArchive.RestoreSucceedsIff` | deploy/release/archive.py:138-173 | a restore succeeds exactly on what passes its checks |
| `ReleaseArchive.RestoreIffIntact` | deploy/release/archive.py:47-173 | main result: whatever has been done to an archive behind the pointer of an accepted bundle, a restore succeeds if and only if release and configuration are as create wrote them and the recorded images are in the archive or present |
| `ReleaseArchive.CreateChecksTheRelease` | deploy/release/archive.py:47-116 | create reports an integrity failure exactly if the release directory it finds is not as it would write it |
| `ReleaseArchive.FleetSampleIsAccepted` | deploy/runtime/host.py:300-302 | a concrete bundle with a fleet file, as every deployment after the baseline archives it, is published |
| `ReleaseArchive.EveryCrashPointIsRecoverable` | deploy/release/archive.py:47-173 | main result: at every crash point of any sequence of creates the pointer can be restored, and so can every pointer that ever could |
| `ReleaseArchive.PublishedStaysPublished` | deploy/release/archive.py:103-128 | adding releases and configurations never invalidates a published pair |
| `ReleaseArchive.RepeatedCreateChangesNothing` | deploy/release/archive.py:103-135 | repeating a create on the same bundle changes nothing, wherever it dies and whatever the image export writes |
| `ReleaseArchive.RestoreAfterCreate` | deploy/release/archive.py:138-173 | restore after create returns every retained file as it was and binds each service to the recorded image identity |
| `ReleaseArchive.RestoreNeverLies` | deploy/release/archive.py:138-173 | whatever else lies in the archive, a restore that succeeds after a create returns the bundle that was created |
| `ReleaseArchive.CreateTrustsWhatIsThere` | deploy/release/archive.py:116-128 | with an existing configuration directory the published pair is restorable if and only if that directory passes the checks |
| `ReleaseArchive.DamageIsNotNoticed` | deploy/release/archive.py:116-135 | after any create, emptying the configuration it wrote makes the same create report success, repair nothing and leave an unrecoverable pointer |
| `ReleaseArchive.SampleIsAccepted` | deploy/release/archive.py:64-101 | a concrete request that passes every check, and on which the damage goes unnoticed |
| `Recovery.ValidatePlacement` | deploy/runtime/recover.py:40-51 | reports the first problem in directory order, and none exactly when every row is free, retained and matched by its copy |
| `Recovery.Clusters.CollectIdentities` | deploy/runtime/recover.py:161-178 | the map is exactly the identity of each restored copy under its runtime and database, and every copy ends with execution disabled |
| `Recovery.StepIsSound` | services/platform-provisioner/src/movement-postgres.ts:338-610 | every event keeps the books: a copy bears a generation beyond the directory's only if the movement that holds the customer has prepared that copy, and no generation is given twice |
| `Recovery.NumbersTellGrantsApart` | services/platform-provisioner/src/movement.ts:200-222 | two generations of one customer, given at whatever times, are equal only if they are the same grant |
| `Recovery.GenerationsMarkStays` | services/platform-provisioner/src/movement.ts:307-330 | over any history a customer's generation never falls, and is equal at two times if and only if the directory shows the same record, and then the same runtime, at both |
| `Recovery.ExactCopyIs` | services/platform-provisioner/src/movement-postgres.ts:454-485 | an exact copy is from the recorded stay, or it is the copy that the movement which began that stay had stamped before its activation |
| `Recovery.CopyVerdict` | deploy/runtime/recover.py:48-51 | a customer's row is accepted if and only if it is free and the copy where it is recorded was last stamped by the very event that set the record |
| `Recovery.AdmissionIsExact` | deploy/runtime/recover.py:40-51 | main result: for every history of sign-ups, renewals, provisioning, movements, returns and rollbacks and all snapshot times, the collected identities admit the directory if and only if nobody is held and every placement's copy is exact |
| `Recovery.VerifiedCopyIsAdmitted` | deploy/runtime/recover.py:40-51 | a destination snapshot taken between verification and activation is admitted with the directory of the activated, unfinished movement |
| `Recovery.Clusters.Admit` | deploy/runtime/recover.py:161-183 | collecting and then comparing, on the copies and the directory of any history, has exactly that outcome |
| `RecoveryProgress.StepKeeps` | services/platform-provisioner/src/movement-postgres.ts:338-610 | every event keeps the copies in step: a movement has stamped the copy it leads to from its preparation on, and the copy where the directory shows a customer bears the generation shown, if a movement ended there or it was provisioned since |
| `RecoveryProgress.ArrivalBringsTheCopy` | services/platform-provisioner/src/movement-postgres.ts:338-485 | a plain movement that arrives has brought the customer's copy along, stamped with the generation the directory then shows |
| `RecoveryProgress.BackupAtRestIsAdmitted` | deploy/runtime/recover.py:40-51 | main result: after any history, with interruptions, returns and rollbacks, a backup of directory and runtimes taken while nobody is held is admitted, if everybody has a copy and who has not been moved since signing up or renewing has been provisioned since |
| `RecoveryProgress.NoCopyWithoutProvisioning` | services/platform-provisioner/src/movement-postgres.ts:338-485 | what is never provisioned is never stamped, copied or restored |
| `Uninstall.PlanEstablishesOwnership` | scripts/lib/deployment-uninstall.ts:100-110 | what is removed is what exists, adopted is what was not tracked, and after adoption everything removed is owned |
| `Uninstall.Providers.DestroyPlatform` | scripts/deployment-uninstall.ts:393-449 | completed means the stack is gone, also when skipped because the state bucket is absent; the invariant behind the skip survives interruption |
| `Uninstall.Providers.RemoveIdentityDns` | scripts/deployment-uninstall.ts:497-510 | only this generation's addresses go, and all of them when completed |
| `Uninstall.Providers.SweepShelf` | scripts/deployment-uninstall.ts:472-478 | of one kind exactly the listed marked items go, in order; interrupted, some are left, of which one may have lost its benefits |
| `Uninstall.Providers.RemovePolar` | scripts/deployment-uninstall.ts:451-495 | only listed marked items and the saved webhook of the target go, and all of them when completed; an uninterrupted step refuses exactly when the webhook has another URL |
| `Uninstall.ClearedIsClean` | scripts/deployment-uninstall.ts:458-471 | nothing marked is left of a shelf if and only if every marked item was on the listed page |
| `Uninstall.LaterPagesAreNotSeen` | scripts/deployment-uninstall.ts:458-471 | a marked item behind a hundred others survives a completed removal |
| `Uninstall.OthersKeepTheirItems` | scripts/lib/deployment-uninstall.ts:195-214 | the other generations keep every item they sell if and only if they sell no listed marked one of a removed target |
| `Uninstall.SharedProductIsRemoved` | services/checkout/src/lib/server/billing/polar.ts:70-80 | two generations that sell one product: a completed removal of the one archives it for the other |
| `Uninstall.Providers.RemoveWebhook` | scripts/deployment-uninstall.ts:479-491 | the saved webhook is deleted if it still has the saved URL; with another URL it is left and the run refused |
| `Uninstall.Providers.RemoveGitHub` | scripts/deployment-uninstall.ts:512-573 | refuses exactly under another generation's prefix; the prefix goes only after the environments and the target list |
| `Uninstall.Providers.Adopt` | scripts/deployment-uninstall.ts:650-672 | adoption only tracks this generation's buckets of the target |
| `Uninstall.Providers.DeleteBuckets` | scripts/deployment-uninstall.ts:679-723 | only tracked buckets of this generation and target are deleted, and all planned ones when completed |
| `Uninstall.Providers.VerifyBucketsAbsent` | scripts/deployment-uninstall.ts:603-613 | success means no bucket is left, even when earlier listings lag behind; without lag it succeeds exactly then |
| `Uninstall.Providers.RemoveStorage` | scripts/deployment-uninstall.ts:615-731 | completed means both buckets and the local teardown stack are gone; an interrupted run leaves a local state that a retry accepts |
| `Uninstall.Providers.Run` | scripts/deployment-uninstall.ts:733-740 | one run keeps the invariant and everything foreign however it ends; under another prefix, an active workflow or a subscription on a listed product it is refused with nothing touched, and it is never further than a step whose predecessors are done; it completes only if the guards are clear, and uninterrupted always then; completed, it leaves nothing of this generation and exactly the catalogue without its listed marked items |
| `Uninstall.Providers.RunUntilDone` | scripts/deployment-uninstall.ts:733-740 | main result: after any number of interrupted runs an uninterrupted one completes if and only if the guards are clear when it begins, and leaves nothing of this generation, no marked item that was listed then, and everything foreign outside the shared catalogue as it was |
| `BucketReconcile.Turn` | scripts/lib/deployment-bootstrap.ts:348-430 | the loop body, with its continue, return and throws, is one step of the specification |
| `BucketReconcile.Recover` | scripts/lib/deployment-bootstrap.ts:376-429 | the catch block decides between retry, adoption and giving up as specified |
| `BucketReconcile.Reconcile` | scripts/lib/deployment-bootstrap.ts:324-431 | with both kinds confirmed and tracking that only grows the loop ends within 23 applies, and what it throws is the error of its last apply or of an inspection |
| `BucketReconcile.TurnKeepsTop` | scripts/lib/deployment-bootstrap.ts:348-430 | each turn ends well or makes one apply and spends one of the two budgets |
| `BucketReconcile.LoopIsBounded` | scripts/lib/deployment-bootstrap.ts:324-431 | main result: at most 23 applies in any environment in which tracking only grows; an undefined error is never thrown |
| `BucketReconcile.LoopFollowsHistory` | scripts/lib/deployment-bootstrap.ts:324-431 | main result: in any environment the loop makes apply after apply exactly while the inspections and failures so far allow another one, and ends as they say, stated without the loop's variables |
| `BucketReconcile.RepeatNeedsCause` | scripts/lib/deployment-bootstrap.ts:358-363 | an apply follows another only as a retry for an invisible bucket, or when the untracked candidates have become none or include one not tried before |
| `BucketReconcile.OrdinaryFailureIsFinal` | scripts/lib/deployment-bootstrap.ts:358-363 | if every inspection shows the same untracked buckets and the first apply fails for an ordinary reason, the loop ends with that error after one apply |
| `BucketReconcile.EndedStaysEnded` | scripts/lib/deployment-bootstrap.ts:348-430 | a verdict is final |
| `BucketReconcile.BoundIsAttained` | scripts/lib/deployment-bootstrap.ts:129-131 | an environment that uses all 23 applies |
| `BucketReconcile.FlappingNeverEnds` | scripts/lib/deployment-bootstrap.ts:404-409 | without growing tracking there is an environment in which the loop never ends |
| `Mime.SplitMultipartParts` | ARCHIVE/aven-mail/src/rfc822.js:95-129 | the loop returns exactly the parts of the specification |
| `Mime.FindMarker` | ARCHIVE/aven-mail/src/rfc822.js:101-108 | finds the next delimiter line; its third branch is dead |
| `Mime.CrlfMarkerIsLfMarker` | ARCHIVE/aven-mail/src/rfc822.js:105-106 | a delimiter after CRLF is always found by the search after LF |
| `Mime.FlattenMimeParts` | ARCHIVE/aven-mail/src/rfc822.js:174-188 | the recursion with pushed results returns the leaves of the specification and terminates on every input |
| `Mime.PartsAreShorter` | ARCHIVE/aven-mail/src/rfc822.js:95-129 | every part of any body is non-empty and strictly shorter than the body, which is why the recursion ends |
| `Mime.SplitMultipart` | ARCHIVE/aven-mail/src/rfc822.js:95-129 | splitting a body printed with CRLF or with LF, with or without preamble, gives exactly the printed texts |
| `Mime.SplitBrokenOff` | ARCHIVE/aven-mail/src/rfc822.js:116-126 | of a body that breaks off before its closing delimiter every text is found, the last one too, without one final line break |
| `Mime.PartIsReadBack` | ARCHIVE/aven-mail/src/rfc822.js:135-144 | headers and body of a part printed with either line break are found again if and only if it has a header field |
| `Mime.FlattenUndoesPrint` | ARCHIVE/aven-mail/src/rfc822.js:174-188 | main result: flattening the printed form, with either line break, of any tree in which no enclosing delimiter begins a line gives its leaves in order if and only if every part inside it has a header field |
| `Mime.FlattenWeight` | ARCHIVE/aven-mail/src/rfc822.js:174-188 | flattening never yields more body text than there was |
| `Mime.HeadlessTextIsLost` | ARCHIVE/aven-mail/src/rfc822.js:135-144 | a one-line text in a part without header fields becomes header text and its body is empty |
| `Mime.PartsHaveNoMarker` | ARCHIVE/aven-mail/src/rfc822.js:95-129 | no part of any body contains a delimiter line |
| `Mime.SplittingIsStable` | ARCHIVE/aven-mail/src/rfc822.js:95-129 | printing the parts of any body and splitting again gives the same parts |
| `Download.SeparateMeansDistinctStems` | app/src-tauri/src/assets.rs:126 | part files are kept apart if and only if destinations differ in more than their extension and none is a part file |
| `Download.MissingIsExact` | app/src-tauri/src/assets.rs:75 | the missing items are exactly those without a destination |
| `Download.CountFollows` | app/src-tauri/src/assets.rs:150-166 | fetching one file changes the count of finished and partial bytes by what changes of that file |
| `Download.Downloader.Stream` | app/src-tauri/src/assets.rs:155-167 | the reading loop: the part stays a prefix, and the running count equals finished bytes plus bytes in remaining parts at every report |
| `Download.Downloader.Fetch` | app/src-tauri/src/assets.rs:122-174 | one file, interrupted anywhere: the destination is absent or exact, the part a prefix, the count exact and never negative; a stuck part is refused by a server that honours ranges, and only dying before the rename leaves one |
| `Download.Downloader.FetchAll` | app/src-tauri/src/assets.rs:105-110 | wherever the loop ends, the count equals what is on disk, and it ends early only for a loss or a stuck part |
| `Download.Downloader.EnsureFiles` | app/src-tauri/src/assets.rs:74-114 | any session keeps every destination absent or exact and every part a prefix; the last report is the total size of the missing files; a cooperative session succeeds if and only if no server refuses a stuck part |
| `Download.Downloader.EnsureRepeatedly` | app/src-tauri/src/assets.rs:74-174 | any number of interrupted sessions lose nothing, and unless one died before a rename, a session in which everybody delivers completes the list |
| `Download.Downloader.DieBeforeTheRename` | app/src-tauri/src/assets.rs:130-137 | a session that dies before the rename leaves a part that no later session gets past while the server honours ranges |
| `TokenCache.ServiceTokenCache.Get` | app/src-tauri/src/service_token.rs:33-68 | one call changes the cache and answers as specified, from the cache or by an exchange |
| `TokenCache.EntryWasMinted` | app/src-tauri/src/service_token.rs:33-68 | a cached entry was minted for its session by an earlier call, and since then nothing but its reuse has happened |
| `TokenCache.ReturnedTokenIsFresh` | app/src-tauri/src/service_token.rs:44-52 | over any run of get and clear an answer was minted for that session by a call since which there was nothing but its reuse, less than 60 s ago or just now, with more than 15 s of life left |
| `TokenCache.ReplyIsExact` | app/src-tauri/src/service_token.rs:33-68 | main result: for any run, a call answers from the cache exactly when an earlier exchange is still good and was only reused since, and otherwise with the token of its own exchange exactly if that has more than 15 s of life left; a failed exchange forgets the entry |
| `TokenCache.ExchangesAreSpaced` | app/src-tauri/src/service_token.rs:61-66 | in a steady run each exchange comes at least 60 s after the one before |
| `TokenCache.ExchangeRateIsBounded` | app/src-tauri/src/service_token.rs:33-68 | exchanges over elapsed time T number at most 1 + T/60 |
| `TokenCache.SeventyFiveSecondsAreNotEnough` | app/src-tauri/src/service_token.rs:57-66 | with lifetimes of exactly 75 s the rate bound fails |
| `StationRail.TreeIsHeaded` | scripts/lib/deployment-bootstrap-tui.ts:143-172 | in the full tree each station stands beneath its own chapter and nearest preceding subchapter, in order, the current one and its headings marked, and each heading is new where it stands |
| `StationRail.PickKeepsHeadings` | scripts/lib/deployment-bootstrap-tui.ts:185-198 | leaving out rows that govern nothing visible keeps every station under its headings |
| `StationRail.BuildTree` | scripts/lib/deployment-bootstrap-tui.ts:143-172 | the loop with its two running headings builds the specified tree |
| `StationRail.FindContext` | scripts/lib/deployment-bootstrap-tui.ts:175-184 | finds the current row, its chapter and its subchapter within that chapter |
| `StationRail.ChooseWindow` | scripts/lib/deployment-bootstrap-tui.ts:185-198 | the window is full or ends with the tree, starts beneath the headings that govern it, and has half of it before the current row where that one is too far from its headings |
| `StationRail.StationTreeRows` | scripts/lib/deployment-bootstrap-tui.ts:133-206 | main result: at most maxRows rows, all used unless the last station is shown; the current station among them, indices increasing and none left out in between, every station under its own headings; the whole tree when it fits; errors exactly for a bad station or fewer than five rows |
| `HostRewrite.SubstituteIsRename` | deploy/runtime/prepare.py:111-112 | one regular-expression substitution is a renaming by one rule |
| `HostRewrite.RenamingsCompose` | deploy/runtime/prepare.py:107-113 | renaming by one set of rules and then another equals renaming by both at once, when no new name ends in another service's name |
| `HostRewrite.ServicesDoNotClash` | deploy/runtime/prepare.py:20-21 | no service is a prefixed form of another, although some are prefixes of others |
| `HostRewrite.ServicesAreGoodNames` | deploy/runtime/prepare.py:20-21 | the services satisfy the condition of the composition laws under every runtime id |
| `HostRewrite.Rewrite` | deploy/runtime/prepare.py:107-113 | the loop over names with its early return equals the simultaneous renaming |
| `HostRewrite.RenamesExactlyTheHosts` | deploy/runtime/prepare.py:107-113 | main result: a value that is a name is renamed as a whole; in any other text exactly the names that stand behind // or @ and before : or / are, stated on positions of the text |
| `HostRewrite.JsonCompose` | deploy/runtime/prepare.py:107-116 | the composition law for nested values |
| `HostRewrite.InTurnIsSimultaneous` | deploy/runtime/prepare.py:105-116 | main result: one name after another in any order equals one simultaneous renaming of the whole value |
| `HostRewrite.RenamingIsIdempotent` | deploy/runtime/prepare.py:105-116 | renaming again changes nothing: no name is renamed twice |
| `Icns.NormalizeIcns` | scripts/generate-app-icons.ts:167-189 | parsing, sorting and writing leave the file alone or write exactly the specified bytes |
| `Icns.KeysCompareAsText` | scripts/generate-app-icons.ts:170-182 | types compare as four-character text, the first different character deciding |
| `Icns.FilledIsWritten` | scripts/generate-app-icons.ts:167-189 | main result: an icns file, recognised by its first four characters, whose chunks lie one after the other up to its last seven bytes is written with its chunks in order under a header that states their length |
| `Icns.LeftAloneIff` | scripts/generate-app-icons.ts:168-180 | exactly all other files are left alone |
| `Icns.SortLaw` | scripts/generate-app-icons.ts:182 | the order is ascending and stable, so the first chunk of each type stays first, and the chunks are the same |
| `Icns.ParseUndoesConcat` | scripts/generate-app-icons.ts:174-183 | parsing a concatenation of whole chunks gives them back |
| `Icns.WrittenIsCanonical` | scripts/generate-app-icons.ts:167-189 | main result: the output parses back to the sorted chunks, same multiset, same order within each type |
| `Icns.LengthIsKeptByTiles` | scripts/generate-app-icons.ts:174-187 | the length is kept if and only if the chunks tile the buffer; otherwise fewer than eight bytes go |
| `Icns.TrailingBytesAreLost` | scripts/generate-app-icons.ts:174 | up to seven bytes behind a bare header are dropped |
| `Icns.HeaderIsRight` | scripts/generate-app-icons.ts:184-186 | the output is an icns file whose header states its length |
| `Icns.NormalizingIsIdempotent` | scripts/generate-app-icons.ts:167-189 | a second pass changes nothing |
| `Icns.OrderDoesNotMatter` | scripts/generate-app-icons.ts:164-166 | two orderings of the same chunks of distinct types become the same bytes |
| `JsonPath.Draft.ValueAt` | scripts/lib/deployment-bootstrap-guided.ts:569-576 | the loop reads what the path leads to, undefined once it leaves the objects |
| `JsonPath.Draft.SetValueAt` | scripts/lib/deployment-bootstrap-guided.ts:578-591 | an empty path is an error and changes nothing; otherwise the store becomes the specified one and stays free of aliases |
| `JsonPath.PathsAreUnique` | scripts/lib/deployment-bootstrap-guided.ts:569-576 | without aliasing two different paths never reach the same object |
| `JsonPath.PutLaw` | scripts/lib/deployment-bootstrap-guided.ts:578-591 | main result: after a set, every path at or below reads the new value, every path above an object, every other path what it read before, even where a scalar or array was replaced |
| `JsonPath.OverwrittenIsFree` | scripts/deployment-bootstrap-guided.ts:2048-2081 | overwriting detaches the old value without changing anything below it |
| `JsonPath.AcceptedRotationReplacesBoth` | scripts/deployment-bootstrap-guided.ts:2081-2093 | an accepted rotation changes the two fields and nothing beside them |
| `JsonPath.RejectedRotationRestores` | scripts/deployment-bootstrap-guided.ts:2081-2091 | main result: after a rejected rotation of a credential and its companion a path reads what it read before if and only if it is not strictly above a field or read an object before |
| `JsonPath.RejectedSingleRestores` | scripts/deployment-bootstrap-guided.ts:2081-2091 | the same for a credential without a companion |
| `JsonPath.ScalarAboveIsLost` | scripts/deployment-bootstrap-guided.ts:2081-2091 | a scalar on the way to the field does not come back |
| `JsonPath.Draft.RotateCredential` | scripts/deployment-bootstrap-guided.ts:2048-2093 | set the field and its companion, if it has one, verify, and put them back on failure, with the laws above |
| `LineFramer.SplitIsExact` | scripts/deployment-bootstrap-guided.ts:966-967 | lines and residue join to the text, and none holds a line break |
| `LineFramer.SplitConcat` | scripts/deployment-bootstrap-guided.ts:965-967 | splitting the residue with the next chunk continues the splitting of the whole |
| `LineFramer.Console.Receive` | scripts/deployment-bootstrap-guided.ts:963-986 | one chunk: the log, the screen, the last update and the quoted lines grow as specified, and the other stream's residue is untouched |
| `LineFramer.Console.Finish` | scripts/deployment-bootstrap-guided.ts:989-993 | the residue is logged as a plain line, never as an event |
| `LineFramer.FramingIgnoresChunks` | scripts/deployment-bootstrap-guided.ts:956-988 | main result: however both streams are cut and interleaved, each has logged exactly the complete lines of its text, and holds back the rest |
| `LineFramer.WholeStreamIsLogged` | scripts/deployment-bootstrap-guided.ts:956-994 | an ended stream has logged what splitting its whole text once gives |
| `LineFramer.StreamIsLoggedByKind` | scripts/deployment-bootstrap-guided.ts:963-994 | main result: an ended stream, however cut and interleaved, has logged exactly its lines that are neither events nor blank, redacted and in order, its events as updates, and a complaint for each malformed event |
| `SenderRules.NormalizeWhitelistedMails` | ARCHIVE/aven-mail/src/inbound-smtp.js:107-132 | the loop and the expansions build the specified whitelist, or none |
| `SenderRules.ExpandGmailGooglemailMirror` | ARCHIVE/aven-mail/src/inbound-smtp.js:80-100 | both Gmail hosts stand for each other, in wildcards and in addresses, and nothing else is added |
| `SenderRules.BuildGmailCanonicalLocalSet` | ARCHIVE/aven-mail/src/inbound-smtp.js:62-72 | exactly the canonical local parts of the Gmail addresses |
| `SenderRules.MatchesWildcard` | ARCHIVE/aven-mail/src/inbound-smtp.js:140-145 | true exactly when a listed host is the domain or a parent of it |
| `SenderRules.Inbound.OnMailFrom` | ARCHIVE/aven-mail/src/inbound-smtp.js:258-300 | the reply is that of whitelist and limiter, and only a sender let through takes a slot |
| `SenderRules.PermissionIsExact` | ARCHIVE/aven-mail/src/inbound-smtp.js:107-145 | main result: a whitelist lets in exactly what its raw entries cover one by one |
| `SenderRules.GmailPermissionIsCanonical` | ARCHIVE/aven-mail/src/inbound-smtp.js:52-145 | on a Gmail host only the canonical local part counts, besides the wildcards for gmail.com, googlemail.com and com |
| `SenderRules.SpellingsAgree` | ARCHIVE/aven-mail/src/inbound-smtp.js:258-290 | either host, dots and tags make no difference to the reply |
| `SenderRules.DecisionIsExact` | ARCHIVE/aven-mail/src/inbound-smtp.js:258-290 | the reply in terms of the raw entries, malformed senders and an empty whitelist included |
| `SenderRules.WildcardIff` | ARCHIVE/aven-mail/src/inbound-smtp.js:36-119 | an entry is a wildcard for a host exactly if it is @ and a name that decodes to that host |
| `SenderRules.AddressIff` | ARCHIVE/aven-mail/src/inbound-smtp.js:36-125 | an entry is an address exactly if it is a non-empty local part, @ and a name that decodes to its host |
| `SenderRules.UnderIff` | ARCHIVE/aven-mail/src/inbound-smtp.js:140-145 | a domain is under a host exactly if it is the host or ends in a dot and the host |
| `SenderRules.CanonicalLaw` | ARCHIVE/aven-mail/src/inbound-smtp.js:52-57 | a tag and any dot make no difference to the canonical local part, and nothing else is dropped |
| `SenderRules.MalformedWhitelistAdmitsAll` | ARCHIVE/aven-mail/src/inbound-smtp.js:107-128 | a whitelist whose only entry lacks its @ admits the empty sender |
| `RateLimit.Limiter.TakeSlot` | ARCHIVE/aven-mail/src/inbound-smtp.js:178-188 | one request is admitted and the buckets change as specified |
| `RateLimit.EveryWindowIsBounded` | ARCHIVE/aven-mail/src/inbound-smtp.js:178-188 | in every window that a run opens an address is granted at most the limit |
| `RateLimit.AnyStretchIsBounded` | ARCHIVE/aven-mail/src/inbound-smtp.js:178-188 | main result: any half-open stretch as long as a window holds at most twice the limit less one admissions per address |
| `RateLimit.RefusalMeansFullWindow` | ARCHIVE/aven-mail/src/inbound-smtp.js:178-188 | a refusal means that the current window already granted the limit |
| `RateLimit.BoundIsAttained` | ARCHIVE/aven-mail/src/inbound-smtp.js:178-188 | the bound is reached |

## Left out

- Others at work during a run are part of the deployment results, of `CohortStaysWithin`, `RunActsOnItsListing`, `ChangedCustomerStopsTheRun` and `CountMeansPlaced`; convergence, the conservation of begins and generations and the movements left behind are stated for runs without them.
- `Movement.Authority.BeginMovement`: the desired and observed state of a customer, running provisioning, retired runtimes, the repetition of a begin with the same identifier, the acceptance of divergence and the lock of another controller, each of which can only refuse a call; `rollout-test.py` releases the hold at completion, the store at activation, and the store is followed.
- `Movement.Authority.ResumeMovement`: fencing, dumping, restoring and checking a database are the phases they end in; component evidence, and a destination that already has a database of the same name, can only stop a movement in its phase. A customer suspended while held is not modelled, which can refuse its activation.
- Movements and edits by hand are assumed to aim at runtimes listed in the operator configuration, which is what the operator command reads.
- One installation target: the version and target fields of the registry, of the fleet file and of prepared runtimes are not modelled in `Deployment.dfy`.
- Adoption of a predecessor installation (`transition.adopt`): it archives the predecessor and starts from customers who exist before there is any registry, so the histories here begin with a new installation.
- Container start-up, health checks and backups are steps that may fail; they write none of the modelled facts.
- `Recovery.AdmissionIsExact`: histories are without edits by hand. The provisioner stamps a copy at once, between two other events; which components a copy holds, and a database that is created but not restored yet, are not modelled.
- `merge_control`, `configure_backup`, `retain_input` and `check_capacity`: they compute inputs of the modelled writes.
- `verify_prepared` and the credentials generated by `prepare`: a prepared runtime is modelled by the entry it was prepared as.
- Customer identifiers are positions and operation identifiers are counters; uniqueness of random identifiers is taken as given.
- SHA-256 is a symbolic, injective function and the rendering of JSON and Compose files is abstract; file permissions and symbolic links are not modelled.
- A release directory is written in one atomic rename; the temporary directories before it are not modelled.
- Provider error texts are reduced to the sets of bucket kinds they name.
- `BucketReconcile.Reconcile`: both kinds are confirmed, as the one caller passes them; `Turn` is for any confirmed kinds. Delays and notifications have no effect on the decisions and are left out.
- Storage listings after a deletion may still report a bucket; they are assumed never to miss an existing one.
- `Uninstall.Providers.Run`: other users of the same provider accounts during a run, subscriptions that begin meanwhile and the lock of a stale local process are not modelled; the order of a listing does not change while items go.
- `Download.Downloader.EnsureFiles`: assumes unchanged remote content and end of stream only at the true end; file system errors other than a failed rename are not modelled.
- `TokenCache.ServiceTokenCache.Get`: the cache is serialised by its mutex, so calls are a sequence; a poisoned mutex, the saturation of clock arithmetic at its maximum and the parsing of tokens are not modelled.
- Header parsing in mail, transfer encodings and character sets are abstract or left out; a header block is mapped to an optional boundary by any function.
- `Mime.FlattenUndoesPrint`: parts are printed throughout with CRLF or throughout with LF, the latter for texts without any CR, and with the separating line break, which the grammar makes optional for a part without a body; whitespace between a delimiter and the end of its line is not printed, since the code does not skip it.
- `wrapTerminalText`, the drawing of the rail and truncation of labels.
- `HostRewrite.Rewrite`: the two regular expressions are modelled as a left-to-right scan; JSON objects are ordered pairs.
- `JsonPath`: inherited properties of JavaScript objects are not modelled; arrays are never entered, as in the code. Answers are stored as strings, which is the only kind of value the wizard sets besides restored ones.
- `savedWizardResumeIndex` and the rest of the wizard's navigation.
- UTF-8 decoding of output streams: chunks are characters already.
- Unicode lower-casing, trimming and host decoding are parameters; host decoding is assumed to bring in no `@`.
- Connection counting, recipient rules and message handling of the inbound server.
- Clocks that run backwards in the limiter.
