# Verified model of the GitOpsSets controller

A GitOpsSet names generators and templates. The controller renders one object per generated element and
template, drives the cluster toward the rendered list, and remembers in a stored inventory which objects
it answers for. This project models that controller in Dafny and proves what its runs keep.

`dafny verify dfyconfig.toml` checks everything.

## What is modelled

**The reconcile protocol.** `Controller` holds the API server, the loaded GitOpsSet and the reconciler as
classes; its methods follow the Go methods call by call, and each is proved equal to a function on values
(`Apply`, `Protocol`). Everything a run learns from outside is an arbitrary *script*: which calls fail,
what rendering yields, in which order the set library lists refs. NotFound and AlreadyExists are not
chosen, they follow from the cluster. `Protocol` adds the moves of everyone else, and histories interleave
runs of any number of sets with such moves. `Interleaving`, `Foreign` and `Exclusive` take runs apart into single API calls, so
that runs of different sets interleave call by call.

The cluster is keyed by ID, an inventory entry is an ID with a version, and set difference compares
entries: a version change prunes the old entry and so deletes the object under the same ID. Each live object
carries a history variable `creator`, the set whose Create call made it, which no modelled code reads.

**The matrix generator.** `Odometer` and `Matrix` prove the in-place index loop against a recursive
product; `Grouping` does single-element mode; `Interval` the requeue interval over the generator tree.

**Rendering and the watch index.** `Stream` and `Render` show that the nested loops with one running
counter are a flat stream; `Index` proves non-interference: changes that enqueue nothing cannot change a render. `EndToEnd`
joins the two halves: there the protocol's rendering and interval are the ones computed from the set's spec.

| file | source |
|---|---|
| `Objects`, `Listing`, `Wrappers` | values, refs, clusters, the overlay that updates store, sorted listings |
| `Apply`, `ApplyProofs`, `Ownership`, `Exactness`, `Order`, `Manifests`, `Convergence` | renderAndReconcile and removeResourceRefs |
| `Protocol`, `Runs`, `NoOrphansProofs`, `ManySets`, `Disjoint`, `Effects`, `LifeCycle`, `Hazards` | Reconcile over whole histories |
| `Interleaving`, `Foreign`, `Exclusive` | Reconcile call by call |
| `Controller` | the imperative controller |
| `Odometer`, `Matrix`, `Products`, `Grouping`, `Generators`, `Yields`, `Interval`, `Requeue` | generators |
| `Stream`, `Render`, `Index` | rendering and watches |
| `EndToEnd`, `Steady` | Render, calculateInterval and Reconcile together, once and over and over |

The loops are proved equal to functions on values. What those functions mean is stated apart from them, in terms of
the inputs and with the source's own keys and constants: `Objects.OverlayMeans` and `StackMeans` for updates, `Runs` for
each branch of Reconcile, `Products` for the Cartesian product, `Grouping.GroupedMeans` for single-element mode, `Yields`
for what entries generate, `Requeue` for intervals, `Render.IsFixedUp`, `IsCopy` and `FlattenedMeans` for rendered blocks,
`Index.RefsMean` for the watch index, and `Steady.AllStored` for what a converged set has on the cluster.

## Assumptions about the API server

- Reads are fresh, deletion is immediate, and a call that reports failure had no effect.
- Patching from the object just read stores the target body. In `Interleaving`, patching an object that has
  changed since it was read stores an arbitrary body.
- An object under deletion takes no new finalizer and leaves with its last one. A stale metadata update is refused.
- One set has at most one run at a time. Nobody else writes its status or this controller's finalizer.
- The printed object ID is injective and parsing undoes printing; IDs are opaque strings here.
- Different IDs are different objects. The renderer gives every kind but Namespace a namespace
  (controllers/templates/renderer.go:166-170), so for a cluster-scoped kind other than Namespace this excludes rendering
  one object under two namespaces.
- An object read by generators has one fate per render: every Get of it succeeds, or every Get fails with one error.

## Where the code falls short of a plain reading of its promise

Each item names the theorem that says exactly when it happens and a lemma at a concrete input.

- A deletion that fails while pruning drops its ref from the inventory, and a status write that fails after
  a Create loses the new ref (`OrphanFreeIff`; `FailedDeletionOrphans`, `FailedStatusWriteOrphans`).
- A run that deletes objects and then cannot make its last write, like a finalize that cannot remove the finalizer,
  leaves an inventory that names freed IDs, and a retry deletes whatever has taken them since
  (`StepKeepsOwnsIff`, `FinalizeSparesOthersIff`; `FinalizeRetryHitsAnotherSet`).
- A rendered ID held by an object outside the inventory makes every run fail (`TwoRunConvergence`; `ForeignHolderFailsRun`).
- A new version of a live object that is rendered twice makes the first two runs fail instead of only the first
  (`TwoRunConvergence`; `StaleDuplicateFailsTwice`).
- An error-free run can list an object it has just deleted, exactly when a dropped entry shares its ID with a
  rendered one (`ListedObjectsExistIff`; `ErrorFreeRunListsDeleted`).
- A set that has lost this controller's finalizer but is kept by another one still stores its inventory. Other sets may
  come to list the same IDs, exactly when a run stores what it created under one of them; the retired set never acts on
  its inventory (`DisjointOverHistories`, `RetiredIsInert`; `RetiredInventoryMayOverlap`).
- Single-element mode loses the elements of a generator named "Matrix" exactly when unnamed elements exist
  (`SingleElementConserves`; `ElementNamedMatrixIsLost`).
- docs/README.md:95-96 calls ElementIndex the index into the generated elements. The code advances it per
  template, so this holds exactly with at most one template or nothing generated (`ElementIndexIsElementNumberIff`). The model follows the code.
- An empty path list in a nested repository generator disappears in the JSON round trip of makeGitOpsSetGenerator,
  and the nested generator behaves as if it were absent (`NestedIsTopLevelIff`; `EmptyFilesFallThrough`). The model follows the code.

## Model

| member | source | states |
|---|---|---|
| Objects.CopyUnstructuredContent | controllers/gitopsset_controller.go:701-717 | Every key of the new content but status, metadata, kind and apiVersion is stored with its new value; those four, and every key the new content lacks, are as in the existing object; labels and annotations are the new ones, the remaining metadata the old. |
| Objects.OverlayMeans | controllers/gitopsset_controller.go:705-714 | The same of the function that the laws about updates speak of. |
| Objects.StackMeans | controllers/gitopsset_controller.go:705-711 | After any number of updates each key has the value of the last one that mentions it, and the four keys and unmentioned ones are as they were. |
| Objects.StackIsOneOverlay | controllers/gitopsset_controller.go:701-717 | Any number of updates amounts to one: later content keys win, the last labels and annotations stand, the remaining metadata survives. |
| Objects.StackTwice | controllers/gitopsset_controller.go:701-717 | Replaying a whole sequence of updates changes nothing: e+a+b+a+b = e+a+b. |
| Objects.StackAbsorbsFirst | controllers/gitopsset_controller.go:261-263 | Updating an object with the manifest it was created from, before further updates, changes nothing. |
| Objects.StackKeepsStatus | controllers/gitopsset_controller.go:705-711 | No number of updates adds, removes or changes kind, apiVersion, status or the remaining metadata. |
| Listing.SortedList | controllers/gitopsset_controller.go:304-306 | The returned list holds each entry once, sorted by ID. |
| Listing.SortedListingIsUnique | controllers/gitopsset_controller.go:304-306 | With one version per ID the stored list is determined by the set of entries. |
| Listing.BelowMeans | controllers/gitopsset_controller.go:304-306 | IDs are ordered at the first character in which they differ, a proper prefix coming first. |
| ApplyProofs.AttemptFacts | controllers/gitopsset_controller.go:245-291 | Under every failure pattern one iteration never removes or re-owns an object, leaves an unlisted existing one alone and unentered, and enters every object it creates. |
| ApplyProofs.LoopKeepsInvariant | controllers/gitopsset_controller.go:244-291 | The apply loop's invariant: nothing disappears or changes hands, unlisted and unrendered objects are untouched, whatever appeared is the owner's and entered, new entries have one version per ID. |
| ApplyProofs.RemovalIsPrefix | controllers/gitopsset_controller.go:321-338 | Deletion removes exactly the refs before the first failing one and reports that failure, or none. |
| ApplyProofs.RetryAbsorbsPartialRemoval | controllers/gitopsset_controller.go:321-338 | A successful retry after a partial removal ends where an undisturbed removal would have. |
| Ownership.ForeignUntouched | controllers/gitopsset_controller.go:252-302 | An object whose ID the inventory does not name survives a pass unchanged, under every failure pattern, even if it is rendered. |
| Ownership.OrphansOfStoredPass | controllers/gitopsset_controller.go:299-306 | The exact set of objects left unlisted when the new inventory is stored, from the cluster, the deletions and the jobs: those behind skipped deletions whose ID no completed deletion had and no listed ref renders again. |
| Ownership.OrphansOfUnstoredPass | controllers/gitopsset_controller.go:197-203 | The exact set left unlisted when the status write fails: objects created under IDs the old inventory lacks. |
| Ownership.ReenteredIsEntered | controllers/gitopsset_controller.go:252-259 | Of the listed refs, the loop enters exactly those rendered again whose ref can be formed and parsed. |
| Ownership.AppearsIff | controllers/gitopsset_controller.go:275-290 | A free, unlisted ID is taken after the loop exactly when some job for it fails neither in its ref, nor in logging, nor in Create. |
| Ownership.FailuresNeverDropRendered | controllers/gitopsset_controller.go:258-272 | A ref that is listed and still rendered stays listed whatever fails in Get, Patch, Create or Delete, and with one version per ID its object stays. |
| Ownership.PassKeepsOwnershipIff | controllers/gitopsset_controller.go:244-306 | If the inventory names exactly the set's live objects, one version each, then it does so after a pass if and only if no deletion of the pass fails, whatever else fails. |
| Ownership.UnstoredPassKeepsOwnershipIff | controllers/gitopsset_controller.go:197-203 | If the pass's inventory cannot be stored, exact ownership is kept if and only if the pass deletes nothing and no job can create an object. |
| Exactness.ErrorFreeIffNothingInTheWay | controllers/gitopsset_controller.go:252-290 | With an API that raises no fault, the loop is error-free exactly when every unlisted rendered ref finds its ID free and not rendered before; duplicates of unlisted refs fail. |
| Exactness.AttemptSucceedsIff | controllers/gitopsset_controller.go:245-291 | One iteration reports no error exactly if every call it makes for its object succeeds and a Create finds the ID free. |
| Exactness.ErrorFreeIffAllGoThrough | controllers/gitopsset_controller.go:244-291 | Under every failure pattern the loop is error-free exactly if that holds for each job, given the cluster and the jobs before it. |
| Exactness.ErrorFreePassIff | controllers/gitopsset_controller.go:239-306 | A pass is error-free exactly if every job goes through and no call of a deletion fails. |
| Exactness.ErrorFreeLoop | controllers/gitopsset_controller.go:244-291 | A loop without errors enters exactly the rendered refs, and every object is the stack of the layers rendered for its ID. |
| Exactness.ErrorFreePassIsExact | controllers/gitopsset_controller.go:239-306 | An error-free pass lists exactly the rendered refs, once and sorted; all are on the cluster, exactly the dropped ones are gone, everything else is as it was. |
| Exactness.ListedObjectsExistIff | controllers/gitopsset_controller.go:299-306 | After an error-free pass every listed object exists if and only if no dropped entry shares an ID with a rendered one. |
| Exactness.RepeatedPassIsIdle | controllers/gitopsset_controller.go:252-267 | Fixpoint with duplicate refs included: repeating an error-free pass over the same list changes neither cluster nor listing and reports nothing. |
| Order.Locality | controllers/gitopsset_controller.go:244-291 | Jobs for other IDs, failing or not, have no influence on the object and entries at an ID. |
| Order.ErrorsAreLocal | controllers/gitopsset_controller.go:244-291 | A loop is error-free exactly when the jobs of each ID alone are. |
| Order.OrderIndependence | controllers/gitopsset_controller.go:244-306 | Two passes with the same jobs per ID in any interleaving, and any deletion order, agree on cluster, entries and whether they fail. |
| Order.PermutationIndependence | controllers/gitopsset_controller.go:244-306 | Permuting a list with distinct IDs changes neither the final cluster, nor the inventory list, nor whether the run fails. |
| Convergence.EnteredIff | controllers/gitopsset_controller.go:252-290 | With one version per rendered ID, duplicates allowed, and without faults, a rendered ref is entered exactly when it was listed or its ID was free. |
| Convergence.FirstRunClearsTheWay | controllers/gitopsset_controller.go:299-302 | With no foreign holder, one fault-free run prunes stale versions, after which every rendered ref is listed or free, and nothing is in the way of the next run exactly if no stale ID is rendered twice. |
| Convergence.ForeignBlocksForever | controllers/gitopsset_controller.go:280-287 | A rendered ID held by an unlisted object fails this run and every later one. |
| Convergence.TwoRunConvergence | controllers/gitopsset_controller.go:230-307 | With one version per rendered ID, duplicates allowed, from any inventory: the second fault-free run is error-free if and only if no rendered ID is held by a foreign object and no stale ID is rendered twice, every later one if and only if there is no foreign holder; then exactly the rendered refs are listed, all objects say what their manifests say on every key but four, and runs from the third (fourth, if a stale ID is rendered twice) on change nothing. |
| Manifests.AsRenderedMatches | controllers/gitopsset_controller.go:261-263 | An object on which replaying its updates changes nothing has, under every key but status, metadata, kind and apiVersion, the value of the last manifest with that key, and the last manifest's labels and annotations. |
| Manifests.DistinctAsRendered | controllers/gitopsset_controller.go:261-263 | With distinct IDs, as rendered means that updating any rendered object once more changes nothing. |
| NoOrphansProofs.RunWithoutErrorIsCareful | controllers/gitopsset_controller.go:169-207 | A run that returns no error had no failing deletion or status write. |
| NoOrphansProofs.OrphanFreeIff | controllers/gitopsset_controller.go:169-207 | The exact condition for an applying run to leave every created object listed, read off the world before it, the deletions and the rendered jobs, with and without a stored status. |
| NoOrphansProofs.CarefulRunKeepsNoOrphans | controllers/gitopsset_controller.go:104-208 | A run whose deletions and status write succeed keeps every created live object in its set's stored inventory, whatever else fails. |
| NoOrphansProofs.CarefulIsTidy | controllers/gitopsset_controller.go:169-207 | A run that returns no error, or whose deletions and status write succeed, satisfies the exact condition below. |
| NoOrphansProofs.StepKeepsNoOrphansIff | controllers/gitopsset_controller.go:104-208 | Any single run or move of others keeps all created objects listed if and only if it is not an applying run that loses something. |
| NoOrphansProofs.NoOrphansOverHistories | controllers/gitopsset_controller.go:104-208 | Over whole histories of any sets, with arbitrary failures and interference between runs, all created objects are listed at every point if and only if every event meets that condition when it happens. |
| ManySets.OnlyListedTouched | controllers/gitopsset_controller.go:104-208 | An object whose ID the set's inventory does not name survives every run of it unchanged, reconcile or finalize. |
| ManySets.OthersUntouched | controllers/gitopsset_controller.go:252-338 | Under exact ownership no run, whatever fails, changes or deletes an object that its set did not create. |
| Disjoint.StepStaysDisjointIff | controllers/gitopsset_controller.go:293-307 | One orderly event keeps all stored inventories pairwise ID-disjoint, those of sets without the finalizer included, if and only if it does not store an object created under an ID that such a set still names. |
| Disjoint.DisjointOverHistories | controllers/gitopsset_controller.go:104-208 | Over every orderly history all stored inventories are disjoint at every point if and only if no event does that. |
| Disjoint.NewlyListedIsTaken | controllers/gitopsset_controller.go:275-290 | The IDs that a run newly lists are exactly the free ones its jobs take. |
| ManySets.RetiredIsInert | controllers/gitopsset_controller.go:117-125 | A set under deletion whose finalizer is gone never changes anything, whatever its inventory names, and stays so until it is gone. |
| ManySets.StepKeepsOwnsIff | controllers/gitopsset_controller.go:104-208 | Any single run or move of others keeps exact ownership if and only if it is orderly, a condition on the world before it, the failing calls and the rendered jobs. |
| ManySets.OwnershipOverHistories | controllers/gitopsset_controller.go:104-208 | For any interleaving of runs of any sets and moves of others, every inventory is at every point exactly the live objects its set created, one version each, if and only if every event is orderly when it happens. |
| ManySets.NoTrespassing | controllers/gitopsset_controller.go:252-338 | At any point of such a history no set patches or deletes another's object. |
| Effects.RunOnPresentObject | controllers/gitopsset_controller.go:252-338 | The exact fate, in any world and under every failure pattern, of each object that is there before a run: gone if a deletion of its ID was carried out, otherwise under the stack of its patches. |
| Effects.SparesOthersIff | controllers/gitopsset_controller.go:252-338 | A run spares what its set did not create if and only if no deletion it carries out hits such an object and no such object changes under its patches. |
| Effects.FinalizeSparesOthersIff | controllers/gitopsset_controller.go:439-458 | A finalizing run removes exactly the objects behind its completed deletions, and spares others if and only if none of those has another creator. |
| Runs.UnreadableOrAbsent | controllers/gitopsset_controller.go:108-111 | A set that cannot be read fails the run, an absent one ends it; nothing changes. |
| Runs.Adoption | controllers/gitopsset_controller.go:117-125 | A set without this controller's finalizer has exactly it added and the run asks for a requeue; other fields, sets and the cluster stay. If the update fails or the set is being deleted the run fails and nothing changes. |
| Runs.SuspendedOrWithoutClient | controllers/gitopsset_controller.go:127-144 | A suspended set's run ends at once; without a client the run fails; nothing changes. |
| Runs.Finalization | controllers/gitopsset_controller.go:439-458 | Exactly the objects before the first failing deletion go; without a failure only this finalizer goes, and the set with its last one, and otherwise the set stays and the run fails. |
| Runs.FailedRendering | controllers/gitopsset_controller.go:169-191 | A rendering error changes only the Ready condition, to false, if the status can be written; the run fails unless an artifact is missing. |
| Runs.AppliedStatus | controllers/gitopsset_controller.go:171-207 | An applying run stores the listing, an empty one as none, and whether it was error-free, and nothing else; it finishes with the interval exactly if nothing failed. |
| LifeCycle.ObjectsChangeOnlyUnderFinalizer | controllers/gitopsset_controller.go:115-148 | Objects change only for a set with its finalizer stored and not suspended, and appear only if it is not being deleted and rendering succeeded. |
| LifeCycle.FinalizerGoesLast | controllers/gitopsset_controller.go:439-458 | The finalizer goes exactly in a finalizing run without failures, and then exactly the listed objects are gone. |
| LifeCycle.FinalizeRetryCompletes | controllers/gitopsset_controller.go:443-457 | A failed finalize keeps finalizer and inventory, and a successful retry ends in the very world an undisturbed finalize produces. |
| LifeCycle.SuspendedIsInert | controllers/gitopsset_controller.go:127-131 | A suspended set, even one marked for deletion, touches no object and keeps its inventory. |
| LifeCycle.ReadyMeansApplied | controllers/gitopsset_controller.go:193-207 | A set becomes ready only in an applying run without error, and its inventory is then exactly the rendered refs. |
| LifeCycle.HistoriesKeepInventoriesWellStored | api/v1alpha1/conditions.go:20-27 | Over any history a stored inventory is never present but empty, lists no ref twice and is sorted by ID. |
| LifeCycle.ApplyingIsCycle | controllers/gitopsset_controller.go:169-207 | A run whose status is stored is one step of the convergence theorems. |
| Hazards.FailedDeletionOrphans | controllers/gitopsset_controller.go:299-306 | A concrete run in which a failed deletion leaves a live object in no inventory. |
| Hazards.FailedStatusWriteOrphans | controllers/gitopsset_controller.go:197-203 | A concrete run in which a failed status write leaves a created object in no inventory. |
| Hazards.ErrorFreeRunListsDeleted | controllers/gitopsset_controller.go:299-306 | A concrete error-free run that creates an object, deletes it while pruning its old version, and lists it. |
| Hazards.ForeignHolderFailsRun | controllers/gitopsset_controller.go:280-287 | A concrete run that fails because an unlisted object holds the rendered ID. |
| Hazards.StaleDuplicateFailsTwice | controllers/gitopsset_controller.go:280-287 | A concrete list, a new version of a live object rendered twice, whose second fault-free run fails and whose third does not. |
| Hazards.RetiredInventoryMayOverlap | controllers/gitopsset_controller.go:439-458 | A concrete orderly history, from disjoint inventories, after which a set without the finalizer and a managed one list the same object. |
| Hazards.FinalizeRetryHitsAnotherSet | controllers/gitopsset_controller.go:447-457 | A concrete history in which the retry of a finalize deletes an object that another set has created since. |
| Interleaving.StepIsSafeIff | controllers/gitopsset_controller.go:104-338 | Each single API call keeps every created live object claimed by its run or its inventory, except exactly a failing pruning deletion or status write that leaves an object unnamed. |
| Interleaving.NoOrphansUnderInterleaving | controllers/gitopsset_controller.go:104-338 | With runs of any sets and others' moves interleaved call by call, created objects stay claimed at every point, and listed whenever no run is under way, if and only if every move is careful when it happens. |
| Interleaving.UndisturbedRunIsReconcile | controllers/gitopsset_controller.go:104-208 | Refinement: the calls of a run that nobody disturbs end exactly in the world of the atomic run. |
| Interleaving.DriveLoop | controllers/gitopsset_controller.go:244-291 | The single calls of the apply loop, undisturbed, are the loop. |
| Interleaving.DrivePrune | controllers/gitopsset_controller.go:321-338 | The single calls of pruning, undisturbed, are removeResourceRefs. |
| Foreign.ForeignStaysUntouched | controllers/gitopsset_controller.go:252-338 | For every interleaving of single calls and every failure pattern, an object that no set lists stays unchanged and unlisted unless others edit or delete it. |
| Exclusive.StepKeepsExclusiveIff | controllers/gitopsset_controller.go:104-338 | Each single API call, or move of others, keeps every run's claims exactly its set's live objects if and only if it is orderly. |
| Exclusive.ExclusiveThroughout | controllers/gitopsset_controller.go:104-338 | Over every interleaving of single calls of any sets, claims stay exactly each set's live objects and no patch or delete is ever pending on another's object, if and only if every move is orderly. |
| Exclusive.AimsAtOwn | controllers/gitopsset_controller.go:260-263 | Every pending patch and delete of a run is aimed at a live object that its own set created. |
| Exclusive.IdleExclusiveIsOwns | controllers/gitopsset_controller.go:104-208 | While no run is under way, call-by-call and run-by-run ownership are the same. |
| Controller.LoadedSet.SetReadiness | api/v1alpha1/conditions.go:20-37 | A nil inventory keeps the stored one, an empty one clears it, any other replaces it; the Ready condition is set. |
| Controller.ApiServer.PatchStatus | controllers/gitopsset_controller.go:309-319 | Replaces the status of the freshly read set and nothing else. |
| Controller.Reconciler.RemoveResourceRefs | controllers/gitopsset_controller.go:321-338 | The loop of Delete calls equals the removal function, in cluster and error. |
| Controller.Reconciler.UpdateListed | controllers/gitopsset_controller.go:260-272 | Get, copy and Patch of a listed object: the four ways it ends, and the object stored. |
| Controller.Reconciler.ApplyLoop | controllers/gitopsset_controller.go:244-291 | The loop's cluster, entries and joined errors equal the apply function. |
| Controller.Reconciler.RenderAndReconcile | controllers/gitopsset_controller.go:230-307 | One pass: cluster, returned inventory and error as the pass function says, for a deletion order and listing the set library may produce; a rendering error returns no inventory and touches nothing. |
| Controller.Reconciler.ReconcileResources | controllers/gitopsset_controller.go:210-228 | The same with the interval; a nil inventory always comes with an error. |
| Controller.Reconciler.Finalize | controllers/gitopsset_controller.go:439-458 | Deletes the listed refs, then removes the finalizer, keeping it if a deletion fails. |
| Controller.Reconciler.Reconcile | controllers/gitopsset_controller.go:104-208 | One whole run leaves exactly the world and outcome of the protocol function, for a possible script; the deferred readiness read always finds the condition set. |
| Controller.ScriptIsAnswers | controllers/gitopsset_controller.go:104-208 | The script of that run says of every call and deletion what the environment's answers say. |
| Odometer.NextIndex | pkg/generators/matrix/matrix.go:259-269 | The in-place call adds exactly one to the mixed-radix number and keeps every digit but the leading one below its length. |
| Odometer.CarryAddsOne | pkg/generators/matrix/matrix.go:260-268 | Incrementing a digit and clearing full digits after it adds one. |
| Odometer.GuardIsBelowSize | pkg/generators/matrix/matrix.go:204 | The loop guard on the leading index holds exactly while the number is below the product of the lengths. |
| Odometer.DigitsOfNumber | pkg/generators/matrix/matrix.go:204 | Every number below the product is the reading of an index tuple in range: the loop visits every tuple. |
| Odometer.ReadingIsInjective | pkg/generators/matrix/matrix.go:204 | Different index tuples read as different numbers: no tuple is visited twice. |
| Odometer.EndOfRun | pkg/generators/matrix/matrix.go:234-258 | The run ends at [len(slices[0]), 0, ..., 0]. |
| Matrix.TupleAtReading | pkg/generators/matrix/matrix.go:204-210 | The tuple picked by the indexes is the recursive product's tuple at the position the indexes read as. |
| Matrix.AlreadyExists | pkg/generators/matrix/matrix.go:224-232 | Found exactly when an equal map is among the results. |
| Matrix.FirstOccurrencesFacts | pkg/generators/matrix/matrix.go:212-214 | Deduplication keeps every value and no two equal ones. |
| Matrix.MergeTuple | pkg/generators/matrix/matrix.go:205-210 | The inner loop merges the elements at the indexes, later generators winning. |
| Matrix.ProductLoop | pkg/generators/matrix/matrix.go:194-217 | The odometer loop terminates, indexes in range, and yields the first occurrences of the merged tuples of the recursive product in lexicographic order. |
| Matrix.Cartesian | pkg/generators/matrix/matrix.go:174-218 | The whole function refines the recursive product, whose results the next rows give in terms of what was generated. |
| Products.ResultIffMerge | pkg/generators/matrix/matrix.go:179-217 | A map is a result if and only if for some choice of one element per generator it has exactly the keys contributed, each with the last contributor's value; an unnamed generator contributes its element's keys, a named one its name with the whole element. |
| Products.MergeIsUnique | pkg/generators/matrix/matrix.go:205-210 | A choice determines its map. |
| Products.ResultsInOrder | pkg/generators/matrix/matrix.go:204-214 | No two results are equal, and of two the earlier has a choice that lexicographically precedes every choice of the later. |
| Products.SmallerReadingPrecedes | pkg/generators/matrix/matrix.go:259-269 | A smaller odometer number means a lexicographically smaller index tuple. |
| Matrix.ProductIsAllMerges | pkg/generators/matrix/matrix.go:172-174 | No two results are equal, and a map is a result exactly when it merges one element of every generator. |
| Matrix.NamedMerge | pkg/generators/matrix/matrix.go:179-210 | Under different names nothing is overwritten: every element reads back under its name and there is nothing else. |
| Matrix.NamedProductIsWhole | pkg/generators/matrix/matrix.go:194-217 | With different names and distinct elements deduplication never fires. |
| Matrix.NamedProductIsLossless | pkg/generators/matrix/matrix.go:194-217 | Then there is one result per index tuple, and the result at a tuple's position gives every chosen element back. |
| Grouping.SingleElement | pkg/generators/matrix/matrix.go:272-302 | The two loops build one map: each name with its elements in order, the unnamed ones under "Matrix". |
| Grouping.GroupedMeans | pkg/generators/matrix/matrix.go:277-299 | The map has a key for every given name and, if there are unnamed elements, "Matrix"; each key holds exactly the elements of the generators of that name, or the unnamed ones, at their places in order. |
| Grouping.SingleElementConserves | pkg/generators/matrix/matrix.go:297-301 | The stored elements are all generated ones if and only if there are no unnamed elements or none named "Matrix"; otherwise exactly the latter are lost. |
| Grouping.ElementNamedMatrixIsLost | pkg/generators/matrix/matrix.go:297-299 | A concrete input on which an element is lost. |
| Grouping.NamesAccountForAll | pkg/generators/matrix/matrix.go:286-295 | Counting by name accounts for every generated element once. |
| Generators.FindRelevantGenerators | pkg/generators/relevant.go:23-44 | Returns the set fields in order if all are enabled, otherwise an error for the first that is not. |
| Generators.GatherLoop | pkg/generators/matrix/matrix.go:125-152 | Collects the non-empty results of all nested generators in order, or the first error; no empty slice is passed on. |
| Yields.GatherOneMeans | pkg/generators/matrix/matrix.go:128-149 | One entry of a matrix adds the non-empty results of the generators it sets, in struct order, under its name, or the first error, a disabled generator coming first. |
| Yields.GatherOfConcat | pkg/generators/matrix/matrix.go:128-149 | Matrix entries are gathered one after the other. |
| Yields.AsEntryMeans | pkg/generators/matrix/matrix.go:157-170 | The round trip keeps every field but the name and empty path lists. |
| Yields.MatrixMeans | pkg/generators/matrix/matrix.go:43-74 | A matrix yields the product or the grouping of what its entries yield, in the terms of the product and grouping rows. |
| Yields.OneYields | pkg/generators/gitrepository/git_repository.go:45-116 | Each generator in terms of its own fields: a list its decoded elements or the first decoding error; a repository the given files, else directories, of its artifact, with the errors for no paths, no repository, a refused read and no artifact; a config its object's data; polled and queried ones the answer to their own request. |
| Yields.OnlyOneGenerator | controllers/templates/renderer.go:221-237 | An entry that sets one enabled generator generates exactly what that generator yields. |
| Yields.GenerateMeans | controllers/templates/renderer.go:221-237 | An entry generates one group for each generator it sets, in struct order, or the first error, a disabled generator coming first. |
| Generators.GenerateMatrix | pkg/generators/matrix/matrix.go:43-74 | The product or the single grouped element of what the nested generators yield, or the first error. |
| Generators.NestedIsTopLevelIff | pkg/generators/matrix/matrix.go:157-170 | A nested repository generator yields what the same top-level one yields, in every environment, if and only if its files are not an empty list, nor its directories one while it has no files. |
| Generators.EmptyFilesFallThrough | pkg/generators/gitrepository/git_repository.go:55-63 | A concrete generator and environment in which the two differ. |
| Generators.GenerateConfig | pkg/generators/config/config.go:36-68 | Agrees with the function whose reads and element the next two rows state, errors for a missing object or unknown kind included. |
| Index.ConfigYieldsSameIff | pkg/generators/config/config.go:48-61 | The Config generator yields the same from two stores if and only if they agree on the one object of its kind and name in the set's namespace. |
| Index.ConfigElementIsData | pkg/generators/config/config.go:75-103 | What it yields is one element with exactly the object's keys, each holding its value as a string. |
| Generators.MapToAnyMap | pkg/generators/config/config.go:95-103 | Every data value becomes a string value under its key. |
| Interval.LeastPositiveMeans | controllers/gitopsset_controller.go:756-763 | Zero exactly when no interval is positive, otherwise the least positive one. |
| Interval.LeastPositiveOfConcat | pkg/generators/matrix/matrix.go:85-116 | Minima of parts combine to the minimum of the whole, which justifies nesting. |
| Interval.MatrixInterval | pkg/generators/matrix/matrix.go:77-117 | The least positive leaf interval of the matrix, or no requeue when a nested generator is not enabled. |
| Interval.CalculateInterval | controllers/gitopsset_controller.go:738-764 | Fails exactly when a top-level generator is not enabled; otherwise the least positive leaf of the flattened tree, in which a matrix with a disabled nested generator counts as absent. |
| Requeue.IntervalMeans | controllers/gitopsset_controller.go:738-764 | The result is the least positive interval that any pull-request or API-client generator of the tree reports, a matrix with a disabled generator reporting none, and 0 exactly if there is none. |
| Requeue.EntryEnabledMeans | pkg/generators/relevant.go:26-41 | An entry is enabled exactly if every generator it sets is. |
| Interval.GeneratedMeansEnabled | pkg/generators/relevant.go:33-41 | An entry that generated successfully has only enabled generators at both levels. |
| Stream.ProcessIsFlat | controllers/templates/renderer.go:47-58 | Processing succeeds exactly when every position does, and concatenates their blocks. |
| Stream.FlatMeans | controllers/templates/renderer.go:47-58 | Concatenation of lists, list by list. |
| Stream.ProcessFailsFirst | controllers/templates/renderer.go:50-53 | Processing ends in an error exactly if that is the error of the first item that fails. |
| Stream.PartsAreOneStream | controllers/templates/renderer.go:40-60 | A stream that comes in parts, with one counter, is one stream. |
| Stream.PartsFailFirst | controllers/templates/renderer.go:41-53 | The same for a stream in parts, each of which may fail to be obtained. |
| Render.FlattenResults | controllers/templates/renderer.go:86-99 | The loops open one level of lists and drop top-level nulls, in order. |
| Render.FlattenedMeans | controllers/templates/renderer.go:86-99 | Flattening goes value by value: a list gives its items, a null nothing, any other value itself. |
| Render.Repeat | controllers/templates/renderer.go:65-112 | One scope per repeated value with RepeatIndex 0..n-1, or a single scope without repetition. |
| Render.FixUpFacts | controllers/templates/renderer.go:163-182 | A fixed-up object keeps all content but status, has the set's namespace exactly if it has none and is no Namespace, and gains the two source labels with the set's name and namespace where it lacks them; kind, version, name, annotations and the remaining metadata stay; fixing up again changes nothing. |
| Render.RenderTemplateParams | controllers/templates/renderer.go:114-189 | The loops compute the block of one (element, template) pair, which the next two rows describe, or its first error. |
| Render.BlockIsBlock | controllers/templates/renderer.go:65-210 | Whatever renderTemplateParams returns for an index is the concatenation of the fixed-up objects of its copies; each copy is executed with exactly the set's name and namespace, the element, that index as ElementIndex and, if the template repeats, its value and its number from 0 as RepeatIndex. |
| Render.BlockFails | controllers/templates/renderer.go:114-189 | If it fails, then for the reason of the first that fails of the repeat expression, the conversion and its copies in order. |
| Render.RenderElement | controllers/templates/renderer.go:49-57 | The templates of one element as a stretch of the stream; the counter advances by the number of templates. |
| Render.Render | controllers/templates/renderer.go:37-63 | The nested loops, calling renderTemplateParams with one running counter, equal processing the entries' parts in order, stopping at the first error. |
| Render.RenderIsFlatStream | controllers/templates/renderer.go:37-63 | For every block function: succeeds exactly when every entry generates and every block renders, and is then the concatenation of one block per pair, each given its position in the whole stream. |
| Render.AllElementsMean | controllers/templates/renderer.go:41-48 | The elements of a set are those of its entries, entry by entry and group by group. |
| Render.IntervalAfterRender | controllers/gitopsset_controller.go:217-227 | After a successful render the interval calculation cannot fail and is the least positive leaf interval. |
| Render.PairPosition | controllers/templates/renderer.go:40-57 | Element e with template t is pair number e times the number of templates plus t. |
| Render.ElementIndexIsElementNumberIff | docs/README.md:95-96 | The documented meaning of ElementIndex holds for all pairs exactly with at most one template or no elements. |
| Index.IndexReferences | controllers/gitopsset_controller.go:557-653 | The index functions return the references of all top-level and matrix-nested generators, printed with the set's namespace. |
| Index.QueryIndexed | controllers/gitopsset_controller.go:522-537 | Requests exactly the sets that match the object. |
| Index.MatchesIffReferenced | controllers/gitopsset_controller.go:525-527 | A set matches exactly when it is in the object's namespace and refers to its name; printing keys as strings loses nothing. |
| Index.RefsMean | controllers/gitopsset_controller.go:557-653 | A set refers to a name exactly if one of its generators, or of its matrices' generators, of that source and kind uses it. |
| Index.SameEntry | pkg/generators/gitrepository/git_repository.go:101-116 | Stores that agree on the watched references of a set make its generators yield the same, errors and missing artifacts included. |
| Index.AgreeingStoresRenderAlike | controllers/gitopsset_controller.go:557-653 | Two stores that agree on every watched reference of a set render alike, errors included. |
| Index.UnqueuedChangesAreInvisible | controllers/gitopsset_controller.go:363-387 | Any number of changes, each of an object that is not watched or whose query does not return the set, cannot change what the set renders to. |
| EndToEnd.RenderFailsFirst | controllers/templates/renderer.go:37-63 | The real render fails if and only if some generator or block fails, and then with the first error in rendering order. |
| EndToEnd.RenderingIsAllOrNothing | controllers/gitopsset_controller.go:169-234 | If any generator or block fails, a run touches no object, keeps the inventory, is not ready if its status could be written, and returns an error if and only if the first error is not a missing artifact; otherwise it applies. |
| EndToEnd.IntervalNeverFailsTheRun | controllers/gitopsset_controller.go:217-227 | After a successful render the interval's error is unreachable: the run fails exactly if a call failed, and otherwise requeues after the least positive interval of the generator tree. |
| EndToEnd.RenderedInOrder | controllers/templates/renderer.go:37-112 | A successful render is one block per (element, template) pair in order; the block at position p has ElementIndex p and its copies have RepeatIndex 0..n-1. |
| EndToEnd.JobsMean | api/v1alpha1/inventory.go:27-37 | The apply loop gets each rendered object under the printed ID of its namespace, name, group and kind, with its version, content, labels and annotations. |
| EndToEnd.UnqueuedChangesChangeNoRun | controllers/gitopsset_controller.go:522-537 | Changes that enqueue nothing for a set leave the possible runs of it the same. |
| EndToEnd.RunOnce | controllers/gitopsset_controller.go:104-228 | Render, calculateInterval and the reconciler together make one run of the protocol; from outside come only the store with the fates of the generators' reads, library code, and the fates of the controller's calls. |
| Steady.RunsConverge | controllers/gitopsset_controller.go:104-208 | Convergence of whole runs of a managed, unsuspended, undeleted set without failing calls: each run after the first returns its interval or an error exactly as above, leaves the set ready with the rendered refs, and from the first idle run on the world, status included, never changes. |
| Steady.NewSetConverges | controllers/gitopsset_controller.go:115-125 | The same one run later for a set that the controller has not adopted: the first run adds the finalizer. |
| Steady.AllIsStored | controllers/gitopsset_controller.go:230-307 | A converged set lists exactly the rendered IDs and versions, and every rendered object is on the cluster and says what was rendered, except under four keys and where a later object with the same ID says otherwise. |
| Steady.SpecConverges | controllers/gitopsset_controller.go:104-228 | The same from a fixed spec and store: the runs finish with the least positive interval of the generator tree, and an error-free one leaves all rendered objects stored and listed as the row before says. |

## Left out

- Cartesian: stated for elements in which no key holds a map in two generators; mergo's deep merge and its sharing of nested values are library code. As generate guarantees (pkg/generators/matrix/matrix.go:145-147), no slice is empty.
- GenerateMatrix: the same restriction on maps under one key of two nested generators, for the same reason.
- RenderedInOrder: likewise gives what the source gives only if no key holds a map in the elements of two generators of one matrix; so do RunOnce and SpecConverges.
- IndexReferences: one method parameterised by source stands for the four index functions, which differ only in the field they read.
- Render: the same restriction on matrix elements; and it uses generation as a function; the generating loops are GenerateMatrix, GenerateConfig and GatherLoop.
- Repeat: JSONPath results are values as decoded from JSON; a result that cannot be nil-tested is not modelled.
- RemoveResourceRefs: the error carries the ref, not the wrapped message.
- Go text/template, sprig, YAML and JSON decoding, JSONPath and template delimiters: one opaque function per block.
- HTTP, tar, file system and SCM access, and what the repository parser reads: opaque functions of the artifact and the paths.
- The string format of object IDs and merge-patch encoding: assumed as stated above.
- Stale caches, asynchronous deletion, API-server defaulting, and creates that time out but took effect.
- Image policy and cluster watches: indexImagePolicies skips the matrix of an entry that also sets an image policy, and selector matching is library code.
- Secrets read by the APIClient and PullRequests generators: polled by interval, not indexed.
- Impersonation clients, metrics, events, logging, LastHandledReconcileAt, observed generation, CRDs and setup.
