# pgoverlay, modelled and proved in Dafny

A model of the three parts of pgoverlay where correctness is least visible in
the code, with proofs of what they promise:

1. **The line diff** (`internal/diffutil`): linear-space Myers search with a
   cost cap, one-sided-line dropping, and unified hunks. The search is proved to
   stay inside its box and to terminate, the script to be a shortest one
   whenever the cap is not reached, and the printed text to be a patch that
   turns the old lines into the new ones.
2. **The copy-on-write layer store** (`internal/registry`, `internal/engine`,
   `internal/cow`): branch, layer and source rows, volumes and containers, as a
   machine of atomic steps that any number of sagas and collectors interleave.
   Writes are isolated, a freeze changes no data, removals take nothing anybody
   depends on as long as their check is not outdated, sagas leave nothing behind,
   the journal replays.
3. **Small concurrent protocols**: the webhook queue, the leadership gate, the
   proxy's cancel keys and startup relay, at-rest key rotation, and schema
   migration by several processes at once.

`dafny verify dfyconfig.toml` checks the whole project. Code that works by
changing state is a class or a method with loops, proved against specification
functions; interleavings are state machines with an inductive invariant and
theorems over every run.

## How the pieces fit

- Diff: `EditGrid` (edit distances on prefixes, furthest-reaching points,
  where two searches meet), `EditScript` and `Shortest` (marks, shortest
  scripts, longest common subsequences), `Differ` (the search), `LineDiff`
  (lines to scripts), `Hunks` and `Unified` (text, its reader, the patch).
- Store: `Names` (volume names), `Overlay` (merged views and mounts), `Layers`
  (chains, reference counts, the cascade), `Store` (the machine), `StoreInv`
  (the invariant every step keeps), `StoreSafety` (isolation and collection),
  `StoreViews` (what branches see, the freeze), `StoreRace` (the two runs that show
  why the theorems have their exception), `Saga` (provision and freeze
  with failing calls), `Journal` (rows and transitions).
- Protocols: `HookQueue`, `DeliveryCache`, `LeaderGate`, `CancelMap`, `Startup`,
  `Secrets`, `Migrate`.

## Hypotheses

- Every registry call is one atomic step. `LiveVolumeSet` is one snapshot, as its
  comment says, although it runs six queries.
- A saga's row snapshot is still current when it wins its transition (the read
  and the transition are separate transactions: freeze.go:43 and :122, saga.go:523
  and :544, saga.go:111 and :127). Rows forced out of creating or resetting, by a
  destroy or by reconcile, have no live saga; what holds and what fails where they
  do is stated by `StoreSafety.ForcedStaysApart` and `ForcedExposesLayer`.
- One refresh of a source runs at a time. The code has no such guard: a second one
  whose volume cannot be created releases the claim of the first
  (engine.go:383-385), and the generation is bumped without asking for a claim.
- The random name of the throwaway branch a schema diff provisions is fresh.
- Source volume names are opaque and distinct. `SourceVolumeName` itself is not
  injective: generation 2 of `main` and generation 1 of `main-g2` share a name.
- A runtime refuses to create a volume that exists, and container names are
  unique. A container may vanish at any time.
- In `Saga`, compensations succeed.
- `Unified` and what it calls ask for inputs whose sizes fit Go's `int` with the
  few words the diagonal arrays add.
- `Secrets` asks of a cipher only that it opens what it sealed and that what it
  opens is no longer than the sealed text, and of a key id that it has no colon.

## Where the code and its comments disagree

The model follows the code.

- `renderHunks` says changes separated by more than 2*contextLines equal lines
  start a new hunk. The code already cuts at exactly six equal lines, because it
  compares indices of changes (diffutil.go:356-360).
- `relayStartup` says everything read from the backend is flushed in either case.
  A partial header, a header with an invalid length and a truncated key body are
  read and not written (relay.go:129-150); `Startup.EarlyEndExactly` says when
  the promise holds.
- `applyAction` re-checks ownership right before deleting, and its comments call
  that safe. The check and the removal are still separate steps, and there are two
  ways in which the check is outdated when the removal comes.
  - The name is recorded again in between
    (`StoreRace.OutdatedCheckRemovesLiveVolume`). `StoreSafety.CollectSafe` and
    `RecordingIsUnsafe` show that a collector's removal is safe up to that moment
    and no longer.
  - A row failed as stuck is taken up again, by a reset or a recover, between the
    swap that failed it and the removal of its volume
    (`StoreRace.OutdatedSweepRemovesLiveVolume`). `StoreSafety.SweepSafe` and
    `TakingUpIsUnsafe` show the same of that moment.

  Every theorem about isolation and freezes names these two removals (`Outdated`
  in `Store`) as its only exception.
- `decrypt` "reverses encrypt". With no primary key it does exactly for passwords
  that do not begin with `enc:` (`Secrets.WithoutPrimaryExactly`).

## Model

| member | source | states |
|---|---|---|
| EditGrid.EdStep | internal/diffutil/diffutil.go:228-331 | neighbouring prefixes differ in distance by exactly one, diagonal neighbours by zero or two |
| EditGrid.EdDiagonal | internal/diffutil/diffutil.go:239-267 | distance never falls along a diagonal, so one furthest point per diagonal says it all |
| EditGrid.Triangle | internal/diffutil/diffutil.go:222-227 | through any point, forward plus backward distance is at least the whole |
| EditGrid.OnShortestPath | internal/diffutil/diffutil.go:222-227 | for every cost there is a point that splits the distance exactly there |
| EditGrid.DistRev | internal/diffutil/diffutil.go:269-297 | the distance of reversed sequences is the same, so the backward search is the forward one on reversed input |
| EditGrid.CutDist | internal/diffutil/diffutil.go:217-220 | the distances of the two halves at a point are the forward and backward distances of that point |
| EditGrid.TrimPrefix | internal/diffutil/diffutil.go:198-201 | dropping a common prefix keeps the distance |
| EditGrid.TrimSuffix | internal/diffutil/diffutil.go:202-205 | dropping a common suffix keeps the distance |
| EditGrid.FurthestStep | internal/diffutil/diffutil.go:239-267 | extending the better neighbour and sliding gives the furthest point of the next cost, both directions of the equivalence |
| EditGrid.OverrunStep | internal/diffutil/diffutil.go:239-267 | an entry past the box still bounds the remaining distance |
| EditGrid.RowsMeet | internal/diffutil/diffutil.go:258-263 | when the costs reach the distance, a forward and a backward entry overlap on a diagonal both have searched |
| EditGrid.MeetPoint | internal/diffutil/diffutil.go:258-263 | with no earlier overlap, the first forward overlap is a point inside the box that splits the distance exactly |
| EditGrid.MeetPointBack | internal/diffutil/diffutil.go:288-293 | the same for the first backward overlap |
| EditGrid.ClippedPoint | internal/diffutil/diffutil.go:299-329 | an entry past the box, clipped to it, is a point of no greater cost |
| EditGrid.TrimmedDist | internal/diffutil/diffutil.go:206-216 | a trimmed box with both sides non-empty has distance at least two |
| EditGrid.TrimmedOneRun | internal/diffutil/diffutil.go:198-216 | trimming the common ends empties a side exactly when the two sides differ in a single run |
| EditGrid.FarPoint | internal/diffutil/diffutil.go:299-329 | while the distance is at least c, a search that has spent c has covered a diagonal with a point at least c steps from the origin |
| EditScript.ComposeKeep | internal/diffutil/diffutil.go:135-163 | marking the kept lines a second time keeps what the two markings keep in turn, and counts add |
| EditScript.ComposeAt | internal/diffutil/diffutil.go:152-163 | where a composed mark comes from, line by line |
| Shortest.NoShorterScript | internal/diffutil/diffutil.go:91-96 | no marking whose kept sequences agree has fewer marks than the distance |
| Shortest.ShortestScript | internal/diffutil/diffutil.go:91-96 | some marking has exactly that many |
| Shortest.LongestCommonSubsequence | internal/diffutil/diffutil.go:91-96 | the distance is both lengths minus twice a longest common subsequence, which it exhibits |
| Shortest.EdRenamed | internal/diffutil/diffutil.go:112-127 | giving equal lines equal numbers keeps every distance |
| Shortest.DropAbsent | internal/diffutil/diffutil.go:128-150 | dropping lines the other side lacks lowers the distance by exactly their number |
| Differ.FloorSqrt | internal/diffutil/diffutil.go:179-192 | the integer square root the cap starts from |
| Differ.EffectiveCap | internal/diffutil/diffutil.go:179-192 | the configured cap if positive; otherwise the least number from 1024 up whose successor squared exceeds the diagonals |
| Differ.Differ.constructor | internal/diffutil/diffutil.go:179-192 | fresh unmarked arrays wide enough for every diagonal, and the cap their number gives |
| Differ.Differ.SlideForward | internal/diffutil/diffutil.go:249-252 | slides over equal elements and stops at the first difference or the box |
| Differ.Differ.SlideBackward | internal/diffutil/diffutil.go:279-282 | the same, backwards |
| Differ.Differ.ForwardPass | internal/diffutil/diffutil.go:239-267 | one more cost: every forward diagonal is furthest-reaching, or the searches met here and had not before |
| Differ.Differ.BackwardPass | internal/diffutil/diffutil.go:269-297 | the same for the backward search |
| Differ.Differ.WidenForward | internal/diffutil/diffutil.go:239-248 | the sentinel cells beyond the range read as never reached |
| Differ.Differ.WidenBackward | internal/diffutil/diffutil.go:269-278 | the same for the backward range |
| Differ.Differ.NotMet | internal/diffutil/diffutil.go:258-263 | rows that nowhere overlap prove the distance is not the sum of their costs |
| Differ.Differ.ForwardMet | internal/diffutil/diffutil.go:258-263 | a forward meeting point is in the box and splits the distance |
| Differ.Differ.BackwardMet | internal/diffutil/diffutil.go:288-293 | a backward meeting point is in the box and splits the distance |
| Differ.Differ.FurthestForward | internal/diffutil/diffutil.go:299-329 | at the cap, the best clipped forward point: in the box, at least c past its start, of cost at most c |
| Differ.Differ.FurthestBackward | internal/diffutil/diffutil.go:299-329 | the same from the other corner: at least c before the end |
| Differ.Differ.ForwardRound | internal/diffutil/diffutil.go:239-267 | a round meets with an exact split, or raises the lower bound on the distance |
| Differ.Differ.BackwardRound | internal/diffutil/diffutil.go:269-297 | the same for the backward half of a round |
| Differ.Differ.Split | internal/diffutil/diffutil.go:228-331 | terminates with a point inside the box; exact, with both halves non-trivial, if the cap is forbidden or the distance is at most twice the cap; otherwise the half flagged minimal costs at most the cap and is at least as long |
| Differ.Differ.Trim | internal/diffutil/diffutil.go:198-205 | cuts the common ends, and what is left cannot be trimmed |
| Differ.Differ.Progress | internal/diffutil/diffutil.go:217-220 | each half is smaller than the box or is newly forced minimal, so the recursion ends |
| Differ.Differ.Compare | internal/diffutil/diffutil.go:197-220 | the unmarked elements of both sides are the same sequence for every input and cap; a split reaches the cap exactly if the cap is allowed, more than one run differs and the distance exceeds twice the cap; unless it does the marks number the distance; nothing outside the box changes |
| Differ.Differ.CompareTrimmed | internal/diffutil/diffutil.go:206-220 | the same on a trimmed box, where a one-sided box is exact at every size |
| Differ.Differ.CompareHalves | internal/diffutil/diffutil.go:217-220 | the split case: a first split within the cap forbids the cap in both halves, so it alone decides whether the cap is reached |
| Differ.Differ.TrimCapped | internal/diffutil/diffutil.go:198-216 | whether the cap will be reached is decided by the untrimmed box |
| LineDiff.CommonEnds | internal/diffutil/diffutil.go:97-105 | the longest common prefix, and the longest common suffix of what it leaves |
| LineDiff.InternLines | internal/diffutil/diffutil.go:112-127 | equal lines and only those get equal numbers |
| LineDiff.Present | internal/diffutil/diffutil.go:128-134 | which numbers occur on a side |
| LineDiff.DropOneSided | internal/diffutil/diffutil.go:135-150 | marks exactly the lines the other side lacks and lists the rest with their positions |
| LineDiff.MarkKept | internal/diffutil/diffutil.go:152-163 | carries the search's marks back to the lines they stand for |
| LineDiff.ScriptFromKept | internal/diffutil/diffutil.go:128-163 | a script for the kept lines and the dropped ones together is a script for all, shortest if that one is |
| LineDiff.SharedDist | internal/diffutil/diffutil.go:128-150 | the distance of two texts is that of the lines both have plus the lines only one has |
| LineDiff.InternedCapped | internal/diffutil/diffutil.go:112-163 | whether the search on numbers reaches the cap is a property of the lines |
| LineDiff.Changes | internal/diffutil/diffutil.go:93-165 | unmarked lines of both sides are the same sequence for every cap; unless the search for the lines both sides have reaches the cap, the marks number exactly the distance |
| LineDiff.CappedDist | internal/diffutil/diffutil.go:93-165 | a capped comparison has a distance above twice the least cap even without the lines only one side has, so no number of added lines the other never had brings the cap nearer |
| LineDiff.OneSidedNeverCapped | internal/diffutil/diffutil.go:128-150 | texts that differ only in lines one of them lacks are never capped |
| LineDiff.DiffOpsCap | internal/diffutil/diffutil.go:68-89 | the operations spell both texts, deletions come first in a run, and they are fewest unless the search reaches the cap; the default case indexes neither side past its end |
| LineDiff.EmitEqual | internal/diffutil/diffutil.go:82-86 | where neither line is marked both exist and are equal |
| Hunks.SplitLinesText | internal/diffutil/diffutil.go:52-58 | the lines hold no newline and spell the text, with a final newline added if it lacks one |
| Hunks.SameLines | internal/diffutil/diffutil.go:52-58 | texts with the same lines differ at most in that newline |
| Hunks.ReadHunkOf | internal/diffutil/diffutil.go:361-376 | reading a printed hunk gives it back, header counts included |
| Hunks.ReadHunksOf | internal/diffutil/diffutil.go:336-380 | reading printed hunks gives them all back |
| Unified.LinesBefore | internal/diffutil/diffutil.go:337-348 | the running counts are the numbers of old and new lines before each operation |
| Unified.ListChanges | internal/diffutil/diffutil.go:349-354 | exactly the positions of deletions and insertions, in order |
| Unified.GroupEnd | internal/diffutil/diffutil.go:356-360 | a group is a maximal run of changes close enough together |
| Unified.RenderSpan | internal/diffutil/diffutil.go:361-376 | prints the hunk of a span with exact header counts, empty ranges included |
| Unified.RenderHunks | internal/diffutil/diffutil.go:336-380 | the hunks are ordered, disjoint, cover every change with its context and nothing further apart |
| Unified.PatchTiled | internal/diffutil/diffutil.go:336-380 | applying hunks that leave only equal lines between them turns the old lines into the new |
| Unified.RenderedPatch | internal/diffutil/diffutil.go:336-380 | parsing the printed hunks and applying them to the old lines yields the new lines |
| Unified.Unified | internal/diffutil/diffutil.go:35-48 | empty exactly when the lines are equal; otherwise a text that parses to hunks which patch the lines of a into those of b, with fewest edits unless the search reaches the cap |
| Names.RwVolumeNamesDistinct | internal/cow/plan.go:131-145 | volume names are injective over branch names of any form and generations from 1 |
| Names.FreshBranchLayer | internal/engine/saga.go:204-234 | the lowest generation from minGen whose name is unused; none exactly when the whole range is used, which takes 10000 used names |
| Overlay.EmptyOnTop | internal/engine/freeze.go:105-119 | a fresh empty volume on top of a stack changes nothing that is seen |
| Overlay.WriteSeen | internal/cow/plan.go:151-172 | a write or delete through the top is seen at its path and nowhere else |
| Overlay.PlanBranch | internal/cow/plan.go:155-172 | lowers list the layers newest first and the source last |
| Overlay.OverlayMounts | internal/engine/saga.go:272-278 | source, layers and writable volume each on their own target |
| Overlay.TargetServes | internal/cow/plan.go:147-149 | a lower directory lies in the mount of its own number and of no other |
| Overlay.LayOut | internal/engine/saga.go:264-290 | resolved through the mounts, the lower directories are the layers newest first and then the source, never the writable volume, which alone is writable |
| Layers.WalkInsert | internal/registry/registry.go:1440-1448 | a new layer on an existing one changes no other chain and keeps the table acyclic |
| Layers.WalkDelete | internal/registry/registry.go:1327-1338 | deleting a layer off a chain leaves the chain |
| Layers.LayerChain | internal/registry/registry.go:1371-1386 | terminates on acyclic tables with the walked chain, or the lookup error exactly when the base is missing |
| Layers.CountReferences | internal/registry/registry.go:1391-1404 | the recursive query counts exactly the live branches based on the layer or whose walked chain contains it |
| Layers.TopHasNoChild | internal/engine/saga.go:821-837 | when all else is referenced, an unreferenced top has no child layer |
| Layers.CascadeStep | internal/engine/saga.go:821-837 | the top of the rest of a chain either keeps all of it referenced or can go and leaves the same situation |
| Layers.LayerStore.DeleteLayer | internal/registry/registry.go:1327-1338 | refused for a missing row and by the foreign key, and only then |
| Layers.LayerStore.GcLayer | internal/engine/saga.go:825-837 | removes volume and row exactly when nothing refers to the layer and nothing refuses |
| Layers.LayerStore.GcLayers | internal/engine/saga.go:825-837 | whatever the driver does, no chain of a live branch changes and no volume of a referenced layer goes; with everything else referenced no deletion is refused, and with no failure nothing unreferenced is left |
| Layers.LayerStore.DestroyLast | internal/engine/saga.go:767-782 | if every layer was in a live chain before a destroy, then after it and its cascade the same holds, and no live chain changed |
| StoreInv.SameBranchKeeps | internal/registry/registry.go:710-766 | a transition that leaves the branch's volumes alone keeps all naming, chain and collection facts |
| StoreInv.CreateKeeps | internal/engine/saga.go:103-136 | a new row on an unused name keeps the invariant |
| StoreInv.MakeEventKeeps | internal/engine/saga.go:148-199 | making a saga's volume, which fails where one of that name stands, and dropping it again keep it |
| StoreInv.BeginFreezeKeeps | internal/engine/freeze.go:105-124 | picking a fresh name and stopping for a freeze keeps it |
| StoreInv.CommitStacks | internal/registry/registry.go:1422-1464 | the stacks recorded by a freeze commit are those its two containers were started on: the parent's old stack under a fresh volume each |
| StoreInv.CommitKeeps | internal/registry/registry.go:1422-1464 | the commit keeps the invariant |
| StoreInv.CrashKeeps | internal/engine/freeze.go:105-265 | a crash of any saga at any step keeps it |
| StoreInv.AbortKeeps | internal/engine/freeze.go:126-279 | every way a freeze ends without committing keeps it |
| StoreInv.LayerNotNeeded | internal/engine/reconcile.go:698-730 | a layer whose count is zero is nobody's volume |
| StoreInv.SourceNotNeeded | internal/engine/saga.go:842-858 | a source generation the check lets go is nobody's volume |
| StoreInv.VolNotNeeded | internal/registry/registry.go:1051-1093 | a volume outside the live set is nobody's |
| StoreInv.CondemnKeeps | internal/engine/reconcile.go:698-747 | every collector's check keeps the invariant |
| StoreInv.DropLayerKeeps | internal/registry/registry.go:1327-1338 | deleting the row of a layer once found unreferenced keeps it, without another check |
| StoreInv.FailStuckKeeps | internal/registry/registry.go:1649-1680 | the swap that fails a stuck row keeps it |
| StoreInv.CheckStuckKeeps | internal/engine/reconcile.go:541-550 | the count of the stuck handling and its removal, each whenever it comes, keep it |
| StoreInv.StepKeeps | internal/engine/saga.go:103-858 | every step of every saga, collector, stuck handling, refresh and container keeps the invariant, with every registry call and every removal a step of its own |
| StoreInv.RunInv | internal/engine/saga.go:103-858 | it holds in every state of every run; in particular chains are acyclic and resolve, and a ready branch's container mounts the recorded stack |
| StoreSafety.WritableApart | internal/registry/registry.go:1030-1042 | in every reachable state a live branch's writable volume is in no other branch's stack or claim, no frozen layer and no source volume |
| StoreSafety.Reaches | internal/engine/saga.go:148-858 | a step reaches a volume a live branch depends on only as that branch's own step on a volume of its own, or as a removal whose check is outdated |
| StoreSafety.Undisturbed | internal/engine/saga.go:148-858 | over every run, layers and source under a live branch never change and its writable volume only by its own steps, removals on outdated checks aside |
| StoreSafety.MountsNeeded | internal/engine/recover.go:189-199 | every volume a ready, started or freezing branch's container mounts is one a ready branch or a live saga depends on, including those no row records yet |
| StoreSafety.CollectSafe | internal/engine/reconcile.go:698-747 | no layer, volume or source-generation removal by a collector takes a volume a live branch depends on or mounts, or a freeze or refresh has claimed, unless the name was recorded again after the check |
| StoreSafety.ClearRunsReuseNothing | internal/engine/reconcile.go:732-747 | while no row records a name a collector still holds, that exception never arises |
| StoreSafety.RecordingIsUnsafe | internal/engine/reconcile.go:732-747 | the condition is tight: recording a name a collector holds makes its volume one somebody depends on while the collector is free to remove it |
| StoreSafety.StandingRowKeepsName | internal/engine/saga.go:219-234 | a layer's name is never picked again while its row stands |
| StoreSafety.SweepSafe | internal/engine/reconcile.go:518-548 | the removal that ends the stuck handling, however late: if nobody took the row up since the swap, the row still rests on that volume and no other branch, no counting container and no child depends on it |
| StoreSafety.SweepsStayCurrent | internal/engine/reconcile.go:518-548 | while no reset or recover takes up a row whose stuck handling is still to end, that condition holds |
| StoreSafety.TakingUpIsUnsafe | internal/engine/recover.go:34-62 | the condition is tight: a reset or recover after the count puts a live saga to work on the volume while the removal is free to come |
| StoreSafety.ForcedStaysApart | internal/engine/saga.go:714-818 | a row destroyed or failed under a live saga keeps all naming, chain and collection facts: writable volumes stay apart |
| StoreSafety.ForcedExposesLayer | internal/engine/saga.go:767-837 | destroying a parent in the middle of a freeze takes the last reference from a layer the child's container mounts, so the cascade may remove it |
| StoreRace.OutdatedCheckRemovesLiveVolume | internal/engine/reconcile.go:732-747 | a run from the empty store in which a collector acts on an outdated check and takes the source volume of a ready branch |
| StoreRace.OutdatedSweepRemovesLiveVolume | internal/engine/reconcile.go:518-548 | a run from the empty store in which a stuck row is failed and counted, recovered, written to, and then loses its writable volume to the removal |
| StoreViews.WriteIsolated | internal/engine/saga.go:264-290 | after a write the writer sees it at its path, and nobody else sees any change |
| StoreViews.CommitChangesNoData | internal/engine/freeze.go:254-264 | at the commit parent and child see what the parent saw under their own fresh volume, and both containers already run on the recorded stacks |
| StoreViews.StackStays | internal/registry/registry.go:1371-1386 | a live branch's recorded stack changes only by the commit of its own freeze |
| StoreViews.SealedStep | internal/engine/freeze.go:136-153 | from the parent's stop on, no step reaches the parent's old stack but a removal on an outdated check |
| StoreViews.FreezeSince | internal/engine/freeze.go:105-124 | a freeze under way began at some step of the run, with the same child and the same plan ever since |
| StoreViews.MadeSince | internal/engine/freeze.go:163-230 | a saga that counts its volume as made created it at some step and has worked on it since |
| StoreViews.MadeContent | internal/engine/freeze.go:163-251 | such a volume holds exactly what was written to it since it was made |
| StoreViews.NoWritesTo | internal/engine/freeze.go:163-251 | and nothing at all if its branch's container wrote nothing |
| StoreViews.FreezeChangesNoData | internal/engine/freeze.go:105-265 | for every commit of every run, whatever else runs: parent and child see what the parent saw when it stopped under the writes each made itself since, and exactly that if it made none; removals on outdated checks aside |
| Saga.Push | internal/engine/saga.go:162-168 | a step followed by its compensation is undone in reverse order |
| Saga.Engine.Unwind | internal/engine/saga.go:162-168 | running the compensations last first restores the world and never removes a mounted volume |
| Saga.Engine.Provision | internal/engine/saga.go:148-199 | succeeds exactly when no call fails, and otherwise leaves the prior volumes, containers and claims |
| Saga.Engine.AwaitAndMark | internal/engine/saga.go:392-413 | the container is recorded before the wait, the row ready only after all of it |
| Saga.Engine.SwapParent | internal/engine/freeze.go:163-199 | claims, builds and restarts the parent, with everything so far revertible |
| Saga.Engine.BuildChild | internal/engine/freeze.go:207-251 | builds and starts the child on the same chain and looks up both addresses, each call a point of failure, still revertible |
| Saga.Engine.RestoreParent | internal/engine/freeze.go:267-279 | the parent is ready in a container on its own stack exactly if start, wait, address and mark succeed, or failed with none left over |
| Saga.Engine.Freeze | internal/engine/freeze.go:105-265 | commits exactly when nothing fails; otherwise the prior volumes, no saga container, and the parent on its original volume and chain, ready or failed |
| Journal.LegalTransition | internal/registry/registry.go:769-777 | the scan of the table decides exactly the legal edges |
| Journal.Registry.CreateBranch | internal/registry/registry.go:658-688 | refused for a name a live row holds; else row and entry together; a sound journal stays sound and only grows |
| Journal.Registry.TransitionBranch | internal/registry/registry.go:710-766 | not found, illegal, or row and entry together; a sound journal stays sound and only grows |
| Journal.Registry.NoteBranch | internal/registry/registry.go:899-919 | journals the current state onto itself; a sound journal stays sound and only grows |
| Journal.Registry.FreezeCommit | internal/registry/registry.go:1422-1464 | only from resetting, and nothing at all when the child is missing; a sound journal stays sound and only grows |
| Journal.Registry.UpdateBranchEndpoint | internal/registry/registry.go:1571-1608 | a swap on ready state and container, journaled as a note; a sound journal stays sound and only grows |
| Journal.Registry.FailReadyBranch | internal/registry/registry.go:1616-1641 | both legal edges journaled in one transaction; a sound journal stays sound and only grows |
| Journal.Registry.FailStuckBranch | internal/registry/registry.go:1649-1680 | a swap on a transient state and age; a sound journal stays sound and only grows |
| Journal.Registry.SetBranchContainer | internal/registry/registry.go:813-816 | the container column alone, no entry; a sound journal stays sound and only grows |
| Journal.ApplySound | internal/registry/registry.go:629-777 | every operation keeps replay equal to state, chained legal entries, and one live row per name |
| Journal.RunSound | internal/registry/registry.go:629-919 | after every run of operations the journal of each branch replays to its state |
| Journal.RunGrows | internal/registry/registry.go:710-766 | the journal only grows and destroyed rows stay destroyed |
| Journal.DestroyedAbsorbs | internal/registry/registry.go:629-635 | in a history nothing but notes follows the destroyed entry |
| HookQueue.StepKeeps | internal/ghook/service.go:271-308 | every lock section of enqueuers and workers keeps the invariant |
| HookQueue.QueueLaws | internal/ghook/service.go:265-308 | in every interleaving one job per branch runs at a time, jobs start once and in arrival order, the worker never finds its queue empty, and a zero wait count means no queue, no thread and nothing unstarted |
| DeliveryCache.Cache.Add | internal/ghook/service.go:314-339 | an id is new exactly when it is not among the last n accepted |
| LeaderGate.StepKeeps | internal/ha/leader.go:136-208 | every callback, loop step, gate flip and mutation step keeps the invariant |
| LeaderGate.LeadershipLaws | internal/api/leader.go:49-130 | the gate is open only in a live term or before its stop callback; no mark follows its term's unmark; mutations of an ended term are cancelled or scheduled to be; a finished wait finds none running |
| CancelMap.AnyInterleaving | internal/pgproxy/cancel.go:21-61 | after any interleaving of sessions a key resolves exactly when one session holds it, to its backend, and no session means an empty map |
| CancelMap.Cancels.RemoveKey | internal/pgproxy/cancel.go:35-50 | takes out one entry of that address and the key with its last |
| CancelMap.Cancels.Lookup | internal/pgproxy/cancel.go:54-61 | an address exactly when one live session holds the key |
| CancelMap.Cancels.Register | internal/pgproxy/relay.go:162-168 | replaces the session's earlier key |
| CancelMap.Cancels.End | internal/pgproxy/relay.go:52-82 | a session's key goes with it |
| Startup.RelayOfMessages | internal/pgproxy/relay.go:106-158 | any response in the "Message Formats" of the PostgreSQL frontend/backend protocol is relayed byte for byte through ReadyForQuery, noting its last acceptable BackendKeyData |
| Startup.EarlyEndExactly | internal/pgproxy/relay.go:114-150 | when the exchange ends early every byte read is passed on exactly if the stream was cut between frames, after a header, or in a body that is not a key |
| Startup.PartialHeaderLost | internal/pgproxy/relay.go:129-131 | a partial header is read and never delivered |
| Startup.RelayStartup | internal/pgproxy/relay.go:118-158 | the client gets a prefix of the backend's bytes whatever fails; success means all of them through ReadyForQuery and the right key |
| Secrets.NewSecretBox | internal/registry/crypto.go:105-141 | fails exactly for a key of wrong length; an id stands for the primary or the first previous key with it |
| Secrets.BoxEncrypts | internal/registry/crypto.go:105-122 | a box built around a primary key encrypts under that key |
| Secrets.DecryptUndoesEncrypt | internal/registry/crypto.go:147-196 | under a primary key every password survives the round trip |
| Secrets.WithoutPrimaryExactly | internal/registry/crypto.go:147-193 | without a primary key, whether other keys are configured or none, a password survives exactly if it does not begin with enc: |
| Secrets.LooksEncrypted | internal/registry/crypto.go:164-168 | a password that does not |
| Secrets.ScanLegacy | internal/registry/crypto.go:184-193 | the first legacy key that opens the value |
| Secrets.MovedSettles | internal/registry/secrets.go:27-81 | a row that was re-encrypted keeps its password, is in final form or untouched and unopenable, and is never rewritten again |
| Secrets.SecondRunIdle | internal/registry/secrets.go:27-81 | so a second run rewrites nothing and changes nothing |
| Secrets.Registry.ReencryptSecrets | internal/registry/secrets.go:27-81 | every live row keeps its decrypted password and ends under the primary key or untouched and reported; the report counts exactly; a failure changes nothing |
| Migrate.StepKeeps | internal/registry/registry.go:366-400 | every step of every opener, crashes included, keeps the file equal to its version's migrations |
| Migrate.MigrationLaws | internal/registry/registry.go:314-400 | applied migrations are exactly the first user_version ones, once each and in order; the version moves up by one; a successful opener saw the last; an unknown version is left alone |

## Left out

- Docker and Kubernetes drivers, pod specs, exec streams: the runtime is sets of volumes and containers whose calls may fail.
- Seeding, settling, masking and entrypoint scripts, the lazyrw shim and the copy-up probe.
- The zfs and csi backends: the same undo pattern without layer chains.
- Opaque directories of an overlay: a volume's content is paths with files or whiteouts, so an opaque directory is whiteouts of what it hides.
- RemoveSource and DeleteSource: the store's sources are never removed, so a name recorded by a tombstone stays recorded.
- Source states: a source of the model is seeded as soon as it is added.
- Clocks, heartbeats, timeouts and backoff: being stuck, and a container vanishing, are choices of the environment.
- readyDrift, ownedInFlight and orphanHelper: single decisions without state; the store allows the container removals and restarts they lead to at any time.
- Runs in which a saga acts on a stale row snapshot, or a recover killed halfway is later treated as stuck: the code promises nothing there.
- StoreSafety.CollectSafe: says nothing of a name recorded again after the check, because the code does not hold there (StoreRace).
- StoreSafety.SweepSafe: says nothing of a row taken up again after the swap, for the same reason.
- The guard of a teardown, which keeps a volume that is still another branch's data: the model lets every teardown remove its row's volume, at any time after the destroy.
- The further steps of a saga whose row was destroyed or failed under it: only the store right after that is described.
- StoreSafety.MountsNeeded: says nothing of containers a dead freeze left running on a child that never committed; such a row can only be destroyed.
- Saga.Engine.Provision: does not cover a compensation that fails, because the code logs it and goes on.
- Differ.Differ.Split: past the cap the point need not be on a shortest path, because that is what the cap trades away.
- REST handlers, CLI, web UI, metrics, GitHub client, configuration, connect and test SDKs.
- AES-GCM, SHA-256 and base64 internals.
