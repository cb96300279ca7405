# sample_scorer ranking core in Dafny

This project models the ranking core of sample_scorer: two resumable state
machines that a human drives with pairwise judgements, plus three small
helpers.

- **The tournament reducer** (`Judgo`, with `HeapNode`).
  - It turns a pool of document ids into an ordered sequence of tie-groups ("equivalence classes").
  - Each greater / equal / less decision combines `root` with `next_node`.
  - `#next` then draws the next challenger. When the pool is empty, it emits `root`'s tie-group and restarts the scan on `root`'s children.
  - Modules `HeapNodes` (the node as a recursive datatype) and `Reducer` (the state record, its functions and lemmas, and a `Judgo` class whose methods update the fields in place).
- **The list merger** (`Merge`).
  - It folds ranked lists of tie-groups into one `main_list` by binary-search insertion, judged by a human.
  - Groups are drawn alternately from the back and the front of `sort_list`. Each placement narrows the outer window `list_lower..list_upper`.
  - Modules:
    - `MergeSpec`: the behaviour as pure functions over a state record, with conservation, progress and serialisation lemmas.
    - `Merging`: the `Merge` class, whose methods mutate the fields exactly as the source does.
    - `MergeRanking`: the judge as a ranking of ids, and the ordering invariant a rank-consistent merge should keep.
    - `MergeOrder`: when the merge keeps `main_list` descending, two concrete runs where it does not, and a corrected step proved to keep it descending.
- **Helpers:**
  - `CategoryList`: the category rotation for a new user, with JavaScript's sign-of-dividend `%` written out.
  - `FillDatabase`: the cyclic pairing of the seeding script.
  - `MultiplicationGrid`: the fixed-width multiplication table.
- `Wrappers` holds `Option`, `Result` and a bounds-checked index `At`. `At` stands for a JavaScript read that may give `undefined`.

Every JavaScript `TypeError` that the modelled code can raise is a `Failure` result. Examples: reading a field of `undefined`, spreading `undefined`, calling a method on `null`. Preconditions are kept to what callers of the source guarantee.

The JavaScript decision methods are `async`, but the modelled part contains no `await`. Each one is a plain sequential step.

The merge harness promises a sorted result: after the run it walks `main_list` and reports an error on a group whose ids differ or that outranks the group before it (src/lib/merge.js:334-355). The code does not keep that promise in two situations (see "## Findings"). The model follows the code. The promised invariant is proved only for the corrected step and for the as-written steps that avoid those two situations.

## Model

| member | source | states |
|---|---|---|
| CategoryList.JsRem | src/routes/create/+page.server.js:14 | JavaScript `%` by 8 takes the sign of the dividend: the result is congruent to the dividend modulo 8; for a non-negative dividend it is the Euclidean remainder in 0..7; for a negative one it lies in -7..0 and is exactly the Euclidean remainder minus 8, or 0 when 8 divides the dividend |
| CategoryList.GetCategoryList | src/routes/create/+page.server.js:11-17 | the loop returns exactly 8 entries, entry k being `((n + k - 1) % 8) + 1` with JavaScript's `%` |
| CategoryList.CategoriesRotate | src/routes/create/+page.server.js:13-15 | for n >= 1 the list is 1..8 rotated to start at `((n - 1) mod 8) + 1`, hence a permutation of 1..8 |
| CategoryList.CategoriesPeriodic | src/routes/create/+page.server.js:14 | for n >= 1, n and n + 8 users give the same list |
| CategoryList.CategoriesForZeroUsers | src/routes/create/+page.server.js:13-14 | with 0 users the list is 0..7: it starts at 0 and category 8 is missing |
| FillDatabase.GeneratePairs | scripts/fill_database.js:21-31 | n pairs for n >= 1 and one `(undefined, undefined)` pair for the empty input; pair i is (a[i], a[i+1]); the last pair is (a[0], a[n-1]); every cyclic neighbour pair of the input is joined |
| MultiplicationGrid.Decimal | scripts/test.js:206 | `toString()` of a natural: at least one character, all of them decimal digits, a single digit exactly below 10 |
| MultiplicationGrid.DecimalRoundTrip | scripts/test.js:206 | reading back the decimal form of n gives n |
| MultiplicationGrid.PadStartShape | scripts/test.js:206 | `padStart(width, ' ')`: the result has length max(|s|, width), ends with s and has only spaces before it |
| MultiplicationGrid.SplitJoin | scripts/test.js:208-211 | joining parts free of the separator and splitting again gives the parts back, so the grid's lines are recoverable |
| MultiplicationGrid.FieldWidth | scripts/test.js:199-206 | every field of the table is exactly as wide as the digit count of gridSize² and its digits read back as i·j |
| MultiplicationGrid.LineLength | scripts/test.js:203-208 | every line has length gridSize·w + gridSize - 1 and contains no newline |
| MultiplicationGrid.GridShape | scripts/test.js:203-211 | for gridSize >= 1 the output splits at '\n' into exactly gridSize lines, all of that length, with no trailing newline |
| MultiplicationGrid.CreateMultiplicationGrid | scripts/test.js:196-212 | the nested loops build the text that GridShape describes; gridSize <= 0 gives the empty string |
| HeapNodes.LeafIds | src/lib/judgo.js:12-15 | `new HeapNode(value)` holds exactly that one id and is a single node |
| HeapNodes.Leaves | src/lib/judgo.js:102 | one single-id node with no children per document, in order |
| HeapNodes.LeavesIds | src/lib/judgo.js:102 | the new nodes hold exactly the documents' ids, one node each |
| HeapNodes.Equal | src/lib/judgo.js:47-51 | the tie-group is the receiver's followed by the other's, the children likewise; ids are the union; the node count drops by one |
| HeapNodes.GreaterThan | src/lib/judgo.js:58-61 | the other node is appended after the receiver's children, which keep their order; the tie-group is unchanged; ids and node counts add up |
| HeapNodes.LessThan | src/lib/judgo.js:69-71 | the receiver is appended after the other node's children, which keep their order, and the other node with its tie-group is returned; ids and node counts add up |
| Reducer.Advance | src/lib/judgo.js:179-195 | `#next` leaves `next_node` alone and terminates, each restart replacing `root` by one of its own children |
| Reducer.AdvanceConserves | src/lib/judgo.js:179-195 | `#next` loses and duplicates no id: pool, `root`, the returned node and the emitted groups hold what pool, `root` and emitted groups held; returning null means the state is finished and every id has been emitted |
| Reducer.AdvanceHistory | src/lib/judgo.js:179-194 | emitted groups are only appended; with a non-empty pool the head is returned and nothing is emitted; otherwise `root`'s group is emitted and `round_number` becomes the number of groups |
| Reducer.AdvanceProgress | src/lib/judgo.js:187-194 | `#next` never creates nodes: drawing from the pool keeps the node count and shortens the pool; a restart strictly lowers it |
| Reducer.Construct | src/lib/judgo.js:100-109 | fails exactly for one document; with none nothing is drawn; with two or more `root` is the first, `next_node` the second, the pool the rest, no group emitted, round 1 |
| Reducer.ConstructPartition | src/lib/judgo.js:100-109 | a fresh reducer holds each document id exactly once, as the partition invariant demands |
| Reducer.Combine | src/lib/judgo.js:210-244 | the node a decision puts in `root`'s place holds both nodes' ids; greater keeps `root`'s tie-group and appends `next_node` to its children; less keeps `next_node`'s tie-group and appends `root` to its children; a tie concatenates both tie-groups and both child lists, removing one node |
| Reducer.Decide | src/lib/judgo.js:210-244 | a decision up to the new `next_node` fails exactly when there is no pair to judge |
| Reducer.DecideConserves | src/lib/judgo.js:179-244 | every decision keeps each original id in exactly one place among pool, `root`, `next_node` and the emitted groups |
| Reducer.DecideHistory | src/lib/judgo.js:184-185 | a decision only appends emitted groups and keeps `round_number` equal to their count once one exists |
| Reducer.DecideProgress | src/lib/judgo.js:179-244 | every decision lowers the live node count or keeps it and shortens the pool, so a session ends |
| Reducer.Run | scripts/judgo_tests.js:74-80 | a sequence of decision calls: no decisions leave the state alone, and a decision without a pair to judge makes the run fail |
| Reducer.RunSplit | scripts/judgo_tests.js:74-80 | running `a + b` is running `a` and then, if it succeeded, `b` |
| Reducer.RunConserves | src/lib/judgo.js:179-244 | over any sequence of decisions ids are conserved and the emitted prefix never changes |
| Reducer.ToObjectKeeps | src/lib/judgo.js:143-155 | the saved object determines the state except `round_number`, the one field `toObject` leaves out |
| Reducer.FromObject | src/lib/judgo.js:116-124 | restoring fails exactly when `root` or `next_node` is missing; `round_number` is recomputed |
| Reducer.RoundTrip | src/lib/judgo.js:116-155 | saving and restoring a state with a pair under judgement gives it back, except `round_number` returns as 0 before the first emission; finished or empty states cannot be restored |
| Reducer.FourDocumentTrace | src/lib/judgo.js:100-244 | on d1..d4 with less, less, greater, equal the emitted groups are [[d3],[d2,d4],[d1]] and `next_node` is null |
| Reducer.Judgo.Create | src/lib/judgo.js:100-109 | the constructor fails exactly for one document and otherwise allocates an instance in the state `Construct` gives |
| Reducer.Judgo.Next | src/lib/judgo.js:179-195 | the recursive `#next` updates the fields and returns the node as `Advance` does |
| Reducer.Judgo.GreaterThan | src/lib/judgo.js:210-212 | in place, the state `Decide` gives for greater, or a failure with nothing changed |
| Reducer.Judgo.Equal | src/lib/judgo.js:223-225 | in place, the state `Decide` gives for a tie, or a failure with nothing changed |
| Reducer.Judgo.LessThan | src/lib/judgo.js:237-239 | in place, the state `Decide` gives for less, or a failure with nothing changed |
| MergeSpec.Batches | src/lib/merge.js:26 | grouping by `group_by` keeps the flattened content, never adds batches, and is the identity for `group_by` 1 |
| MergeSpec.SortByLength | src/lib/merge.js:27 | the lists come out ascending by length and are a permutation of the input |
| MergeSpec.MiddleIndex | src/lib/merge.js:214 | the floor of the bounds' mean; inside the bounds whenever the window is non-empty |
| MergeSpec.Init | src/lib/merge.js:20-50 | fails exactly with fewer than two batches; otherwise mode TOP, both windows the whole `main_list`, `middle` and the comparison group as `#next` sets them |
| MergeSpec.InitShape | src/lib/merge.js:26-33 | the pending lists, `sort_list` (with its drawn group) and `main_list` are the input lists, ascending by length, two fewer pending |
| MergeSpec.InitLongest | src/lib/merge.js:29-33 | `main_list` is a longest input and `sort_list` is at least as long as every pending list |
| MergeSpec.InitOrder | src/lib/merge.js:26-33 | pending lists, `sort_list` and `main_list` in that order are exactly the length-sorted input |
| MergeSpec.Next | src/lib/merge.js:160-163 | only `middle` and the comparison group change; the group is `main_list[middle]` or undefined out of range |
| MergeSpec.NextSortElement | src/lib/merge.js:177-202 | refills from the last pending list when needed; draws the back in TOP and the front in BOT and flips the mode; the search bounds become the outer window; with nothing left sets `over`, keeps `middle` and the compared group, and leaves the search bounds as they were, or covering the whole `main_list` after a refill that found an empty list |
| MergeSpec.DrawOverExact | src/lib/merge.js:179-201 | a draw sets `over` exactly when `sort_list` is empty and no pending list holds a group |
| MergeSpec.Splice | src/lib/merge.js:231 | `splice(start, 0, x)` with JavaScript's clamping: one longer, x at the clamped index, every other element in its old order |
| MergeSpec.Place | src/lib/merge.js:231-240 | the group is spliced in at `current_lower`; TOP sets `list_lower` past it, BOT sets `list_upper` before it |
| MergeSpec.GreaterThan | src/lib/merge.js:227-244 | the upper bound drops below `middle`; if the window empties the group is placed, otherwise only the search advances |
| MergeSpec.LessThan | src/lib/merge.js:279-295 | the lower bound rises past `middle`; if the window empties the group is placed, otherwise only the search advances |
| MergeSpec.Equal | src/lib/merge.js:256-267 | fails exactly when `middle` is out of range; otherwise the length is kept and only `main_list[middle]` grows by the drawn group |
| MergeSpec.Step | src/lib/merge.js:227-295 | a decision fails exactly when it is a tie with `middle` out of range |
| MergeSpec.DrawConserves | src/lib/merge.js:177-201 | drawing moves ids between lists without losing or duplicating any |
| MergeSpec.PlaceConserves | src/lib/merge.js:231-240 | placing the drawn group keeps the multiset of ids |
| MergeSpec.StepConserves | src/lib/merge.js:227-295 | every decision keeps the multiset of ids across pending lists, `sort_list`, the drawn group and `main_list` |
| MergeSpec.StepProgress | src/lib/merge.js:227-295 | every decision either places a group or strictly narrows `current_upper - current_lower` |
| MergeSpec.Play | src/lib/merge.js:317-326 | driving the decisions until `over`, as the harness loop does, fails when the comparison group is undefined (reading `[0]` of it throws) or `equal` throws; a run that succeeds ends with `over` set and every id kept |
| MergeSpec.ToObjectKeeps | src/lib/merge.js:111-126 | the saved object determines the state except `over`, the one field `toObject` leaves out |
| MergeSpec.FromObject | src/lib/merge.js:73-91 | fails exactly with fewer than two pending lists; otherwise `over` is false and the pending lists lose their two longest entries |
| MergeSpec.RoundTrip | src/lib/merge.js:73-126 | restoring a saved state gives back every field except the pending lists, cut by their two longest, and `over` |
| MergeSpec.RestoreFailsWithoutPending | src/lib/merge.js:75 | a merger built from two lists, saved at once, cannot be restored |
| MergeSpec.FromObjectCorrected | src/lib/merge.js:73-91 | restoring copies every serialised field, so saving the result gives the object back |
| MergeSpec.RoundTripCorrected | src/lib/merge.js:73-126 | save then corrected restore is the identity on every state that is not over |
| Merging.Merge.Create | src/lib/merge.js:20-50 | the constructor fails as `Init` does and otherwise allocates an instance in the state `Init` gives |
| Merging.Merge.Start | src/lib/merge.js:29-49 | from length-sorted lists, at least two, the fields are set to the state `MergeSpec.Start` describes |
| Merging.Merge.Populate | src/lib/merge.js:79-88 | the ten copied fields take the saved object's values; the pending lists and `over` are kept |
| Merging.Merge.FromObject | src/lib/merge.js:73-91 | the static restore fails as `MergeSpec.FromObject` does and otherwise allocates an instance in its state |
| Merging.Merge.Next | src/lib/merge.js:160-163 | in place, the state `MergeSpec.Next` gives |
| Merging.Merge.NextSortElement | src/lib/merge.js:177-202 | in place, the state `MergeSpec.NextSortElement` gives |
| Merging.Merge.Refill | src/lib/merge.js:179-183 | in place, `sort_list` becomes the last pending list and the search bounds the whole `main_list` |
| Merging.Merge.Draw | src/lib/merge.js:187-193 | in place, TOP pops and BOT shifts the drawn group from `sort_list`, flipping the mode |
| Merging.Merge.GreaterThan | src/lib/merge.js:227-244 | in place, the state `MergeSpec.GreaterThan` gives |
| Merging.Merge.Place | src/lib/merge.js:231-240 | in place, the state `MergeSpec.Place` gives: the splice, the narrowed outer window and the next draw |
| Merging.Merge.Equal | src/lib/merge.js:256-267 | in place, the state `MergeSpec.Equal` gives, or a failure with nothing changed |
| Merging.Merge.LessThan | src/lib/merge.js:279-295 | in place, the state `MergeSpec.LessThan` gives |
| MergeOrder.DrawCorrected | src/lib/merge.js:177-202 | a draw that refills `sort_list` opens the outer window to the whole `main_list` and takes the fresh list's front group first, as the constructor does with the first list (line 45); any other draw is the source's |
| MergeOrder.PlaceCorrected | src/lib/merge.js:231-240 | the same splice; a TOP placement also moves `list_upper` with the shifted groups; a BOT placement without refill is the source's |
| MergeOrder.MergeInto | src/lib/merge.js:256-264 | a tie keeps the length, grows only `main_list[middle]`, and narrows the outer window on the drawn side |
| MergeOrder.StepCorrected | src/lib/merge.js:227-295 | the corrected decision fails exactly where the source's does |
| MergeOrder.StepAgrees | src/lib/merge.js:227-295 | the corrected decision equals the source's unless it places a TOP-drawn group or refills `sort_list` |
| MergeOrder.CorrectedStepKeepsOrder | src/lib/merge.js:227-295 | under judgements that agree with a ranking, a corrected decision succeeds, keeps the ordering invariant and leaves `main_list` descending |
| MergeOrder.AsWrittenStepKeepsOrder | src/lib/merge.js:227-295 | the same for the source's decision, as long as it neither places a TOP-drawn group nor refills |
| MergeOrder.Run | src/lib/merge.js:317-326 | the harness loop: it stops at `over`; where it goes on, both the drawn and the compared group are defined and the decision succeeded, since reading `[0]` of an undefined group throws |
| MergeOrder.CorrectedRunSorted | src/lib/merge.js:317-357 | from a state satisfying the ordering invariant, any run of rank-consistent decisions on the corrected merge succeeds and leaves `main_list` descending, which is the harness's final check. Success is not assumed: consistency says nothing once a group is undefined, and the invariant keeps `middle` inside `main_list`, so there is always a group to compare with |
| MergeOrder.CorrectedMergeSorted | src/lib/merge.js:20-50 | merging descending lists with the corrected merge: once the constructor has drawn a group, every rank-consistent run succeeds and leaves `main_list` descending |
| MergeOrder.FreshTopCorrected | src/lib/merge.js:179-195 | for every shift k, on lists [k+9],[k+8], [k+3],[k+2],[k+1] and [k+6],[k+5],[k+4] (a pending list that outranks all of `main_list`), every rank-consistent run of the corrected merge succeeds and leaves `main_list` descending |
| MergeOrder.InitOrdered | src/lib/merge.js:20-50 | from descending input lists the constructor starts in a state satisfying the ordering invariant |
| MergeOrder.Countdown | src/lib/merge.js:299-308 | the harness's `range` sorted descending: singleton groups high..low |
| MergeOrder.TwoListsStart | src/lib/merge.js:26-47 | merging a list into a longer one: the longer is `main_list`, nothing is pending, the shorter's first group is drawn |
| MergeOrder.TwoListsOrdered | src/lib/merge.js:20-50 | two descending lists start the merge in a state satisfying the ordering invariant |
| MergeOrder.Trace | src/lib/merge.js:317-326 | a chain of states, each reached from the one before by a rank-consistent decision, is a consistent run ending in the last state |
| MergeOrder.HarnessStart | src/lib/merge.js:299-314 | the harness merger starts with `main_list` 150..23, no pending list, [100] drawn, the ordering invariant, and no refill ahead |
| MergeOrder.TopPlacementBreaksOrder | src/lib/merge.js:231-238 | for every shift k, on lists [[k+3],[k+1]] and [[k+4],[k+2]] the judgements less, greater, less agree with the ranks, the start satisfies the ordering invariant, yet the source ends with `main_list` [[k+4],[k+3],[k+1],[k+2]], which is not descending |
| MergeOrder.TopPlacementCorrected | src/lib/merge.js:231-238 | the same judgements on the corrected merge are consistent and give [[k+4],[k+3],[k+2],[k+1]] |
| MergeOrder.StaleWindowBreaksOrder | src/lib/merge.js:179-195 | for every shift k, on lists [k+9], [k+3],[k+2] and [k+5],[k+3],[k+1], rank-consistent tie, greater, greater make the refill step (a BOT draw) break the invariant; the source ends with [[k+5],[k+3,k+3],[k+9],[k+2],[k+1]], not descending |
| MergeOrder.StaleWindowCorrected | src/lib/merge.js:179-195 | the corrected merge searches all of `main_list` for [k+9], so one more greater is consistent, and ends with [[k+9],[k+5],[k+3,k+3],[k+2],[k+1]] |

## Left out

- `PBWrapper`, `Judgo.fromDatabase`, `#next_category` and `write_state` (src/lib/judgo.js:131-137, 197-204, 213-216, 226-229, 240-243, 257-337): database and network I/O. Each decision is modelled up to the new `next_node`, and the category hand-off is not modelled.
- `HeapNode.fromObject`: on values it is the identity, so restoring a node is a plain copy.
- `HeapNode.equals`, `HeapNode.toString`, `Judgo.equals` and `Merge.equals`: formatting and reference-identity comparisons. Datatype equality replaces them.
- `console.log`, `get_code` and `shuffle_array`: output and `Math.random`. The database, auth and cookie plumbing around the helpers is also left out.
- scripts/judgo_tests.js: an older copy of the reducer. Only its four-document decision sequence is used, as Reducer.FourDocumentTrace.
- The unused fixture arrays in scripts/test.js are not modelled.
- MultiplicationGrid.CreateMultiplicationGrid: `gridSize` is an integer and products print as exact decimals. A JavaScript number could be a fraction, and `toString` switches to exponent notation from 1e21. The only call is with 10 (scripts/test.js:215).
- Merging.Merge.Create: requires `group_by >= 1`. The source is only ever called with the default 1. The `NaN` and negative-`slice` behaviour for other values is not modelled.
- MergeSpec.Init: requires `group_by >= 1`, for the same reason.
- MergeSpec.Batches: the number of batches, ceil(n / `group_by`), is not stated. Only the content and the bounds are stated.
- MergeSpec.SortByLength: the stability of JavaScript's `sort` is not stated. Only sortedness and permutation are stated, and the model is an insertion sort.
- MergeSpec.GreaterThan: requires a drawn group. The harness reads `current_sort_element[0]` before deciding, so it throws first when the group is undefined.
- MergeSpec.LessThan: requires a drawn group, for the same reason.
- MergeSpec.Equal: requires a drawn group, for the same reason.
- MergeSpec.Step: requires a drawn group, for the same reason.
- MergeSpec.Place: requires a drawn group, for the same reason.
- Merging.Merge.GreaterThan: requires a drawn group, for the same reason.
- Merging.Merge.LessThan: requires a drawn group, for the same reason.
- Merging.Merge.Equal: requires a drawn group, for the same reason.
- Reducer.Judgo.Next: requires a non-empty pool or a `root`. The source only calls `#next` in such states.
- Reducer.Advance: requires a non-empty pool or a `root`, for the same reason.
- Merging.Merge.Equal: reports the source's throw as `ok == false` with the state unchanged. The spread of an undefined `main_list[middle]` throws before any field is assigned.
- Reducer.Decide: a decision without a pair is a failure with nothing changed. With a `root` but a null `next_node`, the source's `greater_than` would push `null` as a child before it fails. That state only exists just before the category hand-off, which replaces it, so this partial update is not modelled.
- With zero documents, the `Judgo` constructor leaves `documents`, `root` and `next_node` undefined. The model uses an empty pool and no nodes.
- MergeOrder.HarnessStart: the complete harness run to `over` is not proved. Only its start and the per-step lemma MergeOrder.AsWrittenStepKeepsOrder are proved. The full proof would need to show that no TOP-drawn group is spliced and no refill happens over about 700 steps.
- The `Merge` class follows the code as written. The corrected behaviour exists only as the `MergeOrder` functions.

## Findings

| source | as written | input that shows it | evidently intended | confidence | as-written member | corrected member |
|---|---|---|---|---|---|---|
| src/lib/merge.js:231-238 | a TOP-drawn group spliced into `main_list` sets `list_lower`, but `list_upper` is not shifted although every later group moved one place right (also at 283-288) | lists [[3],[1]] and [[4],[2]], judgements less, greater, less: [3] is spliced in at index 1, but `list_upper` stays 1 instead of 2; [1] is then compared only with [3] and spliced in at index 2, before [2], giving [[4],[3],[1],[2]] | `list_upper` moves with the splice, so `main_list` stays descending | high, not executed | MergeSpec.Place, MergeOrder.TopPlacementBreaksOrder | MergeOrder.PlaceCorrected, MergeOrder.TopPlacementCorrected, MergeOrder.CorrectedStepKeepsOrder |
| src/lib/merge.js:179-195 | on a refill the reset to the whole `main_list` goes to the search bounds, which lines 194-195 then overwrite with the stale outer window | lists [9], [3],[2] and [5],[3],[1], judgements tie, greater, greater: [9] is searched only in window 2..1 and ends below [3,3] | a fresh `sort_list` is searched over the whole `main_list`, as the reset at lines 181-182 shows. One correction that achieves this also draws the fresh list's front group first, as the constructor does with the first list; its first placement then leaves `list_lower` at 1 or more, so a later empty window still has a group to compare with | high, not executed | MergeSpec.NextSortElement, MergeOrder.StaleWindowBreaksOrder | MergeOrder.DrawCorrected, MergeOrder.StaleWindowCorrected, MergeOrder.FreshTopCorrected, MergeOrder.CorrectedRunSorted |
| src/lib/merge.js:75 | `fromObject` re-runs the constructor on the saved `document_lists`, which pops the two longest, and never restores `document_lists` | a merger made from two lists and saved at once: restoring reads `length` of undefined; with three lists the one pending list becomes `main_list` and restoring reads `shift` of an undefined `sort_list`; with four or more the two longest pending lists vanish | restoring copies every saved field, `document_lists` included | high, not executed | MergeSpec.FromObject, MergeSpec.RestoreFailsWithoutPending | MergeSpec.FromObjectCorrected, MergeSpec.RoundTripCorrected |
