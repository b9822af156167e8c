# Verified model of the AdaSparse, simulation, sampling and transport core

This project models the parts of the repository where bookkeeping, run-time order or byte layout
decide whether federated training is correct, and proves what those parts are for.

* **AdaSparse component algebra, v2 and v3.** A client keeps a shrinking list of survivor
  components; position `i` of its tensors stands for global index `survivors[i]`. Tensors are
  sequences of component slices (a row of `lora_A`, a column of `lora_B`) over exact reals; a
  state dict maps a key (layer and A/B, or another name) to a tensor or a non-tensor.
  `Tensors`, `Pruning`, `AdaSparseV2`, `Components`, `Flattening`, `LayerKeys`, `AdaSparseV3`,
  `SparseApply`, `LayerSum`. Both versions refine one small error-feedback account per component
  (`Ledger`), from which conservation over whole runs follows for what the functions read.
  `WorkerV2` and `WorkerV3` add the order in which the client worker prunes and reads, and say
  exactly when that is also what training produced.
* **Low-sets and budgets.** `Lowset`, `LowsetGrouped`, `Greedy`, `GreedyGrouped`,
  `UploadSelection`, which hands the modelled scores and costs to the selection, `ClientUpload`,
  the fallbacks the clients put around it, and `UploadQuality`, how good the resulting uploads are.
* **Standalone event loops.** `Messages`, `Simulation`, `SimulationOnline`: state machines whose handlers are
  arbitrary functions of the whole delivery history.
* **Base-quantization allocator and group sampler.** `BaseQuant`, `Sampler`, with `Randomness`
  standing for any rearrangement the random generator may produce.
* **Wire formats.** `Bytes` (UTF-8), `Base64`, `Envelope`, `Frames`, `Downlink`, `ServerComm`, and
  the message value tree in `MessageTree`.

Code that updates things in place (tensor rows, dicts, queues, the client state array, published
frames) is a method with loops or a class, proved against a function on values; the properties are
lemmas about that function.

`dafny verify dfyconfig.toml` checks everything.

## Where the code does less than its documentation says

* **A pruning round misattributes slices.** The worker prunes its index list first and then takes the
  delta from two unpruned tensors, so the delta's slices stand at the old positions and are read at
  the new ones. With survivors 0, 1, 2, component 0 pruned and component 1 uploaded, the server is
  sent component 0's slice as component 1's (`WorkerV2.PrunedRoundMisattributes`). Whatever is
  trained, a component is sent and stored with its own slice if and only if it keeps its place
  (`WorkerV2.OwnSliceIffPlaceKept`), a run conserves what was trained for it if and only if it
  keeps its place in every round (`WorkerV2.ConservationIffPlacesKept`), and on ascending lists it
  does exactly if nothing with a smaller index is pruned (`WorkerV2.PlacesKeptIffPrunedBehind`);
  the same per layer in `WorkerV3`.
* **v3 drops the update of an incomplete layer.** If a round's dict holds only one of a layer's two
  tensors, what that tensor holds is neither sent nor kept, and the layer's residuals go with it: an
  update of 7 for an uploaded component is received as 0 (`AdaSparseV3.IncompleteLayerLosesUpdate`).
  One round conserves if and only if the layer is complete or there was nothing to lose
  (`AdaSparseV3.RoundConservesIffComplete`); over runs the loss, residuals and deltas, is on the books
  (`AdaSparseV3.Conservation`). v2 keeps such a residual, so the two versions' buffers agree after
  every round if and only if every round has both tensors of a layer or neither, or uploads everything
  (`LayerSum.RunCorrespondsIffPaired`).
* **v3's sparse apply raises on a layer without a B tensor.** It tests only for the A tensors: applying
  a slice is a KeyError exactly if a listed layer has A and not B in the client's model
  (`SparseApply.GroupedRaisesIff`; `SparseApply.HalfLayerRaises` is an instance).
* **v2 charges for tensors that v3 does not.** The width of a tensor without its partner is in v2's
  cost and in none of v3's (`LayerSum.HalfLayerIsCharged`). The two costs differ by metadata only exactly
  if there is no such width (`LayerSum.CostsDifferByMetadataIff`).
* **An uplink budget can be exceeded.** A cached budget of zero counts as none, in v2 and v3
  (`ClientUpload.ZeroBudgetUploadsAll`). A v3
  client whose selection is empty uploads every survivor, so a budget too small for any component
  uploads all of them (`ClientUpload.TooSmallBudgetUploadsAll`). The exact conditions are
  `ClientUpload.FlatWithinBudgetIff` and `ClientUpload.GroupedWithinBudgetIff`.
* **Residuals of an absent tensor are lost.** Both residual updates rebuild the buffer from the
  current round's dict, so a round without a tensor discards what was stored for it
  (`AdaSparseV2.AbsentTensorLosesResidual`). Conservation is proved with exactly that loss on the
  books (`AdaSparseV2.Conservation`), one v2 round conserves if and only if the tensor is present or
  nothing was stored for it (`AdaSparseV2.RoundConservesIffPresent`), and with the same tensors
  every round nothing is lost.
* **The allocator can raise ValueError.** Fractions that sum to between 0.99 and 1.01 are used as
  they are. With two clients and four groups, all above a quarter, the removal loop looks for an
  entry of the most common width that is not there; four fractions of 0.252 are an instance
  (`BaseQuant.AllocationCanFail`). Among non-negative fractions this is the only failing family
  (`BaseQuant.AllocationFailsIff`). For any fractions, negative ones included, the allocator fails
  exactly if the groups other than the most common one ask for more than there are clients
  (`BaseQuant.BaseRunner.SetupBaseQuant`).
* **The server's clock is monotone only if messages are sent in time.** Only messages for the server
  alone are sorted, and only outside vertical mode; others are handled in turn. In both modes and for
  any receiver lists, once the loop has ended the server has seen non-decreasing timestamps if and only
  if every message for it was enqueued in time: not older than what it had seen, and in order with what
  was pending (`Simulation.ClockMonotoneIffInTime`). A condition on the handlers alone is enough where
  messages for the server go to it alone: no reply older than the message it answers
  (`Simulation.ForwardHandlersKeepTheClock`). `Simulation.ClockCanGoBack` is a run in which a late reply,
  and `Simulation.SharedClockCanGoBack` one in which a message that also goes to a client, makes the
  server see time 2 and then time 1.
* **Self-detection depends on the type byte.** Direct frames lose the first byte of an ACK envelope
  (its code is a space); raw relayed frames are recognised exactly for types below 0x20. Neither
  touches FL payloads (`Downlink.DirectFrame`, `Downlink.RelayedRawFrame`).
* **Six message types do not survive translation**: those that are themselves wire abbreviations
  (`Frames.TranslationRoundTrip`).

## Model

| member | source | states |
|---|---|---|
| Tensors.ExpandTensor | federatedscope/contrib/common/adasparse_lora_utils.py:595-646 | the in-place expansion writes slice `i` at `indices[i]` (the last writer wins) and leaves zeros elsewhere, in a tensor of `max_rank` slices |
| Tensors.ExpandClientUpdateToGlobal | federatedscope/contrib/common/adasparse_lora_utils.py:595-646 | every LoRA tensor of the dict is expanded so, everything else is passed through |
| Tensors.SliceThenExpand | federatedscope/contrib/common/adasparse_lora_utils.py:595-646 | slicing at the positions of a selection and placing the result at the selection puts each selected component's slice at its own global index and zeros elsewhere |
| Tensors.ExpandLastWriter | federatedscope/contrib/common/adasparse_lora_utils.py:595-646 | of the writes that reach an index the last one decides, whatever else is listed, and an index nothing is written to holds zeros of the tensor's width |
| Tensors.LocalPositionsSkip | federatedscope/contrib/common/adasparse_lora_utils.py:1035-1081 | a selected index that is no survivor is skipped: it leaves the positions of the others as they are |
| Pruning.NewIndicesAscending | federatedscope/contrib/common/adasparse_lora_utils.py:269-361 | the new index list is strictly ascending |
| Pruning.PruneCommutesWithExpansion | federatedscope/contrib/common/adasparse_lora_utils.py:316-361 | for tensors with at least one slice per old index: expanding the pruned state at the new indices is expanding the old state with the dropped indices zeroed |
| Pruning.OnlyTheKeptSetMatters | federatedscope/contrib/common/adasparse_lora_utils.py:316-361 | new indices and sliced tensors depend only on the set of kept positions, not on their order |
| Ledger.RunConserves | federatedscope/contrib/common/adasparse_lora_utils.py:717-794 | for any sequence of deltas, upload decisions and rounds that drop their delta unread: sent + stored + lost = initial + deltas |
| AdaSparseV2.ApplyResidualToUpdate | federatedscope/contrib/common/adasparse_lora_utils.py:717-794 | the loops add to each position the residual stored for its global index and tensor, skipping positions beyond the tensor, and keep other tensors |
| AdaSparseV2.EffectiveEntries | federatedscope/contrib/common/adasparse_lora_utils.py:717-794 | entry by entry: a LoRA tensor gains what is stored for the survivor at its position and is unchanged beyond the survivors; other tensors stay and what is no tensor is left out |
| AdaSparseV2.TensorsOfASlice | federatedscope/contrib/common/adasparse_lora_utils.py:1035-1081 | a slice holds exactly the LoRA tensors that reach the position of every selected survivor, and nothing if no survivor is selected |
| AdaSparseV2.UpdateResidualBuffersAfterUpload | federatedscope/contrib/common/adasparse_lora_utils.py:1141-1214 | the rebuilt buffer holds, for exactly the survivors held back, their slices of every LoRA tensor that reaches their position |
| AdaSparseV2.StepRefinesLedger | federatedscope/contrib/common/adasparse_lora_utils.py:717-1232 | pruning residuals, adding them, uploading and rebuilding, seen from one component, is one turn of the account for the slice read at its position, for deltas of any rank that reaches the survivors |
| AdaSparseV2.Conservation | federatedscope/contrib/common/adasparse_lora_utils.py:1035-1232 | over every run with arbitrary deltas, uploads and shrinking survivors, for every component never pruned: received + stored + lost to absent tensors = initial residual + the delta slices read at its position |
| AdaSparseV2.RoundConservesIffPresent | federatedscope/contrib/common/adasparse_lora_utils.py:1141-1214 | one round satisfies update = sent + kept if and only if the tensor is in the dict or nothing was stored |
| AdaSparseV2.AbsentTensorLosesResidual | federatedscope/contrib/common/adasparse_lora_utils.py:1141-1214 | a stored residual of 5 is gone, unsent, after a round without the tensor |
| AdaSparseV2.ConservationSameTensors | federatedscope/contrib/common/adasparse_lora_utils.py:1035-1232 | from empty buffers and with the tensor present every round, uploads plus residual equal the deltas read |
| WorkerV2.OwnSliceIffPlaceKept | federatedscope/core/workers/client.py:1218-1346 | in the worker's round a component is sent and stored with its own slice, for every delta, if and only if pruning leaves its position unchanged |
| WorkerV2.ConservationIffPlacesKept | federatedscope/core/workers/client.py:1218-1346 | over a run, all that training produced for a component is uploaded or stored, for every choice of deltas, if and only if it keeps its position in every round |
| WorkerV2.KeptPlacesConserve | federatedscope/core/workers/client.py:1218-1346 | a component that keeps its position is conserved in every run, also when tensors are absent in some rounds (their loss counted) |
| WorkerV2.ConservesIffTotalsAgree | federatedscope/core/workers/client.py:1218-1346 | for given deltas the law holds exactly if what was read adds up to what was produced |
| WorkerV2.PlaceKeptIffNothingInFront | federatedscope/contrib/worker/methods/adasparse_lorav2_client.py:428-441 | on ascending lists, stage 1 leaves a survivor's position unchanged exactly if it prunes nothing with a smaller index |
| WorkerV2.PlacesKeptIffPrunedBehind | federatedscope/contrib/worker/methods/adasparse_lorav2_client.py:428-441 | the same over a run of prunings |
| WorkerV2.WhatStage1Leaves | federatedscope/contrib/worker/methods/adasparse_lorav2_client.py:413-441 | of any duplicate-free list stage 1 leaves exactly what is not pruned: in the old order when nothing is pruned, ascending otherwise |
| WorkerV2.PrunedRoundMisattributes | federatedscope/core/workers/client.py:1218-1346 | at a concrete input the server is sent the pruned component's slice for its neighbour |
| Components.GroupComponentIdsByLayer | federatedscope/contrib/common/adasparse_lorav3_utils.py:235-264 | the append-then-sort loops give each layer exactly its indices, sorted |
| Components.SortedIndicesOfSameSet | federatedscope/contrib/common/adasparse_lorav3_utils.py:235-264 | a layer's grouped list depends only on which components are listed |
| Components.LayersPartition | federatedscope/contrib/common/adasparse_lorav3_utils.py:235-264 | each listed component is in its own layer's list and no other, those lists hold nothing else, and their sizes add up |
| Components.OrderOfFirstAppearance | federatedscope/contrib/common/adasparse_lorav3_utils.py:235-264 | layers are listed in the order in which their first components appear |
| Flattening.FlattenGroupedIndicesByLayer | federatedscope/contrib/common/adasparse_lorav3_utils.py:206-232 | the nested loops list the layers in order, each with its indices sorted |
| Flattening.GroupFlatten | federatedscope/contrib/common/adasparse_lorav3_utils.py:206-264 | grouping undoes flattening if and only if no layer is empty and every list is in order |
| Flattening.FlattenGroup | federatedscope/contrib/common/adasparse_lorav3_utils.py:206-264 | flattening a grouping keeps exactly the listed components, each layer's in sorted order |
| Flattening.FlattenIsSorted | federatedscope/contrib/common/adasparse_lorav3_utils.py:206-232 | under any total order of the layer names a flattened dict is sorted by (layer, index) |
| Flattening.FlattenGroupIffSorted | federatedscope/contrib/common/adasparse_lorav3_utils.py:206-264 | flattening undoes grouping if and only if the component list is sorted by (layer, index) |
| LayerKeys.StripUndoesAppend | federatedscope/contrib/common/adasparse_lorav3_utils.py:80-97 | stripping undoes appending a rank suffix to any key, even one that already ends in a number |
| LayerKeys.CanonicalOfForms | federatedscope/contrib/common/adasparse_lorav3_utils.py:37-77 | for every layer name, each of the six suffixes, with or without a rank, comes back to the layer |
| LayerKeys.StripIsExact | federatedscope/contrib/common/adasparse_lorav3_utils.py:80-97 | stripping drops the last dotted part and its dot exactly if that part is not empty and all digits |
| LayerKeys.CanonicalEndings | federatedscope/contrib/common/adasparse_lorav3_utils.py:37-77 | each of the six endings, spelled out, comes off |
| LayerKeys.OtherKeysKeepTheirName | federatedscope/contrib/common/adasparse_lorav3_utils.py:37-77 | a key that after stripping ends in none of the letters the endings have keeps its name |
| AdaSparseV3.ApplyResidualToUpdateGrouped | federatedscope/contrib/common/adasparse_lorav3_utils.py:1254-1322 | layer by layer, both tensors get the residuals of (layer, survivor); layers lacking one tensor are left out |
| AdaSparseV3.EffectiveEntries | federatedscope/contrib/common/adasparse_lorav3_utils.py:1254-1322 | entry by entry: exactly the tensors of listed complete layers are kept, each gaining what is stored for its layer and the survivor at its position, and unchanged beyond the survivors |
| AdaSparseV3.TensorsOfASlice | federatedscope/contrib/common/adasparse_lorav3_utils.py:1068-1120 | a slice holds exactly both tensors of the complete layers with a selected survivor |
| AdaSparseV3.UpdateResidualBuffersAfterUploadGrouped | federatedscope/contrib/common/adasparse_lorav3_utils.py:1187-1251 | the loops slice each survivor that was not uploaded at its position; the rebuilt buffer holds exactly those (layer, survivor) components with their slices |
| AdaSparseV3.StepRefinesLedger | federatedscope/contrib/common/adasparse_lorav3_utils.py:1068-1340 | one v3 round seen from one (layer, index) component is one turn of the account for the slice its dict holds at the component's position, a dropped one if the layer is incomplete, for layer tensors of any rank that reaches the survivors |
| AdaSparseV3.Conservation | federatedscope/contrib/common/adasparse_lorav3_utils.py:1068-1340 | per (layer, index), over every run: received + stored + lost to rounds with an incomplete layer, residuals and deltas alike, = initial residual + what the deltas held at its position |
| AdaSparseV3.RoundConservesIffComplete | federatedscope/contrib/common/adasparse_lorav3_utils.py:1187-1322 | one round satisfies update = sent + kept if and only if the dict has both tensors of the layer or residual and delta add up to nothing |
| AdaSparseV3.IncompleteLayerLosesUpdate | federatedscope/contrib/common/adasparse_lorav3_utils.py:1254-1322 | an update of 7 for an uploaded component, in an A tensor without its B tensor, is neither received nor stored |
| AdaSparseV3.ConservationSameLayers | federatedscope/contrib/common/adasparse_lorav3_utils.py:1068-1340 | from empty buffers and with both tensors of the layer in every round, uploads plus residual equal the deltas |
| WorkerV3.OwnSliceIffPlaceKept | federatedscope/contrib/worker/methods/adasparse_lorav3_client.py:823-960 | in the worker's round a (layer, index) component is sent and stored with its own slice, for every delta, if and only if pruning leaves its position in its layer unchanged |
| WorkerV3.ConservationIffPlacesKept | federatedscope/contrib/worker/methods/adasparse_lorav3_client.py:823-960 | over a run, all that training produced for a component is uploaded or stored, for every choice of deltas, if and only if it keeps its position in every round |
| WorkerV3.KeptPlacesConserve | federatedscope/contrib/worker/methods/adasparse_lorav3_client.py:823-960 | a component that keeps its position is accounted for in every run, also when its layer is incomplete in some rounds (their loss, updates included, counted) |
| WorkerV3.PlaceKeptIffNothingInFront | federatedscope/contrib/worker/methods/adasparse_lorav3_client.py:660-672 | on ascending lists, stage 1 leaves a survivor's position unchanged exactly if it prunes nothing of its layer with a smaller index |
| WorkerV3.PlacesKeptIffPrunedBehind | federatedscope/contrib/worker/methods/adasparse_lorav3_client.py:660-672 | the same over a run of prunings |
| WorkerV3.WhatStage1Leaves | federatedscope/contrib/worker/methods/adasparse_lorav3_client.py:660-675 | the same for each layer's list; every layer stays, and all lists stay as they are when nothing is pruned anywhere |
| SparseApply.WriteDownloaded | federatedscope/contrib/common/adasparse_lora_utils.py:1084-1138 | the in-place writes change exactly the downloaded positions of a tensor |
| SparseApply.FlatRoundTrip | federatedscope/contrib/common/adasparse_lora_utils.py:1035-1138 | applying a v2 slice gives the client the source's slice at each listed component and changes nothing else, with different survivor lists and at any tensor rank |
| SparseApply.FlatTouchesOnlyListed | federatedscope/contrib/common/adasparse_lora_utils.py:1084-1138 | entries that are no LoRA tensor here or in the source stay as they were, and so does everything if no listed component is a survivor |
| SparseApply.GroupedRaisesIff | federatedscope/contrib/common/adasparse_lorav3_utils.py:1123-1180 | applying a slice raises if and only if a listed layer has its A tensor in the model and not its B tensor |
| SparseApply.HalfLayerRaises | federatedscope/contrib/common/adasparse_lorav3_utils.py:1123-1180 | at a concrete input with both tensors in the source and only A in the model, it raises |
| SparseApply.RaisesForListedOnly | federatedscope/contrib/common/adasparse_lorav3_utils.py:1123-1180 | whatever update is applied, it raises if and only if the layer of some listed component has A tensors in the model and in the update and lacks a B tensor in one of them |
| SparseApply.GroupedRoundTrip | federatedscope/contrib/common/adasparse_lorav3_utils.py:1068-1180 | otherwise the same as for v2, per (layer, index), for every order of the list |
| SparseApply.GroupedTouchesOnlyListed | federatedscope/contrib/common/adasparse_lorav3_utils.py:1123-1180 | unless it raises, tensors without a listed component stay as they were |
| SparseApply.GroupedOrderIrrelevant | federatedscope/contrib/common/adasparse_lorav3_utils.py:1068-1180 | two orders of the same component list give the same model |
| LayerSum.ComputeStage2UploadScores | federatedscope/contrib/common/adasparse_lora_utils.py:797-851 | the nested loops add up, per index, the scores v3 gives it in each layer (FlatScoreIsSumOfProducts gives them from the tensors) |
| LayerSum.ComputeStage2UploadScoresGrouped | federatedscope/contrib/common/adasparse_lorav3_utils.py:739-777 | the loops score every survivor position that both tensors of its layer reach (ScoreIsNormProduct gives the value from the tensors) |
| LayerSum.ScoreIsNormProduct | federatedscope/contrib/common/adasparse_lorav3_utils.py:739-777 | a survivor has a score exactly if both tensors of its layer reach its position, and the score is the norm of the A slice times the norm of the B slice there |
| LayerSum.FlatScoreIsSumOfProducts | federatedscope/contrib/common/adasparse_lora_utils.py:835-851 | v2's score of a survivor is the sum of those products over the layers that have both slices |
| LayerSum.ScoresIgnoreScaling | federatedscope/contrib/common/adasparse_lorav3_utils.py:739-777 | scaling every A tensor by s and every B tensor by 1/s changes no score, under any homogeneous norm |
| LayerSum.ComputeComponentUploadCost | federatedscope/contrib/common/adasparse_lora_utils.py:908-945 | every survivor costs all tensors' parameters at q bits plus the metadata |
| LayerSum.ComputeComponentUploadCostGrouped | federatedscope/contrib/common/adasparse_lorav3_utils.py:823-862 | every survivor of a layer with both tensors costs that layer's parameters at q bits plus the metadata |
| LayerSum.LayerCostOfTensors | federatedscope/contrib/common/adasparse_lorav3_utils.py:823-862 | a survivor has a cost exactly if its layer has both tensors, and it is q bits times the sum of their two widths plus the metadata |
| LayerSum.FlatCostIsLayerSum | federatedscope/contrib/common/adasparse_lorav3_utils.py:823-862 | for any dict: v2's cost is the sum of v3's costs, less the metadata v3 counts for every layer with both tensors and v2 once, plus the width of tensors without their partner, which only v2 counts |
| LayerSum.CostsDifferByMetadataIff | federatedscope/contrib/common/adasparse_lorav3_utils.py:823-862 | the costs differ by metadata only if and only if no tensor of positive width lacks its partner (or widths cost nothing) |
| LayerSum.HalfLayerIsCharged | federatedscope/contrib/common/adasparse_lora_utils.py:908-945 | for an A tensor of width 3 without its B tensor v2 charges 56 bits and v3 nothing |
| LayerSum.StepCorrespondsIffPaired | federatedscope/contrib/common/adasparse_lorav3_utils.py:267-327 | with the flat list expanded to all layers, the two residual buffers agree entry by entry after a round if and only if no layer had just one tensor, or everything was uploaded |
| LayerSum.RunCorrespondsIffPaired | federatedscope/contrib/common/adasparse_lorav3_utils.py:1187-1340 | and after every round of a run if and only if every round is like that |
| Lowset.ComputeLowsetAndScore | federatedscope/contrib/common/adasparse_lora_utils.py:192-231 | the low-set is the argsort prefix of the prunable size and the score is its total |
| Lowset.LowsetIsLowest | federatedscope/contrib/common/adasparse_lora_utils.py:192-231 | nothing outside the low-set scores lower, and no other position set of its size has a smaller total |
| Lowset.PartialPruneKeepsTarget | federatedscope/contrib/common/adasparse_lora_utils.py:269-313 | removing any part of the low-set leaves at least max(rank_min, floor(gamma r)) survivors, or all of them |
| Lowset.RoundShrinks | federatedscope/contrib/common/adasparse_lora_utils.py:192-313 | one round above rank_min strictly shrinks the survivors and never below rank_min |
| Lowset.IteratedPruning | federatedscope/contrib/common/adasparse_lora_utils.py:192-313 | over every run the count stays at or above rank_min and ends at exactly rank_min |
| LowsetGrouped.ComputeLowsetGrouped | federatedscope/contrib/common/adasparse_lorav3_utils.py:639-732 | both modes of the method compute their specified low-set and its total score |
| LowsetGrouped.FloorsOfLayers | federatedscope/contrib/common/adasparse_lorav3_utils.py:685-732 | the per-layer floors sum to at most the shared fraction of the total |
| LowsetGrouped.BothModesPruneTheSameNumber | federatedscope/contrib/common/adasparse_lorav3_utils.py:639-732 | both low-sets have exactly max(0, total - max(rank_min, floor(gamma total))) components |
| LowsetGrouped.GlobalLowIsLeast | federatedscope/contrib/common/adasparse_lorav3_utils.py:685-732 | the global low-set has the least total of any component set of its size |
| LowsetGrouped.GlobalNeverPrunesMoreScore | federatedscope/contrib/common/adasparse_lorav3_utils.py:685-732 | it never prunes more score than the per-layer mode |
| LowsetGrouped.LayerKeepsItsFloor | federatedscope/contrib/common/adasparse_lorav3_utils.py:685-732 | per-layer mode leaves a layer of size r at least floor(gamma r) components |
| LowsetGrouped.LayerPrunesItsLowest | federatedscope/contrib/common/adasparse_lorav3_utils.py:685-732 | per-layer mode prunes no component that scores above a kept one of its layer |
| LowsetGrouped.PruningComparesLayers | federatedscope/contrib/common/adasparse_lorav3_utils.py:724-732 | per-layer mode prunes no component that scores above a kept one of any layer that keeps more than its floor |
| LowsetGrouped.TiesGoByOrder | federatedscope/contrib/common/adasparse_lorav3_utils.py:685-732 | equal scores are pruned in the order of the dict in global mode; in per-layer mode in the order in which the layers first appear, and inside a layer by index |
| Greedy.GreedySelect | federatedscope/contrib/common/adasparse_lora_utils.py:983-1032 | the loop takes, in ratio order, each component that still fits |
| Greedy.SelectionIsAffordable | federatedscope/contrib/common/adasparse_lora_utils.py:983-1032 | the selection is a duplicate-free part of the survivors within the budget |
| Greedy.SelectionBound | federatedscope/contrib/common/adasparse_lora_utils.py:983-1032 | its score plus that of the first component that did not fit is at least the score of any affordable set |
| Greedy.UniformSelectionIsOptimal | federatedscope/contrib/common/adasparse_lora_utils.py:983-1032 | for any uniform positive cost it has min(n, floor(budget / cost)) components and the best affordable score |
| Greedy.SelectionIsMaximal | federatedscope/contrib/common/adasparse_lora_utils.py:1023-1032 | the pass goes on after a misfit: with non-negative costs every survivor left out costs more than the budget that is left |
| Greedy.TotalsByDefault | federatedscope/contrib/common/adasparse_lora_utils.py:1011-1018 | a component without a score counts for nothing and one without a cost costs 1 |
| Greedy.TiesGoToTheFirst | federatedscope/contrib/common/adasparse_lora_utils.py:1020-1030 | of two survivors with the same score and cost the one listed first is selected first |
| UploadSelection.FlatUploadIsOptimal | federatedscope/contrib/common/adasparse_lora_utils.py:797-1032 | with the scores and costs that v2 computes, under any non-negative norm and a positive cost, the selection has min(n, floor(budget / cost)) survivors and the best affordable score |
| UploadSelection.CostsPositive | federatedscope/contrib/common/adasparse_lora_utils.py:908-945 | metadata bits make every v2 and v3 cost positive |
| GreedyGrouped.GreedySelectPerLayer | federatedscope/contrib/common/adasparse_lorav3_utils.py:950-982 | each layer greedily spends its proportional share |
| GreedyGrouped.ShareIsProportional | federatedscope/contrib/common/adasparse_lorav3_utils.py:950-960 | a layer's share is the budget times its part of the components |
| GreedyGrouped.SharesSumToBudget | federatedscope/contrib/common/adasparse_lorav3_utils.py:950-982 | the layer shares sum to the budget |
| GreedyGrouped.PerLayerWithinBudget | federatedscope/contrib/common/adasparse_lorav3_utils.py:950-982 | the cost over all layers is within the budget |
| GreedyGrouped.LayerSelectionIsOptimal | federatedscope/contrib/common/adasparse_lorav3_utils.py:950-982 | for costs that are equal inside a layer, the layer's selection is the best its share affords |
| UploadSelection.LayerUploadIsOptimal | federatedscope/contrib/common/adasparse_lorav3_utils.py:739-982 | with the scores and costs that v3 computes, under any non-negative norm and a positive layer cost, each layer's selection is the best its share affords |
| ClientUpload.FlatWithinBudgetIff | federatedscope/core/workers/client.py:1277-1324 | a v2 client's upload keeps within its cached budget if and only if stage 2 is enabled and the budget is not zero, or all survivors fit |
| ClientUpload.GroupedWithinBudgetIff | federatedscope/contrib/worker/methods/adasparse_lorav3_client.py:845-921 | in either mode a v3 client's upload keeps within its cached budget if and only if stage 2 is enabled and some scored component fits it (or its layer's share), or all survivors fit; under a cached zero, if and only if what is scored uses nothing (with nothing scored, or stage 2 disabled: if the survivors use nothing) |
| ClientUpload.TooSmallBudgetUploadsAll | federatedscope/contrib/worker/methods/adasparse_lorav3_client.py:909-921 | a component of cost 2 is uploaded under a budget of 1 |
| ClientUpload.ZeroBudgetUploadsAll | federatedscope/contrib/worker/methods/adasparse_lorav3_client.py:909-921 | in both versions a component of cost 2 is uploaded under a cached budget of zero |
| UploadQuality.FlatUploadIsBest | federatedscope/core/workers/client.py:1277-1324 | with stage 2 enabled, a positive budget and the scores and costs v2 computes, no set of survivors within the budget scores more than what the client uploads, which has min(n, floor(budget / cost)) components |
| UploadQuality.GroupedUploadIsBest | federatedscope/contrib/worker/methods/adasparse_lorav3_client.py:889-921 | in per-layer mode the part of the v3 client's upload that lies in a layer scores at least as much as any of the layer's components that its share affords |
| UploadQuality.GlobalUploadBound | federatedscope/contrib/worker/methods/adasparse_lorav3_client.py:889-921 | in global mode the upload scores at least as much as any affordable set, up to the score of one component |
| UploadQuality.UnlimitedUploads | federatedscope/contrib/worker/methods/adasparse_lorav3_client.py:845-921 | with stage 2 disabled, or no budget or zero cached, v2 uploads every survivor; v3 everything scored if stage 2 is enabled and something is, else every survivor |
| Simulation.StandaloneRunner.RunSimulation | federatedscope/core/fed_runner.py:976-1019 | the loop over the FIFO queue and the priority cache is the state machine of the lemmas below, which say from the fields of the messages which is handled next |
| Simulation.EveryMessageOnce | federatedscope/core/fed_runner.py:976-1019 | at every point what was sent is the initial queue and the handlers' replies, sent = queued + cached + handled, handlers have seen exactly the handled messages at each receiver in order, and at exit every message was handled exactly once |
| Simulation.PoppedIsSeen | federatedscope/core/fed_runner.py:976-1019 | the messages popped from the cache are exactly those for the server alone that were handled, and that the log shows it got |
| Simulation.ServerMessageIsLeast | federatedscope/core/message.py:98-104 | a step shows the server a message of its own exactly if the queue is empty and the cache is not; every other cached message then has a later timestamp, or the same and a larger state, or both the same and a larger serial |
| Simulation.TiesAreFirstComeFirstServed | federatedscope/core/fed_runner.py:976-1019 | in every run, server messages with equal timestamp and state are shown in the order in which they were enqueued |
| Simulation.HeadGoes | federatedscope/core/fed_runner.py:982-994 | outside vertical mode a message for the server alone goes from the queue to the cache and any other is delivered to all its receivers at once |
| Simulation.ExitsAfterItsWork | federatedscope/core/fed_runner.py:976-1019 | under any handlers the loop is over after exactly as many iterations as what was sent needs: two for a message that goes through the cache, one for any other |
| Simulation.QuietRunExits | federatedscope/core/fed_runner.py:976-1019 | with handlers that send nothing that number is known from the initial queue, so the loop ends |
| Simulation.ServerClockIsMonotone | federatedscope/core/fed_runner.py:976-1019 | if everything is enqueued in time, all deliveries to the server have non-decreasing timestamps at every point of the run, in both modes and for any receiver lists |
| Simulation.ClockMonotoneIffInTime | federatedscope/core/fed_runner.py:976-1019 | at exit that condition is also necessary |
| Simulation.AloneInTime | federatedscope/core/fed_runner.py:976-1019 | where messages for the server go to it alone, being enqueued in time means no more than not being older than what it saw last |
| Simulation.ForwardHandlersKeepTheClock | federatedscope/core/fed_runner.py:976-1019 | if messages for the server go to it alone and no handler's reply is older than the message it answers, the server's timestamps never decrease, from every initial queue |
| Simulation.ClockCanGoBack | federatedscope/core/fed_runner.py:976-1019 | at a concrete input the loop ends after four steps and the server has seen time 2, then time 1 |
| Simulation.SharedClockCanGoBack | federatedscope/core/fed_runner.py:919-937 | at a concrete input, in both modes and with handlers that send nothing, the server sees time 2, then time 1, because the messages also go to a client |
| SimulationOnline.OnlineRunner.RunSimulationOnline | federatedscope/core/fed_runner.py:939-974 | the online loop is the state machine of the lemmas below, which say what every iteration does and when it ends |
| SimulationOnline.StepKeepsInv | federatedscope/core/fed_runner.py:939-974 | at every step the broadcast deliveries in the log are the receivers of all finished broadcasts in the order sent, then the first `cur_idx` of the head, with the cursor in range; finished and cached broadcasts are those taken from the queue, and the other deliveries are those of the other messages taken |
| SimulationOnline.EveryBroadcastReachesItsReceivers | federatedscope/core/fed_runner.py:939-974 | at exit, of the initial queue and all replies, the log holds every broadcast at each listed receiver exactly once and in order, every other message likewise, and nothing else |
| SimulationOnline.IterationTakesHead | federatedscope/core/fed_runner.py:946-964 | with messages in the queue an iteration takes exactly its head; a server message with receivers joins the pending ones and the first of these advances by one receiver, any other is delivered to all its receivers |
| SimulationOnline.PendingBroadcastAdvances | federatedscope/core/fed_runner.py:965-971 | with an empty queue and a broadcast pending an iteration makes exactly one more broadcast delivery, to the receiver under the cursor |
| SimulationOnline.ExitsAfterItsWork | federatedscope/core/fed_runner.py:939-974 | under any handlers the loop is over after exactly as many iterations as what was sent needs: one per receiver of a broadcast, one for any other message |
| SimulationOnline.QuietRunExits | federatedscope/core/fed_runner.py:939-974 | with handlers that send nothing that number is known from the initial queue, and then every message of it has been delivered to every receiver |
| BaseQuant.BaseRunner.SetupBaseQuant | federatedscope/core/fed_runner.py:363-437 | from an empty table: disabled, ValueError exactly if the other groups ask for too much, or an assignment of exactly the clients 1..n in which every group but the most common has its rounded count and that one has the rest |
| BaseQuant.EffectiveKeepsRatios | federatedscope/core/fed_runner.py:401-414 | the fractions used have the configured widths and ratios, sum to 1 unless the configured sum is within 0.01 of it, in which case they are the configured ones; an empty table stands for 4, 8 and 16 bits in about equal parts; a table is rejected exactly if its sum is not positive |
| BaseQuant.AllocationFailsIff | federatedscope/core/fed_runner.py:406-437 | for non-negative fractions ValueError occurs exactly for two clients and four groups all above a quarter, never when the fractions sum to 1 |
| BaseQuant.AllocationCanFail | federatedscope/core/fed_runner.py:406-437 | four fractions of 0.252 and two clients are used unnormalized and fail |
| BaseQuant.ExpectedNearShare | federatedscope/core/fed_runner.py:419-432 | fractions summing to 1: the most common group ends within 3/2 of its exact share, the others within 1/2 |
| Sampler.GroupSampler.constructor | federatedscope/core/sampler.py:65-80 | all clients idle but the server, the iterator a permutation of everybody |
| Sampler.GroupSampler.ChangeState | federatedscope/core/sampler.py:22-38 | marks the listed clients; an unknown state changes nothing, an index out of range stops half-way |
| Sampler.GroupSampler.Partition | federatedscope/core/sampler.py:82-97 | all bins but the last have int(len / bins) clients, and no client of an earlier bin is slower than one of a later bin |
| Sampler.GroupSampler.Permute | federatedscope/core/sampler.py:99-106 | the new iterator is the shuffled bins in a permuted order and again a permutation of everybody; each bin keeps its clients |
| Sampler.GroupSampler.Sample | federatedscope/core/sampler.py:108-131 | with enough idle clients it ends, returning `size` distinct, previously idle clients and marking exactly those working; never the server while that is marked working; without shuffling the clients come in the iterator's order for as long as it holds idle ones |
| Sampler.GroupSampler.NextIdle | federatedscope/core/sampler.py:117-126 | the search ends whenever some client is idle, and returns the first idle client the iterator still holds or, if all of those were busy, one of a fresh permutation |
| Sampler.GatherPermuted | federatedscope/core/sampler.py:99-106 | any order of the bins and of the clients within them concatenates to the same clients |
| Bytes.DecodeEncode | distributed/comm/serialization.py:131-139 | UTF-8 decoding undoes encoding, for every text |
| Bytes.EncodeDecode | distributed/control_plane/proto_bridge.py:271-283 | what decodes is the encoding of the result |
| Bytes.AsciiOccurs | distributed/comm/zmq_client_comm.py:255-259 | a separator byte occurs in an encoded name exactly if the character occurs in the name |
| Bytes.KnownCharacters | distributed/comm/serialization.py:131-139 | the encodings that section 7 of RFC 3629 lists |
| Base64.DecodeEncode | distributed/control_plane/proto_bridge.py:346-365 | base64 decoding undoes encoding, for every byte string |
| Base64.ScanShortens | distributed/comm/zmq_client_comm.py:267-269 | decoding any bytes yields at most three for four |
| Base64.KnownValues | distributed/control_plane/proto_bridge.py:346-365 | encodings of section 10 of RFC 4648 and one with the letters for 62 and 63 |
| Base64.DecodeSkips | distributed/comm/zmq_client_comm.py:267-269 | line breaks and spaces anywhere in the text change nothing, and a lone letter does not decode |
| Base64.PaddingEnds | distributed/comm/zmq_client_comm.py:267-269 | a complete padding ends the text, whatever follows |
| Base64.IncompleteQuads | distributed/comm/zmq_client_comm.py:267-269 | texts of one letter, of two without complete padding and of three without padding are rejected |
| Envelope.UnpackPack | distributed/comm/serialization.py:115-164 | packing succeeds exactly for sources of at most 65535 bytes, and unpacking returns type and payload |
| Envelope.Layout | distributed/comm/serialization.py:115-139 | the bytes of an envelope: the code, the length of the source in two bytes, the more significant first, the source, the payload |
| Envelope.Malformed | distributed/comm/serialization.py:142-164 | unpacking fails exactly for fewer than three bytes or an unknown code, and a source length beyond the end leaves an empty payload |
| Frames.TranslationRoundTrip | distributed/control_plane/proto_bridge.py:37-56 | type translation is undone exactly for types that are not wire abbreviations |
| Frames.WireNames | distributed/control_plane/proto_bridge.py:37-56 | the six names and their abbreviations, both ways; every other type is its own name |
| Frames.NoSeparatorNoFrame | distributed/control_plane/proto_bridge.py:253-306 | a frame without its separator is rejected |
| Frames.ReqRoundTrip | distributed/control_plane/proto_bridge.py:286-306 | REQ decoding undoes encoding exactly for types without a space that are not wire abbreviations |
| Frames.PubRoundTrip | distributed/control_plane/proto_bridge.py:253-283 | PUB decoding undoes encoding exactly for such types and device names without a pipe |
| Frames.EnvelopesAreRelayData | distributed/control_plane/proto_bridge.py:328-343 | envelopes pass as relay data exactly for TO_CONTROLLER, FL_PAYLOAD and CONTROL_PLANE |
| Frames.ControlFramesAreNot | distributed/control_plane/proto_bridge.py:328-343 | a control frame does so exactly if its type starts with a control character |
| Downlink.Client.Receive | distributed/comm/zmq_client_comm.py:246-281 | one iteration queues the message and records the envelope size exactly if the frame holds a readable FL payload, and otherwise changes nothing |
| Downlink.DirectFrame | distributed/comm/zmq_client_comm.py:255-265 | the direct frame's envelope is recovered if and only if the name has no pipe and the type is not ACK |
| Downlink.RelayedRawFrame | distributed/comm/zmq_client_comm.py:255-269 | a raw relayed envelope is recovered if and only if its type byte is below 0x20 |
| Downlink.RelayedBase64Frame | distributed/comm/zmq_client_comm.py:255-269 | a base64 relayed envelope is always recovered |
| Downlink.OnlyFlIsHeard | distributed/comm/zmq_client_comm.py:255-281 | of the envelopes that arrive, direct or relayed, exactly the FL payloads are handed on |
| Downlink.SubscriptionIsExact | distributed/comm/zmq_client_comm.py:220-221 | for names without a pipe, prefix subscription delivers a frame to its own name only |
| Downlink.RepublishedRelay | distributed/control_plane/proto_bridge.py:368-385 | through the agent's documented re-publication the frame for the container is its name and the wrapped payload |
| Downlink.FrameReachesItsPlace | distributed/comm/zmq_server_comm.py:303-318 | direct or relayed, raw or base64: a frame is seen at its own place and nowhere else, and there the parse yields exactly the payload |
| Downlink.FrameBytes | distributed/comm/zmq_server_comm.py:303-318 | the bytes of a published frame: name, pipe, envelope; or the device, the relay type and the packaged envelope |
| ServerComm.Server.AddNeighbor | distributed/comm/zmq_server_comm.py:340-352 | an address with both names also becomes the route; other receivers' routes are unchanged |
| ServerComm.Server.Send | distributed/comm/zmq_server_comm.py:268-326 | one frame per receiver that can be routed, in order: for a list its elements, for one id that one, for nobody in particular every neighbor |
| ServerComm.SendReaches | distributed/comm/zmq_server_comm.py:268-326 | after a send a client at a clean place has heard the payload once per element of the list that is routed to it; for a single id exactly if that is routed to it; for everybody once per neighbor routed to it |
| ServerComm.RoutesResolve | distributed/comm/zmq_server_comm.py:286-298 | a receiver's route is the table's entry, else the neighbor's two names, each replaced by its default if missing; it has none exactly if its address is no dict |
| ServerComm.DefaultRoutesDiffer | distributed/comm/zmq_server_comm.py:286-298 | receivers known to neither table get different places |
| ServerComm.DefaultRoutesAreClean | distributed/comm/zmq_server_comm.py:286-298 | default names frame correctly |
| ServerComm.SendDelivers | distributed/comm/zmq_server_comm.py:268-326 | after a send each client has heard the payload, unchanged, once per receiver routed to it and nothing else |
| ServerComm.UplinkDelivers | distributed/comm/zmq_client_comm.py:294-330 | a client's frame, direct or through the agent, gives the server exactly the payload; sending fails exactly for a container name over 65535 bytes |
| ServerComm.UplinkBytes | distributed/comm/zmq_client_comm.py:294-330 | the bytes of a client's frame: type and space if relayed, code 1, length and name of the container, payload |
| ServerComm.OnlyOwnFramesAreHeard | distributed/comm/zmq_server_comm.py:204-266 | the server takes a frame for a client's message exactly if the envelope is one for the controller and, when relayed, so is the frame |
| MessageTree.BuildMsgValue | federatedscope/core/message.py:147-213 | the recursive filling of lists and dicts computes the specified message or fails where it does |
| MessageTree.ParseBuild | federatedscope/core/message.py:147-245 | building succeeds exactly on supported values, and parsing the result gives the value with tuples turned into lists |
| MessageTree.ParseTransform | federatedscope/core/message.py:215-253 | the same for the six fields of a message |
| MessageTree.MeaningIsExact | federatedscope/core/message.py:232-245 | values of nested lists, strings, integers and exact floats are determined by what parsing returns |
| MessageTree.IntegersThatFit | federatedscope/core/message.py:147-213 | integers and integer keys are accepted exactly from -2147483648 to 2147483647 |

## Left out

- Tensor libraries: devices, dtypes, autograd and float rounding; slices are exact reals and norms any function (non-negative where that matters). The `+=` of a residual assumes equal shapes, as torch would otherwise raise.
- Two differently spelled keys for the same layer and side: a key is its layer and side, so a dict holds each once (`LayerKeys` proves the spelling part). Layer names that themselves contain `lora_A` or `lora_B` are excluded with it.
- Scores from model weights, layer-median normalization, importance priors and downlink scores and costs: they only rename what the upload forms prove.
- `distribute_weights_by_indices`, the aggregators and the weight loader: external to the functions modelled, so nothing is claimed end to end through them.
- How a download is written into the client's tensors between rounds: each round's delta is arbitrary, and the slice at a position of the survivor list the round began with is what counts as trained for that component. A partial v2 download rewrites only the downloaded positions; what older prunings left at the others is not followed up.
- Runs with residuals disabled: the buffers are then written and never added.
- AdaSparseV3.UpdateResidualBuffersAfterUploadGrouped: duplicate-free survivor lists, as everywhere in the bookkeeping; of a duplicated index the last position that has a slice would win.
- The order `torch.argsort` returns for equal scores: any sorted order is allowed.
- Simulation: the time_up branch, message byte counting, receivers that are a bare number instead of a list (they are one-element lists here, so one for the server alone goes through the cache), and heapq internals (extract-min).
- Simulation.StandaloneRunner.RunSimulation: stops after a given number of iterations, because arbitrary handlers need not let the loop end; the lemmas hold for every number.
- SimulationOnline.OnlineRunner.RunSimulationOnline: likewise; receivers without a length, on which the source raises, are not modelled.
- BaseQuant.BaseRunner.SetupBaseQuant: takes the parsed distribution; reading the configuration and logging are not modelled, and the binary rounding of `fraction * num_clients` is not (fractions are exact, so an input on the boundary of the tolerance or of a rounding may fall on the other side in doubles).
- Sampler.GroupSampler.Sample: requires as many idle clients as it is asked for; with fewer the source loops for ever. Negative client indices are not modelled, and a sampler of zero bins is excluded because the source divides by it.
- Sampler.GroupSampler.ChangeState: a single index is passed as a list of one.
- UniformSampler and the responsiveness sampler: one library call each.
- Sockets, threads, locks, timeouts, zlib, pickle, torch.save and protobuf byte encoding: the codec of PackagedMsg is any pair of functions where parsing undoes serializing, deserialization any partial function.
- The C++ device agent: only its documented re-publication format is used; it is not part of this model.
- Container and device messages other than the relay, device types and the bandwidth measurement.
- MessageTree: numpy scalars other than through their Python type, booleans as dict keys, and which single-precision value a float rounds to (a parameter). The wrapping of nested and top-level messages by `nested` is one function here.
- Bytes.Decode: texts are Unicode scalar values; Python strings with lone surrogates cannot be encoded by the source either.
- `transform_to_list`, JSON messages, the gRPC transport and the deprecated FedRunner loops.
