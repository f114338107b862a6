# SDF sphere editor: a verified model of its core

The editor is a Bevy application that draws spheres as signed distance
fields. A full-screen ray-marching pass is guided by a coarse low-resolution
prepass and by a bounding volume hierarchy (BVH) over the spheres. A compute
pipeline evaluates the distance field at query points on the GPU and sends
the results back to the main world. A JavaScript-facing command bridge spawns
spheres, switches the application mode and requests evaluations. Clicks
select spheres when the current mode allows selection.

This project models that core in Dafny. It covers:

- **Mode state.** The `AppModeState` resource (`mode.dfy`).
- **Selection.**
  - The selection state and its `Selected` marker, as the gated and the ungated versions of the selection system keep them (`selection.dfy`, `selection_ungated.dfy`).
- **Command queues.**
  - The queues of the two command bridges and the systems that drain them (`command_bridge.dfy`, `js_bridge.dfy`).
- **Render world.**
  - Entity snapshot and its key sort (`sdf_render.dfy`, `keyed_sort.dfy`).
  - BVH packing with its clamp of infinities (`sdf_render.dfy`).
  - GPU storage buffers and their growth (`scene_buffers.dfy`).
  - Settings counters (`scene_buffers.dfy`).
  - Gating of the coarse and main passes (`sdf_render.dfy`).
  - The coarse texture's size (`sdf_render.dfy`).
  - The earlier versions of the render plugin and the post-process plugin (`sdf_render_legacy.dfy`, `post_process.dfy`).
- **Evaluation pipeline.**
  - The channel-based version (`sdf_compute.dfy`).
  - The version with request ids (`sdf_compute_by_id.dfy`).
  - In both versions: buffer growth, workgroup count, copy into the readback buffer, map/read/unmap cycle and reply order.

Each ECS system that changes resources in place is a method of a class whose
fields are those resources. The method's contract ties the new state to a
pure step function of the old state. Invariants and scenarios are proved as
lemmas about the step functions. Queries, channels and GPU commands become
sequences:

- a frame's channel contents are a `seq`;
- the recorded copy and dispatch commands are values;
- the bytes of a mapped range are a `seq<bv8>`.

Rust integer behaviour is written out:

- `u32` wrap-around of the spawn counter and of the workgroup sum;
- `AtomicU64` wrap of the request-id counter;
- saturating `f32 as u32` casts.

`f32` values are modelled as reals. `ExtFloat` adds the infinities and NaN
where `gpu_friendly_f32` needs them.

## Model

| member | source | states |
|---|---|---|
| Geometry.ProjectXY | src/command_bridge.rs:100-104 | each query point is the sphere position's x and y, one per input point, in order |
| Geometry.ToGpuPoints | src/js_bridge.rs:62-68 | the conversion loop yields exactly the xy projection of the input points |
| KeyedSort.SortByKey | src/sdf_render.rs:279 | the sort keeps the number of elements (sortedness and permutation: SortByKeyCorrect) |
| KeyedSort.SortByKeyCorrect | src/sdf_render.rs:278-279 | sorting by node index gives a sorted permutation of the input |
| KeyedSort.InsertPermutes | src/sdf_render.rs:278-279 | inserting one element adds exactly that element to the multiset |
| KeyedSort.InsertKeepsSorted | src/sdf_render.rs:278-279 | inserting into a key-sorted list keeps it sorted |
| SceneBuffers.GrownCapacity | src/sdf_render.rs:464-470 | a recreated buffer holds the request and at least 1024 bytes, and at least twice the request under the doubling policy |
| SceneBuffers.NextCapacity | src/sdf_render.rs:405-417 | the capacity changes only when the buffer is absent or too small, never shrinks, and always holds the request |
| SceneBuffers.NoShrinkOnSmallerRequest | src/sdf_render.rs:464-470 | a smaller request after a larger one keeps the larger capacity |
| SceneBuffers.CapacityNeverShrinks | src/sdf_render.rs:442-484 | over any sequence of updates the capacity never decreases and holds the last request |
| SceneBuffers.Overwrite | src/sdf_render.rs:476-481 | a write at offset 0 replaces the prefix and keeps the old tail |
| SceneBuffers.StorageBuffer.constructor | src/sdf_render.rs:55-73 | a new storage resource has no buffer and no data |
| SceneBuffers.StorageBuffer.Update | src/sdf_render.rs:455-483 | the data is mirrored, the buffer is recreated exactly when it is too small, recreation drops old contents, and an empty update writes nothing |
| SceneBuffers.UpdateFromExtracted | src/sdf_render/mod.rs:190-225 | with extracted data the buffer mirrors it with doubling growth, is recreated exactly when too small (dropping its old contents), and holds the data at offset 0 after the write; without data nothing changes; there is no change check; `update_transform_buffer` in src/post_process/mod.rs:168-202 is the same update |
| SceneBuffers.SettingsCounts.constructor | src/sdf_render.rs:1047-1063 | both counters of new settings are zero |
| SceneBuffers.SyncedCount | src/sdf_render.rs:487-499 | the count is the length as a u32 (wrapped modulo 2^32), or 0 when the resource is missing |
| Wrappers.AsU32 | src/sdf_render.rs:495 | a `usize as u32` cast keeps the value below 2^32 and wraps it modulo 2^32 above |
| SceneBuffers.SetEntityCounts | src/sdf_render/mod.rs:228-256 | every camera's entity count becomes the synced count, and its BVH count is kept |
| SceneBuffers.SetBvhNodeCounts | src/sdf_render.rs:294-317 | every camera's node count becomes the synced count, and its entity count is kept |
| SdfRender.GpuFriendly | src/sdf_render.rs:320-327 | infinities become plus or minus 99999999; finite values and NaN pass unchanged |
| SdfRender.EntityAabbBoundsSphere | src/sdf_render.rs:83-92 | the box is centred on the entity with side 2*(scale+0.5), and contains the sphere with a 0.5 margin |
| SdfRender.EntityAabb | src/sdf_render.rs:83-92 | on each axis the box spans the sphere, position ± scale, widened by the 0.5 smoothing margin on both sides |
| SdfRender.PackAll | src/sdf_render.rs:280-288 | one xyz+scale vector per entity, in order |
| SdfRender.CollectEntityData | src/sdf_render.rs:254-291 | the snapshot is rebuilt only when it is missing or an entity changed |
| SdfRender.CollectEntityDataSorted | src/sdf_render.rs:278-290 | a rebuilt snapshot packs a node-index-sorted permutation of the entities |
| SdfRender.EntityComponent.constructor | src/sdf_render.rs:77-81 | a component stores its node index, position and scale |
| SdfRender.SyncEntityPositions | src/sdf_render.rs:433-439 | each entity whose transform changed takes the transform's translation, and the others are untouched; src/sdf_render/mod.rs:181-187 is the same system |
| SdfRender.ToBvhNode | src/sdf_render.rs:350-372 | indices are copied, padding repeats the shape index, corners carry no infinity, and every finite coordinate of both corners is kept |
| SdfRender.ToBvhNodes | src/sdf_render.rs:350-372 | one GPU node per flattened node, in order |
| SdfRender.ShapesFor | src/sdf_render.rs:336-346 | entity i of the builder input has node index i and the snapshot's position and scale |
| SdfRender.PackingKeepsLeaves | src/sdf_render.rs:350-372 | the GPU array has exactly as many leaves as the flattened hierarchy |
| SdfRender.BuildEntityBvh | src/sdf_render.rs:330-378 | a hierarchy is built iff the snapshot changed, and it is node for node the packing of the builder's output |
| SdfRender.UpdateTransformBuffer | src/sdf_render.rs:442-484 | an unchanged or missing snapshot leaves the buffer alone; otherwise it mirrors the snapshot with doubling growth, is recreated exactly when too small, and holds the snapshot at offset 0 after the write |
| SdfRender.UpdateBvhBuffer | src/sdf_render.rs:380-431 | a changed hierarchy is mirrored with exact-size growth, the buffer is recreated exactly when too small, and it holds the nodes at offset 0 after the write; otherwise nothing changes |
| SdfRender.UpdateEntityCountInSettings | src/sdf_render.rs:487-499 | every camera's entity count is the snapshot length |
| SdfRender.UpdateRenderWorldEntityCount | src/sdf_render.rs:502-515 | every camera's entity count is the buffer's length |
| SdfRender.UpdateBvhNodeCountInSettings | src/sdf_render.rs:309-317 | every camera's node count is the hierarchy's length |
| SdfRender.UpdateRenderWorldBvhCount | src/sdf_render.rs:294-306 | every camera's node count is the node buffer's length |
| SdfRender.MainPassRun | src/sdf_render.rs:555-706 | draws once iff it is enabled, all resources are ready and the coarse texture exists; flips the view target iff all but the coarse texture are ready; does nothing when disabled |
| SdfRender.MainPassFlipsWithoutDrawing | src/sdf_render.rs:636-649 | without a coarse texture the pass flips the target and draws nothing |
| SdfRender.MainPassRunCorrected | src/sdf_render.rs:636-649 | same draws as the pass, and it flips iff it draws |
| SdfRender.CoarsePrepassRun | src/sdf_render.rs:716-812 | the prepass never flips, and draws once iff it is enabled with pipeline, settings, buffers and coarse texture |
| SdfRender.FrameGating | src/sdf_render.rs:565-569 | a disabled renderer draws nothing; when everything is ready both passes draw; a missing BVH buffer suppresses the main pass |
| SdfRender.F32ToU32 | src/sdf_render.rs:1176-1177 | the cast truncates toward zero and saturates at 0 and u32::MAX |
| SdfRender.CoarseTextureSize | src/sdf_render.rs:1172-1182 | width is max(floor(1920*factor), 1) and height is max(floor(1080*factor), 1) |
| SdfRender.DefaultCoarseTextureSize | src/sdf_render.rs:1058-1060 | the default factor 1/16 gives a 120 by 67 texture |
| SdfRender.ManageCoarsePassTexture | src/sdf_render.rs:1160-1211 | with one camera a texture of the desired size is created iff none of that size exists; otherwise nothing is created |
| SdfRender.CoarseTextureStable | src/sdf_render.rs:1185-1189 | running the manager again creates nothing |
| SdfRender.RenderEnabled.constructor | src/sdf_render.rs:1078-1082 | rendering starts enabled, as in src/sdf_render/mod.rs:547-551 |
| SdfRenderLegacy.CollectEntityDataEveryFrame | src/sdf_render/mod.rs:165-179 | one packed vector per entity, rebuilt every frame |
| SdfRenderLegacy.CollectEveryFrameSorted | src/sdf_render/mod.rs:165-179 | the snapshot is a sorted permutation, and equals the newer plugin's rebuild whatever changed |
| SdfRenderLegacy.LegacyPassRun | src/sdf_render/mod.rs:289-424 | draws once iff it is enabled with pipeline, settings, depth and transforms, and flips iff it draws |
| SdfRenderLegacy.LegacyPassAgreesWithMainPass | src/sdf_render/mod.rs:289-424 | with a coarse texture and a BVH, the newer main pass draws exactly when this pass does |
| PostProcess.CollectEntityTransforms | src/post_process/mod.rs:155-165 | one matrix per entity, computed from that entity's transform, in order |
| PostProcess.PostProcessRun | src/post_process/mod.rs:266-385 | draws once iff pipeline, settings, depth and transforms are ready, and flips iff it draws |
| PostProcess.PostProcessIsUngatedLegacyPass | src/post_process/mod.rs:266-385 | the pass is the earlier render pass with no enable switch |
| PostProcess.TransformFrame | src/post_process/mod.rs:155-233 | the buffer mirrors the frame's matrices, and every camera's count is their number |
| Mode.AppModeState.constructor | src/mode.rs:22-32 | the start mode is Translate, and selection is enabled only in Translate |
| Mode.AppModeState.SetMode | src/mode.rs:35-45 | afterwards exactly the given mode is current, and selection is enabled iff that mode allows it |
| Mode.AppModeState.EnableSelectionForMode | src/mode.rs:47-49 | the mode joins the selection set, and the current mode is kept |
| Mode.AppModeState.DisableSelectionForMode | src/mode.rs:51-53 | the mode leaves the selection set, and the current mode is kept |
| Mode.SwitchMode | src/mode.rs:57-59 | the current mode becomes the given one |
| Mode.SwitchToTranslateMode | src/mode.rs:62-64 | the current mode becomes Translate |
| Mode.SwitchToBrushMode | src/mode.rs:66-68 | the current mode becomes Brush |
| Selection.ClickStep | src/selection.rs:34-63 | with selection disabled nothing changes; otherwise the clicked entity becomes selected and marked, the previous one is deselected, and the events say so |
| Selection.ClickKeepsMarker | src/selection.rs:34-63 | clicking keeps the marker set equal to the selection |
| Selection.ModeChangeStep | src/selection.rs:64-72 | the tracked selection is cleared only when the mode changed and selection is disabled in the new mode; markers and events are kept |
| Selection.StaleMarkerAsWritten | src/selection.rs:64-72 | after a mode change and a click, two entities carry the marker |
| Selection.ModeChangeStepCorrected | src/selection.rs:64-72 | the corrected change also removes the marker and fires a deselection |
| Selection.ModeChangeCorrectedKeepsMarker | src/selection.rs:64-72 | the corrected change keeps the marker set equal to the selection |
| Selection.StaleMarkerCorrected | src/selection.rs:64-72 | with the correction only the clicked entity is marked, and events are Deselected then Selected |
| Selection.SelectionWorld.constructor | src/selection.rs:20-24 | nothing is selected or marked at start |
| Selection.SelectionWorld.HandleSelection | src/selection.rs:34-63 | the world takes the click step, gated by the mode's selection switch |
| Selection.SelectionWorld.OnChangeAppMode | src/selection.rs:64-72 | on a mode change the world takes the mode-change step; otherwise nothing changes |
| SelectionUngated.UngatedClickStep | src/selection/mod.rs:32-56 | every click selects the clicked entity |
| SelectionUngated.UngatedClickEvents | src/selection/mod.rs:41-55 | clicking the selected entity fires nothing; a first click fires Selected; a switch fires Deselected then Selected |
| SelectionUngated.HandleSelectionUngated | src/selection/mod.rs:32-56 | the world takes the click step with no mode gate |
| CommandBridge.ModeName | src/command_bridge.rs:157-165 | each mode has its own name |
| CommandBridge.ParseMode | src/command_bridge.rs:122-130 | exactly the two mode names parse |
| CommandBridge.ModeNameRoundTrip | src/command_bridge.rs:122-165 | a mode's name parses back to the mode, and a name that parses is that mode's name; src/js_bridge.rs:82-91 parses the same names |
| CommandBridge.MonitorModeChanges | src/command_bridge.rs:157-165 | an event carrying the mode's name is sent iff the mode changed; src/js_bridge.rs:122-130 is the same monitor |
| CommandBridge.NextIndex | src/command_bridge.rs:77-78 | the counter advances by one modulo 2^32 |
| CommandBridge.Interpret | src/command_bridge.rs:60-137 | a spawn adds one sphere with the next index; an evaluation logs the projected points; a valid mode name sets the mode; the post-process flag is set |
| CommandBridge.InterpretAll | src/command_bridge.rs:70-136 | draining a queue adds exactly one entity per spawn command and never drops a started evaluation |
| CommandBridge.InterpretAllConcat | src/command_bridge.rs:70-136 | draining two queues in turn equals draining their concatenation |
| CommandBridge.SpawnIndicesConsecutive | src/command_bridge.rs:77-78 | the k-th spawned sphere gets index (counter+k) mod 2^32 |
| CommandBridge.SpawnIndicesDistinct | src/command_bridge.rs:18-22 | from a fresh counter, up to 2^32 spawns get the distinct indices 0..n-1 |
| CommandBridge.Bridge.constructor | src/command_bridge.rs:18-22 | the queue is empty and the counter is 0 at start |
| CommandBridge.Bridge.ProcessAppCommands | src/command_bridge.rs:60-137 | the queue is drained and the state becomes the interpretation of the whole queue |
| CommandBridge.Bridge.SpawnSphereAtOrigin | src/command_bridge.rs:140-146 | a white unit sphere spawn at the origin is queued |
| CommandBridge.Bridge.SpawnSphereAtPos | src/command_bridge.rs:148-154 | a white spawn with the given position and scale is queued |
| CommandBridge.Bridge.PushSetMode | src/command_bridge.rs:168-172 | a mode command carrying the name is queued |
| CommandBridge.Bridge.PushSetPostProcessEnabled | src/command_bridge.rs:175-177 | a post-process command carrying the flag is queued |
| CommandBridge.SpawnAtPosIsProcessed | src/command_bridge.rs:148-154 | the queued spawn yields one sphere at that position and scale |
| CommandBridge.SetModeCommands | src/command_bridge.rs:122-131 | a valid mode name switches the mode, and an unknown name leaves it |
| JsBridge.InterpretJs | src/js_bridge.rs:35-94 | a spawn adds a radius-1 sphere; an evaluation sends an id-tagged request of the projected points; a mode name switches the mode |
| JsBridge.InterpretAllJs | src/js_bridge.rs:44-93 | draining a queue adds exactly one sphere per spawn command and never drops a sent request |
| JsBridge.OneSpherePerSpawn | src/js_bridge.rs:46-60 | the number of spheres grows by the number of spawn commands |
| JsBridge.SentIdsConsecutive | src/js_bridge.rs:62-68 | evaluation requests carry consecutive ids modulo 2^64 |
| JsBridge.SentIdsAreIssuedIds | src/js_bridge.rs:62-68 | the sent ids are those the `fetch_add` calls of evaluate_sdf_async (IdsFrom) issue from the counter, and fewer than 2^64 of them are pairwise distinct |
| JsBridge.JsQueue.constructor | src/js_bridge.rs:25-29 | the queue is empty at start |
| JsBridge.JsQueue.ProcessJsCommands | src/js_bridge.rs:35-94 | the queue is drained, and the state is the interpretation of the whole queue under the shared id counter |
| JsBridge.JsQueue.SpawnSphereAtOrigin | src/js_bridge.rs:97-102 | a white spawn at the origin is queued |
| JsBridge.JsQueue.TestSdfEvaluation | src/js_bridge.rs:105-119 | an evaluation of the six test points is queued |
| JsBridge.JsQueue.PushSetMode | src/js_bridge.rs:133-137 | a mode command is queued |
| JsBridge.TestEvaluationSendsSixPoints | src/js_bridge.rs:105-119 | processing the test command sends one request of six points |
| SdfCompute.InitialBuffers | src/sdf_compute.rs:113-147 | three zeroed, unmapped buffers for 1024 points |
| SdfCompute.GrownCapacity | src/sdf_compute.rs:297-322 | the capacity grows to max(2n, 1024) only when n points do not fit, and never shrinks |
| SdfCompute.Upload | src/sdf_compute.rs:290-330 | an empty request changes nothing; otherwise its points are at offset 0, and growth recreates all three buffers unmapped |
| SdfCompute.UploadAll | src/sdf_compute.rs:286-331 | the buffers stay well formed over a whole batch |
| SdfCompute.NonEmptyMembers | src/sdf_compute.rs:290-295 | exactly the requests with points are queued |
| SdfCompute.EmptyRequestsIgnored | src/sdf_compute.rs:290-295 | a batch of empty requests changes nothing |
| SdfCompute.UploadAllCapacity | src/sdf_compute.rs:297-322 | after a batch the capacity has not shrunk and holds every request |
| SdfCompute.LastRequestWins | src/sdf_compute.rs:324-327 | after a batch the query prefix holds the last non-empty request's points |
| SdfCompute.GrowthExample | src/sdf_compute.rs:297-305 | a 2000-point request grows the initial buffers to 4000 |
| SdfCompute.MaxPoints | src/sdf_compute.rs:462-470 | the largest point count among queued requests, attained, or 0 |
| SdfCompute.WorkgroupsIsCeiling | src/sdf_compute.rs:473 | without overflow the dispatch is ceil(n/64) workgroups |
| SdfCompute.WorkgroupsWrap | src/sdf_compute.rs:473 | the u32 sum wraps and dispatches 0 workgroups for 2^32-63 points |
| SdfCompute.Workgroups | src/sdf_compute.rs:468-473 | the count of `(max_points as u32 + 63) / 64` fits a u32, and without overflow 64 times it is the least multiple of 64 at or above the truncated count |
| SdfCompute.NodeCommands | src/sdf_compute.rs:437-496 | the dispatch needs bind groups, pipeline and requests; the copy needs requests; nothing is recorded while a mapping is pending |
| SdfCompute.Dispatch | src/sdf_compute.rs:464-476 | slots covered by the dispatch hold their query point's result, and the others are kept |
| SdfCompute.ApplyCommands | src/sdf_compute.rs:484-492 | the copy makes the readback equal to the results |
| SdfCompute.ChunksExact | src/sdf_compute.rs:371 | the range yields floor(len/4) chunks |
| SdfCompute.ChunkAt | src/sdf_compute.rs:371 | chunk k is bytes 4k to 4k+3 |
| SdfCompute.ChunkToRecord | src/sdf_compute.rs:372-375 | the conversion succeeds iff the chunk has four bytes |
| SdfCompute.DecodeChunks | src/sdf_compute.rs:369-377 | a successful read has one record per chunk, each the conversion of its chunk; a failed read names a chunk whose conversion failed |
| SdfCompute.ReadRecords | src/sdf_compute.rs:362-378 | a successful read of `chunks_exact(4).take(n)` has min(n, len/4) records |
| SdfCompute.DecodeErrorPersists | src/sdf_compute.rs:362-378 | a failed conversion is the result of the whole read |
| SdfCompute.DecodeChunksOk | src/sdf_compute.rs:362-378 | whole chunks always convert, one record per chunk |
| SdfCompute.ReadRecordsOk | src/sdf_compute.rs:362-378 | the read never fails and yields min(n, len/4) records |
| SdfCompute.ReadMappedRange | src/sdf_compute.rs:362-378 | the read loop computes exactly the specified records |
| SdfCompute.ProcessStep | src/sdf_compute.rs:276-332 | the batch is uploaded and its non-empty requests are queued in order |
| SdfCompute.DrainRequests | src/sdf_compute.rs:286-331 | the loop over the channel leaves exactly the buffers of the batch upload, and queues exactly the non-empty requests in arrival order |
| SdfCompute.NodeStep | src/sdf_compute.rs:437-496 | the node changes only the device buffers, and nothing when idle or mapping |
| SdfCompute.InitiateStep | src/sdf_compute.rs:334-346 | every queued request moves to ready-for-mapping |
| SdfCompute.ReadbackStep | src/sdf_compute.rs:348-426 | a pending request is answered once mapped and the buffer is unmapped; then the next ready request's mapping starts |
| SdfCompute.ReplyContents | src/sdf_compute.rs:385-394 | a reply carries min(n, len/4) records of the mapped range |
| SdfCompute.ReplyHasOneResultPerPoint | src/sdf_compute.rs:359-394 | read from the whole capacity*4-byte buffer, the reply to the pending request has exactly one record per query point, record k being bytes 4k..4k+3 |
| SdfCompute.ProcessKeepsOrder | src/sdf_compute.rs:328-330 | requests keep arrival order through processing |
| SdfCompute.InitiateKeepsOrder | src/sdf_compute.rs:334-346 | moving to ready-for-mapping keeps the order |
| SdfCompute.ReadbackKeepsOrder | src/sdf_compute.rs:348-426 | replies go out in arrival order |
| SdfCompute.InitialConsistent | src/sdf_compute.rs:268-274 | the start state is consistent |
| SdfCompute.ProcessKeepsConsistent | src/sdf_compute.rs:276-332 | processing keeps the pipeline invariant |
| SdfCompute.NodeKeepsConsistent | src/sdf_compute.rs:437-496 | the node keeps the invariant |
| SdfCompute.InitiateKeepsConsistent | src/sdf_compute.rs:334-346 | initiation keeps the invariant |
| SdfCompute.ReadbackKeepsConsistent | src/sdf_compute.rs:348-426 | readback keeps the invariant |
| SdfCompute.NoCopyIntoMappedBuffer | src/sdf_compute.rs:484-492 | the node never copies into a mapped readback buffer |
| SdfCompute.GrowthUnmapsPendingReadback | src/sdf_compute.rs:297-322 | growth while a mapping is pending leaves the readback buffer unmapped |
| SdfCompute.DispatchCovers | src/sdf_compute.rs:473-476 | a dispatch sized for n points evaluates the first n slots |
| SdfCompute.LoneRequestFirstFrame | src/sdf_compute.rs:276-496 | a lone request is evaluated, copied and mapped in its first frame |
| SdfCompute.AnswerFrame | src/sdf_compute.rs:348-426 | the next signalled frame answers it |
| SdfCompute.LoneRequestAnsweredFromOwnPoints | src/sdf_compute.rs:276-496 | a lone request is answered from its own points, with one result per point when the whole buffer is read |
| SdfCompute.StaleReplyAsWritten | src/sdf_compute.rs:334-346 | a request arriving during a mapping is answered from the previous request's points |
| SdfCompute.InitiateStepCorrected | src/sdf_compute.rs:334-346 | while a mapping is pending nothing moves; otherwise it is the original step |
| SdfCompute.CorrectedMovesOnlyCopiedRequests | src/sdf_compute.rs:334-346 | with the correction, only copied requests reach mapping |
| SdfCompute.CorrectedKeepsConsistent | src/sdf_compute.rs:334-346 | the corrected step keeps the invariant |
| SdfCompute.StaleReplyCorrected | src/sdf_compute.rs:334-346 | with the correction each request is answered from its own points |
| SdfCompute.ComputePipeline.constructor | src/sdf_compute.rs:106-147 | the pipeline starts in the initial state |
| SdfCompute.ComputePipeline.ProcessSdfRequests | src/sdf_compute.rs:276-332 | the system performs the processing step and keeps the pipeline consistent |
| SdfCompute.ComputePipeline.ComputeNodeRun | src/sdf_compute.rs:437-496 | the recorded commands and the new state are the node's |
| SdfCompute.ComputePipeline.InitiateGpuReadback | src/sdf_compute.rs:334-346 | the queue is appended to ready-for-mapping and emptied |
| SdfCompute.ComputePipeline.PerformDelayedReadback | src/sdf_compute.rs:348-426 | the state becomes the readback step, and a signalled reply carries one result per point of its request |
| SdfComputeById.RequestIdCounter.constructor | src/sdf_compute/mod.rs:78 | the id counter starts at 0 |
| SdfComputeById.RequestIdCounter.FetchAdd | src/sdf_compute/mod.rs:514 | returns the old value and advances modulo 2^64 |
| SdfComputeById.IdsFrom | src/sdf_compute/mod.rs:514 | the k-th id is (start+k) mod 2^64 |
| SdfComputeById.IdsDistinct | src/sdf_compute/mod.rs:78 | up to 2^64 ids are distinct, and increasing without wrap |
| SdfComputeById.PollStep | src/sdf_compute/mod.rs:488-506 | Ready iff the head response has the id; the head is consumed either way |
| SdfComputeById.PollDropsForeignResponse | src/sdf_compute/mod.rs:494-502 | a response for another future is dropped, and that future stays pending |
| SdfComputeById.PollStepCorrected | src/sdf_compute/mod.rs:494-502 | Ready iff some response has the id; only that one is removed |
| SdfComputeById.PollKeepsForeignResponse | src/sdf_compute/mod.rs:494-502 | with the correction the other future still gets its response |
| SdfComputeById.SdfEvaluationFuture.constructor | src/sdf_compute/mod.rs:519-525 | a new future holds its id and the receiver |
| SdfComputeById.SdfEvaluationFuture.Poll | src/sdf_compute/mod.rs:488-506 | a poll performs the poll step and stores the waker |
| SdfComputeById.EvaluateSdfAsync | src/sdf_compute/mod.rs:510-526 | the request carries a fresh id, and the future waits for that id |
| SdfComputeById.Accept | src/sdf_compute/mod.rs:283-322 | an empty request is skipped; otherwise it is queued with its count, and growth unmaps |
| SdfComputeById.ProcessStepById | src/sdf_compute/mod.rs:275-324 | processing never shrinks the buffers and does not touch the slot |
| SdfComputeById.ProcessAppendsInOrder | src/sdf_compute/mod.rs:318-322 | non-empty requests are appended in order, and each fits |
| SdfComputeById.NodeCommandsById | src/sdf_compute/mod.rs:419-476 | the copy is recorded iff requests are queued, with no check for a pending mapping |
| SdfComputeById.MaxCount | src/sdf_compute/mod.rs:447-453 | the largest queued count, attained, or 0 |
| SdfComputeById.CollectRecords | src/sdf_compute/mod.rs:340-356 | min(count, len/4) records from the mapped range |
| SdfComputeById.CollectAgreesWithReadLoop | src/sdf_compute/mod.rs:340-356 | the read agrees with the channel version's read |
| SdfComputeById.AnswerPending | src/sdf_compute/mod.rs:336-370 | the pending request is answered under its id and the buffer is unmapped |
| SdfComputeById.ResponseHasOneResultPerPoint | src/sdf_compute/mod.rs:336-370 | read from the whole capacity*4-byte buffer, the response carries the request's id and exactly one record per query point |
| SdfComputeById.MapNext | src/sdf_compute/mod.rs:382-407 | the queue head becomes the pending mapping |
| SdfComputeById.ReadbackStepById | src/sdf_compute/mod.rs:326-408 | waits for the signal, then answers and maps the next request |
| SdfComputeById.ProcessKeepsConsistentById | src/sdf_compute/mod.rs:275-324 | processing keeps the id invariant |
| SdfComputeById.AnswerKeepsConsistent | src/sdf_compute/mod.rs:336-370 | answering keeps the invariant |
| SdfComputeById.MapNextKeepsConsistent | src/sdf_compute/mod.rs:382-407 | mapping the next request keeps the invariant |
| SdfComputeById.ReadbackKeepsConsistentById | src/sdf_compute/mod.rs:326-408 | readback keeps the invariant: responses go out once each, in arrival order |
| SdfComputeById.CopyIntoMappedBufferAsWritten | src/sdf_compute/mod.rs:464-471 | two requests in one frame lead the node to copy into the mapped buffer |
| SdfComputeById.NodeCommandsByIdCorrected | src/sdf_compute/mod.rs:464-471 | nothing is recorded while a mapping is pending |
| SdfComputeById.CorrectedNeverCopiesIntoMappedBuffer | src/sdf_compute/mod.rs:464-471 | with the correction the node never copies into a mapped buffer |
| SdfComputeById.IdComputePipeline.constructor | src/sdf_compute/mod.rs:124-163 | the pipeline starts in the initial state |
| SdfComputeById.IdComputePipeline.ProcessSdfRequests | src/sdf_compute/mod.rs:275-324 | the drain loop performs the processing step |
| SdfComputeById.IdComputePipeline.ComputeNodeRun | src/sdf_compute/mod.rs:419-476 | the recorded commands are the node's |
| SdfComputeById.IdComputePipeline.PerformGpuReadback | src/sdf_compute/mod.rs:326-408 | the state becomes the readback step, and a signalled response carries the request's id and one result per point |

## Findings

| source | as written | input that shows it | evidently intended | confidence | as-written member | corrected member |
|---|---|---|---|---|---|---|
| src/sdf_compute.rs:334-346 | `initiate_gpu_readback` moves every queued request to ready-for-mapping, even while a mapping is pending and the node has neither dispatched nor copied for it | request r, then request q in the next frame while r is mapped | move only requests the node evaluated and copied, i.e. none while a mapping is pending | not executed | SdfCompute.StaleReplyAsWritten | SdfCompute.StaleReplyCorrected |
| src/sdf_render.rs:636-649 | `post_process_write` flips the view target before the coarse texture is checked, so the early return leaves a flipped, unwritten target | every resource ready except the coarse texture | check the coarse texture before flipping | not executed | SdfRender.MainPassFlipsWithoutDrawing | SdfRender.MainPassRunCorrected |
| src/sdf_compute/mod.rs:494-502 | `poll` takes the channel's next response and drops it if the id differs | futures 0 and 1 pending, and future 1 polls first while response 0 is queued | keep responses for other futures | not executed | SdfComputeById.PollDropsForeignResponse | SdfComputeById.PollKeepsForeignResponse |
| src/sdf_compute/mod.rs:464-471 | the node copies into the readback buffer while it is still mapped | two non-empty requests in the same frame | skip the copy and dispatch while a mapping is pending | not executed | SdfComputeById.CopyIntoMappedBufferAsWritten | SdfComputeById.CorrectedNeverCopiesIntoMappedBuffer |
| src/selection.rs:64-72 | a mode change into a mode with selection disabled clears the tracked selection but leaves the `Selected` marker | select a in Translate, switch to Brush, switch back to Translate, click b | remove the marker and send a deselection | not executed | Selection.StaleMarkerAsWritten | Selection.StaleMarkerCorrected |

## Left out

- KeyedSort.SortByKey: stability of `sort_by_key` is not stated; only sortedness and permutation are proved.
- SdfCompute.ComputePipeline.PerformDelayedReadback: requires the readback to be mapped when signalled; the panic of `get_mapped_range` after growth recreates the buffer is shown by `GrowthUnmapsPendingReadback`, not modelled as a path.
- SdfComputeById.IdComputePipeline.PerformGpuReadback: the same precondition, for the same panic.
- SdfRenderLegacy.CollectEntityDataEveryFrame: the older `SDFRenderEntity` (`index: u32`, position, scale) is represented by the newer `SdfEntity`, its `index` as `nodeIndex`; the two components are not kept as separate types.
- The `hasWaker` flag of a future only records that a waker was stored; the stored waker is never woken by any code, and task wake-up is not modelled.
- SdfCompute.LastRequestWins: only shows that same-frame requests share offset 0; the results each of them gets are not traced per request.
- CommandBridge.Interpret: evaluation requests are logged as point sets; the spawned async task and its log output are not modelled.
- The `bvh` crate's build and flatten is a function parameter; its tree shape is not modelled.
- Shaders, pipeline creation, bind groups, textures and GPU command submission are not modelled beyond the commands recorded.
- Crossbeam and async channels, wakers and task scheduling are sequences and flags; concurrency and wake-up order are not modelled.
- Camera matrices, time and `update_camera_settings` are left out; they only feed shader uniforms.
- `f32` is modelled as real numbers, so rounding is not captured.
- Debug-build overflow panics, such as the u32 spawn counter's `+=`, are modelled as release-mode wrap-around.
- Meshes, materials and `Transform` hierarchies of spawned spheres are not modelled; a spawn records its parameters.
- Translation, brush mode, overlay, depth post-process and the application setup in `main.rs` are not part of this model.
- The wasm logging and the `dispatch_bevy_event_js` call are not modelled; the monitor returns the event payload.
