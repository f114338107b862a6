/** The transform post-process effect: every frame it snapshots the world
    matrices of the marked entities, mirrors them into a storage buffer of
    64-byte elements, syncs the count into the settings, and runs one
    fullscreen pass once its resources are present. Matrix construction is a
    function parameter. */
module PostProcess {
  import opened Wrappers
  import opened SceneBuffers
  import SdfRender
  import SdfRenderLegacy

  /** `collect_entity_transforms`: one matrix per marked entity, in query
      order. */
  function CollectEntityTransforms<G, M>(transforms: seq<G>, computeMatrix: G -> M): (r: seq<M>)
    ensures |r| == |transforms|
    ensures forall k :: 0 <= k < |transforms| ==> r[k] == computeMatrix(transforms[k])
  {
    seq(|transforms|, k requires 0 <= k < |transforms| => computeMatrix(transforms[k]))
  }

  /** `PostProcessNode::run`: no enable flag; the pipeline, the settings
      binding, the depth texture and the transform buffer are looked up in
      turn, and the view target is flipped right before the single draw. */
  function PostProcessRun(pipelineReady: bool, settingsBinding: bool, depthTexture: bool, transformBuffer: bool): (o: SdfRender.PassOutcome)
    ensures o.draws <= 1
    ensures o.draws == 1 <==> pipelineReady && settingsBinding && depthTexture && transformBuffer
    ensures o.flippedTarget <==> o.draws == 1
  {
    if !pipelineReady then SdfRender.PassOutcome(false, 0)
    else if !settingsBinding then SdfRender.PassOutcome(false, 0)
    else if !depthTexture then SdfRender.PassOutcome(false, 0)
    else if !transformBuffer then SdfRender.PassOutcome(false, 0)
    else SdfRender.PassOutcome(true, 1)
  }

  /** The post-process node behaves like the older SDF node with its enable
      resource absent, and unlike it cannot be switched off. */
  lemma PostProcessIsUngatedLegacyPass(pipelineReady: bool, settingsBinding: bool, depthTexture: bool, transformBuffer: bool)
    ensures PostProcessRun(pipelineReady, settingsBinding, depthTexture, transformBuffer)
         == SdfRenderLegacy.LegacyPassRun(None, pipelineReady, settingsBinding, depthTexture, transformBuffer)
    ensures SdfRenderLegacy.LegacyPassRun(Some(false), pipelineReady, settingsBinding, depthTexture, transformBuffer).draws == 0
  {
  }

  /** One frame of the effect's buffer upkeep: the matrices are collected,
      extracted and mirrored into the 64-byte-element buffer, then the
      render-world count is synced from the mirror. */
  method TransformFrame<G, M>(transforms: seq<G>, computeMatrix: G -> M, buffer: StorageBuffer<M>, settings: seq<SettingsCounts>)
    requires buffer.Valid() && buffer.elemBytes == MAT4_BYTES
    modifies buffer, set s | s in settings
    ensures buffer.Valid()
    ensures buffer.data == CollectEntityTransforms(transforms, computeMatrix)
    ensures buffer.capacity >= |transforms| * MAT4_BYTES && buffer.capacity >= MIN_BUFFER_BYTES
    ensures forall s :: s in settings ==> s.entityCount == SyncedCount(Some(|transforms|))
  {
    var data := CollectEntityTransforms(transforms, computeMatrix);
    UpdateFromExtracted(buffer, Some(data));
    SetEntityCounts(settings, Some(|buffer.data|));
  }
}
