/** The older render module of the SDF scene: every frame it snapshots the
    entities in index order, mirrors the snapshot into the entity buffer
    with no change check, syncs the count into the settings, and runs one
    fullscreen pass gated by the enable flag and four resource lookups. */
module SdfRenderLegacy {
  import opened Wrappers
  import opened Geometry
  import opened KeyedSort
  import opened SdfRender

  /** `collect_entity_data` without a change check: the snapshot is taken
      every frame, one packed entry per entity. The older component's
      `index`, `position` and `scale` are carried by `SdfEntity`, its `index`
      as `nodeIndex`, so the sort key is that index. */
  function CollectEntityDataEveryFrame(entities: seq<SdfEntity>): (r: seq<Vec4>)
    ensures |r| == |entities|
  {
    PackAll(SortByKey(entities, NodeIndexOf))
  }

  /** The snapshot is the packing of an index-sorted permutation of the
      entities, and it is what the newer system inserts when its resource is
      absent. */
  lemma CollectEveryFrameSorted(entities: seq<SdfEntity>)
    ensures var ordered := SortByKey(entities, NodeIndexOf);
      && CollectEntityDataEveryFrame(entities) == PackAll(ordered)
      && SortedBy(ordered, NodeIndexOf)
      && multiset(ordered) == multiset(entities)
    ensures forall changed: bool :: CollectEntityData(false, changed, entities) == Some(CollectEntityDataEveryFrame(entities))
  {
    SortByKeyCorrect(entities, NodeIndexOf);
  }

  /** `SDFRenderNode::run` of the older module: the enable flag, then the
      pipeline, the settings binding, the depth texture and the transform
      buffer; the view target is flipped only once all of them are present,
      right before the draw. */
  function LegacyPassRun(enabled: Option<bool>, pipelineReady: bool, settingsBinding: bool, depthTexture: bool, transformBuffer: bool): (o: PassOutcome)
    ensures o.draws <= 1
    ensures o.draws == 1 <==> GateOpen(enabled) && pipelineReady && settingsBinding && depthTexture && transformBuffer
    ensures o.flippedTarget <==> o.draws == 1
  {
    if !GateOpen(enabled) then PassOutcome(false, 0)
    else if !pipelineReady then PassOutcome(false, 0)
    else if !settingsBinding then PassOutcome(false, 0)
    else if !depthTexture then PassOutcome(false, 0)
    else if !transformBuffer then PassOutcome(false, 0)
    else PassOutcome(true, 1)
  }

  /** The newer main pass (with the flip moved behind the coarse-texture
      lookup) adds exactly two requirements to the older one: the BVH buffer
      and the coarse texture. */
  lemma LegacyPassAgreesWithMainPass(r: PassResources)
    ensures r.bvhBuffer && r.coarseTexture ==>
      MainPassRunCorrected(r) == LegacyPassRun(r.enabled, r.mainPipelineReady, r.settingsBinding, r.depthTexture, r.transformBuffer)
    ensures MainPassRunCorrected(r).draws <= LegacyPassRun(r.enabled, r.mainPipelineReady, r.settingsBinding, r.depthTexture, r.transformBuffer).draws
  {
  }
}
