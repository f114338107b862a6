/** The SDF scene engine's render side (the current version): entity snapshot,
    BVH node packing, scene buffer upkeep, count sync, the early-return chains
    of the coarse prepass and the main ray-march pass, and coarse-texture sizing.

    The `bvh` crate's build and flatten are an opaque function parameter;
    device calls are the abstract effects of `SceneBuffers.StorageBuffer`. */
module SdfRender {
  import opened Wrappers
  import opened Geometry
  import opened KeyedSort
  import opened SceneBuffers

  // ---------------------------------------------------------------------
  // f32 values that may be infinite

  /** An f32 as the BVH crate may produce it. */
  datatype ExtFloat = Finite(r: real) | PosInf | NegInf | NaN

  datatype ExtVec3 = ExtVec3(x: ExtFloat, y: ExtFloat, z: ExtFloat)
  datatype ExtVec4 = ExtVec4(x: ExtFloat, y: ExtFloat, z: ExtFloat, w: ExtFloat)

  /** The large finite magnitude infinities are clamped to before upload. */
  const GPU_FLOAT_LIMIT: real := 99999999.0

  /** `gpu_friendly_f32`: infinities become +-99999999; every other value,
      NaN included, passes through unchanged. */
  function GpuFriendly(f: ExtFloat): (g: ExtFloat)
    ensures !g.PosInf? && !g.NegInf?
    ensures f.PosInf? ==> g == Finite(GPU_FLOAT_LIMIT)
    ensures f.NegInf? ==> g == Finite(-GPU_FLOAT_LIMIT)
    ensures f.Finite? || f.NaN? ==> g == f
  {
    match f
    case PosInf => Finite(GPU_FLOAT_LIMIT)
    case NegInf => Finite(-GPU_FLOAT_LIMIT)
    case _ => f
  }

  // ---------------------------------------------------------------------
  // Entities and their bounding boxes

  /** The `SDFRenderEntity` component. */
  datatype SdfEntity = SdfEntity(nodeIndex: nat, position: Vec3, scale: real)

  /** Smoothing margin added to every sphere's radius in its bounding box. */
  const AABB_MARGIN: real := 0.5

  datatype Aabb = Aabb(min: Vec3, max: Vec3)

  /** `Bounded::aabb`: the cube of half-size `scale + 0.5` around the position. */
  function EntityAabb(e: SdfEntity): (b: Aabb)
    ensures b.min.x + AABB_MARGIN == e.position.x - e.scale && b.max.x - AABB_MARGIN == e.position.x + e.scale
    ensures b.min.y + AABB_MARGIN == e.position.y - e.scale && b.max.y - AABB_MARGIN == e.position.y + e.scale
    ensures b.min.z + AABB_MARGIN == e.position.z - e.scale && b.max.z - AABB_MARGIN == e.position.z + e.scale
  {
    var h := e.scale + AABB_MARGIN;
    Aabb(Vec3(e.position.x - h, e.position.y - h, e.position.z - h),
         Vec3(e.position.x + h, e.position.y + h, e.position.z + h))
  }

  /** The box is centred on the entity, every side is `2 * (scale + 0.5)`
      long, and it holds the sphere's own bounds with the margin to spare. */
  lemma EntityAabbBoundsSphere(e: SdfEntity)
    ensures var b := EntityAabb(e);
      && b.max.x - b.min.x == 2.0 * (e.scale + AABB_MARGIN)
      && b.max.y - b.min.y == 2.0 * (e.scale + AABB_MARGIN)
      && b.max.z - b.min.z == 2.0 * (e.scale + AABB_MARGIN)
      && (b.min.x + b.max.x) / 2.0 == e.position.x
      && (b.min.y + b.max.y) / 2.0 == e.position.y
      && (b.min.z + b.max.z) / 2.0 == e.position.z
      && b.min.x + AABB_MARGIN == e.position.x - e.scale
      && b.max.x - AABB_MARGIN == e.position.x + e.scale
  {
  }

  // ---------------------------------------------------------------------
  // Entity snapshot (`collect_entity_data`)

  function NodeIndexOf(e: SdfEntity): nat
  {
    e.nodeIndex
  }

  /** An entity packed as (x, y, z, scale). */
  function PackEntity(e: SdfEntity): Vec4
  {
    Vec4(e.position.x, e.position.y, e.position.z, e.scale)
  }

  function PackAll(es: seq<SdfEntity>): (r: seq<Vec4>)
    ensures |r| == |es|
    ensures forall k :: 0 <= k < |es| ==> r[k] == PackEntity(es[k])
  {
    seq(|es|, k requires 0 <= k < |es| => PackEntity(es[k]))
  }

  /** `collect_entity_data`: `None` when nothing is (re)inserted; otherwise the
      new `EntityData`, one packed entry per entity in node-index order. */
  function CollectEntityData(dataPresent: bool, anyChanged: bool, entities: seq<SdfEntity>): (r: Option<seq<Vec4>>)
    ensures r.Some? <==> !dataPresent || anyChanged
    ensures r.Some? ==> |r.value| == |entities|
  {
    if dataPresent && !anyChanged then None
    else Some(PackAll(SortByKey(entities, NodeIndexOf)))
  }

  /** When the snapshot is taken, it is the packing of an ordering of the
      entities that is sorted by node index and is a permutation of them. */
  lemma CollectEntityDataSorted(dataPresent: bool, anyChanged: bool, entities: seq<SdfEntity>)
    requires !dataPresent || anyChanged
    ensures var ordered := SortByKey(entities, NodeIndexOf);
      && CollectEntityData(dataPresent, anyChanged, entities) == Some(PackAll(ordered))
      && SortedBy(ordered, NodeIndexOf)
      && multiset(ordered) == multiset(entities)
  {
    SortByKeyCorrect(entities, NodeIndexOf);
  }

  /** The `SDFRenderEntity` component as stored in the world. */
  class EntityComponent {
    var entity: SdfEntity

    constructor (e: SdfEntity)
      ensures entity == e
    {
      entity := e;
    }
  }

  /** A component whose `GlobalTransform` changed, with the new translation. */
  datatype TransformChange = TransformChange(component: EntityComponent, translation: Vec3)

  /** `sync_entity_positions`: only entities whose transform changed take the
      new translation as their position; index and scale are kept. */
  method SyncEntityPositions(changed: seq<TransformChange>)
    requires forall i, j :: 0 <= i < j < |changed| ==> changed[i].component != changed[j].component
    modifies set c | c in changed :: c.component
    ensures forall k :: 0 <= k < |changed| ==>
      changed[k].component.entity == old(changed[k].component.entity).(position := changed[k].translation)
  {
    for i := 0 to |changed|
      invariant forall k :: 0 <= k < i ==>
        changed[k].component.entity == old(changed[k].component.entity).(position := changed[k].translation)
      invariant forall k :: i <= k < |changed| ==> changed[k].component.entity == old(changed[k].component.entity)
    {
      var c := changed[i].component;
      c.entity := c.entity.(position := changed[i].translation);
    }
  }

  // ---------------------------------------------------------------------
  // BVH node packing (`build_entity_bvh`)

  /** `u32::MAX`: the shape index of an internal node. */
  const SENTINEL: nat := 0xFFFF_FFFF

  /** A node of the `bvh` crate's flattened hierarchy. */
  datatype FlatNode = FlatNode(aabbMin: ExtVec3, aabbMax: ExtVec3, entryIndex: nat, exitIndex: nat, shapeIndex: nat)

  /** The GPU-side `BVHNode` (48 bytes). */
  datatype BvhNode = BvhNode(min: ExtVec4, max: ExtVec4, entryIndex: nat, exitIndex: nat, shapeIndex: nat, padding: nat)

  function ClampCorner(v: ExtVec3): ExtVec4
  {
    ExtVec4(GpuFriendly(v.x), GpuFriendly(v.y), GpuFriendly(v.z), Finite(0.0))
  }

  predicate NoInfinity(v: ExtVec4)
  {
    !v.x.PosInf? && !v.x.NegInf? && !v.y.PosInf? && !v.y.NegInf? &&
    !v.z.PosInf? && !v.z.NegInf? && v.w == Finite(0.0)
  }

  /** One flat node mapped to one GPU node: indices copied, padding repeats
      the shape index, corners clamped, `w = 0`. */
  function ToBvhNode(n: FlatNode): (b: BvhNode)
    ensures b.entryIndex == n.entryIndex && b.exitIndex == n.exitIndex
    ensures b.shapeIndex == n.shapeIndex && b.padding == n.shapeIndex
    ensures NoInfinity(b.min) && NoInfinity(b.max)
    ensures n.aabbMin.x.Finite? ==> b.min.x == n.aabbMin.x
    ensures n.aabbMin.y.Finite? ==> b.min.y == n.aabbMin.y
    ensures n.aabbMin.z.Finite? ==> b.min.z == n.aabbMin.z
    ensures n.aabbMax.x.Finite? ==> b.max.x == n.aabbMax.x
    ensures n.aabbMax.y.Finite? ==> b.max.y == n.aabbMax.y
    ensures n.aabbMax.z.Finite? ==> b.max.z == n.aabbMax.z
  {
    BvhNode(ClampCorner(n.aabbMin), ClampCorner(n.aabbMax), n.entryIndex, n.exitIndex, n.shapeIndex, n.shapeIndex)
  }

  function ToBvhNodes(flat: seq<FlatNode>): (r: seq<BvhNode>)
    ensures |r| == |flat|
    ensures forall k :: 0 <= k < |flat| ==> r[k] == ToBvhNode(flat[k])
  {
    seq(|flat|, k requires 0 <= k < |flat| => ToBvhNode(flat[k]))
  }

  /** The shapes handed to the BVH builder: entity i gets node index i. */
  function ShapesFor(data: seq<Vec4>): (r: seq<SdfEntity>)
    ensures |r| == |data|
    ensures forall i :: 0 <= i < |data| ==>
      r[i] == SdfEntity(i, Vec3(data[i].x, data[i].y, data[i].z), data[i].w)
  {
    seq(|data|, i requires 0 <= i < |data| => SdfEntity(i, Vec3(data[i].x, data[i].y, data[i].z), data[i].w))
  }

  /** Number of leaves (nodes that reference a shape) in a node array. */
  function LeafCount(nodes: seq<BvhNode>): nat
  {
    if nodes == [] then 0
    else LeafCount(nodes[..|nodes| - 1]) + (if nodes[|nodes| - 1].shapeIndex != SENTINEL then 1 else 0)
  }

  function FlatLeafCount(flat: seq<FlatNode>): nat
  {
    if flat == [] then 0
    else FlatLeafCount(flat[..|flat| - 1]) + (if flat[|flat| - 1].shapeIndex != SENTINEL then 1 else 0)
  }

  /** Packing neither adds nor drops a leaf: the GPU array has exactly the
      leaves of the crate's flattened hierarchy. */
  lemma {:induction false} PackingKeepsLeaves(flat: seq<FlatNode>)
    ensures LeafCount(ToBvhNodes(flat)) == FlatLeafCount(flat)
    decreases |flat|
  {
    if flat != [] {
      var init := flat[..|flat| - 1];
      PackingKeepsLeaves(init);
      assert ToBvhNodes(flat)[..|flat| - 1] == ToBvhNodes(init);
    }
  }

  /** `build_entity_bvh`: a no-op unless `EntityData` changed; otherwise the new
      `FlattenedBVH`, node for node the packing of what the builder returns. */
  function BuildEntityBvh(changed: bool, data: seq<Vec4>, buildAndFlatten: seq<SdfEntity> -> seq<FlatNode>): (r: Option<seq<BvhNode>>)
    ensures r.Some? <==> changed
    ensures r.Some? ==> |r.value| == |buildAndFlatten(ShapesFor(data))|
    ensures r.Some? ==> forall k :: 0 <= k < |r.value| ==> r.value[k] == ToBvhNode(buildAndFlatten(ShapesFor(data))[k])
  {
    if !changed then None else Some(ToBvhNodes(buildAndFlatten(ShapesFor(data))))
  }

  // ---------------------------------------------------------------------
  // Scene buffers

  /** `update_transform_buffer`: returns when `EntityData` is absent or
      unchanged; otherwise mirrors it into the entity buffer, which is
      recreated with `max(2 * size, 1024)` bytes when absent or too small. */
  method UpdateTransformBuffer(buffer: StorageBuffer<Vec4>, data: Option<seq<Vec4>>, changed: bool)
    requires buffer.Valid() && buffer.elemBytes == VEC4_BYTES
    modifies buffer
    ensures buffer.Valid()
    ensures data.None? || !changed ==> unchanged(buffer)
    ensures data.Some? && changed ==>
      && buffer.data == data.value
      && buffer.present
      && buffer.capacity == NextCapacity(old(buffer.present), old(buffer.capacity), |data.value| * VEC4_BYTES, Doubling)
      && buffer.capacity >= |data.value| * VEC4_BYTES
      && buffer.writes == old(buffer.writes) + (if data.value == [] then 0 else 1)
    ensures data.Some? && changed ==>
      var recreate := NeedsRecreate(old(buffer.present), old(buffer.capacity), |data.value| * VEC4_BYTES);
      var start := if recreate then [] else old(buffer.uploaded);
      && buffer.generation == old(buffer.generation) + (if recreate then 1 else 0)
      && buffer.uploaded == (if data.value == [] then start else Overwrite(start, data.value))
  {
    if data.None? {
      return;
    }
    if !changed {
      return;
    }
    buffer.Update(data.value, Doubling);
  }

  /** `update_bvh_buffer`: acts only when the flattened BVH changed; mirrors it
      and recreates the buffer with `max(size, 1024)` bytes (no doubling) when
      it is absent or too small; writes only non-empty data. */
  method UpdateBvhBuffer(buffer: StorageBuffer<BvhNode>, flattened: seq<BvhNode>, changed: bool)
    requires buffer.Valid() && buffer.elemBytes == BVH_NODE_BYTES
    modifies buffer
    ensures buffer.Valid()
    ensures !changed ==> unchanged(buffer)
    ensures changed ==>
      && buffer.data == flattened
      && buffer.present
      && buffer.capacity == NextCapacity(old(buffer.present), old(buffer.capacity), |flattened| * BVH_NODE_BYTES, Exact)
      && buffer.writes == old(buffer.writes) + (if flattened == [] then 0 else 1)
    ensures changed ==>
      var recreate := NeedsRecreate(old(buffer.present), old(buffer.capacity), |flattened| * BVH_NODE_BYTES);
      var start := if recreate then [] else old(buffer.uploaded);
      && buffer.generation == old(buffer.generation) + (if recreate then 1 else 0)
      && buffer.uploaded == (if flattened == [] then start else Overwrite(start, flattened))
  {
    if !changed {
      return;
    }
    buffer.Update(flattened, Exact);
  }

  /** `update_entity_count_in_settings` (main world, from `EntityData`). */
  method UpdateEntityCountInSettings(settings: seq<SettingsCounts>, data: Option<seq<Vec4>>)
    modifies set s | s in settings
    ensures forall s :: s in settings ==> s.entityCount == SyncedCount(if data.Some? then Some(|data.value|) else None)
    ensures forall s :: s in settings ==> s.numBvhNodes == old(s.numBvhNodes)
  {
    SetEntityCounts(settings, if data.Some? then Some(|data.value|) else None);
  }

  /** `update_render_world_entity_count` (render world, from the buffer mirror). */
  method UpdateRenderWorldEntityCount(settings: seq<SettingsCounts>, buffer: Option<StorageBuffer<Vec4>>)
    modifies set s | s in settings
    ensures forall s :: s in settings ==> s.entityCount == SyncedCount(if buffer.Some? then Some(|buffer.value.data|) else None)
    ensures forall s :: s in settings ==> s.numBvhNodes == old(s.numBvhNodes)
  {
    SetEntityCounts(settings, if buffer.Some? then Some(|buffer.value.data|) else None);
  }

  /** `update_bvh_node_count_in_settings` (main world, from `FlattenedBVH`). */
  method UpdateBvhNodeCountInSettings(settings: seq<SettingsCounts>, flattened: Option<seq<BvhNode>>)
    modifies set s | s in settings
    ensures forall s :: s in settings ==> s.numBvhNodes == SyncedCount(if flattened.Some? then Some(|flattened.value|) else None)
    ensures forall s :: s in settings ==> s.entityCount == old(s.entityCount)
  {
    SetBvhNodeCounts(settings, if flattened.Some? then Some(|flattened.value|) else None);
  }

  /** `update_render_world_bvh_count` (render world, from the buffer mirror). */
  method UpdateRenderWorldBvhCount(settings: seq<SettingsCounts>, buffer: Option<StorageBuffer<BvhNode>>)
    modifies set s | s in settings
    ensures forall s :: s in settings ==> s.numBvhNodes == SyncedCount(if buffer.Some? then Some(|buffer.value.data|) else None)
    ensures forall s :: s in settings ==> s.entityCount == old(s.entityCount)
  {
    SetBvhNodeCounts(settings, if buffer.Some? then Some(|buffer.value.data|) else None);
  }

  // ---------------------------------------------------------------------
  // Render-pass gating

  /** What the two SDF render nodes look up before drawing. `enabled` is the
      `SDFRenderEnabled` resource's flag, `None` when the resource is absent. */
  datatype PassResources = PassResources(
    enabled: Option<bool>,
    mainPipelineReady: bool,
    coarsePipelineReady: bool,
    settingsBinding: bool,
    depthTexture: bool,
    transformBuffer: bool,
    bvhBuffer: bool,
    coarseTexture: bool)

  /** What a node did: whether it flipped the view target's main texture
      (`post_process_write`) and how many fullscreen-triangle draws it issued. */
  datatype PassOutcome = PassOutcome(flippedTarget: bool, draws: nat)

  /** Vertices per draw: `draw(0..3, 0..1)`. */
  const FULLSCREEN_VERTICES: nat := 3

  /** An absent enable resource counts as enabled. */
  predicate GateOpen(enabled: Option<bool>)
  {
    enabled != Some(false)
  }

  /** Every lookup of the main pass up to its `post_process_write` succeeds. */
  predicate MainReadyToWrite(r: PassResources)
  {
    GateOpen(r.enabled) && r.mainPipelineReady && r.settingsBinding && r.depthTexture
    && r.transformBuffer && r.bvhBuffer
  }

  /** `SDFRenderNode::run` as written: the chain of early returns, with the
      view target flipped before the coarse texture is looked up. */
  function MainPassRun(r: PassResources): (o: PassOutcome)
    ensures o.draws <= 1
    ensures o.draws == 1 <==> MainReadyToWrite(r) && r.coarseTexture
    ensures o.flippedTarget <==> MainReadyToWrite(r)
    ensures !GateOpen(r.enabled) ==> o == PassOutcome(false, 0)
  {
    if !GateOpen(r.enabled) then PassOutcome(false, 0)
    else if !r.mainPipelineReady then PassOutcome(false, 0)
    else if !r.settingsBinding then PassOutcome(false, 0)
    else if !r.depthTexture then PassOutcome(false, 0)
    else if !r.transformBuffer then PassOutcome(false, 0)
    else if !r.bvhBuffer then PassOutcome(false, 0)
    else
      // post_process_write() flips the main texture here
      if !r.coarseTexture then PassOutcome(true, 0)
      else PassOutcome(true, 1)
  }

  /** With every resource present but the coarse texture, the main pass flips
      the view target and then returns without writing the destination. */
  lemma MainPassFlipsWithoutDrawing()
    ensures var r := PassResources(None, true, true, true, true, true, true, false);
      MainPassRun(r) == PassOutcome(true, 0)
  {
  }

  /** The main pass with the coarse-texture lookup moved ahead of the flip:
      it draws exactly when `MainPassRun` does, and flips only when it draws. */
  function MainPassRunCorrected(r: PassResources): (o: PassOutcome)
    ensures o.draws == MainPassRun(r).draws
    ensures o.flippedTarget <==> o.draws == 1
  {
    if MainReadyToWrite(r) && r.coarseTexture then PassOutcome(true, 1) else PassOutcome(false, 0)
  }

  /** `SDFCoarsePrepassNode::run`: renders into the coarse texture, never
      flips the view target, and does not need the BVH buffer. */
  function CoarsePrepassRun(r: PassResources): (o: PassOutcome)
    ensures !o.flippedTarget && o.draws <= 1
    ensures o.draws == 1 <==>
      GateOpen(r.enabled) && r.coarsePipelineReady && r.settingsBinding && r.depthTexture
      && r.transformBuffer && r.coarseTexture
  {
    if !GateOpen(r.enabled) then PassOutcome(false, 0)
    else if !r.coarsePipelineReady then PassOutcome(false, 0)
    else if !r.settingsBinding then PassOutcome(false, 0)
    else if !r.depthTexture then PassOutcome(false, 0)
    else if !r.transformBuffer then PassOutcome(false, 0)
    else if !r.coarseTexture then PassOutcome(false, 0)
    else PassOutcome(false, 1)
  }

  /** Draws of one frame: the coarse prepass, then the main pass. */
  function FrameDraws(r: PassResources): nat
  {
    CoarsePrepassRun(r).draws + MainPassRun(r).draws
  }

  /** Disabling the gate makes the frame issue no draw at all; with the gate
      open and everything present the frame issues exactly two. A missing BVH
      buffer stops only the main pass. */
  lemma FrameGating(r: PassResources)
    ensures !GateOpen(r.enabled) ==> FrameDraws(r) == 0
    ensures (GateOpen(r.enabled) && r.mainPipelineReady && r.coarsePipelineReady && r.settingsBinding
      && r.depthTexture && r.transformBuffer && r.bvhBuffer && r.coarseTexture) ==> FrameDraws(r) == 2
    ensures !r.bvhBuffer ==> FrameDraws(r) == CoarsePrepassRun(r).draws
  {
  }

  // ---------------------------------------------------------------------
  // Coarse-pass texture

  const BASE_WIDTH: nat := 1920
  const BASE_HEIGHT: nat := 1080
  const U32_MAX: nat := 0xFFFF_FFFF

  /** Defaults of `SDFRenderSettings` for the coarse pass. */
  const DEFAULT_COARSE_RESOLUTION_FACTOR: real := 0.0625
  const DEFAULT_COARSE_DISTANCE_MULTIPLIER: real := 16.0
  const DEFAULT_COARSE_MAX_STEPS: nat := 16

  /** Rust's `f32 as u32`: truncates toward zero and saturates at both ends. */
  function F32ToU32(x: real): (n: nat)
    ensures n <= U32_MAX
    ensures x <= 0.0 ==> n == 0
    ensures 0.0 <= x < U32_MAX as real ==> n as int == x.Floor
    ensures x >= U32_MAX as real ==> n == U32_MAX
  {
    if x <= 0.0 then 0
    else if x >= U32_MAX as real then U32_MAX
    else x.Floor as nat
  }

  datatype Extent = Extent(width: nat, height: nat)

  /** `max(floor(1920 * f), 1)` by `max(floor(1080 * f), 1)`. */
  function CoarseTextureSize(factor: real): (e: Extent)
    ensures e.width >= 1 && e.height >= 1
    ensures 0.0 <= factor && (BASE_WIDTH as real) * factor < U32_MAX as real ==>
      e.width as int == if ((BASE_WIDTH as real) * factor).Floor < 1 then 1 else ((BASE_WIDTH as real) * factor).Floor
    ensures 0.0 <= factor && (BASE_HEIGHT as real) * factor < U32_MAX as real ==>
      e.height as int == if ((BASE_HEIGHT as real) * factor).Floor < 1 then 1 else ((BASE_HEIGHT as real) * factor).Floor
  {
    var w := F32ToU32(BASE_WIDTH as real * factor);
    var h := F32ToU32(BASE_HEIGHT as real * factor);
    Extent(if w < 1 then 1 else w, if h < 1 then 1 else h)
  }

  /** The default factor 1/16 gives a 120 x 67 coarse texture. */
  lemma DefaultCoarseTextureSize()
    ensures CoarseTextureSize(DEFAULT_COARSE_RESOLUTION_FACTOR) == Extent(120, 67)
  {
    assert (BASE_WIDTH as real * DEFAULT_COARSE_RESOLUTION_FACTOR) == 120.0;
    assert (BASE_HEIGHT as real * DEFAULT_COARSE_RESOLUTION_FACTOR) == 67.5;
    assert (67.5).Floor == 67;
  }

  /** `manage_coarse_pass_texture`: with exactly one camera, a texture of the
      desired size is created iff none exists or the existing one's size
      differs; the result is the size of the texture created, if any. */
  function ManageCoarsePassTexture(cameraFactors: seq<real>, existing: Option<Extent>): (created: Option<Extent>)
    ensures |cameraFactors| != 1 ==> created.None?
    ensures |cameraFactors| == 1 ==>
      (created.Some? <==> existing != Some(CoarseTextureSize(cameraFactors[0])))
    ensures created.Some? ==> created.value == CoarseTextureSize(cameraFactors[0])
  {
    if |cameraFactors| != 1 then None
    else
      var desired := CoarseTextureSize(cameraFactors[0]);
      if existing.Some? && existing.value == desired then None else Some(desired)
  }

  /** Running the texture manager again with the same camera creates nothing:
      the texture it made already has the desired size. */
  lemma CoarseTextureStable(cameraFactors: seq<real>, existing: Option<Extent>)
    requires ManageCoarsePassTexture(cameraFactors, existing).Some?
    ensures ManageCoarsePassTexture(cameraFactors, ManageCoarsePassTexture(cameraFactors, existing)).None?
  {
  }

  /** The `SDFRenderEnabled` resource; its `Default` turns rendering on. */
  class RenderEnabled {
    var enabled: bool

    constructor ()
      ensures enabled && GateOpen(Some(enabled))
    {
      enabled := true;
    }
  }
}
