/** Growable GPU storage buffers and the count fields that mirror their
    length into the render settings.

    A device buffer is represented by whether it exists, its byte capacity,
    the CPU-side mirror of the data last handed to it, and the elements that
    writes at offset 0 have left in it. Device calls themselves
    (`create_buffer`, `write_buffer`) are abstract effects: creating bumps
    `generation` and starts from an empty buffer, writing bumps `writes`. */
module SceneBuffers {
  import opened Wrappers

  /** Byte sizes of the element types uploaded by the render modules. */
  const VEC4_BYTES: nat := 16
  const MAT4_BYTES: nat := 64
  const BVH_NODE_BYTES: nat := 48
  /** No storage buffer is ever created smaller than this many bytes. */
  const MIN_BUFFER_BYTES: nat := 1024

  /** Entity buffers are recreated with room for twice the data; the BVH
      buffer only with room for the data itself. */
  datatype Growth = Doubling | Exact

  /** Capacity a buffer is recreated with when `required` bytes do not fit. */
  function GrownCapacity(required: nat, policy: Growth): (c: nat)
    ensures c >= required && c >= MIN_BUFFER_BYTES
    ensures policy == Doubling ==> c >= 2 * required
    ensures c == MIN_BUFFER_BYTES || c == (if policy == Doubling then 2 * required else required)
  {
    var wanted := if policy == Doubling then 2 * required else required;
    if wanted < MIN_BUFFER_BYTES then MIN_BUFFER_BYTES else wanted
  }

  /** The buffer is (re)created exactly when it is absent or too small. */
  predicate NeedsRecreate(present: bool, capacity: nat, required: nat)
  {
    !present || capacity < required
  }

  /** Capacity after one update that needs `required` bytes. */
  function NextCapacity(present: bool, capacity: nat, required: nat, policy: Growth): (c: nat)
    ensures c >= required
    ensures present ==> c >= capacity
    ensures !NeedsRecreate(present, capacity, required) ==> c == capacity
    ensures NeedsRecreate(present, capacity, required) ==> c >= MIN_BUFFER_BYTES
  {
    if NeedsRecreate(present, capacity, required) then GrownCapacity(required, policy) else capacity
  }

  /** A second update with a size that already fits changes nothing: growth
      is idempotent, and a smaller request never shrinks the buffer. */
  lemma NoShrinkOnSmallerRequest(present: bool, capacity: nat, r1: nat, r2: nat, policy: Growth)
    requires r2 <= r1
    ensures NextCapacity(true, NextCapacity(present, capacity, r1, policy), r2, policy)
         == NextCapacity(present, capacity, r1, policy)
  {
  }

  /** Capacity reached by a run of updates, with the given byte sizes, of a
      buffer that already exists. */
  function CapacityAfterAll(capacity: nat, sizes: seq<nat>, policy: Growth): nat
    decreases |sizes|
  {
    if sizes == [] then capacity
    else NextCapacity(true, CapacityAfterAll(capacity, sizes[..|sizes| - 1], policy), sizes[|sizes| - 1], policy)
  }

  /** Over any run of updates the capacity never falls below where it started
      (once a buffer exists) and always covers the latest size. */
  lemma {:induction false} CapacityNeverShrinks(capacity: nat, sizes: seq<nat>, policy: Growth)
    ensures CapacityAfterAll(capacity, sizes, policy) >= capacity
    ensures sizes != [] ==> CapacityAfterAll(capacity, sizes, policy) >= sizes[|sizes| - 1]
    decreases |sizes|
  {
    if sizes != [] {
      CapacityNeverShrinks(capacity, sizes[..|sizes| - 1], policy);
    }
  }

  /** What a write of `d` at offset 0 leaves in a buffer that held `old`. */
  function Overwrite<T>(prev: seq<T>, d: seq<T>): (r: seq<T>)
    ensures |r| == if |d| <= |prev| then |prev| else |d|
    ensures r[..|d|] == d
    ensures |d| <= |prev| ==> r[|d|..] == prev[|d|..]
  {
    if |d| <= |prev| then d + prev[|d|..] else d
  }

  /** One growable storage buffer resource (`EntityBuffer`, `BVHBuffer`,
      `EntityTransformBuffer`): `buffer: Option<Buffer>`, `data`, `capacity`. */
  class StorageBuffer<T> {
    const elemBytes: nat
    var present: bool
    var capacity: nat
    var data: seq<T>
    /** Elements that writes at offset 0 have left in the current device buffer. */
    var uploaded: seq<T>
    /** Number of device buffers created and of writes issued. */
    var generation: nat
    var writes: nat

    ghost predicate Valid()
      reads this
    {
      && (!present ==> capacity == 0 && uploaded == [])
      && (present ==> capacity >= MIN_BUFFER_BYTES)
      && |data| * elemBytes <= capacity
      && |uploaded| * elemBytes <= capacity
    }

    /** The `Default` impl: no device buffer, no data, capacity 0. */
    constructor (elemBytes: nat)
      ensures Valid() && this.elemBytes == elemBytes
      ensures !present && capacity == 0 && data == [] && uploaded == []
      ensures generation == 0 && writes == 0
    {
      this.elemBytes := elemBytes;
      present := false;
      capacity := 0;
      data := [];
      uploaded := [];
      generation := 0;
      writes := 0;
    }

    /** Mirror `newData`, recreate the buffer if it is absent or too small,
        and write the data at offset 0 unless it is empty. */
    method Update(newData: seq<T>, policy: Growth)
      requires Valid()
      modifies this
      ensures Valid() && present
      ensures data == newData
      ensures capacity == NextCapacity(old(present), old(capacity), |newData| * elemBytes, policy)
      ensures old(present) ==> capacity >= old(capacity)
      ensures generation == old(generation) + (if NeedsRecreate(old(present), old(capacity), |newData| * elemBytes) then 1 else 0)
      ensures var start := if NeedsRecreate(old(present), old(capacity), |newData| * elemBytes) then [] else old(uploaded);
              uploaded == (if newData == [] then start else Overwrite(start, newData))
      ensures writes == old(writes) + (if newData == [] then 0 else 1)
    {
      data := newData;
      var size := |data| * elemBytes;
      if !present || capacity < size {
        capacity := GrownCapacity(size, policy);
        present := true;
        generation := generation + 1;
        uploaded := [];
      }
      if data != [] {
        uploaded := Overwrite(uploaded, data);
        writes := writes + 1;
      }
    }
  }

  /** The older `update_transform_buffer` systems, which have no change check:
      whenever the extracted data resource exists it is mirrored and written,
      every frame; when it is absent nothing happens. */
  method UpdateFromExtracted<T>(buffer: StorageBuffer<T>, data: Option<seq<T>>)
    requires buffer.Valid()
    modifies buffer
    ensures buffer.Valid()
    ensures data.None? ==> unchanged(buffer)
    ensures data.Some? ==>
      && buffer.data == data.value
      && buffer.present
      && buffer.capacity == NextCapacity(old(buffer.present), old(buffer.capacity), |data.value| * buffer.elemBytes, Doubling)
      && buffer.capacity >= |data.value| * buffer.elemBytes && buffer.capacity >= MIN_BUFFER_BYTES
      && (old(buffer.present) ==> buffer.capacity >= old(buffer.capacity))
      && buffer.writes == old(buffer.writes) + (if data.value == [] then 0 else 1)
    ensures data.Some? ==>
      var recreate := NeedsRecreate(old(buffer.present), old(buffer.capacity), |data.value| * buffer.elemBytes);
      var start := if recreate then [] else old(buffer.uploaded);
      && buffer.generation == old(buffer.generation) + (if recreate then 1 else 0)
      && buffer.uploaded == (if data.value == [] then start else Overwrite(start, data.value))
  {
    if data.None? {
      return;
    }
    buffer.Update(data.value, Doubling);
  }

  /** The count fields of a per-camera settings component. */
  class SettingsCounts {
    var entityCount: nat
    var numBvhNodes: nat

    constructor ()
      ensures entityCount == 0 && numBvhNodes == 0
    {
      entityCount := 0;
      numBvhNodes := 0;
    }
  }

  /** The value a count-sync system stores: the length `as u32`, or 0 when the
      resource is absent. */
  function SyncedCount(len: Option<nat>): (c: nat)
    ensures c < U32_LIMIT
    ensures len.None? ==> c == 0
    ensures len.Some? && len.value < U32_LIMIT ==> c == len.value
    ensures c == AsU32(len.GetOr(0))
  {
    AsU32(len.GetOr(0))
  }

  /** `for mut settings in settings_query.iter_mut() { settings.entity_count = .. }` */
  method SetEntityCounts(settings: seq<SettingsCounts>, len: Option<nat>)
    modifies set s | s in settings
    ensures forall s :: s in settings ==> s.entityCount == SyncedCount(len)
    ensures forall s :: s in settings ==> s.numBvhNodes == old(s.numBvhNodes)
  {
    var v := SyncedCount(len);
    var i := 0;
    while i < |settings|
      invariant 0 <= i <= |settings|
      invariant forall k :: 0 <= k < i ==> settings[k].entityCount == v
      invariant forall s :: s in settings ==> s.numBvhNodes == old(s.numBvhNodes)
    {
      settings[i].entityCount := v;
      i := i + 1;
    }
  }

  /** `for mut settings in settings_query.iter_mut() { settings.num_bvh_nodes = .. }` */
  method SetBvhNodeCounts(settings: seq<SettingsCounts>, len: Option<nat>)
    modifies set s | s in settings
    ensures forall s :: s in settings ==> s.numBvhNodes == SyncedCount(len)
    ensures forall s :: s in settings ==> s.entityCount == old(s.entityCount)
  {
    var v := SyncedCount(len);
    var i := 0;
    while i < |settings|
      invariant 0 <= i <= |settings|
      invariant forall k :: 0 <= k < i ==> settings[k].numBvhNodes == v
      invariant forall s :: s in settings ==> s.entityCount == old(s.entityCount)
    {
      settings[i].numBvhNodes := v;
      i := i + 1;
    }
  }
}
