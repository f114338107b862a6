/** The asynchronous point-evaluation pipeline of the render world (the
    current, channel-per-request version).

    Each frame four systems run in this order: `process_sdf_requests` drains
    the incoming channel, the compute node dispatches and copies results into
    the readback buffer, `initiate_gpu_readback` moves requests towards
    mapping, and `perform_delayed_readback` answers at most one request and
    maps the readback buffer for the next one.

    GPU buffers are represented by what the model needs to know about their
    contents: the query points written at offset 0, and for every result slot
    of the results and readback buffers the query point it was computed from
    (`None` for a slot no dispatch has written since the buffer was created).
    The map-complete signal and the mapped bytes are inputs. */
module SdfCompute {
  import opened Wrappers
  import opened Geometry
  import SceneBuffers

  /** Point capacity the three buffers are created with. */
  const INITIAL_CAPACITY: nat := 1024
  /** Threads per compute workgroup. */
  const WORKGROUP_SIZE: nat := 64
  /** Size of one `SdfResult` record (an f32 distance). */
  const RESULT_BYTES: nat := 4
  /** Message of the (unreachable) chunk conversion error. */
  const CONVERSION_ERROR: string := "Failed to convert chunk to byte array"

  const ZERO_POINT: Vec2 := Vec2(0.0, 0.0)

  /** A request: its points and the one-shot channel its reply goes to. */
  datatype Request = Request(points: seq<Vec2>, replyTo: nat)

  /** One result record, as the four raw bytes of its f32 distance. */
  datatype SdfResult = SdfResult(b0: bv8, b1: bv8, b2: bv8, b3: bv8)

  /** A reply sent on `request`'s channel. `evaluatedAt` records, for each
      result, the query point the GPU computed it from (model bookkeeping). */
  datatype Reply = Reply(request: Request, results: seq<SdfResult>, evaluatedAt: seq<Option<Vec2>>)

  // ---------------------------------------------------------------------
  // Device buffers (`SdfComputeBuffers`)

  datatype DeviceBuffers = DeviceBuffers(
    capacity: nat,
    queryPoints: seq<Vec2>,
    results: seq<Option<Vec2>>,
    readback: seq<Option<Vec2>>,
    readbackMapped: bool)

  predicate BuffersValid(b: DeviceBuffers)
  {
    |b.queryPoints| == b.capacity && |b.results| == b.capacity && |b.readback| == b.capacity
    && b.capacity >= INITIAL_CAPACITY
  }

  function Zeros(n: nat): (r: seq<Vec2>)
    ensures |r| == n && forall k :: 0 <= k < n ==> r[k] == ZERO_POINT
  {
    seq(n, _ => ZERO_POINT)
  }

  function Unwritten(n: nat): (r: seq<Option<Vec2>>)
    ensures |r| == n && forall k :: 0 <= k < n ==> r[k].None?
  {
    seq(n, _ => None)
  }

  /** Three fresh, zero-filled buffers for `capacity` points. */
  function FreshBuffers(capacity: nat): (b: DeviceBuffers)
    ensures b.capacity == capacity && !b.readbackMapped
  {
    DeviceBuffers(capacity, Zeros(capacity), Unwritten(capacity), Unwritten(capacity), false)
  }

  /** `SdfComputeBuffers::from_world`. */
  function InitialBuffers(): (b: DeviceBuffers)
    ensures BuffersValid(b) && b.capacity == INITIAL_CAPACITY && !b.readbackMapped
  {
    FreshBuffers(INITIAL_CAPACITY)
  }

  /** Capacity after a request of `count` points: `max(2 * count, 1024)` when
      it does not fit, unchanged otherwise. */
  function GrownCapacity(capacity: nat, count: nat): (c: nat)
    ensures c >= capacity && c >= count
    ensures count <= capacity ==> c == capacity
    ensures count > capacity ==> c == (if 2 * count < INITIAL_CAPACITY then INITIAL_CAPACITY else 2 * count)
  {
    if count > capacity then (if 2 * count < INITIAL_CAPACITY then INITIAL_CAPACITY else 2 * count)
    else capacity
  }

  /** One iteration of the drain loop: an empty request changes nothing; a
      request that does not fit recreates all three buffers (unmapped, zero
      filled); then its points are written at offset 0. */
  function Upload(b: DeviceBuffers, r: Request): (b': DeviceBuffers)
    requires BuffersValid(b)
    ensures BuffersValid(b')
    ensures r.points == [] ==> b' == b
    ensures b'.capacity == GrownCapacity(b.capacity, |r.points|)
    ensures r.points != [] ==> b'.queryPoints[..|r.points|] == r.points
    ensures b'.capacity == b.capacity ==> b'.results == b.results && b'.readback == b.readback && b'.readbackMapped == b.readbackMapped
    ensures b'.capacity != b.capacity ==> !b'.readbackMapped
  {
    if r.points == [] then b
    else
      var g := if |r.points| > b.capacity then FreshBuffers(GrownCapacity(b.capacity, |r.points|)) else b;
      g.(queryPoints := SceneBuffers.Overwrite(g.queryPoints, r.points))
  }

  function UploadAll(b: DeviceBuffers, incoming: seq<Request>): (b': DeviceBuffers)
    requires BuffersValid(b)
    ensures BuffersValid(b')
    decreases |incoming|
  {
    if incoming == [] then b
    else Upload(UploadAll(b, incoming[..|incoming| - 1]), incoming[|incoming| - 1])
  }

  /** Unfolds `UploadAll` at one more request. */
  lemma UploadAllSnoc(b: DeviceBuffers, incoming: seq<Request>, r: Request)
    requires BuffersValid(b)
    ensures UploadAll(b, incoming + [r]) == Upload(UploadAll(b, incoming), r)
  {
    assert (incoming + [r])[..|incoming|] == incoming;
  }

  /** The non-empty requests of a batch, in arrival order. */
  function NonEmpty(incoming: seq<Request>): (r: seq<Request>)
    ensures |r| <= |incoming|
    decreases |incoming|
  {
    if incoming == [] then []
    else
      var last := incoming[|incoming| - 1];
      NonEmpty(incoming[..|incoming| - 1]) + (if last.points == [] then [] else [last])
  }

  /** Unfolds `NonEmpty` at one more request. */
  lemma NonEmptySnoc(incoming: seq<Request>, r: Request)
    ensures NonEmpty(incoming + [r]) == NonEmpty(incoming) + (if r.points == [] then [] else [r])
  {
    assert (incoming + [r])[..|incoming|] == incoming;
  }

  /** The filter keeps exactly the requests with at least one point. */
  lemma {:induction false} NonEmptyMembers(incoming: seq<Request>)
    ensures forall q :: q in NonEmpty(incoming) <==> q in incoming && q.points != []
    decreases |incoming|
  {
    if incoming != [] {
      var init := incoming[..|incoming| - 1];
      NonEmptyMembers(init);
      assert incoming == init + [incoming[|incoming| - 1]];
    }
  }

  /** A batch of empty requests leaves the buffers alone and enqueues nothing. */
  lemma {:induction false} EmptyRequestsIgnored(b: DeviceBuffers, incoming: seq<Request>)
    requires BuffersValid(b)
    requires forall q :: q in incoming ==> q.points == []
    ensures UploadAll(b, incoming) == b && NonEmpty(incoming) == []
    decreases |incoming|
  {
    if incoming != [] {
      EmptyRequestsIgnored(b, incoming[..|incoming| - 1]);
    }
  }

  /** Over a batch the capacity never decreases and ends up holding every
      request of the batch; if every request fits, the buffers are not
      recreated (results, readback and mapping state are kept). */
  lemma {:induction false} UploadAllCapacity(b: DeviceBuffers, incoming: seq<Request>)
    requires BuffersValid(b)
    ensures UploadAll(b, incoming).capacity >= b.capacity
    ensures forall q :: q in incoming ==> |q.points| <= UploadAll(b, incoming).capacity
    ensures (forall q :: q in incoming ==> |q.points| <= b.capacity) ==>
      var b' := UploadAll(b, incoming);
      b'.capacity == b.capacity && b'.results == b.results && b'.readback == b.readback
      && b'.readbackMapped == b.readbackMapped
    ensures UploadAll(b, incoming).readbackMapped ==> b.readbackMapped
    ensures UploadAll(b, incoming).capacity != b.capacity ==> !UploadAll(b, incoming).readbackMapped
    decreases |incoming|
  {
    if incoming != [] {
      var init := incoming[..|incoming| - 1];
      UploadAllCapacity(b, init);
      forall q | q in incoming
        ensures |q.points| <= UploadAll(b, incoming).capacity
      {
        if q != incoming[|incoming| - 1] {
          assert q in init;
        }
      }
      if forall q :: q in incoming ==> |q.points| <= b.capacity {
        assert forall q :: q in init ==> q in incoming;
      }
    }
  }

  /** Every request is written at offset 0, so after a batch the query buffer
      starts with the points of its last non-empty request: earlier requests
      of the same frame are overwritten. */
  lemma {:induction false} LastRequestWins(b: DeviceBuffers, incoming: seq<Request>)
    requires BuffersValid(b)
    requires NonEmpty(incoming) != []
    ensures var last := NonEmpty(incoming)[|NonEmpty(incoming)| - 1];
      |last.points| <= UploadAll(b, incoming).capacity
      && UploadAll(b, incoming).queryPoints[..|last.points|] == last.points
    decreases |incoming|
  {
    UploadAllCapacity(b, incoming);
    NonEmptyMembers(incoming);
    var init := incoming[..|incoming| - 1];
    var r := incoming[|incoming| - 1];
    if r.points == [] {
      assert NonEmpty(incoming) == NonEmpty(init);
      LastRequestWins(b, init);
    }
  }

  /** A 2000-point request against the initial buffers grows them to 4000. */
  lemma GrowthExample(r: Request)
    requires |r.points| == 2000
    ensures Upload(InitialBuffers(), r).capacity == 4000
  {
  }

  // ---------------------------------------------------------------------
  // Compute node (`SdfComputeNode::run`)

  /** What the node records into the command encoder. */
  datatype ComputeCommands = ComputeCommands(workgroups: Option<nat>, copyBytes: Option<nat>)

  /** Largest point count among the queued requests, 0 when there are none. */
  function MaxPoints(requests: seq<Request>): (m: nat)
    ensures forall q :: q in requests ==> |q.points| <= m
    ensures requests == [] ==> m == 0
    ensures requests != [] ==> exists q :: q in requests && |q.points| == m
    decreases |requests|
  {
    if requests == [] then 0
    else
      var m0 := MaxPoints(requests[..|requests| - 1]);
      var n := |requests[|requests| - 1].points|;
      assert requests[..|requests| - 1] + [requests[|requests| - 1]] == requests;
      if n > m0 then n else m0
  }

  /** `(max_points as u32 + 63) / 64` with u32 arithmetic. */
  function Workgroups(maxPoints: nat): (w: nat)
    ensures w < U32_LIMIT
    ensures AsU32(maxPoints) + (WORKGROUP_SIZE - 1) < U32_LIMIT ==>
      AsU32(maxPoints) <= WORKGROUP_SIZE * w < AsU32(maxPoints) + WORKGROUP_SIZE
  {
    ((AsU32(maxPoints) + (WORKGROUP_SIZE - 1)) % U32_LIMIT) / WORKGROUP_SIZE
  }

  /** Without u32 overflow, the dispatch is the smallest number of 64-thread
      workgroups that covers every point. */
  lemma WorkgroupsIsCeiling(maxPoints: nat)
    requires maxPoints + (WORKGROUP_SIZE - 1) < U32_LIMIT
    ensures WORKGROUP_SIZE * Workgroups(maxPoints) >= maxPoints
    ensures Workgroups(maxPoints) > 0 ==> WORKGROUP_SIZE * (Workgroups(maxPoints) - 1) < maxPoints
  {
  }

  /** A queue of 4294967233 or more points makes the u32 sum wrap, and the
      dispatch covers almost nothing. */
  lemma WorkgroupsWrap()
    ensures Workgroups(U32_LIMIT - 63) == 0
  {
  }

  /** The dispatch and the results-to-readback copy happen only when requests
      are queued and no mapping is pending; the dispatch also needs the bind
      groups and the compiled pipeline. The copy is `capacity * 4` bytes. */
  function NodeCommands(hasBindGroups: bool, pipelineReady: bool, requests: seq<Request>, mappingPending: bool, capacity: nat): (c: ComputeCommands)
    ensures c.workgroups.Some? <==> hasBindGroups && pipelineReady && requests != [] && !mappingPending
    ensures c.copyBytes.Some? <==> requests != [] && !mappingPending
    ensures c.workgroups.Some? ==> c.workgroups.value == Workgroups(MaxPoints(requests))
    ensures c.copyBytes.Some? ==> c.copyBytes.value == capacity * RESULT_BYTES
  {
    var active := requests != [] && !mappingPending;
    ComputeCommands(
      if hasBindGroups && pipelineReady && active then Some(Workgroups(MaxPoints(requests))) else None,
      if active then Some(capacity * RESULT_BYTES) else None)
  }

  /** The dispatch: invocation k evaluates query slot k for the first
      `64 * workgroups` slots; the other result slots keep what they held. */
  function Dispatch(b: DeviceBuffers, workgroups: nat): (b': DeviceBuffers)
    requires BuffersValid(b)
    ensures BuffersValid(b')
    ensures b'.capacity == b.capacity && b'.queryPoints == b.queryPoints && b'.readback == b.readback
    ensures b'.readbackMapped == b.readbackMapped
    ensures forall k :: 0 <= k < b.capacity && k < WORKGROUP_SIZE * workgroups ==> b'.results[k] == Some(b.queryPoints[k])
    ensures forall k :: 0 <= k < b.capacity && k >= WORKGROUP_SIZE * workgroups ==> b'.results[k] == b.results[k]
  {
    b.(results := seq(b.capacity, k requires 0 <= k < b.capacity =>
      if k < WORKGROUP_SIZE * workgroups then Some(b.queryPoints[k]) else b.results[k]))
  }

  function ApplyCommands(b: DeviceBuffers, c: ComputeCommands): (b': DeviceBuffers)
    requires BuffersValid(b)
    ensures BuffersValid(b')
    ensures b'.capacity == b.capacity && b'.queryPoints == b.queryPoints && b'.readbackMapped == b.readbackMapped
    ensures c.copyBytes.None? ==> b'.readback == b.readback
    ensures c.copyBytes.Some? ==> b'.readback == b'.results
  {
    var d := if c.workgroups.Some? then Dispatch(b, c.workgroups.value) else b;
    if c.copyBytes.Some? then d.(readback := d.results) else d
  }

  // ---------------------------------------------------------------------
  // Reading the mapped range

  /** `chunks_exact(4)`: the whole 4-byte chunks of a byte range; a shorter
      remainder is dropped. */
  function ChunksExact(bytes: seq<bv8>): (r: seq<seq<bv8>>)
    ensures |r| == |bytes| / RESULT_BYTES
    decreases |bytes|
  {
    if |bytes| < RESULT_BYTES then [] else [bytes[..RESULT_BYTES]] + ChunksExact(bytes[RESULT_BYTES..])
  }

  /** Chunk k is bytes 4k to 4k+3. */
  lemma {:induction false} ChunkAt(bytes: seq<bv8>, k: nat)
    requires k < |bytes| / RESULT_BYTES
    ensures ChunksExact(bytes)[k] == bytes[RESULT_BYTES * k..RESULT_BYTES * (k + 1)]
    decreases k
  {
    if k > 0 {
      ChunkAt(bytes[RESULT_BYTES..], k - 1);
    }
  }

  /** `try_into` of one chunk into a 4-byte array. */
  function ChunkToRecord(chunk: seq<bv8>): (r: Result<SdfResult, string>)
    ensures r.Ok? <==> |chunk| == RESULT_BYTES
    ensures r.Ok? ==> r.value == SdfResult(chunk[0], chunk[1], chunk[2], chunk[3])
  {
    if |chunk| == RESULT_BYTES then Ok(SdfResult(chunk[0], chunk[1], chunk[2], chunk[3]))
    else Err(CONVERSION_ERROR)
  }

  /** Converting the first `count` chunks, stopping at the first failure. */
  function DecodeChunks(chunks: seq<seq<bv8>>, count: nat): (r: Result<seq<SdfResult>, string>)
    requires count <= |chunks|
    ensures r.Ok? ==> |r.value| == count && forall k :: 0 <= k < count ==> ChunkToRecord(chunks[k]) == Ok(r.value[k])
    ensures r.Err? ==> exists k :: 0 <= k < count && ChunkToRecord(chunks[k]).Err?
  {
    if count == 0 then Ok([])
    else
      match DecodeChunks(chunks, count - 1)
      case Err(e) => Err(e)
      case Ok(rs) =>
        match ChunkToRecord(chunks[count - 1])
        case Err(e) => Err(e)
        case Ok(x) => Ok(rs + [x])
  }

  /** Once a conversion fails, decoding more chunks reports that failure. */
  lemma {:induction false} DecodeErrorPersists(chunks: seq<seq<bv8>>, i: nat, j: nat)
    requires i <= j <= |chunks|
    requires DecodeChunks(chunks, i).Err?
    ensures DecodeChunks(chunks, j) == DecodeChunks(chunks, i)
    decreases j - i
  {
    if i < j {
      DecodeErrorPersists(chunks, i, j - 1);
    }
  }

  function Min(a: nat, b: nat): nat
  {
    if a < b then a else b
  }

  /** The closure in `perform_delayed_readback`: the whole 4-byte chunks of
      the mapped range, at most `pointsCount` of them, each converted. */
  function ReadRecords(mapped: seq<bv8>, pointsCount: nat): (r: Result<seq<SdfResult>, string>)
    ensures r.Ok? ==> |r.value| == Min(pointsCount, |mapped| / RESULT_BYTES)
  {
    DecodeChunks(ChunksExact(mapped), Min(pointsCount, |mapped| / RESULT_BYTES))
  }

  /** Record `k` of a byte range. */
  function RecordAt(bytes: seq<bv8>, k: nat): SdfResult
    requires RESULT_BYTES * (k + 1) <= |bytes|
  {
    SdfResult(bytes[4 * k], bytes[4 * k + 1], bytes[4 * k + 2], bytes[4 * k + 3])
  }

  lemma {:induction false} DecodeChunksOk(bytes: seq<bv8>, count: nat)
    requires count <= |bytes| / RESULT_BYTES
    ensures DecodeChunks(ChunksExact(bytes), count).Ok?
    ensures |DecodeChunks(ChunksExact(bytes), count).value| == count
    ensures forall k :: 0 <= k < count ==> DecodeChunks(ChunksExact(bytes), count).value[k] == RecordAt(bytes, k)
  {
    if count > 0 {
      DecodeChunksOk(bytes, count - 1);
      ChunkAt(bytes, count - 1);
    }
  }

  /** Conversion never fails: the read yields exactly `min(n, |range| / 4)`
      records, record k being bytes 4k to 4k+3 of the range. */
  lemma ReadRecordsOk(mapped: seq<bv8>, pointsCount: nat)
    ensures ReadRecords(mapped, pointsCount).Ok?
    ensures |ReadRecords(mapped, pointsCount).value| == Min(pointsCount, |mapped| / RESULT_BYTES)
    ensures forall k :: 0 <= k < |ReadRecords(mapped, pointsCount).value| ==>
      ReadRecords(mapped, pointsCount).value[k] == RecordAt(mapped, k)
  {
    DecodeChunksOk(mapped, Min(pointsCount, |mapped| / RESULT_BYTES));
  }

  /** The read loop over `chunks_exact(4).take(pointsCount)`. */
  method ReadMappedRange(mapped: seq<bv8>, pointsCount: nat) returns (r: Result<seq<SdfResult>, string>)
    ensures r == ReadRecords(mapped, pointsCount)
  {
    var chunks := ChunksExact(mapped);
    var count := Min(pointsCount, |chunks|);
    var resultsData: seq<SdfResult> := [];
    var i := 0;
    while i < count
      invariant 0 <= i <= count
      invariant DecodeChunks(chunks, i) == Ok(resultsData)
    {
      var converted := ChunkToRecord(chunks[i]);
      if converted.Err? {
        DecodeErrorPersists(chunks, i + 1, count);
        return Err(converted.error);
      }
      resultsData := resultsData + [converted.value];
      i := i + 1;
    }
    return Ok(resultsData);
  }

  /** What is sent: the records, or an empty vector on a read error. */
  function ReplyResults(read: Result<seq<SdfResult>, string>): seq<SdfResult>
  {
    if read.Ok? then read.value else []
  }

  // ---------------------------------------------------------------------
  // The pipeline state and one step per system

  datatype ComputeState = ComputeState(
    buffers: DeviceBuffers,
    requests: seq<Request>,
    completed: seq<Request>,
    ready: seq<Request>,
    pending: Option<Request>,
    replies: seq<Reply>,
    unmaps: nat)

  function InitialState(): ComputeState
  {
    ComputeState(InitialBuffers(), [], [], [], None, [], 0)
  }

  /** The drain loop of `process_sdf_requests` over one batch: each
      non-empty request grows the buffers if it does not fit, is written at
      offset 0 and is queued; an empty one is dropped. */
  method DrainRequests(start: DeviceBuffers, incoming: seq<Request>) returns (b: DeviceBuffers, queued: seq<Request>)
    requires BuffersValid(start)
    ensures b == UploadAll(start, incoming)
    ensures queued == NonEmpty(incoming)
  {
    b, queued := start, [];
    var i := 0;
    while i < |incoming|
      invariant 0 <= i <= |incoming|
      invariant BuffersValid(b)
      invariant b == UploadAll(start, incoming[..i])
      invariant queued == NonEmpty(incoming[..i])
    {
      var request := incoming[i];
      assert incoming[..i + 1] == incoming[..i] + [request];
      UploadAllSnoc(start, incoming[..i], request);
      NonEmptySnoc(incoming[..i], request);
      ghost var before := b;
      var pointsCount := |request.points|;
      if pointsCount != 0 {
        if pointsCount > b.capacity {
          b := FreshBuffers(GrownCapacity(b.capacity, pointsCount));
        }
        b := b.(queryPoints := SceneBuffers.Overwrite(b.queryPoints, request.points));
        queued := queued + [request];
      }
      assert b == Upload(before, request);
      i := i + 1;
    }
    assert incoming[..|incoming|] == incoming;
  }

  /** `process_sdf_requests`: uploads the batch and enqueues its non-empty requests. */
  function ProcessStep(s: ComputeState, incoming: seq<Request>): (s': ComputeState)
    requires BuffersValid(s.buffers)
    ensures s'.requests == s.requests + NonEmpty(incoming)
    ensures s'.buffers == UploadAll(s.buffers, incoming)
    ensures s'.completed == s.completed && s'.ready == s.ready && s'.pending == s.pending
    ensures s'.replies == s.replies && s'.unmaps == s.unmaps
  {
    s.(buffers := UploadAll(s.buffers, incoming), requests := s.requests + NonEmpty(incoming))
  }

  /** `SdfComputeNode::run`: only the device buffers change. */
  function NodeStep(s: ComputeState, hasBindGroups: bool, pipelineReady: bool): (s': ComputeState)
    requires BuffersValid(s.buffers)
    ensures s' == s.(buffers := s'.buffers)
    ensures s.requests == [] || s.pending.Some? ==> s' == s
  {
    var c := NodeCommands(hasBindGroups, pipelineReady, s.requests, s.pending.Some?, s.buffers.capacity);
    s.(buffers := ApplyCommands(s.buffers, c))
  }

  /** `initiate_gpu_readback`: with nothing left in `completed`, every queued
      request moves, in order, to the back of `ready`, and both earlier
      queues end empty. */
  function InitiateStep(s: ComputeState): (s': ComputeState)
    ensures s.completed == [] ==>
      s' == s.(requests := [], ready := s.ready + s.requests)
    ensures s'.completed == []
  {
    var s1 := if s.completed == [] && s.requests != [] then s.(completed := s.requests, requests := []) else s;
    if s1.completed != [] then s1.(ready := s1.ready + s1.completed, completed := []) else s1
  }

  /** `perform_delayed_readback`: answers the pending request when the map
      signal has arrived (one reply, one unmap), then maps the readback buffer
      for the head of `ready` if the slot is free. */
  function ReadbackStep(s: ComputeState, signal: bool, mapped: seq<bv8>): (s': ComputeState)
    ensures s'.requests == s.requests && s'.completed == s.completed
    ensures s.pending.Some? && !signal ==> s' == s
    ensures s.pending.Some? && signal ==>
      && s'.replies == s.replies + [Reply(s.pending.value, ReplyResults(ReadRecords(mapped, |s.pending.value.points|)),
                                          Take(s.buffers.readback, |s.pending.value.points|))]
      && s'.unmaps == s.unmaps + 1
    ensures s.pending.None? || !signal ==> s'.replies == s.replies && s'.unmaps == s.unmaps
    ensures (s.pending.None? || signal) && s.ready != [] ==>
      s'.pending == Some(s.ready[0]) && s'.ready == s.ready[1..] && s'.buffers.readbackMapped
    ensures (s.pending.None? || signal) && s.ready == [] ==> s'.pending.None? && s'.ready == []
  {
    var s1 :=
      if s.pending.Some? && signal then
        var request := s.pending.value;
        var read := ReadRecords(mapped, |request.points|);
        s.(pending := None,
           buffers := s.buffers.(readbackMapped := false),
           unmaps := s.unmaps + 1,
           replies := s.replies + [Reply(request, ReplyResults(read), Take(s.buffers.readback, |request.points|))])
      else s;
    if s1.pending.None? && s1.ready != [] then
      s1.(pending := Some(s1.ready[0]), ready := s1.ready[1..], buffers := s1.buffers.(readbackMapped := true))
    else s1
  }

  function Take<T>(s: seq<T>, n: nat): (r: seq<T>)
    ensures |r| == Min(n, |s|)
    ensures forall k :: 0 <= k < |r| ==> r[k] == s[k]
  {
    if n <= |s| then s[..n] else s
  }

  /** The request each reply went to, in sending order. */
  function Answered(replies: seq<Reply>): (r: seq<Request>)
    ensures |r| == |replies|
    ensures forall k :: 0 <= k < |replies| ==> r[k] == replies[k].request
  {
    seq(|replies|, k requires 0 <= k < |replies| => replies[k].request)
  }

  function SlotContents(slot: Option<Request>): seq<Request>
  {
    if slot.Some? then [slot.value] else []
  }

  /** The order invariant of `PendingSdfRequests`: answered requests, then the
      one in the slot, then `ready`, `completed` and `requests`, together are
      exactly the accepted requests in arrival order. */
  ghost predicate InOrder(s: ComputeState, accepted: seq<Request>)
  {
    Answered(s.replies) + SlotContents(s.pending) + s.ready + s.completed + s.requests == accepted
  }

  /** The reply to a request carries `min(n, |range| / 4)` records taken from
      the start of the mapped range, and is sent on that request's channel. */
  lemma ReplyContents(s: ComputeState, mapped: seq<bv8>)
    requires s.pending.Some?
    ensures var r := ReadbackStep(s, true, mapped).replies[|s.replies|];
      && r.request == s.pending.value
      && |r.results| == Min(|s.pending.value.points|, |mapped| / RESULT_BYTES)
      && forall k :: 0 <= k < |r.results| ==> r.results[k] == RecordAt(mapped, k)
  {
    ReadRecordsOk(mapped, |s.pending.value.points|);
  }

  /** Every step keeps the order invariant, given the requests it accepts. */
  lemma AnsweredAppend(replies: seq<Reply>, r: Reply)
    ensures Answered(replies + [r]) == Answered(replies) + [r.request]
  {
  }

  /** Processing appends the batch's non-empty requests to the order. */
  lemma ProcessKeepsOrder(s: ComputeState, accepted: seq<Request>, incoming: seq<Request>)
    requires BuffersValid(s.buffers) && InOrder(s, accepted)
    ensures InOrder(ProcessStep(s, incoming), accepted + NonEmpty(incoming))
  {
    var head := Answered(s.replies) + SlotContents(s.pending) + s.ready + s.completed;
    assert head + (s.requests + NonEmpty(incoming)) == (head + s.requests) + NonEmpty(incoming);
  }

  /** Moving requests towards mapping keeps their order. */
  lemma InitiateKeepsOrder(s: ComputeState, accepted: seq<Request>)
    requires InOrder(s, accepted)
    ensures InOrder(InitiateStep(s), accepted)
  {
    var head := Answered(s.replies) + SlotContents(s.pending);
    if s.completed == [] && s.requests != [] {
      assert head + (s.ready + s.requests) + [] + [] == head + s.ready + s.completed + s.requests;
    } else if s.completed != [] {
      assert head + (s.ready + s.completed) + [] + s.requests == head + s.ready + s.completed + s.requests;
    }
  }

  /** Answering the slot and refilling it from the head of `ready` keeps the
      order: each request is answered once, in arrival order. */
  lemma ReadbackKeepsOrder(s: ComputeState, accepted: seq<Request>, signal: bool, mapped: seq<bv8>)
    requires InOrder(s, accepted)
    ensures InOrder(ReadbackStep(s, signal, mapped), accepted)
  {
    var rp := ReadbackStep(s, signal, mapped);
    var rest := s.completed + s.requests;
    assert InOrder(s, accepted) <==> Answered(s.replies) + SlotContents(s.pending) + s.ready + rest == accepted;
    if s.pending.Some? && signal {
      AnsweredAppend(s.replies, rp.replies[|s.replies|]);
      assert Answered(rp.replies) == Answered(s.replies) + [s.pending.value];
      if s.ready != [] {
        assert s.ready == [s.ready[0]] + s.ready[1..];
        assert Answered(rp.replies) + [s.ready[0]] + s.ready[1..] + rest
            == Answered(s.replies) + [s.pending.value] + s.ready + rest;
      } else {
        assert Answered(rp.replies) + [] + [] + rest == Answered(s.replies) + [s.pending.value] + s.ready + rest;
      }
    } else if s.pending.None? && s.ready != [] {
      assert s.ready == [s.ready[0]] + s.ready[1..];
      assert Answered(rp.replies) + [s.ready[0]] + s.ready[1..] + rest
          == Answered(s.replies) + [] + s.ready + rest;
    }
  }

  /** The invariant of the pipeline's resources: the buffers have one slot
      per point of capacity; every accepted request is non-empty and fits;
      requests are answered exactly once and in arrival order; one unmap per
      reply; the readback buffer is only mapped for a pending request; and
      `completed_requests` is empty between systems. */
  ghost predicate Consistent(s: ComputeState, accepted: seq<Request>)
  {
    && BuffersValid(s.buffers)
    && (forall q :: q in accepted ==> 0 < |q.points| <= s.buffers.capacity)
    && InOrder(s, accepted)
    && s.completed == []
    && s.unmaps == |s.replies|
    && (s.buffers.readbackMapped ==> s.pending.Some?)
  }

  lemma InitialConsistent()
    ensures Consistent(InitialState(), [])
  {
  }

  lemma ProcessKeepsConsistent(s: ComputeState, accepted: seq<Request>, incoming: seq<Request>)
    requires Consistent(s, accepted)
    ensures Consistent(ProcessStep(s, incoming), accepted + NonEmpty(incoming))
  {
    ProcessKeepsOrder(s, accepted, incoming);
    UploadAllCapacity(s.buffers, incoming);
    NonEmptyMembers(incoming);
  }

  lemma NodeKeepsConsistent(s: ComputeState, accepted: seq<Request>, hasBindGroups: bool, pipelineReady: bool)
    requires Consistent(s, accepted)
    ensures Consistent(NodeStep(s, hasBindGroups, pipelineReady), accepted)
  {
  }

  lemma InitiateKeepsConsistent(s: ComputeState, accepted: seq<Request>)
    requires Consistent(s, accepted)
    ensures Consistent(InitiateStep(s), accepted)
  {
    InitiateKeepsOrder(s, accepted);
  }

  lemma ReadbackKeepsConsistent(s: ComputeState, accepted: seq<Request>, signal: bool, mapped: seq<bv8>)
    requires Consistent(s, accepted)
    ensures Consistent(ReadbackStep(s, signal, mapped), accepted)
  {
    ReadbackKeepsOrder(s, accepted, signal, mapped);
  }

  /** Read from the whole readback buffer (`capacity * 4` bytes), the reply
      to the request in the slot has exactly one record per query point,
      record k being bytes 4k to 4k+3 of the range: every accepted request
      fits the capacity. */
  lemma ReplyHasOneResultPerPoint(s: ComputeState, accepted: seq<Request>, mapped: seq<bv8>)
    requires Consistent(s, accepted) && s.pending.Some?
    requires |mapped| == RESULT_BYTES * s.buffers.capacity
    ensures var r := ReadbackStep(s, true, mapped).replies[|s.replies|];
      && r.request == s.pending.value
      && |r.results| == |s.pending.value.points|
      && forall k :: 0 <= k < |r.results| ==> r.results[k] == RecordAt(mapped, k)
  {
    ReplyContents(s, mapped);
    assert s.pending.value in accepted by {
      assert accepted[|s.replies|] == s.pending.value;
    }
    assert |mapped| / RESULT_BYTES == s.buffers.capacity;
  }

  /** Single flight: the node never copies into the readback buffer while it
      is mapped. */
  lemma NoCopyIntoMappedBuffer(s: ComputeState, accepted: seq<Request>, hasBindGroups: bool, pipelineReady: bool)
    requires Consistent(s, accepted)
    requires NodeCommands(hasBindGroups, pipelineReady, s.requests, s.pending.Some?, s.buffers.capacity).copyBytes.Some?
    ensures !s.buffers.readbackMapped
  {
  }

  /** A request larger than the capacity that arrives while a readback is
      mapped recreates the readback buffer: the request in the slot then waits
      on a buffer that is no longer mapped, so the next signalled readback
      reads the range of an unmapped buffer (a wgpu panic). */
  lemma GrowthUnmapsPendingReadback(s: ComputeState, incoming: seq<Request>, big: Request)
    requires BuffersValid(s.buffers)
    requires big in incoming && |big.points| > s.buffers.capacity
    ensures ProcessStep(s, incoming).pending == s.pending
    ensures !ProcessStep(s, incoming).buffers.readbackMapped
  {
    UploadAllCapacity(s.buffers, incoming);
  }

  /** One frame: the four systems in their schedule order. */
  function Frame(s: ComputeState, incoming: seq<Request>, hasBindGroups: bool, pipelineReady: bool, signal: bool, mapped: seq<bv8>): ComputeState
    requires BuffersValid(s.buffers)
  {
    var p := ProcessStep(s, incoming);
    var n := NodeStep(p, hasBindGroups, pipelineReady);
    ReadbackStep(InitiateStep(n), signal, mapped)
  }

  lemma UploadOne(b: DeviceBuffers, r: Request)
    requires BuffersValid(b)
    ensures UploadAll(b, [r]) == Upload(b, r)
    ensures NonEmpty([r]) == if r.points == [] then [] else [r]
  {
    assert [r][..0] == [];
  }

  predicate Idle(s: ComputeState)
  {
    s.requests == [] && s.completed == [] && s.ready == [] && s.pending.None?
  }

  /** A dispatch sized for `n` points evaluates the first `n` query slots. */
  lemma DispatchCovers(b: DeviceBuffers, n: nat)
    requires BuffersValid(b) && n <= b.capacity && n + (WORKGROUP_SIZE - 1) < U32_LIMIT
    ensures forall k :: 0 <= k < n ==> Dispatch(b, Workgroups(n)).results[k] == Some(b.queryPoints[k])
  {
    WorkgroupsIsCeiling(n);
  }

  /** The node's part of a lone request's first frame. */
  lemma LoneRequestNode(p: ComputeState, r: Request)
    requires BuffersValid(p.buffers) && p.requests == [r] && p.pending.None?
    requires |r.points| <= p.buffers.capacity && p.buffers.queryPoints[..|r.points|] == r.points
    requires |r.points| + (WORKGROUP_SIZE - 1) < U32_LIMIT
    ensures var n := NodeStep(p, true, true);
      forall k :: 0 <= k < |r.points| ==> n.buffers.readback[k] == Some(r.points[k])
  {
    assert MaxPoints([r]) == |r.points| by {
      assert [r][..0] == [];
    }
    DispatchCovers(p.buffers, |r.points|);
    forall k | 0 <= k < |r.points|
      ensures p.buffers.queryPoints[k] == r.points[k]
    {
      assert p.buffers.queryPoints[..|r.points|][k] == r.points[k];
    }
  }

  /** The first frame of a request that arrives alone at an idle pipeline:
      it is dispatched, its results are copied, and it is mapped. */
  lemma LoneRequestFirstFrame(s: ComputeState, r: Request, signal: bool, mapped: seq<bv8>)
    requires BuffersValid(s.buffers) && Idle(s)
    requires r.points != [] && |r.points| + (WORKGROUP_SIZE - 1) < U32_LIMIT
    ensures var s1 := Frame(s, [r], true, true, signal, mapped);
      && s1.pending == Some(r) && s1.buffers.readbackMapped
      && s1.requests == [] && s1.completed == [] && s1.ready == [] && s1.replies == s.replies
      && |r.points| <= |s1.buffers.readback|
      && forall k :: 0 <= k < |r.points| ==> s1.buffers.readback[k] == Some(r.points[k])
  {
    var p := ProcessStep(s, [r]);
    UploadOne(s.buffers, r);
    assert p.requests == [r] && p.pending.None?;
    LoneRequestNode(p, r);
    var n := NodeStep(p, true, true);
    var i := InitiateStep(n);
    assert i.ready == [r] && i.buffers == n.buffers && i.pending.None?;
  }

  /** The next frame with the map signal and no new arrivals answers the
      pending request from the readback buffer as it stands. */
  lemma AnswerFrame(s: ComputeState, hasBindGroups: bool, pipelineReady: bool, mapped: seq<bv8>)
    requires BuffersValid(s.buffers) && s.pending.Some? && s.requests == [] && s.completed == [] && s.ready == []
    ensures var s' := Frame(s, [], hasBindGroups, pipelineReady, true, mapped);
      && |s'.replies| == |s.replies| + 1
      && s'.replies[..|s.replies|] == s.replies
      && s'.replies[|s.replies|].request == s.pending.value
      && s'.replies[|s.replies|].evaluatedAt == Take(s.buffers.readback, |s.pending.value.points|)
      && s'.pending.None?
  {
    assert ProcessStep(s, []) == s;
  }

  /** A request that arrives alone at an idle pipeline is answered, in the
      next frame that sees the map signal, with every result computed from
      its own points. */
  lemma LoneRequestAnsweredFromOwnPoints(s: ComputeState, r: Request, m1: seq<bv8>, signal1: bool,
                                         hasBindGroups: bool, pipelineReady: bool, m2: seq<bv8>)
    requires BuffersValid(s.buffers) && Idle(s)
    requires r.points != [] && |r.points| + (WORKGROUP_SIZE - 1) < U32_LIMIT
    ensures var s2 := Frame(Frame(s, [r], true, true, signal1, m1), [], hasBindGroups, pipelineReady, true, m2);
      && |s2.replies| == |s.replies| + 1
      && s2.replies[|s.replies|].request == r
      && |s2.replies[|s.replies|].evaluatedAt| == |r.points|
      && forall k :: 0 <= k < |r.points| ==> s2.replies[|s.replies|].evaluatedAt[k] == Some(r.points[k])
    ensures var s1 := Frame(s, [r], true, true, signal1, m1);
      var s2 := Frame(s1, [], hasBindGroups, pipelineReady, true, m2);
      |m2| == RESULT_BYTES * s1.buffers.capacity ==> |s2.replies[|s.replies|].results| == |r.points|
  {
    LoneRequestFirstFrame(s, r, signal1, m1);
    var s1 := Frame(s, [r], true, true, signal1, m1);
    AnswerFrame(s1, hasBindGroups, pipelineReady, m2);
    assert ProcessStep(s1, []) == s1;
    assert InitiateStep(NodeStep(s1, hasBindGroups, pipelineReady)) == s1;
    ReplyContents(s1, m2);
  }

  /** As written: a request that arrives while another request's readback is
      mapped is skipped by the compute node (a mapping is pending) but still
      moved to `ready_for_mapping`, so it is mapped and answered from the
      readback buffer of the earlier request. */
  lemma {:induction false} StaleReplyAsWritten(s: ComputeState, r: Request, q: Request, m1: seq<bv8>, m2: seq<bv8>, m3: seq<bv8>)
    requires BuffersValid(s.buffers) && Idle(s)
    requires |r.points| == 1 && |q.points| == 1 && r.points[0] != q.points[0]
    ensures var s3 := Frame(Frame(Frame(s, [r], true, true, false, m1), [q], true, true, true, m2), [], true, true, true, m3);
      && |s3.replies| == |s.replies| + 2
      && s3.replies[|s.replies|].request == r
      && s3.replies[|s.replies| + 1].request == q
      && s3.replies[|s.replies| + 1].evaluatedAt == [Some(r.points[0])]
      && s3.replies[|s.replies| + 1].evaluatedAt != [Some(q.points[0])]
  {
    LoneRequestAnsweredFromOwnPoints(s, r, m1, false, true, true, m2);
    var s1 := Frame(s, [r], true, true, false, m1);
    var p := ProcessStep(s1, [q]);
    UploadOne(s1.buffers, q);
    var n := NodeStep(p, true, true);
    assert n == p;
    var i := InitiateStep(n);
    assert i.ready == [q];
    var s2 := ReadbackStep(i, true, m2);
    assert s2.pending == Some(q);
    assert s2.buffers.readback == s1.buffers.readback;
    assert ProcessStep(s2, []) == s2;
    assert NodeStep(s2, true, true) == s2;
    assert InitiateStep(s2) == s2;
  }

  /** `initiate_gpu_readback` corrected: while a mapping is pending the compute
      node did not dispatch or copy, so the queued requests stay queued. */
  function InitiateStepCorrected(s: ComputeState): (s': ComputeState)
    ensures s.pending.Some? ==> s' == s
    ensures s.pending.None? ==> s' == InitiateStep(s)
  {
    if s.pending.Some? then s else InitiateStep(s)
  }

  function FrameCorrected(s: ComputeState, incoming: seq<Request>, hasBindGroups: bool, pipelineReady: bool, signal: bool, mapped: seq<bv8>): ComputeState
    requires BuffersValid(s.buffers)
  {
    var p := ProcessStep(s, incoming);
    var n := NodeStep(p, hasBindGroups, pipelineReady);
    ReadbackStep(InitiateStepCorrected(n), signal, mapped)
  }

  /** With the correction, a request reaches `ready_for_mapping` only in a
      frame whose compute node copied the results into the readback buffer. */
  lemma CorrectedMovesOnlyCopiedRequests(s: ComputeState, hasBindGroups: bool, pipelineReady: bool)
    requires BuffersValid(s.buffers) && s.completed == []
    ensures var n := NodeStep(s, hasBindGroups, pipelineReady);
      InitiateStepCorrected(n).ready != n.ready ==>
        NodeCommands(hasBindGroups, pipelineReady, s.requests, s.pending.Some?, s.buffers.capacity).copyBytes.Some?
  {
  }

  lemma CorrectedKeepsConsistent(s: ComputeState, accepted: seq<Request>)
    requires Consistent(s, accepted)
    ensures Consistent(InitiateStepCorrected(s), accepted)
  {
    InitiateKeepsConsistent(s, accepted);
  }

  /** Corrected frame while the earlier request is mapped: the new request
      is uploaded and stays queued, and the mapped request is answered. */
  lemma CorrectedWaitFrame(s1: ComputeState, r: Request, q: Request, m2: seq<bv8>)
    requires BuffersValid(s1.buffers) && s1.pending == Some(r)
    requires s1.requests == [] && s1.completed == [] && s1.ready == []
    requires |q.points| == 1
    ensures var s2 := FrameCorrected(s1, [q], true, true, true, m2);
      && BuffersValid(s2.buffers)
      && s2.requests == [q] && s2.completed == [] && s2.ready == [] && s2.pending.None?
      && s2.buffers.queryPoints[0] == q.points[0]
      && |s2.replies| == |s1.replies| + 1
      && s2.replies[..|s1.replies|] == s1.replies
      && s2.replies[|s1.replies|].request == r
      && s2.replies[|s1.replies|].evaluatedAt == Take(s1.buffers.readback, |r.points|)
  {
    assert [q][..0] == [];
    var p2 := ProcessStep(s1, [q]);
    UploadOne(s1.buffers, q);
    assert p2.buffers.queryPoints[..1] == q.points;
    assert NodeStep(p2, true, true) == p2;
  }

  /** Corrected frame with one queued request and a free slot: it is
      dispatched, copied and mapped. */
  lemma CorrectedDispatchFrame(s2: ComputeState, q: Request, m3: seq<bv8>)
    requires BuffersValid(s2.buffers) && s2.pending.None?
    requires s2.requests == [q] && s2.completed == [] && s2.ready == []
    requires |q.points| == 1 && s2.buffers.queryPoints[0] == q.points[0]
    ensures var s3 := FrameCorrected(s2, [], true, true, true, m3);
      && BuffersValid(s3.buffers)
      && s3.pending == Some(q) && s3.requests == [] && s3.completed == [] && s3.ready == []
      && s3.replies == s2.replies
      && s3.buffers.readback[..1] == [Some(q.points[0])]
  {
    assert ProcessStep(s2, []) == s2;
    assert MaxPoints([q]) == 1 by {
      assert [q][..0] == [];
    }
    DispatchCovers(s2.buffers, 1);
  }

  /** With the correction, the same arrivals as in `StaleReplyAsWritten` get
      the second request answered from its own point, one frame later. */
  lemma {:induction false} StaleReplyCorrected(s: ComputeState, r: Request, q: Request, m1: seq<bv8>, m2: seq<bv8>, m3: seq<bv8>, m4: seq<bv8>)
    requires BuffersValid(s.buffers) && Idle(s)
    requires |r.points| == 1 && |q.points| == 1
    ensures var s1 := FrameCorrected(s, [r], true, true, false, m1);
      var s2 := FrameCorrected(s1, [q], true, true, true, m2);
      var s4 := FrameCorrected(FrameCorrected(s2, [], true, true, true, m3), [], true, true, true, m4);
      && |s4.replies| == |s.replies| + 2
      && s4.replies[|s.replies|].request == r
      && s4.replies[|s.replies|].evaluatedAt == [Some(r.points[0])]
      && s4.replies[|s.replies| + 1].request == q
      && s4.replies[|s.replies| + 1].evaluatedAt == [Some(q.points[0])]
  {
    // frame 1: r is dispatched, copied and mapped, as without the correction
    var s1 := FrameCorrected(s, [r], true, true, false, m1);
    LoneRequestFirstFrame(s, r, false, m1);
    assert s1 == Frame(s, [r], true, true, false, m1) by {
      UploadOne(s.buffers, r);
    }
    assert Take(s1.buffers.readback, 1) == [Some(r.points[0])];
    // frame 2: q waits while r is answered
    CorrectedWaitFrame(s1, r, q, m2);
    var s2 := FrameCorrected(s1, [q], true, true, true, m2);
    // frame 3: q is dispatched, copied and mapped
    CorrectedDispatchFrame(s2, q, m3);
    var s3 := FrameCorrected(s2, [], true, true, true, m3);
    assert Take(s3.buffers.readback, 1) == [Some(q.points[0])];
    // frame 4: q is answered
    assert ProcessStep(s3, []) == s3;
    assert NodeStep(s3, true, true) == s3;
    assert InitiateStepCorrected(s3) == s3;
  }

  // ---------------------------------------------------------------------
  // The systems as methods on the render-world resources

  class ComputePipeline {
    var buffers: DeviceBuffers
    var requests: seq<Request>
    var completedRequests: seq<Request>
    var readyForMapping: seq<Request>
    var pendingMapping: Option<Request>
    /** Replies sent, in order, and `unmap` calls made. */
    var replies: seq<Reply>
    var unmaps: nat
    /** Every non-empty request received, in arrival order. */
    ghost var accepted: seq<Request>

    function State(): ComputeState
      reads this
    {
      ComputeState(buffers, requests, completedRequests, readyForMapping, pendingMapping, replies, unmaps)
    }

    ghost predicate Valid()
      reads this
    {
      Consistent(State(), accepted)
    }

    constructor ()
      ensures Valid() && State() == InitialState() && accepted == []
    {
      buffers := InitialBuffers();
      requests := [];
      completedRequests := [];
      readyForMapping := [];
      pendingMapping := None;
      replies := [];
      unmaps := 0;
      accepted := [];
    }

    /** `process_sdf_requests`: the drain loop over the incoming channel. Each
        non-empty request grows the buffers if it does not fit, is written at
        offset 0 and is queued. */
    method ProcessSdfRequests(incoming: seq<Request>)
      requires Valid()
      modifies this
      ensures Valid()
      ensures State() == ProcessStep(old(State()), incoming)
      ensures accepted == old(accepted) + NonEmpty(incoming)
    {
      var uploaded, queued := DrainRequests(buffers, incoming);
      buffers, requests := uploaded, requests + queued;
      accepted := accepted + queued;
      ProcessKeepsConsistent(old(State()), old(accepted), incoming);
    }

    /** `SdfComputeNode::run`: computes the largest queued request and records
        the dispatch and the copy its guards allow. */
    method ComputeNodeRun(hasBindGroups: bool, pipelineReady: bool) returns (commands: ComputeCommands)
      requires Valid()
      modifies this
      ensures Valid()
      ensures commands == NodeCommands(hasBindGroups, pipelineReady, old(requests), old(pendingMapping).Some?, old(buffers).capacity)
      ensures State() == NodeStep(old(State()), hasBindGroups, pipelineReady)
      ensures accepted == old(accepted)
    {
      var dispatch: Option<nat> := None;
      if hasBindGroups && pipelineReady {
        if requests != [] && pendingMapping.None? {
          var maxPoints := 0;
          for i := 0 to |requests|
            invariant maxPoints == MaxPoints(requests[..i])
          {
            assert requests[..i + 1][..i] == requests[..i];
            if |requests[i].points| > maxPoints {
              maxPoints := |requests[i].points|;
            }
          }
          assert requests[..|requests|] == requests;
          dispatch := Some(Workgroups(maxPoints));
          buffers := Dispatch(buffers, Workgroups(maxPoints));
        }
      }
      var copy: Option<nat> := None;
      if requests != [] && pendingMapping.None? {
        copy := Some(buffers.capacity * RESULT_BYTES);
        buffers := buffers.(readback := buffers.results);
      }
      commands := ComputeCommands(dispatch, copy);
      NodeKeepsConsistent(old(State()), accepted, hasBindGroups, pipelineReady);
    }

    /** `initiate_gpu_readback`. */
    method InitiateGpuReadback()
      requires Valid()
      modifies this
      ensures Valid()
      ensures State() == InitiateStep(old(State()))
      ensures readyForMapping == old(readyForMapping) + old(requests) && requests == []
      ensures accepted == old(accepted)
    {
      if completedRequests == [] && requests != [] {
        completedRequests := completedRequests + requests;
        requests := [];
      }
      if completedRequests != [] {
        readyForMapping := readyForMapping + completedRequests;
        completedRequests := [];
      }
      InitiateKeepsConsistent(old(State()), accepted);
    }

    /** `perform_delayed_readback`. `signal` says whether the map callback has
        fired; `mapped` is the mapped range. Reading the range of a buffer
        that is not mapped panics in wgpu, hence the precondition. */
    method PerformDelayedReadback(signal: bool, mapped: seq<bv8>)
      requires Valid()
      requires signal && pendingMapping.Some? ==> buffers.readbackMapped
      requires signal && pendingMapping.Some? ==> |mapped| == RESULT_BYTES * buffers.capacity
      modifies this
      ensures Valid()
      ensures State() == ReadbackStep(old(State()), signal, mapped)
      ensures signal && old(pendingMapping).Some? ==>
        && replies[|old(replies)|].request == old(pendingMapping).value
        && |replies[|old(replies)|].results| == |old(pendingMapping).value.points|
      ensures accepted == old(accepted)
    {
      if pendingMapping.Some? {
        if signal {
          var request := pendingMapping.value;
          pendingMapping := None;
          var read := ReadMappedRange(mapped, |request.points|);
          var evaluatedAt := Take(buffers.readback, |request.points|);
          buffers := buffers.(readbackMapped := false);
          unmaps := unmaps + 1;
          var sent := if read.Ok? then read.value else [];
          replies := replies + [Reply(request, sent, evaluatedAt)];
        }
      }
      if pendingMapping.None? && readyForMapping != [] {
        var request := readyForMapping[0];
        readyForMapping := readyForMapping[1..];
        buffers := buffers.(readbackMapped := true);
        pendingMapping := Some(request);
      }
      ReadbackKeepsConsistent(old(State()), accepted, signal, mapped);
      if signal && old(pendingMapping).Some? {
        ReplyHasOneResultPerPoint(old(State()), accepted, mapped);
      }
    }
  }
}
