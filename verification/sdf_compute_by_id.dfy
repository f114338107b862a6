/** The older, id-based version of the point-evaluation pipeline.

    Requests carry a 64-bit id drawn from one global counter; replies go back
    on a single shared response channel and each caller's future picks out
    the response with its id. Each frame `process_sdf_requests` drains the
    request channel, the compute node dispatches and copies, and
    `perform_gpu_readback` answers the pending request or maps the readback
    buffer for the head of the queue.

    Buffers are represented by their point capacity and whether the readback
    buffer is mapped; the map signal and the mapped bytes are inputs. */
module SdfComputeById {
  import opened Wrappers
  import opened Geometry
  import SdfCompute

  datatype IdRequest = IdRequest(points: seq<Vec2>, id: nat)

  /** A queued request with its point count. */
  datatype Queued = Queued(request: IdRequest, pointsCount: nat)

  datatype Response = Response(results: seq<SdfCompute.SdfResult>, id: nat)

  // ---------------------------------------------------------------------
  // Request ids

  /** `REQUEST_ID_COUNTER`, an `AtomicU64` starting at 0. */
  class RequestIdCounter {
    var next: nat

    ghost predicate Valid()
      reads this
    {
      next < U64_LIMIT
    }

    constructor ()
      ensures Valid() && next == 0
    {
      next := 0;
    }

    /** `fetch_add(1)`: returns the current value and advances the counter,
        wrapping at 2^64. */
    method FetchAdd() returns (id: nat)
      requires Valid()
      modifies this
      ensures Valid()
      ensures id == old(next)
      ensures next == (old(next) + 1) % U64_LIMIT
    {
      id := next;
      next := (next + 1) % U64_LIMIT;
    }
  }

  /** The ids handed out by `n` consecutive `fetch_add` calls from `start`. */
  function IdsFrom(start: nat, n: nat): (ids: seq<nat>)
    ensures |ids| == n
    ensures forall k :: 0 <= k < n ==> ids[k] == (start + k) % U64_LIMIT
  {
    seq(n, k requires 0 <= k < n => (start + k) % U64_LIMIT)
  }

  /** Fewer than 2^64 submissions never reuse an id, and before the counter
      wraps the ids increase in submission order. */
  lemma IdsDistinct(start: nat, n: nat)
    requires start < U64_LIMIT && n <= U64_LIMIT
    ensures forall i, j :: 0 <= i < j < n ==> IdsFrom(start, n)[i] != IdsFrom(start, n)[j]
    ensures start + n <= U64_LIMIT ==> forall i, j :: 0 <= i < j < n ==> IdsFrom(start, n)[i] < IdsFrom(start, n)[j]
  {
    forall i, j | 0 <= i < j < n
      ensures IdsFrom(start, n)[i] != IdsFrom(start, n)[j]
    {
      var a := start + i;
      var b := start + j;
      if a < U64_LIMIT && b >= U64_LIMIT {
        assert b % U64_LIMIT == b - U64_LIMIT;
        assert b - U64_LIMIT < a;
      } else if a >= U64_LIMIT {
        assert a % U64_LIMIT == a - U64_LIMIT;
        assert b % U64_LIMIT == b - U64_LIMIT;
      }
    }
  }

  // ---------------------------------------------------------------------
  // The caller's future

  datatype PollResult = Ready(results: seq<SdfCompute.SdfResult>) | Pending

  /** What a poll returns, whether the future still holds its receiver, and
      what is left in the shared response channel. */
  datatype PollOutcome = PollOutcome(result: PollResult, attached: bool, channel: seq<Response>)

  /** `SdfEvaluationFuture::poll` as written: takes the head of the shared
      channel; a response with another id is consumed and dropped. */
  function PollStep(attached: bool, id: nat, channel: seq<Response>): (o: PollOutcome)
    ensures o.result.Ready? <==> attached && channel != [] && channel[0].id == id
    ensures o.result.Ready? ==> o.result.results == channel[0].results && !o.attached && o.channel == channel[1..]
    ensures o.result.Pending? ==> o.attached == attached
    ensures attached && channel != [] ==> o.channel == channel[1..]
    ensures !attached || channel == [] ==> o.channel == channel
  {
    if !attached then PollOutcome(Pending, false, channel)
    else if channel == [] then PollOutcome(Pending, true, channel)
    else if channel[0].id == id then PollOutcome(Ready(channel[0].results), false, channel[1..])
    else PollOutcome(Pending, true, channel[1..])
  }

  /** Two futures share the response channel: when future 1 polls first, the
      response for future 0 is consumed and dropped, and future 0 then waits
      on an empty channel. */
  lemma PollDropsForeignResponse(results: seq<SdfCompute.SdfResult>)
    ensures var first := PollStep(true, 1, [Response(results, 0)]);
      && first == PollOutcome(Pending, true, [])
      && PollStep(true, 0, first.channel).result == Pending
  {
  }

  /** The future's poll with responses routed by id: only the response with
      the future's own id is removed; every other response stays. */
  function PollStepCorrected(attached: bool, id: nat, channel: seq<Response>): (o: PollOutcome)
    ensures o.result.Ready? <==> attached && exists k :: 0 <= k < |channel| && channel[k].id == id
    ensures o.result.Pending? ==> o.channel == channel && o.attached == attached
    ensures o.result.Ready? ==> !o.attached && |o.channel| == |channel| - 1
    ensures forall r :: r in channel && r.id != id ==> r in o.channel
    decreases |channel|
  {
    if !attached || channel == [] then PollOutcome(Pending, attached, channel)
    else if channel[0].id == id then PollOutcome(Ready(channel[0].results), false, channel[1..])
    else
      var rest := PollStepCorrected(attached, id, channel[1..]);
      PollOutcome(rest.result, rest.attached, if rest.result.Ready? then [channel[0]] + rest.channel else channel)
  }

  /** With routing by id, the response for future 0 survives future 1's poll
      and future 0 then receives it. */
  lemma PollKeepsForeignResponse(results: seq<SdfCompute.SdfResult>)
    ensures var first := PollStepCorrected(true, 1, [Response(results, 0)]);
      && first.result == Pending
      && PollStepCorrected(true, 0, first.channel).result == Ready(results)
  {
  }

  class SdfEvaluationFuture {
    const id: nat
    /** Whether the future still holds its receiver. */
    var attached: bool
    /** Whether a waker has been registered. It is stored in the future's own
        slot, which no other code holds, so nothing ever wakes the task. */
    var hasWaker: bool

    constructor (id: nat)
      ensures this.id == id && attached && !hasWaker
    {
      this.id := id;
      attached := true;
      hasWaker := false;
    }

    /** `poll`: registers the waker, then takes at most one response from the
        shared channel. Returns the result and what is left in the channel. */
    method Poll(channel: seq<Response>) returns (result: PollResult, rest: seq<Response>)
      modifies this
      ensures hasWaker
      ensures PollOutcome(result, attached, rest) == PollStep(old(attached), id, channel)
    {
      hasWaker := true;
      if attached {
        if channel != [] {
          var response := channel[0];
          rest := channel[1..];
          if response.id == id {
            attached := false;
            result := Ready(response.results);
          } else {
            result := Pending;
          }
        } else {
          result := Pending;
          rest := channel;
        }
      } else {
        result := Pending;
        rest := channel;
      }
    }
  }

  /** `evaluate_sdf_async`: draws the next id, sends the request and returns
      a future waiting for that id. */
  method EvaluateSdfAsync(counter: RequestIdCounter, points: seq<Vec2>) returns (request: IdRequest, future: SdfEvaluationFuture)
    requires counter.Valid()
    modifies counter
    ensures counter.Valid()
    ensures request == IdRequest(points, old(counter.next))
    ensures counter.next == (old(counter.next) + 1) % U64_LIMIT
    ensures fresh(future) && future.id == request.id && future.attached
  {
    var id := counter.FetchAdd();
    request := IdRequest(points, id);
    future := new SdfEvaluationFuture(id);
  }

  // ---------------------------------------------------------------------
  // Render-world state and one step per system

  datatype IdState = IdState(
    capacity: nat,
    requests: seq<Queued>,
    pending: Option<Queued>,
    readbackMapped: bool,
    responses: seq<Response>,
    unmaps: nat)

  function InitialIdState(): IdState
  {
    IdState(SdfCompute.INITIAL_CAPACITY, [], None, false, [], 0)
  }

  /** One iteration of the drain loop. A request that does not fit recreates
      the buffers, which leaves the readback buffer unmapped. */
  function Accept(s: IdState, r: IdRequest): (s': IdState)
    ensures r.points == [] ==> s' == s
    ensures s'.capacity == SdfCompute.GrownCapacity(s.capacity, |r.points|)
    ensures r.points != [] ==> s'.requests == s.requests + [Queued(r, |r.points|)]
    ensures s'.pending == s.pending && s'.responses == s.responses && s'.unmaps == s.unmaps
    ensures s'.readbackMapped ==> s.readbackMapped
  {
    if r.points == [] then s
    else
      var grown := |r.points| > s.capacity;
      s.(capacity := SdfCompute.GrownCapacity(s.capacity, |r.points|),
         readbackMapped := if grown then false else s.readbackMapped,
         requests := s.requests + [Queued(r, |r.points|)])
  }

  /** `process_sdf_requests`: the whole batch. */
  function ProcessStepById(s: IdState, incoming: seq<IdRequest>): (s': IdState)
    ensures s'.capacity >= s.capacity
    ensures s'.pending == s.pending && s'.responses == s.responses && s'.unmaps == s.unmaps
    ensures s'.readbackMapped ==> s.readbackMapped
    decreases |incoming|
  {
    if incoming == [] then s
    else Accept(ProcessStepById(s, incoming[..|incoming| - 1]), incoming[|incoming| - 1])
  }

  /** The queued entries for a batch: its non-empty requests with their point
      counts, in arrival order. */
  function QueuedFor(incoming: seq<IdRequest>): (q: seq<Queued>)
    ensures |q| <= |incoming|
    decreases |incoming|
  {
    if incoming == [] then []
    else
      var r := incoming[|incoming| - 1];
      QueuedFor(incoming[..|incoming| - 1]) + (if r.points == [] then [] else [Queued(r, |r.points|)])
  }

  /** Processing appends exactly the batch's non-empty requests, each with its
      own point count, and leaves room for every one of them. */
  lemma {:induction false} ProcessAppendsInOrder(s: IdState, incoming: seq<IdRequest>)
    ensures ProcessStepById(s, incoming).requests == s.requests + QueuedFor(incoming)
    ensures forall r :: r in incoming ==> |r.points| <= ProcessStepById(s, incoming).capacity
    decreases |incoming|
  {
    if incoming != [] {
      var init := incoming[..|incoming| - 1];
      ProcessAppendsInOrder(s, init);
      forall r | r in incoming
        ensures |r.points| <= ProcessStepById(s, incoming).capacity
      {
        if r != incoming[|incoming| - 1] {
          assert r in init;
        }
      }
    }
  }

  /** The node's commands as written: the dispatch needs the bind groups and
      the pipeline; both it and the copy run whenever requests are queued,
      with no check for a pending mapping. */
  function NodeCommandsById(hasBindGroups: bool, pipelineReady: bool, requests: seq<Queued>, capacity: nat): (c: SdfCompute.ComputeCommands)
    ensures c.workgroups.Some? <==> hasBindGroups && pipelineReady && requests != []
    ensures c.copyBytes.Some? <==> requests != []
    ensures c.workgroups.Some? ==> c.workgroups.value == SdfCompute.Workgroups(MaxCount(requests))
    ensures c.copyBytes.Some? ==> c.copyBytes.value == capacity * SdfCompute.RESULT_BYTES
  {
    SdfCompute.ComputeCommands(
      if hasBindGroups && pipelineReady && requests != [] then Some(SdfCompute.Workgroups(MaxCount(requests))) else None,
      if requests != [] then Some(capacity * SdfCompute.RESULT_BYTES) else None)
  }

  /** The largest queued point count. */
  function MaxCount(requests: seq<Queued>): (m: nat)
    ensures forall q :: q in requests ==> q.pointsCount <= m
    ensures requests == [] ==> m == 0
    ensures requests != [] ==> exists q :: q in requests && q.pointsCount == m
    decreases |requests|
  {
    if requests == [] then 0
    else
      var m0 := MaxCount(requests[..|requests| - 1]);
      var n := requests[|requests| - 1].pointsCount;
      assert requests[..|requests| - 1] + [requests[|requests| - 1]] == requests;
      if n > m0 then n else m0
  }

  /** The results taken from the mapped range: whole 4-byte chunks, at most
      `pointsCount` of them (the conversion's `unwrap` cannot fail). */
  function CollectRecords(mapped: seq<bv8>, pointsCount: nat): (r: seq<SdfCompute.SdfResult>)
    ensures |r| == SdfCompute.Min(pointsCount, |mapped| / SdfCompute.RESULT_BYTES)
    ensures forall k :: 0 <= k < |r| ==> r[k] == SdfCompute.RecordAt(mapped, k)
  {
    seq(SdfCompute.Min(pointsCount, |mapped| / SdfCompute.RESULT_BYTES), k requires 0 <= k < SdfCompute.Min(pointsCount, |mapped| / SdfCompute.RESULT_BYTES) =>
      SdfCompute.RecordAt(mapped, k))
  }

  /** Both read paths agree: the newer loop with its error branch returns
      exactly these records. */
  lemma CollectAgreesWithReadLoop(mapped: seq<bv8>, pointsCount: nat)
    ensures SdfCompute.ReadRecords(mapped, pointsCount) == Ok(CollectRecords(mapped, pointsCount))
  {
    SdfCompute.ReadRecordsOk(mapped, pointsCount);
    assert SdfCompute.ReadRecords(mapped, pointsCount).value == CollectRecords(mapped, pointsCount);
  }

  /** The signalled half of `perform_gpu_readback`: the results are read,
      the buffer unmapped and the response sent with the request's own id. */
  function AnswerPending(s: IdState, mapped: seq<bv8>): (s': IdState)
    requires s.pending.Some?
    ensures s'.pending.None? && !s'.readbackMapped && s'.unmaps == s.unmaps + 1
    ensures s'.responses == s.responses + [Response(CollectRecords(mapped, s.pending.value.pointsCount), s.pending.value.request.id)]
    ensures s'.capacity == s.capacity && s'.requests == s.requests
  {
    var p := s.pending.value;
    s.(pending := None, readbackMapped := false, unmaps := s.unmaps + 1,
       responses := s.responses + [Response(CollectRecords(mapped, p.pointsCount), p.request.id)])
  }

  /** With the slot free: the head of the queue is removed and the readback
      buffer mapped for it; with nothing queued, nothing happens. */
  function MapNext(s: IdState): (s': IdState)
    requires s.pending.None?
    ensures s.requests != [] ==> s'.pending == Some(s.requests[0]) && s'.requests == s.requests[1..] && s'.readbackMapped
    ensures s.requests == [] ==> s' == s
    ensures s'.capacity == s.capacity && s'.responses == s.responses && s'.unmaps == s.unmaps
  {
    if s.requests == [] then s
    else s.(pending := Some(s.requests[0]), requests := s.requests[1..], readbackMapped := true)
  }

  /** `perform_gpu_readback`. A pending mapping without the signal is put back
      and the call returns; with the signal the response is sent. Then, with
      the slot free, the head of `requests` is mapped. */
  function ReadbackStepById(s: IdState, signal: bool, mapped: seq<bv8>): (s': IdState)
    ensures s'.capacity == s.capacity
    ensures s.pending.Some? && !signal ==> s' == s
    ensures s.pending.Some? && signal ==>
      && s'.responses == s.responses + [Response(CollectRecords(mapped, s.pending.value.pointsCount), s.pending.value.request.id)]
      && s'.unmaps == s.unmaps + 1
    ensures s.pending.None? ==> s'.responses == s.responses && s'.unmaps == s.unmaps
    ensures (s.pending.None? || signal) && s.requests != [] ==>
      s'.pending == Some(s.requests[0]) && s'.requests == s.requests[1..] && s'.readbackMapped
    ensures (s.pending.None? || signal) && s.requests == [] ==> s'.pending.None? && s'.requests == []
  {
    if s.pending.Some? && !signal then s
    else if s.pending.Some? then MapNext(AnswerPending(s, mapped))
    else MapNext(s)
  }

  /** The ids of responses sent, queued entries, and the slot. */
  function ResponseIds(rs: seq<Response>): (ids: seq<nat>)
    ensures |ids| == |rs| && forall k :: 0 <= k < |rs| ==> ids[k] == rs[k].id
  {
    seq(|rs|, k requires 0 <= k < |rs| => rs[k].id)
  }

  function QueuedIds(qs: seq<Queued>): (ids: seq<nat>)
    ensures |ids| == |qs| && forall k :: 0 <= k < |qs| ==> ids[k] == qs[k].request.id
  {
    seq(|qs|, k requires 0 <= k < |qs| => qs[k].request.id)
  }

  /** The resources' invariant: the ids of the responses sent, the request in
      the slot and the queue are, in order, the ids of the accepted
      requests; every queued count is its request's length and fits the
      capacity; one unmap per response; the readback buffer is mapped only
      for a request in the slot. */
  ghost predicate ConsistentById(s: IdState, accepted: seq<nat>)
  {
    && s.capacity >= SdfCompute.INITIAL_CAPACITY
    && ResponseIds(s.responses) + QueuedIds(if s.pending.Some? then [s.pending.value] else []) + QueuedIds(s.requests) == accepted
    && (forall q :: q in s.requests ==> q.pointsCount == |q.request.points| && 0 < q.pointsCount <= s.capacity)
    && (s.pending.Some? ==> s.pending.value.pointsCount == |s.pending.value.request.points| && s.pending.value.pointsCount <= s.capacity)
    && s.unmaps == |s.responses|
    && (s.readbackMapped ==> s.pending.Some?)
  }

  lemma QueuedIdsAppend(a: seq<Queued>, b: seq<Queued>)
    ensures QueuedIds(a + b) == QueuedIds(a) + QueuedIds(b)
  {
  }

  lemma {:induction false} QueuedForIds(incoming: seq<IdRequest>)
    ensures forall q :: q in QueuedFor(incoming) ==> q.request in incoming && q.pointsCount == |q.request.points| && q.pointsCount > 0
    decreases |incoming|
  {
    if incoming != [] {
      QueuedForIds(incoming[..|incoming| - 1]);
    }
  }

  lemma ProcessKeepsConsistentById(s: IdState, accepted: seq<nat>, incoming: seq<IdRequest>)
    requires ConsistentById(s, accepted)
    ensures ConsistentById(ProcessStepById(s, incoming), accepted + QueuedIds(QueuedFor(incoming)))
  {
    var p := ProcessStepById(s, incoming);
    ProcessAppendsInOrder(s, incoming);
    QueuedForIds(incoming);
    QueuedIdsAppend(s.requests, QueuedFor(incoming));
    var slot := QueuedIds(if s.pending.Some? then [s.pending.value] else []);
    assert ResponseIds(p.responses) + slot + QueuedIds(p.requests)
        == (ResponseIds(s.responses) + slot + QueuedIds(s.requests)) + QueuedIds(QueuedFor(incoming));
  }

  lemma AnswerKeepsConsistent(s: IdState, accepted: seq<nat>, mapped: seq<bv8>)
    requires ConsistentById(s, accepted) && s.pending.Some?
    ensures ConsistentById(AnswerPending(s, mapped), accepted)
  {
    var s' := AnswerPending(s, mapped);
    assert ResponseIds(s'.responses) == ResponseIds(s.responses) + QueuedIds([s.pending.value]);
  }

  lemma MapNextKeepsConsistent(s: IdState, accepted: seq<nat>)
    requires ConsistentById(s, accepted) && s.pending.None?
    ensures ConsistentById(MapNext(s), accepted)
  {
    if s.requests != [] {
      var s' := MapNext(s);
      var head := s.requests[0];
      assert s.requests == [head] + s.requests[1..];
      QueuedIdsAppend([head], s.requests[1..]);
      assert QueuedIds(if s'.pending.Some? then [s'.pending.value] else []) == QueuedIds([head]);
      assert ResponseIds(s'.responses) + QueuedIds([head]) + QueuedIds(s'.requests)
          == ResponseIds(s.responses) + [] + QueuedIds(s.requests);
      assert head in s.requests;
      assert forall q :: q in s'.requests ==> q in s.requests;
    }
  }

  lemma ReadbackKeepsConsistentById(s: IdState, accepted: seq<nat>, signal: bool, mapped: seq<bv8>)
    requires ConsistentById(s, accepted)
    ensures ConsistentById(ReadbackStepById(s, signal, mapped), accepted)
  {
    if s.pending.Some? && signal {
      AnswerKeepsConsistent(s, accepted, mapped);
      MapNextKeepsConsistent(AnswerPending(s, mapped), accepted);
    } else if s.pending.None? {
      MapNextKeepsConsistent(s, accepted);
    }
  }

  /** Read from the whole readback buffer (`capacity * 4` bytes), the
      response to the request in the slot carries its id and exactly one
      record per query point, record k being bytes 4k to 4k+3. */
  lemma ResponseHasOneResultPerPoint(s: IdState, accepted: seq<nat>, mapped: seq<bv8>)
    requires ConsistentById(s, accepted) && s.pending.Some?
    requires |mapped| == SdfCompute.RESULT_BYTES * s.capacity
    ensures var r := ReadbackStepById(s, true, mapped).responses[|s.responses|];
      && r.id == s.pending.value.request.id
      && |r.results| == |s.pending.value.request.points|
      && forall k :: 0 <= k < |r.results| ==> r.results[k] == SdfCompute.RecordAt(mapped, k)
  {
    assert |mapped| / SdfCompute.RESULT_BYTES == s.capacity;
  }

  // ---------------------------------------------------------------------
  // Copying into a mapped buffer

  /** One frame: process, compute node, readback. */
  function FrameById(s: IdState, incoming: seq<IdRequest>, signal: bool, mapped: seq<bv8>): IdState
  {
    ReadbackStepById(ProcessStepById(s, incoming), signal, mapped)
  }

  /** As written: two requests arriving in the same frame leave the second
      queued after the first is mapped, so in the next frame the node copies
      results into the readback buffer while it is mapped. */
  lemma CopyIntoMappedBufferAsWritten(a: IdRequest, b: IdRequest, m1: seq<bv8>, hasBindGroups: bool, pipelineReady: bool)
    requires a.points != [] && |a.points| <= SdfCompute.INITIAL_CAPACITY
    requires b.points != [] && |b.points| <= SdfCompute.INITIAL_CAPACITY
    ensures var s1 := FrameById(InitialIdState(), [a, b], false, m1);
      && s1.readbackMapped && s1.pending.Some?
      && NodeCommandsById(hasBindGroups, pipelineReady, s1.requests, s1.capacity).copyBytes.Some?
  {
    var s0 := InitialIdState();
    assert [a, b][..1] == [a] && [a][..0] == [];
    var pa := Accept(s0, a);
    assert ProcessStepById(s0, [a]) == pa;
    var p := Accept(pa, b);
    assert ProcessStepById(s0, [a, b]) == p;
    assert p.requests == [Queued(a, |a.points|), Queued(b, |b.points|)];
    assert p.pending.None?;
  }

  /** The node's commands with the guard of the newer pipeline: nothing is
      dispatched or copied while a mapping is pending. */
  function NodeCommandsByIdCorrected(hasBindGroups: bool, pipelineReady: bool, requests: seq<Queued>, mappingPending: bool, capacity: nat): (c: SdfCompute.ComputeCommands)
    ensures mappingPending ==> c.copyBytes.None? && c.workgroups.None?
    ensures !mappingPending ==> c == NodeCommandsById(hasBindGroups, pipelineReady, requests, capacity)
  {
    if mappingPending then SdfCompute.ComputeCommands(None, None)
    else NodeCommandsById(hasBindGroups, pipelineReady, requests, capacity)
  }

  /** With the guard, no reachable state copies into a mapped buffer. */
  lemma CorrectedNeverCopiesIntoMappedBuffer(s: IdState, accepted: seq<nat>, hasBindGroups: bool, pipelineReady: bool)
    requires ConsistentById(s, accepted)
    requires NodeCommandsByIdCorrected(hasBindGroups, pipelineReady, s.requests, s.pending.Some?, s.capacity).copyBytes.Some?
    ensures !s.readbackMapped
  {
  }

  // ---------------------------------------------------------------------
  // The systems as methods on the render-world resources

  class IdComputePipeline {
    var capacity: nat
    var requests: seq<Queued>
    var pendingMapping: Option<Queued>
    var readbackMapped: bool
    /** Responses sent on the shared channel, and `unmap` calls made. */
    var responses: seq<Response>
    var unmaps: nat
    /** Ids of the non-empty requests received, in arrival order. */
    ghost var accepted: seq<nat>

    function State(): IdState
      reads this
    {
      IdState(capacity, requests, pendingMapping, readbackMapped, responses, unmaps)
    }

    ghost predicate Valid()
      reads this
    {
      ConsistentById(State(), accepted)
    }

    constructor ()
      ensures Valid() && State() == InitialIdState() && accepted == []
    {
      capacity := SdfCompute.INITIAL_CAPACITY;
      requests := [];
      pendingMapping := None;
      readbackMapped := false;
      responses := [];
      unmaps := 0;
      accepted := [];
    }

    /** `process_sdf_requests`: the drain loop. */
    method ProcessSdfRequests(incoming: seq<IdRequest>)
      requires Valid()
      modifies this
      ensures Valid()
      ensures State() == ProcessStepById(old(State()), incoming)
      ensures accepted == old(accepted) + QueuedIds(QueuedFor(incoming))
    {
      var i := 0;
      while i < |incoming|
        invariant 0 <= i <= |incoming|
        invariant State() == ProcessStepById(old(State()), incoming[..i])
        invariant accepted == old(accepted) + QueuedIds(QueuedFor(incoming[..i]))
      {
        var request := incoming[i];
        assert incoming[..i + 1][..i] == incoming[..i];
        var pointsCount := |request.points|;
        if pointsCount != 0 {
          if pointsCount > capacity {
            capacity := SdfCompute.GrownCapacity(capacity, pointsCount);
            readbackMapped := false;
          }
          requests := requests + [Queued(request, pointsCount)];
          QueuedIdsAppend(QueuedFor(incoming[..i]), [Queued(request, pointsCount)]);
          accepted := accepted + [request.id];
        }
        i := i + 1;
      }
      assert incoming[..|incoming|] == incoming;
      ProcessKeepsConsistentById(old(State()), old(accepted), incoming);
    }

    /** `SdfComputeNode::run`: the commands it records; no resource changes. */
    method ComputeNodeRun(hasBindGroups: bool, pipelineReady: bool) returns (commands: SdfCompute.ComputeCommands)
      ensures commands == NodeCommandsById(hasBindGroups, pipelineReady, requests, capacity)
      ensures commands.copyBytes.Some? <==> requests != []
    {
      var dispatch: Option<nat> := None;
      if hasBindGroups && pipelineReady {
        if requests != [] {
          var maxPoints := 0;
          for i := 0 to |requests|
            invariant maxPoints == MaxCount(requests[..i])
          {
            assert requests[..i + 1][..i] == requests[..i];
            if requests[i].pointsCount > maxPoints {
              maxPoints := requests[i].pointsCount;
            }
          }
          assert requests[..|requests|] == requests;
          dispatch := Some(SdfCompute.Workgroups(maxPoints));
        }
      }
      var copy: Option<nat> := None;
      if requests != [] {
        copy := Some(capacity * SdfCompute.RESULT_BYTES);
      }
      commands := SdfCompute.ComputeCommands(dispatch, copy);
    }

    /** `perform_gpu_readback`. */
    method PerformGpuReadback(signal: bool, mapped: seq<bv8>)
      requires Valid()
      requires signal && pendingMapping.Some? ==> readbackMapped
      requires signal && pendingMapping.Some? ==> |mapped| == SdfCompute.RESULT_BYTES * capacity
      modifies this
      ensures Valid()
      ensures State() == ReadbackStepById(old(State()), signal, mapped)
      ensures signal && old(pendingMapping).Some? ==>
        && responses[|old(responses)|].id == old(pendingMapping).value.request.id
        && |responses[|old(responses)|].results| == |old(pendingMapping).value.request.points|
      ensures accepted == old(accepted)
    {
      if signal && pendingMapping.Some? {
        ResponseHasOneResultPerPoint(State(), accepted, mapped);
      }
      var slot := pendingMapping;
      pendingMapping := None;
      if slot.Some? {
        if signal {
          var results := CollectRecords(mapped, slot.value.pointsCount);
          readbackMapped := false;
          unmaps := unmaps + 1;
          responses := responses + [Response(results, slot.value.request.id)];
        } else {
          pendingMapping := slot;
          ReadbackKeepsConsistentById(old(State()), accepted, signal, mapped);
          return;
        }
      }
      if requests == [] {
        ReadbackKeepsConsistentById(old(State()), accepted, signal, mapped);
        return;
      }
      var head := requests[0];
      requests := requests[1..];
      readbackMapped := true;
      pendingMapping := Some(head);
      ReadbackKeepsConsistentById(old(State()), accepted, signal, mapped);
    }
  }
}
