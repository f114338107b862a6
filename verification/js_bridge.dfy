/** The older bridge to the web page: a FIFO queue of spawn, evaluate and
    mode commands. Spawned spheres always have radius 1; an evaluation
    request is sent to the id-based pipeline as soon as its command is
    interpreted. */
module JsBridge {
  import opened Wrappers
  import opened Geometry
  import opened Mode
  import opened CommandBridge
  import SdfComputeById

  /** Radius of every sphere this bridge spawns. */
  const SPHERE_RADIUS: real := 1.0

  datatype JsCommand =
    | JsSpawnSphere(position: Vec3, color: Color)
    | JsEvaluateSdf(points: seq<Vec3>)
    | JsSetMode(mode: string)

  datatype JsSphere = JsSphere(position: Vec3, radius: real, color: Color)

  /** What the interpreter changes: the mode, the spheres spawned, the
      requests sent, and the next request id. */
  datatype JsState = JsState(mode: AppMode, spawned: seq<JsSphere>, sent: seq<SdfComputeById.IdRequest>, nextId: nat)

  /** One command of `process_js_commands`. */
  function InterpretJs(s: JsState, cmd: JsCommand): (s': JsState)
    ensures cmd.JsSpawnSphere? ==> s' == s.(spawned := s.spawned + [JsSphere(cmd.position, SPHERE_RADIUS, cmd.color)])
    ensures cmd.JsEvaluateSdf? ==>
      && s'.sent == s.sent + [SdfComputeById.IdRequest(ProjectXY(cmd.points), s.nextId)]
      && s'.nextId == (s.nextId + 1) % U64_LIMIT
      && s'.mode == s.mode && s'.spawned == s.spawned
    ensures cmd.JsSetMode? ==> s' == s.(mode := ParseMode(cmd.mode).GetOr(s.mode))
  {
    match cmd
    case JsSpawnSphere(position, color) =>
      s.(spawned := s.spawned + [JsSphere(position, SPHERE_RADIUS, color)])
    case JsEvaluateSdf(points) =>
      s.(sent := s.sent + [SdfComputeById.IdRequest(ProjectXY(points), s.nextId)], nextId := (s.nextId + 1) % U64_LIMIT)
    case JsSetMode(name) =>
      if ParseMode(name).Some? then s.(mode := ParseMode(name).value) else s
  }

  function InterpretAllJs(s: JsState, cmds: seq<JsCommand>): (s': JsState)
    ensures |s'.spawned| == |s.spawned| + SpawnCountJs(cmds)
    ensures |s'.sent| >= |s.sent|
    decreases |cmds|
  {
    if cmds == [] then s
    else InterpretJs(InterpretAllJs(s, cmds[..|cmds| - 1]), cmds[|cmds| - 1])
  }

  function SpawnCountJs(cmds: seq<JsCommand>): nat
    decreases |cmds|
  {
    if cmds == [] then 0
    else SpawnCountJs(cmds[..|cmds| - 1]) + (if cmds[|cmds| - 1].JsSpawnSphere? then 1 else 0)
  }

  /** Each spawn command creates exactly one sphere, of radius 1, and earlier
      spheres are kept. */
  lemma {:induction false} OneSpherePerSpawn(s: JsState, cmds: seq<JsCommand>)
    ensures var s' := InterpretAllJs(s, cmds);
      && |s'.spawned| == |s.spawned| + SpawnCountJs(cmds)
      && s'.spawned[..|s.spawned|] == s.spawned
      && forall k :: |s.spawned| <= k < |s'.spawned| ==> s'.spawned[k].radius == SPHERE_RADIUS
    decreases |cmds|
  {
    if cmds != [] {
      var init := cmds[..|cmds| - 1];
      OneSpherePerSpawn(s, init);
      var mid := InterpretAllJs(s, init);
      if cmds[|cmds| - 1].JsSpawnSphere? {
        assert (mid.spawned + [InterpretAllJs(s, cmds).spawned[|mid.spawned|]])[..|s.spawned|] == mid.spawned[..|s.spawned|];
      }
    }
  }

  /** `t` extends the requests of `s` with requests whose ids count up from
      `s.nextId`, wrapping at 2^64, and `t.nextId` is the id after the last. */
  ghost predicate SentFrom(s: JsState, t: JsState)
  {
    && |t.sent| >= |s.sent|
    && t.sent[..|s.sent|] == s.sent
    && t.nextId == (s.nextId + (|t.sent| - |s.sent|)) % U64_LIMIT
    && forall k :: |s.sent| <= k < |t.sent| ==> t.sent[k].id == (s.nextId + (k - |s.sent|)) % U64_LIMIT
  }

  lemma SentFromStep(s: JsState, mid: JsState, cmd: JsCommand)
    requires SentFrom(s, mid)
    ensures SentFrom(s, InterpretJs(mid, cmd))
  {
    if cmd.JsEvaluateSdf? {
      var n := |mid.sent| - |s.sent|;
      assert ((s.nextId + n) % U64_LIMIT + 1) % U64_LIMIT == (s.nextId + n + 1) % U64_LIMIT;
      assert (mid.sent + [InterpretJs(mid, cmd).sent[|mid.sent|]])[..|s.sent|] == mid.sent[..|s.sent|];
    }
  }

  /** Requests are sent in command order with consecutive ids. */
  lemma {:induction false} SentIdsConsecutive(s: JsState, cmds: seq<JsCommand>)
    requires s.nextId < U64_LIMIT
    ensures var s' := InterpretAllJs(s, cmds);
      && |s'.sent| >= |s.sent|
      && s'.sent[..|s.sent|] == s.sent
      && s'.nextId == (s.nextId + (|s'.sent| - |s.sent|)) % U64_LIMIT
      && forall k :: |s.sent| <= k < |s'.sent| ==> s'.sent[k].id == (s.nextId + (k - |s.sent|)) % U64_LIMIT
    decreases |cmds|
  {
    if cmds == [] {
      assert s.sent[..|s.sent|] == s.sent;
    } else {
      SentIdsConsecutive(s, cmds[..|cmds| - 1]);
      SentFromStep(s, InterpretAllJs(s, cmds[..|cmds| - 1]), cmds[|cmds| - 1]);
    }
  }

  /** The sent ids are exactly the ids that as many `fetch_add` calls issue
      from `nextId`, so fewer than 2^64 requests never share an id. */
  lemma SentIdsAreIssuedIds(s: JsState, cmds: seq<JsCommand>)
    requires s.nextId < U64_LIMIT
    ensures var s' := InterpretAllJs(s, cmds);
      var ids := SdfComputeById.IdsFrom(s.nextId, |s'.sent| - |s.sent|);
      && (forall k :: |s.sent| <= k < |s'.sent| ==> s'.sent[k].id == ids[k - |s.sent|])
      && (|s'.sent| - |s.sent| <= U64_LIMIT ==>
            forall i, j :: |s.sent| <= i < j < |s'.sent| ==> s'.sent[i].id != s'.sent[j].id)
  {
    SentIdsConsecutive(s, cmds);
    var s' := InterpretAllJs(s, cmds);
    var n := |s'.sent| - |s.sent|;
    var ids := SdfComputeById.IdsFrom(s.nextId, n);
    if n <= U64_LIMIT {
      SdfComputeById.IdsDistinct(s.nextId, n);
      forall i, j | |s.sent| <= i < j < |s'.sent|
        ensures s'.sent[i].id != s'.sent[j].id
      {
        assert s'.sent[i].id == ids[i - |s.sent|] && s'.sent[j].id == ids[j - |s.sent|];
      }
    }
  }

  /** The six probe points of `test_sdf_evaluation`. */
  const TEST_POINTS: seq<Vec3> := [
    Vec3(0.5, 0.5, 0.0), Vec3(1.0, 0.0, 0.0), Vec3(2.0, 0.0, 0.0),
    Vec3(-2.0, 0.0, 0.0), Vec3(0.0, 2.0, 0.0), Vec3(5.0, 0.0, 0.0)]

  /** `SPAWN_QUEUE` and the logs of spawned spheres and sent requests. */
  class JsQueue {
    var queue: seq<JsCommand>
    var spawned: seq<JsSphere>
    var sent: seq<SdfComputeById.IdRequest>

    function StateWith(mode: AppMode, nextId: nat): JsState
      reads this
    {
      JsState(mode, spawned, sent, nextId)
    }

    constructor ()
      ensures queue == [] && spawned == [] && sent == []
    {
      queue := [];
      spawned := [];
      sent := [];
    }

    /** `process_js_commands`: pops and interprets until the queue is empty;
        an evaluate command draws its id from the global counter. */
    method ProcessJsCommands(modeState: AppModeState, ids: SdfComputeById.RequestIdCounter)
      requires ids.Valid()
      modifies this, modeState, ids
      ensures ids.Valid() && queue == []
      ensures StateWith(modeState.currentMode, ids.next)
           == InterpretAllJs(old(StateWith(modeState.currentMode, ids.next)), old(queue))
      ensures modeState.selectionEnabledModes == old(modeState.selectionEnabledModes)
    {
      ghost var start := StateWith(modeState.currentMode, ids.next);
      ghost var pending := queue;
      ghost var done := 0;
      while queue != []
        invariant ids.Valid()
        invariant 0 <= done <= |pending| && queue == pending[done..]
        invariant StateWith(modeState.currentMode, ids.next) == InterpretAllJs(start, pending[..done])
        invariant modeState.selectionEnabledModes == old(modeState.selectionEnabledModes)
        decreases |queue|
      {
        var cmd := queue[0];
        queue := queue[1..];
        assert pending[..done + 1] == pending[..done] + [cmd];
        match cmd {
          case JsSpawnSphere(position, color) =>
            spawned := spawned + [JsSphere(position, SPHERE_RADIUS, color)];
          case JsEvaluateSdf(points) =>
            var gpuPoints := ToGpuPoints(points);
            var request, future := SdfComputeById.EvaluateSdfAsync(ids, gpuPoints);
            sent := sent + [request];
          case JsSetMode(name) =>
            if name == TRANSLATE_NAME {
              modeState.SetMode(Translate);
            } else if name == BRUSH_NAME {
              modeState.SetMode(Brush);
            }
        }
        done := done + 1;
      }
      assert pending[..done] == pending;
    }

    /** `spawn_sphere_at_origin`: a white sphere at the origin. */
    method SpawnSphereAtOrigin()
      modifies this
      ensures queue == old(queue) + [JsSpawnSphere(VEC3_ZERO, WHITE)]
      ensures spawned == old(spawned) && sent == old(sent)
    {
      queue := queue + [JsSpawnSphere(VEC3_ZERO, WHITE)];
    }

    /** `test_sdf_evaluation`: exactly one evaluate command, with the six
        probe points. */
    method TestSdfEvaluation()
      modifies this
      ensures queue == old(queue) + [JsEvaluateSdf(TEST_POINTS)]
      ensures |queue[|queue| - 1].points| == 6
      ensures spawned == old(spawned) && sent == old(sent)
    {
      queue := queue + [JsEvaluateSdf(TEST_POINTS)];
    }

    /** `set_mode` */
    method PushSetMode(name: string)
      modifies this
      ensures queue == old(queue) + [JsSetMode(name)]
      ensures spawned == old(spawned) && sent == old(sent)
    {
      queue := queue + [JsSetMode(name)];
    }
  }

  /** Processing the probe command sends one request of six points, the
      probes without their `z`, with the next id. */
  lemma TestEvaluationSendsSixPoints(s: JsState)
    ensures var s' := InterpretAllJs(s, [JsEvaluateSdf(TEST_POINTS)]);
      && s'.sent == s.sent + [SdfComputeById.IdRequest(ProjectXY(TEST_POINTS), s.nextId)]
      && |ProjectXY(TEST_POINTS)| == 6
      && ProjectXY(TEST_POINTS)[3] == Vec2(-2.0, 0.0)
  {
    assert [JsEvaluateSdf(TEST_POINTS)][..0] == [];
  }
}
