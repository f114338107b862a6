/** The command bridge between the web page and the editor: the page pushes
    commands onto one global FIFO queue, and once per frame the editor pops
    and interprets them all. Spawned entities, the evaluation tasks started
    and the mode-change notifications are logs; the meshes, materials and
    the asynchronous evaluation are not modelled. */
module CommandBridge {
  import opened Wrappers
  import opened Geometry
  import opened Mode

  // ---------------------------------------------------------------------
  // Mode names

  const TRANSLATE_NAME: string := "Translate"
  const BRUSH_NAME: string := "Brush"

  /** The name `monitor_mode_changes` reports for a mode. */
  function ModeName(mode: AppMode): (name: string)
    ensures name == TRANSLATE_NAME || name == BRUSH_NAME
  {
    match mode
    case Translate => TRANSLATE_NAME
    case Brush => BRUSH_NAME
  }

  /** The mode a `SetModeCommand` string selects; `None` for any other
      string, which leaves the mode as it is. */
  function ParseMode(name: string): (mode: Option<AppMode>)
    ensures mode.Some? <==> name == TRANSLATE_NAME || name == BRUSH_NAME
  {
    if name == TRANSLATE_NAME then Some(Translate)
    else if name == BRUSH_NAME then Some(Brush)
    else None
  }

  /** Names and parsing are inverse to each other, in both directions. */
  lemma ModeNameRoundTrip(mode: AppMode, name: string)
    ensures ParseMode(ModeName(mode)) == Some(mode)
    ensures ParseMode(name) == Some(mode) <==> name == ModeName(mode)
  {
    assert TRANSLATE_NAME != BRUSH_NAME by {
      assert TRANSLATE_NAME[0] != BRUSH_NAME[0];
    }
  }

  /** `monitor_mode_changes`: the `modeChanged` event detail dispatched this
      frame, if any. */
  function MonitorModeChanges(modeChanged: bool, mode: AppMode): (detail: Option<string>)
    ensures detail.Some? <==> modeChanged
    ensures detail.Some? ==> ParseMode(detail.value) == Some(mode)
  {
    if modeChanged then Some(ModeName(mode)) else None
  }

  // ---------------------------------------------------------------------
  // Commands

  datatype Color = Srgba(red: real, green: real, blue: real, alpha: real)

  const WHITE := Srgba(1.0, 1.0, 1.0, 1.0)

  datatype AppCommand =
    | SpawnSphereCommand(position: Vec3, scale: real, color: Color)
    | EvaluateSdfCommand(points: seq<Vec3>)
    | SetModeCommand(mode: string)
    | SetPostProcessEnabledCommand(enabled: bool)

  /** A spawned sphere entity: its index, position, scale, mesh radius and
      material colour. */
  datatype SpawnedSphere = SpawnedSphere(index: nat, position: Vec3, scale: real, radius: real, color: Color)

  /** What the interpreter changes: the entity index counter (a `u32`), the
      post-process flag, the mode, the entities spawned and the point sets
      handed to evaluation tasks. */
  datatype BridgeState = BridgeState(
    counter: nat,
    postProcessEnabled: bool,
    mode: AppMode,
    spawned: seq<SpawnedSphere>,
    evaluations: seq<seq<Vec2>>)

  /** The counter after one spawn: `counter += 1` on a `u32`, wrapping. */
  function NextIndex(counter: nat): (n: nat)
    ensures n < U32_LIMIT
    ensures counter + 1 < U32_LIMIT ==> n == counter + 1
  {
    (counter + 1) % U32_LIMIT
  }

  /** One command of `process_app_commands`. */
  function Interpret(s: BridgeState, cmd: AppCommand): (s': BridgeState)
    ensures cmd.SpawnSphereCommand? ==>
      && s'.spawned == s.spawned + [SpawnedSphere(s.counter, cmd.position, cmd.scale, cmd.scale, cmd.color)]
      && s'.counter == NextIndex(s.counter)
      && s' == s.(spawned := s'.spawned, counter := s'.counter)
    ensures cmd.EvaluateSdfCommand? ==>
      && s'.evaluations == s.evaluations + [ProjectXY(cmd.points)]
      && s' == s.(evaluations := s'.evaluations)
    ensures cmd.SetModeCommand? ==>
      && s'.mode == ParseMode(cmd.mode).GetOr(s.mode)
      && s' == s.(mode := s'.mode)
    ensures cmd.SetPostProcessEnabledCommand? ==> s' == s.(postProcessEnabled := cmd.enabled)
  {
    match cmd
    case SpawnSphereCommand(position, scale, color) =>
      s.(spawned := s.spawned + [SpawnedSphere(s.counter, position, scale, scale, color)],
         counter := NextIndex(s.counter))
    case EvaluateSdfCommand(points) =>
      s.(evaluations := s.evaluations + [ProjectXY(points)])
    case SetModeCommand(name) =>
      if ParseMode(name).Some? then s.(mode := ParseMode(name).value) else s
    case SetPostProcessEnabledCommand(enabled) =>
      s.(postProcessEnabled := enabled)
  }

  /** A queue interpreted front to back. */
  function InterpretAll(s: BridgeState, cmds: seq<AppCommand>): (s': BridgeState)
    ensures |s'.spawned| == |s.spawned| + SpawnCount(cmds)
    ensures |s'.evaluations| >= |s.evaluations|
    decreases |cmds|
  {
    if cmds == [] then s
    else Interpret(InterpretAll(s, cmds[..|cmds| - 1]), cmds[|cmds| - 1])
  }

  /** Interpreting one queue and then the next is interpreting the two in
      order: commands pushed later take effect later. */
  lemma {:induction false} InterpretAllConcat(s: BridgeState, a: seq<AppCommand>, b: seq<AppCommand>)
    ensures InterpretAll(s, a + b) == InterpretAll(InterpretAll(s, a), b)
    decreases |b|
  {
    if b == [] {
      assert a + b == a;
    } else {
      assert (a + b)[..|a + b| - 1] == a + b[..|b| - 1];
      InterpretAllConcat(s, a, b[..|b| - 1]);
    }
  }

  function SpawnCount(cmds: seq<AppCommand>): nat
    decreases |cmds|
  {
    if cmds == [] then 0
    else SpawnCount(cmds[..|cmds| - 1]) + (if cmds[|cmds| - 1].SpawnSphereCommand? then 1 else 0)
  }

  lemma WrapStep(c: nat, n: nat)
    ensures NextIndex((c + n) % U32_LIMIT) == (c + n + 1) % U32_LIMIT
  {
  }

  /** Spawns take consecutive indices from the counter (modulo 2^32) and
      leave earlier entities as they were. */
  lemma {:induction false} SpawnIndicesConsecutive(s: BridgeState, cmds: seq<AppCommand>)
    requires s.counter < U32_LIMIT
    ensures var s' := InterpretAll(s, cmds);
      && |s'.spawned| == |s.spawned| + SpawnCount(cmds)
      && s'.spawned[..|s.spawned|] == s.spawned
      && s'.counter == (s.counter + SpawnCount(cmds)) % U32_LIMIT
      && forall k :: |s.spawned| <= k < |s'.spawned| ==>
           s'.spawned[k].index == (s.counter + (k - |s.spawned|)) % U32_LIMIT
    decreases |cmds|
  {
    if cmds != [] {
      var init := cmds[..|cmds| - 1];
      SpawnIndicesConsecutive(s, init);
      var mid := InterpretAll(s, init);
      if cmds[|cmds| - 1].SpawnSphereCommand? {
        WrapStep(s.counter, SpawnCount(init));
        assert mid.spawned[..|s.spawned|] == s.spawned;
        assert (mid.spawned + [InterpretAll(s, cmds).spawned[|mid.spawned|]])[..|s.spawned|] == mid.spawned[..|s.spawned|];
      }
    }
  }

  /** From the default counter, fewer than 2^32 spawns get the indices
      0, 1, 2, ... in spawn order, so no two spawned entities share one. */
  lemma SpawnIndicesDistinct(s: BridgeState, cmds: seq<AppCommand>)
    requires s.counter == 0 && s.spawned == []
    requires SpawnCount(cmds) <= U32_LIMIT
    ensures var s' := InterpretAll(s, cmds);
      && (forall k :: 0 <= k < |s'.spawned| ==> s'.spawned[k].index == k)
      && (forall i, j :: 0 <= i < j < |s'.spawned| ==> s'.spawned[i].index != s'.spawned[j].index)
  {
    SpawnIndicesConsecutive(s, cmds);
  }

  // ---------------------------------------------------------------------
  // The queue and the systems

  /** The state the bridge works on: `APP_COMMAND_QUEUE`, the
      `EntityIndexCounter` and `PostProcessEnabled` resources, and the logs of
      spawned entities and started evaluations. The mode is the separate
      `AppModeState` resource. */
  class Bridge {
    var queue: seq<AppCommand>
    var counter: nat
    var postProcessEnabled: bool
    var spawned: seq<SpawnedSphere>
    var evaluations: seq<seq<Vec2>>

    function StateWith(mode: AppMode): BridgeState
      reads this
    {
      BridgeState(counter, postProcessEnabled, mode, spawned, evaluations)
    }

    ghost predicate Valid()
      reads this
    {
      counter < U32_LIMIT
    }

    /** The resources' defaults: counter 0, post-processing on, nothing
        queued or spawned. */
    constructor ()
      ensures Valid() && queue == [] && counter == 0 && postProcessEnabled
      ensures spawned == [] && evaluations == []
    {
      queue := [];
      counter := 0;
      postProcessEnabled := true;
      spawned := [];
      evaluations := [];
    }

    /** `process_app_commands`: pops and interprets until the queue is empty. */
    method ProcessAppCommands(modeState: AppModeState)
      requires Valid()
      modifies this, modeState
      ensures Valid() && queue == []
      ensures StateWith(modeState.currentMode) == InterpretAll(old(StateWith(modeState.currentMode)), old(queue))
      ensures modeState.selectionEnabledModes == old(modeState.selectionEnabledModes)
    {
      ghost var start := StateWith(modeState.currentMode);
      ghost var pending := queue;
      ghost var done := 0;
      while queue != []
        invariant Valid()
        invariant 0 <= done <= |pending| && queue == pending[done..]
        invariant StateWith(modeState.currentMode) == InterpretAll(start, pending[..done])
        invariant modeState.selectionEnabledModes == old(modeState.selectionEnabledModes)
        decreases |queue|
      {
        var cmd := queue[0];
        queue := queue[1..];
        assert pending[..done + 1] == pending[..done] + [cmd];
        match cmd {
          case SpawnSphereCommand(position, scale, color) =>
            var index := counter;
            counter := NextIndex(counter);
            spawned := spawned + [SpawnedSphere(index, position, scale, scale, color)];
          case EvaluateSdfCommand(points) =>
            var gpuPoints := ToGpuPoints(points);
            evaluations := evaluations + [gpuPoints];
          case SetModeCommand(name) =>
            if name == TRANSLATE_NAME {
              modeState.SetMode(Translate);
            } else if name == BRUSH_NAME {
              modeState.SetMode(Brush);
            }
          case SetPostProcessEnabledCommand(enabled) =>
            postProcessEnabled := enabled;
        }
        done := done + 1;
      }
      assert pending[..done] == pending;
    }

    /** `spawn_sphere_at_origin`: a white sphere of scale 1 at the origin. */
    method SpawnSphereAtOrigin()
      modifies this
      ensures queue == old(queue) + [SpawnSphereCommand(VEC3_ZERO, 1.0, WHITE)]
      ensures StateWith(Translate) == old(StateWith(Translate))
    {
      queue := queue + [SpawnSphereCommand(VEC3_ZERO, 1.0, WHITE)];
    }

    /** `spawn_sphere_at_pos`: a white sphere with the given position and
        scale. */
    method SpawnSphereAtPos(position: Vec3, scale: real)
      modifies this
      ensures queue == old(queue) + [SpawnSphereCommand(position, scale, WHITE)]
      ensures StateWith(Translate) == old(StateWith(Translate))
    {
      queue := queue + [SpawnSphereCommand(position, scale, WHITE)];
    }

    /** `set_mode` */
    method PushSetMode(name: string)
      modifies this
      ensures queue == old(queue) + [SetModeCommand(name)]
      ensures StateWith(Translate) == old(StateWith(Translate))
    {
      queue := queue + [SetModeCommand(name)];
    }

    /** `set_post_process_enabled` */
    method PushSetPostProcessEnabled(enabled: bool)
      modifies this
      ensures queue == old(queue) + [SetPostProcessEnabledCommand(enabled)]
      ensures StateWith(Translate) == old(StateWith(Translate))
    {
      queue := queue + [SetPostProcessEnabledCommand(enabled)];
    }
  }

  /** A sphere pushed by `spawn_sphere_at_pos` and then processed is spawned
      with the next index, the given position and scale, a mesh of that
      radius and the white material. */
  lemma SpawnAtPosIsProcessed(s: BridgeState, position: Vec3, scale: real)
    ensures InterpretAll(s, [SpawnSphereCommand(position, scale, WHITE)]).spawned
         == s.spawned + [SpawnedSphere(s.counter, position, scale, scale, WHITE)]
  {
    assert [SpawnSphereCommand(position, scale, WHITE)][..0] == [];
  }

  /** The last `set_mode` with a known name wins; unknown names are skipped. */
  lemma SetModeCommands(s: BridgeState, name: string)
    ensures name == TRANSLATE_NAME ==> InterpretAll(s, [SetModeCommand(name)]).mode == Translate
    ensures name == BRUSH_NAME ==> InterpretAll(s, [SetModeCommand(name)]).mode == Brush
    ensures ParseMode(name).None? ==> InterpretAll(s, [SetModeCommand(name)]) == s
  {
    assert [SetModeCommand(name)][..0] == [];
  }
}
