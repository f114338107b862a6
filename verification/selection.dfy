/** Single selection of scene entities by clicking, gated by the current
    mode. Entity handles are numbers; the `Selected` marker components are
    the set of entities that carry one; triggered events are a log. Bevy
    applies queued commands in order, so the log and the marker set are
    updated in the order the commands are issued. */
module Selection {
  import opened Wrappers
  import opened Mode

  type Entity = nat

  datatype SelectionEvent = EntitySelected(entity: Entity) | EntityDeselected(entity: Entity)

  /** The selection resource, the marker set and the event log. */
  datatype Sel = Sel(selected: Option<Entity>, markers: set<Entity>, events: seq<SelectionEvent>)

  function AsSet(o: Option<Entity>): (r: set<Entity>)
    ensures o.None? ==> r == {}
    ensures o.Some? ==> r == {o.value}
  {
    if o.Some? then {o.value} else {}
  }

  /** The markers are on the tracked entity and on no other. */
  ghost predicate MarkerTracksSelection(s: Sel)
  {
    s.markers == AsSet(s.selected)
  }

  /** A click on `clicked` with selection enabled: a click on the selected
      entity changes nothing; otherwise the previous entity (if any) loses
      its marker and gets a deselect event, then the clicked one gains the
      marker and a select event. */
  function ClickStep(s: Sel, enabled: bool, clicked: Entity): (s': Sel)
    ensures !enabled || s.selected == Some(clicked) ==> s' == s
    ensures enabled ==> s'.selected == Some(clicked)
    ensures enabled && s.selected != Some(clicked) ==>
      && s'.events == s.events
           + (if s.selected.Some? then [EntityDeselected(s.selected.value)] else [])
           + [EntitySelected(clicked)]
      && clicked in s'.markers
      && (s.selected.Some? ==> s.selected.value !in s'.markers)
      && (forall e :: e != clicked && (s.selected.None? || e != s.selected.value) ==> (e in s'.markers <==> e in s.markers))
  {
    if !enabled || s.selected == Some(clicked) then s
    else
      var afterDeselect :=
        if s.selected.Some? then
          s.(markers := s.markers - {s.selected.value}, events := s.events + [EntityDeselected(s.selected.value)])
        else s;
      afterDeselect.(markers := afterDeselect.markers + {clicked},
                     selected := Some(clicked),
                     events := afterDeselect.events + [EntitySelected(clicked)])
  }

  /** Clicks keep the marker on exactly the tracked entity: at most one
      entity is ever selected. */
  lemma ClickKeepsMarker(s: Sel, enabled: bool, clicked: Entity)
    requires MarkerTracksSelection(s)
    ensures MarkerTracksSelection(ClickStep(s, enabled, clicked))
    ensures |ClickStep(s, enabled, clicked).markers| <= 1
  {
  }

  /** `on_change_app_mode` as written: when the mode changed and selection is
      off in the new mode, the tracked entity is forgotten; its marker stays
      and no event fires. */
  function ModeChangeStep(s: Sel, modeChanged: bool, enabled: bool): (s': Sel)
    ensures !modeChanged || enabled ==> s' == s
    ensures modeChanged && !enabled ==> s'.selected.None?
    ensures s'.markers == s.markers && s'.events == s.events
  {
    if !modeChanged || enabled then s
    else s.(selected := None)
  }

  /** Clearing leaves the old marker behind; after selection is turned back
      on and another entity is clicked, two entities carry `Selected`. */
  lemma StaleMarkerAsWritten(a: Entity, b: Entity)
    requires a != b
    ensures var s0 := Sel(Some(a), {a}, []);
      && MarkerTracksSelection(s0)
      && var s1 := ModeChangeStep(s0, true, false);
      && !MarkerTracksSelection(s1)
      && ClickStep(s1, true, b).markers == {a, b}
  {
    var s1 := ModeChangeStep(Sel(Some(a), {a}, []), true, false);
    assert a in s1.markers;
  }

  /** Clearing as it is evidently meant: the marker is removed and a
      deselect event fires, exactly as when another entity is clicked. */
  function ModeChangeStepCorrected(s: Sel, modeChanged: bool, enabled: bool): (s': Sel)
    ensures !modeChanged || enabled ==> s' == s
    ensures modeChanged && !enabled ==> s'.selected.None?
    ensures modeChanged && !enabled ==>
      && s'.markers == s.markers - AsSet(s.selected)
      && s'.events == s.events + (if s.selected.Some? then [EntityDeselected(s.selected.value)] else [])
  {
    if !modeChanged || enabled then s
    else if s.selected.Some? then
      Sel(None, s.markers - {s.selected.value}, s.events + [EntityDeselected(s.selected.value)])
    else s
  }

  /** The corrected clearing keeps the marker invariant, so the same sequence
      leaves only `b` selected and marked. */
  lemma ModeChangeCorrectedKeepsMarker(s: Sel, modeChanged: bool, enabled: bool)
    requires MarkerTracksSelection(s)
    ensures MarkerTracksSelection(ModeChangeStepCorrected(s, modeChanged, enabled))
  {
  }

  lemma StaleMarkerCorrected(a: Entity, b: Entity)
    requires a != b
    ensures var s1 := ModeChangeStepCorrected(Sel(Some(a), {a}, []), true, false);
      && ClickStep(s1, true, b).markers == {b}
      && ClickStep(s1, true, b).events == [EntityDeselected(a), EntitySelected(b)]
  {
    var s1 := ModeChangeStepCorrected(Sel(Some(a), {a}, []), true, false);
    assert s1.markers == {};
  }

  /** `SelectionState` together with the `Selected` markers and the events
      triggered so far. */
  class SelectionWorld {
    var selectedEntity: Option<Entity>
    var markers: set<Entity>
    var events: seq<SelectionEvent>

    function State(): Sel
      reads this
    {
      Sel(selectedEntity, markers, events)
    }

    /** `SelectionState::default()`, before any entity carries a marker. */
    constructor ()
      ensures State() == Sel(None, {}, [])
      ensures MarkerTracksSelection(State())
    {
      selectedEntity := None;
      markers := {};
      events := [];
    }

    /** `handle_selection`: the click observer, gated by the mode. */
    method HandleSelection(mode: AppModeState, clicked: Entity)
      modifies this
      ensures State() == ClickStep(old(State()), old(mode.IsSelectionEnabled()), clicked)
    {
      if !mode.IsSelectionEnabled() {
        return;
      }
      if selectedEntity == Some(clicked) {
        return;
      }
      if selectedEntity.Some? {
        var previous := selectedEntity.value;
        markers := markers - {previous};
        events := events + [EntityDeselected(previous)];
      }
      markers := markers + {clicked};
      selectedEntity := Some(clicked);
      events := events + [EntitySelected(clicked)];
    }

    /** `on_change_app_mode`, with Bevy's change detection as `modeChanged`. */
    method OnChangeAppMode(mode: AppModeState, modeChanged: bool)
      modifies this
      ensures State() == ModeChangeStep(old(State()), modeChanged, old(mode.IsSelectionEnabled()))
    {
      if !modeChanged || mode.IsSelectionEnabled() {
        return;
      }
      selectedEntity := None;
    }
  }
}
