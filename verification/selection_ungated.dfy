/** The older selection module: the same click observer without the mode
    gate. */
module SelectionUngated {
  import opened Wrappers
  import opened Selection

  /** A click is a gated click with selection enabled: afterwards the clicked
      entity is the selection. */
  function UngatedClickStep(s: Sel, clicked: Entity): (s': Sel)
    ensures s'.selected == Some(clicked)
    ensures s'.events == s.events || s'.events == s.events + [EntitySelected(clicked)]
      || (s.selected.Some? && s'.events == s.events + [EntityDeselected(s.selected.value), EntitySelected(clicked)])
  {
    ClickStep(s, true, clicked)
  }

  /** The three cases of the observer: a click on the selected entity is a
      no-op; the first selection emits only a select event; switching emits
      the deselect for the old entity before the select for the new one. */
  lemma UngatedClickEvents(s: Sel, clicked: Entity)
    ensures s.selected == Some(clicked) ==> UngatedClickStep(s, clicked) == s
    ensures s.selected.None? ==> UngatedClickStep(s, clicked).events == s.events + [EntitySelected(clicked)]
    ensures s.selected.Some? && s.selected.value != clicked ==>
      UngatedClickStep(s, clicked).events == s.events + [EntityDeselected(s.selected.value), EntitySelected(clicked)]
  {
  }

  /** `handle_selection` of the older module. */
  method HandleSelectionUngated(world: SelectionWorld, clicked: Entity)
    modifies world
    ensures world.State() == UngatedClickStep(old(world.State()), clicked)
  {
    if world.selectedEntity == Some(clicked) {
      return;
    }
    if world.selectedEntity.Some? {
      var previous := world.selectedEntity.value;
      world.markers := world.markers - {previous};
      world.events := world.events + [EntityDeselected(previous)];
    }
    world.markers := world.markers + {clicked};
    world.selectedEntity := Some(clicked);
    world.events := world.events + [EntitySelected(clicked)];
  }
}
