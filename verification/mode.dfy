/** The editor's interaction mode and the set of modes in which clicking an
    entity selects it. */
module Mode {
  datatype AppMode = Translate | Brush

  /** The `AppModeState` resource. */
  class AppModeState {
    var currentMode: AppMode
    var selectionEnabledModes: set<AppMode>

    /** The `Default` impl: translate mode, selection enabled only there. */
    constructor ()
      ensures currentMode == Translate && selectionEnabledModes == {Translate}
      ensures IsSelectionEnabled()
    {
      currentMode := Translate;
      selectionEnabledModes := {Translate};
    }

    predicate IsMode(mode: AppMode)
      reads this
    {
      currentMode == mode
    }

    predicate IsSelectionEnabled()
      reads this
    {
      currentMode in selectionEnabledModes
    }

    /** After `set_mode(m)` the state is in mode `m` and in no other; the
        selection-enabled set is untouched. */
    method SetMode(mode: AppMode)
      modifies this
      ensures currentMode == mode
      ensures forall m :: IsMode(m) <==> m == mode
      ensures selectionEnabledModes == old(selectionEnabledModes)
      ensures IsSelectionEnabled() <==> mode in selectionEnabledModes
    {
      currentMode := mode;
    }

    /** Adds exactly `mode` to the set (a second call changes nothing); the
        current mode is untouched. */
    method EnableSelectionForMode(mode: AppMode)
      modifies this
      ensures selectionEnabledModes == old(selectionEnabledModes) + {mode}
      ensures mode in old(selectionEnabledModes) ==> selectionEnabledModes == old(selectionEnabledModes)
      ensures currentMode == old(currentMode)
      ensures currentMode == mode ==> IsSelectionEnabled()
    {
      selectionEnabledModes := selectionEnabledModes + {mode};
    }

    /** Removes exactly `mode` from the set; the current mode is untouched. */
    method DisableSelectionForMode(mode: AppMode)
      modifies this
      ensures selectionEnabledModes == old(selectionEnabledModes) - {mode}
      ensures currentMode == old(currentMode)
      ensures currentMode == mode ==> !IsSelectionEnabled()
      ensures currentMode != mode ==> (IsSelectionEnabled() <==> old(IsSelectionEnabled()))
    {
      selectionEnabledModes := selectionEnabledModes - {mode};
    }
  }

  /** `switch_mode` */
  method SwitchMode(state: AppModeState, mode: AppMode)
    modifies state
    ensures state.currentMode == mode
    ensures state.selectionEnabledModes == old(state.selectionEnabledModes)
  {
    state.SetMode(mode);
  }

  /** `switch_to_translate_mode` */
  method SwitchToTranslateMode(state: AppModeState)
    modifies state
    ensures state.currentMode == Translate
    ensures state.selectionEnabledModes == old(state.selectionEnabledModes)
  {
    state.SetMode(Translate);
  }

  /** `switch_to_brush_mode`: with the default set, selection is then off. */
  method SwitchToBrushMode(state: AppModeState)
    modifies state
    ensures state.currentMode == Brush
    ensures state.selectionEnabledModes == old(state.selectionEnabledModes)
    ensures old(state.selectionEnabledModes) == {Translate} ==> !state.IsSelectionEnabled()
  {
    state.SetMode(Brush);
  }
}
