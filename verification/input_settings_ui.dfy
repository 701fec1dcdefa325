/** The input-settings panel: a mode dropdown, a change-key button that waits
    for the next valid key press, and a reset. The engine's key enum is a
    parameter `codes` (its values in enumeration order) and the keys that
    went down this frame are the set `pressed`. */
module InputSettingsUI {
  import opened Common
  import InputSystem

  const KeyNone: int := 0
  const KeyEscape: int := 27
  const Mouse0: int := 323
  const Mouse6: int := 329

  /** The keys the panel refuses to bind, listed one by one. */
  const RefusedKeys: set<int> := {0, 27, 323, 324, 325, 326, 327, 328, 329}

  /** `IsValidKey`: mouse buttons, None and Escape cannot be bound. */
  function IsValidKey(k: int): (valid: bool)
    ensures valid <==> k !in RefusedKeys
  {
    !(Mouse0 <= k <= Mouse6) && k != KeyNone && k != KeyEscape
  }

  /** The first code, in enumeration order, that was pressed and may be bound. */
  function FirstValidPressed(codes: seq<int>, pressed: set<int>): (r: Option<int>)
    ensures r.Some? ==> r.value in codes && r.value in pressed && IsValidKey(r.value)
    ensures r.None? ==> forall i :: 0 <= i < |codes| ==> !(codes[i] in pressed && IsValidKey(codes[i]))
    decreases |codes|
  {
    if |codes| == 0 then None
    else if codes[0] in pressed && IsValidKey(codes[0]) then Some(codes[0])
    else FirstValidPressed(codes[1..], pressed)
  }

  /** `DetectKeyPress`: the loop over the key enum, stopping at the first
      pressed key that may be bound. */
  method DetectKeyPress(codes: seq<int>, pressed: set<int>) returns (found: Option<int>)
    ensures found == FirstValidPressed(codes, pressed)
    ensures found.Some? ==>
              (exists j :: 0 <= j < |codes| && codes[j] == found.value
                 && (forall i :: 0 <= i < j ==> !(codes[i] in pressed && IsValidKey(codes[i]))))
  {
    var j := 0;
    while j < |codes|
      invariant 0 <= j <= |codes|
      invariant forall i :: 0 <= i < j ==> !(codes[i] in pressed && IsValidKey(codes[i]))
      invariant FirstValidPressed(codes[j..], pressed) == FirstValidPressed(codes, pressed)
    {
      if codes[j] in pressed && IsValidKey(codes[j]) {
        return Some(codes[j]);
      }
      assert codes[j..][1..] == codes[j + 1..];
      j := j + 1;
    }
    return None;
  }

  /** The dropdown's option labels, in mode order, as `InitializeUI` adds them. */
  const ModeOptions: seq<string> := ["触摸/点击模式", "键盘模式", "手柄模式"]

  /** The panel's widgets: the key wait, the change-key button, whether the
      key controls (the button and the key label) are shown, the dropdown's
      value, and whether the dropdown's change listener is attached. */
  datatype Panel = Panel(
    waitingForKey: bool,
    buttonInteractable: bool,
    keyControlsVisible: bool,
    dropdownValue: int,
    listening: bool)

  /** The panel together with the input system singleton (absent or present)
      and the preference store. */
  datatype Scene = Scene(panel: Panel, system: Option<InputSystem.InputState>, prefs: InputSystem.Prefs)

  /** The value a dropdown with the three mode options accepts: clamped into
      the option range. */
  function ClampOption(v: int): (c: int)
    ensures 0 <= c < |ModeOptions|
    ensures 0 <= v < |ModeOptions| ==> c == v
    ensures v < 0 ==> c == 0
    ensures v >= |ModeOptions| ==> c == |ModeOptions| - 1
  {
    if v < 0 then 0 else if v >= |ModeOptions| then |ModeOptions| - 1 else v
  }

  /** `OnInputModeChanged`: with an input system, switch its mode (which
      saves the settings) and show the key controls exactly in keyboard mode;
      without one, nothing happens. */
  function OnInputModeChanged(sc: Scene, index: int): (r: Scene)
    ensures sc.system.None? ==> r == sc
    ensures sc.system.Some? ==> r.system == Some(sc.system.value.(mode := index))
    ensures sc.system.Some? ==> r.prefs == InputSystem.Save(r.system.value, sc.prefs)
    ensures sc.system.Some? ==> r.panel == sc.panel.(keyControlsVisible := index == InputSystem.Keyboard)
  {
    match sc.system
    case None => sc
    case Some(s) =>
      var p := InputSystem.SwitchInputMode(s, sc.prefs, index);
      Scene(sc.panel.(keyControlsVisible := index == InputSystem.Keyboard), Some(p.state), p.prefs)
  }

  /** Assigning the dropdown's `value`, which is also what picking an option
      does: the current value changes nothing; any other value is clamped into
      the option range and, once the listener is attached, passed to
      `OnInputModeChanged`. */
  function SetDropdownValue(sc: Scene, v: int): (r: Scene)
    ensures v == sc.panel.dropdownValue ==> r == sc
    ensures v != sc.panel.dropdownValue ==> r.panel.dropdownValue == ClampOption(v)
    ensures v != sc.panel.dropdownValue && !sc.panel.listening ==>
              r == sc.(panel := sc.panel.(dropdownValue := ClampOption(v)))
    ensures v != sc.panel.dropdownValue && sc.panel.listening ==>
              r == OnInputModeChanged(sc.(panel := sc.panel.(dropdownValue := ClampOption(v))), ClampOption(v))
  {
    if v == sc.panel.dropdownValue then sc
    else
      var sc1 := sc.(panel := sc.panel.(dropdownValue := ClampOption(v)));
      if sc1.panel.listening then OnInputModeChanged(sc1, ClampOption(v)) else sc1
  }

  /** `InitializeUI`: without an input system nothing is set up. Otherwise
      the options are replaced (which resets the value to 0), the dropdown is
      set to the current mode, and only then is the listener attached, so the
      assignment reports nothing and the key controls keep the visibility the
      scene gave them. */
  function InitializeUI(sc: Scene): (r: Scene)
    ensures sc.system.None? ==> r == sc
    ensures sc.system.Some? ==> r.panel.listening && r.panel.dropdownValue == ClampOption(sc.system.value.mode)
    ensures sc.system.Some? && !sc.panel.listening ==>
              r == sc.(panel := sc.panel.(dropdownValue := ClampOption(sc.system.value.mode), listening := true))
  {
    match sc.system
    case None => sc
    case Some(s) =>
      var picked := SetDropdownValue(sc.(panel := sc.panel.(dropdownValue := 0)), s.mode);
      picked.(panel := picked.panel.(listening := true))
  }

  /** `OnChangeKeyButtonClicked`: start waiting and lock the button. */
  function ClickChangeKey(sc: Scene): (r: Scene)
    ensures r.panel.waitingForKey && !r.panel.buttonInteractable
    ensures r.system == sc.system && r.prefs == sc.prefs
    ensures r.panel == sc.panel.(waitingForKey := true, buttonInteractable := false)
  {
    sc.(panel := sc.panel.(waitingForKey := true, buttonInteractable := false))
  }

  /** `SetNewKey`: hand the key to the input system (if there is one), stop
      waiting and unlock the button. */
  function SetNewKey(sc: Scene, k: int): (r: Scene)
    ensures !r.panel.waitingForKey && r.panel.buttonInteractable
    ensures r.panel == sc.panel.(waitingForKey := false, buttonInteractable := true)
    ensures sc.system.Some? ==> r.system == Some(sc.system.value.(key := k))
    ensures sc.system.Some? ==> r.prefs == InputSystem.Save(r.system.value, sc.prefs)
    ensures sc.system.None? ==> r.system == None && r.prefs == sc.prefs
  {
    var sc' := match sc.system
      case None => sc
      case Some(s) =>
        var p := InputSystem.SetKeyboardKey(s, sc.prefs, k);
        sc.(system := Some(p.state), prefs := p.prefs);
    sc'.(panel := sc'.panel.(waitingForKey := false, buttonInteractable := true))
  }

  /** The panel's `Update`: while waiting, bind the first valid pressed key, if any. */
  function UpdatePanel(sc: Scene, codes: seq<int>, pressed: set<int>): (r: Scene)
    ensures !sc.panel.waitingForKey ==> r == sc
    ensures sc.panel.waitingForKey && FirstValidPressed(codes, pressed).None? ==> r == sc
    ensures sc.panel.waitingForKey && FirstValidPressed(codes, pressed).Some? ==>
              r == SetNewKey(sc, FirstValidPressed(codes, pressed).value)
  {
    if !sc.panel.waitingForKey then sc
    else match FirstValidPressed(codes, pressed)
      case None => sc
      case Some(k) => SetNewKey(sc, k)
  }

  /** While waiting, a frame either binds exactly one valid key and stops
      waiting, or (when only refused keys went down) keeps waiting. */
  lemma WaitingFrame(sc: Scene, codes: seq<int>, pressed: set<int>)
    requires sc.panel.waitingForKey && sc.system.Some?
    ensures var r := UpdatePanel(sc, codes, pressed);
            && (r.panel.waitingForKey <==> forall i :: 0 <= i < |codes| ==> !(codes[i] in pressed && IsValidKey(codes[i])))
            && (!r.panel.waitingForKey ==> IsValidKey(r.system.value.key) && r.system.value.key in pressed)
  {
  }

  /** The panel's `ResetInputSettings`: reset the input system, then set the
      dropdown to the reset mode. When that changes the dropdown's value, the
      attached listener runs `OnInputModeChanged` for Touch, which hides the
      key controls and saves the settings once more. */
  function ResetSettings(sc: Scene): (r: Scene)
    ensures sc.system.None? ==> r == sc
    ensures sc.system.Some? ==>
              && r.system == Some(InputSystem.ResetInputSettings(sc.system.value, sc.prefs).state)
              && r.prefs == InputSystem.Save(r.system.value, sc.prefs)
              && r.panel.dropdownValue == InputSystem.Touch
              && r.panel.waitingForKey == sc.panel.waitingForKey
              && r.panel.buttonInteractable == sc.panel.buttonInteractable
              && r.panel.listening == sc.panel.listening
    ensures sc.system.Some? && sc.panel.listening && sc.panel.dropdownValue != InputSystem.Touch ==>
              !r.panel.keyControlsVisible
    ensures sc.system.Some? && !(sc.panel.listening && sc.panel.dropdownValue != InputSystem.Touch) ==>
              r.panel.keyControlsVisible == sc.panel.keyControlsVisible
  {
    match sc.system
    case None => sc
    case Some(s) =>
      var p := InputSystem.ResetInputSettings(s, sc.prefs);
      InputSystem.SaveTwice(p.state, sc.prefs);
      SetDropdownValue(Scene(sc.panel, Some(p.state), p.prefs), p.state.mode)
  }

  /** `GetInputModeName`: a mode's name is its dropdown label; any other value
      is the unknown-mode fallback. */
  function GetInputModeName(mode: int): (name: string)
    ensures 0 <= mode < |ModeOptions| ==> name == ModeOptions[mode]
    ensures !(0 <= mode < |ModeOptions|) ==> name == "未知模式"
  {
    if mode == InputSystem.Touch then "触摸/点击模式"
    else if mode == InputSystem.Keyboard then "键盘模式"
    else if mode == InputSystem.Gamepad then "手柄模式"
    else "未知模式"
  }

  /** The three modes get three different names, none of them the fallback. */
  lemma ModeNamesDistinct(m1: int, m2: int)
    requires 0 <= m1 <= 2 && 0 <= m2 <= 2 && m1 != m2
    ensures GetInputModeName(m1) != GetInputModeName(m2)
    ensures GetInputModeName(m1) != GetInputModeName(3)
  {
    assert GetInputModeName(0)[0] != GetInputModeName(1)[0];
    assert GetInputModeName(0)[0] != GetInputModeName(2)[0];
    assert GetInputModeName(1)[0] != GetInputModeName(2)[0];
    assert GetInputModeName(m1)[0] != GetInputModeName(3)[0];
  }

  // ---------------------------------------------------------------- consistency

  /** The panel agrees with the input system: the listener is attached, the
      dropdown shows the (clamped) mode, and the key controls show exactly in
      keyboard mode. */
  predicate Consistent(sc: Scene) {
    && sc.system.Some? && sc.panel.listening
    && sc.panel.dropdownValue == ClampOption(sc.system.value.mode)
    && (sc.panel.keyControlsVisible <==> sc.system.value.mode == InputSystem.Keyboard)
  }

  /** What the player can do on the panel. */
  datatype PanelEvent = PickOption(index: int) | ChangeKey | Frame(codes: seq<int>, pressed: set<int>) | Reset

  function Step(sc: Scene, e: PanelEvent): Scene {
    match e
    case PickOption(i) => SetDropdownValue(sc, i)
    case ChangeKey => ClickChangeKey(sc)
    case Frame(codes, pressed) => UpdatePanel(sc, codes, pressed)
    case Reset => ResetSettings(sc)
  }

  /** Once consistent, the panel stays consistent through every event. */
  lemma StepKeepsConsistent(sc: Scene, e: PanelEvent)
    requires Consistent(sc)
    ensures Consistent(Step(sc, e))
  {
  }

  /** Picking a different option with the listener attached brings the
      system and the key controls in line with it, whatever they were. */
  lemma PickingOptionSyncs(sc: Scene, i: int)
    requires sc.system.Some? && sc.panel.listening
    requires 0 <= i < |ModeOptions| && i != sc.panel.dropdownValue
    ensures var r := SetDropdownValue(sc, i);
            Consistent(r) && r.system.value.mode == i && r.panel.dropdownValue == i
  {
  }

  /** A reset while the dropdown shows another mode leaves the panel
      consistent on Touch, with the key controls hidden. */
  lemma ResetSyncs(sc: Scene)
    requires sc.system.Some? && sc.panel.listening && sc.panel.dropdownValue != InputSystem.Touch
    ensures var r := ResetSettings(sc);
            Consistent(r) && r.system.value.mode == InputSystem.Touch && !r.panel.keyControlsVisible
  {
  }

  /** `InitializeUI` as written does not make the panel consistent: a stored
      Touch mode with key controls the scene shows leaves them shown. */
  lemma InitializeLeavesStaleKeyControls()
    ensures var sc := Scene(Panel(false, true, true, 0, false), Some(InputSystem.Initial), map[]);
            !Consistent(InitializeUI(sc))
  {
  }

  /** The corrected `InitializeUI`: it also sets the key controls' visibility
      as `OnInputModeChanged` would for the current mode. */
  function InitializeUISynced(sc: Scene): (r: Scene)
    ensures sc.system.None? ==> r == sc
    ensures sc.system.Some? ==> Consistent(r)
    ensures sc.system.Some? ==> r.system == sc.system && r.prefs == sc.prefs
  {
    match sc.system
    case None => sc
    case Some(s) =>
      sc.(panel := sc.panel.(dropdownValue := ClampOption(s.mode), listening := true,
                             keyControlsVisible := s.mode == InputSystem.Keyboard))
  }
}
