/** The input system: per frame it asks the detector of the current mode,
    raises the player-input event on a rising edge, and keeps its settings in
    a key-value preference store. The three detectors read engine input and
    are abstract booleans here (the keyboard one is the set of keys that went
    down this frame). */
module InputSystem {

  /** `InputMode` values. A C# enum cast accepts any int, so a mode is an int. */
  const Touch: int := 0
  const Keyboard: int := 1
  const Gamepad: int := 2

  /** `KeyCode.Space`. */
  const KeySpace: int := 32
  const DefaultDeadZone: real := 0.3

  datatype InputState = InputState(mode: int, key: int, deadZone: real, lastFrameInput: bool)

  /** Field initialisers of a new input system. */
  const Initial: InputState := InputState(Touch, KeySpace, DefaultDeadZone, false)

  /** What each detector reports this frame. */
  datatype Detectors = Detectors(touch: bool, keysDown: set<int>, gamepad: bool)

  /** The switch of `Update`: the one detector selected by the mode, or no
      input for a mode outside the enum. */
  function CurrentInput(mode: int, key: int, d: Detectors): (b: bool)
    ensures mode == Touch ==> (b <==> d.touch)
    ensures mode == Keyboard ==> (b <==> key in d.keysDown)
    ensures mode == Gamepad ==> (b <==> d.gamepad)
    ensures !(Touch <= mode <= Gamepad) ==> !b
  {
    if mode == Touch then d.touch
    else if mode == Keyboard then key in d.keysDown
    else if mode == Gamepad then d.gamepad
    else false
  }

  datatype UpdateResult = UpdateResult(state: InputState, fired: bool)

  /** One frame of `Update`. */
  function Update(s: InputState, d: Detectors): (r: UpdateResult)
    ensures r.fired <==> CurrentInput(s.mode, s.key, d) && !s.lastFrameInput
    ensures r.state.lastFrameInput == CurrentInput(s.mode, s.key, d)
    ensures r.state.mode == s.mode && r.state.key == s.key && r.state.deadZone == s.deadZone
  {
    var cur := CurrentInput(s.mode, s.key, d);
    UpdateResult(s.(lastFrameInput := cur), cur && !s.lastFrameInput)
  }

  /** Only the selected detector matters: frames that agree on it give the same result. */
  lemma OnlySelectedDetectorConsulted(s: InputState, d1: Detectors, d2: Detectors)
    requires s.mode == Touch ==> d1.touch == d2.touch
    requires s.mode == Keyboard ==> (s.key in d1.keysDown <==> s.key in d2.keysDown)
    requires s.mode == Gamepad ==> d1.gamepad == d2.gamepad
    ensures Update(s, d1) == Update(s, d2)
  {
  }

  /** Consecutive frames; returns the final state and how many events fired. */
  function RunFrames(s: InputState, frames: seq<Detectors>): (r: (InputState, nat))
    ensures r.1 <= |frames|
    ensures r.0.mode == s.mode && r.0.key == s.key && r.0.deadZone == s.deadZone
    ensures |frames| > 0 ==> r.0.lastFrameInput == CurrentInput(s.mode, s.key, frames[|frames| - 1])
    ensures |frames| == 0 ==> r.0 == s
    decreases |frames|
  {
    if |frames| == 0 then (s, 0)
    else
      var u := Update(s, frames[0]);
      var rest := RunFrames(u.state, frames[1..]);
      (rest.0, rest.1 + (if u.fired then 1 else 0))
  }

  predicate HeldThroughout(s: InputState, frames: seq<Detectors>) {
    forall i :: 0 <= i < |frames| ==> CurrentInput(s.mode, s.key, frames[i])
  }

  /** Input already held on the previous frame fires nothing while it stays held. */
  lemma {:induction false} HeldInputStaysQuiet(s: InputState, frames: seq<Detectors>)
    requires s.lastFrameInput
    requires HeldThroughout(s, frames)
    ensures RunFrames(s, frames).1 == 0
    decreases |frames|
  {
    if |frames| > 0 {
      var u := Update(s, frames[0]);
      assert HeldThroughout(u.state, frames[1..]) by {
        forall i | 0 <= i < |frames[1..]| ensures CurrentInput(s.mode, s.key, frames[1..][i]) {
          assert frames[1..][i] == frames[i + 1];
        }
      }
      HeldInputStaysQuiet(u.state, frames[1..]);
    }
  }

  /** Input held over `n >= 1` frames, starting released, fires exactly once. */
  lemma HeldInputFiresOnce(s: InputState, frames: seq<Detectors>)
    requires !s.lastFrameInput
    requires |frames| >= 1
    requires HeldThroughout(s, frames)
    ensures RunFrames(s, frames).1 == 1
  {
    var u := Update(s, frames[0]);
    assert u.fired;
    assert HeldThroughout(u.state, frames[1..]) by {
      forall i | 0 <= i < |frames[1..]| ensures CurrentInput(s.mode, s.key, frames[1..][i]) {
        assert frames[1..][i] == frames[i + 1];
      }
    }
    HeldInputStaysQuiet(u.state, frames[1..]);
  }

  // ---------------------------------------------------------------- preferences

  /** A stored preference value: `SetInt` or `SetFloat`. */
  datatype PrefValue = IntPref(i: int) | FloatPref(f: real)

  type Prefs = map<string, PrefValue>

  const ModeKey: string := "InputMode"
  const KeyboardKeyKey: string := "KeyboardKey"
  const DeadZoneKey: string := "JoystickDeadZone"

  /** `GetInt`: the stored int, or the default 0 when the key holds no int. */
  function GetInt(p: Prefs, k: string): int {
    if k in p && p[k].IntPref? then p[k].i else 0
  }

  /** `GetFloat`: the stored float, or the default 0 when the key holds no float. */
  function GetFloat(p: Prefs, k: string): real {
    if k in p && p[k].FloatPref? then p[k].f else 0.0
  }

  /** `SaveInputSettings`: writes the three settings and nothing else. */
  function Save(s: InputState, p: Prefs): (p': Prefs)
    ensures p'.Keys == p.Keys + {ModeKey, KeyboardKeyKey, DeadZoneKey}
    ensures GetInt(p', ModeKey) == s.mode && GetInt(p', KeyboardKeyKey) == s.key
    ensures GetFloat(p', DeadZoneKey) == s.deadZone
    ensures p'[ModeKey] == IntPref(s.mode) && p'[KeyboardKeyKey] == IntPref(s.key)
    ensures p'[DeadZoneKey] == FloatPref(s.deadZone)
    ensures forall k :: k in p && k != ModeKey && k != KeyboardKeyKey && k != DeadZoneKey ==> p'[k] == p[k]
  {
    p[ModeKey := IntPref(s.mode)][KeyboardKeyKey := IntPref(s.key)][DeadZoneKey := FloatPref(s.deadZone)]
  }

  /** `LoadInputSettings`: each setting whose key exists is read back; a
      setting whose key is absent keeps its current value. */
  function Load(s: InputState, p: Prefs): (s': InputState)
    ensures s'.mode == (if ModeKey in p then GetInt(p, ModeKey) else s.mode)
    ensures s'.key == (if KeyboardKeyKey in p then GetInt(p, KeyboardKeyKey) else s.key)
    ensures s'.deadZone == (if DeadZoneKey in p then GetFloat(p, DeadZoneKey) else s.deadZone)
    ensures s'.lastFrameInput == s.lastFrameInput
  {
    var mode := if ModeKey in p then GetInt(p, ModeKey) else s.mode;
    var key := if KeyboardKeyKey in p then GetInt(p, KeyboardKeyKey) else s.key;
    var dz := if DeadZoneKey in p then GetFloat(p, DeadZoneKey) else s.deadZone;
    s.(mode := mode, key := key, deadZone := dz)
  }

  /** Saving and then loading, into any state, restores the saved settings. */
  lemma SaveLoadRoundTrip(saved: InputState, into: InputState, p: Prefs)
    ensures Load(into, Save(saved, p))
         == into.(mode := saved.mode, key := saved.key, deadZone := saved.deadZone)
  {
  }

  /** Loading from a store without the keys changes nothing. */
  lemma LoadFromEmptyStore(s: InputState)
    ensures Load(s, map[]) == s
  {
  }

  /** Loading what was just saved is the identity on the state, and saving it
      again leaves the store as it was. */
  lemma SaveLoadSaveStable(s: InputState, p: Prefs)
    ensures Load(s, Save(s, p)) == s
    ensures Save(Load(s, Save(s, p)), Save(s, p)) == Save(s, p)
  {
  }

  /** Saving the same settings twice leaves the store as saving once does. */
  lemma SaveTwice(s: InputState, p: Prefs)
    ensures Save(s, Save(s, p)) == Save(s, p)
  {
  }

  datatype Persisted = Persisted(state: InputState, prefs: Prefs)

  /** `SwitchInputMode`: changes only the mode, then saves. */
  function SwitchInputMode(s: InputState, p: Prefs, newMode: int): (r: Persisted)
    ensures r.state == s.(mode := newMode)
    ensures Load(Initial, r.prefs) == Initial.(mode := newMode, key := s.key, deadZone := s.deadZone)
    ensures r.prefs == Save(r.state, p)
  {
    var s' := s.(mode := newMode);
    Persisted(s', Save(s', p))
  }

  /** `SetKeyboardKey`: changes only the key, then saves. */
  function SetKeyboardKey(s: InputState, p: Prefs, newKey: int): (r: Persisted)
    ensures r.state == s.(key := newKey)
    ensures Load(Initial, r.prefs) == Initial.(mode := s.mode, key := newKey, deadZone := s.deadZone)
    ensures r.prefs == Save(r.state, p)
  {
    var s' := s.(key := newKey);
    Persisted(s', Save(s', p))
  }

  /** `ResetInputSettings`: mode Touch, key Space, dead zone 0.3, then saves. */
  function ResetInputSettings(s: InputState, p: Prefs): (r: Persisted)
    ensures r.state.mode == Touch && r.state.key == KeySpace && r.state.deadZone == DefaultDeadZone
    ensures r.state.lastFrameInput == s.lastFrameInput
    ensures r.prefs.Keys == p.Keys + {ModeKey, KeyboardKeyKey, DeadZoneKey}
    ensures r.prefs[ModeKey] == IntPref(Touch) && r.prefs[KeyboardKeyKey] == IntPref(KeySpace)
    ensures r.prefs[DeadZoneKey] == FloatPref(DefaultDeadZone)
    ensures r.prefs == Save(r.state, p)
  {
    var s' := s.(mode := Touch, key := KeySpace, deadZone := DefaultDeadZone);
    Persisted(s', Save(s', p))
  }

  /** After a reset, any system that loads the store starts from the default
      settings, whatever it held before. */
  lemma LoadAfterReset(s: InputState, p: Prefs, into: InputState)
    ensures Load(into, ResetInputSettings(s, p).prefs)
         == into.(mode := Touch, key := KeySpace, deadZone := DefaultDeadZone)
    ensures Load(Initial, ResetInputSettings(s, p).prefs) == Initial
  {
  }
}
