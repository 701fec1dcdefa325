# Sushi game core, modelled in Dafny

This project models the gameplay and input core of a Unity sushi game:

- the fixed-tick sushi spawner and the session counters it feeds;
- the balance tables and the documented shop price curve;
- the persisted progress record and its `yyyy-MM-dd HH:mm:ss` timestamp;
- the shop's purchase entry points and the shop buttons;
- the input system: edge-triggered player input, with its three settings kept in PlayerPrefs;
- the hand-tracking receiver's pinch events;
- the input-settings panel;
- the two character animators, the outline hover highlight and the wave-topped liquid mesh.

The model has one module per source class, plus `Common`, which holds `Option`, the C# `int` wrap-around and flag counting. Every operation is a pure function from the component's state to its next state. A Unity coroutine is an explicit part of that state:

- `CharacterAnimation.coroutine` holds the number of frames counted so far;
- `CharacterAnimationSP.cursor` holds the sequence entry on screen;
- `OutlineHover.pending` holds the seconds left to wait.

Things the components read from the engine are parameters:

- the physics tick length and `Random.Range` results;
- the per-frame detector readings and `Time.timeScale > 0`;
- the Timeline director state and the sine in the wave.

C# `float` values are mathematical reals.

`ShopManagerScript` and `StoreButtoninfo` call members that `GameManager.cs` does not declare: `Instance`, `BuyUpgrade`, `GetLevel`, `GetUpgradePrice`, `gameData.coins` and `UpgradeType`. The model keeps the one declared part of the game manager: its counters and two getters. The rest becomes parameters:

- the singleton's presence is a `bool`;
- `BuyUpgrade` is a function `UpgradeType -> bool`, whose result says whether the purchase succeeded;
- the stored level is a function `UpgradeType -> int`.

The code contains no score-growth, spawn-rate-interpolation or SP-gain formulas: `GameBalance` only declares constants, and the model follows it. The price curve `base * 1.15^level` appears only as a comment on `PriceGrowthFactor`; it is modelled as `GameBalance.Price`, and its properties are proved about that rule.

`CharacterAnimationSP` says in three comments (lines 7, 34 and 136) that it plays the sequence 1 1 1 2 3 4 4 5 1. The array it actually plays is `{0,0,1,1,1,2,2,2,3,3,3,3,4,4,4,0}`, which is 16 entries of frame indices. The model uses the array.

## Model

| member | source | states |
|---|---|---|
| Common.WrapInt32 | Assets/Scripts/Logic/GameManager.cs:9 | the value an unchecked C# `int` holds: in int32 range, unchanged for int32 inputs, congruent modulo 2^32 |
| SushiSpawner.FixedUpdate | Assets/Scripts/Logic/SushiSpawner.cs:29-45 | switched off, the spawner is untouched; with the timer at or past its target, it draws a new target in `[minTime, maxTime]`, restarts the timer at `dt` and launches a sushi moving right at `originSpeed`; otherwise it only advances the timer by `dt`; the configuration never changes |
| SushiSpawner.Run | Assets/Scripts/Logic/SushiSpawner.cs:29-38 | over n ticks at most n sushi are launched, the configuration is kept, and a switched-off spawner launches none and stays as it was |
| SushiSpawner.FirstEnabledTickSpawns | Assets/Scripts/Logic/SushiSpawner.cs:8-13 | a freshly placed spawner, once switched on, launches on its first tick and leaves its timer at `dt` |
| SushiSpawner.TargetStaysInRange | Assets/Scripts/Logic/SushiSpawner.cs:31-33 | once the target lies in `[minTime, maxTime]` it stays there over any number of ticks |
| SushiSpawner.QuietTicks | Assets/Scripts/Logic/SushiSpawner.cs:31-36 | while the timer stays below its target, ticks launch nothing and only add `dt` each |
| SushiSpawner.TicksBetweenSpawnsBounds | Assets/Scripts/Logic/SushiSpawner.cs:31-36 | the tick count `max(1, ceil(T/dt))` is the least whose accumulated time reaches target `T` |
| SushiSpawner.NextSpawnTick | Assets/Scripts/Logic/SushiSpawner.cs:29-38 | after a spawn that drew target `T`, the next `max(1, ceil(T/dt)) - 1` ticks are quiet and the one after launches again |
| GameManager.NewManager | Assets/Scripts/Logic/GameManager.cs:8-13 | all four counters start at 0 |
| GameManager.GetCurrentTime | Assets/Scripts/Logic/GameManager.cs:18-25 | the spawner's elapsed time, or 0 without a spawner |
| GameManager.GetTargetTime | Assets/Scripts/Logic/GameManager.cs:28-35 | the spawner's current target, or 0 without a spawner |
| GameManager.FishAdded | Assets/Scripts/Logic/SushiSpawner.cs:43-45 | the fish-added handler raises `sushiCount` by one, wrapping from `int.MaxValue` to `int.MinValue`, and touches no other counter |
| GameManager.FishAddedCounts | Assets/Scripts/Logic/SushiSpawner.cs:43-45 | below the wrap-around point, n notifications raise the count by exactly n and change nothing else |
| GameManager.Tick | Assets/Scripts/Logic/SushiSpawner.cs:29-38 | a spawner tick leaves the manager's counters alone |
| GameManager.GettersAfterSpawn | Assets/Scripts/Logic/GameManager.cs:18-35 | read through the getters, a spawning tick shows elapsed time `dt` and a target inside `[minTime, maxTime]` |
| GameBalance.TablesCoverEveryKind | Assets/Scripts/Logic/GameBalance.cs:13-22 | every per-kind table has one entry per sushi kind (four) |
| GameBalance.RateTablesArePercentages | Assets/Scripts/Logic/GameBalance.cs:19-22 | base and maximum spawn rates each sum to 100, and the maximum table is the base table reversed |
| GameBalance.ConstantsPositive | Assets/Scripts/Logic/GameBalance.cs:13-44 | bonuses, coefficients, shop base prices, SP and reward constants are positive, and the starting coins are not negative |
| GameBalance.Price | Assets/Scripts/Logic/GameBalance.cs:40-41 | level 0 costs the base price, and no level costs less than a positive base or less than zero for a non-negative one |
| GameBalance.PriceStart | Assets/Scripts/Logic/GameBalance.cs:40-41 | at level 0 the price is the base price; at level 1 it is 1.15 times the base |
| GameBalance.PriceStep | Assets/Scripts/Logic/GameBalance.cs:40-41 | each level costs strictly more than the one before, for a positive base |
| GameBalance.PriceStrictlyIncreasing | Assets/Scripts/Logic/GameBalance.cs:40-41 | the price is strictly increasing in the level, for a positive base |
| GameBalance.ShopPricesIncrease | Assets/Scripts/Logic/GameBalance.cs:35-41 | the price of each of the four shop items rises with every purchase |
| GameData.New | Assets/Scripts/Json/GameData.cs:22-32 | counters and levels start at zero, and `lastPlayTime` is a 19-character timestamp that reads back as the creation moment |
| GameData.PadDigitsRoundTrip | Assets/Scripts/Json/GameData.cs:26 | a zero-padded field reads back as the number written, when it fits its width |
| GameData.DigitsValueRoundTrip | Assets/Scripts/Json/GameData.cs:26 | a run of digits is the zero-padded form of its own value |
| GameData.FormatTimestamp | Assets/Scripts/Json/GameData.cs:26 | the `yyyy-MM-dd HH:mm:ss` text has 19 characters, with `-`, `-`, ` `, `:`, `:` at positions 4, 7, 10, 13, 16 |
| GameData.FormatLayout | Assets/Scripts/Json/GameData.cs:26 | each date and time field sits at its fixed position as a zero-padded number of 4 or 2 digits |
| GameData.FormatShape | Assets/Scripts/Json/GameData.cs:26 | every field of the formatted timestamp consists of digits |
| GameData.ParseTimestamp | Assets/Scripts/Json/GameData.cs:26 | whatever the reader accepts denotes a valid calendar moment |
| GameData.ParseFormatRoundTrip | Assets/Scripts/Json/GameData.cs:26 | a formatted timestamp reads back as the moment it was made from |
| GameData.FormatParseRoundTrip | Assets/Scripts/Json/GameData.cs:26 | an accepted string is exactly the formatting of what it reads as |
| ShopManager.ItemUpgrade | Assets/ShopManagerScript.cs:75-88 | IDs 1, 2, 3, 4 name Bonus, Rate, Sp, SpecialBonus, each in both directions, and no other ID names an upgrade |
| ShopManager.Buy | Assets/ShopManagerScript.cs:70-115 | an unknown ID or a missing game manager ends the request with no purchase attempt; otherwise exactly one `BuyUpgrade` call for the ID's upgrade, and the coin display refreshes exactly when it succeeds |
| ShopManager.BuySelected | Assets/ShopManagerScript.cs:40-63 | the parameterless `Buy` forwards the clicked button's ID, and does nothing with no selection or no button info |
| ShopManager.BuyAttemptsAtMostOnce | Assets/ShopManagerScript.cs:70-115 | a request makes at most one purchase attempt, and a refresh implies one successful attempt |
| StoreButton.GetUpgradeType | Assets/StoreButtoninfo.cs:37-47 | IDs 1 to 4 map as in the shop manager; every other ID maps to Bonus |
| StoreButton.DisplayedLevel | Assets/StoreButtoninfo.cs:27-30 | for IDs 1 to 4 the label is one more than the stored level of the upgrade the shop manager maps the ID to; any other ID shows the Bonus level plus one |
| StoreButton.Click | Assets/StoreButtoninfo.cs:52-76 | ID 0 is refused; a bound shop manager gets the ID; a bound object without the script does nothing; with no binding the button makes exactly one `BuyUpgrade` call, for its own upgrade kind, without refreshing the coins, and dereferences a missing game manager |
| StoreButton.MappingsAgreeOnShopIds | Assets/StoreButtoninfo.cs:37-47 | the button's and the shop manager's mappings agree exactly on IDs 1 to 4 |
| StoreButton.LabelMatchesPurchase | Assets/StoreButtoninfo.cs:13-32 | for IDs 1 to 4 the label shows the level of the upgrade a click buys |
| StoreButton.UnknownIdPathsDisagree | Assets/StoreButtoninfo.cs:52-76 | for an ID outside 0 to 4, the direct path buys Bonus while the delegated path buys nothing |
| InputSystem.Update | Assets/Scripts/Logic/InputSystem.cs:58-85 | an event fires exactly on a frame where the selected detector reports input and the previous frame did not; the frame's reading is remembered; the settings are untouched |
| InputSystem.CurrentInput | Assets/Scripts/Logic/InputSystem.cs:63-76 | Touch reads the pointer detector, Keyboard whether the bound key went down, Gamepad the stick detector, and any other mode reports no input |
| InputSystem.OnlySelectedDetectorConsulted | Assets/Scripts/Logic/InputSystem.cs:63-76 | frames that agree on the detector of the current mode give the same result |
| InputSystem.RunFrames | Assets/Scripts/Logic/InputSystem.cs:58-85 | over n frames at most n events fire, the settings are kept and the last frame's reading is remembered |
| InputSystem.HeldInputStaysQuiet | Assets/Scripts/Logic/InputSystem.cs:79-84 | input already held on the previous frame fires nothing for as long as it stays held |
| InputSystem.HeldInputFiresOnce | Assets/Scripts/Logic/InputSystem.cs:79-84 | a press held over one or more frames, starting released, fires exactly one event |
| InputSystem.Save | Assets/Scripts/Logic/InputSystem.cs:221-227 | the mode, key and dead zone are written under their three keys and no other entry changes |
| InputSystem.Load | Assets/Scripts/Logic/InputSystem.cs:232-253 | each setting whose key is stored is read back, and an absent key leaves its setting as it was |
| InputSystem.SaveLoadRoundTrip | Assets/Scripts/Logic/InputSystem.cs:221-253 | loading what was saved, into any state, restores the saved mode, key and dead zone |
| InputSystem.LoadFromEmptyStore | Assets/Scripts/Logic/InputSystem.cs:234-247 | loading from a store without the keys changes nothing |
| InputSystem.SaveLoadSaveStable | Assets/Scripts/Logic/InputSystem.cs:221-253 | loading just-saved settings is the identity, and saving them again leaves the store unchanged |
| InputSystem.SwitchInputMode | Assets/Scripts/Logic/InputSystem.cs:177-186 | only the mode changes, and a fresh system loading the store sees the new mode with the current key and dead zone |
| InputSystem.SetKeyboardKey | Assets/Scripts/Logic/InputSystem.cs:191-200 | only the key changes, and a fresh system loading the store sees the new key with the current mode and dead zone |
| InputSystem.ResetInputSettings | Assets/Scripts/Logic/InputSystem.cs:258-269 | the settings become Touch, Space and 0.3, and the store is exactly the old store with those three entries saved |
| InputSystem.LoadAfterReset | Assets/Scripts/Logic/InputSystem.cs:232-269 | after a reset, any system that loads the store gets Touch, Space and 0.3, and a fresh system gets exactly its defaults |
| InputSystem.SaveTwice | Assets/Scripts/Logic/InputSystem.cs:221-227 | saving the same settings twice leaves the store as saving them once |
| HandTracking.Update | Assets/Scripts/Logic/HandTrackingReceiver.cs:82-115 | with no sample nothing changes; otherwise a pinch start fires exactly when the sample is pinched and the last one was not, a pinch end exactly in the opposite case, and the sample's pinch state is remembered |
| HandTracking.SameSampleTwiceIsQuiet | Assets/Scripts/Logic/HandTrackingReceiver.cs:102-113 | reading the same sample on the next frame fires nothing |
| HandTracking.EventsAlternate | Assets/Scripts/Logic/HandTrackingReceiver.cs:102-113 | over any frames, starts and ends alternate, beginning with whichever the remembered pinch state allows, and that state flips with each event |
| HandTracking.FirstEventIsStart | Assets/Scripts/Logic/HandTrackingReceiver.cs:39-45 | from the initial receiver, the first event is a pinch start |
| InputSettingsUI.IsValidKey | Assets/Scripts/Logic/InputSettingsUI.cs:130-140 | a key may be bound exactly when it is not None, Escape or a mouse button 0 to 6, listed one by one |
| InputSettingsUI.FirstValidPressed | Assets/Scripts/Logic/InputSettingsUI.cs:110-125 | the answer is a pressed, bindable code from the enumeration, and none means no pressed code is bindable |
| InputSettingsUI.DetectKeyPress | Assets/Scripts/Logic/InputSettingsUI.cs:110-125 | the loop finds the first pressed, bindable code in enumeration order: every earlier code is unpressed or refused |
| InputSettingsUI.ClampOption | Assets/Scripts/Logic/InputSettingsUI.cs:48-55 | a value given to the three-option dropdown ends up in 0 to 2: kept when in range, else the nearest end |
| InputSettingsUI.SetDropdownValue | Assets/Scripts/Logic/InputSettingsUI.cs:55-56 | assigning the current value changes nothing; another value is clamped, and only once the listener is attached is it passed on to the mode-change handler |
| InputSettingsUI.InitializeUI | Assets/Scripts/Logic/InputSettingsUI.cs:36-67 | without an input system nothing is set up; otherwise the dropdown shows the clamped current mode and the listener is attached; since it is attached last, a fresh panel's settings, store and key controls are untouched |
| InputSettingsUI.ClickChangeKey | Assets/Scripts/Logic/InputSettingsUI.cs:96-105 | the panel starts waiting for a key and locks the button, with the settings untouched |
| InputSettingsUI.SetNewKey | Assets/Scripts/Logic/InputSettingsUI.cs:145-160 | waiting ends and the button unlocks in every case; with an input system the key is set and stored |
| InputSettingsUI.UpdatePanel | Assets/Scripts/Logic/InputSettingsUI.cs:24-31 | when not waiting, or when no bindable key is pressed, nothing changes; otherwise the first bindable pressed key is bound |
| InputSettingsUI.WaitingFrame | Assets/Scripts/Logic/InputSettingsUI.cs:24-31 | a waiting frame keeps waiting exactly when no bindable key was pressed; otherwise the key it binds is bindable and was pressed |
| InputSettingsUI.OnInputModeChanged | Assets/Scripts/Logic/InputSettingsUI.cs:72-91 | with an input system, only the mode changes, the store is exactly the old one with the new settings saved, and the key controls show exactly for Keyboard mode, with the rest of the panel unchanged; without one, nothing changes |
| InputSettingsUI.ResetSettings | Assets/Scripts/Logic/InputSettingsUI.cs:221-235 | with an input system, the settings are reset and saved, and the dropdown shows Touch; when that changed the dropdown with the listener attached, the key controls are hidden, and otherwise they stay as they were; without one, nothing changes |
| InputSettingsUI.GetInputModeName | Assets/Scripts/Logic/InputSettingsUI.cs:203-216 | each of the three modes is named by its dropdown label, in option order, and any other value by the unknown-mode fallback |
| InputSettingsUI.ModeNamesDistinct | Assets/Scripts/Logic/InputSettingsUI.cs:203-216 | the three modes have three different names, none of them the unknown-mode fallback |
| InputSettingsUI.StepKeepsConsistent | Assets/Scripts/Logic/InputSettingsUI.cs:72-235 | once the dropdown shows the clamped mode and the key controls show exactly in keyboard mode, picking an option, the change-key button, a frame and a reset all keep it so |
| InputSettingsUI.PickingOptionSyncs | Assets/Scripts/Logic/InputSettingsUI.cs:72-91 | picking a new option with the listener attached sets that mode and makes the panel consistent with it, from any prior state |
| InputSettingsUI.ResetSyncs | Assets/Scripts/Logic/InputSettingsUI.cs:221-235 | a reset while the dropdown shows another mode leaves the panel consistent on Touch with the key controls hidden |
| InputSettingsUI.InitializeLeavesStaleKeyControls | Assets/Scripts/Logic/InputSettingsUI.cs:36-67 | as written, a panel whose scene shows the key controls, started with a stored Touch mode, keeps them shown after set-up |
| InputSettingsUI.InitializeUISynced | Assets/Scripts/Logic/InputSettingsUI.cs:36-67 | the corrected set-up leaves the settings and store untouched and makes the panel consistent |
| CharacterAnimation.Start | Assets/Scripts/Animation/CharacterAnimation.cs:42-68 | the target begins hidden, in a reachable state |
| CharacterAnimation.Complete | Assets/Scripts/Animation/CharacterAnimation.cs:243-264 | the end of an activation hides the target, shows `g1`, hides `g2` to `g4` and releases the busy flag |
| CharacterAnimation.Resume | Assets/Scripts/Animation/CharacterAnimation.cs:225-264 | a suspended coroutine below its frame budget counts the frame only when time is unpaused; once the budget is reached, it completes |
| CharacterAnimation.ActivateTarget | Assets/Scripts/Animation/CharacterAnimation.cs:160-189 | without a target, or while busy, nothing happens; otherwise the target shows, the flag goes busy and the coroutine runs to its first wait |
| CharacterAnimation.OnPlayerInput | Assets/Scripts/Animation/CharacterAnimation.cs:136-155 | input is ignored while busy and activates otherwise |
| CharacterAnimation.ForceStop | Assets/Scripts/Animation/CharacterAnimation.cs:280-299 | the coroutine is dropped, the target hidden and the busy flag released; `g1` to `g4` are untouched |
| CharacterAnimation.LateUpdate | Assets/Scripts/Animation/CharacterAnimation.cs:70-102 | when the Timeline stops controlling an idle target, the target is hidden; the busy state is never changed, and a busy target is never hidden |
| CharacterAnimation.FramePreservesInv | Assets/Scripts/Animation/CharacterAnimation.cs:70-264 | every frame keeps the controller in its reachable states |
| CharacterAnimation.FrameWhileSuspended | Assets/Scripts/Animation/CharacterAnimation.cs:144-151 | during an activation, a frame only resumes the coroutine, so any input that frame is ignored |
| CharacterAnimation.CountsUnpausedFrames | Assets/Scripts/Animation/CharacterAnimation.cs:226-241 | below the budget, the coroutine's count grows by exactly the number of unpaused frames, and the target stays shown and busy |
| CharacterAnimation.ActivationIsFirstResume | Assets/Scripts/Animation/CharacterAnimation.cs:160-240 | activating is arming the coroutine and resuming it once |
| CharacterAnimation.ShownUntilLastCountedFrame | Assets/Scripts/Animation/CharacterAnimation.cs:225-241 | the target stays shown and busy through the frame that counts the last of `activeFrames` unpaused frames |
| CharacterAnimation.HiddenRightAfter | Assets/Scripts/Animation/CharacterAnimation.cs:243-264 | on the frame after that, the target is hidden and input is accepted again |
| CharacterAnimation.OnDisable | Assets/Scripts/Animation/CharacterAnimation.cs:115-131 | as written: the coroutine stops but the busy flag and the target's visibility are kept |
| CharacterAnimation.DisableMidActivationLocksOut | Assets/Scripts/Animation/CharacterAnimation.cs:115-155 | as written, disabling mid-activation leaves the controller busy, with the target shown and no coroutine, through every later frame |
| CharacterAnimation.OnDisableReleasing | Assets/Scripts/Animation/CharacterAnimation.cs:280-299 | corrected: disabling releases the controller as `ForceStop` does |
| CharacterAnimation.DisableThenInputActivates | Assets/Scripts/Animation/CharacterAnimation.cs:136-189 | after the corrected disable, the next input activates the target again |
| CharacterAnimationSP.SequenceIndexesFrameSlots | Assets/Scripts/Animation/CharacterAnimationSP.cs:15-35 | every sequence entry names one of the five frame slots |
| CharacterAnimationSP.SequenceShape | Assets/Scripts/Animation/CharacterAnimationSP.cs:35 | the sequence starts and ends on frame 0 and never goes back before its last entry |
| CharacterAnimationSP.SetFrame | Assets/Scripts/Animation/CharacterAnimationSP.cs:165-180 | a missing image, a missing array, an index out of range or an unset slot leaves the sprite as it was; otherwise the slot's sprite is shown; nothing else changes |
| CharacterAnimationSP.StartAnimation | Assets/Scripts/Animation/CharacterAnimationSP.cs:114-140 | playback starts on the first entry, marked as playing |
| CharacterAnimationSP.OnPlayerInput | Assets/Scripts/Animation/CharacterAnimationSP.cs:90-109 | input is ignored while playing and starts playback otherwise |
| CharacterAnimationSP.Resume | Assets/Scripts/Animation/CharacterAnimationSP.cs:137-154 | after each wait the next entry is shown, and after the last one playback ends as `StopAnimation` does |
| CharacterAnimationSP.StopAnimation | Assets/Scripts/Animation/CharacterAnimationSP.cs:216-232 | playback stops and frame 0 is current |
| CharacterAnimationSP.PlaybackShowsEntry | Assets/Scripts/Animation/CharacterAnimationSP.cs:127-148 | after the start and k waits, entry k is current and, with a complete frame set and an image, its sprite is on screen |
| CharacterAnimationSP.PlaybackEnds | Assets/Scripts/Animation/CharacterAnimationSP.cs:150-154 | after the last entry's wait, playback is over and frame 0's sprite is on screen |
| CharacterAnimationSP.ValidateFrames | Assets/Scripts/Animation/CharacterAnimationSP.cs:185-203 | true exactly when the array exists, has five slots and every slot holds a sprite |
| CharacterAnimationSP.OnDisable | Assets/Scripts/Animation/CharacterAnimationSP.cs:69-85 | as written: the coroutine stops but the playing flag is kept |
| CharacterAnimationSP.DisableMidPlaybackLocksOut | Assets/Scripts/Animation/CharacterAnimationSP.cs:69-109 | as written, disabling mid-playback leaves the player unchanged by any later inputs and waits |
| CharacterAnimationSP.OnDisableStopping | Assets/Scripts/Animation/CharacterAnimationSP.cs:216-232 | corrected: disabling stops playback as `StopAnimation` does |
| CharacterAnimationSP.DisableThenInputPlays | Assets/Scripts/Animation/CharacterAnimationSP.cs:90-122 | after the corrected disable, the next input starts playback again |
| OutlineHover.Initial | Assets/Scripts/Animation/CharacterOutlineHover.cs:35-61 | the component starts with the outline hidden and nothing pending, in its invariant |
| OutlineHover.OnInputInvoke | Assets/Scripts/Animation/CharacterOutlineHover.cs:72-93 | without an outline nothing happens; otherwise the outline hides and the full delay restarts |
| OutlineHover.Complete | Assets/Scripts/Animation/CharacterOutlineHover.cs:103-126 | the delay's end shows the outline if the pointer is over it, and ends the handling |
| OutlineHover.Tick | Assets/Scripts/Animation/CharacterOutlineHover.cs:98-127 | a frame of any non-negative length counts the delay down, so a paused frame (length 0) keeps a running wait unchanged, and it completes once no time remains |
| OutlineHover.OnPointerEnter | Assets/Scripts/Animation/CharacterOutlineHover.cs:132-155 | the pointer is noted, and the outline shows unless an input is being handled |
| OutlineHover.OnPointerExit | Assets/Scripts/Animation/CharacterOutlineHover.cs:160-173 | the pointer is noted as gone and the outline hides |
| OutlineHover.StepPreservesInv | Assets/Scripts/Animation/CharacterOutlineHover.cs:72-173 | after any event, the outline shows exactly when it exists, the pointer is over it and no input is handled; the countdown runs exactly while handling |
| OutlineHover.CompletionFollowsPointer | Assets/Scripts/Animation/CharacterOutlineHover.cs:103-126 | when the delay ends, the outline shows exactly if the pointer is over it |
| OutlineHover.HiddenUntilDelayElapses | Assets/Scripts/Animation/CharacterOutlineHover.cs:72-155 | while handling an input, no pointer event or further input shows the outline before the remaining delay has passed |
| WaveLiquid.SetFillAmount | Assets/Scripts/Animation/WaveLiquidUI.cs:29-37 | the fill is clamped into [0, 1] and kept when already inside |
| WaveLiquid.SetWaveSegments | Assets/Scripts/Animation/WaveLiquidUI.cs:51-55 | fewer than ten segments become ten; other counts are kept |
| WaveLiquid.OnValidate | Assets/Scripts/Animation/WaveLiquidUI.cs:158-163 | validation makes the fill and segment count valid and leaves a valid state unchanged |
| WaveLiquid.SettersKeepValid | Assets/Scripts/Animation/WaveLiquidUI.cs:29-55 | the two setters keep a valid state valid |
| WaveLiquid.Update | Assets/Scripts/Animation/WaveLiquidUI.cs:75-83 | the wave phase advances by `dt * speed` only while partly filled; empty or full, nothing changes |
| WaveLiquid.WaveTimeAccumulates | Assets/Scripts/Animation/WaveLiquidUI.cs:75-83 | over frames of a partly filled container, the phase advances by total time times speed |
| WaveLiquid.WaveAt | Assets/Scripts/Animation/WaveLiquidUI.cs:120-125 | a full container has no wave; otherwise the displacement is the wave shape at the vertex's phase times the height, so a shape within [-1, 1] keeps it within the height |
| WaveLiquid.TopVertex | Assets/Scripts/Animation/WaveLiquidUI.cs:115-134 | a top vertex never rises above the container top, sits at the fill line plus the wave unless that is higher, and lies `i / segments` of the way across |
| WaveLiquid.PopulateMesh | Assets/Scripts/Animation/WaveLiquidUI.cs:85-149 | empty at fill 0; otherwise two bottom corners, then segments+1 top vertices clipped to the container's top, and two triangles per segment with every index naming a vertex |
| WaveLiquid.FullContainerIsFlat | Assets/Scripts/Animation/WaveLiquidUI.cs:122-130 | at full fill the top edge is flat at the fill line, or at the container top if lower |
| WaveLiquid.TopEdgeSpansWidth | Assets/Scripts/Animation/WaveLiquidUI.cs:107-117 | the top vertices run strictly left to right, from the container's left edge to its right edge |

## Left out

- Floating point: every C# `float` and `double` is a real, so rounding is not modelled. That covers the spawner's timer, the 1.15 price factor and the wave's vertex positions.
- Score growth, rate interpolation, SP gain, combo reward and a session state machine are not modelled: the code contains no such formulas.
- `GameManager.Instance`, `BuyUpgrade`, `GetLevel`, `GetUpgradePrice` and the coin balance are not modelled. `GameManager.cs` does not declare them. They are parameters of the shop functions.
- `ShopManagerScript.UpdateCoinDisplay` text formatting is reduced to the `coinsRefreshed` flag. Text labels and their formatting are not modelled. This also covers the status-text auto-clear after two seconds.
- Unity object lifetime is not modelled: `Instantiate`, `Awake` singletons, `DontDestroyOnLoad`, event subscription bookkeeping and logging.
- Sushi physics is reduced to the launch velocity the spawner sets.
- `InputSystem` detectors are not modelled. What each detector reports is a per-frame input: mouse and touch, `GetKeyDown`, and the gamepad stick magnitude against the dead zone with the `sqrt`. `PlayerPrefs.Save` disk I/O is not modelled.
- `HandTrackingReceiver`'s UDP thread, JSON parsing, lock and `OnDestroy` are not modelled. `Update` sees the latest sample, or none.
- `GameData`: the timestamp is modelled with the invariant culture, so the time separator is `:`. A culture-dependent separator or a non-Gregorian calendar is not modelled. JSON serialisation and `JsonDataManager` are not part of this model.
- `CharacterAnimation` does not model unassigned `g1` to `g4`, which make the coroutine's end throw. It also leaves out the director's `Stop`, `Play` and `time` calls, which act on an external component.
- `OutlineHover.Tick` approximates `WaitForSeconds`. The wait ends on the first frame at which the accumulated `dt` reaches the delay. A paused frame has `dt` 0. Engine scheduling details are not modelled.
- `WaveLiquid.PopulateMesh` does not model the sine. The sine is the parameter `shape`. With zero segments the source divides by zero and produces NaN positions. The model reads `i / 0` as 0 there instead, though neither the setter nor validation allows that count.
- `InputSystem.SwitchInputMode`, `SetKeyboardKey` and `ResetInputSettings` do not model the disk write. Their contracts speak of the PlayerPrefs map only.
- `InputSettingsUI`: the widget null checks are not modelled; every widget is taken as assigned. The status and key-label texts are not modelled, and neither is the change-key button's click listener.
- `InputSettingsUI.SetDropdownValue` models the UGUI `Dropdown.value` setter: it ignores an equal value, clamps into the option range and notifies the listeners. `ClearOptions` resetting the value to 0 is modelled in `InitializeUI`. The option labels themselves are `ModeOptions`, not part of the panel state.

## Findings

| source | as written | input that shows it | evidently intended | confidence | as-written member | corrected member |
|---|---|---|---|---|---|---|
| Assets/Scripts/Animation/CharacterAnimation.cs:115-131 | `OnDisable` stops the activation coroutine but leaves `isActive` true and the target shown | disable the component during an activation, then enable it and give input: `OnPlayerInputReceived` returns early forever, and the target never hides | disabling should release the controller as `ForceStop` does | not executed | CharacterAnimation.DisableMidActivationLocksOut | CharacterAnimation.DisableThenInputActivates |
| Assets/Scripts/Animation/CharacterAnimationSP.cs:69-85 | `OnDisable` stops the playback coroutine but leaves `isPlaying` true | disable the component during playback, then enable it and give input: input is ignored forever | disabling should stop playback as `StopAnimation` does | not executed | CharacterAnimationSP.DisableMidPlaybackLocksOut | CharacterAnimationSP.DisableThenInputPlays |
| Assets/Scripts/Logic/InputSettingsUI.cs:36-67 | set-up fills the dropdown and attaches the listener but never sets the key controls' visibility, which only `OnInputModeChanged` does | a scene whose key controls start shown, with Touch stored: the change-key button stays visible in Touch mode until the player picks another option | set-up should show the key controls exactly in keyboard mode, as the mode-change handler does | not executed | InputSettingsUI.InitializeLeavesStaleKeyControls | InputSettingsUI.InitializeUISynced |
