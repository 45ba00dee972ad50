# Phaser demo input and interaction core, in Dafny

This project models the input and interaction core of a small Phaser 3 top-down demo.

- **Device detector.** Decides whether on-screen touch controls are shown: a forced flag, a touch-capable browser, or a viewport narrower than 768 pixels.
- **On-screen controls.** A four-button D-pad plus an action button. Their layout, the pressed flag and texture of each button, the pointer handlers, and a one-frame "just pressed" pulse of the action button.
- **Input aggregator.** Merges the keyboard (arrows/WASD, SPACE/E) with the on-screen buttons by logical OR. It also derives a movement direction and its own action pulse.
- **Main scene.**
  - Picks what the player can interact with: the NPC wins over an uncollected chest.
  - Runs the dialog state machine: an E/SPACE press closes an open dialog, opens the NPC's, or collects the chest once.
  - Freezes movement while a dialog is open.
  - Sets the player's velocity from the held keys and stops or restarts the idle bob animation when movement starts or stops.

Modules follow the source tree:

| module | source |
|---|---|
| `Utils` | `src/utils/deviceDetector.js` |
| `UI` | `src/ui/VirtualControls.js` |
| `Input` | `src/input/PlayerInput.js` |
| `Scenes` | `src/scenes/MainScene.js` |

Helper modules:

- `Optional`: an option type, JavaScript's `x || default` for numbers, and destructuring defaults.
- `Controls`: the five controls and a record of five pressed flags.
- `Edge`: the rising-edge pulse over a run of frames.
- `Keyboard`: the ten keys and their bindings.

The stateful objects are classes whose methods change their fields:

- `UI.VirtualControls`:
  - its five sprite fields are kept as a map from control to sprite, where a missing entry is a sprite that is still `null`;
  - its five pressed flags are kept as one `ButtonStates` record.
- `Input.PlayerInput`.
- `Scenes.MainScene`: its Phaser objects are reduced to the flags the scene's logic depends on, namely dialog box visibility and text, chest tint, player velocity, and whether the idle tween plays.

Notable behaviour of the source:

- **One flag per button.** Each on-screen button has a single pressed flag that every pointer's down, up or out overwrites. So one of two pointers leaving a button releases it (`UI.SecondPointerDoesNotHold`).
- **Keys as a parameter.** `PlayerInput.update` reads the keyboard itself; here the set of held keys is its parameter.
- **Three touch signals.** Touch detection is the OR of three browser signals: `ontouchstart` on `window`, and a positive `navigator.maxTouchPoints` or `navigator.msMaxTouchPoints`.
- **Scene movement.** The main scene reads the keyboard directly and does not use the input aggregator. Its movement lets left beat right and up beat down, where the aggregator lets opposite directions cancel (`Scenes.MovingIffVelocity`).

## Model

| member | source | states |
|---|---|---|
| Optional.NumberOr | src/ui/VirtualControls.js:16-17 | a configured number is used unless it is missing or 0, in which case the default applies; a non-zero default never yields 0 |
| Controls.Merge | src/input/PlayerInput.js:63-68 | each merged control is held exactly when the keyboard or the on-screen button holds it |
| Controls.ButtonStates.With | src/ui/VirtualControls.js:112-183 | one handler's write: the named control takes the new value and every other control keeps its value |
| Controls.MergeWithReleased | src/input/PlayerInput.js:47-61 | with no on-screen controls attached (all flags false) the merged state is the keyboard state |
| Keyboard.KeyboardStates | src/input/PlayerInput.js:40-44 | a control is held exactly when one of its bound keys (arrow or WASD; SPACE or E for action) is held |
| Edge.Pulse | src/input/PlayerInput.js:71-72 | one frame's pulse, held now and not held before; `Edge.PulsesAt` proves it is what every frame of a run reports |
| Edge.Pulses | src/input/PlayerInput.js:70-73 | the per-frame pulse sequence has one entry per frame |
| Edge.PulsesAt | src/input/PlayerInput.js:70-73 | the pulse is raised on a frame exactly when the action is held on that frame and was not held on the previous one |
| Edge.NoConsecutivePulses | src/ui/VirtualControls.js:224-229 | the "just pressed" pulse never lasts two frames in a row |
| Edge.PulsesExample | src/ui/VirtualControls.js:224-229 | a concrete hold pattern gives pulses only on the release-to-press frames |
| Utils.DetectDevice | src/utils/deviceDetector.js:13-34 | touch capable iff `ontouchstart` exists or either touch-point count is positive; mobile iff width is below 768; controls shown iff forced, touch or mobile |
| Utils.ForceShowWins | src/utils/deviceDetector.js:27 | forcing shows the controls whatever the browser reports |
| Utils.ForceShowDefaultsToFalse | src/utils/deviceDetector.js:14 | leaving `forceShow` out behaves as `forceShow: false` |
| Utils.MissingCountsAreFalse | src/utils/deviceDetector.js:17-21 | a browser without touch-point counts is touch capable only through `ontouchstart` |
| Utils.DesktopDecidesByWidth | src/utils/deviceDetector.js:24-27 | without forcing and without touch, the controls are shown exactly below the 768 px breakpoint |
| Utils.NarrowerNeverHides | src/utils/deviceDetector.js:24-27 | shrinking the viewport never hides controls that were shown |
| Utils.BreakpointExamples | src/utils/deviceDetector.js:24 | 767 px is mobile, 768 px is not, and a forced 1024 px desktop shows the controls |
| UI.TextureKey | src/ui/VirtualControls.js:209-218 | the ten texture keys, normal and pressed, per button; `UI.TextureKeysDistinct` proves them pairwise distinct |
| UI.TextureKeysDistinct | src/ui/VirtualControls.js:209-218 | the ten texture keys are pairwise distinct, so a key names one button in one look |
| UI.Layout | src/ui/VirtualControls.js:49-94 | the five button centres; `UI.DpadIsCross`, `UI.DpadButtonsDisjoint`, `UI.ActionButtonInset` and `UI.DpadEdges` prove the geometry |
| UI.DpadIsCross | src/ui/VirtualControls.js:49-87 | up/down share a column and left/right a row, each pair two button sizes apart, crossing at their midpoints |
| UI.DpadButtonsDisjoint | src/ui/VirtualControls.js:49-87 | square D-pad buttons of the configured size never overlap |
| UI.ActionButtonInset | src/ui/VirtualControls.js:89-94 | the action button's right and bottom edges lie exactly one margin inside the game's edges |
| UI.DpadEdges | src/ui/VirtualControls.js:49-78 | the D-pad's left and bottom edges lie margin minus half a button inside the game's edges, which is 4 px outside with the defaults |
| UI.ApplyPointer | src/ui/VirtualControls.js:112-183 | a pointer-down sets the touched button's flag, an up or out clears it, and every other button keeps its flag |
| UI.ApplyPointers | src/ui/VirtualControls.js:109-184 | a button no event touches keeps its flag; `UI.PressedIffLastEventDown` gives the flag of every button after the run |
| UI.PressedIffLastEventDown | src/ui/VirtualControls.js:109-184 | after any run of pointer events a button is pressed iff the last event on it was a pointer-down, or none touched it and it was pressed before |
| UI.SecondPointerDoesNotHold | src/ui/VirtualControls.js:170-183 | two pointers down on a button and one leaving it leaves the button released |
| UI.VirtualControls.constructor | src/ui/VirtualControls.js:11-36 | visible defaults to true, size to 48 and margin to 20 (0 also takes the default); no sprites, nothing pressed, no pulse |
| UI.VirtualControls.Create | src/ui/VirtualControls.js:41-103 | all five sprites exist at their layout positions in their normal look, with the configured visibility, interactive |
| UI.VirtualControls.SetupTouchHandlers | src/ui/VirtualControls.js:109-183 | every sprite is made interactive and nothing else about it changes |
| UI.VirtualControls.PointerDown | src/ui/VirtualControls.js:112-183 | the button's flag is set, its sprite shows the pressed texture, every other button is unchanged, and the flag/texture agreement is kept |
| UI.VirtualControls.PointerUp | src/ui/VirtualControls.js:116-182 | the button's flag is cleared, its sprite shows the normal texture, every other button is unchanged, and the agreement is kept |
| UI.VirtualControls.PointerOut | src/ui/VirtualControls.js:120-183 | the same effect as pointer-up, whatever other pointers remain on the button |
| UI.VirtualControls.Update | src/ui/VirtualControls.js:224-229 | the action pulse is raised iff the action button is pressed now and was not at the last update, and the last value is recorded |
| UI.VirtualControls.GetButtonStates | src/ui/VirtualControls.js:235-243 | reports exactly the five pressed flags |
| UI.VirtualControls.IsActionJustPressed | src/ui/VirtualControls.js:249-251 | reports the action pulse |
| UI.VirtualControls.SetVisible | src/ui/VirtualControls.js:257-263 | every existing sprite gets the visibility, missing ones stay missing, flags and textures keep agreeing |
| UI.VirtualControls.Destroy | src/ui/VirtualControls.js:268-274 | every existing sprite is destroyed, missing ones stay missing (safe before create), flags and textures keep agreeing |
| Input.PlayerInput.constructor | src/input/PlayerInput.js:8-33 | attaches the given on-screen controls (or none) with every control released and no pulse |
| Input.PlayerInput.Update | src/input/PlayerInput.js:38-74 | each control becomes keyboard OR on-screen button; the on-screen controls advance their own pulse without changing their buttons; the action pulse is the rising edge of the merged action |
| Input.MergedActions | src/input/PlayerInput.js:44-68 | the merged action of each frame is SPACE or E held, or the on-screen action button pressed |
| Input.RunFrames | src/input/PlayerInput.js:70-73 | calling `update` once per frame, the action-pulse sequence reported is exactly `Edge.Pulses` of the merged actions from the remembered last state, so `Edge.NoConsecutivePulses` applies to it |
| Input.PlayerInput.GetMovementVector | src/input/PlayerInput.js:80-97 | each axis is -1, 0 or 1 with opposite controls cancelling; diagonal exactly when both axes move; the reported direction has squared length 0 or 1 |
| Input.PlayerInput.IsActionPressed | src/input/PlayerInput.js:103-105 | reports the merged action |
| Input.PlayerInput.IsActionJustPressed | src/input/PlayerInput.js:111-113 | reports the merged action pulse |
| Scenes.CheckProximity | src/scenes/MainScene.js:23-32 | a missing or inactive target is never near; otherwise near iff the distance is below the target's radius, 60 when it has none |
| Scenes.SquaredComparison | src/scenes/MainScene.js:26-31 | for a non-negative distance with square `sq`, distance below `r` holds exactly when `r > 0` and `sq < r * r`, which justifies the squared comparison of `Scenes.CheckProximity` |
| Scenes.DefaultRadiusBoundary | src/scenes/MainScene.js:31 | the default comparison is strict: 59 px is near and 60 px is not |
| Scenes.LargerRadiusStaysNear | src/scenes/MainScene.js:31 | enlarging the radius keeps every near target near |
| Scenes.SelectInteractable | src/scenes/MainScene.js:187-191 | the NPC iff near it; the chest iff not near the NPC but near an uncollected chest; nothing otherwise |
| Scenes.CollectedChestNeverSelected | src/scenes/MainScene.js:189 | a collected chest is never selected again |
| Scenes.IsMoving | src/scenes/MainScene.js:208-211 | moving iff some direction control is held through one of its keys |
| Scenes.SceneVelocity | src/scenes/MainScene.js:239-249 | x velocity is -160 iff left is held, +160 iff right but not left, 0 iff neither; likewise y with up and down |
| Scenes.MovingIffVelocity | src/scenes/MainScene.js:208-249 | the scene's player gets a non-zero velocity exactly when a movement key is held |
| Scenes.Interact | src/scenes/MainScene.js:69-94 | an open dialog only closes; closed with the NPC selected opens the NPC text; closed with an uncollected chest collects it and opens its text; otherwise nothing changes |
| Scenes.InteractCollectsOnce | src/scenes/MainScene.js:82-94 | a collected chest stays collected, and collection happens only from a closed dialog with an uncollected chest selected |
| Scenes.InteractTogglesNpcDialog | src/scenes/MainScene.js:69-80 | two presses next to the NPC open its dialog and close it again |
| Scenes.MainScene.constructor | src/scenes/MainScene.js:14-183 | after init and create the dialog is closed, nothing is selected, the player is still and not moving, and the scene invariant holds |
| Scenes.MainScene.Init | src/scenes/MainScene.js:14-20 | dialog closed, no interactable, not moving |
| Scenes.MainScene.Create | src/scenes/MainScene.js:110-183 | still player with the idle bob playing, hidden empty dialog box, uncollected untinted chest |
| Scenes.MainScene.ShowDialog | src/scenes/MainScene.js:55-60 | the text is shown in a visible dialog box, the dialog is open and the player stops |
| Scenes.MainScene.HideDialog | src/scenes/MainScene.js:63-66 | the dialog box is hidden and the dialog closed |
| Scenes.MainScene.CollectChest | src/scenes/MainScene.js:90-94 | the chest is collected and tinted and its dialog text is shown |
| Scenes.MainScene.HandleInteraction | src/scenes/MainScene.js:69-87 | the dialog state follows `Interact` on the selected interactable, the scene invariant is kept, and velocity changes only when a dialog opens |
| Scenes.MainScene.Update | src/scenes/MainScene.js:185-250 | the interactable is chosen from the chest state before the press; a press applies `Interact`; while the dialog is open movement state is untouched; otherwise velocity and `wasMoving` follow the held keys |
| Scenes.MainScene.Move | src/scenes/MainScene.js:204-249 | velocity follows the held keys, `wasMoving` records movement, and the idle bob plays exactly when not moving |

## Left out

- Rendering and Phaser objects: texture generation from SVG (`loadButtonTextures`, `svgToTexture`, the SVG sprite generators), scroll factor and depth, the dialog box container, world bounds, walls and colliders. Only the flags the logic reads are modelled.
- Tween objects: the idle bob is a boolean for "an idle tween is playing"; the NPC's bob has no logic and is left out.
- Physics: collisions and world bounds that change the player's velocity after `update` sets it are not modelled.
- Browser access: `window`, `navigator`, the keyboard and Phaser's `JustDown` are passed in as values (`BrowserSignals`, the set of held keys, booleans for proximity and for the interaction press).
- Concurrency and timing: pointer events between frames are a sequence applied in order; no asynchrony is modelled.
- Number types: configuration numbers, coordinates and radii are integers, so the source's floating-point values (including NaN) are not covered; sprite positions are exact reals.
- Input.PlayerInput.GetMovementVector: reports the diagonal case as a flag and proves the squared length of the normalised vector rather than computing `x / Math.sqrt(2)` in floating point.
- Scenes.CheckProximity: compares the squared integer distance with the squared radius instead of the floating-point square root against the radius.
- UI.VirtualControls.Create: the flag/texture agreement is promised only when no button is pressed on entry, since `create` resets every texture to the normal look without clearing the flags.
- The interaction press `JustDown(interactKey) || JustDown(spaceKey)` short-circuits, so when E is just down SPACE's just-down test is not consumed that frame and can fire the next; `Scenes.MainScene.Update` takes the press as one unconstrained boolean per frame, which covers that sequence without modelling it.
- `PlayerInput`'s `scene`, `cursors`, `wasd`, `spaceKey` and `eKey` fields hold Phaser key objects; their state is the set of held keys given to `Update`.
- `src/main.js`, the SVG and palette modules, `svgLoader`, `textureLoader` and the build configuration are not part of this model.
