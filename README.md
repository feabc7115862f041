# WhoBrokeTheSky: engine-independent logic, modelled in Dafny

WhoBrokeTheSky is a set of Unity game scripts. Almost all of it drives engine objects, such as
physics bodies, animators and UI widgets. This project models the three parts whose behaviour
does not depend on the engine, and proves what they promise:

- **Inventory** (`inventory.dfy`). `InventorySystem` from the GBG_Library utility file is an
  ordered list of `Item` references. Callers can append to it, remove the first occurrence of a
  reference (`List<T>.Remove`, which compares references because `Item` does not override
  `Equals`), and look up the first item that has a given name (`List<T>.Find`). The list accepts
  null entries. The lookup reads `Name` on every entry it passes, so a null entry met before the
  first match raises a NullReferenceException. The model returns that outcome as
  `Lookup.NullReference`.
- **Scene stepping** (`scenes.dfy`). `SceneUtility.LoadNextScene` and `LoadPreviousScene` reduce
  to a rule over the active build index and the number of scenes in the build. The result is the
  build index the engine is asked to load, or `None` when nothing is asked.
- **Time scale** (`timing.dfy`). `TimeUtility` keeps a static `timeScale`. In the model this is
  one `TimeUtility` object with that field. The getter of the `TimeScale` property is a read of
  the field.
- **Altar interaction** (`lobby.dfy`). The lobby's `Interaction` component and the part of
  `PlayerControllerLobby` it writes: the speed, and whether the altar menu text is active. The
  classes' methods are proved against `Step`, a pure transition function over
  `(triggered, speed, menuVisible)`. The lemmas about `Step` and `Run` (a sequence of callbacks)
  state the state machine's properties.

`wrappers.dfy` holds the `Option` type. The three engine inputs become parameters:
- whether T was released this frame;
- the collider's name;
- the collider's parent's name (`None` when it has no parent).

One place where the code and its documentation disagree: the comment on `ResumeGame` says it
restores the time scale from before the pause. The code sets it to 1. The model follows the code,
and `Timing.ResumeAfterSlowMotion` shows the difference.

## Model

| member | source | states |
|---|---|---|
| Inventory.Item.constructor | UnityProject/Assets/Scripts/GBG_Library/Utility.cs:598-614 | a new item carries the name, description and quantity it was given |
| Inventory.IndexOf | UnityProject/Assets/Scripts/GBG_Library/Utility.cs:641 | the index `List<T>.Remove` looks up: -1 exactly when the item is absent, otherwise a position holding it with no earlier occurrence |
| Inventory.RemoveFirst | UnityProject/Assets/Scripts/GBG_Library/Utility.cs:639-642 | the list after removal: unchanged when the item is absent, one shorter when present, and its multiset loses exactly one copy of the item |
| Inventory.RemoveFirstAt | UnityProject/Assets/Scripts/GBG_Library/Utility.cs:639-642 | when position k holds the item and no earlier position does, removal gives the list with exactly slot k cut out, everything else kept in order |
| Inventory.RemoveUndoesAppend | UnityProject/Assets/Scripts/GBG_Library/Utility.cs:630-642 | removing an item that was just appended, and was not in the list before, gives back the original list |
| Inventory.FindByName | UnityProject/Assets/Scripts/GBG_Library/Utility.cs:658-661 | the lookup returns an item with the name at position k only if every earlier entry is non-null and named differently; it raises on a null only if every earlier entry is non-null and named differently; it returns null only if no entry is null and none has the name |
| Inventory.FindByNameFirstMatch | UnityProject/Assets/Scripts/GBG_Library/Utility.cs:658-661 | when position k is the first match, with no null before it, the lookup returns exactly that item |
| Inventory.FindByNameAfterAppend | UnityProject/Assets/Scripts/GBG_Library/Utility.cs:630-633 | appending never changes an earlier lookup result; it can only turn "not found" into the appended item (or into the null-entry exception) |
| Inventory.InventorySystem.constructor | UnityProject/Assets/Scripts/GBG_Library/Utility.cs:621-624 | a new inventory is empty |
| Inventory.InventorySystem.AddItem | UnityProject/Assets/Scripts/GBG_Library/Utility.cs:630-633 | the item is appended after all earlier items, which keep their positions; no item's fields change |
| Inventory.InventorySystem.RemoveItem | UnityProject/Assets/Scripts/GBG_Library/Utility.cs:639-642 | the list becomes the old list with the first reference-equal entry removed; no item's fields change |
| Inventory.InventorySystem.GetAllItems | UnityProject/Assets/Scripts/GBG_Library/Utility.cs:648-651 | returns the stored entries, in insertion order |
| Inventory.InventorySystem.GetItemByName | UnityProject/Assets/Scripts/GBG_Library/Utility.cs:658-661 | the loop of `List<T>.Find` (scan front to back, stop at the first null or name match) returns exactly the lookup outcome specified above |
| Inventory.EqualFieldsDistinctItems | UnityProject/Assets/Scripts/GBG_Library/Utility.cs:630-661 | with two distinct items a and b of equal fields, added as a, b, a: removing a leaves exactly [b, a], so only the first a goes, and the lookup by their name returns b |
| Scenes.NextSceneToLoad | UnityProject/Assets/Scripts/GBG_Library/Utility.cs:39-47 | a load of index current+1 is requested exactly when current+1 is below the build's scene count; otherwise nothing is requested |
| Scenes.PreviousSceneToLoad | UnityProject/Assets/Scripts/GBG_Library/Utility.cs:52-60 | a load of index current-1 is requested exactly when current-1 is not negative; otherwise nothing is requested |
| Scenes.RequestsStayInBuild | UnityProject/Assets/Scripts/GBG_Library/Utility.cs:39-60 | from any index the engine reports (-1 up to count-1), every requested index is a valid build index |
| Scenes.NextThenPrevious | UnityProject/Assets/Scripts/GBG_Library/Utility.cs:39-60 | after a successful step forward, stepping back requests the starting scene |
| Scenes.PreviousThenNext | UnityProject/Assets/Scripts/GBG_Library/Utility.cs:39-60 | after a successful step back, stepping forward requests the starting scene |
| Scenes.NextCallsStopAtLastScene | UnityProject/Assets/Scripts/GBG_Library/Utility.cs:39-47 | from a build index or -1, n calls of LoadNextScene, each made after the previous load has completed, advance by n scenes and stop at the last scene of the build |
| Scenes.PreviousCallsStopAtFirstScene | UnityProject/Assets/Scripts/GBG_Library/Utility.cs:52-60 | from a build index, n calls of LoadPreviousScene, each made after the previous load has completed, go back by n scenes and stop at scene 0 |
| Timing.TimeUtility.constructor | UnityProject/Assets/Scripts/GBG_Library/Utility.cs:452 | the time scale starts at 1 |
| Timing.TimeUtility.SetTimeScale | UnityProject/Assets/Scripts/GBG_Library/Utility.cs:489-493 | the setter stores the given value |
| Timing.TimeUtility.PauseGame | UnityProject/Assets/Scripts/GBG_Library/Utility.cs:498-501 | the time scale becomes 0 |
| Timing.TimeUtility.ResumeGame | UnityProject/Assets/Scripts/GBG_Library/Utility.cs:506-509 | the time scale becomes exactly 1, whatever it was before |
| Timing.ResumeAfterSlowMotion | UnityProject/Assets/Scripts/GBG_Library/Utility.cs:503-509 | a scale other than 1 set before a pause is not restored by resuming: the result is 1 |
| Lobby.UpdateOutsideWalks | UnityProject/Assets/Scripts/Lobby/Player/PlayerControllerLobby.cs:42-43 | outside the trigger, a frame sets the speed to 5 whatever the key state, and changes nothing else |
| Lobby.ReleaseInsideToggles | UnityProject/Assets/Scripts/Lobby/Player/PlayerControllerLobby.cs:38-44 | inside the trigger, a T release sets a non-zero speed to 0 and a zero speed to 5; the flag and the menu stay as they were |
| Lobby.NoReleaseInsideKeepsState | UnityProject/Assets/Scripts/Lobby/Player/PlayerControllerLobby.cs:38-45 | inside the trigger, a frame without a T release changes nothing |
| Lobby.TwoReleasesRestoreSpeed | UnityProject/Assets/Scripts/Lobby/Player/PlayerControllerLobby.cs:38-44 | inside the trigger, two releases bring a speed of 0 or 5 back to its value: the release toggles |
| Lobby.StayEffect | UnityProject/Assets/Scripts/Lobby/Player/PlayerControllerLobby.cs:47-54 | a stay in the collider "TriggerAltare" under "Altare" sets the flag and shows the menu; any other stay changes nothing |
| Lobby.ExitEffect | UnityProject/Assets/Scripts/Lobby/Player/PlayerControllerLobby.cs:55-61 | an exit from that collider clears the flag and hides the menu; any other exit changes nothing |
| Lobby.RunSnoc | UnityProject/Assets/Scripts/Lobby/Player/PlayerControllerLobby.cs:37-61 | running a sequence of callbacks and then one more callback is the same as running the extended sequence |
| Lobby.TriggeredFollowsAltarEvents | UnityProject/Assets/Scripts/Lobby/Player/PlayerControllerLobby.cs:37-61 | after any sequence of callbacks, the flag is the one set by the last altar stay or exit: Update never changes it |
| Lobby.MenuTracksTrigger | UnityProject/Assets/Scripts/Lobby/Player/PlayerControllerLobby.cs:47-61 | once the menu's visibility equals the flag, every later callback keeps them equal |
| Lobby.SpeedIsStoppedOrWalking | UnityProject/Assets/Scripts/Lobby/Player/PlayerControllerLobby.cs:37-46 | from a speed of 0 or 5, including the start value 5, the speed stays 0 or 5 after any callbacks |
| Lobby.AwakeSpeedIsStoppedOrWalking | UnityProject/Assets/Scripts/Lobby/Player/PlayerControllerLobby.cs:11-46 | from the state both Awake methods leave (speed 5, flag cleared), the speed is 0 or 5 after any callbacks |
| Lobby.StoppedOnlyAtAltar | UnityProject/Assets/Scripts/Lobby/Player/PlayerControllerLobby.cs:37-46 | right after any frame, a speed of 0 means the player is inside the altar trigger |
| Lobby.PlayerControllerLobby.Awake | UnityProject/Assets/Scripts/Lobby/Player/PlayerControllerLobby.cs:11-13 | the speed starts at 5 |
| Lobby.Interaction.Awake | UnityProject/Assets/Scripts/Lobby/Player/PlayerControllerLobby.cs:34-36 | the flag starts cleared; once the controller's Awake has set the speed to 5, the state is the start state of the lemmas |
| Lobby.Interaction.Update | UnityProject/Assets/Scripts/Lobby/Player/PlayerControllerLobby.cs:37-46 | the new state is `Step` of the old one on a frame; it writes only the speed and leaves the flag alone |
| Lobby.Interaction.OnTriggerStay2D | UnityProject/Assets/Scripts/Lobby/Player/PlayerControllerLobby.cs:47-54 | the new state is `Step` on a stay; it reports the exception raised for a collider without a parent, in which case the state is unchanged |
| Lobby.Interaction.OnTriggerExit2D | UnityProject/Assets/Scripts/Lobby/Player/PlayerControllerLobby.cs:55-61 | the new state is `Step` on an exit; it has the same parentless-collider behaviour |
| Lobby.AltarVisit | UnityProject/Assets/Scripts/Lobby/Player/PlayerControllerLobby.cs:11-61 | a visit: enter the altar; a frame without a release keeps 5; three releases give 0, 5, 0; leaving while stopped keeps 0 until the next frame sets 5; the flag ends cleared |

## Left out

- `SaveSystem` and `DialogManager.LoadDialogData`: file I/O and engine deserialisation.
- `InputSystem`, `UIUtility`, `AnimationUtility`, `ParticleManager`: these only pass calls through to engine input, raycasts, text, animators and particles.
- `AudioUtility` fades: float interpolation driven by busy-wait loops on the engine clock.
- `TimeUtility.Time`, `RealTime`, `DeltaTime`, `UnscaledDeltaTime`: float reads of engine clocks.
- `MathUtility`, `MovementObject`, `AIController`: vector and physics maths on engine types, including `MoveTopDown`, which the lobby controller calls with its speed.
- `SceneUtility.LoadScene`, `SceneExists` and `GetScenePathByBuildIndex`: these depend on the build settings. The private path helper calls itself.
- `ActionTime`: coroutine-based delays over closures.
- Data-only and editor code: abilities, stats, dialog data, crafting items and recipes.
- `PlayerControllerLobby.Awake` component setup and the `Debug.Log` calls. The menu's text write is also left out. Only whether the menu text object is active is kept. Its value before the first altar event is whatever the scene set, and is a parameter.
- The `SidePlayer` platformer controller and `MenuManager`: float physics and scene plumbing.
- Item names are non-null strings. A null `Name`, and a null name passed to `GetItemByName`, are not modelled.
- `GetAllItems` returns the live `List<Item>` object in the source, so a caller can change the inventory through it. The model returns the sequence value, so this aliasing is not captured.
- Scenes.NextCallsStopAtLastScene and Scenes.PreviousCallsStopAtFirstScene: each call is assumed to run after the load the previous call asked for has completed. The source reads the active scene's index on every call, and the engine only switches scenes on a later frame, so several calls in one frame all ask for the same index. That case is not modelled.
- Build indices are unbounded integers. The engine only reports indices from -1 up to the scene count, so the 32-bit `+ 1` / `- 1` cannot wrap.
- Floats are reals. `speed` is an integer, because the code only writes 0 and 5.
- The engine decides the order of `Update` and trigger callbacks within a frame. The model takes any order as an event sequence.
- The `textCostellationMenu` field could be unassigned. The model assumes it is assigned in the scene.
