# GameManager state controller, modelled in Dafny

This project models the game-state controller of a 2D action game's `GameManager`
component. The controller has three modes: `Gameplay`, `Paused` and `GameOver`.

- **State machine.** Pause and resume are guarded. `PauseGame` acts only outside
  `Paused`. It saves the current mode, freezes the global clock and shows the pause
  panel. `ResumeGame` acts only inside `Paused`. It returns to the saved mode,
  runs the clock again and hides the panel.
- **Per-frame dispatch.** `Update` runs once per frame. In `Gameplay` and `Paused`,
  an Escape key-down toggles between pausing and resuming. In `GameOver`, the first
  frame sets the `isGameOver` latch, freezes the clock and shows the results panel.
  Every later frame does nothing.
- **Results binder.** `AssignChosenWeaponsAndPassiveUI` binds the chosen weapon and
  passive-item icons to the results screen's image slots. It runs all-or-nothing on
  a length check, then updates each slot in place.

The project has three modules:

- `GameStates` (`game_states.dfy`) describes the controller as a value. It defines
  one function per operation, a `Step` over the events that can reach the
  controller (a frame with or without the key, and each public call), and `Run` over
  sequences of events. Its lemmas state the laws: the pause/resume round trip, the
  no-op guards, `previousState` never holding `Paused`, the one-shot latch, and
  `GameOver` being terminal under frames.
- `ResultsSlots` (`results_slots.dfy`) describes the slots. A slot is a record
  `(enabled, sprite)`. `BindSlot` binds one slot and `BindSlots` binds a list.
- `Game` (`game_manager.dfy`) holds the `GameManager` class itself. Its fields are
  updated in place. The two slot lists are arrays. The global time scale is a shared
  `Clock` object whose only states are frozen (scale 0) and running (scale 1). The
  static `instance` field lives in a `Registry` object. Each method's postcondition
  says its new state is the corresponding `GameStates` function applied to the old
  state. Every law proved in `GameStates` therefore holds of the object. The binder
  is two `while` loops with invariants, proved equal to `BindSlots`.

Three behaviours of the code are easy to misread; the model follows the code:

- `GameOver` is terminal only under `Update`. The public `PauseGame` checks only
  `currentState != Paused`, so it takes a finished game to `Paused` with
  `previousState = GameOver`. `ResumeGame` then returns to `GameOver` with the
  clock running. Lemma `GameStates.PauseLeavesGameOver` states this.
  `GameStates.RequestsKeepUnderlyingState` shows that the mode underneath such a
  pause is still `GameOver`.
- The binder compares the data lists with the slot lists' actual lengths, not with
  six. `new List<Image>(6)` only sets a capacity. The slot arrays may have any
  length.
- A slot whose icon is absent is disabled but keeps its old sprite. It shows
  nothing, so no stale icon is visible (`BoundSlotsShowIcons`).

## Model

| member | source | states |
|---|---|---|
| `GameStates.ChangeState` | Assets/Scripts/GameManager.cs:117-120 | raw assignment: the new current state is the argument; previous state, latch, clock and panels are untouched (no guard, nothing recorded) |
| `GameStates.PauseGame` | Assets/Scripts/GameManager.cs:91-101 | the result is always Paused; already Paused is a no-op; otherwise previous = old current, clock frozen, pause panel shown, latch and results panel untouched; keeps previous ≠ Paused and the underlying mode |
| `GameStates.ResumeGame` | Assets/Scripts/GameManager.cs:105-114 | not Paused is a no-op; from Paused the state becomes the saved previous state, clock runs, pause panel hidden, other fields untouched; when previous ≠ Paused, the result is never Paused |
| `GameStates.CheckForPauseAndResume` | Assets/Scripts/GameManager.cs:124-138 | without the key nothing changes; with it, when previous ≠ Paused, the result is Paused exactly when the input was not (a toggle); keeps previous ≠ Paused and the underlying mode |
| `GameStates.DisplayResults` | Assets/Scripts/GameManager.cs:152-155 | results panel shown, nothing else changes |
| `GameStates.DisableScreens` | Assets/Scripts/GameManager.cs:141-145 | both panels hidden, nothing else changes |
| `GameStates.SignalGameOver` | Assets/Scripts/GameManager.cs:147-150 | the state becomes GameOver and nothing else changes: the side effects are deferred to the next frame |
| `GameStates.Update` | Assets/Scripts/GameManager.cs:60-88 | in Gameplay with the key it is PauseGame, in Paused with the key ResumeGame, without the key a no-op; in GameOver it stays GameOver and sets the latch whatever the key; the first such frame freezes the clock and shows results; with the latch set it is a no-op |
| `GameStates.Step` | Assets/Scripts/GameManager.cs:60-150 | no event (frame or public call) stores Paused in previous state or clears the latch; a GameOver frame with the latch clear sets it, freezes the clock and shows results |
| `GameStates.PauseThenResume` | Assets/Scripts/GameManager.cs:91-114 | round trip: from any state other than Paused, pause then resume restores that state, runs the clock and hides the pause panel |
| `GameStates.EscapeTwiceFromGameplay` | Assets/Scripts/GameManager.cs:63-72 | in Gameplay an Escape frame is PauseGame, and a second Escape frame returns to Gameplay with the clock running |
| `GameStates.SignalThenTick` | Assets/Scripts/GameManager.cs:73-82 | a game-over signal with the latch clear is followed, on the next frame and whatever the key, by latch set, clock frozen and results shown |
| `GameStates.PauseLeavesGameOver` | Assets/Scripts/GameManager.cs:91-100 | PauseGame leaves GameOver for Paused (previous = GameOver), and the following resume returns to GameOver with the clock running |
| `GameStates.RunKeepsPreviousNotPaused` | Assets/Scripts/GameManager.cs:93-95 | over every sequence of frames and public calls, previous state is never Paused |
| `GameStates.ResultsRevealedAtMostOnce` | Assets/Scripts/GameManager.cs:75-81 | over every sequence of events, the game-over side effect fires at most once, and never once the latch is set; the latch is never cleared |
| `GameStates.GameOverTicks` | Assets/Scripts/GameManager.cs:73-82 | in GameOver, any non-empty run of frames with any keys ends as the first frame left it, still GameOver, latch set; the side effect fires exactly once if the latch was clear, otherwise never |
| `GameStates.RequestsKeepUnderlyingState` | Assets/Scripts/GameManager.cs:91-114 | any sequence of pause and resume requests keeps the mode a pause returns to; after a final resume the state is that mode |
| `ResultsSlots.BindSlot` | Assets/Scripts/GameManager.cs:180-191 | slot enabled iff the icon is present; its sprite becomes the icon when present and keeps its old value when absent; it shows exactly the icon |
| `ResultsSlots.BindSlots` | Assets/Scripts/GameManager.cs:178-192 | same length as the slots; each slot i is bound to icon i |
| `ResultsSlots.BoundSlotsShowIcons` | Assets/Scripts/GameManager.cs:178-209 | after binding, the slots show exactly the chosen icons in order, whatever they held before |
| `ResultsSlots.BindSlotsIdempotent` | Assets/Scripts/GameManager.cs:178-192 | binding the same icons twice equals binding them once |
| `Game.Clock.constructor` | Assets/Scripts/GameManager.cs:97-110 | the global time scale starts running (scale 1); frozen and running are the only two values the manager writes |
| `Game.Registry.constructor` | Assets/Scripts/GameManager.cs:8 | the static `instance` field starts null, so the first `Awake` registers itself |
| `Game.GameManager.constructor` | Assets/Scripts/GameManager.cs:18-42 | both state fields start at the enum default Gameplay and the latch is clear |
| `Game.GameManager.Awake` | Assets/Scripts/GameManager.cs:45-57 | the first instance registers itself and a later one leaves the registered instance unchanged; both panels are hidden |
| `Game.GameManager.Update` | Assets/Scripts/GameManager.cs:60-88 | the object's new state is `GameStates.Update` of its old state |
| `Game.GameManager.PauseGame` | Assets/Scripts/GameManager.cs:91-101 | the object's new state is `GameStates.PauseGame` of its old state |
| `Game.GameManager.ResumeGame` | Assets/Scripts/GameManager.cs:105-114 | the object's new state is `GameStates.ResumeGame` of its old state |
| `Game.GameManager.ChangeState` | Assets/Scripts/GameManager.cs:117-121 | the object's new state is `GameStates.ChangeState` of its old state |
| `Game.GameManager.CheckForPauseAndResume` | Assets/Scripts/GameManager.cs:124-138 | the object's new state is `GameStates.CheckForPauseAndResume` of its old state |
| `Game.GameManager.DisableScreens` | Assets/Scripts/GameManager.cs:141-145 | both panels hidden, nothing else changes |
| `Game.GameManager.GameOver` | Assets/Scripts/GameManager.cs:147-150 | the object's new state is `GameStates.SignalGameOver` of its old state |
| `Game.GameManager.DisplayResults` | Assets/Scripts/GameManager.cs:152-155 | results panel shown, nothing else changes |
| `Game.GameManager.AssignChosenWeaponsAndPassiveUI` | Assets/Scripts/GameManager.cs:169-210 | if either data list's length differs from its slot list's, no slot of either list changes; otherwise each slot list becomes `BindSlots` of its old contents and data, with lengths unchanged |

## Left out

- `AssignChosenCharacterUI` and `AssignLevelReachedUI` are not modelled. They copy a sprite and a name into widgets and format an integer as text, and have no logic to verify.
- The current-stat `Text` fields are not modelled. The component never uses them.
- `Debug.Log` and `Debug.LogWarning` calls are not modelled. They only log. The mismatch in the binder and the duplicate singleton are therefore silent no-ops in the model, as they are to callers.
- The `default` branch of `Update` is not modelled. It is reachable only through an out-of-range value cast into the enum, and the model's `GameState` has exactly the three members.
- Unity's `Input`, `Time`, `GameObject.SetActive`, `Image` and `Sprite` are abstracted. They become an Escape key-down argument, a frozen/running `Clock`, panel booleans, a slot record and an opaque sprite handle. Unity's "destroyed object is falsy" rule is not modelled; an absent sprite is `None`.
- Null references are not modelled: an unassigned panel, a null `Image` in a data list, or a null data list. Each would throw in the engine.
- Aliasing between `Image` objects is not modelled: the same image in both slot lists, or twice in one list. Slots are values in two distinct arrays.
- Inspector-assigned initial values of `currentState` and `previousState` are not modelled. The constructor uses the enum default. `RunKeepsPreviousNotPaused` therefore assumes `previousState` does not start as `Paused`.
- A duplicate `GameManager` is neither destroyed nor disabled, as in the code. The model records only that the first registration wins.
- `Assets/EnemyVomitScript.cs` is not part of this model. It covers projectile velocity and rotation, self-destruction, and damage on contact.
- `Assets/Scripts/Pick-ups/BobbingAnimation.cs` is not part of this model. It is a decorative sinusoidal float motion.
