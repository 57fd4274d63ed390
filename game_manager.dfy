/** The GameManager component itself: an object whose methods update its fields, the
    global clock and the results-screen slots in place. Each method is proved to move
    the object exactly as the matching function of module GameStates moves a
    Controller value, so every law proved there holds of the object. */
module Game {
  import opened GameStates
  import opened ResultsSlots

  /** The engine's global time scale, shared by every behaviour in the scene. The game
      manager only ever writes 0 (frozen) or 1 (running) to it. */
  class Clock {
    var frozen: bool

    /** The engine starts with a time scale of 1. */
    constructor ()
      ensures !frozen
    {
      frozen := false;
    }
  }

  /** Holder of the static GameManager.instance field. */
  class Registry {
    var instance: GameManager?

    constructor ()
      ensures instance == null
    {
      instance := null;
    }
  }

  class GameManager {
    var currentState: GameState
    var previousState: GameState
    var isGameOver: bool
    var pauseScreenActive: bool
    var resultsScreenActive: bool
    const clock: Clock
    const chosenWeaponsUI: array<Slot>
    const chosenPassiveItemsUI: array<Slot>

    /** The two slot lists are distinct lists. */
    predicate Valid() {
      chosenWeaponsUI != chosenPassiveItemsUI
    }

    /** The state-machine fields as a value. */
    function Snapshot(): Controller
      reads this, clock
    {
      Controller(currentState, previousState, isGameOver, clock.frozen,
                 pauseScreenActive, resultsScreenActive)
    }

    /** Field initialisers: both state fields hold the enum's first member and the latch
        is clear; the panels start as the scene was authored. */
    constructor (clock: Clock, weaponsUI: array<Slot>, passiveUI: array<Slot>,
                 pauseScreenActive: bool, resultsScreenActive: bool)
      requires weaponsUI != passiveUI
      ensures Valid()
      ensures this.clock == clock
      ensures chosenWeaponsUI == weaponsUI && chosenPassiveItemsUI == passiveUI
      ensures currentState == Gameplay && previousState == Gameplay && !isGameOver
      ensures this.pauseScreenActive == pauseScreenActive
      ensures this.resultsScreenActive == resultsScreenActive
    {
      this.clock := clock;
      chosenWeaponsUI := weaponsUI;
      chosenPassiveItemsUI := passiveUI;
      currentState := Gameplay;
      previousState := Gameplay;
      isGameOver := false;
      this.pauseScreenActive := pauseScreenActive;
      this.resultsScreenActive := resultsScreenActive;
    }

    /** Registers the first instance (a later one only leaves a warning) and hides both
        panels. */
    method Awake(registry: Registry)
      modifies registry, this
      ensures registry.instance == if old(registry.instance) == null then this else old(registry.instance)
      ensures Snapshot() == GameStates.DisableScreens(old(Snapshot()))
    {
      if registry.instance == null {
        registry.instance := this;
      }
      DisableScreens();
    }

    /** One frame, with escapeDown telling whether the Escape key went down this frame. */
    method Update(escapeDown: bool)
      modifies this, clock
      ensures Snapshot() == GameStates.Update(old(Snapshot()), escapeDown)
    {
      match currentState
      case Gameplay =>
        CheckForPauseAndResume(escapeDown);
      case Paused =>
        CheckForPauseAndResume(escapeDown);
      case GameOver =>
        if !isGameOver {
          isGameOver := true;
          clock.frozen := true;
          DisplayResults();
        }
    }

    method PauseGame()
      modifies this, clock
      ensures Snapshot() == GameStates.PauseGame(old(Snapshot()))
    {
      if currentState != Paused {
        previousState := currentState;
        ChangeState(Paused);
        clock.frozen := true;
        pauseScreenActive := true;
      }
    }

    method ResumeGame()
      modifies this, clock
      ensures Snapshot() == GameStates.ResumeGame(old(Snapshot()))
    {
      if currentState == Paused {
        ChangeState(previousState);
        clock.frozen := false;
        pauseScreenActive := false;
      }
    }

    method ChangeState(newState: GameState)
      modifies this
      ensures Snapshot() == GameStates.ChangeState(old(Snapshot()), newState)
    {
      currentState := newState;
    }

    method CheckForPauseAndResume(escapeDown: bool)
      modifies this, clock
      ensures Snapshot() == GameStates.CheckForPauseAndResume(old(Snapshot()), escapeDown)
    {
      if escapeDown {
        if currentState == Paused {
          ResumeGame();
        } else {
          PauseGame();
        }
      }
    }

    method DisableScreens()
      modifies this
      ensures Snapshot() == GameStates.DisableScreens(old(Snapshot()))
    {
      pauseScreenActive := false;
      resultsScreenActive := false;
    }

    method GameOver()
      modifies this
      ensures Snapshot() == SignalGameOver(old(Snapshot()))
    {
      ChangeState(GameState.GameOver);
    }

    method DisplayResults()
      modifies this
      ensures Snapshot() == GameStates.DisplayResults(old(Snapshot()))
    {
      resultsScreenActive := true;
    }

    /** Binds the chosen weapon and passive-item icons to the results-screen slots. If
        either list's length differs from its slot list's, nothing changes; otherwise
        both slot lists are bound index by index. */
    method AssignChosenWeaponsAndPassiveUI(chosenWeaponsData: seq<Option<Sprite>>,
                                           chosenPassiveItemsData: seq<Option<Sprite>>)
      requires Valid()
      modifies chosenWeaponsUI, chosenPassiveItemsUI
      ensures |chosenWeaponsData| != chosenWeaponsUI.Length
              || |chosenPassiveItemsData| != chosenPassiveItemsUI.Length ==>
        chosenWeaponsUI[..] == old(chosenWeaponsUI[..])
        && chosenPassiveItemsUI[..] == old(chosenPassiveItemsUI[..])
      ensures |chosenWeaponsData| == chosenWeaponsUI.Length
              && |chosenPassiveItemsData| == chosenPassiveItemsUI.Length ==>
        chosenWeaponsUI[..] == BindSlots(old(chosenWeaponsUI[..]), chosenWeaponsData)
        && chosenPassiveItemsUI[..] == BindSlots(old(chosenPassiveItemsUI[..]), chosenPassiveItemsData)
    {
      if |chosenWeaponsData| != chosenWeaponsUI.Length
         || |chosenPassiveItemsData| != chosenPassiveItemsUI.Length {
        return;
      }

      var i := 0;
      while i < chosenWeaponsUI.Length
        invariant 0 <= i <= chosenWeaponsUI.Length
        invariant forall k :: 0 <= k < i ==>
          chosenWeaponsUI[k] == BindSlot(old(chosenWeaponsUI[k]), chosenWeaponsData[k])
        invariant forall k :: i <= k < chosenWeaponsUI.Length ==>
          chosenWeaponsUI[k] == old(chosenWeaponsUI[k])
        invariant chosenPassiveItemsUI[..] == old(chosenPassiveItemsUI[..])
      {
        if chosenWeaponsData[i].Some? {
          chosenWeaponsUI[i] := chosenWeaponsUI[i].(enabled := true);
          chosenWeaponsUI[i] := chosenWeaponsUI[i].(sprite := chosenWeaponsData[i]);
        } else {
          chosenWeaponsUI[i] := chosenWeaponsUI[i].(enabled := false);
        }
        i := i + 1;
      }

      i := 0;
      while i < chosenPassiveItemsUI.Length
        invariant 0 <= i <= chosenPassiveItemsUI.Length
        invariant forall k :: 0 <= k < i ==>
          chosenPassiveItemsUI[k] == BindSlot(old(chosenPassiveItemsUI[k]), chosenPassiveItemsData[k])
        invariant forall k :: i <= k < chosenPassiveItemsUI.Length ==>
          chosenPassiveItemsUI[k] == old(chosenPassiveItemsUI[k])
        invariant chosenWeaponsUI[..] == BindSlots(old(chosenWeaponsUI[..]), chosenWeaponsData)
      {
        if chosenPassiveItemsData[i].Some? {
          chosenPassiveItemsUI[i] := chosenPassiveItemsUI[i].(enabled := true);
          chosenPassiveItemsUI[i] := chosenPassiveItemsUI[i].(sprite := chosenPassiveItemsData[i]);
        } else {
          chosenPassiveItemsUI[i] := chosenPassiveItemsUI[i].(enabled := false);
        }
        i := i + 1;
      }
    }
  }
}
