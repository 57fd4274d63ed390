/** The game-state controller of GameManager as values: the three modes of play,
    the guarded pause and resume transitions, the Escape-key toggle, the per-tick
    dispatch with its one-shot game-over latch, and runs of these over sequences of
    events. The class in module Game is proved to follow these functions step by step. */
module GameStates {

  /** The three modes of play. */
  datatype GameState = Gameplay | Paused | GameOver

  /** Every field the state machine reads or writes.
      timeFrozen stands for the global Time.timeScale, which is only ever set to 0
      (frozen) or 1 (running); pauseScreen and resultsScreen are the active flags of
      the two panels. */
  datatype Controller = Controller(
    current: GameState,
    previous: GameState,
    isGameOver: bool,
    timeFrozen: bool,
    pauseScreen: bool,
    resultsScreen: bool)

  /** previousState is only written under the guard current != Paused, so from the
      default initial value on it never holds Paused. */
  predicate PreviousNotPaused(c: Controller) {
    c.previous != Paused
  }

  /** The mode a pause returns to: the current one, or the one saved by the pause. */
  function Underlying(c: Controller): GameState {
    if c.current == Paused then c.previous else c.current
  }

  /** Raw assignment of the current state, with no guard and no side effect. */
  function ChangeState(c: Controller, newState: GameState): (r: Controller)
    ensures r.current == newState
    ensures r.previous == c.previous && r.isGameOver == c.isGameOver
    ensures r.timeFrozen == c.timeFrozen
    ensures r.pauseScreen == c.pauseScreen && r.resultsScreen == c.resultsScreen
  {
    c.(current := newState)
  }

  /** Pause: a no-op when already paused; otherwise saves the current state, enters
      Paused, freezes the clock and shows the pause panel. */
  function PauseGame(c: Controller): (r: Controller)
    ensures r.current == Paused
    ensures c.current == Paused ==> r == c
    ensures c.current != Paused ==>
      r.previous == c.current && r.timeFrozen && r.pauseScreen
      && r.isGameOver == c.isGameOver && r.resultsScreen == c.resultsScreen
    ensures PreviousNotPaused(c) ==> PreviousNotPaused(r) && Underlying(r) == Underlying(c)
  {
    if c.current != Paused then
      ChangeState(c.(previous := c.current), Paused).(timeFrozen := true, pauseScreen := true)
    else
      c
  }

  /** Resume: a no-op unless paused; otherwise returns to the saved state, unfreezes
      the clock and hides the pause panel. */
  function ResumeGame(c: Controller): (r: Controller)
    ensures c.current != Paused ==> r == c
    ensures c.current == Paused ==>
      r.current == c.previous && r.previous == c.previous
      && !r.timeFrozen && !r.pauseScreen
      && r.isGameOver == c.isGameOver && r.resultsScreen == c.resultsScreen
    ensures PreviousNotPaused(c) ==>
      r.current != Paused && PreviousNotPaused(r) && Underlying(r) == Underlying(c)
  {
    if c.current == Paused then
      ChangeState(c, c.previous).(timeFrozen := false, pauseScreen := false)
    else
      c
  }

  /** The Escape key toggles between pausing and resuming; without it nothing happens. */
  function CheckForPauseAndResume(c: Controller, escapeDown: bool): (r: Controller)
    ensures !escapeDown ==> r == c
    ensures escapeDown && PreviousNotPaused(c) ==> (r.current == Paused <==> c.current != Paused)
    ensures PreviousNotPaused(c) ==> PreviousNotPaused(r) && Underlying(r) == Underlying(c)
  {
    if escapeDown then
      if c.current == Paused then ResumeGame(c) else PauseGame(c)
    else
      c
  }

  /** Shows the results panel. */
  function DisplayResults(c: Controller): (r: Controller)
    ensures r.resultsScreen
    ensures r.(resultsScreen := c.resultsScreen) == c
  {
    c.(resultsScreen := true)
  }

  /** Hides both panels, as Awake does at start-up. */
  function DisableScreens(c: Controller): (r: Controller)
    ensures !r.pauseScreen && !r.resultsScreen
    ensures r.(pauseScreen := c.pauseScreen, resultsScreen := c.resultsScreen) == c
  {
    c.(pauseScreen := false, resultsScreen := false)
  }

  /** The game-over signal only changes the mode; its side effects wait for the next tick. */
  function SignalGameOver(c: Controller): (r: Controller)
    ensures r.current == GameOver
    ensures r.(current := c.current) == c
  {
    ChangeState(c, GameOver)
  }

  /** The tick on which the one-shot game-over side effect fires. */
  predicate RevealsResults(c: Controller) {
    c.current == GameOver && !c.isGameOver
  }

  /** One frame: Gameplay and Paused poll the Escape key; GameOver ignores the key, and
      on its first tick only sets the latch, freezes the clock and shows the results. */
  function Update(c: Controller, escapeDown: bool): (r: Controller)
    ensures c.current == Gameplay ==> r == (if escapeDown then PauseGame(c) else c)
    ensures c.current == Paused ==> r == (if escapeDown then ResumeGame(c) else c)
    ensures c.current == GameOver ==>
      r.current == GameOver && r.isGameOver
      && r.previous == c.previous && r.pauseScreen == c.pauseScreen
    ensures c.current == GameOver && c.isGameOver ==> r == c
    ensures RevealsResults(c) ==> r.timeFrozen && r.resultsScreen
    ensures c.isGameOver ==> r.isGameOver
  {
    match c.current
    case Gameplay => CheckForPauseAndResume(c, escapeDown)
    case Paused => CheckForPauseAndResume(c, escapeDown)
    case GameOver =>
      if !c.isGameOver then
        DisplayResults(c.(isGameOver := true, timeFrozen := true))
      else
        c
  }

  /** Everything that can happen to the controller: a frame with or without an Escape
      key-down, and the public operations called from elsewhere in the game. */
  datatype Event =
    | Tick(escapeDown: bool)
    | PauseRequest
    | ResumeRequest
    | StateChange(newState: GameState)
    | GameOverSignal

  /** The effect of one event. */
  function Step(c: Controller, e: Event): (r: Controller)
    ensures PreviousNotPaused(c) ==> PreviousNotPaused(r)
    ensures c.isGameOver ==> r.isGameOver
    ensures e.Tick? && RevealsResults(c) ==> r.isGameOver && r.timeFrozen && r.resultsScreen
  {
    match e
    case Tick(k) => Update(c, k)
    case PauseRequest => PauseGame(c)
    case ResumeRequest => ResumeGame(c)
    case StateChange(s) => ChangeState(c, s)
    case GameOverSignal => SignalGameOver(c)
  }

  /** The state after a sequence of events. */
  function Run(c: Controller, es: seq<Event>): Controller
    decreases |es|
  {
    if es == [] then c else Run(Step(c, es[0]), es[1..])
  }

  /** How many ticks of a run fire the game-over side effect. */
  function RevealCount(c: Controller, es: seq<Event>): nat
    decreases |es|
  {
    if es == [] then 0
    else (if es[0].Tick? && RevealsResults(c) then 1 else 0) + RevealCount(Step(c, es[0]), es[1..])
  }

  predicate IsPauseOrResume(e: Event) {
    e.PauseRequest? || e.ResumeRequest?
  }

  /** Pausing from a state other than Paused and then resuming returns to that state,
      runs the clock and hides the pause panel; only previousState keeps the trace. */
  lemma PauseThenResume(c: Controller)
    requires c.current != Paused
    ensures ResumeGame(PauseGame(c))
      == c.(previous := c.current, timeFrozen := false, pauseScreen := false)
  {
  }

  /** Escape pressed on two frames in Gameplay pauses and then resumes. */
  lemma EscapeTwiceFromGameplay(c: Controller)
    requires c.current == Gameplay
    ensures Update(c, true) == PauseGame(c)
    ensures Update(Update(c, true), true)
      == c.(previous := Gameplay, timeFrozen := false, pauseScreen := false)
  {
  }

  /** A game-over signal is followed on the next frame by the side effect, whatever the key. */
  lemma SignalThenTick(c: Controller, escapeDown: bool)
    requires !c.isGameOver
    ensures var r := Update(SignalGameOver(c), escapeDown);
      r.current == GameOver && r.isGameOver && r.timeFrozen && r.resultsScreen
  {
  }

  /** PauseGame is public and guarded only against Paused, so it leaves GameOver; the
      matching resume returns to GameOver with the clock running again. */
  lemma PauseLeavesGameOver(c: Controller)
    requires c.current == GameOver
    ensures PauseGame(c).current == Paused && PauseGame(c).previous == GameOver
    ensures ResumeGame(PauseGame(c)).current == GameOver
    ensures !ResumeGame(PauseGame(c)).timeFrozen
  {
  }

  /** Run of a non-empty sequence, split at its last event. */
  lemma {:induction false} RunLast(c: Controller, es: seq<Event>)
    requires es != []
    ensures Run(c, es) == Step(Run(c, es[..|es| - 1]), es[|es| - 1])
    decreases |es|
  {
    if |es| == 1 {
      assert es[..0] == [];
    } else {
      RunLast(Step(c, es[0]), es[1..]);
      assert es[1..][..|es| - 2] == es[..|es| - 1][1..];
    }
  }

  /** No sequence of events, from any caller, ever stores Paused in previousState. */
  lemma {:induction false} RunKeepsPreviousNotPaused(c: Controller, es: seq<Event>)
    requires PreviousNotPaused(c)
    ensures PreviousNotPaused(Run(c, es))
    decreases |es|
  {
    if es != [] {
      RunKeepsPreviousNotPaused(Step(c, es[0]), es[1..]);
    }
  }

  /** The game-over side effect fires at most once over any sequence of events, and never
      again once the latch is set: nothing ever clears isGameOver. */
  lemma {:induction false} ResultsRevealedAtMostOnce(c: Controller, es: seq<Event>)
    ensures RevealCount(c, es) <= (if c.isGameOver then 0 else 1)
    ensures c.isGameOver ==> Run(c, es).isGameOver
    decreases |es|
  {
    if es != [] {
      ResultsRevealedAtMostOnce(Step(c, es[0]), es[1..]);
    }
  }

  /** In GameOver, any non-empty run of frames, whatever keys are pressed, ends where the
      first frame left it: still GameOver, latch set, clock frozen and results shown
      (when the first frame fired). The side effect fires exactly once if the latch was
      clear, and never otherwise. */
  lemma {:induction false} GameOverTicks(c: Controller, es: seq<Event>)
    requires c.current == GameOver
    requires es != [] && forall i :: 0 <= i < |es| ==> es[i].Tick?
    ensures Run(c, es) == Update(c, false)
    ensures Run(c, es).current == GameOver && Run(c, es).isGameOver
    ensures RevealCount(c, es) == (if c.isGameOver then 0 else 1)
    decreases |es|
  {
    var c' := Step(c, es[0]);
    assert c' == Update(c, false);
    if |es| > 1 {
      assert forall i :: 0 <= i < |es[1..]| ==> es[1..][i].Tick? by {
        forall i | 0 <= i < |es[1..]| ensures es[1..][i].Tick? {
          assert es[1..][i] == es[i + 1];
        }
      }
      GameOverTicks(c', es[1..]);
    }
  }

  /** Pause and resume requests, in any order and number, never change the mode that a
      pause returns to; after a final resume the controller is back in that mode. In
      particular a game that is over stays over underneath any pause. */
  lemma {:induction false} RequestsKeepUnderlyingState(c: Controller, es: seq<Event>)
    requires PreviousNotPaused(c)
    requires forall i :: 0 <= i < |es| ==> IsPauseOrResume(es[i])
    ensures PreviousNotPaused(Run(c, es)) && Underlying(Run(c, es)) == Underlying(c)
    ensures es != [] && es[|es| - 1].ResumeRequest? ==> Run(c, es).current == Underlying(c)
    decreases |es|
  {
    if es != [] {
      var rest := es[1..];
      assert forall i :: 0 <= i < |rest| ==> IsPauseOrResume(rest[i]) by {
        forall i | 0 <= i < |rest| ensures IsPauseOrResume(rest[i]) {
          assert rest[i] == es[i + 1];
        }
      }
      assert IsPauseOrResume(es[0]);
      RequestsKeepUnderlyingState(Step(c, es[0]), rest);
      if es[|es| - 1].ResumeRequest? {
        var front := es[..|es| - 1];
        assert forall i :: 0 <= i < |front| ==> IsPauseOrResume(front[i]) by {
          forall i | 0 <= i < |front| ensures IsPauseOrResume(front[i]) {
            assert front[i] == es[i];
          }
        }
        RequestsKeepUnderlyingState(c, front);
        RunLast(c, es);
      }
    }
  }
}
