/** The run/pause state machine behind the six native game entry points.

    The native side keeps four process globals: a running flag, a paused flag
    and the player's two coordinates. Every entry point reads and writes them
    with no synchronisation and no error reporting. Here the globals become one
    immutable record and each entry point becomes a pure transition on it.

    The coordinates are single-precision floats in the native code. They only
    ever hold whole numbers between 0 and 801: they are set to 100 and 200,
    incremented by one and reset to zero. Every such value is exact in single
    precision, so the coordinates are modelled as integers.
 */
module Game {

  /** The four globals: isGameRunning, isGamePaused, playerX, playerY. */
  datatype State = State(running: bool, paused: bool, playerX: int, playerY: int)

  /** The six entry points a host may call, in any order. */
  datatype Op = Init | Update | Start | Pause | Resume | Stop

  /** Once playerX goes past this bound, update resets it to zero. */
  const WrapBound: int := 800

  /** The coordinates that initGame places the player at. */
  const StartX: int := 100
  const StartY: int := 200

  /** The globals as the process starts: stopped, unpaused, at the origin.
      That start already satisfies the invariant and reads as phase Stopped. */
  function Initial(): (t: State)
    ensures Valid(t) && PhaseOf(t) == Stopped
    ensures t.playerX == 0 && t.playerY == 0
  {
    State(false, false, 0, 0)
  }

  /** The invariant the entry points keep: the game is only ever paused while
      it is running, and the player's x coordinate stays in [0, WrapBound]. */
  predicate Valid(s: State) {
    && (s.paused ==> s.running)
    && 0 <= s.playerX <= WrapBound
  }

  /** initGame: places the player and starts the game unpaused, whatever came before. */
  function InitGame(s: State): (t: State)
    ensures t.running && !t.paused
    ensures t.playerX == StartX && t.playerY == StartY
  {
    State(true, false, StartX, StartY)
  }

  /** updateGame: while running, moves the player one step along x and wraps
      past the bound back to zero. It checks only the running flag: a paused
      game still moves. */
  function UpdateGame(s: State): (t: State)
    ensures !s.running ==> t == s
    ensures t.running == s.running && t.paused == s.paused && t.playerY == s.playerY
    ensures s.running && s.playerX < WrapBound ==> t.playerX == s.playerX + 1
    ensures s.running && s.playerX >= WrapBound ==> t.playerX == 0
  {
    if s.running then
      var x := s.playerX + 1;
      s.(playerX := if x > WrapBound then 0 else x)
    else
      s
  }

  /** startGame: raises the running flag. It leaves the paused flag alone, so
      starting a paused game keeps it paused. */
  function StartGame(s: State): (t: State)
    ensures t.running
    ensures t.paused == s.paused && t.playerX == s.playerX && t.playerY == s.playerY
    ensures t == s <==> s.running
  {
    s.(running := true)
  }

  /** pauseGame: pauses a running, unpaused game; any other call is ignored. */
  function PauseGame(s: State): (t: State)
    ensures t.paused == (s.paused || s.running)
    ensures t.running == s.running && t.playerX == s.playerX && t.playerY == s.playerY
    ensures t == s <==> !(s.running && !s.paused)
  {
    if s.running && !s.paused then s.(paused := true) else s
  }

  /** resumeGame: unpauses a running, paused game; any other call is ignored. */
  function ResumeGame(s: State): (t: State)
    ensures t.paused == (s.paused && !s.running)
    ensures t.running == s.running && t.playerX == s.playerX && t.playerY == s.playerY
    ensures t == s <==> !(s.running && s.paused)
  {
    if s.running && s.paused then s.(paused := false) else s
  }

  /** stopGame: clears both flags unconditionally; the coordinates stay where they are. */
  function StopGame(s: State): (t: State)
    ensures !t.running && !t.paused
    ensures t.playerX == s.playerX && t.playerY == s.playerY
  {
    s.(running := false, paused := false)
  }

  /** One call of an entry point. */
  function Step(s: State, op: Op): (t: State)
    ensures op != Init ==> t.playerY == s.playerY
    ensures op != Init && op != Update ==> t.playerX == s.playerX
    ensures Valid(s) ==> Valid(t)
  {
    match op
    case Init => InitGame(s)
    case Update => UpdateGame(s)
    case Start => StartGame(s)
    case Pause => PauseGame(s)
    case Resume => ResumeGame(s)
    case Stop => StopGame(s)
  }

  /** A sequence of entry-point calls, made one after another. Each call
      keeps Valid, so the whole sequence does. */
  function Run(s: State, ops: seq<Op>): (t: State)
    ensures Valid(s) ==> Valid(t)
    decreases |ops|
  {
    if |ops| == 0 then s else Run(Step(s, ops[0]), ops[1..])
  }

  /** n calls of the same entry point. */
  function Repeat(op: Op, n: nat): (ops: seq<Op>)
    ensures |ops| == n
    ensures forall i :: 0 <= i < n ==> ops[i] == op
  {
    seq(n, _ => op)
  }

  // ---------------------------------------------------------------------------
  // The invariant over arbitrary call sequences
  // ---------------------------------------------------------------------------

  /** Every state reachable from the initial globals is Valid: never paused
      while stopped, and playerX within [0, 800]. */
  lemma ReachableValid(ops: seq<Op>)
    ensures Run(Initial(), ops).paused ==> Run(Initial(), ops).running
    ensures 0 <= Run(Initial(), ops).playerX <= WrapBound
  {
  }

  /** Running two call sequences back to back is running their concatenation. */
  lemma {:induction false} RunAppend(s: State, a: seq<Op>, b: seq<Op>)
    ensures Run(s, a + b) == Run(Run(s, a), b)
    decreases |a|
  {
    if |a| == 0 {
      assert a + b == b;
    } else {
      assert (a + b)[1..] == a[1..] + b;
      RunAppend(Step(s, a[0]), a[1..], b);
    }
  }

  /** Only initGame moves the player vertically: a call sequence without it
      leaves playerY where it was. */
  lemma {:induction false} PlayerYOnlySetByInit(s: State, ops: seq<Op>)
    requires Init !in ops
    ensures Run(s, ops).playerY == s.playerY
    decreases |ops|
  {
    if |ops| > 0 {
      assert ops[0] in ops;
      assert forall i :: 0 <= i < |ops[1..]| ==> ops[1..][i] == ops[i + 1];
      PlayerYOnlySetByInit(Step(s, ops[0]), ops[1..]);
    }
  }

  // ---------------------------------------------------------------------------
  // Movement
  // ---------------------------------------------------------------------------

  /** The movement rule as a reference: from any position in [0, 800], one
      update of a running game moves to the next position modulo 801. */
  lemma UpdateIsSuccessorModulo(s: State)
    requires s.running && 0 <= s.playerX <= WrapBound
    ensures UpdateGame(s).playerX == (s.playerX + 1) % (WrapBound + 1)
  {
  }

  /** n updates of a running game, from a position in [0, 800], move the
      player n steps around the cycle 0, 1, ..., 800, 0, ... and change
      nothing else. */
  lemma {:induction false} UpdatesAdvanceModulo(s: State, n: nat)
    requires s.running && 0 <= s.playerX <= WrapBound
    ensures Run(s, Repeat(Update, n)) == s.(playerX := (s.playerX + n) % (WrapBound + 1))
    decreases n
  {
    if n == 0 {
      assert s.playerX % (WrapBound + 1) == s.playerX;
    } else {
      var u := UpdateGame(s);
      assert Repeat(Update, n) == [Update] + Repeat(Update, n - 1);
      assert Run(s, Repeat(Update, n)) == Run(u, Repeat(Update, n - 1));
      UpdatesAdvanceModulo(u, n - 1);
      if s.playerX < WrapBound {
        assert u.playerX == s.playerX + 1;
      } else {
        assert u.playerX == 0;
        assert (s.playerX + n) == (n - 1) + (WrapBound + 1);
      }
    }
  }

  /** Starting from a position in [0, 800], updates of a running game
      increase playerX one step at a time until it reaches 800, and the next
      update brings it back to zero. */
  lemma UpdatesIncreaseUntilWrap(s: State, n: nat)
    requires s.running && 0 <= s.playerX <= WrapBound
    ensures n <= WrapBound - s.playerX ==> Run(s, Repeat(Update, n)).playerX == s.playerX + n
    ensures n == WrapBound + 1 - s.playerX ==> Run(s, Repeat(Update, n)).playerX == 0
  {
    UpdatesAdvanceModulo(s, n);
  }

  /** updateGame does not consult the paused flag: a paused game moves exactly
      as the same game unpaused would. */
  lemma UpdateIgnoresPaused(s: State, b: bool)
    ensures UpdateGame(s.(paused := b)) == UpdateGame(s).(paused := b)
  {
  }

  /** The host's start-up sequence, initGame followed by one updateGame,
      leaves the player at (101, 200) in a running, unpaused game. */
  lemma StartupScenario(s: State)
    ensures Run(s, [Init, Update]) == State(true, false, StartX + 1, StartY)
  {
  }

  /** Whatever calls came before, initGame followed by updateGame ends in the
      same state: running, unpaused, at (101, 200). */
  lemma StartupAfterAnyHistory(s: State, history: seq<Op>)
    ensures Run(s, history + [Init, Update]) == State(true, false, StartX + 1, StartY)
  {
    RunAppend(s, history, [Init, Update]);
    StartupScenario(Run(s, history));
  }

  // ---------------------------------------------------------------------------
  // Round trips and idempotence of the flag entry points
  // ---------------------------------------------------------------------------

  /** Pausing a running game and resuming it gives back the same state;
      resuming a paused game and pausing it again does too. */
  lemma PauseResumeRoundTrip(s: State)
    ensures s.running && !s.paused ==> ResumeGame(PauseGame(s)) == s
    ensures s.running && s.paused ==> PauseGame(ResumeGame(s)) == s
  {
  }

  /** A second call of start, pause, resume or stop changes nothing more. */
  lemma FlagCallsIdempotent(s: State)
    ensures StartGame(StartGame(s)) == StartGame(s)
    ensures PauseGame(PauseGame(s)) == PauseGame(s)
    ensures ResumeGame(ResumeGame(s)) == ResumeGame(s)
    ensures StopGame(StopGame(s)) == StopGame(s)
  {
  }

  /** initGame forgets everything: two games differ in nothing after it. */
  lemma InitForgetsHistory(s: State, s': State)
    ensures InitGame(s) == InitGame(s')
  {
  }

  // ---------------------------------------------------------------------------
  // The three-phase reference machine
  // ---------------------------------------------------------------------------

  /** The flags read as one of three phases. */
  datatype Phase = Stopped | Running | Paused

  function PhaseOf(s: State): Phase {
    if !s.running then Stopped else if s.paused then Paused else Running
  }

  /** The guarded transitions written directly on phases: start only leaves
      Stopped, pause only leaves Running, resume only leaves Paused, stop
      always ends Stopped, init always ends Running, update keeps the phase. */
  function PhaseStep(p: Phase, op: Op): Phase {
    match op
    case Init => Running
    case Update => p
    case Start => if p == Stopped then Running else p
    case Pause => if p == Running then Paused else p
    case Resume => if p == Paused then Running else p
    case Stop => Stopped
  }

  function PhaseRun(p: Phase, ops: seq<Op>): Phase
    decreases |ops|
  {
    if |ops| == 0 then p else PhaseRun(PhaseStep(p, ops[0]), ops[1..])
  }

  /** On states where paused implies running, every entry point moves the
      flags exactly as the phase machine moves the phase. */
  lemma StepRefinesPhase(s: State, op: Op)
    requires s.paused ==> s.running
    ensures PhaseOf(Step(s, op)) == PhaseStep(PhaseOf(s), op)
  {
  }

  /** The invariant is needed: from the flag combination stopped-but-paused,
      which no call sequence reaches, startGame lands in Paused while the
      phase machine would go to Running. */
  lemma StartFromInvalidFlagsDiverges()
    ensures PhaseOf(StartGame(State(false, true, 0, 0))) != PhaseStep(PhaseOf(State(false, true, 0, 0)), Start)
  {
  }

  /** Over any call sequence from a state where paused implies running, the
      flags follow the phase machine. */
  lemma {:induction false} RunRefinesPhase(s: State, ops: seq<Op>)
    requires s.paused ==> s.running
    ensures PhaseOf(Run(s, ops)) == PhaseRun(PhaseOf(s), ops)
    decreases |ops|
  {
    if |ops| > 0 {
      var t := Step(s, ops[0]);
      StepRefinesPhase(s, ops[0]);
      assert t.paused ==> t.running;
      RunRefinesPhase(t, ops[1..]);
    }
  }

  /** From the initial globals the flags follow the phase machine from Stopped. */
  lemma ReachablePhase(ops: seq<Op>)
    ensures PhaseOf(Run(Initial(), ops)) == PhaseRun(Stopped, ops)
  {
    RunRefinesPhase(Initial(), ops);
  }
}
