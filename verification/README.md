# A verified model of the game skeleton's state and math core

This project models the three self-contained pieces of a small Android game skeleton in Dafny:

- **Game** (`game.dfy`): the run/pause state machine behind the native entry points `initGame`, `updateGame`, `startGame`, `pauseGame`, `resumeGame` and `stopGame`. The four process globals (`isGameRunning`, `isGamePaused`, `playerX`, `playerY`) become an immutable `State` record. Each entry point becomes a pure transition, and `Run` replays any sequence of calls. Two reference definitions are proved against the transitions:
  - a three-phase machine `{Stopped, Running, Paused}`;
  - movement modulo 801.
  The model reproduces the code's quirks:
  - `updateGame` looks only at the running flag, so a paused game still moves;
  - `startGame` leaves the paused flag alone;
  - invalid pause and resume calls are silently ignored.
- **Utility** (`utility.dfy`): `clamp` and the two builders that fill a 16-entry column-major matrix buffer. These are `buildIdentityMatrix` and `buildOrthographicMatrix`. A buffer is a `seq<real>`. A builder overwrites entries 0..15 and leaves any later entries as they were. The array methods `BuildIdentityInto` and `BuildOrthographicInto` write in place and return the same buffer, like the native pointer-returning functions.
- **Puzzle** (`puzzle.dfy`): the `Puzzle` class. Its whole state is one private flag, and its interface is the constructor, `solve` and the const `isSolved`. Call sequences are replayed over that interface.

The coordinates are `float` in the native code. They only ever hold the whole numbers 0..801, which single precision represents exactly, so they are modelled as `int`. `clamp` and the matrix entries are modelled over `real`.

## Model

| member | source | states |
|---|---|---|
| Game.Initial | app/src/main/cpp/Game.cpp:9-12 | the starting globals are stopped, unpaused, at the origin; they satisfy the invariant and read as phase Stopped |
| Game.InitGame | app/src/main/cpp/Game.cpp:15-22 | whatever the prior state: running, not paused, player at (100, 200) |
| Game.UpdateGame | app/src/main/cpp/Game.cpp:25-34 | not running: nothing changes; running: playerX below 800 goes up by one and playerX of 800 or more goes to 0; the flags and playerY never change |
| Game.StartGame | app/src/main/cpp/Game.cpp:36-40 | running afterwards; paused flag and both coordinates unchanged; the call changes nothing exactly when the game was already running |
| Game.PauseGame | app/src/main/cpp/Game.cpp:43-50 | paused afterwards iff it was paused or running; running flag and coordinates unchanged; the state is unchanged exactly when not (running and not paused) |
| Game.ResumeGame | app/src/main/cpp/Game.cpp:52-59 | paused afterwards iff it was paused and not running; running flag and coordinates unchanged; the state is unchanged exactly when not (running and paused) |
| Game.StopGame | app/src/main/cpp/Game.cpp:61-67 | both flags false whatever the prior state; both coordinates unchanged |
| Game.Step | app/src/main/cpp/Game.cpp:16-67 | only init moves playerY; only init and update move playerX; each entry point preserves "paused implies running, 0 <= playerX <= 800" |
| Game.Run | app/src/main/cpp/Game.cpp:9-67 | any call sequence from a valid state ends in a valid state |
| Game.ReachableValid | app/src/main/cpp/Game.cpp:9-67 | after any call sequence from the initial globals, paused implies running and playerX is in [0, 800] |
| Game.PlayerYOnlySetByInit | app/src/main/cpp/Game.cpp:16-22 | a call sequence without initGame leaves playerY unchanged |
| Game.UpdateIsSuccessorModulo | app/src/main/cpp/Game.cpp:29-30 | from playerX in [0, 800], one update of a running game gives (playerX + 1) mod 801 |
| Game.UpdatesAdvanceModulo | app/src/main/cpp/Game.cpp:26-34 | n updates of a running game move playerX to (playerX + n) mod 801 and change nothing else |
| Game.UpdatesIncreaseUntilWrap | app/src/main/cpp/Game.cpp:29-30 | repeated updates raise playerX by exactly one per call until it reaches 800; the next update brings it to 0 |
| Game.UpdateIgnoresPaused | app/src/main/cpp/Game.cpp:27 | update does not consult the paused flag: paused and unpaused games move the same way |
| Game.StartupScenario | app/src/main/java/com/example/firstgame/MainActivity.java:34-35 | initGame followed by updateGame ends running, unpaused, at (101, 200), from any state |
| Game.StartupAfterAnyHistory | app/src/main/java/com/example/firstgame/MainActivity.java:34-35 | after any earlier call history, initGame then updateGame ends in the same state: running, unpaused, at (101, 200) |
| Game.PauseResumeRoundTrip | app/src/main/cpp/Game.cpp:45-59 | pause then resume of a running game restores the state; so does resume then pause of a paused game |
| Game.FlagCallsIdempotent | app/src/main/cpp/Game.cpp:37-67 | a second start, pause, resume or stop changes nothing |
| Game.InitForgetsHistory | app/src/main/cpp/Game.cpp:16-22 | initGame's result does not depend on the prior state |
| Game.StepRefinesPhase | app/src/main/cpp/Game.cpp:37-67 | when paused implies running, every entry point moves the flags as the Stopped/Running/Paused machine moves the phase |
| Game.StartFromInvalidFlagsDiverges | app/src/main/cpp/Game.cpp:37-40 | that hypothesis is needed: starting a stopped-but-paused game leaves it paused, unlike the phase machine |
| Game.RunRefinesPhase | app/src/main/cpp/Game.cpp:16-67 | over any call sequence from a state where paused implies running, the flags follow the phase machine |
| Game.ReachablePhase | app/src/main/cpp/Game.cpp:9-67 | from the initial globals, the flags follow the phase machine started in Stopped |
| Utility.Clamp | app/src/main/cpp/Utility.cpp:10-14 | below min gives min; at or above min and above max gives max; between the bounds gives the value |
| Utility.ClampInRange | app/src/main/cpp/Utility.cpp:10-14 | with min <= max the result lies in [min, max] |
| Utility.ClampIsMaxOfMin | app/src/main/cpp/Utility.cpp:10-14 | with min <= max clamp equals max(min, min(value, max)) |
| Utility.ClampFixedPoints | app/src/main/cpp/Utility.cpp:10-14 | with min <= max the value comes back unchanged iff it lies in [min, max] |
| Utility.ClampIdempotent | app/src/main/cpp/Utility.cpp:10-14 | with min <= max clamping twice equals clamping once |
| Utility.ClampMonotone | app/src/main/cpp/Utility.cpp:10-14 | with min <= max clamp preserves the order of its inputs |
| Utility.ClampInvertedBounds | app/src/main/cpp/Utility.cpp:10-14 | with max < min the lower test wins: min below min, max otherwise |
| Utility.BuildIdentityMatrix | app/src/main/cpp/Utility.cpp:67-93 | 1 at entries 0, 5, 10, 15; 0 at the other twelve; the buffer beyond entry 15 untouched |
| Utility.BuildOrthographicMatrix | app/src/main/cpp/Utility.cpp:37-65 | entry 0 times halfHeight*aspect is 1; entry 5 times halfHeight is 1; entry 10 times (far - near) is -2; entry 11 times (far - near) is -(far + near); entry 15 is 1; entries 1-4, 6-9, 12-14 are 0; needs non-zero halfHeight, aspect and far - near |
| Utility.IdentityFixesPoints | app/src/main/cpp/Utility.cpp:67-93 | read as a column-major transform, the identity matrix maps every point to itself |
| Utility.BuildOrthographicMatrixCorrected | app/src/main/cpp/Utility.cpp:55-61 | the depth translation sits in entry 14 (its product with far - near is -(far + near)) and entry 11 is 0; every other entry equals the as-written matrix's, so entries 1-4, 6-9, 12 and 13 are 0 |
| Utility.CorrectedOrthoMapsDepthRange | app/src/main/cpp/Utility.cpp:37-65 | the corrected matrix maps the near plane to depth -1 and the far plane to +1 with w = 1, and scales x and y by the reciprocal half-extents |
| Utility.OrthoAsWrittenMisplacesNearPlane | app/src/main/cpp/Utility.cpp:55-56 | as written, with near 1 and far 3, the near-plane point (0, 0, -1, 1) maps to (0, 0, 1, 3) instead of (0, 0, -1, 1) |
| Utility.OrthoAsWrittenSkewsHomogeneous | app/src/main/cpp/Utility.cpp:56 | as written, a point off z = 0 keeps w = 1 iff near = -far |
| Utility.OrthoWorkedExample | app/src/main/cpp/Utility.cpp:37-65 | halfHeight 1, aspect 1, near 0.1, far 100 give entries 0 and 5 equal to 1, entry 10 equal to -2/99.9, entry 11 equal to -100.1/99.9 |
| Utility.OrthoSharesIdentityShape | app/src/main/cpp/Utility.cpp:37-93 | with halfHeight = aspect = 1 the orthographic and identity matrices agree on every entry but 10 and 11 |
| Utility.BuildIdentityInto | app/src/main/cpp/Utility.cpp:67-93 | writes the identity entries into the caller's buffer and returns that same buffer |
| Utility.BuildOrthographicInto | app/src/main/cpp/Utility.cpp:37-65 | writes the orthographic entries into the caller's buffer and returns that same buffer |
| Puzzle.NewPuzzle | app/src/main/cpp/Puzzle.cpp:8 | a newly constructed puzzle is unsolved |
| Puzzle.SolvePuzzle | app/src/main/cpp/Puzzle.cpp:10-13 | after solve the puzzle reads as solved, whatever it was before |
| Puzzle.Query | app/src/main/cpp/Puzzle.cpp:15-17 | isSolved answers true exactly when a further solve would change nothing, and false exactly for the state the constructor makes |
| Puzzle.Answers | app/src/main/cpp/Puzzle.cpp:15-17 | replaying a call sequence yields one isSolved answer per query call, and none for solve calls |
| Puzzle.Apply | app/src/main/cpp/Puzzle.h:5-11 | a query call leaves the state unchanged; a solve call leaves it solved; no call unsolves it |
| Puzzle.FinalSolvedIff | app/src/main/cpp/Puzzle.h:5-11 | after any call sequence, solved iff it was solved before or the sequence contains a solve call |
| Puzzle.SolvedStaysSolved | app/src/main/cpp/Puzzle.h:5-11 | a solved puzzle stays solved over any call sequence |
| Puzzle.SolveIdempotent | app/src/main/cpp/Puzzle.cpp:10-13 | solving twice is solving once |
| Puzzle.AnswersMonotone | app/src/main/cpp/Puzzle.h:5-11 | once a query answers true every later query does; a solved puzzle answers true to every query |
| Puzzle.NeverSolvedAnswersFalse | app/src/main/cpp/Puzzle.cpp:8-17 | a new puzzle that is never solved answers false to every query |
| Puzzle.SolveThenQuery | app/src/main/cpp/Puzzle.cpp:10-17 | construct, solve, query: the query answers true |

## Left out

- Renderer.cpp is not part of this model. It brings up EGL, searches configs, draws one frame and tears down, all through EGL/GL calls whose behaviour lives in the platform library.
- Shader.cpp is not part of this model. Compiling, linking and resolving locations are GL calls. Its five-argument constructor is an empty stub.
- `Utility::checkAndLogGlError` is left out. It wraps `glGetError` and logging.
- Character.cpp is left out. It accumulates arbitrary float positions, and its header is not part of this model.
- AndroidOut.cpp and every `LOGI`/`LOGE` call are left out. Logging has no observable state.
- MainActivity.java is left out as UI and JNI glue. Its one relevant fact is the start-up call order initGame then updateGame, which `Game.StartupScenario` covers.
- Utility.Clamp: models `real` arithmetic. IEEE single-precision rounding and NaN inputs are not modelled. A NaN value fails both comparisons and comes back unchanged.
- Utility.BuildOrthographicMatrix: requires non-zero halfHeight, aspect and far - near, because real division by zero is undefined. In float, the native code does not guard and produces infinities or NaN. Rounding of the four computed entries is not modelled.
- Game.UpdateGame: models playerX as an unbounded integer. This matches the float only while |playerX| < 2^24. Every reachable state has playerX in [0, 800], as `Game.ReachableValid` shows.
- The globals' lack of synchronisation is not modelled. The code is single-threaded.
- The privacy of `Puzzle::solved` is a C++ access rule. The model stands for it by allowing changes only through the public calls replayed by `Puzzle.Apply`.

## Findings

| source | as written | input that shows it | evidently intended | confidence | as-written member | corrected member |
|---|---|---|---|---|---|---|
| app/src/main/cpp/Utility.cpp:56 | the depth translation -(far + near)/(far - near) is stored at entry 11. In column-major order that is row 4 of column 3, so it feeds the homogeneous coordinate | near = 1, far = 3, near-plane point (0, 0, -1, 1): the result is (0, 0, 1, 3), which is depth 1/3 after the divide | the translation at entry 14 (row 3 of column 4), as in the standard OpenGL orthographic matrix; the near plane maps to depth -1 and the far plane to +1 | medium; not executed | Utility.OrthoAsWrittenMisplacesNearPlane | Utility.BuildOrthographicMatrixCorrected |

The model of the native function, `Utility.BuildOrthographicMatrix`, keeps the translation at entry 11 as written. `Utility.CorrectedOrthoMapsDepthRange` proves the intended depth mapping for the corrected definition.
