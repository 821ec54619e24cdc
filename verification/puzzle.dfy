/** The puzzle placeholder: one private flag that starts unsolved and can only
    be set.

    The class's whole state is that flag. Its public interface is a
    constructor, a solve call and a const query, so the only way to observe
    or change the flag is a sequence of those two calls. The model replays
    such a sequence and records what each query returns.
 */
module Puzzle {

  /** The class's state: the private `solved` member. */
  datatype PuzzleState = PuzzleState(solved: bool)

  /** The two public member calls after construction. */
  datatype Call = Solve | IsSolved

  /** The constructor: a new puzzle is unsolved. */
  function NewPuzzle(): (p: PuzzleState)
    ensures !p.solved
  {
    PuzzleState(false)
  }

  /** solve: afterwards the puzzle reads as solved, whatever it was before. */
  function SolvePuzzle(p: PuzzleState): (q: PuzzleState)
    ensures q.solved
  {
    PuzzleState(true)
  }

  /** isSolved: reports the flag. As a const member it has no state to return.
      It answers true exactly when a further solve would change nothing, and
      false exactly for the state the constructor makes. */
  function Query(p: PuzzleState): (b: bool)
    ensures b <==> SolvePuzzle(p) == p
    ensures !b <==> p == NewPuzzle()
  {
    p.solved
  }

  /** The state after one call; a query leaves the puzzle as it was. */
  function Apply(p: PuzzleState, c: Call): (q: PuzzleState)
    ensures c == IsSolved ==> q == p
    ensures c == Solve ==> Query(q)
    ensures Query(p) ==> Query(q)
  {
    match c
    case Solve => SolvePuzzle(p)
    case IsSolved => p
  }

  /** The state after a sequence of calls. */
  function Final(p: PuzzleState, calls: seq<Call>): PuzzleState
    decreases |calls|
  {
    if |calls| == 0 then p else Final(Apply(p, calls[0]), calls[1..])
  }

  /** What the queries in a sequence of calls return, in order; solve calls
      return nothing, so there is one answer per query call. */
  function Answers(p: PuzzleState, calls: seq<Call>): (a: seq<bool>)
    ensures |a| == multiset(calls)[IsSolved]
    decreases |calls|
  {
    if |calls| == 0 then []
    else
      assert calls == [calls[0]] + calls[1..];
      if calls[0] == IsSolved then [Query(p)] + Answers(p, calls[1..])
      else Answers(Apply(p, calls[0]), calls[1..])
  }

  /** After any call sequence the puzzle is solved exactly when it was solved
      before or the sequence contains a solve call. */
  lemma {:induction false} FinalSolvedIff(p: PuzzleState, calls: seq<Call>)
    ensures Query(Final(p, calls)) <==> Query(p) || Solve in calls
    decreases |calls|
  {
    if |calls| > 0 {
      FinalSolvedIff(Apply(p, calls[0]), calls[1..]);
      assert calls == [calls[0]] + calls[1..];
      assert Solve in calls <==> calls[0] == Solve || Solve in calls[1..];
    }
  }

  /** Solved is monotone: once solved, no call sequence makes it unsolved. */
  lemma SolvedStaysSolved(p: PuzzleState, calls: seq<Call>)
    requires Query(p)
    ensures Query(Final(p, calls))
  {
  }

  /** solve is idempotent. */
  lemma SolveIdempotent(p: PuzzleState)
    ensures SolvePuzzle(SolvePuzzle(p)) == SolvePuzzle(p)
  {
  }

  /** The queries of a sequence see the flag rise at most once: once a query
      answers true, every later query answers true. */
  lemma {:induction false} AnswersMonotone(p: PuzzleState, calls: seq<Call>)
    ensures forall i, j :: 0 <= i < j < |Answers(p, calls)| && Answers(p, calls)[i] ==> Answers(p, calls)[j]
    ensures Query(p) ==> forall i :: 0 <= i < |Answers(p, calls)| ==> Answers(p, calls)[i]
    decreases |calls|
  {
    if |calls| > 0 {
      var q := Apply(p, calls[0]);
      AnswersMonotone(q, calls[1..]);
      if calls[0] == IsSolved {
        var rest := Answers(p, calls[1..]);
        assert Answers(p, calls) == [Query(p)] + rest;
        assert q == p;
      }
    }
  }

  /** A freshly constructed puzzle that is never solved answers false to
      every query. */
  lemma {:induction false} NeverSolvedAnswersFalse(calls: seq<Call>)
    requires Solve !in calls
    ensures forall i :: 0 <= i < |Answers(NewPuzzle(), calls)| ==> !Answers(NewPuzzle(), calls)[i]
    decreases |calls|
  {
    if |calls| > 0 {
      assert calls[0] in calls;
      assert Solve !in calls[1..] by {
        assert forall k :: 0 <= k < |calls[1..]| ==> calls[1..][k] == calls[k + 1];
      }
      NeverSolvedAnswersFalse(calls[1..]);
      assert Apply(NewPuzzle(), calls[0]) == NewPuzzle();
    }
  }

  /** Construct, solve, query: the query answers true. */
  lemma SolveThenQuery()
    ensures Answers(NewPuzzle(), [Solve, IsSolved]) == [true]
  {
  }
}
