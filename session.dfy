/**
 * The session aggregator: the log of finished games and the per-player win
 * totals kept by the App component across games (src/App.js, handlePlay).
 */
module Session {
  import opened BoardEvaluator

  lemma PlayerCases(p: Player)
    ensures p == X || p == O
  {
  }

  /** One entry of gameResults: `{ gameNumber, result }`. */
  datatype GameResult = GameResult(gameNumber: nat, result: Outcome)

  /** Game numbers run 1, 2, 3, ... in log order. */
  predicate Numbered(log: seq<GameResult>) {
    forall i :: 0 <= i < |log| ==> log[i].gameNumber == i + 1
  }

  /** How many logged games ended with `outcome`. */
  function Count(log: seq<GameResult>, outcome: Outcome): (n: nat)
    ensures n <= |log|
  {
    if log == [] then 0
    else Count(log[..|log| - 1], outcome) + (if log[|log| - 1].result == outcome then 1 else 0)
  }

  /** The win total that the log implies for `p`. */
  function WinsOf(log: seq<GameResult>, p: Player): nat {
    Count(log, Win(p))
  }

  /** The totals the source keeps in winCount, as implied by the log. */
  function Totals(log: seq<GameResult>): (t: map<Player, nat>)
    ensures forall p :: p in t && t[p] == WinsOf(log, p)
  {
    var t := map[X := WinsOf(log, X), O := WinsOf(log, O)];
    assert forall p :: p in t by {
      forall p: Player ensures p in t { PlayerCases(p); }
    }
    t
  }

  /** Logging one more game adds one to the count of its outcome and nothing to the others. */
  lemma CountAppend(log: seq<GameResult>, g: GameResult, outcome: Outcome)
    ensures Count(log + [g], outcome) == Count(log, outcome) + (if g.result == outcome then 1 else 0)
  {
  }

  /** Every logged game is a win for X, a win for O or a draw. */
  lemma {:induction false} CountPartition(log: seq<GameResult>)
    ensures Count(log, Win(X)) + Count(log, Win(O)) + Count(log, Draw) == |log|
  {
    if log != [] {
      CountPartition(log[..|log| - 1]);
      var last := log[|log| - 1].result;
      assert last == Win(X) || last == Win(O) || last == Draw by {
        if last.Win? { assert last.winner == X || last.winner == O; }
      }
    }
  }

  /** Logging a finished game keeps the numbering and moves the implied totals exactly as winCount moves. */
  lemma RecordGame(log: seq<GameResult>, outcome: Outcome)
    requires Numbered(log)
    ensures Numbered(log + [GameResult(|log| + 1, outcome)])
    ensures Totals(log + [GameResult(|log| + 1, outcome)]) ==
      if outcome.Win? then Totals(log)[outcome.winner := Totals(log)[outcome.winner] + 1] else Totals(log)
  {
  }
}
