/**
 * The state of the App component and its event handlers (src/App.js,
 * App, Board.handleClick, handlePlay, jumpTo and resetGame). Each React
 * state setter becomes an assignment to a field.
 */
module TicTacToe {
  import opened BoardEvaluator
  import opened Session
  import opened History

  class App {
    var history: seq<Board>
    var currentMove: nat
    var gameResults: seq<GameResult>
    var winCount: map<Player, nat>

    /**
     * The history is one the game can build, the pointer is inside it, the
     * log is numbered from one and the win totals agree with the log.
     */
    ghost predicate Valid()
      reads this
    {
      Played(history) && currentMove < |history| &&
      Numbered(gameResults) && winCount == Totals(gameResults)
    }

    /** The initial state: one empty board, move 0, no results, no wins. */
    constructor ()
      ensures Valid()
      ensures history == [EmptyBoard] && currentMove == 0
      ensures gameResults == [] && winCount == map[X := 0, O := 0]
    {
      history := [EmptyBoard];
      currentMove := 0;
      gameResults := [];
      winCount := map[X := 0, O := 0];
    }

    function CurrentSquares(): Board
      reads this
      requires Valid()
    {
      history[currentMove]
    }

    /**
     * The state handlePlay leaves after playing `next`: the history is cut
     * after the old current move and `next` appended and made current; if
     * `next` ends the game, one result numbered after the old log is logged,
     * and a win adds one to the winner's count and leaves the other count alone.
     */
    twostate predicate PlayedNext(next: Board)
      requires old(Valid())
      reads this
    {
      var end := GameEnd(next);
      history == old(history)[..old(currentMove) + 1] + [next] &&
      currentMove == |history| - 1 &&
      gameResults == (if end.None? then old(gameResults)
        else old(gameResults) + [GameResult(|old(gameResults)| + 1, end.value)]) &&
      winCount == (if end.Some? && end.value.Win?
        then old(winCount)[end.value.winner := old(winCount)[end.value.winner] + 1]
        else old(winCount))
    }

    /**
     * A click on square `i` of the current board. It is ignored when the
     * board already has a winner or the square is taken; otherwise the
     * player to move (X on even moves, O on odd ones) takes the square and
     * the new board is played.
     */
    method HandleClick(i: Index)
      requires Valid()
      modifies this
      ensures Valid()
      ensures var squares := old(history[currentMove]);
        Winner(squares).Some? || squares[i] != Empty ==> unchanged(this)
      ensures var squares := old(history[currentMove]);
        Winner(squares).None? && squares[i] == Empty ==>
          PlayedNext(Place(squares, i, Turn(old(currentMove))))
    {
      var squares := history[currentMove];
      if Winner(squares).Some? || squares[i] != Empty {
        return;
      }
      var nextSquares := squares[i := Mark(Turn(currentMove))];
      WinnerIsFirstOwnedLine(squares);
      assert IsMove(squares, currentMove, nextSquares);
      HandlePlay(nextSquares);
    }

    /**
     * Plays `nextSquares` after the current move (handlePlay). The only
     * caller, HandleClick, passes a legal move from the current board.
     */
    method HandlePlay(nextSquares: Board)
      requires Valid()
      requires IsMove(CurrentSquares(), currentMove, nextSquares)
      modifies this
      ensures Valid()
      ensures PlayedNext(nextSquares)
      ensures |history| == old(currentMove) + 2
    {
      var nextHistory := history[..currentMove + 1] + [nextSquares];
      PlayedBranch(history, currentMove, nextSquares);
      history := nextHistory;
      currentMove := |nextHistory| - 1;

      var result := GameEnd(nextSquares);
      if result.Some? {
        RecordGame(gameResults, result.value);
        gameResults := gameResults + [GameResult(|gameResults| + 1, result.value)];
        if result.value.Win? {
          var p := result.value.winner;
          winCount := winCount[p := winCount[p] + 1];
        }
      }
    }

    /** Makes move `move` of the history current; the history itself is kept. */
    method JumpTo(move: nat)
      requires Valid() && move < |history|
      modifies this`currentMove
      ensures Valid()
      ensures currentMove == move
    {
      currentMove := move;
    }

    /** Starts a new game; the session's results and win totals are kept. */
    method ResetGame()
      requires Valid()
      modifies this`history, this`currentMove
      ensures Valid()
      ensures history == [EmptyBoard] && currentMove == 0
    {
      history := [EmptyBoard];
      currentMove := 0;
    }
  }
}
