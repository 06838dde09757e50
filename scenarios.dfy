/**
 * Two complete games written out move by move: a win for X on the top row
 * and a game that fills the board with no line completed; and the last click
 * of each, played on the App, with the result it logs.
 */
module Scenarios {
  import opened Wrappers
  import opened BoardEvaluator
  import opened Session
  import opened History
  import opened TicTacToe

  /** X takes 0, 1 and 2 while O takes 3 and 4. */
  const TopRowGame: seq<Board> := [
    EmptyBoard,
    Place(EmptyBoard, 0, X),
    Place(Place(EmptyBoard, 0, X), 3, O),
    Place(Place(Place(EmptyBoard, 0, X), 3, O), 1, X),
    Place(Place(Place(Place(EmptyBoard, 0, X), 3, O), 1, X), 4, O),
    Place(Place(Place(Place(Place(EmptyBoard, 0, X), 3, O), 1, X), 4, O), 2, X)
  ]

  /** The top-row game is one the App accepts click by click, and it ends on its fifth move with X winning. */
  lemma TopRowGamePlayed()
    ensures Played(TopRowGame)
    ensures GameEnd(TopRowGame[5]) == Some(Win(X))
  {
    var h := TopRowGame;
    assert NoLineOwned(h[4]);
    PlaceKeepsOwned(h[3], 4, Turn(3));
    PlaceKeepsOwned(h[2], 1, Turn(2));
    PlaceKeepsOwned(h[1], 3, Turn(1));
    PlaceKeepsOwned(h[0], 0, Turn(0));
    assert MovedAt(h, 0) by { assert h[1] == Place(h[0], 0, Turn(0)); }
    assert MovedAt(h, 1) by { assert h[2] == Place(h[1], 3, Turn(1)); }
    assert MovedAt(h, 2) by { assert h[3] == Place(h[2], 1, Turn(2)); }
    assert MovedAt(h, 3) by { assert h[4] == Place(h[3], 4, Turn(3)); }
    assert MovedAt(h, 4) by { assert h[5] == Place(h[4], 2, Turn(4)); }
    forall m: nat | m + 1 < |h|
      ensures MovedAt(h, m)
    {
    }
  }

  /** X takes 0, 2, 3, 7 and 8 while O takes 1, 4, 5 and 6. */
  const DrawGame: seq<Board> := [
    EmptyBoard,
    Place(EmptyBoard, 0, X),
    Place(Place(EmptyBoard, 0, X), 1, O),
    Place(Place(Place(EmptyBoard, 0, X), 1, O), 2, X),
    Place(Place(Place(Place(EmptyBoard, 0, X), 1, O), 2, X), 4, O),
    Place(Place(Place(Place(Place(EmptyBoard, 0, X), 1, O), 2, X), 4, O), 3, X),
    Place(Place(Place(Place(Place(Place(EmptyBoard, 0, X), 1, O), 2, X), 4, O), 3, X), 5, O),
    Place(Place(Place(Place(Place(Place(Place(EmptyBoard, 0, X), 1, O), 2, X), 4, O), 3, X), 5, O), 7, X),
    Place(Place(Place(Place(Place(Place(Place(Place(EmptyBoard, 0, X), 1, O), 2, X), 4, O), 3, X), 5, O), 7, X), 6, O),
    Place(Place(Place(Place(Place(Place(Place(Place(Place(EmptyBoard, 0, X), 1, O), 2, X), 4, O), 3, X), 5, O), 7, X), 6, O), 8, X)
  ]

  /** The draw game is one the App accepts click by click, and it ends on its ninth move in a draw. */
  lemma DrawGamePlayed()
    ensures Played(DrawGame)
    ensures GameEnd(DrawGame[9]) == Some(Draw)
  {
    var h := DrawGame;
    assert NoLineOwned(h[9]);
    PlaceKeepsOwned(h[8], 8, Turn(8));
    PlaceKeepsOwned(h[7], 6, Turn(7));
    PlaceKeepsOwned(h[6], 7, Turn(6));
    PlaceKeepsOwned(h[5], 5, Turn(5));
    PlaceKeepsOwned(h[4], 3, Turn(4));
    PlaceKeepsOwned(h[3], 4, Turn(3));
    PlaceKeepsOwned(h[2], 2, Turn(2));
    PlaceKeepsOwned(h[1], 1, Turn(1));
    PlaceKeepsOwned(h[0], 0, Turn(0));
    assert MovedAt(h, 0) by { assert h[1] == Place(h[0], 0, Turn(0)); }
    assert MovedAt(h, 1) by { assert h[2] == Place(h[1], 1, Turn(1)); }
    assert MovedAt(h, 2) by { assert h[3] == Place(h[2], 2, Turn(2)); }
    assert MovedAt(h, 3) by { assert h[4] == Place(h[3], 4, Turn(3)); }
    assert MovedAt(h, 4) by { assert h[5] == Place(h[4], 3, Turn(4)); }
    assert MovedAt(h, 5) by { assert h[6] == Place(h[5], 5, Turn(5)); }
    assert MovedAt(h, 6) by { assert h[7] == Place(h[6], 7, Turn(6)); }
    assert MovedAt(h, 7) by { assert h[8] == Place(h[7], 6, Turn(7)); }
    assert MovedAt(h, 8) by { assert h[9] == Place(h[8], 8, Turn(8)); }
    forall m: nat | m + 1 < |h|
      ensures MovedAt(h, m)
    {
    }
    GameEndClassifies(h[9]);
  }

  /** X's last click of the top-row game, on a fresh session: game 1 is logged as X's win and X's count becomes 1. */
  method TopRowLastClick(app: App)
    requires app.Valid()
    requires app.history == TopRowGame[..5] && app.currentMove == 4 && app.gameResults == []
    modifies app
    ensures app.history == TopRowGame && app.currentMove == 5
    ensures app.gameResults == [GameResult(1, Win(X))]
    ensures app.winCount == map[X := 1, O := 0]
  {
    TopRowGamePlayed();
    assert TopRowGame[..5][4] == TopRowGame[4];
    assert TopRowGame[5] == Place(TopRowGame[4], 2, Turn(4));
    assert TopRowGame[..5][..5] == TopRowGame[..5];
    assert MovedAt(TopRowGame, 4);
    WinnerIsFirstOwnedLine(TopRowGame[4]);
    app.HandleClick(2);
    assert TopRowGame[..5] + [TopRowGame[5]] == TopRowGame;
  }

  /** X's last click of the draw game, on a fresh session: game 1 is logged as a draw and neither count moves. */
  method DrawLastClick(app: App)
    requires app.Valid()
    requires app.history == DrawGame[..9] && app.currentMove == 8 && app.gameResults == []
    modifies app
    ensures app.history == DrawGame && app.currentMove == 9
    ensures app.gameResults == [GameResult(1, Draw)]
    ensures app.winCount == map[X := 0, O := 0]
  {
    DrawGamePlayed();
    assert DrawGame[..9][8] == DrawGame[8];
    assert DrawGame[9] == Place(DrawGame[8], 8, Turn(8));
    assert DrawGame[..9][..9] == DrawGame[..9];
    assert MovedAt(DrawGame, 8);
    WinnerIsFirstOwnedLine(DrawGame[8]);
    app.HandleClick(8);
    assert DrawGame[..9] + [DrawGame[9]] == DrawGame;
  }
}
