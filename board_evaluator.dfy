/**
 * Board evaluation for tic-tac-toe: winner detection over the eight fixed
 * lines, draw detection, end-of-game classification and the win-chance
 * heuristic (src/App.js, calculateWinner, isDraw, checkGameEnd and
 * calculateWinChance).
 */
module BoardEvaluator {
  import opened Wrappers

  datatype Player = X | O

  /** A square: `null` in the source is Empty, "X" and "O" are marks. */
  datatype Cell = Empty | Mark(player: Player)

  type Index = i: nat | i < 9

  /** The nine squares in row-major order. */
  type Board = s: seq<Cell> | |s| == 9
    witness [Empty, Empty, Empty, Empty, Empty, Empty, Empty, Empty, Empty]

  /** `Array(9).fill(null)`. */
  const EmptyBoard: Board := [Empty, Empty, Empty, Empty, Empty, Empty, Empty, Empty, Empty]

  datatype Line = Line(a: Index, b: Index, c: Index)

  /** The three rows, the three columns and the two diagonals, in scan order. */
  const Lines: seq<Line> := [
    Line(0, 1, 2), Line(3, 4, 5), Line(6, 7, 8),
    Line(0, 3, 6), Line(1, 4, 7), Line(2, 5, 8),
    Line(0, 4, 8), Line(2, 4, 6)
  ]

  /** The test applied to each line: its first square is non-empty and equals the other two. */
  predicate Owned(b: Board, l: Line) {
    b[l.a] != Empty && b[l.a] == b[l.b] && b[l.a] == b[l.c]
  }

  /** All three squares of `l` hold `p`'s mark. */
  predicate WonBy(b: Board, l: Line, p: Player) {
    b[l.a] == Mark(p) && b[l.b] == Mark(p) && b[l.c] == Mark(p)
  }

  predicate NoLineOwned(b: Board) {
    forall k :: 0 <= k < |Lines| ==> !Owned(b, Lines[k])
  }

  /** Line `k` is the first line, in scan order, that is owned. */
  ghost predicate FirstOwned(b: Board, k: nat) {
    k < |Lines| && Owned(b, Lines[k]) && forall j :: 0 <= j < k ==> !Owned(b, Lines[j])
  }

  /** The scan of calculateWinner: the mark of the first owned line of `lines`, in order. */
  function FirstOwnedMark(b: Board, lines: seq<Line>): Option<Player> {
    if lines == [] then None
    else if Owned(b, lines[0]) then Some(b[lines[0].a].player)
    else FirstOwnedMark(b, lines[1..])
  }

  /** calculateWinner: the mark of the first owned line, or None. */
  function Winner(b: Board): Option<Player> {
    FirstOwnedMark(b, Lines)
  }

  /** The scan finds nothing exactly when no line is owned, and otherwise the owner of the first owned line. */
  lemma {:induction false} FirstOwnedMarkScan(b: Board, lines: seq<Line>)
    ensures FirstOwnedMark(b, lines).None? <==> forall j :: 0 <= j < |lines| ==> !Owned(b, lines[j])
    ensures FirstOwnedMark(b, lines).Some? ==>
      exists j :: 0 <= j < |lines| && WonBy(b, lines[j], FirstOwnedMark(b, lines).value) &&
        forall i :: 0 <= i < j ==> !Owned(b, lines[i])
  {
    if lines != [] && !Owned(b, lines[0]) {
      var rest := lines[1..];
      FirstOwnedMarkScan(b, rest);
      if FirstOwnedMark(b, rest).Some? {
        var j :| 0 <= j < |rest| && WonBy(b, rest[j], FirstOwnedMark(b, rest).value) &&
          forall i :: 0 <= i < j ==> !Owned(b, rest[i]);
        assert lines[j + 1] == rest[j];
        assert forall i :: 0 <= i < j + 1 ==> !Owned(b, lines[i]) by {
          forall i | 0 < i < j + 1 ensures !Owned(b, lines[i]) {
            assert lines[i] == rest[i - 1];
          }
        }
      } else {
        forall j | 0 <= j < |lines| ensures !Owned(b, lines[j]) {
          if j > 0 { assert lines[j] == rest[j - 1]; }
        }
      }
    }
  }

  /** Winner returns the mark of the first owned line in scan order, and None when no line is owned. */
  lemma WinnerIsFirstOwnedLine(b: Board)
    ensures Winner(b).None? <==> NoLineOwned(b)
    ensures Winner(b).Some? ==> exists k: nat :: FirstOwned(b, k) && WonBy(b, Lines[k], Winner(b).value)
  {
    FirstOwnedMarkScan(b, Lines);
  }

  /** isDraw, i.e. `squares.every(square => square !== null)`. */
  function IsDraw(squares: seq<Cell>): (r: bool)
    ensures r <==> forall i :: 0 <= i < |squares| ==> squares[i] != Empty
  {
    |squares| == 0 || (squares[0] != Empty && IsDraw(squares[1..]))
  }

  datatype Outcome = Win(winner: Player) | Draw

  /** checkGameEnd: a winner first, then a draw, otherwise the game goes on. */
  function GameEnd(b: Board): Option<Outcome> {
    match Winner(b)
    case Some(p) => Some(Win(p))
    case None => if IsDraw(b) then Some(Draw) else None
  }

  /**
   * GameEnd is None exactly when no line is complete and a square is empty,
   * Draw exactly when no line is complete and the board is full, and a win
   * for the owner of the first complete line whenever a line is complete.
   */
  lemma GameEndClassifies(b: Board)
    ensures GameEnd(b).None? <==> NoLineOwned(b) && exists i :: 0 <= i < 9 && b[i] == Empty
    ensures GameEnd(b) == Some(Draw) <==> NoLineOwned(b) && forall i :: 0 <= i < 9 ==> b[i] != Empty
    ensures !NoLineOwned(b) ==> GameEnd(b).Some? && GameEnd(b).value.Win?
    ensures GameEnd(b).Some? && GameEnd(b).value.Win? ==>
      exists k: nat :: FirstOwned(b, k) && WonBy(b, Lines[k], GameEnd(b).value.winner)
  {
    WinnerIsFirstOwnedLine(b);
  }

  /** Every square of `l` is empty or holds `p`'s mark: `p` can still complete it. */
  predicate Open(b: Board, l: Line, p: Player) {
    (b[l.a] == Empty || b[l.a] == Mark(p)) &&
    (b[l.b] == Empty || b[l.b] == Mark(p)) &&
    (b[l.c] == Empty || b[l.c] == Mark(p))
  }

  /** The number of lines of `lines` that are open for `p`. */
  function OpenCount(b: Board, p: Player, lines: seq<Line>): (r: nat)
    ensures r <= |lines|
  {
    if lines == [] then 0
    else OpenCount(b, p, lines[..|lines| - 1]) + (if Open(b, lines[|lines| - 1], p) then 1 else 0)
  }

  /** `Math.round(count / 8 * 100)`: 100 * count / 8 rounded to the nearest integer, halves up. */
  function Percent(count: nat): (r: nat)
    ensures 16 * r <= 200 * count + 8 < 16 * r + 16
    ensures count <= 8 ==> r <= 100
  {
    (count * 25 + 1) / 2
  }

  /** calculateWinChance: the share of the eight lines still open for `p`, in percent. */
  method WinChance(b: Board, p: Player) returns (chance: nat)
    ensures chance == Percent(OpenCount(b, p, Lines))
    ensures chance <= 100
  {
    var possible := 0;
    for k := 0 to |Lines|
      invariant possible == OpenCount(b, p, Lines[..k])
    {
      assert Lines[..k + 1][..k] == Lines[..k];
      if Open(b, Lines[k], p) {
        possible := possible + 1;
      }
    }
    assert Lines[..|Lines|] == Lines;
    chance := Percent(possible);
  }

  /** The positions in `lines` of the lines open for `p`. */
  ghost function OpenSet(b: Board, p: Player, lines: seq<Line>): set<nat> {
    set k: nat | k < |lines| && Open(b, lines[k], p)
  }

  /** Extending `lines` by one line adds its position to the open set exactly when it is open. */
  lemma OpenSetSnoc(b: Board, p: Player, lines: seq<Line>)
    requires lines != []
    ensures var n := |lines|;
      OpenSet(b, p, lines) ==
        OpenSet(b, p, lines[..n - 1]) + (if Open(b, lines[n - 1], p) then {n - 1} else {})
  {
  }

  /** OpenCount counts exactly the open lines: it is the size of the set of their positions. */
  lemma {:induction false} OpenCountIsCardinality(b: Board, p: Player, lines: seq<Line>)
    ensures OpenCount(b, p, lines) == |OpenSet(b, p, lines)|
  {
    if lines != [] {
      var n := |lines|;
      OpenCountIsCardinality(b, p, lines[..n - 1]);
      OpenSetSnoc(b, p, lines);
      assert n - 1 !in OpenSet(b, p, lines[..n - 1]);
    }
  }

  /** Every line is counted exactly when each of them is open. */
  lemma {:induction false} OpenCountFull(b: Board, p: Player, lines: seq<Line>)
    ensures OpenCount(b, p, lines) == |lines| <==> forall k :: 0 <= k < |lines| ==> Open(b, lines[k], p)
  {
    if lines != [] {
      var init := lines[..|lines| - 1];
      OpenCountFull(b, p, init);
      assert forall k :: 0 <= k < |init| ==> init[k] == lines[k];
    }
  }

  /** On the empty board every line is open for both players, so both chances are 100. */
  lemma EmptyBoardChance(p: Player)
    ensures Percent(OpenCount(EmptyBoard, p, Lines)) == 100
  {
    OpenCountFull(EmptyBoard, p, Lines);
  }

  /** Three open lines give 37.5, which rounds up to 38. */
  lemma ThreeLinesChance()
    ensures Percent(3) == 38
  {
  }

  /** Adding the next line of the scan adds one to the count when that line is open. */
  lemma LinesPrefixCount(b: Board, p: Player, k: nat)
    requires k < |Lines|
    ensures OpenCount(b, p, Lines[..k + 1]) ==
      OpenCount(b, p, Lines[..k]) + (if Open(b, Lines[k], p) then 1 else 0)
  {
    assert Lines[..k + 1][..k] == Lines[..k];
  }

  /** On X O _ / _ X _ / _ _ X, six lines stay open for X: the middle row, the bottom row, the
   *  first and last columns and both diagonals, so X's chance is 75%. */
  lemma DiagonalBoardChanceX()
    ensures Percent(OpenCount([Mark(X), Mark(O), Empty, Empty, Mark(X), Empty, Empty, Empty, Mark(X)], X, Lines)) == 75
  {
    var b: Board := [Mark(X), Mark(O), Empty, Empty, Mark(X), Empty, Empty, Empty, Mark(X)];
    LinesPrefixCount(b, X, 0); LinesPrefixCount(b, X, 1);
    LinesPrefixCount(b, X, 2); LinesPrefixCount(b, X, 3);
    LinesPrefixCount(b, X, 4); LinesPrefixCount(b, X, 5);
    LinesPrefixCount(b, X, 6); LinesPrefixCount(b, X, 7);
    assert Lines[..|Lines|] == Lines;
  }

  /** On the same board every line holds an X, so O's chance is 0%. */
  lemma DiagonalBoardChanceO()
    ensures Percent(OpenCount([Mark(X), Mark(O), Empty, Empty, Mark(X), Empty, Empty, Empty, Mark(X)], O, Lines)) == 0
  {
    var b: Board := [Mark(X), Mark(O), Empty, Empty, Mark(X), Empty, Empty, Empty, Mark(X)];
    OpenCountFull(b, O, Lines);
    assert forall k :: 0 <= k < |Lines| ==> !Open(b, Lines[k], O);
    OpenCountIsCardinality(b, O, Lines);
    assert OpenSet(b, O, Lines) == {};
  }

  /** A board with a completed line ends the game with that player's win, never a draw. */
  lemma WinnerTakesPrecedence(b: Board, k: nat, p: Player)
    requires k < |Lines| && WonBy(b, Lines[k], p)
    ensures GameEnd(b).Some? && GameEnd(b) != Some(Draw)
  {
    GameEndClassifies(b);
    assert !NoLineOwned(b) by {
      assert Owned(b, Lines[k]);
    }
  }
}
