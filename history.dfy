/**
 * The move history kept by the App component: board snapshots where entry
 * `m + 1` is entry `m` with one more mark, placed by the player whose turn it
 * is at move `m` (src/App.js, xIsNext, handleClick and handlePlay).
 */
module History {
  import opened Wrappers
  import opened BoardEvaluator

  /** The xIsNext rule: X moves at even move numbers, O at odd ones. */
  function Turn(move: nat): Player {
    if move % 2 == 0 then X else O
  }

  /** The board after `p` takes square `i`. */
  function Place(b: Board, i: Index, p: Player): Board {
    b[i := Mark(p)]
  }

  /**
   * `next` follows `b` by a click that handleClick accepts at move `move`: no
   * line of `b` is complete (so Winner(b) is None) and an empty square is taken.
   */
  ghost predicate IsMove(b: Board, move: nat, next: Board) {
    NoLineOwned(b) && exists i: Index :: b[i] == Empty && next == Place(b, i, Turn(move))
  }

  /** Entry `m + 1` of `h` is a legal move from entry `m`. */
  ghost predicate MovedAt(h: seq<Board>, m: nat)
    requires m + 1 < |h|
  {
    IsMove(h[m], m, h[m + 1])
  }

  /** A history the App can build: it starts empty and each entry is a legal move from the one before. */
  ghost predicate Played(h: seq<Board>) {
    |h| >= 1 && h[0] == EmptyBoard &&
    forall m: nat :: m + 1 < |h| ==> MovedAt(h, m)
  }

  /** The number of squares holding `p`'s mark. */
  function Marks(s: seq<Cell>, p: Player): (n: nat)
    ensures n <= |s|
  {
    if s == [] then 0 else (if s[0] == Mark(p) then 1 else 0) + Marks(s[1..], p)
  }

  lemma {:induction false} MarksNone(s: seq<Cell>, p: Player)
    requires forall i :: 0 <= i < |s| ==> s[i] == Empty
    ensures Marks(s, p) == 0
  {
    if s != [] {
      MarksNone(s[1..], p);
    }
  }

  /** Filling an empty square adds one mark for its new owner and none for the other player. */
  lemma {:induction false} MarksAfterFill(s: seq<Cell>, i: nat, p: Player, q: Player)
    requires i < |s| && s[i] == Empty
    ensures Marks(s[i := Mark(p)], q) == Marks(s, q) + (if p == q then 1 else 0)
  {
    if i == 0 {
      assert s[i := Mark(p)][1..] == s[1..];
    } else {
      assert s[i := Mark(p)][1..] == s[1..][i - 1 := Mark(p)];
      MarksAfterFill(s[1..], i - 1, p, q);
    }
  }

  /** The two players' marks never outnumber the squares. */
  lemma {:induction false} MarksTotal(s: seq<Cell>)
    ensures Marks(s, X) + Marks(s, O) <= |s|
  {
    if s != [] {
      MarksTotal(s[1..]);
    }
  }

  /** Turns alternate: after move `m`, X has (m + 1) / 2 marks on the board and O has m / 2. */
  lemma {:induction false} PlayedMarks(h: seq<Board>, m: nat)
    requires Played(h) && m < |h|
    ensures Marks(h[m], X) == (m + 1) / 2 && Marks(h[m], O) == m / 2
  {
    if m == 0 {
      MarksNone(h[0], X);
      MarksNone(h[0], O);
    } else {
      PlayedMarks(h, m - 1);
      assert MovedAt(h, m - 1);
      var i: Index :| h[m - 1][i] == Empty && h[m] == Place(h[m - 1], i, Turn(m - 1));
      MarksAfterFill(h[m - 1], i, Turn(m - 1), X);
      MarksAfterFill(h[m - 1], i, Turn(m - 1), O);
    }
  }

  /** A game has at most nine moves, so a history holds at most ten boards. */
  lemma PlayedLength(h: seq<Board>)
    requires Played(h)
    ensures |h| <= 10
  {
    PlayedMarks(h, |h| - 1);
    MarksTotal(h[|h| - 1]);
  }

  /** On a board without a completed line, a new mark can complete only lines of its own player. */
  lemma PlaceOwnsOnlyForMover(b: Board, i: Index, p: Player)
    requires NoLineOwned(b) && b[i] == Empty
    ensures forall k :: 0 <= k < |Lines| && Owned(Place(b, i, p), Lines[k]) ==>
      WonBy(Place(b, i, p), Lines[k], p)
  {
  }

  /** Every completed line in a played board belongs to the player who made the last move. */
  lemma PlayedWinnerMovedLast(h: seq<Board>, m: nat)
    requires Played(h) && m < |h|
    ensures forall k :: 0 <= k < |Lines| && Owned(h[m], Lines[k]) ==>
      m > 0 && WonBy(h[m], Lines[k], Turn(m - 1))
    ensures Winner(h[m]).Some? ==> m > 0 && Winner(h[m]) == Some(Turn(m - 1))
  {
    WinnerIsFirstOwnedLine(h[m]);
    if m == 0 {
      assert NoLineOwned(h[0]);
    } else {
      assert MovedAt(h, m - 1);
      var i: Index :| h[m - 1][i] == Empty && h[m] == Place(h[m - 1], i, Turn(m - 1));
      PlaceOwnsOnlyForMover(h[m - 1], i, Turn(m - 1));
    }
  }

  /** Only the last board of a played history can end the game: a won or drawn board accepts no move. */
  lemma PlayedOnlyLastTerminal(h: seq<Board>, m: nat)
    requires Played(h) && m < |h| - 1
    ensures GameEnd(h[m]).None?
  {
    assert MovedAt(h, m);
    GameEndClassifies(h[m]);
  }

  /** Keeping the first `n` entries of a played history leaves a played history. */
  lemma PlayedPrefix(h: seq<Board>, n: nat)
    requires Played(h) && 1 <= n <= |h|
    ensures Played(h[..n])
  {
    forall m: nat | m + 1 < n
      ensures MovedAt(h[..n], m)
    {
      assert MovedAt(h, m);
    }
  }

  /** Branching at move `m` and playing a legal move there leaves a played history one longer than `m + 1`. */
  lemma PlayedBranch(h: seq<Board>, m: nat, next: Board)
    requires Played(h) && m < |h| && IsMove(h[m], m, next)
    ensures Played(h[..m + 1] + [next])
    ensures |h[..m + 1] + [next]| == m + 2
  {
    var g := h[..m + 1] + [next];
    PlayedPrefix(h, m + 1);
    forall j: nat | j + 1 < |g|
      ensures MovedAt(g, j)
    {
      if j < m {
        assert MovedAt(h[..m + 1], j);
      }
    }
  }

  /** Marks are never removed, so a line completed before a mark is placed stays completed after it. */
  lemma PlaceKeepsOwned(b: Board, i: Index, p: Player)
    requires b[i] == Empty && NoLineOwned(Place(b, i, p))
    ensures NoLineOwned(b)
  {
  }

  /** Playing a legal move on the last board of a played history extends it. */
  lemma PlayedExtend(h: seq<Board>, i: Index)
    requires Played(h)
    requires NoLineOwned(h[|h| - 1]) && h[|h| - 1][i] == Empty
    ensures Played(h + [Place(h[|h| - 1], i, Turn(|h| - 1))])
  {
    PlayedBranch(h, |h| - 1, Place(h[|h| - 1], i, Turn(|h| - 1)));
    assert h[..|h|] == h;
  }
}
