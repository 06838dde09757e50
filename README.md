# Tic-tac-toe game logic, verified in Dafny

This project models the game logic of a React tic-tac-toe app (`src/App.js`)
with its view code removed. There are two parts:

- **Board evaluation.** These are pure functions over a nine-square board:
  - `calculateWinner` scans the eight lines in a fixed order.
  - `isDraw` tests for a full board.
  - `checkGameEnd` checks for a winner before checking for a draw.
  - `calculateWinChance` gives the percentage of lines a player can still complete.
  - `getAchievement` maps a win count to a tier.
- **The App state machine.** The state is:
  - the move history, a sequence of board snapshots;
  - the current move pointer;
  - the log of finished games;
  - the per-player win counts.

  It is updated by these operations:
  - `handleClick` plays a square, guarded against occupied squares and finished boards.
  - `handlePlay` truncates the history at the current move, appends the new board and records a finished game.
  - `jumpTo` moves the pointer.
  - `resetGame` starts a new game but keeps the session's results.

## Files

| file | module | contents |
|---|---|---|
| `wrappers.dfy` | `Wrappers` | `Option`, standing in for the source's `null` |
| `board_evaluator.dfy` | `BoardEvaluator` | cells, boards and lines; `Winner`, `IsDraw`, `GameEnd`, the `WinChance` loop and their lemmas |
| `achievements.dfy` | `Achievements` | tiers and `Achievement` |
| `session.dfy` | `Session` | the game log, the win totals it implies, and how logging one game moves them |
| `history.dfy` | `History` | the turn rule, legal moves, and the invariant `Played` of the move history, with its lemmas |
| `app.dfy` | `TicTacToe` | `class App`, whose fields are the four state variables and whose methods are the four handlers |
| `scenarios.dfy` | `Scenarios` | two complete games written out move by move, and the last click of each played on the App |

These are the modelling choices:

- A square is `Empty` or `Mark(X)`/`Mark(O)`, so a winner can only ever be X or O.
- Each React state setter becomes an assignment to a field of `App`.
- A functional updater (`prev => …`) reads the value assigned just before it. There is no concurrency to model.
- `Math.round(possible / 8 * 100)` becomes the exact integer `(possible * 25 + 1) / 2`. `possible / 8` is a multiple of 1/8, so the float expression is exact, and `Math.round` rounds halves up.
- `App.Valid()` is the class invariant:
  - the history is a game that can actually be played (`Played`);
  - the pointer lies inside it;
  - the log is numbered 1, 2, 3, …;
  - the win counts equal the wins recorded in the log.

On `X O _ / _ X _ / _ _ X` six lines are still open for X, so X's chance is 75% (`DiagonalBoardChanceX`). Three open lines give 38% (`ThreeLinesChance`).

## Model

| member | source | states |
|---|---|---|
| BoardEvaluator.Lines | src/App.js:172-181 | the three rows, three columns and two diagonals, in the order in which they are scanned |
| BoardEvaluator.Owned | src/App.js:184 | the test applied to a line: its first square is non-empty and equal to the other two |
| BoardEvaluator.FirstOwnedMark | src/App.js:183-188 | the for-of scan with early return; its contract is FirstOwnedMarkScan |
| BoardEvaluator.Winner | src/App.js:171-189 | calculateWinner, the scan over Lines; its contract is WinnerIsFirstOwnedLine |
| BoardEvaluator.GameEnd | src/App.js:195-200 | checkGameEnd, the winner tested before the draw; its contract is GameEndClassifies |
| BoardEvaluator.Open | src/App.js:216-219 | the `line.every(...)` test: every square of the line is empty or holds the player's mark |
| BoardEvaluator.FirstOwnedMarkScan | src/App.js:183-188 | the scan over lines returns None exactly when no line has three equal non-empty squares, and otherwise the mark filling the first such line in order |
| BoardEvaluator.WinnerIsFirstOwnedLine | src/App.js:171-189 | calculateWinner is None iff no line of the eight (in the source's order) is complete, and otherwise returns the player who fills the first complete line |
| BoardEvaluator.IsDraw | src/App.js:191-193 | isDraw holds exactly when every square is non-empty |
| BoardEvaluator.GameEndClassifies | src/App.js:195-200 | checkGameEnd returns None iff there is no complete line and some square is empty; it returns Draw iff there is no complete line and the board is full; any complete line makes it a win for the owner of the first complete line |
| BoardEvaluator.WinnerTakesPrecedence | src/App.js:195-200 | a board with a line completed by some player ends the game and is never a draw, even when it is full |
| BoardEvaluator.OpenCount | src/App.js:214-223 | the number of open lines never exceeds the number of lines scanned |
| BoardEvaluator.Percent | src/App.js:225 | the result is 100·count/8 rounded to the nearest integer with halves rounded up, and is at most 100 for at most 8 lines |
| BoardEvaluator.WinChance | src/App.js:202-226 | the loop's result is the rounded percentage of the eight lines whose squares are all empty or `p`'s, and lies between 0 and 100 |
| BoardEvaluator.OpenSetSnoc | src/App.js:215-222 | scanning one more line adds its position to the set of open lines exactly when it is open |
| BoardEvaluator.OpenCountIsCardinality | src/App.js:214-223 | the counter equals the number of distinct open lines, so each open line is counted exactly once |
| BoardEvaluator.OpenCountFull | src/App.js:214-223 | all lines are counted iff every line is open |
| BoardEvaluator.LinesPrefixCount | src/App.js:215-222 | each loop step adds one exactly when the line it inspects is open |
| BoardEvaluator.EmptyBoardChance | src/App.js:202-226 | on the empty board both X and O have a 100% chance |
| BoardEvaluator.ThreeLinesChance | src/App.js:225 | three open lines give 38% (37.5 rounded up) |
| BoardEvaluator.DiagonalBoardChanceX | src/App.js:202-226 | on X O _ / _ X _ / _ _ X, X has 75% |
| BoardEvaluator.DiagonalBoardChanceO | src/App.js:202-226 | on the same board O has 0%, because every line holds an X |
| Achievements.Achievement | src/App.js:228-233 | the tier is Gold iff wins ≥ 20, Silver iff 10 ≤ wins < 20, Bronze iff 5 ≤ wins < 10, and no award iff wins < 5 |
| Achievements.AchievementMonotone | src/App.js:228-233 | more wins never give a lower tier |
| Achievements.AchievementStep | src/App.js:228-233 | one more win raises the tier by at most one step |
| Session.Count | src/App.js:81-94 | the summary of the results log that ties `winCount` to it in the class invariant: the number of logged games with a given outcome, never more than the log's length |
| Session.Totals | src/App.js:70 | the win totals have an entry for both X and O, equal to the number of logged wins for that player |
| Session.CountAppend | src/App.js:83-86 | appending a game adds one to the count of its outcome and zero to every other count |
| Session.CountPartition | src/App.js:81-94 | the wins of X, the wins of O and the draws add up to the number of logged games |
| Session.RecordGame | src/App.js:81-94 | appending result number old length + 1 keeps the log numbered; a win adds one to the winner's total only, and a draw changes no total |
| History.Turn | src/App.js:73 | the xIsNext rule: X moves when the move number is even, O when it is odd; its contract is PlayedMarks |
| History.Place | src/App.js:19-20 | the copied board with square i set to the mover's mark; its contract is MarksAfterFill and PlaceOwnsOnlyForMover |
| History.MarksNone | src/App.js:67 | the empty board holds no marks |
| History.MarksAfterFill | src/App.js:19-20 | filling an empty square adds one mark for its new owner and none for the other player |
| History.MarksTotal | src/App.js:19-20 | the marks of X and O together never exceed the number of squares |
| History.PlayedMarks | src/App.js:73 | the turn rule alternates: after move m, X has (m+1)/2 marks and O has m/2 |
| History.PlayedLength | src/App.js:16-21 | a history has at most ten boards, because at most nine moves fit on the board |
| History.PlaceOwnsOnlyForMover | src/App.js:16-21 | on a board with no complete line, a new mark can complete only lines of the player who placed it |
| History.PlayedWinnerMovedLast | src/App.js:16-21 | every complete line on a board in the history belongs to the player who made the last move, and so does the winner |
| History.PlayedOnlyLastTerminal | src/App.js:16-21 | only the last board of a history can have ended the game, since clicks on a finished board are ignored |
| History.PlayedPrefix | src/App.js:77 | a prefix of a playable history is a playable history |
| History.PlayedBranch | src/App.js:77 | truncating after move m and appending a legal move gives a playable history of length m + 2 |
| History.PlaceKeepsOwned | src/App.js:19-20 | marks are never removed, so a board whose successor has no complete line has none either |
| History.PlayedExtend | src/App.js:16-21 | playing a legal move on the last board extends a playable history |
| TicTacToe.App.constructor | src/App.js:67-70 | the initial state is one empty board, move 0, an empty log and zero wins for X and O, and it satisfies the invariant |
| TicTacToe.App.CurrentSquares | src/App.js:74 | the board of the current move, defined whenever the class invariant holds |
| TicTacToe.App.HandleClick | src/App.js:16-21 | a click on a board with a winner, or on an occupied square, changes nothing; otherwise the state becomes exactly the one handlePlay gives for the current board with square i set to X on even moves and O on odd ones |
| TicTacToe.App.HandlePlay | src/App.js:76-95 | the history becomes history[0..currentMove] + [next], with its earlier entries unchanged, and the pointer moves to the new last entry; a finished game appends exactly one result numbered after the old log, and a win adds one to the winner's count only; otherwise the log and the counts are unchanged; the invariant is kept |
| TicTacToe.App.JumpTo | src/App.js:97-99 | only the pointer changes, it becomes `move`, and the invariant is kept |
| TicTacToe.App.ResetGame | src/App.js:101-104 | the history becomes one empty board and the pointer 0, while the log and the win counts are kept |
| Scenarios.TopRowGamePlayed | src/App.js:16-21 | clicking 0, 3, 1, 4, 2 gives a playable history whose fifth board is a win for X |
| Scenarios.DrawGamePlayed | src/App.js:16-21 | clicking 0, 1, 2, 4, 3, 5, 7, 6, 8 gives a playable history whose ninth board is a draw |
| Scenarios.TopRowLastClick | src/App.js:76-95 | X's last click of the top-row game, in a session with no earlier games, completes the history, logs game 1 as X's win and sets the counts to X 1 and O 0 |
| Scenarios.DrawLastClick | src/App.js:76-95 | X's last click of the draw game, in a session with no earlier games, completes the history, logs game 1 as a draw and leaves both counts at 0 |

## Left out

- The JSX view is not modelled: `Square` and `Board` rendering, the status line, the move-list buttons, the results list, the win-chance and win-count display, and CSS (src/App.js:4-13, 24-63, 106-168).
- The Turkish display strings are not modelled. Each tier label is a `Tier` constructor, and each result string is an `Outcome`.
- The `showAchievementInfo` toggle and its info panel are not modelled, because they are pure UI.
- React's `useState` scheduling and re-rendering are not modelled. Setters are sequential field assignments.
- Float arithmetic in `calculateWinChance` is not modelled. It is replaced by the exact integer formula, which agrees with it for every count from 0 to 8.
- TicTacToe.App.HandleClick: the board update `squares.slice()` followed by `nextSquares[i] = …` is modelled as a sequence update. The model does not capture aliasing between the copy and the old snapshot, which the copy rules out anyway.
- TicTacToe.App.HandlePlay: requires its argument to be a legal move from the current board. In the source its only caller is `handleClick` (passed as `onPlay`, src/App.js:117), and that caller always passes such a board.
- TicTacToe.App.JumpTo: requires `move < |history|`. The source calls it only from the move list, which offers exactly the indices of `history` (src/App.js:106-108).
