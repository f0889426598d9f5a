# Five in a row: board and game-phase model

This Dafny project models the core of a two-player "five in a row" game (main.py). It has two modules.

- `Board` (board.dfy) models the `Playground` class. It is a `size_y x size_x` grid of cell codes
  `UNKNOWN = 0`, `X = 1` and `O = 2`, and it has three kinds of operation:
  - `make_repre` builds the grid, or leaves it alone when a dimension is below 5.
  - `insert` is a bounds-checked write. It changes each cell at most once.
  - Four directional checks and `check_winner` look for five equal cells in a line.

  The class keeps its grid as an `Option<seq<seq<int>>>` field, which is `None` until `make_repre`
  succeeds. `insert` rewrites that field one cell at a time. The checks are methods with loops, and
  each is proved equal to a declarative predicate: `Run` holds when all five cells from the start
  cell lie inside the grid and hold the value; `HasWinner` holds when some marked cell starts a
  run of its own mark.
- `Game` (game.dfy) models the turn and screen logic:
  - the `Options` record;
  - `interaction`, which handles the events drained in one tick;
  - `change_playground`, which places the mark of the player to move;
  - the main loop, as a `Session` class. It holds the loop's locals `options`, `playground` and
    `tim`. `Tick` is one pass of the loop body and `MainLoop` is the loop.

  `Session.Valid` is the invariant that every tick keeps (`Consistent`):
  - the turn is X or O, and every cell is empty, X or O;
  - O moved first, so when O is to move both players have as many marks, and when X is to move
    O has one more;
  - exactly one of the three screen flags is set;
  - on the home screen the board is empty;
  - during play nobody has five in a line;
  - on the end screen the player that the end screen names has five in a line and the player to
    move has none;
  - the timer is 0 except on the end screen.

The model follows the code as written, including its quirks:
- `insert` compares `a_y` against `size_x`, not `size_y` (main.py:22). On a board taller than it
  is wide, the rows from `size_x` down are refused. On a board wider than it is tall, `a_y` in
  `[size_y, size_x)` passes the guard and then indexes a row that does not exist. The model gives
  this case the outcome `IndexError`. `change_playground` checks `y < size_y` first, so the proved
  contract of `ChangePlayground` shows it never reaches that outcome.
- `insert` accepts any value, including `UNKNOWN`. A cell written with `UNKNOWN` stays open for a
  second insert (`SecondInsertRefused`).
- `change_playground` flips the turn before the win check. After a win, `turn` therefore holds the
  player who did not move. The end screen reads it that way: `Announced` is the player it would name,
  and `PlacementConsistent` proves that this player is the one with five in a line. The main loop
  never calls `end_scr`: its only call is in the branch at main.py:268-270, and the `end_screen`
  branch at main.py:262 is taken first. `Announced` therefore models what `end_scr` would name.
  What the invariant establishes is that the player not to move has five in a line.
- A mouse release leaves the home screen. A key press in any phase requests a restart. The
  restart builds a new `Options`, whose `home_screen` is `True`, so a key press returns to the home
  screen, and the timer is set to 0.
- A restart replaces the whole `Options` record. If a Quit and a key press come in the same tick,
  the `done` flag set by the Quit is lost with the old record (`Tick` states this: its new
  `options` is `Initial()`).

## Model

| member | source | states |
|---|---|---|
| Board.EmptyGrid | main.py:18 | the built grid has size_y rows of size_x cells, all UNKNOWN |
| Board.Place | main.py:26 | writing one cell gives v at (x, y), every other cell unchanged, same shape |
| Board.Insertion | main.py:21-27 | insert gives true exactly when 0 <= a_x < size_x, 0 <= a_y < size_y, a_y < size_x and the cell is UNKNOWN, and then writes just that cell; IndexError exactly when the guard passes a row a_y >= size_y; otherwise false with the grid unchanged |
| Board.Playground.constructor | main.py:9-12 | the dimensions are stored and the grid is absent |
| Board.Playground.MakeRepre | main.py:14-19 | with both dimensions >= 5 the grid is a fresh all-UNKNOWN size_y x size_x grid; with either below 5 the grid is left as it was |
| Board.Playground.Insert | main.py:21-27 | the result and the new grid are those of Insertion on the old grid; the grid keeps its shape |
| Board.Playground.CheckRow | main.py:29-35 | true iff the five cells (a_x..a_x+4, a_y) lie in the grid and all equal value |
| Board.Playground.CheckCol | main.py:37-43 | true iff the five cells (a_x, a_y..a_y+4) lie in the grid and all equal value |
| Board.Playground.CheckDiagRight | main.py:45-51 | true iff the five cells (a_x+k, a_y+k) lie in the grid and all equal value |
| Board.Playground.CheckDiagLeft | main.py:53-59 | true iff the five cells (a_x-k, a_y+k) lie in the grid and all equal value |
| Board.Playground.CheckWinner | main.py:61-72 | true iff some cell holds a value other than UNKNOWN and one of the four checks holds from it with that value |
| Board.FreshBoardHasNoWinner | main.py:14-19 | check_winner is false on a freshly made board |
| Board.RunMakesWinner | main.py:61-72 | five equal marks in a line in any of the four directions make check_winner true |
| Board.FewerThanFiveMarksNoWinner | main.py:61-72 | a grid with fewer than five non-empty cells (for example four in a row) has no winner |
| Board.RunSurvivesPlacement | main.py:21-27 | a run of a value other than the one written already existed before the write |
| Board.OnlyMoverCanWin | main.py:175-181 | after writing v on a board without a winner, no other mark has five in a line, and any winner is a run of v |
| Board.MarksAfterPlace | main.py:21-27 | writing a mark on an empty cell gives that mark one more cell and leaves the other marks' cells unchanged |
| Board.OccupiedAfterPlace | main.py:21-27 | writing a mark on an empty cell adds exactly one occupied cell |
| Board.SecondInsertRefused | main.py:21-27 | after a successful insert of a mark, a second insert on that cell gives false and changes nothing; after an insert of UNKNOWN it succeeds again |
| Board.TopRow | main.py:21-27 | the 20 x 20 board after X at (0,0) .. (n-1,0) holds X exactly there and UNKNOWN elsewhere |
| Board.TopRowOccupied | main.py:21-27 | that board has exactly n occupied cells |
| Board.TopRowWinsFromFive | main.py:61-72 | each of those inserts succeeds, and the board has a winner exactly when n >= 5: four marks are no win, the fifth is |
| Game.FirstAction | main.py:148-166 | the index of the first mouse release or key press, with no such event before it, or the number of events |
| Game.CellOf | main.py:160 | the clicked cell is the one whose 50-pixel band (WIDTH + MARGIN, HEIGHT + MARGIN) contains the mouse position, rounding down |
| Game.Flip | main.py:176-179 | the turn after a move is a mark, X or O, different from the old turn |
| Game.Announced | main.py:189-194 | end_scr would name X when turn is O and O otherwise: the player who is not to move (the main loop never reaches that call) |
| Game.InitialConsistent | main.py:76-84 | a fresh Options with an empty board meets the game invariant |
| Game.StartPlayConsistent | main.py:153-156 | leaving the home screen for the game screen keeps the invariant |
| Game.PlacementConsistent | main.py:170-186 | a placement in play keeps the invariant: the turn flips, the mark counts stay balanced, a win moves to the end screen, and the player that the end screen names has five in a line while the player to move has none |
| Game.Options.constructor | main.py:76-85 | a new record has done false, turn O, reset false, only home_screen set, mouse_pos (0, 0) |
| Game.Interaction | main.py:147-167 | done is set iff a Quit comes before the first release or key press; a release on the home screen only clears home_screen and sets game_screen and gives false; otherwise a release sets mouse_pos to the clicked cell and gives true; a key press sets reset and gives true; turn and end_screen are unchanged |
| Game.ChangePlayground | main.py:170-186 | a cell beyond the board's far edges or a refused insert changes nothing; insert never raises there; a placement flips the turn, and a winner then sets end_screen and clears game_screen |
| Game.Session.constructor | main.py:235-240 | the loop starts with a new Options, an empty 20 x 20 board and tim 0, meeting the invariant |
| Game.Session.Restart | main.py:254-260 | the board is made empty, a new Options replaces the old, tim is 0 |
| Game.Session.Tick | main.py:242-263 | a key press in any phase ends the tick with an empty board, a fresh Options and tim 0; otherwise tim grows by 1 exactly when end_screen is set; a release at home only switches to the game screen; placement happens only on the game screen, at the clicked cell, for the player to move; the tick is recorded with its events and the done flag it began with; the invariant is kept |
| Game.Session.MainLoop | main.py:242-280 | the loop stops after `ticks` iterations, with done set or the batches used up; the ghost log gains one entry `(false, batches[i])` per iteration i, in order; the invariant is kept |

## Left out

- Rendering is not modelled: `draw_cross`, `draw_crircle`, `draw_empty`, `draw_playground` (with its call inside `change_playground`), the drawing in `end_scr` and `home_screen`, `init_pygame`, the colour and screen-size constants, and the display branches of the main loop (main.py:265-274). These are graphics calls with no game logic. Of `end_scr`, only its choice of the winner to name is modelled (`Announced`).
- The Options fields `screen`, `clock`, `screen_size`, `margin`, `width` and `height` are left out; only the renderer uses them.
- The pygame event queue is a parameter: each tick gets the drained events as a sequence. A mouse release carries the mouse position that `pygame.mouse.get_pos()` reads while the event is handled.
- `clock.tick(60)`, `pygame.display.flip()` and `pygame.quit()` are left out. They are frame pacing and I/O.
- The `print` diagnostics (main.py:16, 157, 164) are left out.
- Board.Playground.Insert: requires a built grid; before a successful make_repre, insert raises TypeError on `None` once the bounds guard at main.py:22 passes, while a position the guard rejects still gives False; this unbuilt case is not modelled.
- Board.Playground.CheckRow: requires a start cell inside the grid (as check_winner, its only caller, always passes); other starts index with Python's negative-index wrap-around or raise IndexError, which is not modelled.
- Board.Playground.CheckCol: requires a start cell inside the grid, for the same reason as CheckRow.
- Board.Playground.CheckDiagRight: requires a start cell inside the grid, for the same reason as CheckRow.
- Board.Playground.CheckDiagLeft: requires a start cell inside the grid, for the same reason as CheckRow.
- Board.Playground.CheckWinner: requires a built grid, for the same reason as Insert.
- Game.Session.MainLoop: models a run of the loop over a finite list of ticks; a session that neither quits nor ends its input is not modelled. Its contract gives the kept invariant, the exit condition and one ghost `history` entry `(false, batches[i])` per iteration. `MainLoop` may write `history` itself, so the contract alone does not show that each iteration ran `Tick`; that is visible only in the body. The state after the run is not stated as a fold of `Tick` over the batches.
