// The turn and screen logic of the five-in-a-row game: the Options record, the
// handling of one tick's input events, the placement of a mark for the player to
// move, and the body of the main loop.

module Game {
  import opened Board

  /** Layout constants that map a mouse position to a cell: a cell is WIDTH x HEIGHT
      pixels with a MARGIN between cells. */
  const WIDTH: int := 40
  const HEIGHT: int := 40
  const MARGIN: int := 10

  /** The main loop plays on a SIZE x SIZE board. */
  const SIZE: int := 20

  /** The input events one tick can drain from the queue: closing the window, releasing a
      mouse button with the mouse at pixel (px, py), pressing a key, or anything else. */
  datatype Event = Quit | MouseUp(px: int, py: int) | KeyDown | Other

  /** An event that ends the handling of a tick's events. */
  predicate IsAction(e: Event) {
    e.MouseUp? || e.KeyDown?
  }

  /** The index of the first mouse release or key press among the events, or their number. */
  function FirstAction(events: seq<Event>): (k: nat)
    ensures k <= |events|
    ensures k < |events| ==> IsAction(events[k])
    ensures forall j :: 0 <= j < k ==> !IsAction(events[j])
  {
    if events == [] then 0
    else if IsAction(events[0]) then 0
    else 1 + FirstAction(events[1..])
  }

  /** The tick's events end in a key press, which asks for a restart. */
  predicate Resets(events: seq<Event>) {
    var k := FirstAction(events);
    k < |events| && events[k].KeyDown?
  }

  /** The tick's events end in a mouse release. */
  predicate Clicks(events: seq<Event>) {
    var k := FirstAction(events);
    k < |events| && events[k].MouseUp?
  }

  /** The cell under pixel (px, py). Dafny's division rounds down for a positive divisor,
      as the floor division of the game does. */
  function CellOf(px: int, py: int): (c: (int, int))
    ensures (WIDTH + MARGIN) * c.0 <= px < (WIDTH + MARGIN) * (c.0 + 1)
    ensures (HEIGHT + MARGIN) * c.1 <= py < (HEIGHT + MARGIN) * (c.1 + 1)
  {
    (px / (WIDTH + MARGIN), py / (HEIGHT + MARGIN))
  }

  /** The cell of the mouse release that ends the tick's events. */
  function ClickedCell(events: seq<Event>): (int, int)
    requires Clicks(events)
  {
    var e := events[FirstAction(events)];
    CellOf(e.px, e.py)
  }

  /** The player to move after `turn` has moved. */
  function Flip(turn: int): (t: int)
    ensures (t == X || t == O) && t != turn
  {
    if turn == X then O else X
  }

  /** The player the end screen names as winner: the blue crosses when `turn` is O,
      the red circles otherwise. */
  function Announced(turn: int): (w: int)
    ensures (w == X || w == O) && w != turn
    ensures (turn == X || turn == O) ==> w == Flip(turn)
  {
    if turn == O then X else O
  }

  /** Every cell is empty or holds one of the two marks. */
  predicate OnlyMarks(g: Grid, sizeX: int, sizeY: int)
    requires IsGrid(g, sizeX, sizeY)
  {
    forall y, x :: 0 <= y < sizeY && 0 <= x < sizeX ==> g[y][x] == UNKNOWN || g[y][x] == X || g[y][x] == O
  }

  /** O moves first: when O is to move both players have as many marks, when X is to
      move O has one more. */
  ghost predicate Balanced(g: Grid, turn: int) {
    (turn == O ==> |Marks(g, O)| == |Marks(g, X)|) &&
    (turn == X ==> |Marks(g, O)| == |Marks(g, X)| + 1)
  }

  /** The states the game can be in between ticks: exactly one screen is shown; the home
      screen shows an empty board; during play nobody has won; on the end screen the
      player it names has five in a line and the player to move has not; the end-screen
      timer runs only on the end screen. */
  ghost predicate Consistent(g: Grid, sizeX: int, sizeY: int, turn: int,
                             home: bool, game: bool, end: bool, tim: int)
    requires IsGrid(g, sizeX, sizeY)
  {
    (turn == X || turn == O) &&
    OnlyMarks(g, sizeX, sizeY) &&
    Balanced(g, turn) &&
    ((home && !game && !end) || (!home && game && !end) || (!home && !game && end)) &&
    (home ==> 0 <= sizeX && 0 <= sizeY && g == EmptyGrid(sizeX, sizeY)) &&
    (game ==> !HasWinner(g, sizeX, sizeY)) &&
    (end ==> HasRunOf(g, sizeX, sizeY, Announced(turn)) && !HasRunOf(g, sizeX, sizeY, turn)) &&
    (!end ==> tim == 0)
  }

  /** A fresh game: empty board, O to move, home screen, timer at 0. */
  lemma InitialConsistent(sizeX: nat, sizeY: nat)
    ensures Consistent(EmptyGrid(sizeX, sizeY), sizeX, sizeY, O, true, false, false, 0)
  {
  }

  /** Leaving the home screen for play keeps the game consistent. */
  lemma StartPlayConsistent(g: Grid, sizeX: int, sizeY: int, turn: int, tim: int)
    requires IsGrid(g, sizeX, sizeY)
    requires Consistent(g, sizeX, sizeY, turn, true, false, false, tim)
    ensures Consistent(g, sizeX, sizeY, turn, false, true, false, tim)
  {
  }

  /** A placement during play keeps the game consistent: the turn passes to the other
      player, and when the placement makes five in a line the end screen names the
      player who just moved. */
  lemma PlacementConsistent(g: Grid, sizeX: int, sizeY: int, turn: int, ax: int, ay: int, tim: int)
    requires IsGrid(g, sizeX, sizeY) && InGrid(sizeX, sizeY, ax, ay) && g[ay][ax] == UNKNOWN
    requires Consistent(g, sizeX, sizeY, turn, false, true, false, tim)
    ensures var h := Place(g, ax, ay, turn);
      var won := HasWinner(h, sizeX, sizeY);
      IsGrid(h, sizeX, sizeY) && Consistent(h, sizeX, sizeY, Flip(turn), false, !won, won, tim)
  {
    var h := Place(g, ax, ay, turn);
    MarksAfterPlace(g, sizeX, sizeY, ax, ay, turn, X);
    MarksAfterPlace(g, sizeX, sizeY, ax, ay, turn, O);
    assert Balanced(h, Flip(turn));
    OnlyMoverCanWin(g, sizeX, sizeY, ax, ay, turn);
    assert Announced(Flip(turn)) == turn;
    assert !HasRunOf(h, sizeX, sizeY, Flip(turn));
    assert OnlyMarks(h, sizeX, sizeY) by {
      forall y, x | 0 <= y < sizeY && 0 <= x < sizeX ensures h[y][x] == UNKNOWN || h[y][x] == X || h[y][x] == O {
        if (x, y) != (ax, ay) {
          assert h[y][x] == g[y][x];
        }
      }
    }
  }

  /** The game's Options record: whether to stop, whose turn it is, the restart request,
      the three screen flags and the last clicked cell. */
  class Options {
    var done: bool
    var turn: int
    var reset: bool
    var homeScreen: bool
    var gameScreen: bool
    var endScreen: bool
    var mousePos: (int, int)

    /** The values a new Options record starts with. */
    predicate Initial()
      reads this
    {
      !done && turn == O && !reset && homeScreen && !gameScreen && !endScreen && mousePos == (0, 0)
    }

    constructor ()
      ensures Initial()
    {
      done := false;
      turn := O;
      reset := false;
      homeScreen := true;
      gameScreen := false;
      endScreen := false;
      mousePos := (0, 0);
    }
  }

  /** Handles the events drained from the queue in one tick, in order: a Quit sets `done`
      and goes on; the first mouse release or key press ends the handling. A release on
      the home screen only switches to the game screen and answers false; elsewhere it
      records the clicked cell and answers true. A key press requests a restart and
      answers true. Without either the answer is false. */
  method Interaction(options: Options, events: seq<Event>) returns (acted: bool)
    modifies options
    ensures var k := FirstAction(events);
      options.done == (old(options.done) || Quit in events[..k])
    ensures acted == (Resets(events) || (Clicks(events) && !old(options.homeScreen)))
    ensures options.reset == (old(options.reset) || Resets(events))
    ensures options.turn == old(options.turn) && options.endScreen == old(options.endScreen)
    ensures Clicks(events) && old(options.homeScreen) ==> !options.homeScreen && options.gameScreen
    ensures !(Clicks(events) && old(options.homeScreen)) ==>
      options.homeScreen == old(options.homeScreen) && options.gameScreen == old(options.gameScreen)
    ensures options.mousePos ==
      if Clicks(events) && !old(options.homeScreen) then ClickedCell(events) else old(options.mousePos)
  {
    var i := 0;
    while i < |events|
      invariant i <= FirstAction(events)
      invariant options.done == (old(options.done) || Quit in events[..i])
      invariant options.turn == old(options.turn) && options.reset == old(options.reset)
      invariant options.homeScreen == old(options.homeScreen) && options.gameScreen == old(options.gameScreen)
      invariant options.endScreen == old(options.endScreen) && options.mousePos == old(options.mousePos)
    {
      assert events[..i + 1] == events[..i] + [events[i]];
      match events[i] {
        case Quit =>
          options.done := true;
        case MouseUp(px, py) =>
          if options.homeScreen {
            options.homeScreen := false;
            options.gameScreen := true;
            return false;
          }
          options.mousePos := CellOf(px, py);
          return true;
        case KeyDown =>
          options.reset := true;
          return true;
        case Other =>
      }
      i := i + 1;
    }
    return false;
  }

  /** Places a mark for the player to move on the clicked cell. A cell beyond the board's
      far edges, or one that insert refuses, changes nothing. After a placement the turn
      passes to the other player, and when the board now has a winner the end screen
      replaces the game screen. */
  method ChangePlayground(options: Options, playground: Playground)
    requires playground.Built()
    modifies options, playground
    ensures playground.Built()
    ensures options.done == old(options.done) && options.reset == old(options.reset)
    ensures options.homeScreen == old(options.homeScreen) && options.mousePos == old(options.mousePos)
    ensures var (mx, my) := options.mousePos;
      mx >= playground.sizeX || my >= playground.sizeY ==>
        playground.repre == old(playground.repre) && options.turn == old(options.turn) &&
        options.gameScreen == old(options.gameScreen) && options.endScreen == old(options.endScreen)
    ensures var (mx, my) := options.mousePos;
      mx < playground.sizeX && my < playground.sizeY ==>
        var (res, h) := Insertion(old(playground.repre.value), playground.sizeX, playground.sizeY, mx, my, old(options.turn));
        res != IndexError && playground.repre.value == h &&
        (res == Returned(true) ==>
          options.turn == Flip(old(options.turn)) &&
          (HasWinner(h, playground.sizeX, playground.sizeY) ==> options.endScreen && !options.gameScreen) &&
          (!HasWinner(h, playground.sizeX, playground.sizeY) ==>
            options.gameScreen == old(options.gameScreen) && options.endScreen == old(options.endScreen))) &&
        (res != Returned(true) ==>
          options.turn == old(options.turn) &&
          options.gameScreen == old(options.gameScreen) && options.endScreen == old(options.endScreen))
  {
    if options.mousePos.0 >= playground.sizeX || options.mousePos.1 >= playground.sizeY {
      return;
    }
    var x := options.mousePos.0;
    var y := options.mousePos.1;
    var placed := playground.Insert(x, y, options.turn);
    if placed == Returned(true) {
      if options.turn == X {
        options.turn := O;
      } else {
        options.turn := X;
      }
      var won := playground.CheckWinner();
      if won {
        options.endScreen := true;
        options.gameScreen := false;
        return;
      }
    }
  }

  /** The state the main loop keeps between ticks: the Options record, the board and the
      end-screen timer. */
  class Session {
    var options: Options
    const playground: Playground
    var tim: int
    /** A ghost log that each Tick extends by one entry: whether done was already set when
        the tick began, and the events it drained. */
    ghost var history: seq<(bool, seq<Event>)>

    ghost predicate Valid()
      reads this, options, playground
    {
      playground.sizeX == SIZE && playground.sizeY == SIZE && playground.Built() && !options.reset &&
      Consistent(playground.repre.value, SIZE, SIZE, options.turn,
                 options.homeScreen, options.gameScreen, options.endScreen, tim)
    }

    /** The board's cells. */
    function Cells(): Grid
      reads this, playground
      requires playground.Built()
    {
      playground.repre.value
    }

    /** The set-up before the loop: a new Options record, a 20 x 20 board made empty,
        the timer at 0. */
    constructor ()
      ensures Valid() && fresh(options) && fresh(playground)
      ensures options.Initial() && Cells() == EmptyGrid(SIZE, SIZE) && tim == 0
      ensures history == []
    {
      options := new Options();
      playground := new Playground(SIZE, SIZE);
      tim := 0;
      history := [];
      new;
      playground.MakeRepre();
      InitialConsistent(SIZE, SIZE);
    }

    /** A restart: the board is made empty again and a new Options record replaces the old. */
    method Restart()
      requires playground.sizeX == SIZE && playground.sizeY == SIZE && playground.Valid()
      modifies this, playground
      ensures Valid() && fresh(options) && options.Initial()
      ensures Cells() == EmptyGrid(SIZE, SIZE) && tim == 0
      ensures history == old(history)
    {
      playground.MakeRepre();
      options := new Options();
      tim := 0;
      InitialConsistent(SIZE, SIZE);
    }

    /** One pass of the main loop's body, rendering left out. */
    method Tick(events: seq<Event>)
      requires Valid()
      modifies this, options, playground
      ensures Valid()
      ensures history == old(history) + [(old(options.done), events)]
      ensures Resets(events) ==>
        fresh(options) && options.Initial() && Cells() == EmptyGrid(SIZE, SIZE) && tim == 0
      ensures !Resets(events) ==>
        options == old(options) &&
        options.done == (old(options.done) || Quit in events[..FirstAction(events)]) &&
        tim == old(tim) + (if options.endScreen then 1 else 0)
      ensures !Resets(events) && !Clicks(events) ==>
        Cells() == old(Cells()) && options.turn == old(options.turn) &&
        options.homeScreen == old(options.homeScreen) && options.gameScreen == old(options.gameScreen) &&
        options.endScreen == old(options.endScreen) && options.mousePos == old(options.mousePos)
      ensures Clicks(events) && old(options.homeScreen) ==>
        Cells() == old(Cells()) && options.turn == old(options.turn) &&
        !options.homeScreen && options.gameScreen && !options.endScreen &&
        options.mousePos == old(options.mousePos)
      ensures Clicks(events) && !old(options.homeScreen) ==>
        options.mousePos == ClickedCell(events) && !options.homeScreen
      ensures Clicks(events) && old(options.endScreen) ==>
        Cells() == old(Cells()) && options.turn == old(options.turn) &&
        options.endScreen && !options.gameScreen
      ensures Clicks(events) && old(options.gameScreen) ==>
        var (cx, cy) := ClickedCell(events);
        if InGrid(SIZE, SIZE, cx, cy) && old(Cells())[cy][cx] == UNKNOWN then
          Cells() == Place(old(Cells()), cx, cy, old(options.turn)) &&
          options.turn == Flip(old(options.turn)) &&
          options.endScreen == HasWinner(Cells(), SIZE, SIZE) && options.gameScreen == !options.endScreen
        else
          Cells() == old(Cells()) && options.turn == old(options.turn) &&
          options.gameScreen && !options.endScreen
    {
      ghost var g0 := Cells();
      ghost var turn0 := options.turn;
      ghost var home0, game0 := options.homeScreen, options.gameScreen;
      history := history + [(options.done, events)];
      var acted := Interaction(options, events);
      if acted && !options.endScreen && !options.homeScreen {
        if options.reset {
          Restart();
        } else {
          ChangePlayground(options, playground);
          var (cx, cy) := options.mousePos;
          if InGrid(SIZE, SIZE, cx, cy) && g0[cy][cx] == UNKNOWN {
            PlacementConsistent(g0, SIZE, SIZE, turn0, cx, cy, tim);
          }
        }
      } else if Clicks(events) && home0 {
        StartPlayConsistent(g0, SIZE, SIZE, turn0, tim);
      }
      if options.reset {
        Restart();
      } else if options.endScreen {
        tim := tim + 1;
      }
    }

    /** The main loop: one tick per batch of events, until a Quit has been handled or
        the batches run out. */
    method MainLoop(batches: seq<seq<Event>>) returns (ticks: nat)
      requires Valid()
      modifies this, options, playground
      ensures Valid()
      ensures ticks <= |batches|
      ensures ticks < |batches| ==> options.done
      ensures |history| == |old(history)| + ticks
      ensures forall i :: 0 <= i < ticks ==> history[|old(history)| + i] == (false, batches[i])
    {
      ticks := 0;
      while !options.done && ticks < |batches|
        invariant Valid() && ticks <= |batches|
        invariant options == old(options) || fresh(options)
        invariant |history| == |old(history)| + ticks
        invariant forall i :: 0 <= i < ticks ==> history[|old(history)| + i] == (false, batches[i])
        decreases |batches| - ticks
      {
        Tick(batches[ticks]);
        ticks := ticks + 1;
      }
    }
  }
}
