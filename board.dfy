// The board of the five-in-a-row game: a size_y x size_x grid of cell codes,
// write-once placement, and the search for five equal cells in a line.

module Board {

  /** Cell codes: an empty cell and the two players' marks. */
  const UNKNOWN: int := 0
  const X: int := 1
  const O: int := 2

  datatype Option<T> = None | Some(value: T)

  /** What one call of `insert` does: return a bool, or raise IndexError
      because the row it indexes does not exist. */
  datatype Outcome = Returned(ok: bool) | IndexError

  /** The four directions a five-cell check walks from its start cell. */
  datatype Direction = Row | Col | DiagRight | DiagLeft

  /** The grid, row by row: g[y][x] is the cell in column x of row y. */
  type Grid = seq<seq<int>>

  predicate IsGrid(g: Grid, sizeX: int, sizeY: int) {
    |g| == sizeY && forall y :: 0 <= y < |g| ==> |g[y]| == sizeX
  }

  predicate InGrid(sizeX: int, sizeY: int, x: int, y: int) {
    0 <= x < sizeX && 0 <= y < sizeY
  }

  /** The grid that make_repre builds: size_y rows of size_x empty cells. */
  function EmptyGrid(sizeX: nat, sizeY: nat): (g: Grid)
    ensures IsGrid(g, sizeX, sizeY)
    ensures forall y, x :: 0 <= y < sizeY && 0 <= x < sizeX ==> g[y][x] == UNKNOWN
  {
    seq(sizeY, _ => seq(sizeX, _ => UNKNOWN))
  }

  /** The grid with the one cell (x, y) overwritten by v. */
  function Place(g: Grid, x: int, y: int, v: int): (r: Grid)
    requires 0 <= y < |g| && 0 <= x < |g[y]|
    ensures |r| == |g| && forall j :: 0 <= j < |g| ==> |r[j]| == |g[j]|
    ensures r[y][x] == v
    ensures forall j, i :: 0 <= j < |g| && 0 <= i < |g[j]| && (i, j) != (x, y) ==> r[j][i] == g[j][i]
  {
    g[y := g[y][x := v]]
  }

  /** What insert(ax, ay, value) does to grid g: the result it gives and the grid
      afterwards. Its bounds guard compares ay against sizeX, not sizeY. */
  function Insertion(g: Grid, sizeX: int, sizeY: int, ax: int, ay: int, value: int): (r: (Outcome, Grid))
    requires IsGrid(g, sizeX, sizeY)
    ensures r.0 == IndexError <==> 0 <= ax < sizeX && sizeY <= ay < sizeX
    ensures r.0 == Returned(true) <==> InGrid(sizeX, sizeY, ax, ay) && ay < sizeX && g[ay][ax] == UNKNOWN
    ensures r.0 == Returned(true) ==> r.1 == Place(g, ax, ay, value)
    ensures r.0 != Returned(true) ==> r.1 == g
  {
    if ax < 0 || ax >= sizeX || ay < 0 || ay >= sizeX then (Returned(false), g)
    else if ay >= |g| then (IndexError, g)
    else if g[ay][ax] != UNKNOWN then (Returned(false), g)
    else (Returned(true), Place(g, ax, ay, value))
  }

  /** Column of the k-th cell of the span that starts in column x and walks in direction d. */
  function StepX(d: Direction, x: int, k: int): int {
    match d
    case Row => x + k
    case Col => x
    case DiagRight => x + k
    case DiagLeft => x - k
  }

  /** Row of the k-th cell of the span that starts in row y and walks in direction d. */
  function StepY(d: Direction, y: int, k: int): int {
    match d
    case Row => y
    case Col => y + k
    case DiagRight => y + k
    case DiagLeft => y + k
  }

  /** The five cells from (x, y) in direction d all lie in the grid and all hold v. */
  predicate Run(g: Grid, sizeX: int, sizeY: int, x: int, y: int, d: Direction, v: int)
    requires IsGrid(g, sizeX, sizeY)
  {
    forall k :: 0 <= k < 5 ==>
      InGrid(sizeX, sizeY, StepX(d, x, k), StepY(d, y, k)) && g[StepY(d, y, k)][StepX(d, x, k)] == v
  }

  /** One of the four directional checks holds from (x, y) with value v. */
  predicate RunFrom(g: Grid, sizeX: int, sizeY: int, x: int, y: int, v: int)
    requires IsGrid(g, sizeX, sizeY)
  {
    Run(g, sizeX, sizeY, x, y, Row, v) || Run(g, sizeX, sizeY, x, y, Col, v) ||
    Run(g, sizeX, sizeY, x, y, DiagRight, v) || Run(g, sizeX, sizeY, x, y, DiagLeft, v)
  }

  /** The cell (x, y) is marked and starts a run of its own mark. */
  predicate WinsAt(g: Grid, sizeX: int, sizeY: int, x: int, y: int)
    requires IsGrid(g, sizeX, sizeY) && InGrid(sizeX, sizeY, x, y)
  {
    g[y][x] != UNKNOWN && RunFrom(g, sizeX, sizeY, x, y, g[y][x])
  }

  /** Some cell of the grid wins: what check_winner looks for. */
  ghost predicate HasWinner(g: Grid, sizeX: int, sizeY: int)
    requires IsGrid(g, sizeX, sizeY)
  {
    exists x, y :: InGrid(sizeX, sizeY, x, y) && WinsAt(g, sizeX, sizeY, x, y)
  }

  /** Some five cells in a line hold v. */
  ghost predicate HasRunOf(g: Grid, sizeX: int, sizeY: int, v: int)
    requires IsGrid(g, sizeX, sizeY)
  {
    exists x, y :: InGrid(sizeX, sizeY, x, y) && RunFrom(g, sizeX, sizeY, x, y, v)
  }

  /** The positions (x, y) of the cells holding v. */
  ghost function Marks(g: Grid, v: int): set<(int, int)> {
    set y, x | 0 <= y < |g| && 0 <= x < |g[y]| && g[y][x] == v :: (x, y)
  }

  /** The positions (x, y) of the cells that are not empty. */
  ghost function Occupied(g: Grid): set<(int, int)> {
    set y, x | 0 <= y < |g| && 0 <= x < |g[y]| && g[y][x] != UNKNOWN :: (x, y)
  }

  /** A freshly made board has no winner: every cell is empty. */
  lemma FreshBoardHasNoWinner(sizeX: nat, sizeY: nat)
    ensures !HasWinner(EmptyGrid(sizeX, sizeY), sizeX, sizeY)
  {
  }

  /** Five equal marks in a line make check_winner true. */
  lemma RunMakesWinner(g: Grid, sizeX: int, sizeY: int, x: int, y: int, d: Direction, v: int)
    requires IsGrid(g, sizeX, sizeY) && v != UNKNOWN
    requires Run(g, sizeX, sizeY, x, y, d, v)
    ensures HasWinner(g, sizeX, sizeY)
  {
    assert StepX(d, x, 0) == x && StepY(d, y, 0) == y;
    assert WinsAt(g, sizeX, sizeY, x, y);
  }

  /** The five positions of the span from (x, y) in direction d. */
  function Span(d: Direction, x: int, y: int): (s: set<(int, int)>)
    ensures |s| == 5
  {
    var s := {(StepX(d, x, 0), StepY(d, y, 0)), (StepX(d, x, 1), StepY(d, y, 1)),
              (StepX(d, x, 2), StepY(d, y, 2)), (StepX(d, x, 3), StepY(d, y, 3)),
              (StepX(d, x, 4), StepY(d, y, 4))};
    s
  }

  lemma SubsetCardinality<T>(a: set<T>, b: set<T>)
    requires a <= b
    ensures |a| <= |b|
  {
    assert b == a + (b - a);
  }

  /** A winner needs five marked cells: a grid with fewer than five marks, such as
      four in a row and nothing else, has no winner. */
  lemma FewerThanFiveMarksNoWinner(g: Grid, sizeX: int, sizeY: int)
    requires IsGrid(g, sizeX, sizeY) && |Occupied(g)| < 5
    ensures !HasWinner(g, sizeX, sizeY)
  {
    if HasWinner(g, sizeX, sizeY) {
      var x, y :| InGrid(sizeX, sizeY, x, y) && WinsAt(g, sizeX, sizeY, x, y);
      var v := g[y][x];
      var d :| Run(g, sizeX, sizeY, x, y, d, v);
      forall p | p in Span(d, x, y) ensures p in Occupied(g) {
        var k :| 0 <= k < 5 && p == (StepX(d, x, k), StepY(d, y, k));
        assert Run(g, sizeX, sizeY, x, y, d, v);
        assert InGrid(sizeX, sizeY, StepX(d, x, k), StepY(d, y, k));
        assert InGrid(sizeX, sizeY, p.0, p.1) && g[p.1][p.0] == v;
      }
      SubsetCardinality(Span(d, x, y), Occupied(g));
      assert false;
    }
  }

  /** A run of any value other than the one just placed was already there before the placement. */
  lemma RunSurvivesPlacement(g: Grid, sizeX: int, sizeY: int, ax: int, ay: int, v: int,
                             x: int, y: int, d: Direction, w: int)
    requires IsGrid(g, sizeX, sizeY) && InGrid(sizeX, sizeY, ax, ay) && w != v
    requires Run(Place(g, ax, ay, v), sizeX, sizeY, x, y, d, w)
    ensures Run(g, sizeX, sizeY, x, y, d, w)
  {
  }

  /** Placing v on a board without a winner can only create runs of v: after it
      there is no run of any other mark, and a winner, if any, is a run of v. */
  lemma OnlyMoverCanWin(g: Grid, sizeX: int, sizeY: int, ax: int, ay: int, v: int)
    requires IsGrid(g, sizeX, sizeY) && InGrid(sizeX, sizeY, ax, ay)
    requires !HasWinner(g, sizeX, sizeY)
    ensures forall w :: w != v && w != UNKNOWN ==> !HasRunOf(Place(g, ax, ay, v), sizeX, sizeY, w)
    ensures HasWinner(Place(g, ax, ay, v), sizeX, sizeY) ==> HasRunOf(Place(g, ax, ay, v), sizeX, sizeY, v)
  {
    var h := Place(g, ax, ay, v);
    forall w | w != v && w != UNKNOWN ensures !HasRunOf(h, sizeX, sizeY, w) {
      if HasRunOf(h, sizeX, sizeY, w) {
        var x, y :| InGrid(sizeX, sizeY, x, y) && RunFrom(h, sizeX, sizeY, x, y, w);
        var d: Direction :| Run(h, sizeX, sizeY, x, y, d, w);
        RunSurvivesPlacement(g, sizeX, sizeY, ax, ay, v, x, y, d, w);
        RunMakesWinner(g, sizeX, sizeY, x, y, d, w);
        assert false;
      }
    }
    if HasWinner(h, sizeX, sizeY) {
      var x, y :| InGrid(sizeX, sizeY, x, y) && WinsAt(h, sizeX, sizeY, x, y);
      assert RunFrom(h, sizeX, sizeY, x, y, h[y][x]);
      assert HasRunOf(h, sizeX, sizeY, h[y][x]);
    }
  }

  /** Placing a mark v != UNKNOWN on an empty cell adds that cell to the marks of v
      and leaves the marks of every other non-empty value as they were. */
  lemma MarksAfterPlace(g: Grid, sizeX: int, sizeY: int, ax: int, ay: int, v: int, w: int)
    requires IsGrid(g, sizeX, sizeY) && InGrid(sizeX, sizeY, ax, ay)
    requires g[ay][ax] == UNKNOWN && v != UNKNOWN && w != UNKNOWN
    ensures w == v ==> |Marks(Place(g, ax, ay, v), w)| == |Marks(g, w)| + 1
    ensures w != v ==> Marks(Place(g, ax, ay, v), w) == Marks(g, w)
  {
    var h := Place(g, ax, ay, v);
    if w == v {
      assert (ax, ay) !in Marks(g, w);
      assert Marks(h, w) == Marks(g, w) + {(ax, ay)} by {
        forall p | p in Marks(h, w) ensures p in Marks(g, w) + {(ax, ay)} {
          if p != (ax, ay) {
            assert g[p.1][p.0] == w;
          }
        }
        forall p | p in Marks(g, w) + {(ax, ay)} ensures p in Marks(h, w) {
          if p != (ax, ay) {
            assert h[p.1][p.0] == w;
          }
        }
      }
    } else {
      forall p | p in Marks(h, w) ensures p in Marks(g, w) {
        assert g[p.1][p.0] == w;
      }
      forall p | p in Marks(g, w) ensures p in Marks(h, w) {
        assert h[p.1][p.0] == w;
      }
    }
  }

  /** Placing a mark v != UNKNOWN on an empty cell adds exactly that cell to the occupied ones. */
  lemma OccupiedAfterPlace(g: Grid, sizeX: int, sizeY: int, ax: int, ay: int, v: int)
    requires IsGrid(g, sizeX, sizeY) && InGrid(sizeX, sizeY, ax, ay)
    requires g[ay][ax] == UNKNOWN && v != UNKNOWN
    ensures |Occupied(Place(g, ax, ay, v))| == |Occupied(g)| + 1
  {
    var h := Place(g, ax, ay, v);
    assert (ax, ay) !in Occupied(g);
    forall p | p in Occupied(h) ensures p in Occupied(g) + {(ax, ay)} {
      if p != (ax, ay) {
        assert g[p.1][p.0] != UNKNOWN;
      }
    }
    forall p | p in Occupied(g) + {(ax, ay)} ensures p in Occupied(h) {
      if p != (ax, ay) {
        assert h[p.1][p.0] != UNKNOWN;
      }
    }
    assert Occupied(h) == Occupied(g) + {(ax, ay)};
  }

  /** A cell written by a successful insert of a mark is refused by every later insert;
      writing UNKNOWN leaves the cell open. */
  lemma SecondInsertRefused(g: Grid, sizeX: int, sizeY: int, ax: int, ay: int, v: int, w: int)
    requires IsGrid(g, sizeX, sizeY)
    requires Insertion(g, sizeX, sizeY, ax, ay, v).0 == Returned(true)
    ensures var h := Insertion(g, sizeX, sizeY, ax, ay, v).1;
      v != UNKNOWN ==> Insertion(h, sizeX, sizeY, ax, ay, w) == (Returned(false), h)
    ensures var h := Insertion(g, sizeX, sizeY, ax, ay, v).1;
      v == UNKNOWN ==> Insertion(h, sizeX, sizeY, ax, ay, w) == (Returned(true), Place(h, ax, ay, w))
  {
  }

  /** The 20 x 20 board after X has been inserted at (0,0), (1,0), ..., (n-1,0). */
  function TopRow(n: nat): (g: Grid)
    requires n <= 20
    ensures IsGrid(g, 20, 20)
    ensures forall y, x :: 0 <= y < 20 && 0 <= x < 20 ==> g[y][x] == if y == 0 && x < n then X else UNKNOWN
  {
    if n == 0 then EmptyGrid(20, 20) else Place(TopRow(n - 1), n - 1, 0, X)
  }

  lemma {:induction false} TopRowOccupied(n: nat)
    requires n <= 20
    ensures |Occupied(TopRow(n))| == n
  {
    if n == 0 {
      assert Occupied(TopRow(0)) == {};
    } else {
      TopRowOccupied(n - 1);
      OccupiedAfterPlace(TopRow(n - 1), 20, 20, n - 1, 0, X);
    }
  }

  /** On a 20 x 20 board, each insert of X along the top row succeeds, and the row has a
      winner exactly when it holds at least five marks: four are no win, the fifth is. */
  lemma TopRowWinsFromFive(n: nat)
    requires 1 <= n <= 20
    ensures Insertion(TopRow(n - 1), 20, 20, n - 1, 0, X) == (Returned(true), TopRow(n))
    ensures HasWinner(TopRow(n), 20, 20) <==> 5 <= n
  {
    if n < 5 {
      TopRowOccupied(n);
      FewerThanFiveMarksNoWinner(TopRow(n), 20, 20);
    } else {
      var g := TopRow(n);
      assert Run(g, 20, 20, 0, 0, Row, X) by {
        forall k | 0 <= k < 5 ensures g[0][k] == X {}
      }
      RunMakesWinner(g, 20, 20, 0, 0, Row, X);
    }
  }

  /** The board object: its dimensions and its grid, which is None until make_repre
      succeeds and is afterwards written one cell at a time by insert. */
  class Playground {
    const sizeX: int
    const sizeY: int
    var repre: Option<Grid>

    /** The grid, once built, has size_y rows of size_x cells and both dimensions are at least 5. */
    ghost predicate Valid()
      reads this
    {
      repre.None? || Built()
    }

    predicate Built()
      reads this
    {
      repre.Some? && 5 <= sizeX && 5 <= sizeY && IsGrid(repre.value, sizeX, sizeY)
    }

    constructor (sizeX: int, sizeY: int)
      ensures this.sizeX == sizeX && this.sizeY == sizeY
      ensures repre == None && Valid()
    {
      this.sizeX := sizeX;
      this.sizeY := sizeY;
      repre := None;
    }

    /** Builds an all-empty grid, or leaves the grid as it was when a dimension is below 5. */
    method MakeRepre()
      requires Valid()
      modifies this
      ensures Valid()
      ensures sizeX < 5 || sizeY < 5 ==> repre == old(repre)
      ensures 5 <= sizeX && 5 <= sizeY ==> repre == Some(EmptyGrid(sizeX, sizeY))
    {
      if sizeX < 5 || sizeY < 5 {
        return;
      }
      repre := Some(EmptyGrid(sizeX, sizeY));
    }

    /** Writes value into the empty cell (ax, ay); refuses an occupied cell or a
        position its guard rejects. */
    method Insert(ax: int, ay: int, value: int) returns (r: Outcome)
      requires Built()
      modifies this
      ensures Built()
      ensures (r, repre.value) == Insertion(old(repre.value), sizeX, sizeY, ax, ay, value)
    {
      if ax < 0 || ax >= sizeX || ay < 0 || ay >= sizeX {
        return Returned(false);
      }
      if ay >= sizeY {
        return IndexError;
      }
      if repre.value[ay][ax] != UNKNOWN {
        return Returned(false);
      }
      repre := Some(Place(repre.value, ax, ay, value));
      return Returned(true);
    }

    method CheckRow(ax: int, ay: int, value: int) returns (r: bool)
      requires Built() && InGrid(sizeX, sizeY, ax, ay)
      ensures r == Run(repre.value, sizeX, sizeY, ax, ay, Row, value)
    {
      var g := repre.value;
      if ax > sizeX - 5 {
        assert !InGrid(sizeX, sizeY, StepX(Row, ax, 4), StepY(Row, ay, 4));
        return false;
      }
      for x := ax to ax + 5
        invariant forall k :: 0 <= k < x - ax ==> g[StepY(Row, ay, k)][StepX(Row, ax, k)] == value
      {
        if g[ay][x] != value {
          assert StepX(Row, ax, x - ax) == x;
          return false;
        }
      }
      return true;
    }

    method CheckCol(ax: int, ay: int, value: int) returns (r: bool)
      requires Built() && InGrid(sizeX, sizeY, ax, ay)
      ensures r == Run(repre.value, sizeX, sizeY, ax, ay, Col, value)
    {
      var g := repre.value;
      if ay > sizeY - 5 {
        assert !InGrid(sizeX, sizeY, StepX(Col, ax, 4), StepY(Col, ay, 4));
        return false;
      }
      for y := ay to ay + 5
        invariant forall k :: 0 <= k < y - ay ==> g[StepY(Col, ay, k)][StepX(Col, ax, k)] == value
      {
        if g[y][ax] != value {
          assert StepY(Col, ay, y - ay) == y;
          return false;
        }
      }
      return true;
    }

    method CheckDiagRight(ax: int, ay: int, value: int) returns (r: bool)
      requires Built() && InGrid(sizeX, sizeY, ax, ay)
      ensures r == Run(repre.value, sizeX, sizeY, ax, ay, DiagRight, value)
    {
      var g := repre.value;
      if ay > sizeY - 5 || ax > sizeX - 5 {
        assert !InGrid(sizeX, sizeY, StepX(DiagRight, ax, 4), StepY(DiagRight, ay, 4));
        return false;
      }
      for i := 0 to 5
        invariant forall k :: 0 <= k < i ==> g[StepY(DiagRight, ay, k)][StepX(DiagRight, ax, k)] == value
      {
        if g[ay + i][ax + i] != value {
          assert StepX(DiagRight, ax, i) == ax + i && StepY(DiagRight, ay, i) == ay + i;
          return false;
        }
      }
      return true;
    }

    method CheckDiagLeft(ax: int, ay: int, value: int) returns (r: bool)
      requires Built() && InGrid(sizeX, sizeY, ax, ay)
      ensures r == Run(repre.value, sizeX, sizeY, ax, ay, DiagLeft, value)
    {
      var g := repre.value;
      if ay > sizeY - 5 || ax < 4 {
        assert !InGrid(sizeX, sizeY, StepX(DiagLeft, ax, 4), StepY(DiagLeft, ay, 4));
        return false;
      }
      for i := 0 to 5
        invariant forall k :: 0 <= k < i ==> g[StepY(DiagLeft, ay, k)][StepX(DiagLeft, ax, k)] == value
      {
        if g[ay + i][ax - i] != value {
          assert StepX(DiagLeft, ax, i) == ax - i && StepY(DiagLeft, ay, i) == ay + i;
          return false;
        }
      }
      return true;
    }

    /** Scans the grid row by row and reports whether some marked cell starts a run of its mark. */
    method CheckWinner() returns (r: bool)
      requires Built()
      ensures r == HasWinner(repre.value, sizeX, sizeY)
    {
      var g := repre.value;
      for y := 0 to sizeY
        invariant forall j, i :: 0 <= j < y && 0 <= i < sizeX ==> !WinsAt(g, sizeX, sizeY, i, j)
      {
        for x := 0 to sizeX
          invariant forall j, i :: 0 <= j < y && 0 <= i < sizeX ==> !WinsAt(g, sizeX, sizeY, i, j)
          invariant forall i :: 0 <= i < x ==> !WinsAt(g, sizeX, sizeY, i, y)
        {
          if g[y][x] != UNKNOWN {
            var value := g[y][x];
            var found := CheckRow(x, y, value);
            if !found {
              found := CheckCol(x, y, value);
            }
            if !found {
              found := CheckDiagRight(x, y, value);
            }
            if !found {
              found := CheckDiagLeft(x, y, value);
            }
            if found {
              assert WinsAt(g, sizeX, sizeY, x, y);
              return true;
            }
          }
        }
      }
      return false;
    }
  }
}
