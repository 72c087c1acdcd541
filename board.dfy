/** The board of the puzzle: its fixed dimensions, the character codes of its
    cells, the (row, column) <-> flat index conversion, and the count of a cell
    code over a board (`char_occurences`). */
module Board {

  /** Board dimensions in cells. */
  const Width: nat := 30
  const Height: nat := 17
  /** Number of cells of every board and every level template. */
  const Size: nat := Width * Height

  /** Cell codes. */
  const Wall: char := '*'
  const PlayerOnTarget: char := '+'
  const Player: char := 'p'
  const Target: char := 'x'
  const Stone: char := 'o'
  const StoneOnTarget: char := 'd'
  const Empty: char := ' '

  /** One of the seven cell codes. */
  predicate IsCode(c: char) {
    c == Wall || c == PlayerOnTarget || c == Player || c == Target
    || c == Stone || c == StoneOnTarget || c == Empty
  }

  /** The cell shows a target, whether covered or not. */
  predicate HasTarget(c: char) { c == Target || c == PlayerOnTarget || c == StoneOnTarget }
  /** The cell holds a stone. */
  predicate HasStone(c: char) { c == Stone || c == StoneOnTarget }
  /** The cell holds the player. */
  predicate HasPlayer(c: char) { c == Player || c == PlayerOnTarget }
  /** Something may move into the cell. */
  predicate IsFree(c: char) { c == Empty || c == Target }

  /** Every cell of the board holds one of the seven codes. */
  ghost predicate OnlyCodes(cells: seq<char>) {
    forall i :: 0 <= i < |cells| ==> IsCode(cells[i])
  }

  /** A position: `x` is the row, `y` the column. Coordinates are signed so
      that a step off the top or left edge is a negative coordinate. */
  datatype Point = Point(x: int, y: int)

  predicate InBounds(p: Point) {
    0 <= p.x < Height && 0 <= p.y < Width
  }

  /** The row of a flat index. */
  function CellIdxToX(idx: nat): (x: nat)
    ensures idx < Size ==> x < Height
  {
    idx / Width
  }

  /** The column of a flat index. */
  function CellIdxToY(idx: nat): (y: nat)
    ensures y < Width
  {
    idx % Width
  }

  /** The flat, row-major index of a position. */
  function XYToIdx(p: Point): (idx: int)
    ensures InBounds(p) ==> 0 <= idx < Size
  {
    p.x * Width + p.y
  }

  /** The position of a flat index; inverse of XYToIdx on the board. */
  function IdxToXY(idx: nat): (p: Point)
    ensures idx < Size ==> InBounds(p) && XYToIdx(p) == idx
  {
    Point(CellIdxToX(idx), CellIdxToY(idx))
  }

  /** Converting an on-board position to an index and back gives the position. */
  lemma XYToIdxRoundTrip(p: Point)
    requires InBounds(p)
    ensures IdxToXY(XYToIdx(p)) == p
  {
  }

  /** The code at a position (`sokoban_get_cell_value_by_pos`). */
  function CellAt(cells: seq<char>, p: Point): (c: char)
    requires |cells| == Size && InBounds(p)
    ensures c in cells
  {
    cells[XYToIdx(p)]
  }

  /** The number of cells holding code `c` (`char_occurences`). */
  function Count(s: seq<char>, c: char): (n: nat)
    ensures n <= |s|
    ensures n == 0 <== c !in s
  {
    if s == [] then 0
    else Count(s[..|s| - 1], c) + (if s[|s| - 1] == c then 1 else 0)
  }

  /** Cells showing a target: `x`, `+` and `d`. */
  function Targets(s: seq<char>): nat {
    Count(s, Target) + Count(s, PlayerOnTarget) + Count(s, StoneOnTarget)
  }

  /** Cells holding a stone: `o` and `d`. */
  function Stones(s: seq<char>): nat {
    Count(s, Stone) + Count(s, StoneOnTarget)
  }

  /** Cells holding the player: `p` and `+`. */
  function Players(s: seq<char>): nat {
    Count(s, Player) + Count(s, PlayerOnTarget)
  }

  lemma {:induction false} CountAppend(a: seq<char>, b: seq<char>, c: char)
    ensures Count(a + b, c) == Count(a, c) + Count(b, c)
  {
    if b != [] {
      assert (a + b)[..|a + b| - 1] == a + b[..|b| - 1];
      CountAppend(a, b[..|b| - 1], c);
    } else {
      assert a + b == a;
    }
  }

  /** Writing `v` at `i` changes the count of `c` by what left and what came. */
  lemma {:induction false} CountUpdate(s: seq<char>, i: nat, v: char, c: char)
    requires i < |s|
    ensures Count(s[i := v], c)
            == Count(s, c) - (if s[i] == c then 1 else 0) + (if v == c then 1 else 0)
  {
    var n := |s| - 1;
    if i == n {
      assert s[i := v][..n] == s[..n];
    } else {
      assert s[i := v][..n] == s[..n][i := v];
      CountUpdate(s[..n], i, v, c);
    }
  }

  /** A cell holding `c` contributes to the count of `c`. */
  lemma CountPositive(s: seq<char>, i: nat, c: char)
    requires i < |s| && s[i] == c
    ensures Count(s, c) >= 1
  {
    CountUpdate(s, i, if c == Empty then Wall else Empty, c);
  }

  /** A board with a single player cell has it at one index only. */
  lemma PlayerUnique(s: seq<char>, k: nat, i: nat)
    requires Players(s) == 1
    requires k < |s| && i < |s| && HasPlayer(s[k]) && HasPlayer(s[i])
    ensures i == k
  {
    if i != k {
      var t := s[k := Empty];
      CountUpdate(s, k, Empty, Player);
      CountUpdate(s, k, Empty, PlayerOnTarget);
      assert t[i] == s[i];
      if t[i] == Player {
        CountPositive(t, i, Player);
      } else {
        CountPositive(t, i, PlayerOnTarget);
      }
    }
  }

  /** 1 when `b` holds, 0 otherwise. */
  function Indicator(b: bool): nat { if b then 1 else 0 }

  /** Writing `v` at `i` changes each of the three class counts by what left
      the cell and what came into it. */
  lemma ClassCountsUpdate(s: seq<char>, i: nat, v: char)
    requires i < |s|
    ensures Targets(s[i := v]) == Targets(s) - Indicator(HasTarget(s[i])) + Indicator(HasTarget(v))
    ensures Stones(s[i := v]) == Stones(s) - Indicator(HasStone(s[i])) + Indicator(HasStone(v))
    ensures Players(s[i := v]) == Players(s) - Indicator(HasPlayer(s[i])) + Indicator(HasPlayer(v))
  {
    CountUpdate(s, i, v, Target);
    CountUpdate(s, i, v, PlayerOnTarget);
    CountUpdate(s, i, v, StoneOnTarget);
    CountUpdate(s, i, v, Stone);
    CountUpdate(s, i, v, Player);
  }

  /** Two on-board positions with the same index are the same position. */
  lemma XYToIdxInjective(p: Point, q: Point)
    requires InBounds(p) && InBounds(q) && XYToIdx(p) == XYToIdx(q)
    ensures p == q
  {
    XYToIdxRoundTrip(p);
    XYToIdxRoundTrip(q);
  }
}
