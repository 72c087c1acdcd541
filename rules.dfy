/** The rules of play as functions on the board's cells: the cell transition
    of `update_game_data`, the effect of one `sokoban_move_player` step, the
    win test of `check_game_end` and the level that follows a won level. */
module Rules {
  import opened Board

  /** `update_game_data` moves the content of `src` into `dst` exactly when
      `src` holds the player or a stone and `dst` is empty or a target. */
  predicate Moves(src: char, dst: char) {
    (HasPlayer(src) || HasStone(src)) && IsFree(dst)
  }

  /** The new codes of the source and destination cells of `update_game_data`.
      Targets stay where they are; the player or stone leaves `src` and takes
      its place on `dst`; any other pair of codes is left as it was. */
  function Transition(src: char, dst: char): (r: (char, char))
    ensures HasTarget(r.0) == HasTarget(src) && HasTarget(r.1) == HasTarget(dst)
    ensures Moves(src, dst) ==>
              && IsFree(r.0)
              && HasPlayer(r.1) == HasPlayer(src)
              && HasStone(r.1) == HasStone(src)
    ensures !Moves(src, dst) ==> r == (src, dst)
  {
    if src == Player then
      if dst == Empty then (Empty, Player)
      else if dst == Target then (Empty, PlayerOnTarget)
      else (src, dst)
    else if src == PlayerOnTarget then
      if dst == Empty then (Target, Player)
      else if dst == Target then (Target, PlayerOnTarget)
      else (src, dst)
    else if src == Stone then
      if dst == Empty then (Empty, Stone)
      else if dst == Target then (Empty, StoneOnTarget)
      else (src, dst)
    else if src == StoneOnTarget then
      if dst == Empty then (Target, Stone)
      else if dst == Target then (Target, StoneOnTarget)
      else (src, dst)
    else (src, dst)
  }

  /** The board after `update_game_data` between the cells at indices `src`
      and `dst`: only those two cells may change. */
  function Apply(cells: seq<char>, src: nat, dst: nat): (r: seq<char>)
    requires src < |cells| && dst < |cells|
    ensures |r| == |cells|
    ensures forall k :: 0 <= k < |cells| && k != src && k != dst ==> r[k] == cells[k]
  {
    var t := Transition(cells[src], cells[dst]);
    cells[src := t.0][dst := t.1]
  }

  /** A transition keeps the number of targets, of stones and of player
      cells, and writes cell codes only. */
  lemma ApplyConserves(cells: seq<char>, src: nat, dst: nat)
    requires src < |cells| && dst < |cells|
    ensures Targets(Apply(cells, src, dst)) == Targets(cells)
    ensures Stones(Apply(cells, src, dst)) == Stones(cells)
    ensures Players(Apply(cells, src, dst)) == Players(cells)
    ensures OnlyCodes(cells) ==> OnlyCodes(Apply(cells, src, dst))
  {
    var a, b := cells[src], cells[dst];
    var t := Transition(a, b);
    if !Moves(a, b) {
      assert Apply(cells, src, dst) == cells;
    } else {
      assert src != dst;
      var mid := cells[src := t.0];
      ClassCountsUpdate(cells, src, t.0);
      ClassCountsUpdate(mid, dst, t.1);
    }
  }

  /** The player's cell: on the board, holding `p` or `+`, and the only cell
      of the board that does. */
  ghost predicate PlayerAt(cells: seq<char>, p: Point) {
    |cells| == Size && InBounds(p) && HasPlayer(CellAt(cells, p)) && Players(cells) == 1
  }

  /** The outcome of one move: rejected, or the new board and player position. */
  datatype Outcome = Rejected | Moved(cells: seq<char>, player: Point)

  /** One move of `sokoban_move_player` by (`dx`, `dy`): rejected when the
      destination is off the board or a wall, or when it holds a stone whose
      own destination is off the board, a wall or a stone; otherwise the
      stone, if any, is pushed, then the player moves, and the recorded
      position becomes the destination whatever the transitions did. */
  function Step(cells: seq<char>, player: Point, dx: int, dy: int): (r: Outcome)
    requires |cells| == Size && InBounds(player)
    ensures r.Moved? ==> |r.cells| == Size && InBounds(r.player)
    ensures r.Moved? ==> r.player == Point(player.x + dx, player.y + dy)
  {
    var dest := Point(player.x + dx, player.y + dy);
    if !InBounds(dest) || CellAt(cells, dest) == Wall then Rejected
    else if HasStone(CellAt(cells, dest)) then
      var beyond := Point(dest.x + dx, dest.y + dy);
      if !InBounds(beyond) || CellAt(cells, beyond) == Wall || CellAt(cells, beyond) == Stone then
        Rejected
      else
        var pushed := Apply(cells, XYToIdx(dest), XYToIdx(beyond));
        Moved(Apply(pushed, XYToIdx(player), XYToIdx(dest)), dest)
    else
      Moved(Apply(cells, XYToIdx(player), XYToIdx(dest)), dest)
  }

  /** Every accepted move keeps the number of targets, of stones and of
      player cells, and writes cell codes only. */
  lemma StepConserves(cells: seq<char>, player: Point, dx: int, dy: int)
    requires |cells| == Size && InBounds(player)
    requires Step(cells, player, dx, dy).Moved?
    ensures var r := Step(cells, player, dx, dy).cells;
      && Targets(r) == Targets(cells)
      && Stones(r) == Stones(cells)
      && Players(r) == Players(cells)
      && (OnlyCodes(cells) ==> OnlyCodes(r))
  {
    var dest := Point(player.x + dx, player.y + dy);
    if HasStone(CellAt(cells, dest)) {
      var beyond := Point(dest.x + dx, dest.y + dy);
      var pushed := Apply(cells, XYToIdx(dest), XYToIdx(beyond));
      ApplyConserves(cells, XYToIdx(dest), XYToIdx(beyond));
      ApplyConserves(pushed, XYToIdx(player), XYToIdx(dest));
    } else {
      ApplyConserves(cells, XYToIdx(player), XYToIdx(dest));
    }
  }

  /** After an accepted move from the player's cell whose pushed stone,
      if any, does not head for a covered target, the recorded position is
      again the player's only cell. */
  lemma StepMovesPlayer(cells: seq<char>, player: Point, dx: int, dy: int)
    requires OnlyCodes(cells) && PlayerAt(cells, player)
    requires Step(cells, player, dx, dy).Moved?
    requires var dest := Point(player.x + dx, player.y + dy);
             var beyond := Point(dest.x + dx, dest.y + dy);
             HasStone(CellAt(cells, dest)) && InBounds(beyond) ==> CellAt(cells, beyond) != StoneOnTarget
    ensures var r := Step(cells, player, dx, dy);
            PlayerAt(r.cells, r.player)
  {
    var r := Step(cells, player, dx, dy);
    StepConserves(cells, player, dx, dy);
    var dest := Point(player.x + dx, player.y + dy);
    var pi, di := XYToIdx(player), XYToIdx(dest);
    if HasStone(CellAt(cells, dest)) {
      var beyond := Point(dest.x + dx, dest.y + dy);
      var bi := XYToIdx(beyond);
      assert di != pi;
      if HasPlayer(cells[bi]) {
        PlayerUnique(cells, pi, bi);
        XYToIdxInjective(player, beyond);
        assert false;
      }
      assert IsFree(cells[bi]);
      assert bi != di;
      var pushed := Apply(cells, di, bi);
      assert IsFree(pushed[di]);
      assert pushed[pi] == cells[pi];
      assert HasPlayer(r.cells[di]);
    } else if HasPlayer(cells[di]) {
      PlayerUnique(cells, pi, di);
      assert r.cells == cells;
    } else {
      assert IsFree(cells[di]);
      assert HasPlayer(r.cells[di]);
    }
  }

  /** A stone pushed toward a covered target (`d`) passes the push guard, yet
      neither transition changes a cell: the board is unchanged while the
      recorded position moves onto the stone, which no longer is the
      player's cell. */
  lemma StepPushTowardCoveredTarget(cells: seq<char>, player: Point, dx: int, dy: int)
    requires PlayerAt(cells, player)
    requires var dest := Point(player.x + dx, player.y + dy);
             var beyond := Point(dest.x + dx, dest.y + dy);
             && InBounds(dest) && HasStone(CellAt(cells, dest))
             && InBounds(beyond) && CellAt(cells, beyond) == StoneOnTarget
    ensures var dest := Point(player.x + dx, player.y + dy);
            && Step(cells, player, dx, dy) == Moved(cells, dest)
            && !PlayerAt(cells, dest)
  {
    var dest := Point(player.x + dx, player.y + dy);
    var beyond := Point(dest.x + dx, dest.y + dy);
    var pushed := Apply(cells, XYToIdx(dest), XYToIdx(beyond));
    assert pushed == cells;
    assert Apply(pushed, XYToIdx(player), XYToIdx(dest)) == cells;
  }

  /** The win test of `check_game_end`: as many covered targets (`d`) as the
      level has targets. */
  predicate Won(cells: seq<char>, targetNum: nat) {
    Count(cells, StoneOnTarget) == targetNum
  }

  /** When the recorded target number is the number of targets of the board,
      the win test holds exactly when every target is covered by a stone. */
  lemma WonIffAllCovered(cells: seq<char>, targetNum: nat)
    requires Targets(cells) == targetNum
    ensures Won(cells, targetNum)
            <==> forall i :: 0 <= i < |cells| && HasTarget(cells[i]) ==> cells[i] == StoneOnTarget
  {
    if Won(cells, targetNum) {
      forall i | 0 <= i < |cells| && HasTarget(cells[i])
        ensures cells[i] == StoneOnTarget
      {
        if cells[i] == Target {
          CountPositive(cells, i, Target);
        } else if cells[i] == PlayerOnTarget {
          CountPositive(cells, i, PlayerOnTarget);
        }
      }
    }
    if forall i :: 0 <= i < |cells| && HasTarget(cells[i]) ==> cells[i] == StoneOnTarget {
      assert Target !in cells && PlayerOnTarget !in cells;
    }
  }

  /** The level that follows a won `level` among `total` levels: the next one,
      or the first after the last. */
  function NextLevel(level: int, total: nat): (next: int)
    ensures 0 <= level < total ==> 0 <= next < total
    ensures 0 <= level < total ==> (next == 0 <==> level == total - 1)
    ensures next != 0 ==> next == level + 1
  {
    if level + 1 >= total then 0 else level + 1
  }
}
