/** The game engine of `sokoban.c`: its global state (player, current level,
    level count, target number, live board and play flag) as one object, and
    the operations that load a level, move the player, check for the end of a
    level and handle the space bar. Display output is kept only as ghost
    state: how many full redraws were requested, what they showed, and which
    screen is up. */
module Engine {
  import opened Board
  import opened Levels
  import opened Rules

  /** The screen last put up by the engine. */
  datatype Screen = Blank | BoardView | LevelFinished | GameFinished

  /** The counting loop of `char_occurences` over a board. */
  method CharOccurrences(s: array<char>, c: char) returns (cnt: nat)
    ensures cnt == Count(s[..], c)
  {
    cnt := 0;
    var i := 0;
    while i < s.Length
      invariant 0 <= i <= s.Length
      invariant cnt == Count(s[..i], c)
    {
      assert s[..i + 1][..i] == s[..i];
      cnt := cnt + (if s[i] == c then 1 else 0);
      i := i + 1;
    }
    assert s[..s.Length] == s[..];
  }

  /** The search of `strchr`: the index of the first `c`, or the length of the
      board when there is none (where `strchr` gives a null pointer). */
  method FindChar(s: array<char>, c: char) returns (idx: nat)
    ensures idx <= s.Length
    ensures c !in s[..idx]
    ensures idx < s.Length ==> s[idx] == c
  {
    idx := 0;
    while idx < s.Length && s[idx] != c
      invariant idx <= s.Length
      invariant c !in s[..idx]
    {
      assert s[..idx + 1] == s[..idx] + [s[idx]];
      idx := idx + 1;
    }
  }

  /** `strdup`: a fresh array holding a copy of `s`. */
  method StrDup(s: seq<char>) returns (a: array<char>)
    ensures fresh(a) && a[..] == s
  {
    a := new char[|s|](i requires 0 <= i < |s| => s[i]);
  }

  /** The board of a level in play: the board size, cell codes only, as many
      targets as recorded, a single player cell, and the recorded position on
      the board. */
  ghost predicate InPlay(cells: seq<char>, player: Point, targetNum: nat) {
    && |cells| == Size
    && InBounds(player)
    && OnlyCodes(cells)
    && Targets(cells) == targetNum
    && Players(cells) == 1
  }

  /** A level just set up from template `t`: the board is the template, the
      player is at its first `p`, which is its only player cell, and the
      target number is its number of `x`. */
  ghost predicate SetUp(t: string, cells: seq<char>, player: Point, targetNum: nat) {
    && cells == t
    && PlayerAt(cells, player)
    && CellAt(cells, player) == Player
    && Player !in cells[..XYToIdx(player)]
    && targetNum == Count(cells, Target)
  }

  /** What level setup finds in a well-formed template, given the result of
      the search for its first `p`. */
  lemma StartFacts(t: string, offset: nat)
    requires WellFormed(t)
    requires offset <= |t| && Player !in t[..offset] && (offset < |t| ==> t[offset] == Player)
    ensures offset < |t|
    ensures SetUp(t, t, IdxToXY(offset), Count(t, Target))
    ensures InPlay(t, IdxToXY(offset), Count(t, Target))
  {
    WellFormedFacts(t);
  }

  class Game {
    /** `sokoban_levels`: the level templates, in play order. */
    const levels: seq<string>

    /** `player`: the recorded player position. */
    var player: Point
    /** `sokoban_current_level`: index of the level in the catalog. */
    var currentLevel: int
    /** `total_levels`: zero until the first level is loaded. */
    var totalLevels: nat
    /** `sokoban_target_num`: the number of targets of the loaded level. */
    var targetNum: nat
    /** `sokoban_current_level_data`: the live board, null once cleared. */
    var board: array?<char>
    /** `in_game`: a level is in play. */
    var inGame: bool

    /** Number of full-board redraws requested so far. */
    ghost var redraws: nat
    /** The cells shown by the last full-board redraw. */
    ghost var drawn: seq<char>
    /** The screen last put up. */
    ghost var screen: Screen

    /** The state every operation keeps: the level index is in the catalog;
        a live board exists exactly while a level is in play; and then it has
        the board size, only cell codes, a single player cell, as many
        targets as recorded, and the recorded position is on the board. */
    ghost predicate Valid()
      reads this, board
    {
      && (forall i :: 0 <= i < |levels| ==> WellFormed(levels[i]))
      && 0 <= currentLevel < |levels|
      && (inGame <==> board != null)
      && (inGame ==>
            && board.Length == Size
            && totalLevels == |levels|
            && InPlay(board[..], player, targetNum))
    }

    /** The state right after `sokoban_init_board`: the live board is the
        template of the current level, the player is at its first `p`, which
        is its only player cell, the target number is its number of `x`, and
        the board is on the display. */
    ghost predicate Loaded()
      reads this, board
    {
      && 0 <= currentLevel < |levels|
      && board != null
      && SetUp(levels[currentLevel], board[..], player, targetNum)
      && totalLevels == |levels|
      && inGame
      && screen == BoardView
      && drawn == levels[currentLevel]
    }

    /** The globals as the program starts: the catalog's templates, all
        numbers zero, no board, not in game. */
    constructor ()
      ensures Valid() && levels == Catalog
      ensures player == Point(0, 0) && currentLevel == 0 && totalLevels == 0
      ensures targetNum == 0 && board == null && !inGame
      ensures redraws == 0 && drawn == [] && screen == Blank
    {
      levels := Catalog;
      player := Point(0, 0);
      currentLevel := 0;
      totalLevels := 0;
      targetNum := 0;
      board := null;
      inGame := false;
      redraws := 0;
      drawn := [];
      screen := Blank;
      forall i | 0 <= i < |Catalog| ensures WellFormed(Catalog[i]) {
        CatalogWellFormed(i);
      }
    }

    /** `sokoban_draw_board`: one full redraw showing `cells`. */
    ghost method DrawBoard(cells: seq<char>)
      modifies this`redraws, this`drawn, this`screen
      ensures redraws == old(redraws) + 1 && drawn == cells && screen == BoardView
    {
      redraws := redraws + 1;
      drawn := cells;
      screen := BoardView;
    }

    /** `sokoban_clear_level`: the live board is released. */
    method ClearLevel()
      modifies this`board
      ensures board == null
    {
      board := null;
    }

    /** `sokoban_init_board`: load the current level from its template into a
        fresh live board. The template itself is immutable. */
    method InitBoard()
      requires Valid()
      modifies this
      ensures Valid() && Loaded()
      ensures fresh(board)
      ensures currentLevel == old(currentLevel)
      ensures redraws == old(redraws) + 1
    {
      var template := levels[currentLevel];
      DrawBoard(template);
      var data := StrDup(template);
      board := data;
      var offset := FindChar(data, Player);
      StartFacts(template, offset);
      player := IdxToXY(offset);
      targetNum := CharOccurrences(data, Target);
      totalLevels := |levels|;
      inGame := true;
    }

    /** `sokoban_spacebar_handler`: reload the current level, both while in
        play (a reset) and after a finished level (the next level, already
        selected by CheckGameEnd). */
    method SpacebarHandler()
      requires Valid()
      modifies this
      ensures Valid() && Loaded()
      ensures fresh(board)
      ensures currentLevel == old(currentLevel)
      ensures redraws == old(redraws) + 1
    {
      if inGame {
        InitBoard();
      } else {
        InitBoard();
      }
    }

    /** `update_game_data`: the cell transition between positions `src` and
        `dst`, written in place into the live board, then an optional redraw. */
    method UpdateGameData(src: Point, dst: Point, redraw: bool)
      requires board != null && board.Length == Size && InBounds(src) && InBounds(dst)
      modifies this`redraws, this`drawn, this`screen, board
      ensures board[..] == Apply(old(board[..]), XYToIdx(src), XYToIdx(dst))
      ensures redraw ==> redraws == old(redraws) + 1 && drawn == board[..] && screen == BoardView
      ensures !redraw ==> redraws == old(redraws) && drawn == old(drawn) && screen == old(screen)
    {
      var s, d := XYToIdx(src), XYToIdx(dst);
      if board[s] == Player {
        if board[d] == Empty {
          board[s] := Empty;
          board[d] := Player;
        } else if board[d] == Target {
          board[s] := Empty;
          board[d] := PlayerOnTarget;
        }
      } else if board[s] == PlayerOnTarget {
        if board[d] == Empty {
          board[s] := Target;
          board[d] := Player;
        } else if board[d] == Target {
          board[s] := Target;
          board[d] := PlayerOnTarget;
        }
      } else if board[s] == Stone {
        if board[d] == Empty {
          board[s] := Empty;
          board[d] := Stone;
        } else if board[d] == Target {
          board[s] := Empty;
          board[d] := StoneOnTarget;
        }
      } else if board[s] == StoneOnTarget {
        if board[d] == Empty {
          board[s] := Target;
          board[d] := Stone;
        } else if board[d] == Target {
          board[s] := Target;
          board[d] := StoneOnTarget;
        }
      }

      if redraw {
        DrawBoard(board[..]);
      }
    }

    /** `check_game_end`: when as many targets are covered as the level has,
        leave play, release the board and select the next level, or the first
        one after the last (the game-finished screen instead of the
        level-finished one). Otherwise nothing changes. */
    method CheckGameEnd()
      requires Valid() && inGame
      modifies this
      ensures Valid()
      ensures player == old(player) && targetNum == old(targetNum) && totalLevels == old(totalLevels)
      ensures redraws == old(redraws) && drawn == old(drawn)
      ensures Won(old(board[..]), targetNum) ==>
                && !inGame && board == null
                && currentLevel == NextLevel(old(currentLevel), totalLevels)
                && screen == (if old(currentLevel) + 1 >= totalLevels then GameFinished else LevelFinished)
      ensures !Won(old(board[..]), targetNum) ==>
                inGame && board == old(board) && currentLevel == old(currentLevel) && screen == old(screen)
    {
      var validStones := CharOccurrences(board, StoneOnTarget);
      if validStones != targetNum {
        return;
      }

      inGame := false;
      ClearLevel();

      currentLevel := currentLevel + 1;
      if currentLevel >= totalLevels {
        currentLevel := 0;
        screen := GameFinished;
      } else {
        screen := LevelFinished;
      }
    }

    /** The body of `sokoban_move_player` between the play check and the end
        check: the destination and push checks, the stone's and the player's
        transitions, and the redraw. `moved` tells whether the move passed
        the checks. */
    method Shift(dx: int, dy: int) returns (moved: bool)
      requires Valid() && inGame
      modifies this`player, this`redraws, this`drawn, this`screen, board
      ensures moved == Step(old(board[..]), old(player), dx, dy).Moved?
      ensures !moved ==> unchanged(this) && board[..] == old(board[..])
      ensures moved ==>
                var r := Step(old(board[..]), old(player), dx, dy);
                && board[..] == r.cells && player == r.player
                && redraws == old(redraws) + 1 && drawn == r.cells && screen == BoardView
    {
      var oldPos := player;
      var newPos := Point(player.x + dx, player.y + dy);
      if !InBounds(newPos) || board[XYToIdx(newPos)] == Wall {
        return false;
      }

      var newCell := board[XYToIdx(newPos)];
      if newCell == Stone || newCell == StoneOnTarget {
        var stonePos := Point(newPos.x + dx, newPos.y + dy);
        if !InBounds(stonePos) || board[XYToIdx(stonePos)] == Wall || board[XYToIdx(stonePos)] == Stone {
          return false;
        }
        UpdateGameData(newPos, stonePos, false);
      }

      player := newPos;
      UpdateGameData(oldPos, newPos, true);
      moved := true;
    }

    /** `sokoban_move_player` by the unit step (`dx`, `dy`). */
    method MovePlayer(dx: int, dy: int)
      requires Valid()
      requires -1 <= dx <= 1 && -1 <= dy <= 1
      modifies this, board
      ensures Valid()
      // Not in play: nothing happens.
      ensures !old(inGame) ==> unchanged(this)
      // Destination off the board or a wall: nothing changes, no redraw.
      ensures old(inGame) ==>
                var dest := Point(old(player).x + dx, old(player).y + dy);
                !InBounds(dest) || CellAt(old(board[..]), dest) == Wall ==>
                  unchanged(this) && board[..] == old(board[..])
      // A stone that cannot be pushed: nothing changes, no redraw.
      ensures old(inGame) ==>
                var dest := Point(old(player).x + dx, old(player).y + dy);
                var beyond := Point(dest.x + dx, dest.y + dy);
                InBounds(dest) && HasStone(CellAt(old(board[..]), dest)) &&
                (!InBounds(beyond) || CellAt(old(board[..]), beyond) == Wall
                                   || CellAt(old(board[..]), beyond) == Stone) ==>
                  unchanged(this) && board[..] == old(board[..])
      // Otherwise: the board after the step, one redraw, then the end check.
      ensures old(inGame) && Step(old(board[..]), old(player), dx, dy).Moved? ==>
                var r := Step(old(board[..]), old(player), dx, dy);
                && old(board)[..] == r.cells
                && player == r.player
                && targetNum == old(targetNum) && totalLevels == old(totalLevels)
                && redraws == old(redraws) + 1 && drawn == r.cells
                && (Won(r.cells, targetNum) ==>
                      && !inGame && board == null
                      && currentLevel == NextLevel(old(currentLevel), totalLevels)
                      && screen == (if old(currentLevel) + 1 >= totalLevels then GameFinished else LevelFinished))
                && (!Won(r.cells, targetNum) ==>
                      inGame && board == old(board) && currentLevel == old(currentLevel) && screen == BoardView)
      // Every move keeps the number of targets, of stones and of player cells.
      ensures old(inGame) ==>
                && Targets(old(board)[..]) == Targets(old(board[..]))
                && Stones(old(board)[..]) == Stones(old(board[..]))
                && Players(old(board)[..]) == Players(old(board[..]))
    {
      if !inGame {
        return;
      }
      ghost var before := board[..];
      var moved := Shift(dx, dy);
      if moved {
        StepConserves(before, old(player), dx, dy);
        CheckGameEnd();
      }
    }
  }
}
