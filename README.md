# Sokoban engine model

This project models the game engine of a Sokoban game for an STM32F7
discovery board. The modelled code is `Src/sokoban.c` together with the board
constants of `Inc/sokoban.h`. The board is a flat 30 × 17 grid of character
codes: `*` wall, `p` player, `+` player on a target, `x` target, `o` stone,
`d` stone on a target, and space for an empty cell. Position (x, y) is
(row, column), and it maps to the index `x * 30 + y`.

The engine keeps its global state in one `Engine.Game` object:
- the player position;
- the current level;
- the level count;
- the target number;
- the live board, an `array<char>` that is null once a level is cleared;
- the play flag.

The four level templates are an immutable `seq<string>` in `Levels`. Pure
rules are functions in `Rules`: the cell transition of `update_game_data`, one
move step, the win test and the next level. The engine's methods change the
object and the board in place. UpdateGameData, Shift, CheckGameEnd and
MovePlayer are proved against those functions. InitBoard and SpacebarHandler
are proved against the template they copy. CharOccurrences is proved against
the count `Board.Count`, and FindChar, StrDup and ClearLevel state their
results directly.

Redraws of the display are ghost state. It records how many full redraws
were requested, what the last one showed, and which screen is up (board,
"level finished" or "game finished"). With this state, "no redraw on a
rejected move" can be stated.

The model follows the code as written, not an idealised Sokoban. In these
points the code differs from how the game is usually described, and the model
keeps the code's behaviour:
- Only `p` is searched for the start position (`Src/sokoban.c:82`).
- Only `x` is counted as a target (`Src/sokoban.c:86`). This is exact only
  because no template holds `+` or `d`, which `Levels.CatalogWellFormed`
  proves.
- The push guard rejects a wall or a stone beyond the stone, but not a stone
  on a target (`Src/sokoban.c:212`). Pushing toward `d` therefore passes the
  guard, and both transitions then leave the board as it was. Even so, the
  player position moves onto the stone (`Src/sokoban.c:219`).
  `Rules.StepPushTowardCoveredTarget` states this: after such a move, the
  recorded position no longer holds the player. The mismatch persists. Later
  moves start from the recorded cell and move whatever it holds, a stone
  included, while the `p` left behind stays where it is. The guarantee of
  `Rules.StepMovesPlayer` therefore assumes that the recorded position is
  the player's only cell before the move.
- The code reads a cell before checking bounds (`Src/sokoban.c:200, 211`).
  It never checks the bounds of the stone's destination. Its `< 0` tests are
  on unsigned values, so they never hold, and a step off the top or left edge
  wraps and is caught by the `>=` tests. The model uses signed steps in
  -1..1, checks bounds before every read, and treats a stone destination off
  the board as blocked.
- Each level load copies the template into a fresh board and never frees
  the previous one on a reset.

## Model

| member | source | states |
|---|---|---|
| Board.InBounds | Src/sokoban.c:202-204 | a position is on the board when its row is below 17 and its column below 30; negative coordinates stand for the wrapped unsigned values the source rejects with its `>=` tests |
| Board.CellIdxToX | Src/sokoban.c:37-39 | the row of an on-board index is below the board height |
| Board.CellIdxToY | Src/sokoban.c:41-43 | the column of an index is below the board width |
| Board.XYToIdx | Src/sokoban.c:45-47 | an on-board position maps into the board's index range |
| Board.IdxToXY | Src/sokoban.c:49-52 | an on-board index maps to an on-board position, and converting that position back gives the index |
| Board.XYToIdxRoundTrip | Src/sokoban.c:45-52 | converting an on-board position to an index and back gives the position |
| Board.XYToIdxInjective | Src/sokoban.c:45-47 | two on-board positions with the same index are equal |
| Board.CellAt | Src/sokoban.c:54-56 | the code read at a position is a cell of the board |
| Board.Count | Src/sokoban.c:62-69 | the number of cells holding a code is at most the board length, and zero when the code is absent |
| Board.CountAppend | Src/sokoban.c:62-69 | the count over two joined strings is the sum of the two counts |
| Board.CountUpdate | Src/sokoban.c:62-69 | writing a cell changes a code's count by what left the cell and what came in |
| Board.PlayerUnique | Src/sokoban.c:82-85 | on a board with a single player cell, any two player cells are the same index |
| Board.ClassCountsUpdate | Src/sokoban.c:148-184 | writing a cell changes the target, stone and player counts by what left and what came in |
| Engine.CharOccurrences | Src/sokoban.c:62-69 | the counting loop returns the number of cells equal to the code |
| Engine.FindChar | Src/sokoban.c:82-83 | the search returns the first index holding the code, or the length when there is none |
| Engine.StrDup | Src/sokoban.c:80 | the live board is a fresh array holding a copy of the template |
| Levels.CatalogStarts | Src/sokoban.c:22-28 | the catalog holds four templates, written as the source's strings character for character; their first `p` is at index 229, 193, 98 and 130, that is at (row, column) (7, 19), (6, 13), (3, 8) and (4, 10) |
| Levels.CatalogWellFormed | Src/sokoban.c:22-28 | every template has 30 × 17 cells, only cell codes, exactly one player cell, and no `+` or `d` |
| Levels.WellFormedFacts | Src/sokoban.c:82-86 | a well-formed template has a `p`, and its targets are exactly its `x` cells |
| Engine.StartFacts | Src/sokoban.c:82-86 | in a well-formed template, the first `p` exists, is the only player cell, and its position lies on the board |
| Rules.Transition | Src/sokoban.c:148-184 | targets stay in both cells; when the player or a stone moves into an empty or target cell, the source becomes free and the destination takes its content; any other pair is unchanged |
| Rules.Apply | Src/sokoban.c:148-184 | the transition changes no cell except the two it names |
| Rules.ApplyConserves | Src/sokoban.c:148-184 | a transition keeps the numbers of target cells {x,+,d}, stone cells {o,d} and player cells {p,+}, and writes only cell codes |
| Rules.Step | Src/sokoban.c:197-221 | an accepted move puts the recorded position at old position + step, on the board |
| Rules.StepConserves | Src/sokoban.c:209-221 | every accepted move keeps the target, stone and player counts and writes only cell codes |
| Rules.StepMovesPlayer | Src/sokoban.c:209-221 | after an accepted move from the player's only cell (`p` or `+`), whose pushed stone does not head for `d`, the recorded position is again the only cell holding `p` or `+` |
| Rules.StepPushTowardCoveredTarget | Src/sokoban.c:209-221 | pushing a stone toward `d` is accepted with the board unchanged, and the recorded position is then not the player's cell |
| Rules.Won | Src/sokoban.c:258-260 | the end test: the count of `d` cells equals the recorded target number |
| Rules.WonIffAllCovered | Src/sokoban.c:257-262 | when the target number is the board's number of targets, the win test holds exactly when every target cell holds a stone |
| Rules.NextLevel | Src/sokoban.c:269-272 | after a won level comes the next one, or level 0 exactly when the won level was the last |
| Engine.Game.constructor | Src/sokoban.c:13-19 | the globals start at zero, with no board and not in play, and the catalog's templates are all well formed |
| Engine.Game.DrawBoard | Src/sokoban.c:94-146 | a redraw is counted and records the cells it shows |
| Engine.Game.ClearLevel | Src/sokoban.c:71-74 | the live board is released |
| Engine.Game.InitBoard | Src/sokoban.c:76-92 | the live board is a fresh copy of the current template, and the template is unchanged; the player is at the first `p`, which is the only player cell; the target number is the count of `x`; the level count is the catalog size; in play, with one redraw |
| Engine.Game.SpacebarHandler | Src/sokoban.c:226-232 | in both branches the current level is loaded, with the same guarantees as InitBoard |
| Engine.Game.UpdateGameData | Src/sokoban.c:148-189 | the board after the call is the transition applied in place to the two cells; there is one redraw exactly when requested |
| Engine.Game.Shift | Src/sokoban.c:197-221 | a move is accepted exactly when the step function accepts it; when it is rejected nothing changes and there is no redraw; when it is accepted the board and position are the step's, with one redraw |
| Engine.Game.CheckGameEnd | Src/sokoban.c:257-276 | when the count of `d` equals the target number, play ends, the board is released and the next level is selected (level 0 and the game-finished screen after the last level); otherwise nothing changes |
| Engine.Game.MovePlayer | Src/sokoban.c:191-224 | out of play, or with a destination off the board or a wall, or with a blocked push: nothing changes and there is no redraw; otherwise the step is applied with one redraw, followed by the end check; every move keeps the target, stone and player counts |

## Left out

- Pixel drawing: colours, cell geometry, the clear-screen routine and the
  splash screens (`Src/sokoban.c:94-146, 234-255`) are display output. They
  appear only as the ghost redraw count, the cells shown and the current
  screen.
- The `xprintf` log line and the `osDelay(800)` pause are a foreign output
  call and a scheduler call. They have no effect on the game state.
- Heap management: `strdup` is a fresh array and `free` sets the board to
  null. The allocation failure of `strdup` and the leaked board on a reset
  are not modelled.
- `sokoban_get_cell_by_pos` returns a pointer into the board. It is folded
  into the in-place writes of `Engine.Game.UpdateGameData`.
- Engine.Game.MovePlayer: the steps are signed and bounds are checked
  before every read. The source reads a cell outside the board, or in a
  neighbouring row, when a move or a push leaves the board: the next row off
  the right edge, and the previous row off the left edge, where the unsigned
  column wraps and the index `x * 30 + y` lands one cell before the row. For a stone destination
  off the board it may then push the stone, while the model rejects the
  move. For the player's destination, both reject the move, as long as the
  stray read does not fault.
- Rules.Step: the same deviation, at the rejection of a stone destination
  off the board.
- Engine.Game.Shift: the same deviation for a stone destination off the
  board.
- Engine.CharOccurrences: it counts over the whole board array rather than
  up to a terminating NUL. The board never holds NUL, because it holds cell
  codes only, so the two agree.
- Engine.FindChar: the null result of `strchr` is modelled as the board
  length. Level setup never meets it, because every template holds a `p`.
- Integer widths: the counts and level numbers are unbounded. They never
  come near the 32-bit limit on a 510-cell board with four levels.
