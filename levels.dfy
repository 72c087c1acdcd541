/** The level catalog (`sokoban_levels`): four constant templates, each a flat
    row-major string of Width * Height cell codes. Each template is written
    row by row and split at its only player cell, which shows where the
    player starts. */
module Levels {
  import opened Board

  /** Level 0 (`sokoban_levels[0]`); the player starts at row 7, column 19. */
  const Level0Above: string :=
      "                              "
    + "                              "
    + "           *****              "
    + "           *   *              "
    + "           *   *              "
    + "           *   ******         "
    + "           *  xo    *         "
    + "           *       "
  const Level0Below: string :=
      "*         "
    + "           *        *         "
    + "           *  xo    *         "
    + "           *   ******         "
    + "           *   ******         "
    + "           *   ******         "
    + "           **********         "
    + "                              "
    + "                              "
    + "                              "
  const Level0: string := Level0Above + [Player] + Level0Below

  /** Level 1 (`sokoban_levels[1]`); the player starts at row 6, column 13. */
  const Level1Above: string :=
      "                              "
    + "                              "
    + "           ***                "
    + "           *x*                "
    + "           * ****             "
    + "       *****o ox*             "
    + "       *x   o"
  const Level1Below: string :=
      "***             "
    + "       ******o*               "
    + "            * *               "
    + "            *x*               "
    + "            ***               "
    + "                              "
    + "                              "
    + "                              "
    + "                              "
    + "                              "
    + "                              "
  const Level1: string := Level1Above + [Player] + Level1Below

  /** Level 2 (`sokoban_levels[2]`); the player starts at row 3, column 8. */
  const Level2Above: string :=
      "                              "
    + "      *******                 "
    + "      * *   *                 "
    + "      * "
  const Level2Below: string :=
      "oo *                 "
    + "      * o   *                 "
    + "      * xxx *                 "
    + "      *******                 "
    + "                              "
    + "                              "
    + "                              "
    + "                              "
    + "                              "
    + "                              "
    + "                              "
    + "                              "
    + "                              "
    + "                              "
  const Level2: string := Level2Above + [Player] + Level2Below

  /** Level 3 (`sokoban_levels[3]`); the player starts at row 4, column 10. */
  const Level3Above: string :=
      "                              "
    + "      ******                  "
    + "      *   x*                  "
    + "      *o** **                 "
    + "      *   "
  const Level3Below: string :=
      " *                 "
    + "      * * o *                 "
    + "      *x  ***                 "
    + "      *****                   "
    + "                              "
    + "                              "
    + "                              "
    + "                              "
    + "                              "
    + "                              "
    + "                              "
    + "                              "
    + "                              "
  const Level3: string := Level3Above + [Player] + Level3Below

  /** The templates in play order. */
  const Catalog: seq<string> := [Level0, Level1, Level2, Level3]

  /** What level setup relies on in a template: the board size, only cell
      codes, exactly one player cell, and no covered target (so that every
      target is an `x`). */
  ghost predicate WellFormed(t: string) {
    && |t| == Size
    && OnlyCodes(t)
    && Players(t) == 1
    && Count(t, PlayerOnTarget) == 0
    && Count(t, StoneOnTarget) == 0
  }

  /** A well-formed template has a player cell, and its targets are its `x`
      cells. */
  lemma WellFormedFacts(t: string)
    requires WellFormed(t)
    ensures Player in t
    ensures Targets(t) == Count(t, Target)
  {
  }

  /** Every template of the catalog is well formed. */
  lemma CatalogWellFormed(level: int)
    requires 0 <= level < |Catalog|
    ensures WellFormed(Catalog[level])
  {
    if level == 0 {
      Level0WellFormed();
    } else if level == 1 {
      Level1WellFormed();
    } else if level == 2 {
      Level2WellFormed();
    } else {
      Level3WellFormed();
    }
  }

  /** Where the player starts in each template: the flat index of its first
      `p` and the (row, column) position that index converts to. */
  lemma CatalogStarts(level: int)
    requires 0 <= level < |Catalog|
    ensures |Catalog| == 4
    ensures var offset := [229, 193, 98, 130][level];
            && offset < Size
            && Catalog[level][offset] == Player
            && Player !in Catalog[level][..offset]
            && IdxToXY(offset) == [Point(7, 19), Point(6, 13), Point(3, 8), Point(4, 10)][level]
  {
    if level == 0 {
      Level0AboveScenery();
      SplitStart(Level0Above, Level0Below);
    } else if level == 1 {
      Level1AboveScenery();
      SplitStart(Level1Above, Level1Below);
    } else if level == 2 {
      Level2AboveScenery();
      SplitStart(Level2Above, Level2Below);
    } else {
      Level3AboveScenery();
      SplitStart(Level3Above, Level3Below);
    }
  }

  lemma Level0WellFormed()
    ensures WellFormed(Level0)
  {
    Level0Halves();
    SplitWellFormed(Level0Above, Level0Below);
  }

  lemma Level0Halves()
    ensures |Level0Above| + 1 + |Level0Below| == Size
    ensures Scenery(Level0Above) && Scenery(Level0Below)
  {
    Level0AboveScenery();
    Level0BelowScenery();
  }

  lemma Level0AboveScenery() ensures Scenery(Level0Above) {}
  lemma Level0BelowScenery() ensures Scenery(Level0Below) {}

  lemma Level1WellFormed()
    ensures WellFormed(Level1)
  {
    Level1Halves();
    SplitWellFormed(Level1Above, Level1Below);
  }

  lemma Level1Halves()
    ensures |Level1Above| + 1 + |Level1Below| == Size
    ensures Scenery(Level1Above) && Scenery(Level1Below)
  {
    Level1AboveScenery();
    Level1BelowScenery();
  }

  lemma Level1AboveScenery() ensures Scenery(Level1Above) {}
  lemma Level1BelowScenery() ensures Scenery(Level1Below) {}

  lemma Level2WellFormed()
    ensures WellFormed(Level2)
  {
    Level2Halves();
    SplitWellFormed(Level2Above, Level2Below);
  }

  lemma Level2Halves()
    ensures |Level2Above| + 1 + |Level2Below| == Size
    ensures Scenery(Level2Above) && Scenery(Level2Below)
  {
    Level2AboveScenery();
    Level2BelowScenery();
  }

  lemma Level2AboveScenery() ensures Scenery(Level2Above) {}
  lemma Level2BelowScenery() ensures Scenery(Level2Below) {}

  lemma Level3WellFormed()
    ensures WellFormed(Level3)
  {
    Level3Halves();
    SplitWellFormed(Level3Above, Level3Below);
  }

  lemma Level3Halves()
    ensures |Level3Above| + 1 + |Level3Below| == Size
    ensures Scenery(Level3Above) && Scenery(Level3Below)
  {
    Level3AboveScenery();
    Level3BelowScenery();
  }

  lemma Level3AboveScenery() ensures Scenery(Level3Above) {}
  lemma Level3BelowScenery() ensures Scenery(Level3Below) {}

  /** A part of a template holding walls, empty cells, targets and stones only. */
  predicate Scenery(h: string) {
    forall c :: c in h ==> c == Wall || c == Empty || c == Target || c == Stone
  }

  /** A template made of two scenery halves around one player cell. */
  lemma SplitWellFormed(above: string, below: string)
    requires |above| + 1 + |below| == Size
    requires Scenery(above) && Scenery(below)
    ensures WellFormed(above + [Player] + below)
  {
    var t := above + [Player] + below;
    forall i | 0 <= i < |t| ensures IsCode(t[i]) {
      assert t[i] in t;
    }
    CountAroundPlayer(above, below, Player);
    CountAroundPlayer(above, below, PlayerOnTarget);
    CountAroundPlayer(above, below, StoneOnTarget);
  }

  /** A template made of a scenery half, the player cell and the rest has its
      first `p` right after that half. */
  lemma SplitStart(above: string, below: string)
    requires Scenery(above)
    ensures (above + [Player] + below)[|above|] == Player
    ensures Player !in (above + [Player] + below)[..|above|]
  {
    assert (above + [Player] + below)[..|above|] == above;
  }

  lemma CountAroundPlayer(above: string, below: string, c: char)
    ensures Count(above + [Player] + below, c)
            == Count(above, c) + (if c == Player then 1 else 0) + Count(below, c)
  {
    CountAppend(above, [Player], c);
    CountAppend(above + [Player], below, c);
  }
}
