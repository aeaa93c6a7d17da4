/** Geometry of the game screen (app.js): how each player's region is turned and how the
    regions are arranged in a grid.  Only the numbers are modelled; the CSS strings built
    from them are presentation. */
module Layout {

  /** Degrees by which the region of player `playerIndex` is turned when `playerCount` players
      share the screen: the first half of the players sits across the table and reads upside
      down from the others' side. */
  function Rotation(playerIndex: int, playerCount: int): (degrees: int)
    ensures degrees == 0 || degrees == 180
  {
    if playerCount >= 2 && 2 * playerIndex < playerCount then 180 else 0
  }

  /** With two or more players, a player is turned exactly when their index lies in the
      first ceil(playerCount / 2) positions. */
  lemma RotatedExactlyFirstHalf(playerIndex: nat, playerCount: int)
    requires playerCount >= 2
    ensures Rotation(playerIndex, playerCount) == 180 <==> playerIndex < (playerCount + 1) / 2
  {
  }

  /** Five players: indices 0, 1 and 2 satisfy 2 * i < 5 and are turned; 3 and 4 are not. */
  lemma FivePlayerRotation()
    ensures Rotation(0, 5) == 180 && Rotation(1, 5) == 180 && Rotation(2, 5) == 180
    ensures Rotation(3, 5) == 0 && Rotation(4, 5) == 0
  {
  }

  /** Number of turned regions among the players with index below `k`. */
  function CountRotated(k: nat, playerCount: int): nat
  {
    if k == 0 then 0
    else CountRotated(k - 1, playerCount) + (if Rotation(k - 1, playerCount) == 180 then 1 else 0)
  }

  /** Among the first `k` players, min(k, ceil(playerCount / 2)) are turned. */
  lemma {:induction false} CountRotatedPrefix(k: nat, playerCount: int)
    requires playerCount >= 2
    ensures CountRotated(k, playerCount) == if k < (playerCount + 1) / 2 then k else (playerCount + 1) / 2
  {
    if k > 0 {
      CountRotatedPrefix(k - 1, playerCount);
      RotatedExactlyFirstHalf(k - 1, playerCount);
    }
  }

  /** A game of n >= 2 players has ceil(n / 2) turned regions and floor(n / 2) upright ones. */
  lemma RotatedHalf(playerCount: nat)
    requires playerCount >= 2
    ensures CountRotated(playerCount, playerCount) == (playerCount + 1) / 2
    ensures playerCount - CountRotated(playerCount, playerCount) == playerCount / 2
  {
    CountRotatedPrefix(playerCount, playerCount);
  }

  /** The grid of the game screen as the code computes it.  `rows` is the argument of the
      CSS repeat(); it is the exact quotient playerCount / 2 and is not rounded. */
  datatype Grid = Grid(columns: nat, rows: real)

  function GameLayout(playerCount: int): (g: Grid)
    ensures g.columns == 1 || g.columns == 2
    ensures g.columns as real * g.rows == playerCount as real
  {
    if playerCount <= 3 then Grid(1, playerCount as real)
    else Grid(2, playerCount as real / 2.0)
  }

  /** Up to three players share one column; from four on there are two columns.  In both
      cases columns times rows is exactly the number of players. */
  lemma LayoutShape(playerCount: int)
    ensures GameLayout(playerCount).columns == (if playerCount <= 3 then 1 else 2)
    ensures GameLayout(playerCount).columns as real * GameLayout(playerCount).rows == playerCount as real
  {
  }

  /** Finding, as written: for an odd count from five on, the row count handed to the grid
      is not a whole number (5 players give 2.5 rows). */
  lemma FractionalRows(playerCount: int)
    requires playerCount > 3 && playerCount % 2 == 1
    ensures GameLayout(playerCount).rows != GameLayout(playerCount).rows.Floor as real
  {
  }

  /** Five players, as written: two columns and 2.5 rows. */
  lemma FivePlayerLayout()
    ensures GameLayout(5) == Grid(2, 2.5)
  {
  }

  /** The grid the layout evidently intends: the same columns and the smallest whole number
      of rows that holds every player, ceil(playerCount / columns). */
  datatype FittedGrid = FittedGrid(columns: nat, rows: nat)

  function FittedLayout(playerCount: nat): (g: FittedGrid)
    ensures g.columns == GameLayout(playerCount).columns
    ensures g.columns * g.rows >= playerCount
    ensures g.rows == 0 || g.columns * (g.rows - 1) < playerCount
  {
    if playerCount <= 3 then FittedGrid(1, playerCount)
    else FittedGrid(2, (playerCount + 1) / 2)
  }

  /** The written and the fitted layouts agree exactly when the written row count is whole:
      up to three players, or an even number of them. */
  lemma {:induction false} FittedAgreesWhenWhole(playerCount: nat)
    ensures GameLayout(playerCount).rows == FittedLayout(playerCount).rows as real
            <==> playerCount <= 3 || playerCount % 2 == 0
  {
    if playerCount > 3 && playerCount % 2 == 1 {
      FractionalRows(playerCount);
    }
  }
}
