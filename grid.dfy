/**
  The square battlefield: `GridTile` is one cell with its coordinates, its
  occupant and its highlight colour; `GridManager` owns the gridSize x gridSize
  array of tiles and the queries and highlight passes over it.
*/
module Grid {
  import opened Wrappers
  import opened Units

  /** Highlight colours: the four the grid manager is configured with. */
  datatype Color = White | Green | Red | Yellow

  /** Grid coordinates (x, z). */
  type Cell = (int, int)

  /** The object a possibly-null reference denotes, as a frame. */
  function Opt(c: Character?): set<Character> {
    if c == null then {} else {c}
  }

  /** `Random.Range(lo, hi)` on integers, driven by one sample of the random source: lo when the range is empty. */
  function RandomRange(lo: int, hi: int, sample: nat): int {
    if hi <= lo then lo else lo + sample % (hi - lo)
  }

  /** The column drawn for one side: 0..1 on the left, 3..4 on the right. */
  function SideColumn(leftSide: bool, sample: nat): (x: int)
    ensures leftSide ==> 0 <= x <= 1 && x == sample % 2
    ensures !leftSide ==> 3 <= x <= 4 && x == 3 + sample % 2
  {
    if leftSide then RandomRange(0, 2, sample) else RandomRange(3, 5, sample)
  }

  /** The cells of an n x n grid. */
  function Cells(n: nat): (cells: set<Cell>)
    ensures forall c: Cell :: c in cells <==> 0 <= c.0 < n && 0 <= c.1 < n
  {
    set i, j | 0 <= i < n && 0 <= j < n :: (i, j)
  }

  class GridTile {
    /** Coordinates and default colour are fixed by Initialize; nothing changes them afterwards. */
    const x: int
    const z: int
    const originalColor: Color
    var occupant: Character?
    var color: Color

    constructor Initialize(x: int, z: int, defaultColor: Color)
      ensures this.x == x && this.z == z && originalColor == defaultColor
      ensures color == defaultColor && occupant == null
    {
      this.x := x;
      this.z := z;
      originalColor := defaultColor;
      color := defaultColor;
      occupant := null;
    }

    method Highlight(c: Color)
      modifies `color
      ensures color == c
    {
      color := c;
    }

    /** Back to the default recorded by Initialize, whatever was highlighted before. */
    method ResetHighlight()
      modifies `color
      ensures color == originalColor
    {
      color := originalColor;
    }

    /** An occupant that was destroyed compares equal to null, so its tile reads as free. */
    predicate IsOccupied()
      reads `occupant, Opt(occupant)`destroyed
    {
      occupant != null && !occupant.destroyed
    }
  }

  class GridManager {
    const gridSize: nat
    const defaultColor: Color := White
    const validMoveColor: Color := Green
    const invalidMoveColor: Color := Red
    const selectedColor: Color := Yellow

    var grid: array2<GridTile?>
    /** The tiles of `grid`, as a frame. */
    ghost var tiles: set<GridTile>

    /** grid[x, z] is a tile with coordinates (x, z), and `tiles` holds exactly those tiles. */
    ghost predicate Valid()
      reads this, grid
    {
      && grid.Length0 == gridSize && grid.Length1 == gridSize
      && (forall i, j :: 0 <= i < gridSize && 0 <= j < gridSize ==>
            grid[i, j] != null && grid[i, j] in tiles && grid[i, j].x == i && grid[i, j].z == j)
      && (forall t :: t in tiles ==> 0 <= t.x < gridSize && 0 <= t.z < gridSize && grid[t.x, t.z] == t)
    }

    /** Start: builds the grid. */
    constructor (gridSize: nat)
      ensures this.gridSize == gridSize && Valid() && fresh(grid)
      ensures forall t :: t in tiles ==> fresh(t)
      ensures forall t :: t in tiles ==> t.occupant == null && t.color == defaultColor && t.originalColor == defaultColor
    {
      this.gridSize := gridSize;
      grid := new GridTile?[0, 0];
      tiles := {};
      new;
      CreateGrid();
    }

    /** A gridSize x gridSize array whose (x, z) entry is a fresh, unoccupied tile with coordinates (x, z). */
    method CreateGrid()
      modifies this
      ensures Valid() && fresh(grid)
      ensures forall t :: t in tiles ==> fresh(t)
      ensures forall t :: t in tiles ==> t.occupant == null && t.color == defaultColor && t.originalColor == defaultColor
    {
      var g := new GridTile?[gridSize, gridSize];
      ghost var made: set<GridTile> := {};
      for i := 0 to gridSize
        invariant forall a, b :: 0 <= a < i && 0 <= b < gridSize ==>
                    g[a, b] != null && g[a, b] in made && g[a, b].x == a && g[a, b].z == b
        invariant forall t :: t in made ==> 0 <= t.x < i && 0 <= t.z < gridSize && g[t.x, t.z] == t
        invariant forall t :: t in made ==> fresh(t) && t.occupant == null && t.color == defaultColor && t.originalColor == defaultColor
      {
        for j := 0 to gridSize
          invariant forall a, b :: 0 <= a < i && 0 <= b < gridSize ==>
                      g[a, b] != null && g[a, b] in made && g[a, b].x == a && g[a, b].z == b
          invariant forall b :: 0 <= b < j ==> g[i, b] != null && g[i, b] in made && g[i, b].x == i && g[i, b].z == b
          invariant forall t :: t in made ==>
                      ((0 <= t.x < i && 0 <= t.z < gridSize) || (t.x == i && 0 <= t.z < j)) && g[t.x, t.z] == t
          invariant forall t :: t in made ==> fresh(t) && t.occupant == null && t.color == defaultColor && t.originalColor == defaultColor
        {
          var tile := new GridTile.Initialize(i, j, defaultColor);
          g[i, j] := tile;
          made := made + {tile};
        }
      }
      grid := g;
      tiles := made;
    }

    predicate IsValidPosition(x: int, z: int) {
      0 <= x < gridSize && 0 <= z < gridSize
    }

    /** The valid positions are exactly the coordinates of the grid's tiles. */
    lemma ValidPositionsAreTiles(x: int, z: int)
      requires Valid()
      ensures IsValidPosition(x, z) <==> exists t :: t in tiles && t.x == x && t.z == z
    {
      if IsValidPosition(x, z) {
        var t := grid[x, z];
        assert t in tiles && t.x == x && t.z == z;
      }
    }

    /** The tile at (x, z) exactly when (x, z) is on the grid, otherwise none; never fails. */
    function GetTile(x: int, z: int): (t: GridTile?)
      reads this, grid
      requires Valid()
      ensures t != null <==> IsValidPosition(x, z)
      ensures t != null ==> t in tiles && t.x == x && t.z == z
    {
      if 0 <= x < gridSize && 0 <= z < gridSize then grid[x, z] else null
    }

    /** Who each on-grid cell refers to. */
    ghost function Occupants(): (occ: map<Cell, Character?>)
      reads this, grid, tiles`occupant
      requires Valid()
      ensures forall c: Cell :: c in occ <==> IsValidPosition(c.0, c.1)
      ensures forall c: Cell :: c in occ ==> IsValidPosition(c.0, c.1) && occ[c] == grid[c.0, c.1].occupant
    {
      map c | c in Cells(gridSize) :: grid[c.0, c.1].occupant
    }

    /** Every cell reads: no tile is occupied. */
    ghost predicate AllFree()
      reads this, grid, tiles`occupant
      requires Valid()
    {
      forall t :: t in tiles ==> t.occupant == null
    }

    /** On a grid with no tile occupied, every cell refers to nobody. */
    lemma FreeOccupants()
      requires Valid() && AllFree()
      ensures Occupants().Keys == Cells(gridSize) && forall c | c in Occupants() :: Occupants()[c] == null
    {
      forall c | c in Occupants()
        ensures Occupants()[c] == null
      {
        assert grid[c.0, c.1] in tiles;
      }
    }

    /** Every tile back to its default colour; nothing else changes. */
    method ResetAllTileColors()
      requires Valid()
      modifies tiles`color
      ensures forall t :: t in tiles ==> t.color == t.originalColor
    {
      for i := 0 to gridSize
        invariant forall t :: t in tiles && t.x < i ==> t.color == t.originalColor
      {
        for j := 0 to gridSize
          invariant forall t :: t in tiles && (t.x < i || (t.x == i && t.z < j)) ==> t.color == t.originalColor
        {
          grid[i, j].ResetHighlight();
        }
      }
    }

    /**
      Free tiles get the valid-move colour, tiles held by a non-player unit other than `character`
      get the attack colour, all others keep the default; occupancy is untouched.
    */
    method HighlightValidMoves(character: Character?)
      requires Valid()
      modifies tiles`color
      ensures forall t :: t in tiles && !t.IsOccupied() ==> t.color == validMoveColor
      ensures forall t :: t in tiles && t.IsOccupied() && t.occupant != character && !t.occupant.isPlayerControlled ==>
                t.color == invalidMoveColor
      ensures forall t :: t in tiles && t.IsOccupied() && (t.occupant == character || t.occupant.isPlayerControlled) ==>
                t.color == t.originalColor
    {
      ResetAllTileColors();
      for i := 0 to gridSize
        invariant forall t :: t in tiles && t.x >= i ==> t.color == t.originalColor
        invariant forall t :: t in tiles && t.x < i ==> Highlighted(t, character)
      {
        for j := 0 to gridSize
          invariant forall t :: t in tiles && (t.x > i || (t.x == i && t.z >= j)) ==> t.color == t.originalColor
          invariant forall t :: t in tiles && (t.x < i || (t.x == i && t.z < j)) ==> Highlighted(t, character)
        {
          var tile := grid[i, j];
          if !tile.IsOccupied() {
            tile.Highlight(validMoveColor);
          } else if tile.occupant != character && !tile.occupant.isPlayerControlled {
            tile.Highlight(invalidMoveColor);
          }
        }
      }
    }

    /** The colour HighlightValidMoves gives a tile, for its loop invariants. */
    ghost predicate Highlighted(t: GridTile, character: Character?)
      reads t, Opt(t.occupant)`destroyed
    {
      if !t.IsOccupied() then t.color == validMoveColor
      else if t.occupant != character && !t.occupant.isPlayerControlled then t.color == invalidMoveColor
      else t.color == t.originalColor
    }

    /**
      A start position on one side: the column is drawn once, then the row is drawn and
      redrawn while the tile is occupied, at most 10 times; the last draw is kept even if
      still occupied.  A column outside the grid makes the array access fail (None).
      `rng(cursor + k)` is the k-th value of the random source; `next` is the first unused one.
    */
    method GetRandomPositionOnSide(leftSide: bool, rng: nat -> nat, cursor: nat)
      returns (pos: Option<Cell>, next: nat, ghost retries: nat)
      requires Valid()
      ensures pos.Some? <==> SideColumn(leftSide, rng(cursor)) < gridSize
      ensures gridSize >= 5 ==> pos.Some?
      ensures pos.None? ==> next == cursor + 2
      ensures pos.Some? ==>
                && pos.value.0 == SideColumn(leftSide, rng(cursor)) && IsValidPosition(pos.value.0, pos.value.1)
                && retries <= 10 && next == cursor + 2 + retries
                && pos.value.1 == RowDraw(rng, cursor, retries)
                && (forall j :: 0 <= j < retries ==> GetTile(pos.value.0, RowDraw(rng, cursor, j)).IsOccupied())
                && (retries < 10 ==> !GetTile(pos.value.0, pos.value.1).IsOccupied())
    {
      var x := SideColumn(leftSide, rng(cursor));
      var z := RandomRange(0, gridSize, rng(cursor + 1));
      if !(x < gridSize) {
        return None, cursor + 2, 0;
      }
      var attempts := 0;
      while grid[x, z].IsOccupied() && attempts < 10
        invariant 0 <= attempts <= 10
        invariant z == RowDraw(rng, cursor, attempts)
        invariant forall j :: 0 <= j < attempts ==> GetTile(x, RowDraw(rng, cursor, j)).IsOccupied()
      {
        z := RandomRange(0, gridSize, rng(cursor + 2 + attempts));
        attempts := attempts + 1;
      }
      pos, next, retries := Some((x, z)), cursor + 2 + attempts, attempts;
    }

    /** The row of the k-th draw for one placement (k = 0 is the first, k > 0 the retries). */
    function RowDraw(rng: nat -> nat, cursor: nat, k: nat): int {
      RandomRange(0, gridSize, rng(cursor + 1 + k))
    }
  }
}
