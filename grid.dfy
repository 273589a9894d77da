/** The playing field: a fixed rectangle of cells derived from the screen
    resolution, and the choice of a free cell for food and obstacles. */
module Grid {

  /** Screen size in pixels and the side of one square cell. */
  const ScreenWidth: int := 1000
  const ScreenHeight: int := 600
  const CellSize: int := 20

  /** Number of cells across and down: 50 by 30. */
  const GridWidth: int := ScreenWidth / CellSize
  const GridHeight: int := ScreenHeight / CellSize

  /** A grid position (column, row); not necessarily on the grid. */
  datatype Cell = Cell(x: int, y: int)

  predicate InBounds(c: Cell) {
    0 <= c.x < GridWidth && 0 <= c.y < GridHeight
  }

  /** `c` lies on the grid and is not one of the excluded positions. */
  predicate IsFree(c: Cell, exclude: seq<Cell>) {
    InBounds(c) && c !in exclude
  }

  ghost predicate HasFreeCell(exclude: seq<Cell>) {
    exists c :: IsFree(c, exclude)
  }

  /** Draws a grid cell that is not excluded. The game's `random_position`
      retries uniformly random cells until one is free, and never returns
      when none is; the draw is any free cell, and one must exist. */
  method RandomPosition(exclude: seq<Cell>) returns (pos: Cell)
    requires HasFreeCell(exclude)
    ensures 0 <= pos.x < GridWidth && 0 <= pos.y < GridHeight
    ensures pos !in exclude
  {
    pos :| IsFree(pos, exclude);
  }

  /** The cells of row `y` in columns 0 .. w-1. */
  ghost function Row(w: nat, y: int): set<Cell> {
    set x | 0 <= x < w :: Cell(x, y)
  }

  /** The cells of the w-by-h rectangle anchored at (0, 0), row by row. */
  ghost function Block(w: nat, h: nat): set<Cell> {
    if h == 0 then {} else Block(w, h - 1) + Row(w, h - 1)
  }

  lemma {:induction false} RowSize(w: nat, y: int)
    ensures |Row(w, y)| == w
  {
    if w == 0 {
      assert Row(w, y) == {};
    } else {
      RowSize(w - 1, y);
      assert Row(w, y) == Row(w - 1, y) + {Cell(w - 1, y)};
    }
  }

  lemma {:induction false} BlockMembers(w: nat, h: nat, c: Cell)
    ensures c in Block(w, h) <==> 0 <= c.x < w && 0 <= c.y < h
  {
    if h > 0 {
      BlockMembers(w, h - 1, c);
    }
  }

  lemma {:induction false} BlockSize(w: nat, h: nat)
    ensures |Block(w, h)| == w * h
  {
    if h > 0 {
      var lower, top := Block(w, h - 1), Row(w, h - 1);
      BlockSize(w, h - 1);
      RowSize(w, h - 1);
      forall c | c in lower ensures c !in top {
        BlockMembers(w, h - 1, c);
      }
      assert |lower + top| == |lower| + |top|;
      assert w * (h - 1) + w == w * h;
    }
  }

  /** A list has at least as many entries as it has distinct elements. */
  lemma {:induction false} ElementsSize(s: seq<Cell>)
    ensures |set c | c in s| <= |s|
  {
    if s != [] {
      ElementsSize(s[1..]);
      assert (set c | c in s) == (set c | c in s[1..]) + {s[0]};
    }
  }

  lemma SubsetSize(a: set<Cell>, b: set<Cell>)
    requires a <= b
    ensures |a| <= |b|
  {
    assert b == a + (b - a);
  }

  /** Pigeonhole: an exclusion list shorter than the number of grid cells
      leaves a free cell, so the retry loop of `random_position` ends. */
  lemma RoomMeansFreeCell(exclude: seq<Cell>)
    requires |exclude| < GridWidth * GridHeight
    ensures HasFreeCell(exclude)
  {
    if !HasFreeCell(exclude) {
      var all := Block(GridWidth, GridHeight);
      var taken := set c | c in exclude;
      forall c | c in all ensures c in taken {
        BlockMembers(GridWidth, GridHeight, c);
        assert !IsFree(c, exclude);
      }
      BlockSize(GridWidth, GridHeight);
      ElementsSize(exclude);
      SubsetSize(all, taken);
      assert false;
    }
  }
}
