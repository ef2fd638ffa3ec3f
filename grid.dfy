/**
 * The grid of Grid.py: a column-major table of optional items that grows on demand, with, for every
 * row, the column of its rightmost item.  Items are compared by identity in the source; here `T`'s
 * equality plays that part (for a class type it is identity).
 */
module Grids {
  import opened Wrappers

  function Max(a: int, b: int): (m: int)
    ensures m >= a && m >= b && (m == a || m == b)
  {
    if a >= b then a else b
  }

  /** What a lookup at `(x, y)` sees in the columns `g`: nothing outside them. */
  function CellAt<T>(g: seq<seq<Option<T>>>, x: nat, y: nat): Option<T>
  {
    if x < |g| && y < |g[x]| then g[x][y] else None
  }

  /** The entry of row `y` in `r`, or -1 (a fresh row's value) for a row `r` does not have yet. */
  function EntryOf(r: seq<int>, y: nat): int
  {
    if y < |r| then r[y] else -1
  }

  /** Whether `(a, b)` comes before `(x, y)` in the search order: column by column, then row by row. */
  predicate Before(a: int, b: int, x: int, y: int)
  {
    a < x || (a == x && b < y)
  }

  class Grid<T(==)> {
    /** `grid`: the columns, each a list of cells; a cell holds an item or nothing. */
    var grid: seq<seq<Option<T>>>
    /** `rightmost_entries`: per row, the rightmost column holding an item (-1 for none yet). */
    var rightmostEntries: seq<int>

    /**
     * At least one column and one row; all columns as tall as there are rows; every row's entry is
     * a column or -1, and no item lies to the right of it.
     */
    ghost predicate Valid()
      reads this
    {
      && |grid| > 0 && |rightmostEntries| > 0
      && (forall x :: 0 <= x < |grid| ==> |grid[x]| == |rightmostEntries|)
      && (forall y :: 0 <= y < |rightmostEntries| ==> -1 <= rightmostEntries[y] < |grid|)
      && (forall x, y :: 0 <= x < |grid| && 0 <= y < |grid[x]| && grid[x][y].Some? ==> x <= rightmostEntries[y])
    }

    /** A 1 x 1 grid with an empty cell. */
    constructor ()
      ensures Valid() && grid == [[None]] && rightmostEntries == [-1]
    {
      grid := [[None]];
      rightmostEntries := [-1];
    }

    /** `width`: the number of columns. */
    function Width(): (w: nat)
      reads this
      ensures Valid() ==> w > 0
    {
      |grid|
    }

    /** `height`: the length of the last column, which is the height of every column. */
    function Height(): (h: nat)
      reads this
      requires Valid()
      ensures h == |rightmostEntries| && forall x :: 0 <= x < |grid| ==> |grid[x]| == h
    {
      |grid[|grid| - 1]|
    }

    /** `get_item`: the item at `(x, y)`, nothing at or beyond the width or the height. */
    function GetItem(x: nat, y: nat): (r: Option<T>)
      reads this
      requires Valid()
      ensures r == CellAt(grid, x, y)
      ensures x >= |grid| || y >= |rightmostEntries| ==> r == None
    {
      if x >= Width() || y >= Height() then None else grid[x][y]
    }

    /** `cell_is_empty` */
    function CellIsEmpty(x: nat, y: nat): (b: bool)
      reads this
      requires Valid()
      ensures b <==> CellAt(grid, x, y) == None
    {
      GetItem(x, y) == None
    }

    /** One more row: an entry of -1 and an empty cell at the bottom of every column. */
    method AppendRow()
      requires Valid()
      modifies this
      ensures Valid()
      ensures |grid| == old(|grid|) && rightmostEntries == old(rightmostEntries) + [-1]
      ensures forall x :: 0 <= x < |grid| ==> grid[x] == old(grid[x]) + [None]
    {
      rightmostEntries := rightmostEntries + [-1];
      for c := 0 to |grid|
        invariant |grid| == old(|grid|) && rightmostEntries == old(rightmostEntries) + [-1]
        invariant forall x :: 0 <= x < c ==> grid[x] == old(grid[x]) + [None]
        invariant forall x :: c <= x < |grid| ==> grid[x] == old(grid[x])
      {
        grid := grid[c := grid[c] + [None]];
      }
    }

    /**
     * `expand`: rows, then columns, are added until the grid is at least `newWidth + 1` wide and
     * `newHeight + 1` tall.  Every lookup sees what it saw before.
     */
    method Expand(newWidth: int, newHeight: int)
      requires Valid()
      modifies this
      ensures Valid()
      ensures |grid| == Max(old(|grid|), newWidth + 1)
      ensures |rightmostEntries| == Max(old(|rightmostEntries|), newHeight + 1)
      ensures forall y: nat :: EntryOf(rightmostEntries, y) == EntryOf(old(rightmostEntries), y)
      ensures forall x: nat, y: nat :: CellAt(grid, x, y) == CellAt(old(grid), x, y)
    {
      while |rightmostEntries| < newHeight + 1
        invariant Valid() && |grid| == old(|grid|)
        invariant old(|rightmostEntries|) <= |rightmostEntries| <= Max(old(|rightmostEntries|), newHeight + 1)
        invariant forall y: nat :: EntryOf(rightmostEntries, y) == EntryOf(old(rightmostEntries), y)
        invariant forall x: nat, y: nat :: CellAt(grid, x, y) == CellAt(old(grid), x, y)
        decreases newHeight + 1 - |rightmostEntries|
      {
        AppendRow();
      }
      while |grid| < newWidth + 1
        invariant Valid() && |rightmostEntries| == Max(old(|rightmostEntries|), newHeight + 1)
        invariant old(|grid|) <= |grid| <= Max(old(|grid|), newWidth + 1)
        invariant forall y: nat :: EntryOf(rightmostEntries, y) == EntryOf(old(rightmostEntries), y)
        invariant forall x: nat, y: nat :: CellAt(grid, x, y) == CellAt(old(grid), x, y)
        decreases newWidth + 1 - |grid|
      {
        grid := grid + [seq(Height(), _ => None)];
      }
    }

    /**
     * `place_item`: the grid grows to hold `(x, y)`, the cell takes `item`, and row `y`'s entry is
     * updated: placing an item moves it right to `x` if needed; placing nothing sets it to the
     * rightmost column still holding an item, or leaves it as it was when the row is now empty.
     */
    method PlaceItem(x: nat, y: nat, item: Option<T>)
      requires Valid()
      modifies this
      ensures Valid()
      ensures |grid| == Max(old(|grid|), x + 1) && |rightmostEntries| == Max(old(|rightmostEntries|), y + 1)
      ensures CellAt(grid, x, y) == item
      ensures forall a: nat, b: nat :: a != x || b != y ==> CellAt(grid, a, b) == CellAt(old(grid), a, b)
      ensures forall b: nat :: b != y ==> EntryOf(rightmostEntries, b) == EntryOf(old(rightmostEntries), b)
      ensures item.Some? ==> rightmostEntries[y] == Max(EntryOf(old(rightmostEntries), y), x)
      ensures item.None? && (exists i :: 0 <= i < |grid| && grid[i][y].Some?) ==>
        var r := rightmostEntries[y];
        0 <= r < |grid| && grid[r][y].Some? && forall j :: r < j < |grid| ==> grid[j][y].None?
      ensures item.None? && (forall i :: 0 <= i < |grid| ==> grid[i][y].None?) ==>
        rightmostEntries[y] == EntryOf(old(rightmostEntries), y)
    {
      Expand(x, y);
      grid := grid[x := grid[x][y := item]];
      if item.None? {
        RescanRow(y);
      } else {
        rightmostEntries := rightmostEntries[y := Max(rightmostEntries[y], x)];
      }
    }

    /**
     * The search of `place_item` after a cell was emptied: from the right, the first column whose
     * cell in row `y` holds an item becomes the row's entry; an empty row keeps its entry.
     */
    method RescanRow(y: nat)
      requires Valid() && y < |rightmostEntries|
      modifies this`rightmostEntries
      ensures Valid()
      ensures |rightmostEntries| == old(|rightmostEntries|)
      ensures forall b :: 0 <= b < |rightmostEntries| && b != y ==> rightmostEntries[b] == old(rightmostEntries[b])
      ensures (exists i :: 0 <= i < |grid| && grid[i][y].Some?) ==>
        var r := rightmostEntries[y];
        0 <= r < |grid| && grid[r][y].Some? && forall j :: r < j < |grid| ==> grid[j][y].None?
      ensures (forall i :: 0 <= i < |grid| ==> grid[i][y].None?) ==> rightmostEntries[y] == old(rightmostEntries[y])
    {
      var i := |grid| - 1;
      while i >= 0
        invariant -1 <= i < |grid| && rightmostEntries == old(rightmostEntries)
        invariant forall j :: i < j < |grid| ==> grid[j][y].None?
      {
        if grid[i][y].Some? {
          rightmostEntries := rightmostEntries[y := i];
          return;
        }
        i := i - 1;
      }
    }

    /**
     * `get_item_coords`: the first cell, column by column and then row by row, holding `item`, or
     * `(-1, -1)` when no cell does.
     */
    method GetItemCoords(item: T) returns (x: int, y: int)
      ensures (x == -1 && y == -1) <==>
        forall a, b :: 0 <= a < |grid| && 0 <= b < |grid[a]| ==> grid[a][b] != Some(item)
      ensures x != -1 || y != -1 ==>
        && 0 <= x < |grid| && 0 <= y < |grid[x]| && grid[x][y] == Some(item)
        && forall a, b :: 0 <= a < |grid| && 0 <= b < |grid[a]| && Before(a, b, x, y) ==> grid[a][b] != Some(item)
    {
      for column := 0 to |grid|
        invariant forall a, b :: 0 <= a < column && 0 <= b < |grid[a]| ==> grid[a][b] != Some(item)
      {
        for row := 0 to |grid[column]|
          invariant forall b :: 0 <= b < row ==> grid[column][b] != Some(item)
        {
          if grid[column][row] == Some(item) {
            return column, row;
          }
        }
      }
      return -1, -1;
    }

    /** `has_item`: some cell holds `item`. */
    method HasItem(item: T) returns (b: bool)
      ensures b <==> exists x, y :: 0 <= x < |grid| && 0 <= y < |grid[x]| && grid[x][y] == Some(item)
    {
      var x, y := GetItemCoords(item);
      b := !(x == -1 && y == -1);
    }

    /** `get_item_x_coord`: the column of the first cell holding `item`, or -1. */
    method GetItemXCoord(item: T) returns (x: int)
      ensures x == -1 <==> forall a, b :: 0 <= a < |grid| && 0 <= b < |grid[a]| ==> grid[a][b] != Some(item)
      ensures x != -1 ==> 0 <= x < |grid| && Some(item) in grid[x]
      ensures x != -1 ==> forall a, b :: 0 <= a < x && 0 <= b < |grid[a]| ==> grid[a][b] != Some(item)
    {
      var y;
      x, y := GetItemCoords(item);
    }

    /** `get_item_y_coord`: the row of the first cell holding `item`, or -1. */
    method GetItemYCoord(item: T) returns (y: int)
      ensures y == -1 <==> forall a, b :: 0 <= a < |grid| && 0 <= b < |grid[a]| ==> grid[a][b] != Some(item)
      ensures y != -1 ==> exists x ::
        && 0 <= x < |grid| && 0 <= y < |grid[x]| && grid[x][y] == Some(item)
        && forall a, b :: 0 <= a < |grid| && 0 <= b < |grid[a]| && Before(a, b, x, y) ==> grid[a][b] != Some(item)
    {
      var x;
      x, y := GetItemCoords(item);
    }

    /** `clear_space`: the cell is emptied; row `y`'s entry falls back to its rightmost item, if any. */
    method ClearSpace(x: nat, y: nat)
      requires Valid()
      modifies this
      ensures Valid()
      ensures |grid| == Max(old(|grid|), x + 1) && |rightmostEntries| == Max(old(|rightmostEntries|), y + 1)
      ensures CellAt(grid, x, y) == None
      ensures forall a: nat, b: nat :: a != x || b != y ==> CellAt(grid, a, b) == CellAt(old(grid), a, b)
      ensures forall b: nat :: b != y ==> EntryOf(rightmostEntries, b) == EntryOf(old(rightmostEntries), b)
      ensures (exists i :: 0 <= i < |grid| && grid[i][y].Some?) ==>
        var r := rightmostEntries[y];
        0 <= r < |grid| && grid[r][y].Some? && forall j :: r < j < |grid| ==> grid[j][y].None?
      ensures (forall i :: 0 <= i < |grid| ==> grid[i][y].None?) ==>
        rightmostEntries[y] == EntryOf(old(rightmostEntries), y)
    {
      PlaceItem(x, y, None);
    }

    /**
     * `move_item`: the destination takes the source's item and the source is then cleared (so a
     * move onto itself empties the cell); nothing else changes.
     */
    method MoveItem(ox: nat, oy: nat, nx: nat, ny: nat)
      requires Valid()
      modifies this
      ensures Valid()
      ensures |grid| == Max(old(|grid|), Max(ox, nx) + 1)
      ensures |rightmostEntries| == Max(old(|rightmostEntries|), Max(oy, ny) + 1)
      ensures CellAt(grid, ox, oy) == None
      ensures ox != nx || oy != ny ==> CellAt(grid, nx, ny) == CellAt(old(grid), ox, oy)
      ensures forall a: nat, b: nat :: (a != ox || b != oy) && (a != nx || b != ny) ==>
        CellAt(grid, a, b) == CellAt(old(grid), a, b)
      // row entries: untouched rows keep theirs; the destination row takes the moved item's column
      ensures forall b: nat :: b != oy && b != ny ==> EntryOf(rightmostEntries, b) == EntryOf(old(rightmostEntries), b)
      ensures oy != ny && CellAt(old(grid), ox, oy).Some? ==>
        rightmostEntries[ny] == Max(EntryOf(old(rightmostEntries), ny), nx)
      // the source row, and a destination row that received nothing, are rescanned
      ensures forall y :: y == oy || (y == ny && CellAt(old(grid), ox, oy).None?) ==>
        && ((exists i :: 0 <= i < |grid| && grid[i][y].Some?) ==>
              var r := rightmostEntries[y];
              0 <= r < |grid| && grid[r][y].Some? && forall j :: r < j < |grid| ==> grid[j][y].None?)
        && ((forall i :: 0 <= i < |grid| ==> grid[i][y].None?) && oy != ny ==>
              rightmostEntries[y] == EntryOf(old(rightmostEntries), y))
    {
      var item := GetItem(ox, oy);
      PlaceItem(nx, ny, item);
      ghost var placed, entries := grid, rightmostEntries;
      ClearSpace(ox, oy);
      if oy != ny {
        // clearing a cell of row `oy` leaves row `ny`, its cells and its entry, as the placement left it
        assert EntryOf(rightmostEntries, ny) == EntryOf(entries, ny);
        assert |grid| >= |placed| && ny < |entries| <= |rightmostEntries|;
        forall i | 0 <= i < |grid|
          ensures grid[i][ny] == if i < |placed| then placed[i][ny] else None
        {
          assert CellAt(grid, i, ny) == CellAt(placed, i, ny);
        }
      }
    }
  }
}
