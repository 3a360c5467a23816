/** The walk cache of a creature (src/creature.cpp `updateMapCache`, `updateTileCache`, `getWalkCache`,
  `onCreatureMove`; src/position.h; src/map.h).

  The cache holds, for every tile within eleven steps, whether the creature could walk there.  When
  the creature itself takes a step, the rows and columns are shifted in place and only an edge or two
  is asked anew.  For straight steps and for diagonal steps to the north that equals a rebuild; for
  diagonal steps to the south it does exactly under the condition of `EvenEdges`. */
module WalkCache {
  import opened Wrappers

  const MAX_VIEWPORT := 11
  const SIZE := 2 * MAX_VIEWPORT + 1

  /** Whether the creature may enter the tile at a position of its floor; false where there is no tile. */
  type Walkable = (int, int) -> bool

  /** The two differ at most at the given positions. */
  ghost predicate AgreeBut(before: Walkable, after: Walkable, ox: int, oy: int, nx: int, ny: int) {
    forall px, py :: !(px == ox && py == oy) && !(px == nx && py == ny) ==> before(px, py) == after(px, py)
  }

  class Creature {
    var x: int
    var y: int
    var z: int
    const localMapCache: array2<bool>

    constructor (x: int, y: int, z: int)
      ensures this.x == x && this.y == y && this.z == z && fresh(localMapCache)
      ensures localMapCache.Length0 == SIZE && localMapCache.Length1 == SIZE
    {
      this.x, this.y, this.z := x, y, z;
      localMapCache := new bool[SIZE, SIZE]((_, _) => false);
    }

    predicate Valid() {
      localMapCache.Length0 == SIZE && localMapCache.Length1 == SIZE
    }

    /** The cell in row `i` and column `j` tells the truth, seen from the position `px`, `py`. */
    ghost predicate CellTrue(i: nat, j: nat, walk: Walkable, px: int, py: int)
      requires Valid() && i < SIZE && j < SIZE
      reads localMapCache
    {
      localMapCache[i, j] == walk(px + j - MAX_VIEWPORT, py + i - MAX_VIEWPORT)
    }

    /** All cells tell the truth but the centre, which is never asked. */
    ghost predicate Accurate(walk: Walkable, px: int, py: int)
      requires Valid()
      reads localMapCache
    {
      forall i, j :: 0 <= i < SIZE && 0 <= j < SIZE && !(i == MAX_VIEWPORT && j == MAX_VIEWPORT) ==>
        CellTrue(i, j, walk, px, py)
    }

    /** `updateTileCache` for offsets from the creature. */
    method UpdateTileCache(walk: Walkable, dx: int, dy: int)
      requires Valid()
      modifies localMapCache
      ensures forall i, j :: 0 <= i < SIZE && 0 <= j < SIZE ==>
        localMapCache[i, j] == if i == MAX_VIEWPORT + dy && j == MAX_VIEWPORT + dx then walk(x + dx, y + dy)
          else old(localMapCache[i, j])
    {
      if Abs(dx) <= MAX_VIEWPORT && Abs(dy) <= MAX_VIEWPORT {
        localMapCache[MAX_VIEWPORT + dy, MAX_VIEWPORT + dx] := walk(x + dx, y + dy);
      }
    }

    /** `updateMapCache` */
    method UpdateMapCache(walk: Walkable)
      requires Valid()
      modifies localMapCache
      ensures Accurate(walk, x, y) && CellTrue(MAX_VIEWPORT, MAX_VIEWPORT, walk, x, y)
    {
      for dy := -MAX_VIEWPORT to MAX_VIEWPORT + 1
        invariant forall i, j :: 0 <= i < MAX_VIEWPORT + dy && 0 <= j < SIZE ==> CellTrue(i, j, walk, x, y)
      {
        label Row:
        RefreshRow(walk, dy);
        forall i, j | 0 <= i < MAX_VIEWPORT + dy + 1 && 0 <= j < SIZE
          ensures CellTrue(i, j, walk, x, y)
        {
          if i != MAX_VIEWPORT + dy { assert old@Row(CellTrue(i, j, walk, x, y)); }
        }
      }
    }

    /** The refresh of the row at offset `dy`. */
    method RefreshRow(walk: Walkable, dy: int)
      requires Valid() && -MAX_VIEWPORT <= dy <= MAX_VIEWPORT
      modifies localMapCache
      ensures forall i, j :: 0 <= i < SIZE && 0 <= j < SIZE ==>
        if i == MAX_VIEWPORT + dy then CellTrue(i, j, walk, x, y) else localMapCache[i, j] == old(localMapCache[i, j])
    {
      for dx := -MAX_VIEWPORT to MAX_VIEWPORT + 1
        invariant forall i, j :: 0 <= i < SIZE && 0 <= j < SIZE ==>
          if i == MAX_VIEWPORT + dy && j < MAX_VIEWPORT + dx then CellTrue(i, j, walk, x, y)
            else localMapCache[i, j] == old(localMapCache[i, j])
      {
        UpdateTileCache(walk, dx, dy);
      }
    }

    /** The refresh of the column at offset `dx`. */
    method RefreshColumn(walk: Walkable, dx: int)
      requires Valid() && -MAX_VIEWPORT <= dx <= MAX_VIEWPORT
      modifies localMapCache
      ensures forall i, j :: 0 <= i < SIZE && 0 <= j < SIZE ==>
        if j == MAX_VIEWPORT + dx then CellTrue(i, j, walk, x, y) else localMapCache[i, j] == old(localMapCache[i, j])
    {
      for dy := -MAX_VIEWPORT to MAX_VIEWPORT + 1
        invariant forall i, j :: 0 <= i < SIZE && 0 <= j < SIZE ==>
          if j == MAX_VIEWPORT + dx && i < MAX_VIEWPORT + dy then CellTrue(i, j, walk, x, y)
            else localMapCache[i, j] == old(localMapCache[i, j])
      {
        UpdateTileCache(walk, dx, dy);
      }
    }

    /** Copies one row over another. */
    method CopyRow(to: nat, from: nat)
      requires Valid() && to < SIZE && from < SIZE && to != from
      modifies localMapCache
      ensures forall j :: 0 <= j < SIZE ==> localMapCache[to, j] == old(localMapCache[from, j])
      ensures forall i, j :: 0 <= i < SIZE && 0 <= j < SIZE && i != to ==> localMapCache[i, j] == old(localMapCache[i, j])
    {
      for k := 0 to SIZE
        invariant forall j :: 0 <= j < k ==> localMapCache[to, j] == old(localMapCache[from, j])
        invariant forall i, j :: 0 <= i < SIZE && 0 <= j < SIZE && i != to ==>
          localMapCache[i, j] == old(localMapCache[i, j])
      {
        localMapCache[to, k] := localMapCache[from, k];
      }
    }

    method ShiftSouth()
      requires Valid()
      modifies localMapCache
      ensures forall j :: 0 <= j < SIZE ==> localMapCache[0, j] == old(localMapCache[0, j])
      ensures forall i, j :: 0 < i < SIZE && 0 <= j < SIZE ==> localMapCache[i, j] == old(localMapCache[i - 1, j])
    {
      for r := SIZE - 1 downto 0
        invariant forall i, j :: 0 <= i <= r && 0 <= j < SIZE ==> localMapCache[i, j] == old(localMapCache[i, j])
        invariant forall i, j :: r < i < SIZE && 0 <= j < SIZE ==> localMapCache[i, j] == old(localMapCache[i - 1, j])
      {
        CopyRow(r + 1, r);
      }
    }

    method ShiftNorth()
      requires Valid()
      modifies localMapCache
      ensures forall i, j :: i == SIZE - 1 && 0 <= j < SIZE ==> localMapCache[i, j] == old(localMapCache[i, j])
      ensures forall i, j :: 0 <= i < SIZE - 1 && 0 <= j < SIZE ==> localMapCache[i, j] == old(localMapCache[i + 1, j])
    {
      for r := 0 to SIZE - 1
        invariant forall i, j :: r <= i < SIZE && 0 <= j < SIZE ==> localMapCache[i, j] == old(localMapCache[i, j])
        invariant forall i, j :: 0 <= i < r && 0 <= j < SIZE ==> localMapCache[i, j] == old(localMapCache[i + 1, j])
      {
        CopyRow(r, r + 1);
      }
    }

    /** Shifts the rows from `starty` on to the west: every cell takes the value of its eastern neighbour. */
    method ShiftWest(starty: nat)
      requires Valid() && starty <= SIZE
      modifies localMapCache
      ensures forall i, j :: 0 <= i < SIZE && 0 <= j < SIZE ==>
        localMapCache[i, j] == old(localMapCache[i, if i >= starty && j < SIZE - 1 then j + 1 else j])
    {
      for r := starty to SIZE
        invariant forall i, j :: 0 <= i < SIZE && 0 <= j < SIZE ==>
          localMapCache[i, j] == old(localMapCache[i, if starty <= i < r && j < SIZE - 1 then j + 1 else j])
      {
        for k := 0 to SIZE - 1
          invariant forall i, j :: 0 <= i < SIZE && 0 <= j < SIZE ==>
            localMapCache[i, j] == old(localMapCache[i,
              if (starty <= i < r && j < SIZE - 1) || (i == r && j < k) then j + 1 else j])
        {
          localMapCache[r, k] := localMapCache[r, k + 1];
        }
      }
    }

    /** Shifts the rows from `starty` on to the east. */
    method ShiftEast(starty: nat)
      requires Valid() && starty <= SIZE
      modifies localMapCache
      ensures forall i, j :: 0 <= i < SIZE && 0 <= j < SIZE ==>
        localMapCache[i, j] == old(localMapCache[i, if i >= starty && j > 0 then j - 1 else j])
    {
      for r := starty to SIZE
        invariant forall i, j :: 0 <= i < SIZE && 0 <= j < SIZE ==>
          localMapCache[i, j] == old(localMapCache[i, if starty <= i < r && j > 0 then j - 1 else j])
      {
        for k := SIZE - 1 downto 0
          invariant forall i, j :: 0 <= i < SIZE && 0 <= j < SIZE ==>
            localMapCache[i, j] == old(localMapCache[i, if (starty <= i < r && j > 0) || (i == r && j > k) then j - 1
              else j])
        {
          localMapCache[r, k + 1] := localMapCache[r, k];
        }
      }
    }

    /** The rows of `onCreatureMove`: shifted against the step, one edge row asked anew. */
    method ShiftRows(oy: int, walk: Walkable)
      requires Valid() && Abs(y - oy) <= 1
      modifies localMapCache
      ensures oy > y ==> forall i, j :: 0 <= i < SIZE && 0 <= j < SIZE ==>
        if i == 0 then CellTrue(i, j, walk, x, y) else localMapCache[i, j] == old(localMapCache[i - 1, j])
      ensures oy < y ==> forall i, j :: 0 <= i < SIZE && 0 <= j < SIZE ==>
        if i == SIZE - 1 then CellTrue(i, j, walk, x, y) else localMapCache[i, j] == old(localMapCache[i + 1, j])
      ensures oy == y ==> forall i, j :: 0 <= i < SIZE && 0 <= j < SIZE ==> localMapCache[i, j] == old(localMapCache[i, j])
    {
      if oy > y {
        ShiftSouth();
        RefreshRow(walk, -MAX_VIEWPORT);
      } else if oy < y {
        ShiftNorth();
        RefreshRow(walk, MAX_VIEWPORT);
      }
    }

    /** The columns of `onCreatureMove`.  The distance in `y` is an absolute value, so the first row is left out
      of a diagonal step in either direction. */
    method ShiftColumns(ox: int, oy: int, walk: Walkable)
      requires Valid() && Abs(x - ox) <= 1 && Abs(y - oy) <= 1
      modifies localMapCache
      ensures ox < x ==> forall i, j :: 0 <= i < SIZE && 0 <= j < SIZE ==>
        if j == SIZE - 1 then CellTrue(i, j, walk, x, y)
        else localMapCache[i, j] == old(localMapCache[i, if i >= Abs(y - oy) then j + 1 else j])
      ensures ox > x ==> forall i, j :: 0 <= i < SIZE && 0 <= j < SIZE ==>
        if j == 0 then CellTrue(i, j, walk, x, y)
        else localMapCache[i, j] == old(localMapCache[i, if i >= Abs(y - oy) then j - 1 else j])
      ensures ox == x ==> forall i, j :: 0 <= i < SIZE && 0 <= j < SIZE ==> localMapCache[i, j] == old(localMapCache[i, j])
    {
      var starty := Abs(y - oy);
      if ox < x {
        ShiftWest(starty);
        RefreshColumn(walk, MAX_VIEWPORT);
      } else if ox > x {
        ShiftEast(starty);
        RefreshColumn(walk, -MAX_VIEWPORT);
      }
    }

    /** The edge that comes into sight on a step by `s`. */
    function Edge(s: int): nat {
      if s < 0 then 0 else SIZE - 1
    }

    /** What `onCreatureMove` leaves in a cell: the truth, but for the two outer rows after a diagonal step to the
      south, the northern of which was not shifted and the southern of which was shifted after it was new. */
    ghost function Left(i: int, j: int, ox: int, oy: int, walk: Walkable): bool
      reads this
    {
      var s, px := x - ox, x + j - MAX_VIEWPORT;
      if oy < y && s != 0 && j != Edge(s) && i == 0 then walk(px - s, y - MAX_VIEWPORT)
      else if oy < y && s != 0 && j != Edge(s) && i == SIZE - 1 then walk(px + s, y + MAX_VIEWPORT)
      else walk(px, y + i - MAX_VIEWPORT)
    }

    /** Along the northern edge every tile is as walkable as its neighbour against the step, and along the
      southern edge as its neighbour in the direction of the step; the new column is exempt. */
    ghost predicate EvenEdges(ox: int, walk: Walkable)
      reads this
    {
      forall j :: 0 <= j < SIZE && j != Edge(x - ox) ==> EvenAt(j, ox, walk)
    }

    ghost predicate EvenAt(j: nat, ox: int, walk: Walkable)
      reads this
    {
      var px := x + j - MAX_VIEWPORT;
      && walk(px - (x - ox), y - MAX_VIEWPORT) == walk(px, y - MAX_VIEWPORT)
      && walk(px + (x - ox), y + MAX_VIEWPORT) == walk(px, y + MAX_VIEWPORT)
    }

    /** `onCreatureMove` after a step of one tile by the creature itself, from a cache that was accurate.  The
      cache is accurate again, except that after a diagonal step to the south it is so exactly when the
      edges are even. */
    method OnCreatureMove(ox: int, oy: int, ghost before: Walkable, walk: Walkable)
      requires Valid() && Abs(x - ox) <= 1 && Abs(y - oy) <= 1 && !(x == ox && y == oy)
      requires Accurate(before, ox, oy) && AgreeBut(before, walk, ox, oy, x, y)
      modifies localMapCache
      ensures !(oy < y && ox != x) ==> Accurate(walk, x, y)
      ensures oy < y && ox != x ==> (Accurate(walk, x, y) <==> EvenEdges(ox, walk))
    {
      ShiftRows(oy, walk);
      RowsTrue(ox, oy, before, walk);
      label Rows:
      ShiftColumns(ox, oy, walk);
      ColumnsTrue@Rows(ox, oy, walk);
      UpdateTileCache(walk, ox - x, oy - y);
      LeftIsAccurate(ox, oy, walk);
    }

    /** Cells that are not where the creature came from. */
    predicate Elsewhere(i: int, j: int, ox: int, oy: int)
      reads this
    {
      0 <= i < SIZE && 0 <= j < SIZE && !(i == MAX_VIEWPORT + oy - y && j == MAX_VIEWPORT + ox - x)
    }

    /** Between the shifts: cells that stand neither for the old nor for the new position of the creature. */
    predicate Unmoved(i: int, j: int, ox: int, oy: int)
      reads this
    {
      && 0 <= i < SIZE && 0 <= j < SIZE
      && !(i == MAX_VIEWPORT + oy - y && j == MAX_VIEWPORT) && !(i == MAX_VIEWPORT && j == MAX_VIEWPORT + x - ox)
    }

    /** The cell after the rows were shifted: right in its row, not yet in its column. */
    ghost predicate RowTrue(i: int, j: int, ox: int, oy: int, walk: Walkable)
      requires Valid() && 0 <= i < SIZE && 0 <= j < SIZE
      reads this, localMapCache
    {
      var isNew := y != oy && i == Edge(y - oy);
      localMapCache[i, j] == walk((if isNew then x else ox) + j - MAX_VIEWPORT, y + i - MAX_VIEWPORT)
    }

    twostate lemma {:induction false} RowsTrue(new ox: int, new oy: int, new before: Walkable, new walk: Walkable)
      requires old(allocated(this)) && old(allocated(localMapCache)) && old(allocated(before)) && old(allocated(walk))
      requires unchanged(this)
      requires Valid() && Abs(x - ox) <= 1 && Abs(y - oy) <= 1 && !(x == ox && y == oy)
      requires old(Accurate(before, ox, oy)) && AgreeBut(before, walk, ox, oy, x, y)
      requires oy > y ==> forall i, j :: 0 <= i < SIZE && 0 <= j < SIZE ==>
        if i == 0 then CellTrue(i, j, walk, x, y) else localMapCache[i, j] == old(localMapCache[i - 1, j])
      requires oy < y ==> forall i, j :: 0 <= i < SIZE && 0 <= j < SIZE ==>
        if i == SIZE - 1 then CellTrue(i, j, walk, x, y) else localMapCache[i, j] == old(localMapCache[i + 1, j])
      requires oy == y ==> forall i, j :: 0 <= i < SIZE && 0 <= j < SIZE ==> localMapCache[i, j] == old(localMapCache[i, j])
      ensures forall i, j :: Unmoved(i, j, ox, oy) ==> RowTrue(i, j, ox, oy, walk)
    {
      forall i, j | Unmoved(i, j, ox, oy)
        ensures RowTrue(i, j, ox, oy, walk)
      {
        if !(y != oy && i == Edge(y - oy)) {
          assert old(CellTrue(i + (y - oy), j, before, ox, oy));
        }
      }
    }

    twostate lemma {:induction false} ColumnsTrue(new ox: int, new oy: int, new walk: Walkable)
      requires old(allocated(this)) && old(allocated(localMapCache)) && old(allocated(walk)) && unchanged(this)
      requires Valid() && Abs(x - ox) <= 1 && Abs(y - oy) <= 1 && !(x == ox && y == oy)
      requires forall i, j :: Unmoved(i, j, ox, oy) ==> old(RowTrue(i, j, ox, oy, walk))
      requires ox < x ==> forall i, j :: 0 <= i < SIZE && 0 <= j < SIZE ==>
        if j == SIZE - 1 then CellTrue(i, j, walk, x, y)
        else localMapCache[i, j] == old(localMapCache[i, if i >= Abs(y - oy) then j + 1 else j])
      requires ox > x ==> forall i, j :: 0 <= i < SIZE && 0 <= j < SIZE ==>
        if j == 0 then CellTrue(i, j, walk, x, y)
        else localMapCache[i, j] == old(localMapCache[i, if i >= Abs(y - oy) then j - 1 else j])
      requires ox == x ==> forall i, j :: 0 <= i < SIZE && 0 <= j < SIZE ==> localMapCache[i, j] == old(localMapCache[i, j])
      ensures forall i, j :: Elsewhere(i, j, ox, oy) && !(i == MAX_VIEWPORT && j == MAX_VIEWPORT) ==>
        localMapCache[i, j] == Left(i, j, ox, oy, walk)
    {
      forall i, j | Elsewhere(i, j, ox, oy) && !(i == MAX_VIEWPORT && j == MAX_VIEWPORT)
        ensures localMapCache[i, j] == Left(i, j, ox, oy, walk)
      {
        ColumnTrue(i, j, ox, oy, walk);
      }
    }

    twostate lemma {:induction false} ColumnTrue(new i: int, new j: int, new ox: int, new oy: int, new walk: Walkable)
      requires old(allocated(this)) && old(allocated(localMapCache)) && old(allocated(walk)) && unchanged(this)
      requires Valid() && Abs(x - ox) <= 1 && Abs(y - oy) <= 1 && !(x == ox && y == oy)
      requires Elsewhere(i, j, ox, oy) && !(i == MAX_VIEWPORT && j == MAX_VIEWPORT)
      requires forall i, j :: Unmoved(i, j, ox, oy) ==> old(RowTrue(i, j, ox, oy, walk))
      requires if ox != x && j == Edge(x - ox) then CellTrue(i, j, walk, x, y)
        else localMapCache[i, j] == old(localMapCache[i, if i >= Abs(y - oy) then j + (x - ox) else j])
      ensures localMapCache[i, j] == Left(i, j, ox, oy, walk)
    {
      if !(ox != x && j == Edge(x - ox)) {
        var j1 := if i >= Abs(y - oy) then j + (x - ox) else j;
        assert old(RowTrue(i, j1, ox, oy, walk));
      }
    }

    lemma {:induction false} LeftIsAccurate(ox: int, oy: int, walk: Walkable)
      requires Valid() && Abs(x - ox) <= 1 && Abs(y - oy) <= 1 && !(x == ox && y == oy)
      requires forall i, j :: 0 <= i < SIZE && 0 <= j < SIZE && !(i == MAX_VIEWPORT && j == MAX_VIEWPORT) ==>
        localMapCache[i, j] == Left(i, j, ox, oy, walk)
      ensures !(oy < y && ox != x) ==> Accurate(walk, x, y)
      ensures oy < y && ox != x ==> (Accurate(walk, x, y) <==> EvenEdges(ox, walk))
    {
      if oy < y && ox != x {
        if Accurate(walk, x, y) {
          forall j | 0 <= j < SIZE && j != Edge(x - ox)
            ensures EvenAt(j, ox, walk)
          {
            assert CellTrue(0, j, walk, x, y) && CellTrue(SIZE - 1, j, walk, x, y);
          }
        }
        if EvenEdges(ox, walk) {
          forall i, j | 0 <= i < SIZE && 0 <= j < SIZE && !(i == MAX_VIEWPORT && j == MAX_VIEWPORT)
            ensures CellTrue(i, j, walk, x, y)
          {
            assert j != Edge(x - ox) ==> EvenAt(j, ox, walk);
          }
        }
      }
    }

    /** `getWalkCache`: 1 and 0 for walkable and not walkable, 2 for out of range or a creature that does not use the
      cache; nothing on another floor is walkable. */
    method GetWalkCache(useCacheMap: bool, px: int, py: int, pz: int, ghost walk: Walkable) returns (r: nat)
      requires Valid() && (useCacheMap ==> Accurate(walk, x, y))
      ensures r == if !useCacheMap then 2
        else if pz != z then 0
        else if px == x && py == y then 1
        else if Abs(px - x) <= MAX_VIEWPORT && Abs(py - y) <= MAX_VIEWPORT then (if walk(px, py) then 1 else 0)
        else 2
    {
      if !useCacheMap { return 2; }
      if pz != z { return 0; }
      if px == x && py == y { return 1; }
      var dx := px - x;
      if Abs(dx) <= MAX_VIEWPORT {
        var dy := py - y;
        if Abs(dy) <= MAX_VIEWPORT {
          assert CellTrue(MAX_VIEWPORT + dy, MAX_VIEWPORT + dx, walk, x, y);
          if localMapCache[MAX_VIEWPORT + dy, MAX_VIEWPORT + dx] { return 1; }
          return 0;
        }
      }
      r := 2;
    }
  }

  /** All tiles are walkable but one in the row that is the northern edge for a creature at y = 100. */
  const ONE_BLOCKED: Walkable := (px, py) => !(px == 99 && py == 100 - MAX_VIEWPORT)

  /** For a step from (99, 99) to (100, 100) the edges are not even there. */
  lemma {:induction false} SouthDiagonalFails(c: Creature)
    requires c.x == 100 && c.y == 100
    ensures !c.EvenEdges(99, ONE_BLOCKED)
  {
    assert !c.EvenAt(MAX_VIEWPORT, 99, ONE_BLOCKED);
  }

  /** A creature loads its cache, takes that step south-east, and the shifted cache is wrong. */
  method WrongAfterSouthEast() returns (c: Creature)
    ensures fresh(c) && c.Valid() && c.x == 100 && c.y == 100 && !c.Accurate(ONE_BLOCKED, 100, 100)
  {
    c := new Creature(99, 99, 7);
    c.UpdateMapCache(ONE_BLOCKED);
    c.x, c.y := 100, 100;
    SouthDiagonalFails(c);
    c.OnCreatureMove(99, 99, ONE_BLOCKED, ONE_BLOCKED);
  }
}
