/** Spell areas: a matrix of cells with a centre, turned for the direction of the caster and laid over the
  map around the target (src/combat.cpp, src/combat.h).

  Matrix sizes and centres are 32-bit unsigned and map coordinates 16-bit unsigned numbers, both with their
  wrap-around: a centre that lies outside its matrix may wrap when the area is turned, and the tiles that are
  hit still turn with it. */
module SpellArea {
  import opened Positions
  import PropStreams

  const U32: int := 0x1_0000_0000
  const U16: int := 0x1_0000

  type u32 = v: int | 0 <= v < 0x1_0000_0000

  function Wrap32(v: int): u32 {
    v % U32
  }

  /** Element `k` of a slice: strided positions in an array. */
  function At(start: nat, stride: nat, k: nat): nat {
    start + k * stride
  }

  function Size(rows: nat, cols: nat): nat {
    rows * cols
  }

  datatype MatrixArea = MatrixArea(arr: seq<bool>, centerX: u32, centerY: u32, rows: u32, cols: u32) {
    ghost predicate Valid() {
      |arr| == Size(rows, cols)
    }

    /** Whether the cell `dx` to the right of the centre and `dy` below it exists and is set. */
    predicate SetAt(dx: int, dy: int)
      requires Valid()
    {
      var row, col := Wrap32(centerY + dy), Wrap32(centerX + dx);
      row < rows && col < cols && Cell(this, row, col)
    }
  }

  predicate Cell(a: MatrixArea, row: int, col: int)
    requires a.Valid() && 0 <= row < a.rows && 0 <= col < a.cols
  {
    AtBelow(col, a.cols, row, a.rows);
    a.arr[At(col, a.cols, row)]
  }

  // ---------- Positions in a matrix ----------

  lemma {:induction false} AtBelow(start: nat, stride: nat, k: nat, n: nat)
    requires start < stride && k < n
    ensures At(start, stride, k) < Size(n, stride)
  {
    TimesGrows(k + 1, n, stride);
    assert (k + 1) * stride == k * stride + stride;
  }

  lemma {:induction false} TimesGrows(a: nat, b: nat, c: nat)
    requires a <= b
    ensures a * c <= b * c
  {
    assert (b - a) * c == b * c - a * c;
    assert (b - a) * c >= 0;
  }

  /** A position belongs to one row and one column only. */
  lemma {:induction false} AtUnique(i: nat, j: nat, stride: nat, k: nat, l: nat)
    requires i < stride && j < stride && At(i, stride, k) == At(j, stride, l)
    ensures i == j && k == l
  {
    assert stride * (k - l) == k * stride - l * stride;
    PropStreams.MultipleIsFar(stride, k - l);
  }

  /** Every position of a matrix lies in some row and column. */
  lemma {:induction false} AtCovers(p: nat, stride: nat, n: nat)
    requires p < Size(n, stride)
    ensures stride > 0 && p / stride < n && At(p % stride, stride, p / stride) == p
  {
    if stride > 0 {
      assert p == stride * (p / stride) + p % stride;
      if p / stride >= n {
        TimesGrows(n, p / stride, stride);
      }
    }
  }

  // ---------- What a turn is ----------

  /** `r` is `a` turned by 90 degrees clockwise, centre included. */
  ghost predicate QuarterTurn(a: MatrixArea, r: MatrixArea)
    requires a.Valid()
  {
    && r.Valid() && r.rows == a.cols && r.cols == a.rows
    && r.centerX == Wrap32(a.rows - a.centerY - 1) && r.centerY == a.centerX
    && forall row, col :: 0 <= row < r.rows && 0 <= col < r.cols ==>
                            Cell(r, row, col) == Cell(a, a.rows - 1 - col, row)
  }

  ghost predicate HalfTurn(a: MatrixArea, r: MatrixArea)
    requires a.Valid()
  {
    && r.Valid() && r.rows == a.rows && r.cols == a.cols
    && r.centerX == Wrap32(a.cols - a.centerX - 1) && r.centerY == Wrap32(a.rows - a.centerY - 1)
    && forall row, col :: 0 <= row < r.rows && 0 <= col < r.cols ==>
                            Cell(r, row, col) == Cell(a, a.rows - 1 - row, a.cols - 1 - col)
  }

  ghost predicate ThreeQuarterTurn(a: MatrixArea, r: MatrixArea)
    requires a.Valid()
  {
    && r.Valid() && r.rows == a.cols && r.cols == a.rows
    && r.centerX == a.centerY && r.centerY == Wrap32(a.cols - a.centerX - 1)
    && forall row, col :: 0 <= row < r.rows && 0 <= col < r.cols ==>
                            Cell(r, row, col) == Cell(a, col, a.cols - 1 - row)
  }

  /** Areas with the same size, centre and cells are the same. */
  lemma {:induction false} SameCells(a: MatrixArea, b: MatrixArea)
    requires a.Valid() && b.Valid() && a.rows == b.rows && a.cols == b.cols
    requires a.centerX == b.centerX && a.centerY == b.centerY
    requires forall row, col :: 0 <= row < a.rows && 0 <= col < a.cols ==> Cell(a, row, col) == Cell(b, row, col)
    ensures a == b
  {
    hide Size, At;
    forall p | 0 <= p < |a.arr|
      ensures a.arr[p] == b.arr[p]
    {
      AtCovers(p, a.cols, a.rows);
      assert Cell(a, p / a.cols, p % a.cols) == Cell(b, p / a.cols, p % a.cols);
    }
    assert a.arr == b.arr;
  }

  /** Mirroring an index in `n` wraps consistently: it is inside the matrix exactly when its mirror is. */
  lemma {:induction false} MirrorWraps(n: u32, c: u32, d: int)
    ensures Wrap32(Wrap32(n - c - 1) + d) < n <==> Wrap32(c - d) < n
    ensures Wrap32(c - d) < n ==> Wrap32(Wrap32(n - c - 1) + d) == n - 1 - Wrap32(c - d)
  {
    var r := Wrap32(c - d);
    var m := Wrap32(Wrap32(n - c - 1) + d);
    var q := (c - d) / U32 + (n - c - 1) / U32 + (Wrap32(n - c - 1) + d) / U32;
    var sum: int := m as int + r as int;
    assert sum == n - 1 - U32 * q;
  }

  /** The turned area is set at an offset exactly when the original is set at the offset turned back. */
  lemma {:induction false} QuarterTurnOffsets(a: MatrixArea, r: MatrixArea, dx: int, dy: int)
    requires a.Valid() && QuarterTurn(a, r)
    ensures r.SetAt(dx, dy) <==> a.SetAt(dy, -dx)
  {
    hide Cell, Size, Wrap32;
    MirrorWraps(a.rows, a.centerY, dx);
    var row, col := Wrap32(r.centerY + dy), Wrap32(r.centerX + dx);
    if row < r.rows && col < r.cols {
      assert Cell(r, row, col) == Cell(a, a.rows - 1 - col, row);
    }
  }

  lemma {:induction false} HalfTurnOffsets(a: MatrixArea, r: MatrixArea, dx: int, dy: int)
    requires a.Valid() && HalfTurn(a, r)
    ensures r.SetAt(dx, dy) <==> a.SetAt(-dx, -dy)
  {
    hide Cell, Size, Wrap32;
    MirrorWraps(a.rows, a.centerY, dy);
    MirrorWraps(a.cols, a.centerX, dx);
    var row, col := Wrap32(r.centerY + dy), Wrap32(r.centerX + dx);
    if row < r.rows && col < r.cols {
      assert Cell(r, row, col) == Cell(a, a.rows - 1 - row, a.cols - 1 - col);
    }
  }

  lemma {:induction false} ThreeQuarterTurnOffsets(a: MatrixArea, r: MatrixArea, dx: int, dy: int)
    requires a.Valid() && ThreeQuarterTurn(a, r)
    ensures r.SetAt(dx, dy) <==> a.SetAt(-dy, dx)
  {
    hide Cell, Size, Wrap32;
    MirrorWraps(a.cols, a.centerX, dy);
    var row, col := Wrap32(r.centerY + dy), Wrap32(r.centerX + dx);
    if row < r.rows && col < r.cols {
      assert Cell(r, row, col) == Cell(a, col, a.cols - 1 - row);
    }
  }

  // ---------- How turns compose ----------

  lemma {:induction false} MirrorTwice(n: u32, c: u32)
    ensures Wrap32(n - Wrap32(n - c - 1) - 1) == c
  {
    var q := (n - c - 1) / U32;
    var s := (n - Wrap32(n - c - 1) - 1) / U32;
    assert Wrap32(n - Wrap32(n - c - 1) - 1) == c + U32 * (q - s);
  }

  lemma {:induction false} QuarterTwiceIsHalf(a: MatrixArea, b: MatrixArea, c: MatrixArea)
    requires a.Valid() && QuarterTurn(a, b) && QuarterTurn(b, c)
    ensures HalfTurn(a, c)
  {
    hide Cell, Size;
    forall row, col | 0 <= row < c.rows && 0 <= col < c.cols
      ensures Cell(c, row, col) == Cell(a, a.rows - 1 - row, a.cols - 1 - col)
    {
      assert Cell(c, row, col) == Cell(b, b.rows - 1 - col, row);
    }
  }

  /** The 270 degree turn undoes the 90 degree turn ... */
  lemma {:induction false} ThreeQuarterUndoesQuarter(a: MatrixArea, b: MatrixArea, c: MatrixArea)
    requires a.Valid() && QuarterTurn(a, b) && ThreeQuarterTurn(b, c)
    ensures c == a
  {
    hide Cell, Size;
    MirrorTwice(a.rows, a.centerY);
    forall row, col | 0 <= row < a.rows && 0 <= col < a.cols
      ensures Cell(a, row, col) == Cell(c, row, col)
    {
      assert Cell(c, row, col) == Cell(b, col, b.cols - 1 - row);
    }
    SameCells(c, a);
  }

  /** ... and the other way round. */
  lemma {:induction false} QuarterUndoesThreeQuarter(a: MatrixArea, b: MatrixArea, c: MatrixArea)
    requires a.Valid() && ThreeQuarterTurn(a, b) && QuarterTurn(b, c)
    ensures c == a
  {
    hide Cell, Size;
    MirrorTwice(a.cols, a.centerX);
    forall row, col | 0 <= row < a.rows && 0 <= col < a.cols
      ensures Cell(a, row, col) == Cell(c, row, col)
    {
      assert Cell(c, row, col) == Cell(b, b.rows - 1 - col, row);
    }
    SameCells(c, a);
  }

  /** Four quarter turns bring any area back to itself. */
  lemma {:induction false} FourQuarters(a: MatrixArea, b: MatrixArea, c: MatrixArea, d: MatrixArea, e: MatrixArea)
    requires a.Valid() && QuarterTurn(a, b) && QuarterTurn(b, c) && QuarterTurn(c, d) && QuarterTurn(d, e)
    ensures ThreeQuarterTurn(a, d) && e == a
  {
    hide Cell, Size;
    QuarterTwiceIsHalf(a, b, c);
    MirrorTwice(a.cols, a.centerX);
    MirrorTwice(a.rows, a.centerY);
    forall row, col | 0 <= row < d.rows && 0 <= col < d.cols
      ensures Cell(d, row, col) == Cell(a, col, a.cols - 1 - row)
    {
      assert Cell(d, row, col) == Cell(c, c.rows - 1 - col, row);
    }
    QuarterUndoesThreeQuarter(a, d, e);
  }

  // ---------- The turns as the server computes them ----------

  /** Assigns `size` elements of `src`, strided, to strided elements of `dst`. */
  method AssignSlice(dst: array<bool>, start: nat, stride: nat, src: seq<bool>, from: nat, step: nat, size: nat)
    requires stride > 0
    requires forall k :: 0 <= k < size ==> At(start, stride, k) < dst.Length && At(from, step, k) < |src|
    modifies dst
    ensures forall k :: 0 <= k < size ==> dst[At(start, stride, k)] == src[At(from, step, k)]
    ensures forall p :: (0 <= p < dst.Length && (forall k :: 0 <= k < size ==> p != At(start, stride, k))) ==>
                          dst[p] == old(dst[p])
  {
    var i := 0;
    while i < size
      invariant 0 <= i <= size
      invariant forall k :: 0 <= k < i ==> dst[At(start, stride, k)] == src[At(from, step, k)]
      invariant forall p :: (0 <= p < dst.Length && (forall k :: 0 <= k < size ==> p != At(start, stride, k))) ==>
                              dst[p] == old(dst[p])
    {
      forall k | 0 <= k < i
        ensures At(start, stride, k) != At(start, stride, i)
      {
        AtRises(start, stride, k, i);
      }
      dst[At(start, stride, i)] := src[At(from, step, i)];
      i := i + 1;
    }
  }

  lemma {:induction false} AtRises(start: nat, stride: nat, k: nat, i: nat)
    requires stride > 0 && k < i
    ensures At(start, stride, k) < At(start, stride, i)
  {
    TimesGrows(k + 1, i, stride);
    assert (k + 1) * stride == k * stride + stride;
  }

  /** The first `n` lines of a turn are in place: line `i` of the result is a column, read from a row. */
  ghost predicate ColumnsFilled(a: MatrixArea, s: seq<bool>, n: int)
    requires a.Valid() && |s| == Size(a.cols, a.rows) && 0 <= n <= a.rows
  {
    forall i: nat, k: nat :: i < n && k < a.cols ==>
                               (AtBelow(i, a.rows, k, a.cols); s[At(i, a.rows, k)]) == Cell(a, a.rows - i - 1, k)
  }

  lemma {:induction false} AlongRow(k: nat, cols: nat, row: nat)
    ensures row * cols >= 0 && At(row * cols, 1, k) == At(k, cols, row)
  {
  }

  /** Column `i` of the result runs over the array like row `a.rows - i - 1` of the original. */
  lemma {:induction false} ColumnInside(a: MatrixArea, i: nat, k: nat)
    requires a.Valid() && i < a.rows && k < a.cols
    ensures At(i, a.rows, k) < |a.arr| && At(k, a.cols, a.rows - i - 1) < |a.arr|
    ensures (a.rows - i - 1) * a.cols >= 0
    ensures At((a.rows - i - 1) * a.cols, 1, k) == At(k, a.cols, a.rows - i - 1)
  {
    AtBelow(i, a.rows, k, a.cols);
    AtBelow(k, a.cols, a.rows - i - 1, a.rows);
    assert Size(a.rows, a.cols) == Size(a.cols, a.rows);
  }

  /** Assigning column `i` fills one more column and leaves the earlier ones. */
  lemma {:induction false} OneMoreColumn(a: MatrixArea, before: seq<bool>, s: seq<bool>, i: nat)
    requires a.Valid() && i < a.rows && |before| == |s| == Size(a.cols, a.rows) == |a.arr|
    requires ColumnsFilled(a, before, i)
    requires forall k: nat | k < a.cols :: At(i, a.rows, k) < |s| && At(k, a.cols, a.rows - i - 1) < |a.arr|
                                           && s[At(i, a.rows, k)] == a.arr[At(k, a.cols, a.rows - i - 1)]
    requires forall p :: (0 <= p < |s| && (forall k: nat :: k < a.cols ==> p != At(i, a.rows, k))) ==> s[p] == before[p]
    ensures ColumnsFilled(a, s, i + 1)
  {
    forall j: nat, k: nat | j < i + 1 && k < a.cols
      ensures (AtBelow(j, a.rows, k, a.cols); s[At(j, a.rows, k)]) == Cell(a, a.rows - j - 1, k)
    {
      hide At, Size;
      AtBelow(j, a.rows, k, a.cols);
      if j < i {
        forall l: nat | l < a.cols
          ensures At(j, a.rows, k) != At(i, a.rows, l)
        {
          if At(j, a.rows, k) == At(i, a.rows, l) {
            AtUnique(j, i, a.rows, k, l);
          }
        }
        assert s[At(j, a.rows, k)] == before[At(j, a.rows, k)];
      }
    }
  }

  method Rotate90(a: MatrixArea) returns (r: MatrixArea)
    requires a.Valid()
    ensures r.Valid() && QuarterTurn(a, r)
  {
    hide At, Size, Cell, ColumnsFilled;
    var newArr := new bool[|a.arr|](_ => false);
    SizeSwaps(a.rows, a.cols);
    NoColumns(a, newArr[..]);
    var i := 0;
    while i < a.rows
      invariant 0 <= i <= a.rows
      invariant ColumnsFilled(a, newArr[..], i)
    {
      ghost var before := newArr[..];
      forall k: nat | k < a.cols
        ensures At(i, a.rows, k) < |a.arr| && At(k, a.cols, a.rows - i - 1) < |a.arr|
        ensures At((a.rows - i - 1) * a.cols, 1, k) == At(k, a.cols, a.rows - i - 1)
      {
        ColumnInside(a, i, k);
      }
      AlongRow(0, a.cols, a.rows - i - 1);
      AssignSlice(newArr, i, a.rows, a.arr, (a.rows - i - 1) * a.cols, 1, a.cols);
      forall k: nat | k < a.cols
        ensures At(i, a.rows, k) < newArr.Length && At(k, a.cols, a.rows - i - 1) < |a.arr|
        ensures newArr[..][At(i, a.rows, k)] == a.arr[At(k, a.cols, a.rows - i - 1)]
      {
        ColumnInside(a, i, k);
        assert newArr[At(i, a.rows, k)] == a.arr[At((a.rows - i - 1) * a.cols, 1, k)];
      }
      OneMoreColumn(a, before, newArr[..], i);
      i := i + 1;
    }
    r := MatrixArea(newArr[..], Wrap32(a.rows - a.centerY - 1), a.centerX, a.cols, a.rows);
    AllColumns(a, r);
  }

  lemma {:induction false} SizeSwaps(rows: nat, cols: nat)
    ensures Size(rows, cols) == Size(cols, rows)
  {
  }

  lemma {:induction false} NoColumns(a: MatrixArea, s: seq<bool>)
    requires a.Valid() && |s| == Size(a.cols, a.rows)
    ensures ColumnsFilled(a, s, 0)
  {
  }

  lemma {:induction false} AllColumns(a: MatrixArea, r: MatrixArea)
    requires a.Valid() && r.Valid() && r.rows == a.cols && r.cols == a.rows && ColumnsFilled(a, r.arr, a.rows)
    ensures forall row, col :: 0 <= row < r.rows && 0 <= col < r.cols ==> Cell(r, row, col) == Cell(a, a.rows - 1 - col, row)
  {
    forall row, col | 0 <= row < r.rows && 0 <= col < r.cols
      ensures Cell(r, row, col) == Cell(a, a.rows - 1 - col, row)
    {
      AtBelow(col, a.rows, row, a.cols);
      assert r.arr[At(col, a.rows, row)] == Cell(a, a.rows - col - 1, row);
    }
  }

  /** Mirroring a position of the whole array mirrors its row and its column. */
  lemma {:induction false} AtMirrored(rows: nat, cols: nat, row: nat, col: nat)
    requires row < rows && col < cols
    ensures rows * cols - 1 - At(col, cols, row) == At(cols - 1 - col, cols, rows - 1 - row)
  {
    assert (rows - 1 - row) * cols == rows * cols - cols - row * cols;
  }

  method Rotate180(a: MatrixArea) returns (r: MatrixArea)
    requires a.Valid()
    ensures r.Valid() && HalfTurn(a, r)
  {
    var n := |a.arr|;
    var newArr := new bool[n](_ => false);
    var i := 0;
    while i < n
      invariant 0 <= i <= n
      invariant forall p :: 0 <= p < i ==> newArr[p] == a.arr[n - 1 - p]
    {
      newArr[i] := a.arr[n - 1 - i];
      i := i + 1;
    }
    r := MatrixArea(newArr[..], Wrap32(a.cols - a.centerX - 1), Wrap32(a.rows - a.centerY - 1), a.rows, a.cols);
    forall row, col | 0 <= row < r.rows && 0 <= col < r.cols
      ensures Cell(r, row, col) == Cell(a, a.rows - 1 - row, a.cols - 1 - col)
    {
      AtBelow(col, a.cols, row, a.rows);
      AtMirrored(a.rows, a.cols, row, col);
    }
  }

  ghost predicate RowsFilled(a: MatrixArea, s: seq<bool>, n: int)
    requires a.Valid() && |s| == Size(a.cols, a.rows) && 0 <= n <= a.cols
  {
    forall i: nat, k: nat :: i < n && k < a.rows ==>
                               (AtBelow(k, a.rows, i, a.cols); s[At(k, a.rows, i)]) == Cell(a, k, a.cols - i - 1)
  }

  /** Row `i` of the result runs over the array like column `a.cols - i - 1` of the original. */
  lemma {:induction false} RowInside(a: MatrixArea, i: nat, k: nat)
    requires a.Valid() && i < a.cols && k < a.rows
    ensures At(k, a.rows, i) < |a.arr| && At(a.cols - i - 1, a.cols, k) < |a.arr|
  {
    AtBelow(k, a.rows, i, a.cols);
    AtBelow(a.cols - i - 1, a.cols, k, a.rows);
    assert Size(a.rows, a.cols) == Size(a.cols, a.rows);
  }

  lemma {:induction false} OneMoreRow(a: MatrixArea, before: seq<bool>, s: seq<bool>, i: nat)
    requires a.Valid() && i < a.cols && |before| == |s| == Size(a.cols, a.rows) == |a.arr|
    requires RowsFilled(a, before, i)
    requires forall k: nat | k < a.rows :: At(k, a.rows, i) < |s| && At(a.cols - i - 1, a.cols, k) < |a.arr|
                                           && s[At(k, a.rows, i)] == a.arr[At(a.cols - i - 1, a.cols, k)]
    requires forall p :: (0 <= p < |s| && (forall k: nat :: k < a.rows ==> p != At(k, a.rows, i))) ==> s[p] == before[p]
    ensures RowsFilled(a, s, i + 1)
  {
    forall j: nat, k: nat | j < i + 1 && k < a.rows
      ensures (AtBelow(k, a.rows, j, a.cols); s[At(k, a.rows, j)]) == Cell(a, k, a.cols - j - 1)
    {
      hide At, Size;
      AtBelow(k, a.rows, j, a.cols);
      if j < i {
        forall l: nat | l < a.rows
          ensures At(k, a.rows, j) != At(l, a.rows, i)
        {
          if At(k, a.rows, j) == At(l, a.rows, i) {
            AtUnique(k, l, a.rows, j, i);
          }
        }
        assert s[At(k, a.rows, j)] == before[At(k, a.rows, j)];
      }
    }
  }

  method Rotate270(a: MatrixArea) returns (r: MatrixArea)
    requires a.Valid()
    ensures r.Valid() && ThreeQuarterTurn(a, r)
  {
    hide At, Size, Cell, RowsFilled;
    var newArr := new bool[|a.arr|](_ => false);
    SizeSwaps(a.rows, a.cols);
    NoRows(a, newArr[..]);
    var i := 0;
    while i < a.cols
      invariant 0 <= i <= a.cols
      invariant RowsFilled(a, newArr[..], i)
    {
      ghost var before := newArr[..];
      AlongRow(0, a.rows, i);
      forall k: nat | k < a.rows
        ensures At(i * a.rows, 1, k) == At(k, a.rows, i) < |a.arr| && At(a.cols - i - 1, a.cols, k) < |a.arr|
      {
        RowInside(a, i, k);
        AlongRow(k, a.rows, i);
      }
      AssignSlice(newArr, i * a.rows, 1, a.arr, a.cols - i - 1, a.cols, a.rows);
      OneMoreRow(a, before, newArr[..], i);
      i := i + 1;
    }
    r := MatrixArea(newArr[..], a.centerY, Wrap32(a.cols - a.centerX - 1), a.cols, a.rows);
    AllRows(a, r);
  }

  lemma {:induction false} NoRows(a: MatrixArea, s: seq<bool>)
    requires a.Valid() && |s| == Size(a.cols, a.rows)
    ensures RowsFilled(a, s, 0)
  {
  }

  lemma {:induction false} AllRows(a: MatrixArea, r: MatrixArea)
    requires a.Valid() && r.Valid() && r.rows == a.cols && r.cols == a.rows && RowsFilled(a, r.arr, a.cols)
    ensures forall row, col :: 0 <= row < r.rows && 0 <= col < r.cols ==> Cell(r, row, col) == Cell(a, col, a.cols - 1 - row)
  {
    forall row, col | 0 <= row < r.rows && 0 <= col < r.cols
      ensures Cell(r, row, col) == Cell(a, col, a.cols - 1 - row)
    {
      AtBelow(col, a.rows, row, a.cols);
      assert r.arr[At(col, a.rows, row)] == Cell(a, col, a.cols - row - 1);
    }
  }

  // ---------- Reading an area from its numbers ----------

  function Columns(vec: seq<u32>, rows: u32): nat {
    if rows == 0 then 0 else |vec| / rows
  }

  predicate MarksCell(v: u32) { v == 1 || v == 3 }

  predicate MarksCenter(v: u32) { v == 2 || v == 3 }

  /** No cell is marked behind the end of the matrix, where there is none. */
  ghost predicate Fits(vec: seq<u32>, rows: u32) {
    |vec| < U32 && forall k :: Size(rows, Columns(vec, rows)) <= k < |vec| ==> !MarksCell(vec[k])
  }

  /** Entry `k` lies in this column and row; without columns everything lies in one endless row. */
  function Column(cols: nat, k: nat): nat {
    if cols == 0 then k else k % cols
  }

  function Row(cols: nat, k: nat): nat {
    if cols == 0 then 0 else k / cols
  }

  /** The area has the cells that the numbers mark, and its centre at the last number that marks one. */
  ghost predicate Drawn(vec: seq<u32>, rows: u32, a: MatrixArea) {
    && a.Valid() && a.rows == rows && a.cols == Columns(vec, rows) && |a.arr| <= |vec|
    && (forall k :: 0 <= k < |a.arr| ==> a.arr[k] == MarksCell(vec[k]))
    && CenterFrom(vec, a.cols, |vec|, a.centerX, a.centerY)
  }

  /** The last of the first `n` numbers that marks a centre, if any. */
  ghost function LastCenter(vec: seq<u32>, n: nat): (k: int)
    requires n <= |vec|
    ensures -1 <= k < n
    ensures k >= 0 ==> MarksCenter(vec[k])
    ensures forall l :: k < l < n ==> !MarksCenter(vec[l])
  {
    if n == 0 then -1 else if MarksCenter(vec[n - 1]) then n - 1 else LastCenter(vec, n - 1)
  }

  ghost predicate CenterFrom(vec: seq<u32>, cols: nat, n: nat, x: int, y: int)
    requires n <= |vec|
  {
    var k := LastCenter(vec, n);
    if k < 0 then x == 0 && y == 0 else x == Column(cols, k) && y == Row(cols, k)
  }

  lemma {:induction false} ColumnsFit(vec: seq<u32>, rows: u32)
    ensures Size(rows, Columns(vec, rows)) <= |vec|
    ensures Columns(vec, rows) <= |vec|
  {
    if rows > 0 {
      assert |vec| == rows * (|vec| / rows) + |vec| % rows;
      TimesGrows(1, rows, |vec| / rows);
    }
  }

  /** The column and the row of the next entry. */
  lemma {:induction false} NextEntry(cols: nat, k: nat)
    ensures cols == Column(cols, k) + 1 ==> Column(cols, k + 1) == 0 && Row(cols, k + 1) == Row(cols, k) + 1
    ensures cols != Column(cols, k) + 1 ==> Column(cols, k + 1) == Column(cols, k) + 1 && Row(cols, k + 1) == Row(cols, k)
    ensures At(Column(cols, k), cols, Row(cols, k)) == k
  {
    if cols > 0 {
      var q, r := k / cols, k % cols;
      assert k == cols * q + r;
      if r + 1 == cols {
        assert k + 1 == cols * (q + 1) + 0;
        PropStreams.ModuloUnique(k + 1, cols, q + 1, 0);
        QuotientUnique(k + 1, cols, q + 1, 0);
      } else {
        PropStreams.ModuloUnique(k + 1, cols, q, r + 1);
        QuotientUnique(k + 1, cols, q, r + 1);
      }
    }
  }

  lemma {:induction false} QuotientUnique(v: nat, m: nat, k: nat, r: nat)
    requires m > 0 && v == m * k + r && r < m
    ensures v / m == k
  {
    AtUnique(v % m, r, m, v / m, k);
  }

  method CreateArea(vec: seq<u32>, rows: u32) returns (area: MatrixArea)
    requires Fits(vec, rows)
    ensures area.Valid() && Drawn(vec, rows, area)
  {
    hide Size, Column, Row, At, CellsFrom, CenterFrom;
    ColumnsFit(vec, rows);
    var cols: u32;
    if rows == 0 {
      cols := 0;
    } else {
      cols := |vec| / rows;
    }
    area := MatrixArea(seq(Size(rows, cols), _ => false), 0, 0, rows, cols);
    var x, y := 0, 0;
    FirstEntry(vec, cols, area.arr);
    for n := 0 to |vec|
      invariant area.Valid() && area.rows == rows && area.cols == cols
      invariant x == Column(cols, n) && y == Row(cols, n)
      invariant CellsFrom(vec, n, area.arr)
      invariant CenterFrom(vec, cols, n, area.centerX, area.centerY)
    {
      var value := vec[n];
      NextEntry(cols, n);
      RowBelow(cols, n);
      CellsStep(vec, n, area.arr);
      CenterStep(vec, cols, n, area.centerX, area.centerY);
      if value == 1 || value == 3 {
        area := area.(arr := area.arr[At(x, cols, y) := true]);
      }
      if value == 2 || value == 3 {
        area := area.(centerX := x, centerY := y);
      }
      x := x + 1;
      if cols == x {
        x := 0;
        y := y + 1;
      }
    }
    assert forall k :: 0 <= k < |area.arr| ==> area.arr[k] == MarksCell(vec[k]) by {
      AllCells(vec, area.arr);
    }
  }

  lemma {:induction false} CellsStep(vec: seq<u32>, n: nat, arr: seq<bool>)
    requires n < |vec| && |arr| <= |vec| && CellsFrom(vec, n, arr)
    ensures MarksCell(vec[n]) && n < |arr| ==> CellsFrom(vec, n + 1, arr[n := true])
    ensures !MarksCell(vec[n]) || n >= |arr| ==> CellsFrom(vec, n + 1, arr)
  {
  }

  lemma {:induction false} CenterStep(vec: seq<u32>, cols: nat, n: nat, x: int, y: int)
    requires n < |vec| && CenterFrom(vec, cols, n, x, y)
    ensures MarksCenter(vec[n]) ==> CenterFrom(vec, cols, n + 1, Column(cols, n), Row(cols, n))
    ensures !MarksCenter(vec[n]) ==> CenterFrom(vec, cols, n + 1, x, y)
  {
    hide Column, Row;
  }

  lemma {:induction false} AllCells(vec: seq<u32>, arr: seq<bool>)
    requires |arr| <= |vec| && CellsFrom(vec, |vec|, arr)
    ensures forall k :: 0 <= k < |arr| ==> arr[k] == MarksCell(vec[k])
  {
  }

  ghost predicate CellsFrom(vec: seq<u32>, n: nat, arr: seq<bool>)
    requires n <= |vec| && |arr| <= |vec|
  {
    forall k :: 0 <= k < |arr| ==> arr[k] == (k < n && MarksCell(vec[k]))
  }

  lemma {:induction false} FirstEntry(vec: seq<u32>, cols: nat, arr: seq<bool>)
    requires |arr| <= |vec| && forall k :: 0 <= k < |arr| ==> !arr[k]
    ensures Column(cols, 0) == 0 && Row(cols, 0) == 0
    ensures CellsFrom(vec, 0, arr) && CenterFrom(vec, cols, 0, 0, 0)
  {
  }

  lemma {:induction false} RowBelow(cols: nat, k: nat)
    ensures Row(cols, k) <= k && Column(cols, k) <= k
  {
    if cols > 0 {
      assert k == cols * (k / cols) + k % cols;
      TimesGrows(1, cols, k / cols);
    }
  }

  // ---------- The tiles an area hits ----------

  function Moved(u: u16, d: int): u16 {
    (u + d) % U16
  }

  function Shift(p: Position, dx: int, dy: int): Position {
    Position(Moved(p.x, dx), Moved(p.y, dy), p.z)
  }

  /** The area laid with its centre on `target` has a set cell over `p`. */
  ghost predicate Covers(a: MatrixArea, target: Position, p: Position)
    requires a.Valid()
  {
    exists row, col :: 0 <= row < a.rows && 0 <= col < a.cols
                       && Cell(a, row, col) && p == Shift(target, col - a.centerX, row - a.centerY)
  }

  /** The tiles of the first `n` entries that are set and in sight, row by row. */
  function Listed(a: MatrixArea, target: Position, clear: Position -> bool, n: nat): (s: seq<Position>)
    requires n <= |a.arr|
    ensures forall p :: p in s ==> clear(p)
  {
    if n == 0 then [] else
    var k := n - 1;
    var p := Shift(target, Column(a.cols, k) - a.centerX, Row(a.cols, k) - a.centerY);
    Listed(a, target, clear, k) + if a.arr[k] && clear(p) then [p] else []
  }

  lemma {:induction false} ListedFrom(a: MatrixArea, target: Position, clear: Position -> bool, n: nat, k: nat)
    requires k < n <= |a.arr| && a.arr[k]
    requires clear(Shift(target, Column(a.cols, k) - a.centerX, Row(a.cols, k) - a.centerY))
    ensures Shift(target, Column(a.cols, k) - a.centerX, Row(a.cols, k) - a.centerY) in Listed(a, target, clear, n)
  {
    if k < n - 1 {
      ListedFrom(a, target, clear, n - 1, k);
    }
  }

  lemma {:induction false} ListedCovers(a: MatrixArea, target: Position, clear: Position -> bool, n: nat, p: Position)
    requires a.Valid() && n <= |a.arr| && p in Listed(a, target, clear, n)
    ensures Covers(a, target, p)
  {
    var k := n - 1;
    if p in Listed(a, target, clear, k) {
      ListedCovers(a, target, clear, k, p);
    } else {
      AtCovers(k, a.cols, a.rows);
      assert Cell(a, Row(a.cols, k), Column(a.cols, k));
    }
  }

  /** The tile list holds exactly the covered positions in sight. */
  lemma {:induction false} ListIsCover(a: MatrixArea, target: Position, clear: Position -> bool, p: Position)
    requires a.Valid()
    ensures p in Listed(a, target, clear, |a.arr|) <==> Covers(a, target, p) && clear(p)
  {
    if p in Listed(a, target, clear, |a.arr|) {
      ListedCovers(a, target, clear, |a.arr|, p);
    }
    if Covers(a, target, p) && clear(p) {
      var row, col :| 0 <= row < a.rows && 0 <= col < a.cols && Cell(a, row, col)
                      && p == Shift(target, col - a.centerX, row - a.centerY);
      hide Listed, Shift, At, Size, Row, Column;
      AtBelow(col, a.cols, row, a.rows);
      EntryIs(a.cols, row, col);
      ListedFrom(a, target, clear, |a.arr|, At(col, a.cols, row));
    }
  }

  /** The entry after the first `At(col, cols, row)` ones lies in that row and column. */
  lemma {:induction false} EntryIs(cols: nat, row: nat, col: nat)
    requires col < cols
    ensures Column(cols, At(col, cols, row)) == col && Row(cols, At(col, cols, row)) == row
  {
    PropStreams.ModuloUnique(At(col, cols, row), cols, row, col);
    QuotientUnique(At(col, cols, row), cols, row, col);
  }

  lemma {:induction false} NextCell(cols: nat, row: nat)
    ensures At(0, cols, row + 1) == At(cols, cols, row)
    ensures forall col: nat :: At(col + 1, cols, row) == At(col, cols, row) + 1
  {
    assert (row + 1) * cols == row * cols + cols;
  }

  lemma {:induction false} MovedAgain(u: u16, d: int, e: int)
    ensures Moved(Moved(u, d), e) == Moved(u, d + e)
  {
    var q := (u + d) / U16 + (Moved(u, d) + e) / U16;
    var sum: int := u as int + (d + e);
    assert sum == U16 * q + Moved(Moved(u, d), e);
    PropStreams.ModuloUnique(sum, U16, q, Moved(Moved(u, d), e));
  }

  /** One more entry is visited. */
  lemma {:induction false} ListedStep(a: MatrixArea, target: Position, clear: Position -> bool, row: nat, col: nat)
    requires a.Valid() && row < a.rows && col < a.cols
    ensures At(col, a.cols, row) < |a.arr|
    ensures Listed(a, target, clear, At(col, a.cols, row) + 1)
         == Listed(a, target, clear, At(col, a.cols, row))
          + if Cell(a, row, col) && clear(Shift(target, col - a.centerX, row - a.centerY))
            then [Shift(target, col - a.centerX, row - a.centerY)] else []
  {
    hide Shift, Size, At, Row, Column;
    AtBelow(col, a.cols, row, a.rows);
    EntryIs(a.cols, row, col);
  }

  /** `clear` says which positions the caster sees. */
  method GetList(area: MatrixArea, targetPos: Position, clear: Position -> bool) returns (vec: seq<Position>)
    requires area.Valid()
    ensures vec == Listed(area, targetPos, clear, |area.arr|)
  {
    hide At, Size, Cell, Moved, Listed;
    vec := [];
    var tmpPos := Shift(targetPos, 0 - area.centerX, 0 - area.centerY);
    var row := 0;
    MatrixEnds(area.rows, area.cols);
    ListedNone(area, targetPos, clear);
    while row < area.rows
      invariant 0 <= row <= area.rows && At(0, area.cols, row) <= |area.arr|
      invariant tmpPos == Shift(targetPos, 0 - area.centerX, row - area.centerY)
      invariant vec == Listed(area, targetPos, clear, At(0, area.cols, row))
    {
      var col := 0;
      NextCell(area.cols, row);
      while col < area.cols
        invariant 0 <= col <= area.cols && At(col, area.cols, row) <= |area.arr|
        invariant tmpPos == Shift(targetPos, col - area.centerX, row - area.centerY)
        invariant vec == Listed(area, targetPos, clear, At(col, area.cols, row))
      {
        ListedStep(area, targetPos, clear, row, col);
        if Cell(area, row, col) && clear(tmpPos) {
          vec := vec + [tmpPos];
        }
        MovedAgain(targetPos.x, col - area.centerX, 1);
        col := col + 1;
        tmpPos := tmpPos.(x := Moved(tmpPos.x, 1));
      }
      MovedAgain(targetPos.x, area.cols - area.centerX, 0 - area.cols);
      MovedAgain(targetPos.y, row - area.centerY, 1);
      tmpPos := tmpPos.(x := Moved(tmpPos.x, 0 - area.cols));
      row := row + 1;
      tmpPos := tmpPos.(y := Moved(tmpPos.y, 1));
    }
  }

  lemma {:induction false} MatrixEnds(rows: nat, cols: nat)
    ensures At(0, cols, 0) == 0 && At(0, cols, rows) == Size(rows, cols)
  {
  }

  lemma {:induction false} ListedNone(a: MatrixArea, target: Position, clear: Position -> bool)
    ensures Listed(a, target, clear, 0) == []
  {
  }

  /** The tiles under a turned area are the turned tiles. */
  lemma {:induction false} QuarterTurnCovers(a: MatrixArea, r: MatrixArea, t: Position, dx: int, dy: int)
    requires a.Valid() && QuarterTurn(a, r)
    ensures Covers(r, t, Shift(t, dx, dy)) <==> Covers(a, t, Shift(t, dy, -dx))
  {
    hide Cell, Size, Wrap32, Moved;
    if Covers(r, t, Shift(t, dx, dy)) {
      var row, col :| 0 <= row < r.rows && 0 <= col < r.cols && Cell(r, row, col)
                      && Shift(t, dx, dy) == Shift(t, col - r.centerX, row - r.centerY);
      ShiftMirrored(t.x, t.y, dx, a.rows, a.centerY, col);
      SameShift(t.y, t.x, dy, row - r.centerY);
      assert Cell(a, a.rows - 1 - col, row);
    }
    if Covers(a, t, Shift(t, dy, -dx)) {
      var row, col :| 0 <= row < a.rows && 0 <= col < a.cols && Cell(a, row, col)
                      && Shift(t, dy, -dx) == Shift(t, col - a.centerX, row - a.centerY);
      ShiftMirroredBack(t.x, t.y, dx, a.rows, a.centerY, row);
      SameShift(t.x, t.y, dy, col - a.centerX);
      assert Cell(r, col, a.rows - 1 - row);
    }
  }

  lemma {:induction false} HalfTurnCovers(a: MatrixArea, r: MatrixArea, t: Position, dx: int, dy: int)
    requires a.Valid() && HalfTurn(a, r)
    ensures Covers(r, t, Shift(t, dx, dy)) <==> Covers(a, t, Shift(t, -dx, -dy))
  {
    hide Cell, Size, Wrap32, Moved;
    if Covers(r, t, Shift(t, dx, dy)) {
      var row, col :| 0 <= row < r.rows && 0 <= col < r.cols && Cell(r, row, col)
                      && Shift(t, dx, dy) == Shift(t, col - r.centerX, row - r.centerY);
      ShiftMirrored(t.x, t.x, dx, a.cols, a.centerX, col);
      ShiftMirrored(t.y, t.y, dy, a.rows, a.centerY, row);
      assert Cell(a, a.rows - 1 - row, a.cols - 1 - col);
    }
    if Covers(a, t, Shift(t, -dx, -dy)) {
      var row, col :| 0 <= row < a.rows && 0 <= col < a.cols && Cell(a, row, col)
                      && Shift(t, -dx, -dy) == Shift(t, col - a.centerX, row - a.centerY);
      ShiftMirroredBack(t.x, t.x, dx, a.cols, a.centerX, col);
      ShiftMirroredBack(t.y, t.y, dy, a.rows, a.centerY, row);
      assert Cell(r, a.rows - 1 - row, a.cols - 1 - col) by {
        assert Cell(r, a.rows - 1 - row, a.cols - 1 - col) == Cell(a, row, col);
      }
    }
  }

  lemma {:induction false} ThreeQuarterTurnCovers(a: MatrixArea, r: MatrixArea, t: Position, dx: int, dy: int)
    requires a.Valid() && ThreeQuarterTurn(a, r)
    ensures Covers(r, t, Shift(t, dx, dy)) <==> Covers(a, t, Shift(t, -dy, dx))
  {
    hide Cell, Size, Wrap32, Moved;
    if Covers(r, t, Shift(t, dx, dy)) {
      var row, col :| 0 <= row < r.rows && 0 <= col < r.cols && Cell(r, row, col)
                      && Shift(t, dx, dy) == Shift(t, col - r.centerX, row - r.centerY);
      ShiftMirrored(t.y, t.x, dy, a.cols, a.centerX, row);
      SameShift(t.x, t.y, dx, col - r.centerX);
      assert Cell(a, col, a.cols - 1 - row);
    }
    if Covers(a, t, Shift(t, -dy, dx)) {
      var row, col :| 0 <= row < a.rows && 0 <= col < a.cols && Cell(a, row, col)
                      && Shift(t, -dy, dx) == Shift(t, col - a.centerX, row - a.centerY);
      ShiftMirroredBack(t.y, t.x, dy, a.cols, a.centerX, col);
      SameShift(t.y, t.x, dx, row - a.centerY);
      assert Cell(r, a.cols - 1 - col, row);
    }
  }

  /** Equal shifts of one coordinate are equal shifts of any other. */
  lemma {:induction false} SameShift(u: u16, v: u16, d: int, e: int)
    requires Moved(u, d) == Moved(u, e)
    ensures Moved(v, d) == Moved(v, e)
  {
    var q := (u + d) / U16 - (u + e) / U16;
    assert d == e + U16 * q;
  }

  /** Line `i` of a mirrored matrix of `n` lines lies at `d` from its centre: the mirrored line lies at `-d`. */
  lemma {:induction false} ShiftMirrored(u: u16, v: u16, d: int, n: u32, c: u32, i: int)
    requires Moved(u, d) == Moved(u, i - Wrap32(n - c - 1))
    ensures Moved(v, -d) == Moved(v, n - 1 - i - c)
  {
    var q := MovedApart(u, d, i - Wrap32(n - c - 1));
    var w := (n - c - 1) / U32;
    assert n - c - 1 == U32 * w + Wrap32(n - c - 1);
    MovedTogether(v, -d, n - 1 - i - c, -q - U16 * w);
  }

  lemma {:induction false} ShiftMirroredBack(u: u16, v: u16, d: int, n: u32, c: u32, i: int)
    requires Moved(v, -d) == Moved(v, i - c)
    ensures Moved(u, d) == Moved(u, n - 1 - i - Wrap32(n - c - 1))
  {
    var q := MovedApart(v, -d, i - c);
    var w := (n - c - 1) / U32;
    assert n - c - 1 == U32 * w + Wrap32(n - c - 1);
    MovedTogether(u, d, n - 1 - i - Wrap32(n - c - 1), -q - U16 * w);
  }

  lemma {:induction false} MovedApart(u: u16, d: int, e: int) returns (q: int)
    requires Moved(u, d) == Moved(u, e)
    ensures d == e + U16 * q
  {
    q := (u + d) / U16 - (u + e) / U16;
  }

  lemma {:induction false} MovedTogether(u: u16, d: int, e: int, q: int)
    requires d == e + U16 * q
    ensures Moved(u, d) == Moved(u, e)
  {
    var k := (u + e) / U16;
    PropStreams.ModuloUnique(u + d, U16, k + q, Moved(u, e));
  }

  // ---------- The areas of a spell ----------

  type Direction = nat

  const NORTH: Direction := 0
  const EAST: Direction := 1
  const SOUTH: Direction := 2
  const WEST: Direction := 3
  const SOUTHWEST: Direction := 4
  const SOUTHEAST: Direction := 5
  const NORTHWEST: Direction := 6
  const NORTHEAST: Direction := 7

  const MAP_MAX_LAYERS: nat := 16

  const EMPTY := MatrixArea([], 0, 0, 0, 0)

  /** An offset from the target, turned back from the direction `d` to the north. */
  function TurnedBack(d: Direction, dx: int, dy: int): (int, int) {
    if d == EAST then (dy, -dx) else
    if d == SOUTH then (-dx, -dy) else
    if d == WEST then (-dy, dx) else (dx, dy)
  }

  /** The first four areas are the four turns of the first one. */
  ghost predicate FourTurns(areas: seq<MatrixArea>) {
    && |areas| >= 4 && areas[NORTH].Valid()
    && QuarterTurn(areas[NORTH], areas[EAST])
    && HalfTurn(areas[NORTH], areas[SOUTH])
    && ThreeQuarterTurn(areas[NORTH], areas[WEST])
  }

  /** Every direction hits the northern shape, turned about the target. */
  lemma {:induction false} TurnsHitOneShape(areas: seq<MatrixArea>, d: Direction, t: Position, dx: int, dy: int)
    requires FourTurns(areas) && d < 4
    ensures Covers(areas[d], t, Shift(t, dx, dy))
       <==> Covers(areas[NORTH], t, Shift(t, TurnedBack(d, dx, dy).0, TurnedBack(d, dx, dy).1))
  {
    if d == EAST {
      QuarterTurnCovers(areas[NORTH], areas[EAST], t, dx, dy);
    } else if d == SOUTH {
      HalfTurnCovers(areas[NORTH], areas[SOUTH], t, dx, dy);
    } else if d == WEST {
      ThreeQuarterTurnCovers(areas[NORTH], areas[WEST], t, dx, dy);
    }
  }

  /** What lies `n` tiles ahead of somebody who looks north lies `n` tiles ahead in the other directions, and the same to the
    right. */
  lemma {:induction false} AheadStaysAhead(areas: seq<MatrixArea>, t: Position, n: int)
    requires FourTurns(areas)
    ensures var ahead := Covers(areas[NORTH], t, Shift(t, 0, -n));
      && (Covers(areas[EAST], t, Shift(t, n, 0)) <==> ahead) && (Covers(areas[SOUTH], t, Shift(t, 0, n)) <==> ahead)
      && (Covers(areas[WEST], t, Shift(t, -n, 0)) <==> ahead)
    ensures var right := Covers(areas[NORTH], t, Shift(t, n, 0));
      && (Covers(areas[EAST], t, Shift(t, 0, n)) <==> right) && (Covers(areas[SOUTH], t, Shift(t, -n, 0)) <==> right)
      && (Covers(areas[WEST], t, Shift(t, 0, -n)) <==> right)
  {
    TurnsHitOneShape(areas, EAST, t, n, 0);
    TurnsHitOneShape(areas, SOUTH, t, 0, n);
    TurnsHitOneShape(areas, WEST, t, -n, 0);
    TurnsHitOneShape(areas, EAST, t, 0, n);
    TurnsHitOneShape(areas, SOUTH, t, -n, 0);
    TurnsHitOneShape(areas, WEST, t, 0, -n);
    hide Covers;
  }

  /** A cell drawn above the centre, with another to its right, hits the tile north of the target and the one to the right
    of that, and no other. */
  lemma {:induction false} DrawnAbove(a: MatrixArea, t: Position, p: Position)
    requires Drawn([1, 1, 2, 0], 2, a)
    ensures Covers(a, t, p) <==> p == Shift(t, 0, -1) || p == Shift(t, 1, -1)
  {
    hide *;
    DrawnIs(a);
    FourCells(a);
    CoversAbove(a, t, p);
  }

  lemma {:induction false} CoversAbove(a: MatrixArea, t: Position, p: Position)
    requires a.Valid() && a.rows == 2 && a.cols == 2 && a.centerX == 0 && a.centerY == 1
    requires forall row, col :: 0 <= row < 2 && 0 <= col < 2 ==> (Cell(a, row, col) <==> row == 0)
    ensures Covers(a, t, p) <==> p == Shift(t, 0, -1) || p == Shift(t, 1, -1)
  {
    hide Cell, Shift, Size, MatrixArea.Valid;
    if Covers(a, t, p) {
      var row, col :| 0 <= row < a.rows && 0 <= col < a.cols
                      && Cell(a, row, col) && p == Shift(t, col - a.centerX, row - a.centerY);
      assert row == 0;
      assert col == 0 || col == 1;
    }
    assert Cell(a, 0, 0) && Cell(a, 0, 1);
  }

  lemma {:induction false} FourCells(a: MatrixArea)
    requires a == MatrixArea([true, true, false, false], 0, 1, 2, 2)
    ensures a.Valid()
    ensures forall row, col :: 0 <= row < 2 && 0 <= col < 2 ==> (Cell(a, row, col) <==> row == 0)
  {
    assert Size(2, 2) == 4;
    forall row, col | 0 <= row < 2 && 0 <= col < 2
      ensures Cell(a, row, col) <==> row == 0
    {
      assert At(col, 2, row) == col + 2 * row;
    }
  }

  lemma {:induction false} DrawnIs(a: MatrixArea)
    requires Drawn([1, 1, 2, 0], 2, a)
    ensures a == MatrixArea([true, true, false, false], 0, 1, 2, 2)
  {
    LastOfFour();
    hide LastCenter;
    assert a.cols == 2 && Size(2, 2) == 4;
    var vec: seq<u32> := [1, 1, 2, 0];
    assert a.arr[0] == MarksCell(vec[0]) && a.arr[1] == MarksCell(vec[1]);
    assert a.arr[2] == MarksCell(vec[2]) && a.arr[3] == MarksCell(vec[3]);
    assert a.arr == [true, true, false, false];
  }

  lemma {:induction false} LastOfFour()
    ensures LastCenter([1, 1, 2, 0], 4) == 2
  {
    assert LastCenter([1, 1, 2, 0], 3) == 2;
  }

  /** Neighbouring directions are a quarter turn apart, all the way round. */
  lemma {:induction false} TurnsFollowTheCompass(areas: seq<MatrixArea>, south: MatrixArea, west: MatrixArea,
                                                 north: MatrixArea)
    requires FourTurns(areas)
    requires QuarterTurn(areas[EAST], south) && QuarterTurn(south, west) && QuarterTurn(west, north)
    ensures south == areas[SOUTH] && west == areas[WEST] && north == areas[NORTH]
  {
    var a := areas[NORTH];
    QuarterTwiceIsHalf(a, areas[EAST], south);
    HalfTurnUnique(a, south, areas[SOUTH]);
    FourQuarters(a, areas[EAST], south, west, north);
    ThreeQuarterTurnUnique(a, west, areas[WEST]);
  }

  lemma {:induction false} HalfTurnUnique(a: MatrixArea, b: MatrixArea, c: MatrixArea)
    requires a.Valid() && HalfTurn(a, b) && HalfTurn(a, c)
    ensures b == c
  {
    hide Cell, Size;
    SameCells(b, c);
  }

  lemma {:induction false} ThreeQuarterTurnUnique(a: MatrixArea, b: MatrixArea, c: MatrixArea)
    requires a.Valid() && ThreeQuarterTurn(a, b) && ThreeQuarterTurn(a, c)
    ensures b == c
  {
    hide Cell, Size;
    SameCells(b, c);
  }

  lemma {:induction false} NothingIsValid()
    ensures EMPTY.Valid()
  {
  }

  class AreaCombat {
    var areas: seq<MatrixArea>
    var hasExtArea: bool

    ghost predicate Valid()
      reads this
    {
      (|areas| == 0 || |areas| == 4 || |areas| == 8) && forall a :: a in areas ==> a.Valid()
    }

    constructor ()
      ensures Valid() && areas == [] && !hasExtArea
    {
      areas := [];
      hasExtArea := false;
    }

    /** The side of the target seen from the caster; across wins over up and down. */
    function DirectionTo(centerPos: Position, targetPos: Position): (d: Direction)
      reads this`hasExtArea
      ensures d < 4 <==> (!hasExtArea || targetPos.x == centerPos.x || targetPos.y == centerPos.y)
      ensures !hasExtArea && targetPos.x != centerPos.x ==> d == (if targetPos.x > centerPos.x then EAST else WEST)
      ensures targetPos.x == centerPos.x ==> d == (if targetPos.y < centerPos.y then NORTH else SOUTH)
    {
      var dx := targetPos.x - centerPos.x;
      var dy := targetPos.y - centerPos.y;
      if hasExtArea && dx < 0 && dy < 0 then NORTHWEST
      else if hasExtArea && dx > 0 && dy < 0 then NORTHEAST
      else if hasExtArea && dx < 0 && dy > 0 then SOUTHWEST
      else if hasExtArea && dx > 0 && dy > 0 then SOUTHEAST
      else if dx < 0 then WEST
      else if dx > 0 then EAST
      else if dy < 0 then NORTH
      else SOUTH
    }

    /** The area of the side that the target is on, if there is one. */
    function AreaTo(centerPos: Position, targetPos: Position): (area: MatrixArea)
      requires Valid()
      reads this
      ensures area.Valid()
    {
      var d := DirectionTo(centerPos, targetPos);
      if d < |areas| then areas[d] else EMPTY
    }

    method GetArea(centerPos: Position, targetPos: Position) returns (area: MatrixArea)
      requires Valid()
      ensures area.Valid()
      ensures area == AreaTo(centerPos, targetPos)
    {
      var dx := targetPos.x - centerPos.x;
      var dy := targetPos.y - centerPos.y;
      var dir: Direction;
      if dx < 0 {
        dir := WEST;
      } else if dx > 0 {
        dir := EAST;
      } else if dy < 0 {
        dir := NORTH;
      } else {
        dir := SOUTH;
      }
      if hasExtArea {
        if dx < 0 && dy < 0 {
          dir := NORTHWEST;
        } else if dx > 0 && dy < 0 {
          dir := NORTHEAST;
        } else if dx < 0 && dy > 0 {
          dir := SOUTHWEST;
        } else if dx > 0 && dy > 0 {
          dir := SOUTHEAST;
        }
      }
      if dir >= |areas| {
        return EMPTY;
      }
      return areas[dir];
    }

    method SetupArea(vec: seq<u32>, rows: u32)
      requires Valid() && Fits(vec, rows)
      modifies this`areas
      ensures Valid() && FourTurns(areas) && Drawn(vec, rows, areas[NORTH])
      ensures |areas| == if |old(areas)| == 0 then 4 else |old(areas)|
      ensures forall i :: 4 <= i < |old(areas)| ==> areas[i] == old(areas)[i]
    {
      hide Size, QuarterTurn, HalfTurn, ThreeQuarterTurn, Drawn;
      var area := CreateArea(vec, rows);
      NothingIsValid();
      if |areas| == 0 {
        areas := [EMPTY, EMPTY, EMPTY, EMPTY];
      }
      var east := Rotate90(area);
      var south := Rotate180(area);
      var west := Rotate270(area);
      areas := areas[EAST := east][SOUTH := south][WEST := west][NORTH := area];
    }

    /** The tiles under the area on the side of the target: with four areas set up, the northern shape turned. */
    method GetTiles(centerPos: Position, targetPos: Position, clear: Position -> bool) returns (tiles: seq<Position>)
      requires Valid() && targetPos.z < MAP_MAX_LAYERS
      ensures forall p: Position :: p in tiles <==> Covers(AreaTo(centerPos, targetPos), targetPos, p) && clear(p)
      ensures FourTurns(areas) && DirectionTo(centerPos, targetPos) < 4 ==>
                forall dx: int, dy: int {:trigger Shift(targetPos, dx, dy)} ::
                  (Shift(targetPos, dx, dy) in tiles <==>
                   (clear(Shift(targetPos, dx, dy))
                    && Reaches(areas[NORTH], DirectionTo(centerPos, targetPos), targetPos, dx, dy)))
    {
      var area := GetArea(centerPos, targetPos);
      tiles := GetList(area, targetPos, clear);
      forall p: Position
        ensures p in tiles <==> Covers(area, targetPos, p) && clear(p)
      {
        ListIsCover(area, targetPos, clear, p);
      }
      if FourTurns(areas) && DirectionTo(centerPos, targetPos) < 4 {
        forall dx: int, dy: int
          ensures Shift(targetPos, dx, dy) in tiles <==>
                  (clear(Shift(targetPos, dx, dy))
                   && Reaches(areas[NORTH], DirectionTo(centerPos, targetPos), targetPos, dx, dy))
        {
          TurnsHitOneShape(areas, DirectionTo(centerPos, targetPos), targetPos, dx, dy);
        }
      }
    }
  }

  /** The tiles a spell reaches; without an area that is the target alone, in sight or not. */
  method GetCombatArea(centerPos: Position, targetPos: Position, area: AreaCombat?, clear: Position -> bool)
    returns (tiles: seq<Position>)
    requires area != null ==> area.Valid()
    ensures targetPos.z >= MAP_MAX_LAYERS ==> tiles == []
    ensures targetPos.z < MAP_MAX_LAYERS && area == null ==> tiles == [targetPos]
    ensures targetPos.z < MAP_MAX_LAYERS && area != null ==>
              forall p: Position :: p in tiles <==> Covers(area.AreaTo(centerPos, targetPos), targetPos, p) && clear(p)
    ensures targetPos.z < MAP_MAX_LAYERS && area != null && FourTurns(area.areas)
            && area.DirectionTo(centerPos, targetPos) < 4 ==>
              forall dx: int, dy: int {:trigger Shift(targetPos, dx, dy)} ::
                (Shift(targetPos, dx, dy) in tiles <==>
                 (clear(Shift(targetPos, dx, dy))
                  && Reaches(area.areas[NORTH], area.DirectionTo(centerPos, targetPos), targetPos, dx, dy)))
  {
    if targetPos.z >= MAP_MAX_LAYERS {
      return [];
    }
    if area != null {
      tiles := area.GetTiles(centerPos, targetPos, clear);
    } else {
      tiles := [targetPos];
    }
  }

  /** The northern area, turned to direction `d`, reaches the tile at this offset from the target. */
  ghost predicate Reaches(north: MatrixArea, d: Direction, t: Position, dx: int, dy: int)
    requires north.Valid()
  {
    Covers(north, t, Shift(t, TurnedBack(d, dx, dy).0, TurnedBack(d, dx, dy).1))
  }
}
