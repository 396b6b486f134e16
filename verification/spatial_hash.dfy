/** The fluid page's spatial hash (FluidDynamics.jsx): particles are bucketed
    by the cell of side `SmoothingRadius` they start the frame in, and a
    particle's neighbour candidates are the buckets of the 3x3 block of cells
    around its own. Particles are named by their index in the particle list. */
module SpatialHash {
  import opened RealArith

  /** The smoothing radius, which is also the cell side. */
  const CellSize := 20.0

  datatype Cell = Cell(cx: int, cy: int)

  /** `(Math.floor(x / 20), Math.floor(y / 20))`. */
  function CellOf(x: real, y: real): (c: Cell)
    ensures c.cx as real * CellSize <= x < (c.cx + 1) as real * CellSize
    ensures c.cy as real * CellSize <= y < (c.cy + 1) as real * CellSize
  {
    Cell(Floor(x / CellSize), Floor(y / CellSize))
  }

  /** Two coordinates less than one cell apart fall in the same or adjacent cells. */
  lemma NearbyFloors(a: real, b: real)
    requires -CellSize < a - b < CellSize
    ensures -1 <= Floor(a / CellSize) - Floor(b / CellSize) <= 1
  {
  }

  /** The 3x3 block around `c` holds `d`. */
  predicate InBlock(c: Cell, d: Cell) {
    -1 <= c.cx - d.cx <= 1 && -1 <= c.cy - d.cy <= 1
  }

  /** Points less than a cell apart on each axis are in each other's block. */
  lemma NearbyInBlock(x1: real, y1: real, x2: real, y2: real)
    requires -CellSize < x1 - x2 < CellSize && -CellSize < y1 - y2 < CellSize
    ensures InBlock(CellOf(x1, y1), CellOf(x2, y2))
  {
    NearbyFloors(x1, x2);
    NearbyFloors(y1, y2);
  }

  /** The indices below `n` whose cell is `key`, in the order they are filed. */
  function Bucket(cells: seq<Cell>, key: Cell, n: nat): (b: seq<nat>)
    requires n <= |cells|
    ensures |b| <= n
    decreases n
  {
    if n == 0 then []
    else
      var prev := Bucket(cells, key, n - 1);
      if cells[n - 1] == key then prev + [n - 1] else prev
  }

  /** A bucket holds exactly the indices below `n` filed under its key. */
  lemma {:induction false} BucketMembers(cells: seq<Cell>, key: Cell, n: nat)
    requires n <= |cells|
    ensures forall t: nat :: t in Bucket(cells, key, n) <==> t < n && cells[t] == key
    decreases n
  {
    if n > 0 {
      BucketMembers(cells, key, n - 1);
    }
  }

  predicate Increasing(b: seq<nat>) {
    forall i, j :: 0 <= i < j < |b| ==> b[i] < b[j]
  }

  /** Indices are filed in increasing order. */
  lemma {:induction false} BucketIncreasing(cells: seq<Cell>, key: Cell, n: nat)
    requires n <= |cells|
    ensures Increasing(Bucket(cells, key, n))
    decreases n
  {
    if n > 0 {
      var prev := Bucket(cells, key, n - 1);
      BucketIncreasing(cells, key, n - 1);
      BucketMembers(cells, key, n - 1);
      if cells[n - 1] == key {
        var b := prev + [n - 1];
        assert Bucket(cells, key, n) == b;
        forall i, j | 0 <= i < j < |b|
          ensures b[i] < b[j]
        {
          assert b[i] == prev[i] && prev[i] in prev;
          if j < |prev| {
            assert b[j] == prev[j];
          } else {
            assert b[j] == n - 1;
            assert prev[i] < n - 1;
          }
        }
      }
    }
  }

  /** The grid as the frame builds it: visiting the particles in order and
      appending each index to the list under its cell's key. */
  function BuildGrid(cells: seq<Cell>, n: nat): (g: map<Cell, seq<nat>>)
    requires n <= |cells|
    ensures forall key :: key in g <==> Bucket(cells, key, n) != []
    ensures forall key :: key in g ==> g[key] == Bucket(cells, key, n)
    decreases n
  {
    if n == 0 then map[]
    else
      var g := BuildGrid(cells, n - 1);
      var key := cells[n - 1];
      var list := if key in g then g[key] else [];
      g[key := list + [n - 1]]
  }

  /** Every particle is stored exactly once, under its own cell. */
  lemma StoredOnce(cells: seq<Cell>, t: nat)
    requires t < |cells|
    ensures var g := BuildGrid(cells, |cells|);
            && cells[t] in g
            && multiset(g[cells[t]])[t] == 1
            && forall key :: key in g && key != cells[t] ==> t !in g[key]
  {
    var g := BuildGrid(cells, |cells|);
    BucketMembers(cells, cells[t], |cells|);
    BucketIncreasing(cells, cells[t], |cells|);
    assert t in Bucket(cells, cells[t], |cells|);
    assert cells[t] in g && g[cells[t]] == Bucket(cells, cells[t], |cells|);
    DistinctOnce(g[cells[t]], t);
    forall key | key in g && key != cells[t]
      ensures t !in g[key]
    {
      BucketMembers(cells, key, |cells|);
    }
  }

  /** An element of a strictly increasing sequence occurs in it once. */
  lemma {:induction false} DistinctOnce(b: seq<nat>, t: nat)
    requires Increasing(b)
    requires t in b
    ensures multiset(b)[t] == 1
  {
    if b[0] == t {
      assert b == [b[0]] + b[1..];
      assert t !in b[1..];
    } else {
      assert b == [b[0]] + b[1..];
      DistinctOnce(b[1..], t);
    }
  }

  function Lookup(g: map<Cell, seq<nat>>, key: Cell): seq<nat> {
    if key in g then g[key] else []
  }

  /** The buckets of the cells `(x, y - 1)`, `(x, y)`, `(x, y + 1)`. */
  function Column(g: map<Cell, seq<nat>>, x: int, y: int): seq<nat> {
    Lookup(g, Cell(x, y - 1)) + Lookup(g, Cell(x, y)) + Lookup(g, Cell(x, y + 1))
  }

  /** The neighbour candidates: the buckets of the 3x3 block, column by
      column (dx = -1, 0, 1 outside, dy = -1, 0, 1 inside). */
  function Gather(g: map<Cell, seq<nat>>, c: Cell): seq<nat> {
    Column(g, c.cx - 1, c.cy) + Column(g, c.cx, c.cy) + Column(g, c.cx + 1, c.cy)
  }

  /** Looking a cell up in the finished grid yields its bucket. */
  lemma LookupIsBucket(cells: seq<Cell>, key: Cell)
    ensures Lookup(BuildGrid(cells, |cells|), key) == Bucket(cells, key, |cells|)
  {
  }

  /** `g` holds exactly the buckets of `cells`. */
  ghost predicate GridOf(g: map<Cell, seq<nat>>, cells: seq<Cell>) {
    forall key :: Lookup(g, key) == Bucket(cells, key, |cells|)
  }

  lemma BuildGridIsGrid(cells: seq<Cell>)
    ensures GridOf(BuildGrid(cells, |cells|), cells)
  {
    forall key ensures Lookup(BuildGrid(cells, |cells|), key) == Bucket(cells, key, |cells|) {
      LookupIsBucket(cells, key);
    }
  }

  /** Membership in three concatenated lists. */
  lemma InThree(a: seq<nat>, b: seq<nat>, d: seq<nat>, t: nat)
    ensures t in a + b + d <==> t in a || t in b || t in d
  {
  }

  lemma ColumnIsLookups(g: map<Cell, seq<nat>>, x: int, y: int)
    ensures Column(g, x, y) == Lookup(g, Cell(x, y - 1)) + Lookup(g, Cell(x, y)) + Lookup(g, Cell(x, y + 1))
  {
  }

  lemma GatherIsColumns(g: map<Cell, seq<nat>>, c: Cell)
    ensures Gather(g, c) == Column(g, c.cx - 1, c.cy) + Column(g, c.cx, c.cy) + Column(g, c.cx + 1, c.cy)
  {
  }

  /** Particle `t` starts in one of the three cells of column `x` around row `y`. */
  predicate InColumn(cells: seq<Cell>, x: int, y: int, t: nat) {
    t < |cells| && cells[t].cx == x && -1 <= cells[t].cy - y <= 1
  }

  /** A column's candidates are the particles starting in one of its three cells. */
  lemma ColumnMembers(g: map<Cell, seq<nat>>, cells: seq<Cell>, x: int, y: int, t: nat)
    requires GridOf(g, cells)
    ensures t in Column(g, x, y) <==> InColumn(cells, x, y, t)
  {
    var a, b, c := Lookup(g, Cell(x, y - 1)), Lookup(g, Cell(x, y)), Lookup(g, Cell(x, y + 1));
    ColumnIsLookups(g, x, y);
    InThree(a, b, c, t);
    BucketMembers(cells, Cell(x, y - 1), |cells|);
    BucketMembers(cells, Cell(x, y), |cells|);
    BucketMembers(cells, Cell(x, y + 1), |cells|);
  }

  lemma BlockMembers(g: map<Cell, seq<nat>>, cells: seq<Cell>, c: Cell, t: nat)
    requires t in Column(g, c.cx - 1, c.cy) <==> InColumn(cells, c.cx - 1, c.cy, t)
    requires t in Column(g, c.cx, c.cy) <==> InColumn(cells, c.cx, c.cy, t)
    requires t in Column(g, c.cx + 1, c.cy) <==> InColumn(cells, c.cx + 1, c.cy, t)
    ensures t in Gather(g, c) <==> t < |cells| && InBlock(c, cells[t])
  {
    GatherIsColumns(g, c);
    InThree(Column(g, c.cx - 1, c.cy), Column(g, c.cx, c.cy), Column(g, c.cx + 1, c.cy), t);
    if t < |cells| {
      BlockByColumns(c, cells[t]);
    }
  }

  /** A candidate is exactly a particle whose start cell is in the block. */
  lemma GatherMembers(cells: seq<Cell>, c: Cell, t: nat)
    ensures t in Gather(BuildGrid(cells, |cells|), c) <==> t < |cells| && InBlock(c, cells[t])
  {
    var g := BuildGrid(cells, |cells|);
    BuildGridIsGrid(cells);
    ColumnMembers(g, cells, c.cx - 1, c.cy, t);
    ColumnMembers(g, cells, c.cx, c.cy, t);
    ColumnMembers(g, cells, c.cx + 1, c.cy, t);
    BlockMembers(g, cells, c, t);
  }

  /** The block is the three columns around `c`. */
  lemma BlockByColumns(c: Cell, d: Cell)
    ensures InBlock(c, d) <==>
      (d.cx == c.cx - 1 || d.cx == c.cx || d.cx == c.cx + 1) && -1 <= d.cy - c.cy <= 1
  {
  }

  // ------------------------------------------------------------- weighted sums

  /** `w(idx[0]) + w(idx[1]) + ...`, summed from the back. */
  function SumOver(idx: seq<nat>, w: nat -> real): real
    decreases |idx|
  {
    if |idx| == 0 then 0.0 else SumOver(idx[..|idx| - 1], w) + w(idx[|idx| - 1])
  }

  lemma {:induction false} SumOverConcat(a: seq<nat>, b: seq<nat>, w: nat -> real)
    ensures SumOver(a + b, w) == SumOver(a, w) + SumOver(b, w)
    decreases |b|
  {
    if |b| == 0 {
      assert a + b == a;
    } else {
      assert (a + b)[..|a + b| - 1] == a + b[..|b| - 1];
      SumOverConcat(a, b[..|b| - 1], w);
    }
  }

  /** `w(j)` summed over the indices below `n` whose cell is in the block around `c`. */
  function BlockSum(cells: seq<Cell>, c: Cell, n: nat, w: nat -> real): real
    requires n <= |cells|
  {
    if n == 0 then 0.0
    else BlockSum(cells, c, n - 1, w) + (if InBlock(c, cells[n - 1]) then w(n - 1) else 0.0)
  }

  /** `w(j)` summed over all indices below `n`: the brute-force scan. */
  function TotalSum(n: nat, w: nat -> real): real {
    if n == 0 then 0.0 else TotalSum(n - 1, w) + w(n - 1)
  }

  /** The sum over one bucket, index by index. */
  function KeySum(cells: seq<Cell>, key: Cell, n: nat, w: nat -> real): real
    requires n <= |cells|
  {
    if n == 0 then 0.0
    else KeySum(cells, key, n - 1, w) + (if cells[n - 1] == key then w(n - 1) else 0.0)
  }

  lemma {:induction false} BucketSum(cells: seq<Cell>, key: Cell, n: nat, w: nat -> real)
    requires n <= |cells|
    ensures SumOver(Bucket(cells, key, n), w) == KeySum(cells, key, n, w)
    decreases n
  {
    if n > 0 {
      BucketSum(cells, key, n - 1, w);
      var prev := Bucket(cells, key, n - 1);
      if cells[n - 1] == key {
        assert (prev + [n - 1])[..|prev|] == prev;
      }
    }
  }

  /** The bucket sums of one column of the block, index by index. */
  function ColumnSum(cells: seq<Cell>, x: int, y: int, n: nat, w: nat -> real): real
    requires n <= |cells|
  {
    KeySum(cells, Cell(x, y - 1), n, w) + KeySum(cells, Cell(x, y), n, w)
      + KeySum(cells, Cell(x, y + 1), n, w)
  }

  lemma {:induction false} ColumnSumsAreBlockSum(cells: seq<Cell>, c: Cell, n: nat, w: nat -> real)
    requires n <= |cells|
    ensures ColumnSum(cells, c.cx - 1, c.cy, n, w) + ColumnSum(cells, c.cx, c.cy, n, w)
              + ColumnSum(cells, c.cx + 1, c.cy, n, w) == BlockSum(cells, c, n, w)
    decreases n
  {
    if n > 0 {
      ColumnSumsAreBlockSum(cells, c, n - 1, w);
    }
  }

  lemma ColumnGatherSum(g: map<Cell, seq<nat>>, cells: seq<Cell>, x: int, y: int, w: nat -> real)
    requires GridOf(g, cells)
    ensures SumOver(Column(g, x, y), w) == ColumnSum(cells, x, y, |cells|, w)
  {
    var a, b, c := Lookup(g, Cell(x, y - 1)), Lookup(g, Cell(x, y)), Lookup(g, Cell(x, y + 1));
    ColumnIsLookups(g, x, y);
    SumOverConcat(a, b, w);
    SumOverConcat(a + b, c, w);
    BucketSum(cells, Cell(x, y - 1), |cells|, w);
    BucketSum(cells, Cell(x, y), |cells|, w);
    BucketSum(cells, Cell(x, y + 1), |cells|, w);
  }

  lemma SumOverThree(a: seq<nat>, b: seq<nat>, d: seq<nat>, w: nat -> real)
    ensures SumOver(a + b + d, w) == SumOver(a, w) + SumOver(b, w) + SumOver(d, w)
  {
    SumOverConcat(a + b, d, w);
    SumOverConcat(a, b, w);
  }

  lemma BlockGatherSum(cells: seq<Cell>, c: Cell, w: nat -> real, a: seq<nat>, b: seq<nat>, d: seq<nat>)
    requires SumOver(a, w) == ColumnSum(cells, c.cx - 1, c.cy, |cells|, w)
    requires SumOver(b, w) == ColumnSum(cells, c.cx, c.cy, |cells|, w)
    requires SumOver(d, w) == ColumnSum(cells, c.cx + 1, c.cy, |cells|, w)
    ensures SumOver(a + b + d, w) == BlockSum(cells, c, |cells|, w)
  {
    ColumnSumsAreBlockSum(cells, c, |cells|, w);
    SumOverThree(a, b, d, w);
  }


  lemma GridGatherSum(g: map<Cell, seq<nat>>, cells: seq<Cell>, c: Cell, w: nat -> real)
    requires GridOf(g, cells)
    ensures SumOver(Gather(g, c), w) == BlockSum(cells, c, |cells|, w)
  {
    var a, b, d := Column(g, c.cx - 1, c.cy), Column(g, c.cx, c.cy), Column(g, c.cx + 1, c.cy);
    ColumnGatherSum(g, cells, c.cx - 1, c.cy, w);
    ColumnGatherSum(g, cells, c.cx, c.cy, w);
    ColumnGatherSum(g, cells, c.cx + 1, c.cy, w);
    BlockGatherSum(cells, c, w, a, b, d);
    GatherIsColumns(g, c);
  }

  /** Summing a weight over the gathered candidates is the block sum. */
  lemma GatherSum(cells: seq<Cell>, c: Cell, w: nat -> real)
    ensures SumOver(Gather(BuildGrid(cells, |cells|), c), w) == BlockSum(cells, c, |cells|, w)
  {
    BuildGridIsGrid(cells);
    GridGatherSum(BuildGrid(cells, |cells|), cells, c, w);
  }

  /** When every index outside the block weighs nothing, the block sum is the
      brute-force sum over all indices. */
  lemma {:induction false} BlockSumIsTotal(cells: seq<Cell>, c: Cell, n: nat, w: nat -> real)
    requires n <= |cells|
    requires forall j :: 0 <= j < n && !InBlock(c, cells[j]) ==> w(j) == 0.0
    ensures BlockSum(cells, c, n, w) == TotalSum(n, w)
    decreases n
  {
    if n > 0 {
      BlockSumIsTotal(cells, c, n - 1, w);
    }
  }

  /** A sum over indices whose weights all vanish is zero. */
  lemma {:induction false} SumOverZero(idx: seq<nat>, w: nat -> real)
    requires forall k :: 0 <= k < |idx| ==> w(idx[k]) == 0.0
    ensures SumOver(idx, w) == 0.0
    decreases |idx|
  {
    if |idx| > 0 {
      SumOverZero(idx[..|idx| - 1], w);
    }
  }

  /** With every weight in [0, 1], the total is at least any single weight
      and at most the number of terms. */
  lemma {:induction false} TotalSumBounds(n: nat, w: nat -> real, k: nat)
    requires forall j :: 0 <= j < n ==> 0.0 <= w(j) <= 1.0
    requires k < n
    ensures w(k) <= TotalSum(n, w) <= n as real
    decreases n
  {
    if k < n - 1 {
      TotalSumBounds(n - 1, w, k);
    } else if n > 1 {
      TotalSumBounds(n - 1, w, 0);
    }
  }
}
