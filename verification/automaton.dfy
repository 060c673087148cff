/** The 3D cellular automaton of `cellularAutomata.ts` that smooths a random
    occupancy grid into cave-like walls (`refineMap`), together with its
    neighbour walk (`loopTroughNeigbours`). */
module Automaton {

  /** Grid extents along x, y and z (`mw`, `mh`, `mt`). */
  datatype Dims = Dims(w: nat, h: nat, t: nat)

  /** The extents the cave program uses. */
  const CaveDims: Dims := Dims(50, 50, 50)

  /** The number of generations the cave program runs. */
  const CaveIterations: nat := 20

  /** `map[x][y][z]`: true marks a wall cell. */
  type Grid = seq<seq<seq<bool>>>

  predicate IsGrid(g: Grid, d: Dims) {
    && |g| == d.w
    && (forall x :: 0 <= x < |g| ==> |g[x]| == d.h)
    && (forall x, y :: 0 <= x < |g| && 0 <= y < |g[x]| ==> |g[x][y]| == d.t)
  }

  predicate InBounds(d: Dims, x: int, y: int, z: int) {
    0 <= x < d.w && 0 <= y < d.h && 0 <= z < d.t
  }

  // ---------------------------------------------------------------------
  // The neighbour walk

  /** One callback invocation: the value passed, the position, and whether
      the position lies inside the grid. */
  datatype Visit = Visit(value: bool, nx: int, ny: int, nz: int, exist: bool)

  /** What the walk reports for one position: out-of-range positions are
      reported as `false` with `exist` false. */
  function VisitAt(g: Grid, d: Dims, nx: int, ny: int, nz: int): (v: Visit)
    requires IsGrid(g, d)
    ensures v.nx == nx && v.ny == ny && v.nz == nz
    ensures v.exist <==> InBounds(d, nx, ny, nz)
    ensures v.exist ==> v.value == g[nx][ny][nz]
    ensures !v.exist ==> !v.value
  {
    if nx < 0 || ny < 0 || nz < 0 || nx >= d.w || ny >= d.h || nz >= d.t then
      Visit(false, nx, ny, nz, false)
    else
      Visit(g[nx][ny][nz], nx, ny, nz, true)
  }

  /** The 26 offsets of a radius-1 window, x slowest and z fastest, with the
      centre left out. */
  const NeighbourOffsets: seq<(int, int, int)> := [
    (-1, -1, -1), (-1, -1, 0), (-1, -1, 1),
    (-1,  0, -1), (-1,  0, 0), (-1,  0, 1),
    (-1,  1, -1), (-1,  1, 0), (-1,  1, 1),
    ( 0, -1, -1), ( 0, -1, 0), ( 0, -1, 1),
    ( 0,  0, -1),              ( 0,  0, 1),
    ( 0,  1, -1), ( 0,  1, 0), ( 0,  1, 1),
    ( 1, -1, -1), ( 1, -1, 0), ( 1, -1, 1),
    ( 1,  0, -1), ( 1,  0, 0), ( 1,  0, 1),
    ( 1,  1, -1), ( 1,  1, 0), ( 1,  1, 1)
  ]

  /** Reference sequence of callbacks for the cell (x, y, z). */
  function NeighbourVisits(g: Grid, d: Dims, x: int, y: int, z: int): seq<Visit>
    requires IsGrid(g, d)
  {
    seq(|NeighbourOffsets|, k requires 0 <= k < |NeighbourOffsets| =>
      VisitAt(g, d, x + NeighbourOffsets[k].0, y + NeighbourOffsets[k].1, z + NeighbourOffsets[k].2))
  }

  /** Lexicographic order on positions: x first, then y, then z. */
  predicate LexLess(a: (int, int, int), b: (int, int, int)) {
    a.0 < b.0 || (a.0 == b.0 && (a.1 < b.1 || (a.1 == b.1 && a.2 < b.2)))
  }

  function VisitPos(v: Visit): (int, int, int) {
    (v.nx, v.ny, v.nz)
  }

  predicate AdjacentSorted(s: seq<(int, int, int)>) {
    forall i :: 0 <= i < |s| - 1 ==> LexLess(s[i], s[i + 1])
  }

  lemma {:induction false} AdjacentSortedIsSorted(s: seq<(int, int, int)>, i: int, j: int)
    requires AdjacentSorted(s)
    requires 0 <= i < j < |s|
    ensures LexLess(s[i], s[j])
    decreases j - i
  {
    if j > i + 1 {
      AdjacentSortedIsSorted(s, i + 1, j);
    }
  }

  /** Number of window positions that come before offset (a-1, b-1, c-1)
      in walk order, the centre not counted. */
  function WalkIndex(a: int, b: int, c: int): int {
    var k := 9 * a + 3 * b + c;
    if k > 13 then k - 1 else k
  }

  lemma OffsetAt(a: int, b: int, c: int)
    requires 0 <= a <= 2 && 0 <= b <= 2 && 0 <= c <= 2
    requires !(a == 1 && b == 1 && c == 1)
    ensures 0 <= WalkIndex(a, b, c) < 26
    ensures NeighbourOffsets[WalkIndex(a, b, c)] == (a - 1, b - 1, c - 1)
  {
  }

  lemma OffsetsLength()
    ensures |NeighbourOffsets| == 26
  {
  }

  /** The offset table lists 26 distinct non-zero offsets of the radius-1
      window in increasing x-then-y-then-z order. */
  lemma OffsetsShape()
    ensures |NeighbourOffsets| == 26
    ensures AdjacentSorted(NeighbourOffsets)
    ensures forall i :: 0 <= i < 26 ==>
      && NeighbourOffsets[i] != (0, 0, 0)
      && -1 <= NeighbourOffsets[i].0 <= 1 && -1 <= NeighbourOffsets[i].1 <= 1 && -1 <= NeighbourOffsets[i].2 <= 1
  {
    forall i | 0 <= i < 26
      ensures NeighbourOffsets[i] != (0, 0, 0)
      ensures -1 <= NeighbourOffsets[i].0 <= 1 && -1 <= NeighbourOffsets[i].1 <= 1 && -1 <= NeighbourOffsets[i].2 <= 1
      ensures i < 25 ==> LexLess(NeighbourOffsets[i], NeighbourOffsets[i + 1])
    {
      assert i < 13 || i >= 13;
      if i < 6 {
        assert i == 0 || i == 1 || i == 2 || i == 3 || i == 4 || i == 5;
      } else if i < 13 {
        assert i == 6 || i == 7 || i == 8 || i == 9 || i == 10 || i == 11 || i == 12;
      } else if i < 19 {
        assert i == 13 || i == 14 || i == 15 || i == 16 || i == 17 || i == 18;
      } else {
        assert i == 19 || i == 20 || i == 21 || i == 22 || i == 23 || i == 24 || i == 25;
      }
    }
  }

  lemma NeighbourVisitAt(g: Grid, d: Dims, x: int, y: int, z: int, i: int)
    requires IsGrid(g, d) && 0 <= i < |NeighbourOffsets|
    ensures VisitPos(NeighbourVisits(g, d, x, y, z)[i])
      == (x + NeighbourOffsets[i].0, y + NeighbourOffsets[i].1, z + NeighbourOffsets[i].2)
  {
  }

  /** The walk visits exactly 26 positions, in strictly increasing
      x-then-y-then-z order, all within one step of the cell and never the
      cell itself; out-of-range positions report `false`. */
  lemma NeighbourWalkShape(g: Grid, d: Dims, x: int, y: int, z: int)
    requires IsGrid(g, d)
    ensures |NeighbourVisits(g, d, x, y, z)| == 26
    ensures forall i, j :: 0 <= i < j < 26 ==>
      LexLess(VisitPos(NeighbourVisits(g, d, x, y, z)[i]), VisitPos(NeighbourVisits(g, d, x, y, z)[j]))
    ensures forall i :: 0 <= i < 26 ==>
      var v := NeighbourVisits(g, d, x, y, z)[i];
      && (v.nx, v.ny, v.nz) != (x, y, z)
      && x - 1 <= v.nx <= x + 1 && y - 1 <= v.ny <= y + 1 && z - 1 <= v.nz <= z + 1
      && (v.exist <==> InBounds(d, v.nx, v.ny, v.nz))
      && (!v.exist ==> !v.value)
  {
    OffsetsShape();
    var vs := NeighbourVisits(g, d, x, y, z);
    var ps := seq(26, i requires 0 <= i < 26 => VisitPos(vs[i]));
    forall i | 0 <= i < 26
      ensures ps[i] == (x + NeighbourOffsets[i].0, y + NeighbourOffsets[i].1, z + NeighbourOffsets[i].2)
    {
      NeighbourVisitAt(g, d, x, y, z, i);
    }
    assert AdjacentSorted(ps) by {
      forall i | 0 <= i < 25
        ensures LexLess(ps[i], ps[i + 1])
      {
        assert LexLess(NeighbourOffsets[i], NeighbourOffsets[i + 1]);
      }
    }
    forall i, j | 0 <= i < j < 26
      ensures LexLess(VisitPos(vs[i]), VisitPos(vs[j]))
    {
      AdjacentSortedIsSorted(ps, i, j);
    }
  }

  lemma PrefixSnoc(s: seq<Visit>, k: int)
    requires 0 <= k < |s|
    ensures s[..k + 1] == s[..k] + [s[k]]
  {
  }

  /** Outside the centre, the next z position of the window comes right
      after the current one in walk order. */
  lemma WalkIndexNext(a: int, b: int, nz: int, z: int)
    requires 0 <= a <= 2 && 0 <= b <= 2 && z - 1 <= nz <= z + 1
    ensures WalkIndex(a, b, (nz + 1) - z + 1)
      == WalkIndex(a, b, nz - z + 1) + (if a == 1 && b == 1 && nz == z then 0 else 1)
  {
  }

  /** The walk reports position (nx, ny, nz) at its place in walk order. */
  lemma WalkVisitAt(g: Grid, d: Dims, x: int, y: int, z: int, nx: int, ny: int, nz: int)
    requires IsGrid(g, d)
    requires x - 1 <= nx <= x + 1 && y - 1 <= ny <= y + 1 && z - 1 <= nz <= z + 1
    requires (nx, ny, nz) != (x, y, z)
    ensures 0 <= WalkIndex(nx - x + 1, ny - y + 1, nz - z + 1) < |NeighbourVisits(g, d, x, y, z)|
    ensures NeighbourVisits(g, d, x, y, z)[WalkIndex(nx - x + 1, ny - y + 1, nz - z + 1)] == VisitAt(g, d, nx, ny, nz)
  {
    OffsetAt(nx - x + 1, ny - y + 1, nz - z + 1);
  }

  /** Appending the visit of a non-centre position of the window to the walk
      prefix that ends just before it gives the prefix that ends just after it. */
  lemma WalkStep(g: Grid, d: Dims, x: int, y: int, z: int, nx: int, ny: int, nz: int, visits: seq<Visit>, v: Visit)
    requires IsGrid(g, d)
    requires x - 1 <= nx <= x + 1 && y - 1 <= ny <= y + 1 && z - 1 <= nz <= z + 1
    requires (nx, ny, nz) != (x, y, z)
    requires visits == NeighbourVisits(g, d, x, y, z)[..WalkIndex(nx - x + 1, ny - y + 1, nz - z + 1)]
    requires v == VisitAt(g, d, nx, ny, nz)
    ensures WalkIndex(nx - x + 1, ny - y + 1, (nz + 1) - z + 1) == WalkIndex(nx - x + 1, ny - y + 1, nz - z + 1) + 1
    ensures visits + [v] == NeighbourVisits(g, d, x, y, z)[..WalkIndex(nx - x + 1, ny - y + 1, nz - z + 1) + 1]
  {
    WalkIndexNext(nx - x + 1, ny - y + 1, nz, z);
    WalkVisitAt(g, d, x, y, z, nx, ny, nz);
    PrefixSnoc(NeighbourVisits(g, d, x, y, z), WalkIndex(nx - x + 1, ny - y + 1, nz - z + 1));
  }

  /** The prefix that ends after the last window position is the whole walk. */
  lemma WalkComplete(g: Grid, d: Dims, x: int, y: int, z: int)
    requires IsGrid(g, d)
    ensures NeighbourVisits(g, d, x, y, z)[..WalkIndex(3, 0, 0)] == NeighbourVisits(g, d, x, y, z)
  {
    OffsetsLength();
  }

  /** The innermost `nz` loop of the walk for fixed `nx` and `ny`: extends
      the visits so far by the positions of that line. */
  method WalkLine(g: Grid, d: Dims, x: int, y: int, z: int, nx: int, ny: int, prefix: seq<Visit>)
    returns (visits: seq<Visit>)
    requires IsGrid(g, d)
    requires x - 1 <= nx <= x + 1 && y - 1 <= ny <= y + 1
    requires prefix == NeighbourVisits(g, d, x, y, z)[..WalkIndex(nx - x + 1, ny - y + 1, 0)]
    ensures visits == NeighbourVisits(g, d, x, y, z)[..WalkIndex(nx - x + 1, ny - y + 1, 3)]
  {
    visits := prefix;
    var nz := z - 1;
    ghost var k := WalkIndex(nx - x + 1, ny - y + 1, 0);
    while nz <= z + 1
      invariant z - 1 <= nz <= z + 2
      invariant k == WalkIndex(nx - x + 1, ny - y + 1, nz - z + 1)
      invariant visits == NeighbourVisits(g, d, x, y, z)[..k]
    {
      // the cell itself is skipped; out-of-range positions report
      // (false, exist = false)
      WalkIndexNext(nx - x + 1, ny - y + 1, nz, z);
      if !(nx == x && ny == y && nz == z) {
        var v := VisitAt(g, d, nx, ny, nz);
        WalkStep(g, d, x, y, z, nx, ny, nz, visits, v);
        visits := visits + [v];
        k := k + 1;
      }
      nz := nz + 1;
    }
    assert nz - z + 1 == 3;
  }

  /** The `ny` loop of the walk for a fixed `nx`. */
  method WalkPlane(g: Grid, d: Dims, x: int, y: int, z: int, nx: int, prefix: seq<Visit>)
    returns (visits: seq<Visit>)
    requires IsGrid(g, d)
    requires x - 1 <= nx <= x + 1
    requires prefix == NeighbourVisits(g, d, x, y, z)[..WalkIndex(nx - x + 1, 0, 0)]
    ensures visits == NeighbourVisits(g, d, x, y, z)[..WalkIndex(nx - x + 1, 3, 0)]
  {
    ghost var all := NeighbourVisits(g, d, x, y, z);
    visits := prefix;
    var ny := y - 1;
    ghost var k := WalkIndex(nx - x + 1, 0, 0);
    while ny <= y + 1
      invariant y - 1 <= ny <= y + 2
      invariant k == WalkIndex(nx - x + 1, ny - y + 1, 0)
      invariant visits == all[..k]
    {
      visits := WalkLine(g, d, x, y, z, nx, ny, visits);
      k := WalkIndex(nx - x + 1, ny - y + 1, 3);
      ny := ny + 1;
    }
  }

  /** `loopTroughNeigbours(map, x, y, z, 1, 1, 1, cb)`: the triple loop over
      the radius-1 window.  Returns the callback invocations in order and the
      function's return value. */
  method LoopThroughNeighbours(g: Grid, d: Dims, x: int, y: int, z: int)
    returns (visits: seq<Visit>, ret: int)
    requires IsGrid(g, d)
    ensures visits == NeighbourVisits(g, d, x, y, z)
    ensures ret == 0
  {
    ghost var all := NeighbourVisits(g, d, x, y, z);
    visits := [];
    var nx := x - 1;
    ghost var k := 0;
    while nx <= x + 1
      invariant x - 1 <= nx <= x + 2
      invariant k == WalkIndex(nx - x + 1, 0, 0)
      invariant visits == all[..k]
    {
      visits := WalkPlane(g, d, x, y, z, nx, visits);
      k := WalkIndex(nx - x + 1, 3, 0);
      nx := nx + 1;
    }
    WalkComplete(g, d, x, y, z);
    ret := 0;
  }

  /** How many callbacks received `true`: the source's `wallNeighboursCount`. */
  function Occupied(visits: seq<Visit>): (r: nat)
    ensures r <= |visits|
  {
    if visits == [] then 0
    else Occupied(visits[..|visits| - 1]) + (if visits[|visits| - 1].value then 1 else 0)
  }

  /** Occupied neighbours of a cell, out-of-range ones counting as empty. */
  function NeighbourCount(g: Grid, d: Dims, x: int, y: int, z: int): (r: nat)
    requires IsGrid(g, d)
    ensures r <= 26
  {
    Occupied(NeighbourVisits(g, d, x, y, z))
  }

  // ---------------------------------------------------------------------
  // One generation

  /** The birth/survival rule.  `sync` is the walk's return value, which the
      source adds to the survival threshold. */
  function NextCell(alive: bool, count: int, sync: int): bool {
    if alive then count >= 13 + sync else count <= 19 && count >= 13
  }

  /** With the walk returning 0: a wall survives iff it has at least 13
      wall neighbours; an empty cell becomes a wall iff it has 13 to 19. */
  lemma NextCellRule(alive: bool, count: int)
    ensures alive ==> (NextCell(alive, count, 0) <==> count >= 13)
    ensures !alive ==> (NextCell(alive, count, 0) <==> 13 <= count <= 19)
  {
  }

  function StepCell(g: Grid, d: Dims, x: int, y: int, z: int): bool
    requires IsGrid(g, d) && InBounds(d, x, y, z)
  {
    NextCell(g[x][y][z], NeighbourCount(g, d, x, y, z), 0)
  }

  /** One generation, computed entirely from the previous one. */
  function Step(g: Grid, d: Dims): (r: Grid)
    requires IsGrid(g, d)
    ensures IsGrid(r, d)
  {
    seq(d.w, x requires 0 <= x < d.w =>
      seq(d.h, y requires 0 <= y < d.h =>
        seq(d.t, z requires 0 <= z < d.t => StepCell(g, d, x, y, z))))
  }

  /** Every cell of the next generation follows the rule applied to the
      previous generation's cell and neighbour count. */
  lemma StepRule(g: Grid, d: Dims, x: int, y: int, z: int)
    requires IsGrid(g, d) && InBounds(d, x, y, z)
    ensures g[x][y][z] ==> (Step(g, d)[x][y][z] <==> NeighbourCount(g, d, x, y, z) >= 13)
    ensures !g[x][y][z] ==> (Step(g, d)[x][y][z] <==> 13 <= NeighbourCount(g, d, x, y, z) <= 19)
  {
    NextCellRule(g[x][y][z], NeighbourCount(g, d, x, y, z));
  }

  // ---------------------------------------------------------------------
  // Iteration

  /** `iteration` generations in a row. */
  function Refine(g: Grid, d: Dims, iteration: nat): (r: Grid)
    requires IsGrid(g, d)
    ensures IsGrid(r, d)
    decreases iteration
  {
    if iteration == 0 then g else Step(Refine(g, d, iteration - 1), d)
  }

  /** Zero generations leave the grid as it was. */
  lemma RefineZero(g: Grid, d: Dims)
    requires IsGrid(g, d)
    ensures Refine(g, d, 0) == g
  {
  }

  /** Running a then b generations is running a + b generations. */
  lemma {:induction false} RefineAdd(g: Grid, d: Dims, a: nat, b: nat)
    requires IsGrid(g, d)
    ensures Refine(Refine(g, d, a), d, b) == Refine(g, d, a + b)
    decreases b
  {
    if b > 0 {
      RefineAdd(g, d, a, b - 1);
    }
  }

  /** The row `res[x][y]` of one generation. */
  method StepRow(g: Grid, d: Dims, x: nat, y: nat) returns (row: seq<bool>)
    requires IsGrid(g, d) && x < d.w && y < d.h
    ensures row == Step(g, d)[x][y]
  {
    row := [];
    var z := 0;
    while z < d.t
      invariant z <= d.t
      invariant |row| == z
      invariant forall k :: 0 <= k < z ==> row[k] == StepCell(g, d, x, y, k)
    {
      var visits, plsBeSync := LoopThroughNeighbours(g, d, x, y, z);
      var wallNeighboursCount := Occupied(visits);
      row := row + [NextCell(g[x][y][z], wallNeighboursCount, plsBeSync)];
      z := z + 1;
    }
  }

  /** The plane `res[x]` of one generation. */
  method StepPlane(g: Grid, d: Dims, x: nat) returns (plane: seq<seq<bool>>)
    requires IsGrid(g, d) && x < d.w
    ensures plane == Step(g, d)[x]
  {
    plane := [];
    var y := 0;
    while y < d.h
      invariant y <= d.h
      invariant |plane| == y
      invariant forall k :: 0 <= k < y ==> plane[k] == Step(g, d)[x][k]
    {
      var row := StepRow(g, d, x, y);
      plane := plane + [row];
      y := y + 1;
    }
  }

  /** `refineMap(map, iteration)`: the generation loop, building each new
      grid in a fresh array before replacing the old one. */
  method RefineMap(g: Grid, d: Dims, iteration: nat) returns (r: Grid)
    requires IsGrid(g, d)
    ensures r == Refine(g, d, iteration)
  {
    r := g;
    var i := 0;
    while i < iteration
      invariant i <= iteration
      invariant r == Refine(g, d, i)
    {
      var res: Grid := [];
      var x := 0;
      while x < d.w
        invariant x <= d.w
        invariant |res| == x
        invariant forall k :: 0 <= k < x ==> res[k] == Step(r, d)[k]
      {
        var plane := StepPlane(r, d, x);
        res := res + [plane];
        x := x + 1;
      }
      r := res;
      i := i + 1;
    }
  }
}
