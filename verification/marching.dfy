/** The marching-cubes sweep of `updateMesh` in `cellularAutomata.ts`: the
    mirrored, out-of-bounds-safe sampler, the 8-bit corner case index, the
    edge-midpoint vertex placement and the sweep over every lattice cell.
    The triangulation table is an input. */
module Marching {
  import opened Geometry
  import opened Automaton

  // ---------------------------------------------------------------------
  // The triangulation table

  /** The lookup table: for each of the 256 case indices a list of triangles
      given as three edge indices; for each of the 12 edges its two corner
      indices; for each of the 8 corners its position in the unit cell. */
  datatype Triangulation = Triangulation(
    triangles: seq<seq<(nat, nat, nat)>>,
    edges: seq<(nat, nat)>,
    vertices: seq<Vec3>)

  predicate ValidTable(tb: Triangulation) {
    && |tb.triangles| == 256
    && |tb.edges| == 12
    && |tb.vertices| == 8
    && (forall id, i :: 0 <= id < 256 && 0 <= i < |tb.triangles[id]| ==>
          tb.triangles[id][i].0 < 12 && tb.triangles[id][i].1 < 12 && tb.triangles[id][i].2 < 12)
    && (forall e :: 0 <= e < 12 ==> tb.edges[e].0 < 8 && tb.edges[e].1 < 8)
  }

  datatype Triangle = Triangle(a: Vec3, b: Vec3, c: Vec3)

  // ---------------------------------------------------------------------
  // Sampling

  /** `gfm(x, y, z)`: false outside [0,mw) x [0,mh) x [0,mt); inside, the
      cell at the x-mirrored position. */
  function Sample(g: Grid, d: Dims, x: int, y: int, z: int): (b: bool)
    requires IsGrid(g, d)
    ensures !InBounds(d, x, y, z) ==> !b
    ensures InBounds(d, x, y, z) ==> b == g[(d.w - 1) - x][y][z]
  {
    if (x < 0 || x >= d.w) || (y < 0 || y >= d.h) || (z < 0 || z >= d.t) then false
    else g[x * -1 + (d.w - 1)][y][z]
  }

  /** The sampler is the neighbour walk's reading taken at the mirrored x. */
  lemma SampleIsMirroredVisit(g: Grid, d: Dims, x: int, y: int, z: int)
    requires IsGrid(g, d)
    ensures Sample(g, d, x, y, z) == VisitAt(g, d, (d.w - 1) - x, y, z).value
  {
  }

  /** The eight corners of the cell whose low corner is (x, y, z), in the
      order corner000, corner100, corner010, corner110, corner001,
      corner101, corner011, corner111 (the digits are the x, y, z offsets). */
  function Corners(g: Grid, d: Dims, x: int, y: int, z: int): (c: seq<bool>)
    requires IsGrid(g, d)
    ensures |c| == 8
  {
    [ Sample(g, d, x + 0, y + 0, z + 0),
      Sample(g, d, x + 1, y + 0, z + 0),
      Sample(g, d, x + 0, y + 1, z + 0),
      Sample(g, d, x + 1, y + 1, z + 0),
      Sample(g, d, x + 0, y + 0, z + 1),
      Sample(g, d, x + 1, y + 0, z + 1),
      Sample(g, d, x + 0, y + 1, z + 1),
      Sample(g, d, x + 1, y + 1, z + 1) ]
  }

  /** Corner k sits at offset (k % 2, (k / 2) % 2, k / 4): the binary digits
      of k, lowest first, are its x, y and z offsets. */
  lemma CornerAt(g: Grid, d: Dims, x: int, y: int, z: int, k: nat)
    requires IsGrid(g, d) && k < 8
    ensures Corners(g, d, x, y, z)[k] == Sample(g, d, x + k % 2, y + (k / 2) % 2, z + k / 4)
  {
    if k == 0 {
    } else if k == 1 {
    } else if k == 2 {
    } else if k == 3 {
    } else if k == 4 {
    } else if k == 5 {
    } else if k == 6 {
    } else {
      assert k == 7;
    }
  }

  // ---------------------------------------------------------------------
  // The case index

  function BitChar(b: bool): char {
    if b then '1' else '0'
  }

  /** `idString`: corner111 first, corner000 last. */
  function IdString(c: seq<bool>): (s: string)
    requires |c| == 8
    ensures |s| == 8
    ensures forall i :: 0 <= i < 8 ==> s[i] == BitChar(c[7 - i])
  {
    [BitChar(c[7]), BitChar(c[6]), BitChar(c[5]), BitChar(c[4]),
     BitChar(c[3]), BitChar(c[2]), BitChar(c[1]), BitChar(c[0])]
  }

  function Digit(ch: char): nat {
    if ch == '1' then 1 else 0
  }

  /** `parseInt(s, 2)` on a non-empty string of '0' and '1' characters. */
  function ParseBinary(s: string): nat {
    if s == [] then 0 else 2 * ParseBinary(s[..|s| - 1]) + Digit(s[|s| - 1])
  }

  function B(b: bool): nat {
    if b then 1 else 0
  }

  /** The case index of a cell, `id`. */
  function CaseId(c: seq<bool>): nat
    requires |c| == 8
  {
    ParseBinary(IdString(c))
  }

  lemma ParseStep(s: string, k: nat)
    requires k < |s|
    ensures ParseBinary(s[..k + 1]) == 2 * ParseBinary(s[..k]) + Digit(s[k])
  {
    assert s[..k + 1][..k] == s[..k];
  }

  lemma DigitOfBit(b: bool)
    ensures Digit(BitChar(b)) == B(b)
  {
  }

  /** Reading an 8-character binary string: the first character is the
      most significant bit. */
  lemma ParseBinary8(s: string)
    requires |s| == 8
    ensures ParseBinary(s) == 128 * Digit(s[0]) + 64 * Digit(s[1]) + 32 * Digit(s[2]) + 16 * Digit(s[3])
                              + 8 * Digit(s[4]) + 4 * Digit(s[5]) + 2 * Digit(s[6]) + Digit(s[7])
  {
    assert s[..0] == [];
    ParseStep(s, 0); ParseStep(s, 1); ParseStep(s, 2); ParseStep(s, 3);
    ParseStep(s, 4); ParseStep(s, 5); ParseStep(s, 6); ParseStep(s, 7);
    assert s[..8] == s;
  }

  /** Corner k lands in bit k: corner000 is bit 0 and corner111 is bit 7. */
  lemma CaseIdValue(c: seq<bool>)
    requires |c| == 8
    ensures CaseId(c) == B(c[0]) + 2 * B(c[1]) + 4 * B(c[2]) + 8 * B(c[3])
                         + 16 * B(c[4]) + 32 * B(c[5]) + 64 * B(c[6]) + 128 * B(c[7])
  {
    var s := IdString(c);
    ParseBinary8(s);
    assert Digit(s[7]) == B(c[0]) by { DigitOfBit(c[0]); }
    assert Digit(s[6]) == B(c[1]) by { DigitOfBit(c[1]); }
    assert Digit(s[5]) == B(c[2]) by { DigitOfBit(c[2]); }
    assert Digit(s[4]) == B(c[3]) by { DigitOfBit(c[3]); }
    assert Digit(s[3]) == B(c[4]) by { DigitOfBit(c[4]); }
    assert Digit(s[2]) == B(c[5]) by { DigitOfBit(c[5]); }
    assert Digit(s[1]) == B(c[6]) by { DigitOfBit(c[6]); }
    assert Digit(s[0]) == B(c[7]) by { DigitOfBit(c[7]); }
  }

  /** Reference decoding of a case index back into its eight corners. */
  function CornersOf(id: nat): (c: seq<bool>)
    ensures |c| == 8
  {
    [ id % 2 == 1, (id / 2) % 2 == 1, (id / 4) % 2 == 1, (id / 8) % 2 == 1,
      (id / 16) % 2 == 1, (id / 32) % 2 == 1, (id / 64) % 2 == 1, (id / 128) % 2 == 1 ]
  }

  lemma DivUnique(a: int, w: int, q: int, r: int)
    requires w > 0 && 0 <= r < w && a == w * q + r
    ensures a / w == q
  {
    var k := q - a / w;
    assert w * k == a % w - r;
  }

  /** Bit k of a number whose binary digits below, at and above k are known. */
  lemma BitAt(id: int, w: int, lo: int, b: nat, hi: int)
    requires w > 0 && 0 <= lo < w && b <= 1 && hi >= 0
    requires id == lo + w * b + 2 * w * hi
    ensures (id / w) % 2 == b
  {
    assert id == w * (b + 2 * hi) + lo;
    DivUnique(id, w, b + 2 * hi, lo);
  }

  /** The eight binary digits of a byte given by its weighted digit sum. */
  lemma ByteDigits(id: nat, b0: nat, b1: nat, b2: nat, b3: nat, b4: nat, b5: nat, b6: nat, b7: nat)
    requires b0 <= 1 && b1 <= 1 && b2 <= 1 && b3 <= 1 && b4 <= 1 && b5 <= 1 && b6 <= 1 && b7 <= 1
    requires id == b0 + 2 * b1 + 4 * b2 + 8 * b3 + 16 * b4 + 32 * b5 + 64 * b6 + 128 * b7
    ensures id % 2 == b0 && (id / 2) % 2 == b1 && (id / 4) % 2 == b2 && (id / 8) % 2 == b3
    ensures (id / 16) % 2 == b4 && (id / 32) % 2 == b5 && (id / 64) % 2 == b6 && (id / 128) % 2 == b7
  {
    BitAt(id, 1, 0, b0, b1 + 2 * b2 + 4 * b3 + 8 * b4 + 16 * b5 + 32 * b6 + 64 * b7);
    BitAt(id, 2, b0, b1, b2 + 2 * b3 + 4 * b4 + 8 * b5 + 16 * b6 + 32 * b7);
    BitAt(id, 4, b0 + 2 * b1, b2, b3 + 2 * b4 + 4 * b5 + 8 * b6 + 16 * b7);
    BitAt(id, 8, b0 + 2 * b1 + 4 * b2, b3, b4 + 2 * b5 + 4 * b6 + 8 * b7);
    BitAt(id, 16, b0 + 2 * b1 + 4 * b2 + 8 * b3, b4, b5 + 2 * b6 + 4 * b7);
    BitAt(id, 32, b0 + 2 * b1 + 4 * b2 + 8 * b3 + 16 * b4, b5, b6 + 2 * b7);
    BitAt(id, 64, b0 + 2 * b1 + 4 * b2 + 8 * b3 + 16 * b4 + 32 * b5, b6, b7);
    BitAt(id, 128, b0 + 2 * b1 + 4 * b2 + 8 * b3 + 16 * b4 + 32 * b5 + 64 * b6, b7, 0);
  }

  /** A byte is the weighted sum of its eight binary digits. */
  lemma ByteSum(id: nat)
    requires id <= 255
    ensures id == id % 2 + 2 * ((id / 2) % 2) + 4 * ((id / 4) % 2) + 8 * ((id / 8) % 2)
                  + 16 * ((id / 16) % 2) + 32 * ((id / 32) % 2) + 64 * ((id / 64) % 2) + 128 * ((id / 128) % 2)
  {
    // peel the bits off one at a time
    var q1 := id / 2;
    var q2 := q1 / 2;
    var q3 := q2 / 2;
    var q4 := q3 / 2;
    var q5 := q4 / 2;
    var q6 := q5 / 2;
    var q7 := q6 / 2;
    var r0, r1, r2, r3, r4, r5, r6 := id % 2, q1 % 2, q2 % 2, q3 % 2, q4 % 2, q5 % 2, q6 % 2;
    assert q7 <= 1;
    DivUnique(id, 4, q2, 2 * r1 + r0);
    DivUnique(id, 8, q3, 4 * r2 + 2 * r1 + r0);
    DivUnique(id, 16, q4, 8 * r3 + 4 * r2 + 2 * r1 + r0);
    DivUnique(id, 32, q5, 16 * r4 + 8 * r3 + 4 * r2 + 2 * r1 + r0);
    DivUnique(id, 64, q6, 32 * r5 + 16 * r4 + 8 * r3 + 4 * r2 + 2 * r1 + r0);
    DivUnique(id, 128, q7, 64 * r6 + 32 * r5 + 16 * r4 + 8 * r3 + 4 * r2 + 2 * r1 + r0);
  }

  /** The corners a byte decodes to are its binary digits. */
  lemma DecodeByte(id: nat, b0: bool, b1: bool, b2: bool, b3: bool, b4: bool, b5: bool, b6: bool, b7: bool)
    requires id == B(b0) + 2 * B(b1) + 4 * B(b2) + 8 * B(b3) + 16 * B(b4) + 32 * B(b5) + 64 * B(b6) + 128 * B(b7)
    ensures CornersOf(id) == [b0, b1, b2, b3, b4, b5, b6, b7]
  {
    ByteDigits(id, B(b0), B(b1), B(b2), B(b3), B(b4), B(b5), B(b6), B(b7));
  }

  /** A number whose binary digits are the corners decodes to the corners. */
  lemma DecodeDigits(c: seq<bool>, id: nat)
    requires |c| == 8
    requires id == B(c[0]) + 2 * B(c[1]) + 4 * B(c[2]) + 8 * B(c[3])
                   + 16 * B(c[4]) + 32 * B(c[5]) + 64 * B(c[6]) + 128 * B(c[7])
    ensures CornersOf(id) == c
  {
    assert CornersOf(id) == [c[0], c[1], c[2], c[3], c[4], c[5], c[6], c[7]] by {
      DecodeByte(id, c[0], c[1], c[2], c[3], c[4], c[5], c[6], c[7]);
    }
    Seq8(c);
  }

  lemma Seq8(c: seq<bool>)
    requires |c| == 8
    ensures c == [c[0], c[1], c[2], c[3], c[4], c[5], c[6], c[7]]
  {
  }

  /** Bit k of the case index is corner k. */
  lemma CaseIdDecodes(c: seq<bool>)
    requires |c| == 8
    ensures CornersOf(CaseId(c)) == c
  {
    CaseIdValue(c);
    DecodeDigits(c, CaseId(c));
  }

  /** The index fits a byte, bit k holds corner k, and decoding it gives the
      corners back: the encoding is a bijection between corner patterns and
      [0, 255]. */
  lemma CaseIdRoundTrip(c: seq<bool>)
    requires |c| == 8
    ensures 0 <= CaseId(c) <= 255
    ensures CornersOf(CaseId(c)) == c
    ensures (forall k :: 0 <= k < 8 ==> !c[k]) ==> CaseId(c) == 0
    ensures (forall k :: 0 <= k < 8 ==> c[k]) ==> CaseId(c) == 255
  {
    CaseIdValue(c);
    CaseIdDecodes(c);
  }

  /** Every index in [0, 255] is the index of exactly the corners it decodes to. */
  lemma CornersOfRoundTrip(id: nat)
    requires id <= 255
    ensures CaseId(CornersOf(id)) == id
  {
    var c := CornersOf(id);
    assert CaseId(c) == B(c[0]) + 2 * B(c[1]) + 4 * B(c[2]) + 8 * B(c[3])
                        + 16 * B(c[4]) + 32 * B(c[5]) + 64 * B(c[6]) + 128 * B(c[7]) by {
      CaseIdValue(c);
    }
    assert B(c[0]) == id % 2 && B(c[1]) == (id / 2) % 2 && B(c[2]) == (id / 4) % 2 && B(c[3]) == (id / 8) % 2;
    assert B(c[4]) == (id / 16) % 2 && B(c[5]) == (id / 32) % 2 && B(c[6]) == (id / 64) % 2 && B(c[7]) == (id / 128) % 2;
    ByteSum(id);
  }

  // ---------------------------------------------------------------------
  // Vertex placement

  /** The cell size `l` the cave program uses. */
  const CellSize: real := 1.0

  /** The vertex placed on table edge `e` of the cell at (x, y, z): the
      corner positions are shifted by -0.5, the midpoint is taken as
      p1 + (p2 - p1) * 0.5, scaled by l, and offset by (x+1, y+1, z+1) * l. */
  function EdgeVertex(tb: Triangulation, e: (nat, nat), x: int, y: int, z: int, l: real): (r: Vec3)
    requires e.0 < |tb.vertices| && e.1 < |tb.vertices|
    ensures var c1 := tb.vertices[e.0]; var c2 := tb.vertices[e.1];
      && r.x == ((c1.x + c2.x) / 2.0 - 0.5 + (x as real + 1.0)) * l
      && r.y == ((c1.y + c2.y) / 2.0 - 0.5 + (y as real + 1.0)) * l
      && r.z == ((c1.z + c2.z) / 2.0 - 0.5 + (z as real + 1.0)) * l
  {
    var vert := seq(|tb.vertices|, i requires 0 <= i < |tb.vertices| => Add(tb.vertices[i], Splat(-0.5)));
    var p1 := vert[e.0];
    var p2 := vert[e.1];
    var half := Mul(Sub(p2, p1), Splat(0.5));
    var mid := Mul(Add(p1, half), Splat(l));
    var posp1 := Mul(Add(Vec3(x as real, y as real, z as real), Splat(1.0)), Splat(l));
    Add(mid, posp1)
  }

  /** The triangles a cell contributes: one per table triangle of its case,
      each edge index resolved to its edge's midpoint vertex. The corners
      are stated through `EdgeVertex`, whose contract gives the closed form
      of each midpoint in cell coordinates. */
  function CellTriangles(tb: Triangulation, g: Grid, d: Dims, x: int, y: int, z: int): (r: seq<Triangle>)
    requires ValidTable(tb) && IsGrid(g, d)
    ensures CaseId(Corners(g, d, x, y, z)) < 256
    ensures |r| == |tb.triangles[CaseId(Corners(g, d, x, y, z))]|
    ensures forall i :: 0 <= i < |r| ==>
      var t := tb.triangles[CaseId(Corners(g, d, x, y, z))][i];
      && r[i].a == EdgeVertex(tb, tb.edges[t.0], x, y, z, CellSize)
      && r[i].b == EdgeVertex(tb, tb.edges[t.1], x, y, z, CellSize)
      && r[i].c == EdgeVertex(tb, tb.edges[t.2], x, y, z, CellSize)
  {
    var id := CaseId(Corners(g, d, x, y, z));
    CaseIdRoundTrip(Corners(g, d, x, y, z));
    var tris := tb.triangles[id];
    seq(|tris|, i requires 0 <= i < |tris| =>
      Triangle(EdgeVertex(tb, tb.edges[tris[i].0], x, y, z, CellSize),
               EdgeVertex(tb, tb.edges[tris[i].1], x, y, z, CellSize),
               EdgeVertex(tb, tb.edges[tris[i].2], x, y, z, CellSize)))
  }

  // ---------------------------------------------------------------------
  // The sweep: x, y and z each run from -1 to the extent inclusive

  type Cell = (int, int, int)

  /** The cells of one z column from z up to the extent. */
  function ColumnCells(d: Dims, x: int, y: int, z: int): seq<Cell>
    requires -1 <= z
    decreases d.t + 1 - z
  {
    if z > d.t then [] else [(x, y, z)] + ColumnCells(d, x, y, z + 1)
  }

  /** The columns of one x slab from y up to the extent. */
  function SlabCells(d: Dims, x: int, y: int): seq<Cell>
    requires -1 <= y
    decreases d.h + 1 - y
  {
    if y > d.h then [] else ColumnCells(d, x, y, -1) + SlabCells(d, x, y + 1)
  }

  /** The slabs from x up to the extent. */
  function GridCells(d: Dims, x: int): seq<Cell>
    requires -1 <= x
    decreases d.w + 1 - x
  {
    if x > d.w then [] else SlabCells(d, x, -1) + GridCells(d, x + 1)
  }

  /** The triangles of a list of cells, cell after cell. */
  function Soup(tb: Triangulation, g: Grid, d: Dims, cells: seq<Cell>): seq<Triangle>
    requires ValidTable(tb) && IsGrid(g, d)
  {
    if cells == [] then [] else CellTriangles(tb, g, d, cells[0].0, cells[0].1, cells[0].2) + Soup(tb, g, d, cells[1..])
  }

  /** `resMesh`: the triangles of every visited cell, in visiting order. */
  function March(tb: Triangulation, g: Grid, d: Dims): seq<Triangle>
    requires ValidTable(tb) && IsGrid(g, d)
  {
    Soup(tb, g, d, GridCells(d, -1))
  }

  /** Two sorted runs stay sorted when the last of the first precedes the
      first of the second. */
  lemma AdjacentSortedConcat(a: seq<Cell>, b: seq<Cell>)
    requires AdjacentSorted(a) && AdjacentSorted(b)
    requires a != [] && b != [] ==> LexLess(a[|a| - 1], b[0])
    ensures AdjacentSorted(a + b)
  {
    var s := a + b;
    forall i | 0 <= i < |s| - 1
      ensures LexLess(s[i], s[i + 1])
    {
      if i + 1 < |a| {
        assert s[i] == a[i] && s[i + 1] == a[i + 1];
      } else if i + 1 == |a| {
        assert s[i] == a[|a| - 1] && s[i + 1] == b[0];
      } else {
        assert s[i] == b[i - |a|] && s[i + 1] == b[i - |a| + 1];
      }
    }
  }

  lemma {:induction false} ColumnCellsShape(d: Dims, x: int, y: int, z: int)
    requires -1 <= z
    ensures forall c :: c in ColumnCells(d, x, y, z) <==> c.0 == x && c.1 == y && z <= c.2 <= d.t
    ensures AdjacentSorted(ColumnCells(d, x, y, z))
    decreases d.t + 1 - z
  {
    if z <= d.t {
      var rest := ColumnCells(d, x, y, z + 1);
      ColumnCellsShape(d, x, y, z + 1);
      assert rest != [] ==> rest[0] in rest;
      AdjacentSortedConcat([(x, y, z)], rest);
    }
  }

  lemma {:induction false} SlabCellsShape(d: Dims, x: int, y: int)
    requires -1 <= y
    ensures forall c :: c in SlabCells(d, x, y) <==> c.0 == x && y <= c.1 <= d.h && -1 <= c.2 <= d.t
    ensures AdjacentSorted(SlabCells(d, x, y))
    decreases d.h + 1 - y
  {
    if y <= d.h {
      var column := ColumnCells(d, x, y, -1);
      var rest := SlabCells(d, x, y + 1);
      ColumnCellsShape(d, x, y, -1);
      SlabCellsShape(d, x, y + 1);
      assert column != [] ==> column[|column| - 1] in column;
      assert rest != [] ==> rest[0] in rest;
      AdjacentSortedConcat(column, rest);
    }
  }

  lemma {:induction false} GridCellsShape(d: Dims, x: int)
    requires -1 <= x
    ensures forall c :: c in GridCells(d, x) <==> x <= c.0 <= d.w && -1 <= c.1 <= d.h && -1 <= c.2 <= d.t
    ensures AdjacentSorted(GridCells(d, x))
    decreases d.w + 1 - x
  {
    if x <= d.w {
      var slab := SlabCells(d, x, -1);
      var rest := GridCells(d, x + 1);
      SlabCellsShape(d, x, -1);
      GridCellsShape(d, x + 1);
      assert slab != [] ==> slab[|slab| - 1] in slab;
      assert rest != [] ==> rest[0] in rest;
      AdjacentSortedConcat(slab, rest);
    }
  }

  /** The sweep visits every cell of [-1, mw] x [-1, mh] x [-1, mt] exactly
      once, x slowest and z fastest: the grid plus a one-cell border, so the
      surface is closed. */
  lemma MarchVisitsGrid(d: Dims)
    ensures forall c :: c in GridCells(d, -1) <==> -1 <= c.0 <= d.w && -1 <= c.1 <= d.h && -1 <= c.2 <= d.t
    ensures forall i, j :: 0 <= i < j < |GridCells(d, -1)| ==> LexLess(GridCells(d, -1)[i], GridCells(d, -1)[j])
    ensures |GridCells(d, -1)| == (d.w + 2) * ((d.h + 2) * (d.t + 2))
  {
    GridCellsShape(d, -1);
    GridCellsLength(d, -1);
    var cs := GridCells(d, -1);
    forall i, j | 0 <= i < j < |cs|
      ensures LexLess(cs[i], cs[j])
    {
      AdjacentSortedIsSorted(cs, i, j);
    }
  }

  /** One more block of n elements in front of the blocks for positions
      i + 1 ..= top makes the blocks for positions i ..= top. */
  lemma LengthStep<T>(a: seq<T>, b: seq<T>, top: int, i: int, n: int)
    requires |a| == n && |b| == (top + 1 - (i + 1)) * n
    ensures |a + b| == (top + 1 - i) * n
  {
    assert (top + 1 - i) * n == (top + 1 - (i + 1)) * n + n;
  }

  lemma {:induction false} ColumnCellsLength(d: Dims, x: int, y: int, z: int)
    requires -1 <= z <= d.t + 1
    ensures |ColumnCells(d, x, y, z)| == d.t + 1 - z
    decreases d.t + 1 - z
  {
    if z <= d.t {
      ColumnCellsLength(d, x, y, z + 1);
    }
  }

  lemma {:induction false} SlabCellsLength(d: Dims, x: int, y: int)
    requires -1 <= y <= d.h + 1
    ensures |SlabCells(d, x, y)| == (d.h + 1 - y) * (d.t + 2)
    decreases d.h + 1 - y
  {
    if y <= d.h {
      var column := ColumnCells(d, x, y, -1);
      var rest := SlabCells(d, x, y + 1);
      ColumnCellsLength(d, x, y, -1);
      SlabCellsLength(d, x, y + 1);
      LengthStep(column, rest, d.h, y, d.t + 2);
    }
  }

  lemma {:induction false} GridCellsLength(d: Dims, x: int)
    requires -1 <= x <= d.w + 1
    ensures |GridCells(d, x)| == (d.w + 1 - x) * ((d.h + 2) * (d.t + 2))
    decreases d.w + 1 - x
  {
    if x <= d.w {
      var slab := SlabCells(d, x, -1);
      var rest := GridCells(d, x + 1);
      SlabCellsLength(d, x, -1);
      GridCellsLength(d, x + 1);
      LengthStep(slab, rest, d.w, x, (d.h + 2) * (d.t + 2));
    }
  }

  predicate AllEmpty(g: Grid) {
    forall x, y, z :: 0 <= x < |g| && 0 <= y < |g[x]| && 0 <= z < |g[x][y]| ==> !g[x][y][z]
  }

  /** On an empty grid every cell has case index 0. */
  lemma EmptyCellCase(g: Grid, d: Dims, x: int, y: int, z: int)
    requires IsGrid(g, d) && AllEmpty(g)
    ensures CaseId(Corners(g, d, x, y, z)) == 0
  {
    var c := Corners(g, d, x, y, z);
    forall k | 0 <= k < 8
      ensures !c[k]
    {
    }
    CaseIdRoundTrip(c);
  }

  /** On an empty grid every cell emits as many triangles as table entry 0. */
  lemma EmptyCellLength(tb: Triangulation, g: Grid, d: Dims, x: int, y: int, z: int)
    requires ValidTable(tb) && IsGrid(g, d) && AllEmpty(g)
    ensures |CellTriangles(tb, g, d, x, y, z)| == |tb.triangles[0]|
  {
    EmptyCellCase(g, d, x, y, z);
  }

  /** On an all-empty grid every cell of a list emits table entry 0. */
  lemma {:induction false} EmptySoup(tb: Triangulation, g: Grid, d: Dims, cells: seq<Cell>)
    requires ValidTable(tb) && IsGrid(g, d) && AllEmpty(g)
    ensures |Soup(tb, g, d, cells)| == |cells| * |tb.triangles[0]|
    decreases |cells|
  {
    if cells != [] {
      var n := |tb.triangles[0]|;
      EmptyCellLength(tb, g, d, cells[0].0, cells[0].1, cells[0].2);
      EmptySoup(tb, g, d, cells[1..]);
      assert |cells| * n == n + |cells[1..]| * n;
    }
  }

  /** On an all-empty grid each of the (mw+2)(mh+2)(mt+2) visited cells emits
      exactly table entry 0; with the usual empty entry 0 the mesh is empty. */
  lemma EmptyGridMarch(tb: Triangulation, g: Grid, d: Dims)
    requires ValidTable(tb) && IsGrid(g, d) && AllEmpty(g)
    ensures |March(tb, g, d)| == (d.w + 2) * ((d.h + 2) * (d.t + 2)) * |tb.triangles[0]|
    ensures tb.triangles[0] == [] ==> March(tb, g, d) == []
  {
    GridCellsLength(d, -1);
    EmptySoup(tb, g, d, GridCells(d, -1));
  }
}
