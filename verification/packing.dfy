/** The tail of `updateMesh` in `cellularAutomata.ts`: the triangle soup is
    cut into chunks small enough for 16-bit index buffers, and a parallel
    list of texture coordinates (one unit quad per triangle) is built for
    each chunk. */
module Packing {
  import opened Seqs

  /** `MAX_TRIS`: 2^16 less a safety margin of 4. */
  const MaxTris: int := 65536 - 4

  /** `trisn` grows by 3 per triangle and a chunk is closed once it reaches
      `MAX_TRIS`, so a full chunk holds 65532 / 3 triangles. */
  const TrisPerChunk: nat := 21844

  /** The four texture-coordinate pairs pushed for every triangle. */
  const UnitQuad: seq<(int, int)> := [(0, 0), (1, 0), (1, 1), (0, 1)]

  // ---------------------------------------------------------------------
  // Reference definitions

  /** Reference chunking: full chunks of `TrisPerChunk` and one last chunk
      holding the rest (the only chunk, possibly empty, when the input fits). */
  function Chunks<T>(s: seq<T>): seq<seq<T>>
    decreases |s|
  {
    if |s| <= TrisPerChunk then [s] else [s[..TrisPerChunk]] + Chunks(s[TrisPerChunk..])
  }

  /** The texture coordinates of n triangles: n unit quads, one after another. */
  function Quads(n: nat): (r: seq<(int, int)>)
    ensures |r| == 4 * n
  {
    if n == 0 then [] else Quads(n - 1) + UnitQuad
  }

  // ---------------------------------------------------------------------
  // Properties of the reference chunking

  lemma {:induction false} ChunksFlatten<T>(s: seq<T>)
    ensures Flatten(Chunks(s)) == s
    decreases |s|
  {
    if |s| <= TrisPerChunk {
      assert Flatten([s]) == s + Flatten([s][1..]);
    } else {
      var rest := s[TrisPerChunk..];
      ChunksFlatten(rest);
      assert Chunks(s)[1..] == Chunks(rest);
      assert s == s[..TrisPerChunk] + rest;
    }
  }

  /** Every chunk except the last is full, the last holds between 1 and
      `TrisPerChunk` triangles unless the whole input is empty, and there
      is always at least one chunk. */
  lemma {:induction false} ChunksShape<T>(s: seq<T>)
    ensures |Chunks(s)| >= 1
    ensures forall i :: 0 <= i < |Chunks(s)| - 1 ==> |Chunks(s)[i]| == TrisPerChunk
    ensures |Chunks(s)[|Chunks(s)| - 1]| <= TrisPerChunk
    ensures Chunks(s)[|Chunks(s)| - 1] == [] <==> s == []
    decreases |s|
  {
    if |s| > TrisPerChunk {
      var rest := s[TrisPerChunk..];
      ChunksShape(rest);
      var cs := Chunks(s);
      assert cs == [s[..TrisPerChunk]] + Chunks(rest);
      forall i | 0 <= i < |cs| - 1
        ensures |cs[i]| == TrisPerChunk
      {
        if i > 0 {
          assert cs[i] == Chunks(rest)[i - 1];
        }
      }
    }
  }

  /** Every chunk addresses at most `MAX_TRIS` indices, below 2^16. */
  lemma ChunkIndicesFit<T>(s: seq<T>)
    ensures forall i :: 0 <= i < |Chunks(s)| ==> 3 * |Chunks(s)[i]| <= MaxTris < 65536
  {
    ChunksShape(s);
  }

  lemma {:induction false} QuadsAt(n: nat, k: nat)
    requires k < 4 * n
    ensures Quads(n)[k] == UnitQuad[k % 4]
    decreases n
  {
    if k < 4 * (n - 1) {
      QuadsAt(n - 1, k);
    }
  }

  // ---------------------------------------------------------------------
  // The packing loop

  lemma ChunksSplit<T>(tmp: seq<T>, rest: seq<T>)
    requires |tmp| == TrisPerChunk && rest != []
    ensures Chunks(tmp + rest) == [tmp] + Chunks(rest)
  {
    assert (tmp + rest)[..TrisPerChunk] == tmp;
    assert (tmp + rest)[TrisPerChunk..] == rest;
  }

  /** The `while (resMesh.length > 0)` loop and the final push: returns the
      packed chunks and, for each, its texture coordinates. */
  method PackTriangles<T>(tris: seq<T>) returns (packed: seq<seq<T>>, coords: seq<seq<(int, int)>>)
    ensures packed == Chunks(tris)
    ensures |coords| == |packed|
    ensures forall i :: 0 <= i < |packed| ==> coords[i] == Quads(|packed[i]|)
  {
    packed := [];
    var trisn := 0;
    var t: seq<seq<(int, int)>> := [[]];
    var tmp: seq<T> := [];
    var rest := tris;
    assert tmp + rest == tris;
    while |rest| > 0
      invariant trisn == 3 * |tmp| && |tmp| <= TrisPerChunk
      invariant packed + Chunks(tmp + rest) == Chunks(tris)
      invariant |t| == |packed| + 1
      invariant forall i :: 0 <= i < |packed| ==> t[i] == Quads(|packed[i]|)
      invariant t[|packed|] == Quads(|tmp|)
      decreases |rest|
    {
      if trisn >= MaxTris {
        ChunksSplit(tmp, rest);
        assert packed + [tmp] + Chunks([] + rest) == packed + Chunks(tmp + rest) by {
          assert [] + rest == rest;
        }
        packed := packed + [tmp];
        tmp := [];
        trisn := 0;
        t := t + [[]];
      }
      assert tmp + rest == (tmp + [rest[0]]) + rest[1..];
      ghost var before := tmp + rest;
      tmp := tmp + [rest[0]];
      rest := rest[1..];
      trisn := trisn + 3;
      t := t[|t| - 1 := t[|t| - 1] + UnitQuad];
      assert tmp + rest == before;
    }
    assert tmp + rest == tmp;
    packed := packed + [tmp];
    coords := t;
  }

  /** The packed mesh is the input triangle list, cut in order into chunks
      that each fit a 16-bit index buffer; the coordinate lists run in
      parallel with four pairs per triangle. */
  lemma PackingCorrect<T>(tris: seq<T>, packed: seq<seq<T>>, coords: seq<seq<(int, int)>>)
    requires packed == Chunks(tris)
    requires |coords| == |packed|
    requires forall i :: 0 <= i < |packed| ==> coords[i] == Quads(|packed[i]|)
    ensures Flatten(packed) == tris
    ensures forall i :: 0 <= i < |packed| ==> |coords[i]| == 4 * |packed[i]|
    ensures forall i :: 0 <= i < |packed| - 1 ==> |packed[i]| == TrisPerChunk
    ensures packed[|packed| - 1] == [] <==> tris == []
  {
    ChunksFlatten(tris);
    ChunksShape(tris);
  }
}
