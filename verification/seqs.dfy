/** Sequence helpers shared by the mesh packing and the buffer flattening:
    concatenating a list of blocks and cutting a flat list back into blocks
    of a fixed width (what `push(...v)` over a list of tuples produces). */
module Seqs {

  /** The blocks one after another, in order. */
  function Flatten<T>(ss: seq<seq<T>>): seq<T> {
    if ss == [] then [] else ss[0] + Flatten(ss[1..])
  }

  /** Every block has width w. */
  predicate Uniform<T>(ss: seq<seq<T>>, w: nat) {
    forall i :: 0 <= i < |ss| ==> |ss[i]| == w
  }

  /** The flat list cut into consecutive blocks of width w. */
  function Unflatten<T>(s: seq<T>, w: nat): (r: seq<seq<T>>)
    requires w > 0
    ensures Uniform(r, w)
    decreases |s|
  {
    if |s| < w then [] else [s[..w]] + Unflatten(s[w..], w)
  }

  lemma {:induction false} FlattenUniformLength<T>(ss: seq<seq<T>>, w: nat)
    requires Uniform(ss, w)
    ensures |Flatten(ss)| == w * |ss|
    decreases |ss|
  {
    if ss != [] {
      FlattenUniformLength(ss[1..], w);
    }
  }

  /** Element j of block i sits at w * i + j of the flat list. */
  lemma {:induction false} FlattenAt<T>(ss: seq<seq<T>>, w: nat, i: nat, j: nat)
    requires Uniform(ss, w) && i < |ss| && j < w
    ensures w * i + j < |Flatten(ss)|
    ensures Flatten(ss)[w * i + j] == ss[i][j]
    decreases i
  {
    FlattenUniformLength(ss, w);
    if i > 0 {
      FlattenAt(ss[1..], w, i - 1, j);
      assert w * i + j == w + (w * (i - 1) + j);
    }
  }

  /** Cutting the flat list back into blocks of the common width gives the
      blocks back. */
  lemma {:induction false} UnflattenFlatten<T>(ss: seq<seq<T>>, w: nat)
    requires w > 0 && Uniform(ss, w)
    ensures Unflatten(Flatten(ss), w) == ss
    decreases |ss|
  {
    if ss != [] {
      var f := Flatten(ss);
      FlattenUniformLength(ss[1..], w);
      assert f == ss[0] + Flatten(ss[1..]);
      assert f[..w] == ss[0];
      assert f[w..] == Flatten(ss[1..]);
      UnflattenFlatten(ss[1..], w);
      assert ss == [ss[0]] + ss[1..];
    }
  }
}
