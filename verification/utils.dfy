/** Numeric helpers of `utils.ts`: angle conversion, the power-of-two test
    used to decide on mipmapping, and the null check around buffer creation. */
module Utils {
  import opened Wrappers

  /** The value of `Math.PI`, read as an exact real. */
  const Pi: real := 3.141592653589793

  // ---------------------------------------------------------------------
  // Degrees and radians

  /** `rad(a)`: degrees to radians, computed as a / 180 * PI. */
  function Rad(a: real): (r: real)
    ensures a == 180.0 ==> r == Pi
    ensures a == 0.0 <==> r == 0.0
    ensures (a < 0.0 <==> r < 0.0) && (a > 0.0 <==> r > 0.0)
  {
    a / 180.0 * Pi
  }

  /** `deg(a)`: radians to degrees, computed as a / PI * 180. */
  function Deg(a: real): (r: real)
    ensures a == Pi ==> r == 180.0
    ensures a == 0.0 <==> r == 0.0
    ensures (a < 0.0 <==> r < 0.0) && (a > 0.0 <==> r > 0.0)
  {
    a / Pi * 180.0
  }

  /** Over exact reals the two conversions undo each other. */
  lemma DegRad(x: real)
    ensures Deg(Rad(x)) == x
    ensures Rad(Deg(x)) == x
  {
  }

  /** The array overload of `rad`: elementwise, same length and order. */
  function RadAll(s: seq<real>): (r: seq<real>)
    ensures |r| == |s|
    ensures forall i :: 0 <= i < |s| ==> r[i] * 180.0 == s[i] * Pi
  {
    seq(|s|, i requires 0 <= i < |s| => Rad(s[i]))
  }

  /** The array overload of `deg`: elementwise, same length and order. */
  function DegAll(s: seq<real>): (r: seq<real>)
    ensures |r| == |s|
    ensures forall i :: 0 <= i < |s| ==> r[i] * Pi == s[i] * 180.0
  {
    seq(|s|, i requires 0 <= i < |s| => Deg(s[i]))
  }

  lemma DegAllRadAll(s: seq<real>)
    ensures DegAll(RadAll(s)) == s
    ensures RadAll(DegAll(s)) == s
  {
    var a := DegAll(RadAll(s));
    var b := RadAll(DegAll(s));
    forall i | 0 <= i < |s|
      ensures a[i] == s[i] && b[i] == s[i]
    {
      DegRad(s[i]);
    }
  }

  // ---------------------------------------------------------------------
  // Power-of-two test

  const TwoTo32: int := 0x1_0000_0000

  function Pow2(k: nat): (r: nat)
    ensures r >= 1
  {
    if k == 0 then 1 else 2 * Pow2(k - 1)
  }

  /** The unsigned 32-bit pattern JavaScript's bitwise operators work on
      (ToUint32; as a bit pattern it equals ToInt32). */
  function Wrap32(n: int): (r: int)
    ensures 0 <= r < TwoTo32
    ensures 0 <= n < TwoTo32 ==> r == n
  {
    n % TwoTo32
  }

  /** Bitwise AND of the low `width` bits of two non-negative integers,
      written out bit by bit. */
  function BitAnd(a: nat, b: nat, width: nat): nat
    decreases width
  {
    if width == 0 then 0
    else (if a % 2 == 1 && b % 2 == 1 then 1 else 0) + 2 * BitAnd(a / 2, b / 2, width - 1)
  }

  /** `isPowerOf2(n)`: `(n & (n - 1)) == 0` on 32-bit patterns. */
  function IsPowerOf2(n: int): bool {
    BitAnd(Wrap32(n), Wrap32(n - 1), 32) == 0
  }

  /** Independent reference: n is 1, 2, 4, 8, ... */
  predicate PowerOfTwo(n: int)
    decreases if n < 0 then 0 else n
  {
    n == 1 || (n > 1 && n % 2 == 0 && PowerOfTwo(n / 2))
  }

  lemma {:induction false} BitAndSelf(a: nat, width: nat)
    requires a < Pow2(width)
    ensures BitAnd(a, a, width) == a
    decreases width
  {
    if width > 0 {
      BitAndSelf(a / 2, width - 1);
    }
  }

  lemma {:induction false} BitAndZeroLeft(b: nat, width: nat)
    ensures BitAnd(0, b, width) == 0
    decreases width
  {
    if width > 0 {
      BitAndZeroLeft(b / 2, width - 1);
    }
  }

  /** For 0 < n < 2^width: the low bits of n and n - 1 share no set bit iff n is a power of two. */
  lemma {:induction false} BitAndPredecessor(n: nat, width: nat)
    requires 0 < n < Pow2(width)
    ensures BitAnd(n, n - 1, width) == 0 <==> PowerOfTwo(n)
    decreases width
  {
    var m := n / 2;
    if n == 1 {
      BitAndZeroLeft(0, width - 1);
    } else if n % 2 == 1 {
      // n = 2m + 1 and n - 1 = 2m: the low bit is 0, the rest is m & m = m > 0
      assert (n - 1) / 2 == m;
      BitAndSelf(m, width - 1);
      assert BitAnd(n, n - 1, width) == 2 * m;
      assert !PowerOfTwo(n);
    } else {
      // n = 2m and n - 1 = 2(m - 1) + 1
      assert (n - 1) / 2 == m - 1;
      BitAndPredecessor(m, width - 1);
      assert BitAnd(n, n - 1, width) == 2 * BitAnd(m, m - 1, width - 1);
      assert PowerOfTwo(n) <==> PowerOfTwo(m);
    }
  }

  lemma Pow2At32()
    ensures Pow2(32) == TwoTo32
  {
    assert Pow2(8) == 256;
    assert Pow2(16) == 65536;
    assert Pow2(24) == 16777216;
  }

  /** For every n in (0, 2^32), in particular every positive int32,
      `isPowerOf2(n)` holds exactly for powers of two; it also holds for 0. */
  lemma IsPowerOf2Correct(n: int)
    requires 0 <= n < TwoTo32
    ensures n == 0 ==> IsPowerOf2(n)
    ensures n > 0 ==> (IsPowerOf2(n) <==> PowerOfTwo(n))
  {
    if n == 0 {
      BitAndZeroLeft(Wrap32(-1), 32);
    } else {
      assert Wrap32(n) == n && Wrap32(n - 1) == n - 1;
      assert BitAnd(n, n - 1, 32) == 0 <==> PowerOfTwo(n) by {
        Pow2At32();
        BitAndPredecessor(n, 32);
      }
    }
  }

  // ---------------------------------------------------------------------
  // Buffer creation

  /** `createBuffer(gl, name)`: the backend's answer is passed in (`None` for
      `null`); a null handle becomes a thrown TypeError naming the buffer. */
  function CreateBuffer<H>(backend: Option<H>, name: string): (r: Result<H>)
    ensures r.Failure? <==> backend.None?
    ensures r.Success? ==> r.value == backend.value
    ensures r.Failure? ==> r.error == name + " Buffer is null"
  {
    match backend
    case None => Failure(name + " Buffer is null")
    case Some(b) => Success(b)
  }
}
