/** The pure pieces of the overlay code in `archives/main_old2.ts`: the
    `fill0` sign/zero padding of the rotation read-out, the clip-to-pixel
    conversions `convX`/`convY`, and the "offscreen" test that decides
    whether the bounding-box overlay is hidden. */
module Overlay {
  import opened Primitives
  import opened Meshes

  // ---------------------------------------------------------------------
  // fill0

  function Abs(n: int): nat {
    if n < 0 then -n else n
  }

  function DigitChar(d: nat): char
    requires d < 10
  {
    "0123456789"[d]
  }

  /** The decimal text of a non-negative integer, as `String(n)` writes it:
      no leading zeros, "0" for zero. */
  function NatToString(k: nat): (s: string)
    ensures |s| >= 1
    ensures forall i :: 0 <= i < |s| ==> '0' <= s[i] <= '9'
    ensures k >= 10 ==> s[0] != '0'
  {
    if k < 10 then [DigitChar(k)] else NatToString(k / 10) + [DigitChar(k % 10)]
  }

  /** `fill0(n)`: "-" or " ", a "0" below 100, another below 10, then the
      digits of |n|. */
  function Fill0(n: int): string {
    (if n < 0 then "-" else " ") + Padding(Abs(n)) + NatToString(Abs(n))
  }

  /** The zeros `fill0` puts between the sign and the digits. */
  function Padding(k: nat): string {
    (if k >= 100 then "" else "0") + (if k >= 10 then "" else "0")
  }

  // Reading the text back

  function DigitValue(c: char): nat {
    if '0' <= c <= '9' then (c as int - '0' as int) as nat else 0
  }

  /** The digits of s read as a decimal number. It is meant for digit
      strings only: any other character counts as a 0 digit, so the round
      trips below rest on `NatToString` producing digits alone. */
  function ParseDecimal(s: string): nat {
    if s == [] then 0 else 10 * ParseDecimal(s[..|s| - 1]) + DigitValue(s[|s| - 1])
  }

  /** Independent reading of a padded number: the sign, then the digits. */
  function ParseSigned(s: string): int
    requires |s| >= 1
  {
    var magnitude: int := ParseDecimal(s[1..]);
    if s[0] == '-' then -magnitude else magnitude
  }

  lemma {:induction false} ParseNatToString(k: nat)
    ensures ParseDecimal(NatToString(k)) == k
    decreases k
  {
    if k >= 10 {
      var s := NatToString(k);
      assert s[..|s| - 1] == NatToString(k / 10) && s[|s| - 1] == DigitChar(k % 10);
      ParseNatToString(k / 10);
      DigitRoundTrip(k % 10);
    } else {
      DigitRoundTrip(k);
    }
  }

  lemma DigitRoundTrip(d: nat)
    requires d < 10
    ensures DigitValue(DigitChar(d)) == d
  {
    assert d == 0 || d == 1 || d == 2 || d == 3 || d == 4 || d == 5 || d == 6 || d == 7 || d == 8 || d == 9;
  }

  lemma {:induction false} ParseLeadingZero(s: string)
    ensures ParseDecimal("0" + s) == ParseDecimal(s)
    decreases |s|
  {
    if s != [] {
      var t := "0" + s;
      assert t[..|t| - 1] == "0" + s[..|s| - 1];
      ParseLeadingZero(s[..|s| - 1]);
    } else {
      assert ("0" + s)[..0] == [];
    }
  }

  lemma Fill0Parts(n: int)
    ensures Fill0(n) == [if n < 0 then '-' else ' '] + (Padding(Abs(n)) + NatToString(Abs(n)))
  {
  }

  lemma ParsePadded(k: nat)
    ensures ParseDecimal(Padding(k) + NatToString(k)) == k
  {
    var digits := NatToString(k);
    ParseNatToString(k);
    if k >= 100 {
      assert Padding(k) == "";
      assert Padding(k) + digits == digits;
    } else if k >= 10 {
      assert Padding(k) == "0";
      ParseLeadingZero(digits);
    } else {
      assert Padding(k) == "00";
      assert Padding(k) + digits == "0" + ("0" + digits);
      ParseLeadingZero("0" + digits);
      ParseLeadingZero(digits);
    }
  }

  /** The sign character tells the sign, and reading the padded text back
      gives the number: the padding loses nothing. */
  lemma Fill0RoundTrip(n: int)
    ensures |Fill0(n)| >= 2
    ensures Fill0(n)[0] == (if n < 0 then '-' else ' ')
    ensures ParseSigned(Fill0(n)) == n
  {
    var body := Padding(Abs(n)) + NatToString(Abs(n));
    Fill0Parts(n);
    assert Fill0(n)[1..] == body;
    ParsePadded(Abs(n));
  }

  lemma NatToStringWidth(k: nat)
    ensures k < 10 ==> |NatToString(k)| == 1
    ensures 10 <= k < 100 ==> |NatToString(k)| == 2
    ensures 100 <= k < 1000 ==> |NatToString(k)| == 3
  {
  }

  /** For |n| <= 999 the text is exactly four characters wide. */
  lemma Fill0Width(n: int)
    requires -999 <= n <= 999
    ensures |Fill0(n)| == 4
  {
    NatToStringWidth(Abs(n));
  }

  // ---------------------------------------------------------------------
  // Clip space to pixels

  /** `convX` (size = canvas width) and `convY` (size = canvas height):
      (n + 1) * (size / 2). */
  function ToPixels(n: real, size: real): (p: real)
    ensures n == -1.0 ==> p == 0.0
    ensures n == 1.0 ==> p == size
  {
    (n + 1.0) * (size / 2.0)
  }

  /** `convX`/`convY` and the clip mapping of `UIPlane.initBuffer` undo
      each other for one and the same size. `convX`/`convY` use the
      constants `cw`/`ch` (1000) while `UIPlane` divides by the canvas's
      current width and height, so the two agree only while the canvas is
      `cw` x `ch`. The driver also calls `rh(canvas)`, and resize.ts is not
      part of this model, so a canvas of another size is not covered. */
  lemma ToPixelsRoundTrip(n: real, v: real, size: real)
    requires size > 0.0
    ensures ToClip(ToPixels(n, size), size) == n
    ensures ToPixels(ToClip(v, size), size) == v
  {
  }

  // ---------------------------------------------------------------------
  // The offscreen test

  /** The test as written: `x === 0 && y === 0 && dx === 0 && y === 0`. */
  predicate OffscreenAsWritten(b: Box) {
    b.x == 0.0 && b.y == 0.0 && b.dx == 0.0 && b.y == 0.0
  }

  /** The test as intended: the all-zero box `getBoundingBox` returns when
      no vertex is in front of the camera. */
  predicate Offscreen(b: Box) {
    b.x == 0.0 && b.y == 0.0 && b.dx == 0.0 && b.dy == 0.0
  }

  /** The rectangle the overlay is given for a box, under a chosen test. */
  function OverlayRectAsWritten(b: Box, cw: real, ch: real): Rect {
    if OffscreenAsWritten(b) then Rect(0.0, 0.0, 0.0, 0.0)
    else Rect(ToPixels(b.x, cw), ToPixels(b.y, ch), ToPixels(b.dx, cw), ToPixels(b.dy, ch))
  }

  function OverlayRect(b: Box, cw: real, ch: real): Rect {
    if Offscreen(b) then Rect(0.0, 0.0, 0.0, 0.0)
    else Rect(ToPixels(b.x, cw), ToPixels(b.y, ch), ToPixels(b.dx, cw), ToPixels(b.dy, ch))
  }

  /** The test as written never reads dy: the box of a vertical segment
      through the screen centre (x = y = dx = 0, dy = 0.5) is visible but
      is treated as offscreen and the overlay collapses. */
  lemma OffscreenIgnoresDy(cw: real, ch: real)
    requires cw > 0.0 && ch > 0.0
    ensures var b := Box(0.0, 0.0, 0.0, 0.5);
      && OffscreenAsWritten(b) && !Offscreen(b)
      && OverlayRectAsWritten(b, cw, ch) == Rect(0.0, 0.0, 0.0, 0.0)
      && OverlayRect(b, cw, ch) != OverlayRectAsWritten(b, cw, ch)
  {
    var b := Box(0.0, 0.0, 0.0, 0.5);
    assert OverlayRect(b, cw, ch).x == cw / 2.0;
  }

  /** The corrected test hides the overlay exactly for the all-zero box,
      which is what `getBoundingBox` returns when nothing is visible;
      otherwise the overlay quad lands exactly on the box in clip space. */
  lemma OverlayRectCorrect(b: Box, cw: real, ch: real)
    requires cw > 0.0 && ch > 0.0
    ensures Offscreen(b) <==> b == Box(0.0, 0.0, 0.0, 0.0)
    ensures Offscreen(b) ==> OverlayRect(b, cw, ch) == Rect(0.0, 0.0, 0.0, 0.0)
    ensures !Offscreen(b) ==> QuadVertices(OverlayRect(b, cw, ch), cw, ch) == [b.x, b.y, b.dx, b.y, b.dx, b.dy, b.x, b.dy]
  {
    if !Offscreen(b) {
      ToPixelsRoundTrip(b.x, 0.0, cw);
      ToPixelsRoundTrip(b.dx, 0.0, cw);
      ToPixelsRoundTrip(b.y, 0.0, ch);
      ToPixelsRoundTrip(b.dy, 0.0, ch);
    }
  }

  /** A primitive with no vertex in front of the camera is recognised as
      offscreen by both tests. */
  lemma NothingVisibleIsOffscreen(points: seq<Geometry.Vec3>, modelView: Geometry.Mat4, projection: Geometry.Mat4)
    requires Visible(points, modelView, projection) == []
    ensures Offscreen(GetBoundingBox(points, modelView, projection))
    ensures OffscreenAsWritten(GetBoundingBox(points, modelView, projection))
  {
  }
}
