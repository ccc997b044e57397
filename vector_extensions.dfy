/**
 * VectorExtensions: packing two 32-bit ints into one 64-bit unsigned long
 * (the first in the low half, the second in the high half) and back, the
 * corners of an integer rectangle with and without a scale factor, and
 * the centroid of a list of points. The packing members are identical in
 * the Common and Extended libraries and are modelled once.
 */
module Vectors {
  import opened Int32
  import opened Xna
  import opened Wrappers

  /** A C# `uint`, by its value. */
  type uint32 = x: int | 0 <= x < 0x1_0000_0000

  /** A C# `ulong`, by its value. */
  type uint64 = x: int | 0 <= x < 0x1_0000_0000_0000_0000

  const Word: int := 0x1_0000_0000

  /** `(uint)a` on a C# int: the same 32 bits read as unsigned. */
  function ToUnsigned(a: int32): (w: uint32)
    ensures a >= 0 ==> w == a
    ensures a < 0 ==> w == a + Word
  {
    a % Word
  }

  /** `(int)w` on 32 unsigned bits: the same bits read as two's complement. */
  function ToSigned(w: uint32): (a: int32)
    ensures w <= Max ==> a == w
    ensures w > Max ==> a == w - Word
  {
    if w <= Max then w else w - Word
  }

  /** Reading an int's bits as unsigned and back gives the int. */
  lemma SignedUnsigned(a: int32)
    ensures ToSigned(ToUnsigned(a)) == a
  {
  }

  lemma UnsignedSigned(w: uint32)
    ensures ToUnsigned(ToSigned(w)) == w
  {
  }

  /**
   * `Pack(uint a, uint b)`: `a | ((ulong)b << 32)`. The shifted word has
   * its low 32 bits clear and `a` has nothing above them, so the `or` is
   * the sum.
   */
  function PackWords(a: uint32, b: uint32): (u: uint64)
    ensures u % Word == a && u / Word == b
  {
    a + b * Word
  }

  /** `(uint)packed`: the low 32 bits. */
  function Low(u: uint64): (w: uint32)
    ensures (u - w) % Word == 0
  {
    u % Word
  }

  /** `packed >> 32`, narrowed: the high 32 bits. */
  function High(u: uint64): (w: uint32)
    ensures w * Word <= u < (w + 1) * Word
  {
    u / Word
  }

  /** `Pack(a, b)` puts `a` in the low half and `b` in the high half. */
  lemma PackHalves(a: uint32, b: uint32)
    ensures Low(PackWords(a, b)) == a && High(PackWords(a, b)) == b
  {
  }

  /** Every 64-bit value is the packing of its halves. */
  lemma HalvesPack(u: uint64)
    ensures PackWords(Low(u), High(u)) == u
  {
  }

  /** `Pack(int a, int b)`. */
  function Pack(a: int32, b: int32): (u: uint64)
    ensures Low(u) == ToUnsigned(a) && High(u) == ToUnsigned(b)
  {
    PackHalves(ToUnsigned(a), ToUnsigned(b));
    PackWords(ToUnsigned(a), ToUnsigned(b))
  }

  /** The two ints `Unpack(packed, out a, out b)` produces. */
  datatype Unpacked = Unpacked(a: int32, b: int32)

  function Unpack(packed: uint64): (r: Unpacked)
    ensures ToUnsigned(r.a) == Low(packed) && ToUnsigned(r.b) == High(packed)
  {
    UnsignedSigned(Low(packed));
    UnsignedSigned(High(packed));
    Unpacked(ToSigned(Low(packed)), ToSigned(High(packed)))
  }

  /** Unpacking a packed pair gives the pair back, negative values included. */
  lemma {:induction false} UnpackPack(a: int32, b: int32)
    ensures Unpack(Pack(a, b)) == Unpacked(a, b)
  {
    PackHalves(ToUnsigned(a), ToUnsigned(b));
    SignedUnsigned(a);
    SignedUnsigned(b);
  }

  /** Packing an unpacked value gives the value back. */
  lemma {:induction false} PackUnpack(u: uint64)
    ensures var p := Unpack(u); Pack(p.a, p.b) == u
  {
    UnsignedSigned(Low(u));
    UnsignedSigned(High(u));
    HalvesPack(u);
  }

  /** `ToLong(point)`. */
  function ToLong(p: Point): (u: uint64)
    ensures Unpack(u) == Unpacked(p.x, p.y)
  {
    UnpackPack(p.x, p.y);
    Pack(p.x, p.y)
  }

  /** `ToPoint(value)`. */
  function ToPoint(value: uint64): (p: Point)
    ensures p.x == Unpack(value).a && p.y == Unpack(value).b
  {
    Point(ToSigned(Low(value)), ToSigned(High(value)))
  }

  lemma {:induction false} PointRoundTrip(p: Point)
    ensures ToPoint(ToLong(p)) == p
  {
    UnpackPack(p.x, p.y);
  }

  lemma {:induction false} LongRoundTrip(v: uint64)
    ensures ToLong(ToPoint(v)) == v
  {
    PackUnpack(v);
  }

  /** The unscaled corners: `TopLeft` is `Location`, the others add Width and Height. */
  function TopLeft(r: Rectangle): (p: Point)
    ensures p.x == r.Left() && p.y == r.Top()
  {
    r.Location()
  }

  function TopRight(r: Rectangle): (p: Point)
    ensures p.x == r.Right() && p.y == r.Top()
  {
    Point(Add(r.x, r.width), r.y)
  }

  function BottomLeft(r: Rectangle): (p: Point)
    ensures p.x == r.Left() && p.y == r.Bottom()
  {
    Point(r.x, Add(r.y, r.height))
  }

  function BottomRight(r: Rectangle): (p: Point)
    ensures p.x == r.Right() && p.y == r.Bottom()
  {
    Point(Add(r.x, r.width), Add(r.y, r.height))
  }

  /** The corners are the rectangle's edges paired up. */
  lemma CornersAreEdges(r: Rectangle)
    ensures TopLeft(r) == Point(r.Left(), r.Top()) && TopRight(r) == Point(r.Right(), r.Top())
    ensures BottomLeft(r) == Point(r.Left(), r.Bottom()) && BottomRight(r) == Point(r.Right(), r.Bottom())
  {
  }

  /** The scaled corners: every X, Y, Width and Height term multiplied by `mult`. */
  function TopLeftScaled(r: Rectangle, mult: int32): (p: Point)
    ensures p == TopLeft(Scaled(r, mult))
  {
    Point(Mul(r.x, mult), Mul(r.y, mult))
  }

  function TopRightScaled(r: Rectangle, mult: int32): (p: Point)
    ensures p == TopRight(Scaled(r, mult))
  {
    Point(Add(Mul(r.x, mult), Mul(r.width, mult)), Mul(r.y, mult))
  }

  function BottomLeftScaled(r: Rectangle, mult: int32): (p: Point)
    ensures p == BottomLeft(Scaled(r, mult))
  {
    Point(Mul(r.x, mult), Add(Mul(r.y, mult), Mul(r.height, mult)))
  }

  function BottomRightScaled(r: Rectangle, mult: int32): (p: Point)
    ensures p == BottomRight(Scaled(r, mult))
  {
    Point(Add(Mul(r.x, mult), Mul(r.width, mult)), Add(Mul(r.y, mult), Mul(r.height, mult)))
  }

  /** The rectangle with all four components multiplied by `mult`. */
  function Scaled(r: Rectangle, mult: int32): (s: Rectangle)
    ensures mult == 1 ==> s == r
    ensures mult == 0 ==> s == Rectangle(0, 0, 0, 0)
  {
    Rectangle(Mul(r.x, mult), Mul(r.y, mult), Mul(r.width, mult), Mul(r.height, mult))
  }

  /** A scaled corner is the corner of the scaled rectangle; a factor of 1 changes nothing. */
  lemma ScaledCorners(r: Rectangle, mult: int32)
    ensures TopLeftScaled(r, mult) == TopLeft(Scaled(r, mult)) && TopRightScaled(r, mult) == TopRight(Scaled(r, mult))
    ensures BottomLeftScaled(r, mult) == BottomLeft(Scaled(r, mult)) && BottomRightScaled(r, mult) == BottomRight(Scaled(r, mult))
    ensures Scaled(r, 1) == r
  {
  }

  /** The exact sums of the coordinates. */
  function SumX(points: seq<Point>): int {
    if |points| == 0 then 0 else SumX(points[..|points| - 1]) + points[|points| - 1].x
  }

  function SumY(points: seq<Point>): int {
    if |points| == 0 then 0 else SumY(points[..|points| - 1]) + points[|points| - 1].y
  }

  /** Wrapping after each addition is wrapping once at the end. */
  lemma {:induction false} WrapAdd(s: int, v: int32)
    ensures Add(Wrap(s), v) == Wrap(s + v)
  {
    var d := s - Wrap(s);
    assert d % Modulus == 0;
    assert (Wrap(s) + v) - Add(Wrap(s), v) == (Wrap(s) + v - Add(Wrap(s), v));
    WrapCongruent(Wrap(s) + v, s + v);
  }

  /** Congruent integers wrap to the same 32-bit value. */
  lemma {:induction false} WrapCongruent(a: int, b: int)
    requires (a - b) % Modulus == 0
    ensures Wrap(a) == Wrap(b)
  {
    var k := (a - b) / Modulus;
    assert a - b == Modulus * k;
    assert (a - Min) == (b - Min) + Modulus * k;
    ModShift(b - Min, k);
  }

  lemma {:induction false} ModShift(x: int, k: int)
    ensures (x + Modulus * k) % Modulus == x % Modulus
  {
    var q := x / Modulus;
    assert x == Modulus * q + x % Modulus;
    assert x + Modulus * k == Modulus * (q + k) + x % Modulus;
  }

  /** The division by zero that an empty list raises. */
  datatype CentroidError = DivideByZero

  /**
   * `FindCentroid(points)`: sum the coordinates in C# ints, then divide
   * each sum by the count, truncating; an empty list divides by zero.
   */
  method FindCentroid(points: seq<Point>) returns (r: Result<Point, CentroidError>)
    requires |points| <= Max
    ensures |points| == 0 <==> r.Failure?
    ensures r.Failure? ==> r.error == DivideByZero
    ensures r.Success? ==> r.value == Point(Quot(Wrap(SumX(points)), |points|), Quot(Wrap(SumY(points)), |points|))
  {
    var x: int32 := 0;
    var y: int32 := 0;
    for i := 0 to |points|
      invariant x == Wrap(SumX(points[..i])) && y == Wrap(SumY(points[..i]))
    {
      SumsStep(points, i);
      x := Add(x, points[i].x);
      y := Add(y, points[i].y);
    }
    assert points[..|points|] == points;
    if |points| == 0 {
      return Failure(DivideByZero);
    }
    return Success(Point(Quot(x, |points|), Quot(y, |points|)));
  }

  /** One more point adds its coordinates to the wrapped running sums. */
  lemma {:induction false} SumsStep(points: seq<Point>, i: int)
    requires 0 <= i < |points|
    ensures Add(Wrap(SumX(points[..i])), points[i].x) == Wrap(SumX(points[..i + 1]))
    ensures Add(Wrap(SumY(points[..i])), points[i].y) == Wrap(SumY(points[..i + 1]))
  {
    assert points[..i + 1][..i] == points[..i];
    WrapAdd(SumX(points[..i]), points[i].x);
    WrapAdd(SumY(points[..i]), points[i].y);
  }

  /** The sums are bounded by the count times the least and greatest coordinate. */
  lemma {:induction false} SumXBounds(points: seq<Point>, lo: int, hi: int)
    requires forall i :: 0 <= i < |points| ==> lo <= points[i].x <= hi
    ensures |points| * lo <= SumX(points) <= |points| * hi
  {
    if |points| > 0 {
      SumXBounds(points[..|points| - 1], lo, hi);
    }
  }

  lemma {:induction false} SumYBounds(points: seq<Point>, lo: int, hi: int)
    requires forall i :: 0 <= i < |points| ==> lo <= points[i].y <= hi
    ensures |points| * lo <= SumY(points) <= |points| * hi
  {
    if |points| > 0 {
      SumYBounds(points[..|points| - 1], lo, hi);
    }
  }

  /** A truncated average of a sum between `n * lo` and `n * hi` lies between `lo` and `hi`. */
  lemma {:induction false} QuotBetween(s: int, n: int, lo: int, hi: int)
    requires n > 0 && n * lo <= s <= n * hi
    ensures lo <= Quot(s, n) <= hi
  {
    var q := Quot(s, n);
    if q < lo {
      MulLe(q + 1, lo, n);
      assert false;
    }
    if q > hi {
      MulLe(hi + 1, q, n);
      assert false;
    }
  }

  lemma {:induction false} MulLe(a: int, b: int, n: int)
    requires a <= b && n > 0
    ensures a * n <= b * n
  {
    var d := b - a;
    assert b * n == a * n + d * n;
  }

  /**
   * When neither sum overflows, the centroid lies inside the bounding box
   * of the points.
   */
  lemma {:induction false} CentroidInBoundingBox(points: seq<Point>, left: int, right: int, top: int, bottom: int)
    requires |points| > 0
    requires forall i :: 0 <= i < |points| ==> left <= points[i].x <= right && top <= points[i].y <= bottom
    requires Min <= SumX(points) <= Max && Min <= SumY(points) <= Max
    ensures left <= Quot(Wrap(SumX(points)), |points|) <= right
    ensures top <= Quot(Wrap(SumY(points)), |points|) <= bottom
  {
    SumXBounds(points, left, right);
    SumYBounds(points, top, bottom);
    QuotBetween(SumX(points), |points|, left, right);
    QuotBetween(SumY(points), |points|, top, bottom);
  }
}
