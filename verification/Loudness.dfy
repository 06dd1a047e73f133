/** Frame loudness on the satellite: the Newton integer square root and the
    root-mean-square level built on it. */
module Loudness {
  import opened Arithmetic
  import opened Ints

  // ----- Integer square root -----

  ghost predicate IsFloorSqrt(r: nat, n: nat) {
    r * r <= n < (r + 1) * (r + 1)
  }

  /** The real square root rounded down, by its defining inequality. */
  ghost function FloorSqrt(n: nat): (r: nat)
    ensures IsFloorSqrt(r, n)
  {
    if n == 0 then 0
    else
      var s := FloorSqrt(n - 1);
      if (s + 1) * (s + 1) <= n then s + 1 else s
  }

  lemma SquareMonotone(a: nat, b: nat)
    requires a <= b
    ensures a * a <= b * b
  {
    assert b * b == a * a + (b - a) * (b + a);
  }

  lemma SquareOrder(a: nat, b: nat)
    requires a * a < b * b
    ensures a < b
  {
    if b <= a {
      SquareMonotone(b, a);
    }
  }

  lemma FloorSqrtUnique(n: nat, r: nat)
    requires IsFloorSqrt(r, n)
    ensures r == FloorSqrt(n)
  {
    var s := FloorSqrt(n);
    SquareOrder(r, s + 1);
    SquareOrder(s, r + 1);
  }

  lemma FloorSqrtMonotone(m: nat, n: nat)
    requires m <= n
    ensures FloorSqrt(m) <= FloorSqrt(n)
  {
    SquareOrder(FloorSqrt(m), FloorSqrt(n) + 1);
  }

  /** (a + b)^2 >= 4ab: a Newton guess can only be too small if a square were negative. */
  lemma MeanSquare(a: int, b: int)
    ensures 4 * (a * b) <= (a + b) * (a + b)
  {
    var d := a - b;
    assert (a + b) * (a + b) == d * d + 4 * (a * b);
    assert 0 <= d * d;
  }

  lemma NewtonGuess(n: nat, x: nat, q: nat, y: nat)
    requires n < x * (q + 1) && x + q + 1 <= 2 * (y + 1)
    ensures n < (y + 1) * (y + 1)
  {
    MeanSquare(x, q + 1);
    SquareMonotone(x + q + 1, 2 * (y + 1));
    assert (2 * (y + 1)) * (2 * (y + 1)) == 4 * ((y + 1) * (y + 1));
  }

  /** One Newton step from any positive guess never undershoots the root. */
  lemma NewtonStaysAbove(n: nat, x: nat)
    requires 0 < x
    ensures n < ((x + n / x) / 2 + 1) * ((x + n / x) / 2 + 1)
  {
    DivMod(n, x);
    assert x * (n / x + 1) == x * (n / x) + x;
    NewtonGuess(n, x, n / x, (x + n / x) / 2);
  }

  lemma NewtonStops(n: nat, x: nat)
    requires 0 < x <= (x + n / x) / 2
    ensures x * x <= n
  {
    assert x <= n / x;
    assert n == x * (n / x) + n % x;
    assert x * x <= x * (n / x);
  }

  ghost predicate IsAbove(x: nat, n: nat) {
    n < (x + 1) * (x + 1)
  }

  lemma QuotientFacts(n: nat, x: nat, q: int, r: int)
    requires 2 <= x <= n && n == x * q + r && 0 <= r < x
    ensures 1 <= q && 2 * q <= n
  {
    ProductGap(x, q - 1);
    assert x * q == 2 * q + (x - 2) * q;
  }

  lemma QuotientBounds(n: nat, x: nat)
    requires 2 <= x <= n
    ensures 1 <= n / x <= n / 2
  {
    DivMod(n, x);
    QuotientFacts(n, x, n / x, n % x);
  }

  lemma FirstGuess(n: nat)
    requires 2 <= n
    ensures IsAbove(n, n) && IsAbove((n + 1) / 2, n)
  {
    var h := (n + 1) / 2;
    assert (h + 1) * (h + 1) == h * h + 2 * h + 1;
  }

  /** Everything one iteration needs: the sum that is halved never exceeds n
      (so it fits a u64), the next guess is still above the root, and stopping
      means the current guess is not above it. */
  lemma NewtonStep(n: nat, x: nat)
    requires 2 <= n && 1 <= x <= (n + 1) / 2 && IsAbove(x, n)
    ensures x + n / x <= if n < 4 then 4 else n
    ensures 1 <= (x + n / x) / 2 <= (n + 1) / 2
    ensures IsAbove((x + n / x) / 2, n)
    ensures x <= (x + n / x) / 2 ==> x * x <= n
  {
    NewtonStaysAbove(n, x);
    if x <= (x + n / x) / 2 {
      NewtonStops(n, x);
    }
    if x == 1 {
      assert n < 4;
    } else {
      QuotientBounds(n, x);
    }
  }

  /** isqrt: for every u64 the result is the exact floor square root, the loop
      terminates, and no intermediate value leaves u64. */
  method Isqrt(n: u64) returns (x: u64)
    ensures IsFloorSqrt(x as nat, n as nat)
  {
    if n < 2 {
      return n;
    }
    x := n;
    var y: u64 := x / 2 + (if x % 2 == 0 then 0 else 1);
    FirstGuess(n as nat);
    while y < x
      invariant 1 <= y as nat <= (n as nat + 1) / 2
      invariant 1 <= x <= n
      invariant IsAbove(x as nat, n as nat) && IsAbove(y as nat, n as nat)
      invariant y < x || (x as nat) * (x as nat) <= n as nat
      decreases x
    {
      x := y;
      NewtonStep(n as nat, x as nat);
      y := (x + n / x) / 2;
    }
  }

  // ----- Level of one frame -----

  function Square(s: i16): nat {
    var v := s as int;
    if v < 0 then (-v) * (-v) else v * v
  }

  function SumSquares(frame: seq<i16>): nat {
    if frame == [] then 0 else SumSquares(frame[..|frame| - 1]) + Square(frame[|frame| - 1])
  }

  /** The level every later stage works with. */
  ghost function Level(frame: seq<i16>): nat {
    if frame == [] then 0 else FloorSqrt(SumSquares(frame) / |frame|)
  }

  lemma SquareBound(s: i16)
    ensures Square(s) <= 0x4000_0000
  {
    var v := s as int;
    var m := if v < 0 then -v else v;
    SquareMonotone(m, 0x8000);
  }

  lemma {:induction false} SumSquaresBound(frame: seq<i16>)
    ensures SumSquares(frame) <= 0x4000_0000 * |frame|
  {
    if frame != [] {
      SumSquaresBound(frame[..|frame| - 1]);
      SquareBound(frame[|frame| - 1]);
    }
  }

  lemma MeanBound(total: nat, count: nat, cap: nat)
    requires 0 < count && total <= cap * count
    ensures total / count <= cap
  {
    var mean := total / count;
    assert total == count * mean + total % count;
    assert mean <= cap || count * mean >= count * (cap + 1);
  }

  lemma LevelBound(frame: seq<i16>)
    ensures Level(frame) <= 32768 && (frame == [] ==> Level(frame) == 0)
  {
    if frame != [] {
      SumSquaresBound(frame);
      MeanBound(SumSquares(frame), |frame|, 0x4000_0000);
      FloorSqrtMonotone(SumSquares(frame) / |frame|, 0x4000_0000);
      FloorSqrtUnique(0x4000_0000, 32768);
    }
  }

  /** rms: the accumulator stays inside u64 for every frame a 32-bit length
      can describe. */
  method Rms(frame: seq<i16>) returns (r: u32)
    requires |frame| <= U32_MAX
    ensures r as nat == Level(frame) <= 32768
  {
    if |frame| == 0 {
      return 0;
    }
    var sumSq: u64 := 0;
    for i := 0 to |frame|
      invariant sumSq as nat == SumSquares(frame[..i]) <= 0x4000_0000 * i
    {
      var v := frame[i] as int;
      SquareBound(frame[i]);
      assert frame[..i + 1][..i] == frame[..i];
      sumSq := sumSq + (if v < 0 then (-v) * (-v) else v * v) as u64;
    }
    assert frame[..|frame|] == frame;
    LevelBound(frame);
    var root := Isqrt(sumSq / |frame| as u64);
    FloorSqrtUnique(SumSquares(frame) / |frame|, root as nat);
    r := root as u32;
  }

  predicate HasMagnitude(frame: seq<i16>, c: int) {
    forall i :: 0 <= i < |frame| ==> frame[i] as int == c || frame[i] as int == -c
  }

  lemma QuotientOfProduct(a: nat, b: nat)
    requires 0 < b
    ensures (a * b) / b == a
  {
    var q := (a * b) / b;
    DivMod(a * b, b);
    assert b * (a - q) == a * b - b * q;
    ProductGap(b, a - q);
  }

  lemma {:induction false} ConstantMagnitudeSum(frame: seq<i16>, c: nat)
    requires HasMagnitude(frame, c)
    ensures SumSquares(frame) == c * c * |frame|
  {
    if frame != [] {
      var init := frame[..|frame| - 1];
      ConstantMagnitudeSum(init, c);
      assert Square(frame[|frame| - 1]) == c * c;
      assert c * c * |frame| == c * c * |init| + c * c;
    }
  }

  /** A frame of constant magnitude, whatever its signs, has exactly that
      level: averaging and rooting lose nothing. */
  lemma ConstantMagnitudeLevel(frame: seq<i16>, c: nat)
    requires frame != [] && HasMagnitude(frame, c)
    ensures Level(frame) == c
  {
    ConstantMagnitudeSum(frame, c);
    assert SumSquares(frame) / |frame| == c * c by {
      QuotientOfProduct(c * c, |frame|);
    }
    FloorSqrtUnique(c * c, c);
  }
}
