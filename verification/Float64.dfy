/** Floating-point addition and division, as far as the rollup relies on them. A float64 is
    the real number it stands for. */
module Float64 {

  /** The two operations, on reals. */
  datatype Float = Float(plus: (real, real) -> real, div: (real, real) -> real)

  function Pow2(n: nat): (r: int)
    ensures r >= 1
  {
    if n == 0 then 1 else 2 * Pow2(n - 1)
  }

  /** Two to the power p, for p of either sign. */
  function Scale(p: int): (r: real)
    ensures r > 0.0
  {
    if p >= 0 then Pow2(p) as real else 1.0 / Pow2(-p) as real
  }

  predicate Whole(x: real)
  {
    x == x.Floor as real
  }

  /** The nearest whole number, a tie going to the even one. */
  function RoundEven(x: real): int
  {
    var low := x.Floor;
    var rest := x - low as real;
    if rest < 0.5 || (rest == 0.5 && low % 2 == 0) then low else low + 1
  }

  /** No whole number is nearer, and one as near is odd. */
  lemma RoundEvenNearest(x: real, other: int)
    requires other != RoundEven(x)
    ensures var d, e := x - RoundEven(x) as real, x - other as real;
            (if d < 0.0 then -d else d) < (if e < 0.0 then -e else e)
            || ((if d < 0.0 then -d else d) == (if e < 0.0 then -e else e) && RoundEven(x) % 2 == 0 && other % 2 != 0)
  {
    var low := x.Floor;
    assert low as real <= x < (low + 1) as real;
    if other < low { assert other as real <= low as real - 1.0; }
    if other > low + 1 { assert other as real >= low as real + 2.0; }
  }

  const MANTISSA: int := 0x10_0000_0000_0000

  /** s lies where consecutive doubles are Scale(-p) apart. */
  ghost predicate InBinade(s: real, p: int)
  {
    -971 <= p <= 1074 && MANTISSA as real <= s * Scale(p) < (2 * MANTISSA) as real
  }

  function RoundTo(s: real, p: int): real
  {
    RoundEven(s * Scale(p)) as real / Scale(p)
  }

  /** The exact sum, or quotient, is rounded to the nearest double. */
  ghost predicate RoundsSum(fl: Float, x: real, y: real, p: int)
  {
    InBinade(x + y, p) ==> fl.plus(x, y) == RoundTo(x + y, p)
  }

  ghost predicate RoundsQuotient(fl: Float, x: real, y: real, p: int)
  {
    y > 0.0 && InBinade(x / y, p) ==> fl.div(x, y) == RoundTo(x / y, p)
  }

  /** IEEE 754 binary64, round to nearest even, on positive results in the normal range. */
  ghost predicate Binary64(fl: Float)
  {
    && (forall x, y, p :: RoundsSum(fl, x, y, p))
    && (forall x, y, p :: RoundsQuotient(fl, x, y, p))
  }

  // ------------------------------------------------ whole numbers add exactly

  const EXACT: int := 2 * MANTISSA

  /** Adding a positive whole number stays exact up to 2 to the power 53. */
  ghost predicate ExactSum(fl: Float, x: real, y: real)
  {
    Whole(x) && Whole(y) && x >= 0.0 && y >= 1.0 && x + y <= EXACT as real ==> fl.plus(x, y) == x + y
  }

  ghost predicate ExactOnWhole(fl: Float)
  {
    forall x, y :: ExactSum(fl, x, y)
  }

  lemma WholeAdds(x: real, a: int, y: real, b: int)
    requires x == a as real && y == b as real
    ensures x + y == (a + b) as real && Whole(x + y)
  {
  }

  lemma PowGrows(n: nat)
    ensures Pow2(n + 1) == 2 * Pow2(n)
  {
  }

  /** The binade of a positive whole number below 2 to the power 53. */
  lemma {:induction false} WholeBinade(n: int, p: nat) returns (q: nat)
    requires 1 <= n && p <= 52 && n * Pow2(p) < 2 * MANTISSA && (p == 52 ==> n * Pow2(52) >= MANTISSA)
    ensures q <= 52 && MANTISSA <= n * Pow2(q) < 2 * MANTISSA
    decreases 52 - p
  {
    if n * Pow2(p) >= MANTISSA {
      q := p;
    } else {
      PowGrows(p);
      assert n * Pow2(p + 1) == 2 * (n * Pow2(p));
      if p + 1 == 52 { PowAt52(); assert n * Pow2(52) >= MANTISSA; }
      q := WholeBinade(n, p + 1);
    }
  }

  lemma PowAt52()
    ensures Pow2(52) == MANTISSA && Pow2(53) == 2 * MANTISSA
  {
    PowTable();
  }

  lemma {:induction false} PowAdds(a: nat, b: nat)
    ensures Pow2(a + b) == Pow2(a) * Pow2(b)
  {
    if b > 0 {
      PowAdds(a, b - 1);
      assert a + b - 1 == a + (b - 1);
    }
  }

  lemma Pow48()
    ensures Pow2(4) == 16 && Pow2(48) == 0x1_0000_0000_0000
  {
    assert Pow2(2) == 4 && Pow2(4) == 16;
    PowAdds(4, 4);
    PowAdds(8, 8);
    PowAdds(16, 16);
    PowAdds(32, 16);
  }

  /** The powers the examples need. */
  lemma PowTable()
    ensures Pow2(52) == 0x10_0000_0000_0000 && Pow2(53) == 0x20_0000_0000_0000
    ensures Pow2(54) == 0x40_0000_0000_0000 && Pow2(55) == 0x80_0000_0000_0000 && Pow2(56) == 0x100_0000_0000_0000
  {
    Pow48();
    PowAdds(48, 4);
    PowGrows(52);
    PowGrows(53);
    PowGrows(54);
    PowGrows(55);
  }

  lemma RoundWhole(n: int)
    ensures RoundEven(n as real) == n
  {
  }

  lemma ScaleWhole(n: int, q: nat)
    ensures n as real * Scale(q) == (n * Pow2(q)) as real
  {
    PowGrows(q);
  }

  lemma RoundsToItself(n: int, q: nat)
    requires 1 <= n
    ensures RoundTo(n as real, q) == n as real
  {
    var k, scaled := n * Pow2(q), n as real * Scale(q);
    ScaleWhole(n, q);
    assert scaled == k as real;
    RoundWhole(k);
    assert RoundTo(n as real, q) == scaled / Scale(q);
    Cancels(n as real, Scale(q));
  }

  lemma Cancels(a: real, b: real)
    requires b > 0.0
    ensures (a * b) / b == a
  {
  }

  /** Doubles add whole numbers exactly as long as the sum is at most 2 to the power 53. */
  lemma WholeSumsExact(fl: Float, x: real, y: real)
    requires Binary64(fl)
    ensures ExactSum(fl, x, y)
  {
    if Whole(x) && Whole(y) && x >= 0.0 && y >= 1.0 && x + y <= EXACT as real {
      var n := x.Floor + y.Floor;
      assert x + y == n as real;
      if n == EXACT {
        TopExact(fl, x, y);
      } else {
        BelowExact(fl, x, y, n);
      }
    }
  }

  lemma BelowExact(fl: Float, x: real, y: real, n: int)
    requires Binary64(fl) && x + y == n as real && 1 <= n < EXACT
    ensures fl.plus(x, y) == x + y
  {
    var q := BinadeOf(n);
    assert RoundsSum(fl, x, y, q);
    RoundsToItself(n, q);
  }

  lemma BinadeOf(n: int) returns (q: nat)
    requires 1 <= n < EXACT
    ensures InBinade(n as real, q)
  {
    PowAt52();
    q := WholeBinade(n, 0);
    ScaleWhole(n, q);
  }

  lemma TopExact(fl: Float, x: real, y: real)
    requires Binary64(fl) && x + y == EXACT as real
    ensures fl.plus(x, y) == x + y
  {
    assert Pow2(1) == 2;
    assert Scale(-1) == 0.5;
    assert InBinade(x + y, -1);
    assert RoundsSum(fl, x, y, -1);
    RoundWhole(MANTISSA);
  }

  lemma BinaryExactOnWhole(fl: Float)
    requires Binary64(fl)
    ensures ExactOnWhole(fl)
  {
    forall x, y ensures ExactSum(fl, x, y) { WholeSumsExact(fl, x, y); }
  }

  // ------------------------------------------------ ten, twenty and thirty cents

  /** The double at m units of Scale(-p). */
  function Double(m: int, p: int): real
  {
    m as real / Scale(p)
  }

  lemma Halves()
    ensures Scale(53) == 9007199254740992.0 && Scale(54) == 18014398509481984.0
    ensures Scale(55) == 36028797018963968.0 && Scale(56) == 72057594037927936.0
  {
    PowTable();
  }

  lemma TenCents(fl: Float)
    requires Binary64(fl)
    ensures fl.div(10.0, 100.0) == Double(7205759403792794, 56)
  {
    Halves();
    assert RoundsQuotient(fl, 10.0, 100.0, 56);
  }

  lemma TwentyCents(fl: Float)
    requires Binary64(fl)
    ensures fl.div(20.0, 100.0) == Double(7205759403792794, 55)
  {
    Halves();
    assert RoundsQuotient(fl, 20.0, 100.0, 55);
  }

  lemma ThirtyCents(fl: Float)
    requires Binary64(fl)
    ensures fl.div(30.0, 100.0) == Double(5404319552844595, 54)
  {
    Halves();
    assert RoundsQuotient(fl, 30.0, 100.0, 54);
  }

  lemma CentsUp(fl: Float, a: real, b: real, c: real)
    requires Binary64(fl)
    requires a == Double(7205759403792794, 56) && b == Double(7205759403792794, 55) && c == Double(5404319552844595, 54)
    ensures fl.plus(fl.plus(fl.plus(0.0, a), b), c) == Double(5404319552844596, 53)
  {
    Halves();
    assert RoundsSum(fl, 0.0, a, 56);
    assert fl.plus(0.0, a) == a;
    assert RoundsSum(fl, a, b, 54);
    assert fl.plus(a, b) == Double(5404319552844596, 54);
    assert RoundsSum(fl, Double(5404319552844596, 54), c, 53);
  }

  lemma CentsDown(fl: Float, a: real, b: real, c: real)
    requires Binary64(fl)
    requires a == Double(7205759403792794, 56) && b == Double(7205759403792794, 55) && c == Double(5404319552844595, 54)
    ensures fl.plus(fl.plus(fl.plus(0.0, c), b), a) == Double(5404319552844595, 53)
  {
    Halves();
    assert RoundsSum(fl, 0.0, c, 54);
    assert fl.plus(0.0, c) == c;
    assert RoundsSum(fl, c, b, 53);
    assert fl.plus(c, b) == 0.5;
    assert RoundsSum(fl, 0.5, a, 53);
  }

  /** In doubles ten, twenty and thirty cents make 0.6000000000000001 dollars in this order
      and 0.6 in the other. */
  lemma CentsShowOrder(fl: Float)
    requires Binary64(fl)
    ensures var a, b, c := fl.div(10.0, 100.0), fl.div(20.0, 100.0), fl.div(30.0, 100.0);
            && a > 0.0 && b > 0.0 && c > 0.0
            && fl.plus(fl.plus(fl.plus(0.0, a), b), c) != fl.plus(fl.plus(fl.plus(0.0, c), b), a)
  {
    var a, b, c := fl.div(10.0, 100.0), fl.div(20.0, 100.0), fl.div(30.0, 100.0);
    TenCents(fl);
    TwentyCents(fl);
    ThirtyCents(fl);
    CentsUp(fl, a, b, c);
    CentsDown(fl, a, b, c);
    Halves();
  }
}
