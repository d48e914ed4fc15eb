/**
 * The integer-only `Rational` of the Scheme number tower
 * (src/scheme/number.rs): Euclid's gcd, the reducing constructor, the
 * conversion from an integer, the cross-multiplying comparisons and the
 * four operators.
 *
 * Integers are unbounded here; the source's i64 products can overflow.
 * Rust's `/` truncates toward zero, which `Quot` writes out. A rational
 * n/d "stands for" the fraction p/q when n·q == p·d, so every value fact
 * below is stated by cross-multiplication, as the source compares.
 */
module SchemeNumber {

  datatype Rational = Rational(numerator: int, denominator: int)

  /** `std::cmp::Ordering`. */
  datatype Ordering = Less | Equal | Greater

  function Abs(a: int): nat
  {
    if a < 0 then -a else a
  }

  /** Rust's `/` on integers: the quotient truncated toward zero. */
  function Quot(a: int, b: int): int
    requires b != 0
  {
    var q := Abs(a) / Abs(b);
    if (a < 0) == (b < 0) then q else -q
  }

  /** A product, named so that quantifiers over a factor have a term to hang on. */
  function Mul(a: int, b: int): int
  {
    a * b
  }

  /** d divides n. */
  ghost predicate Divides(d: int, n: int)
  {
    exists k :: n == Mul(d, k)
  }

  /** A truncating division that leaves no remainder gives the cofactor. */
  lemma QuotExact(a: int, b: int, k: int)
    requires b != 0 && a == b * k
    ensures Quot(a, b) == k
  {
    AbsMul(b, k);
    DivMulExact(Abs(b), Abs(k));
  }

  lemma AbsMul(b: int, k: int)
    ensures Abs(b * k) == Abs(b) * Abs(k)
    ensures b * k < 0 <==> (b < 0 && k > 0) || (b > 0 && k < 0)
  {
    if b < 0 && k < 0 {
      assert b * k == (-b) * (-k);
    } else if b < 0 {
      assert b * k == -((-b) * k);
    } else if k < 0 {
      assert b * k == -(b * (-k));
    }
  }

  lemma DivMulExact(m: nat, n: nat)
    requires m > 0
    ensures (m * n) / m == n
  {
    var q, r := (m * n) / m, (m * n) % m;
    assert m * n == m * q + r && 0 <= r < m;
    assert m * (n - q) == r;
    if n - q >= 1 {
      MulAtLeast(m, n - q);
    } else if n - q <= -1 {
      MulAtLeast(m, q - n);
    }
  }

  lemma MulAtLeast(m: nat, c: int)
    requires c >= 1
    ensures m * c >= m
  {
    assert m * c == m + m * (c - 1);
  }

  /** Dividing by a divisor undoes the multiplication. */
  lemma QuotDivides(d: int, n: int) returns (k: int)
    requires d != 0 && Divides(d, n)
    ensures n == d * k && Quot(n, d) == k
  {
    k :| n == Mul(d, k);
    QuotExact(n, d, k);
  }

  /** A divisor of two numbers divides every combination b·q + r of them. */
  lemma DividesLinear(d: int, b: int, r: int, q: int)
    requires Divides(d, b) && Divides(d, r)
    ensures Divides(d, b * q + r)
  {
    var i :| b == Mul(d, i);
    var j :| r == Mul(d, j);
    assert b * q + r == Mul(d, i * q + j);
  }

  /** Divisibility ignores the sign of the number divided. */
  lemma DividesAbs(d: int, n: int)
    ensures Divides(d, Abs(n)) <==> Divides(d, n)
  {
    if Divides(d, n) {
      var k :| n == Mul(d, k);
      assert Abs(n) == Mul(d, if n < 0 then -k else k);
    }
    if Divides(d, Abs(n)) {
      var k :| Abs(n) == Mul(d, k);
      assert n == Mul(d, if n < 0 then -k else k);
    }
  }

  // ---------------------------------------------------------------------------
  // gcd
  // ---------------------------------------------------------------------------

  /** Euclid's algorithm on natural numbers. */
  function GcdOf(a: nat, b: nat): nat
    decreases b
  {
    if b == 0 then a else GcdOf(b, a % b)
  }

  /** The gcd divides both arguments. */
  lemma {:induction false} GcdDivides(a: nat, b: nat)
    ensures Divides(GcdOf(a, b), a) && Divides(GcdOf(a, b), b)
    decreases b
  {
    var g := GcdOf(a, b);
    if b == 0 {
      assert a == Mul(a, 1) && 0 == Mul(a, 0);
    } else {
      GcdDivides(b, a % b);
      DividesLinear(g, b, a % b, a / b);
      assert a == b * (a / b) + a % b;
    }
  }

  /** Every common divisor of the arguments divides the gcd. */
  lemma {:induction false} GcdGreatest(a: nat, b: nat, d: int)
    requires Divides(d, a) && Divides(d, b)
    ensures Divides(d, GcdOf(a, b))
    decreases b
  {
    if b != 0 {
      var i :| a == Mul(d, i);
      var j :| b == Mul(d, j);
      assert a % b == Mul(d, i - j * (a / b)) by {
        assert a == b * (a / b) + a % b;
      }
      GcdGreatest(b, a % b, d);
    }
  }

  /** The gcd is zero only when both arguments are. */
  lemma {:induction false} GcdZero(a: nat, b: nat)
    ensures GcdOf(a, b) == 0 <==> a == 0 && b == 0
    decreases b
  {
    if b != 0 {
      GcdZero(b, a % b);
    }
  }

  /** The gcd does not depend on the order of its arguments' first Euclid step. */
  lemma GcdSwap(a: nat, b: nat)
    requires a < b
    ensures GcdOf(a, b) == GcdOf(b, a)
  {
    assert a % b == a;
  }

  /**
   * `Rational::gcd`: Euclid's loop on the absolute values, the larger
   * first; the result is the greatest common divisor, `gcd(a, 0) = |a|`.
   */
  method Gcd(a: int, b: int) returns (g: int)
    ensures g == GcdOf(Abs(a), Abs(b))
  {
    var x, y := Abs(a), Abs(b);
    if x < y {
      GcdSwap(x, y);
      x, y := y, x;
    }
    while y > 0
      invariant x >= 0 && y >= 0
      invariant GcdOf(x, y) == GcdOf(Abs(a), Abs(b))
      decreases y
    {
      var t := y;
      y := x % y;
      x := t;
    }
    g := x;
  }

  /** The gcd of a pair, not both zero, is positive and divides both. */
  lemma GcdFacts(a: int, b: int)
    requires a != 0 || b != 0
    ensures GcdOf(Abs(a), Abs(b)) > 0
    ensures Divides(GcdOf(Abs(a), Abs(b)), a) && Divides(GcdOf(Abs(a), Abs(b)), b)
  {
    GcdZero(Abs(a), Abs(b));
    GcdDivides(Abs(a), Abs(b));
    DividesAbs(GcdOf(Abs(a), Abs(b)), a);
    DividesAbs(GcdOf(Abs(a), Abs(b)), b);
  }

  // ---------------------------------------------------------------------------
  // Construction and comparison
  // ---------------------------------------------------------------------------

  /** n/d and p/q stand for the same fraction. */
  predicate Same(n: int, d: int, p: int, q: int)
  {
    n * q == p * d
  }

  /** The numerator and denominator have no common factor but 1. */
  predicate Reduced(r: Rational)
  {
    GcdOf(Abs(r.numerator), Abs(r.denominator)) == 1
  }

  /**
   * `Rational::new(a, b)`: both parts divided by their gcd (a panic by
   * division by zero when both are zero). The result stands for a/b, is
   * reduced, and keeps the sign of a positive denominator.
   */
  function New(a: int, b: int): (r: Rational)
    requires a != 0 || b != 0
    ensures Same(r.numerator, r.denominator, a, b)
    ensures Reduced(r)
    ensures b > 0 ==> r.denominator > 0
    ensures b < 0 ==> r.denominator < 0
    ensures b != 0 ==> r.denominator != 0
  {
    var g := GcdOf(Abs(a), Abs(b));
    GcdFacts(a, b);
    NewFacts(a, b, g);
    Rational(Quot(a, g), Quot(b, g))
  }

  lemma NewFacts(a: int, b: int, g: int)
    requires a != 0 || b != 0
    requires g == GcdOf(Abs(a), Abs(b)) && g > 0 && Divides(g, a) && Divides(g, b)
    ensures Same(Quot(a, g), Quot(b, g), a, b)
    ensures GcdOf(Abs(Quot(a, g)), Abs(Quot(b, g))) == 1
    ensures b > 0 ==> Quot(b, g) > 0
    ensures b < 0 ==> Quot(b, g) < 0
    ensures b != 0 ==> Quot(b, g) != 0
  {
    var i := QuotDivides(g, a);
    var j := QuotDivides(g, b);
    ScaleSame(g, i, j);
    AbsMul(g, j);
    CofactorsCoprime(a, b, g, i, j);
  }

  /** i/j stands for (g·i)/(g·j). */
  lemma ScaleSame(g: int, i: int, j: int)
    ensures Same(i, j, g * i, g * j)
  {
    assert i * (g * j) == (g * i) * j;
  }

  /** Dividing by the gcd leaves cofactors whose gcd is 1. */
  lemma CofactorsCoprime(a: int, b: int, g: int, i: int, j: int)
    requires a != 0 || b != 0
    requires g == GcdOf(Abs(a), Abs(b)) && g > 0 && a == g * i && b == g * j
    ensures GcdOf(Abs(i), Abs(j)) == 1
  {
    assert i != 0 || j != 0;
    var d := GcdOf(Abs(i), Abs(j));
    GcdFacts(i, j);
    DividesScale(d, i, g);
    DividesScale(d, j, g);
    DividesAbs(g * d, a);
    DividesAbs(g * d, b);
    GcdGreatest(Abs(a), Abs(b), g * d);
    var k :| g == Mul(g * d, k);
    UnitFactor(g, d, k);
  }

  /** A divisor of i, scaled by g, divides g·i. */
  lemma DividesScale(d: int, i: int, g: int)
    requires Divides(d, i)
    ensures Divides(g * d, g * i)
  {
    var s :| i == Mul(d, s);
    assert g * i == Mul(g * d, s) by {
      assert g * (d * s) == (g * d) * s;
    }
  }

  /** g = g·d·k with g, d positive forces d = 1. */
  lemma UnitFactor(g: int, d: int, k: int)
    requires g > 0 && d > 0 && g == (g * d) * k
    ensures d == 1
  {
    assert g * (d * k) == g * 1;
    MulCancel(d * k, 1, g);
    if k > 0 {
      MulAtLeast(d, k);
    }
  }

  /** `From<i64>`: n/1. */
  function FromInt(n: int): (r: Rational)
    ensures Same(r.numerator, r.denominator, n, 1) && r.denominator > 0
  {
    Rational(n, 1)
  }

  /** `PartialEq`: equal cross-products. */
  predicate Eq(x: Rational, y: Rational)
  {
    x.numerator * y.denominator == x.denominator * y.numerator
  }

  /** `PartialOrd`: the cross-products compared; it always gives an answer. */
  function Cmp(x: Rational, y: Rational): (o: Ordering)
    ensures o == Equal <==> Eq(x, y)
  {
    var l, r := x.numerator * y.denominator, x.denominator * y.numerator;
    if l < r then Less else if l == r then Equal else Greater
  }

  /** Both denominators are positive: the domain on which the comparison orders fractions. */
  predicate Positive(x: Rational)
  {
    x.denominator > 0
  }

  /** Equality on rationals with nonzero denominators is transitive. */
  lemma EqTrans(x: Rational, y: Rational, z: Rational)
    requires y.denominator != 0 && Eq(x, y) && Eq(y, z)
    ensures Eq(x, z)
  {
    assert x.numerator * y.denominator * z.denominator == x.denominator * y.numerator * z.denominator;
    assert y.numerator * z.denominator == y.denominator * z.numerator;
    assert x.numerator * z.denominator * y.denominator == x.denominator * z.numerator * y.denominator;
    MulCancel(x.numerator * z.denominator, x.denominator * z.numerator, y.denominator);
  }

  lemma MulCancel(a: int, b: int, c: int)
    requires c != 0 && a * c == b * c
    ensures a == b
  {
    assert (a - b) * c == 0;
  }

  /** With positive denominators, "less" is transitive. */
  lemma LessTrans(x: Rational, y: Rational, z: Rational)
    requires Positive(x) && Positive(y) && Positive(z)
    requires Cmp(x, y) == Less && Cmp(y, z) == Less
    ensures Cmp(x, z) == Less
  {
    var a, b, c, d, e, f := x.numerator, x.denominator, y.numerator, y.denominator, z.numerator, z.denominator;
    assert a * d < b * c && c * f < d * e;
    assert a * d * f < b * c * f by {
      MulLess(a * d, b * c, f);
    }
    assert c * f * b < d * e * b by {
      MulLess(c * f, d * e, b);
    }
    assert a * f * d < b * e * d;
    if a * f >= b * e {
      MulLe(b * e, a * f, d);
    }
  }

  lemma MulLess(a: int, b: int, c: int)
    requires a < b && c > 0
    ensures a * c < b * c
  {
    assert (b - a) * c > 0;
  }

  lemma MulLe(a: int, b: int, c: int)
    requires a <= b && c > 0
    ensures a * c <= b * c
  {
    assert (b - a) * c >= 0;
  }

  /** With positive denominators, the comparison sees only the fractions: equal values compare alike. */
  lemma CmpRespectsEq(x: Rational, x': Rational, y: Rational)
    requires Positive(x) && Positive(x') && Positive(y) && Eq(x, x')
    ensures Cmp(x, y) == Cmp(x', y)
  {
    var a, b, a', b', c, d := x.numerator, x.denominator, x'.numerator, x'.denominator, y.numerator, y.denominator;
    assert a * b' == b * a';
    // a·d vs b·c is decided by multiplying by b' > 0, and a'·d vs b'·c by multiplying by b > 0
    assert a * d * b' == a' * d * b;
    assert b * c * b' == b' * c * b;
    SignScale(a * d - b * c, b');
    SignScale(a' * d - b' * c, b);
    assert (a * d - b * c) * b' == (a' * d - b' * c) * b;
  }

  lemma SignScale(v: int, s: int)
    requires s > 0
    ensures (v < 0 <==> v * s < 0) && (v == 0 <==> v * s == 0)
  {
    if v < 0 {
      assert (-v) * s > 0;
    } else if v > 0 {
      assert v * s > 0;
    }
  }

  // ---------------------------------------------------------------------------
  // Arithmetic
  // ---------------------------------------------------------------------------

  /**
   * `Add`, as written: with g = gcd(d1, d2), numerator n1·d2 + (d1·n2)/g
   * (the division binds tighter than the sum) over d1·d2/g.
   */
  function AddAsWritten(x: Rational, y: Rational): (r: Rational)
    requires x.denominator != 0 || y.denominator != 0
    ensures x.denominator == 1 && y.denominator == 1 ==> r == FromInt(x.numerator + y.numerator)
  {
    var g := GcdOf(Abs(x.denominator), Abs(y.denominator));
    GcdFacts(x.denominator, y.denominator);
    assert GcdOf(1, 1) == 1 by { assert GcdOf(1, 0) == 1; }
    Rational(x.numerator * y.denominator + Quot(x.denominator * y.numerator, g), Quot(x.denominator * y.denominator, g))
  }

  /** `Sub`, as written: the same shape as `AddAsWritten` with a difference. */
  function SubAsWritten(x: Rational, y: Rational): (r: Rational)
    requires x.denominator != 0 || y.denominator != 0
    ensures x.denominator == 1 && y.denominator == 1 ==> r == FromInt(x.numerator - y.numerator)
  {
    var g := GcdOf(Abs(x.denominator), Abs(y.denominator));
    GcdFacts(x.denominator, y.denominator);
    assert GcdOf(1, 1) == 1 by { assert GcdOf(1, 0) == 1; }
    Rational(x.numerator * y.denominator - Quot(x.denominator * y.numerator, g), Quot(x.denominator * y.denominator, g))
  }

  /** 1/2 + 1/2 as written is 3/2, and 1/2 - 1/2 is 1/2: neither stands for the right fraction. */
  lemma AddCounterexample()
    ensures AddAsWritten(Rational(1, 2), Rational(1, 2)) == Rational(3, 2)
    ensures !Eq(AddAsWritten(Rational(1, 2), Rational(1, 2)), FromInt(1))
    ensures SubAsWritten(Rational(1, 2), Rational(1, 2)) == Rational(1, 2)
    ensures !Eq(SubAsWritten(Rational(1, 2), Rational(1, 2)), FromInt(0))
  {
    assert GcdOf(2, 2) == 2 by {
      assert GcdOf(2, 0) == 2;
    }
    assert Quot(2, 2) == 1 && Quot(4, 2) == 2;
  }

  /**
   * The sum or difference with the whole cross-sum divided by g, as the
   * evidently intended `Add`/`Sub` (the same formula the evaluator's own
   * rational addition uses): it stands for n1/d1 ± n2/d2 and keeps
   * denominators positive.
   */
  function AddSub(x: Rational, y: Rational, minus: bool): (r: Rational)
    requires x.denominator != 0 || y.denominator != 0
    ensures Same(r.numerator, r.denominator,
                 if minus then x.numerator * y.denominator - x.denominator * y.numerator
                 else x.numerator * y.denominator + x.denominator * y.numerator,
                 x.denominator * y.denominator)
    ensures Positive(x) && Positive(y) ==> Positive(r)
  {
    var g := GcdOf(Abs(x.denominator), Abs(y.denominator));
    var n := if minus then x.numerator * y.denominator - x.denominator * y.numerator
             else x.numerator * y.denominator + x.denominator * y.numerator;
    GcdFacts(x.denominator, y.denominator);
    SumFacts(x, y, g, n, minus);
    Rational(Quot(n, g), Quot(x.denominator * y.denominator, g))
  }

  lemma SumFacts(x: Rational, y: Rational, g: int, n: int, minus: bool)
    requires g > 0 && Divides(g, x.denominator) && Divides(g, y.denominator)
    requires n == if minus then x.numerator * y.denominator - x.denominator * y.numerator
                 else x.numerator * y.denominator + x.denominator * y.numerator
    ensures Same(Quot(n, g), Quot(x.denominator * y.denominator, g), n, x.denominator * y.denominator)
    ensures Positive(x) && Positive(y) ==> Quot(x.denominator * y.denominator, g) > 0
  {
    var i := QuotDivides(g, x.denominator);
    var j := QuotDivides(g, y.denominator);
    var m := CrossSum(x.numerator, y.numerator, g, i, j, minus);
    var e := x.denominator * y.denominator;
    assert e == g * (i * y.denominator) by {
      assert (g * i) * y.denominator == g * (i * y.denominator);
    }
    QuotExact(n, g, m);
    QuotExact(e, g, i * y.denominator);
    ScaleSame(g, m, i * y.denominator);
    if Positive(x) && Positive(y) {
      AbsMul(g, i);
      AbsMul(i, y.denominator);
    }
  }

  /** The cross-sum over denominators g·i and g·j is g times a cofactor. */
  lemma CrossSum(n1: int, n2: int, g: int, i: int, j: int, minus: bool) returns (m: int)
    ensures (if minus then n1 * (g * j) - (g * i) * n2 else n1 * (g * j) + (g * i) * n2) == g * m
  {
    m := if minus then n1 * j - i * n2 else n1 * j + i * n2;
    assert n1 * (g * j) == g * (n1 * j);
    assert (g * i) * n2 == g * (i * n2);
  }

  /** The evidently intended `Add`. */
  function Add(x: Rational, y: Rational): (r: Rational)
    requires x.denominator != 0 || y.denominator != 0
    ensures Same(r.numerator, r.denominator, x.numerator * y.denominator + x.denominator * y.numerator,
                 x.denominator * y.denominator)
    ensures Positive(x) && Positive(y) ==> Positive(r)
  {
    AddSub(x, y, false)
  }

  /** The evidently intended `Sub`. */
  function Sub(x: Rational, y: Rational): (r: Rational)
    requires x.denominator != 0 || y.denominator != 0
    ensures Same(r.numerator, r.denominator, x.numerator * y.denominator - x.denominator * y.numerator,
                 x.denominator * y.denominator)
    ensures Positive(x) && Positive(y) ==> Positive(r)
  {
    AddSub(x, y, true)
  }

  /**
   * `Mul`: both products divided by their gcd (a panic when both are
   * zero). It stands for n1·n2 / d1·d2 and is reduced.
   */
  function Times(x: Rational, y: Rational): (r: Rational)
    requires x.numerator * y.numerator != 0 || x.denominator * y.denominator != 0
    ensures Same(r.numerator, r.denominator, x.numerator * y.numerator, x.denominator * y.denominator)
    ensures Reduced(r)
    ensures Positive(x) && Positive(y) ==> Positive(r)
  {
    assert Positive(x) && Positive(y) ==> x.denominator * y.denominator > 0;
    New(x.numerator * y.numerator, x.denominator * y.denominator)
  }

  /**
   * `Div`, as written: n1·d2 over d1·n2, both divided by their gcd. A
   * negative divisor leaves a negative denominator.
   */
  function DivAsWritten(x: Rational, y: Rational): (r: Rational)
    requires x.numerator * y.denominator != 0 || x.denominator * y.numerator != 0
    ensures Same(r.numerator, r.denominator, x.numerator * y.denominator, x.denominator * y.numerator)
    ensures Reduced(r)
  {
    New(x.numerator * y.denominator, x.denominator * y.numerator)
  }

  /**
   * 1 / -1 as written is 1/-1, which equals -1, yet the comparison puts it
   * above 0 while it puts -1 below 0.
   */
  lemma DivCounterexample()
    ensures DivAsWritten(FromInt(1), FromInt(-1)) == Rational(1, -1)
    ensures Eq(DivAsWritten(FromInt(1), FromInt(-1)), FromInt(-1))
    ensures Cmp(DivAsWritten(FromInt(1), FromInt(-1)), FromInt(0)) == Greater
    ensures Cmp(FromInt(-1), FromInt(0)) == Less
  {
    assert GcdOf(1, 1) == 1 by {
      assert GcdOf(1, 1) == GcdOf(1, 0);
    }
    QuotExact(1, 1, 1);
    QuotExact(-1, 1, -1);
  }

  /**
   * The evidently intended `Div`: as written, then with the signs of both
   * parts flipped when the denominator is negative. It stands for the
   * quotient and keeps denominators positive for a nonzero divisor.
   */
  function Div(x: Rational, y: Rational): (r: Rational)
    requires x.numerator * y.denominator != 0 || x.denominator * y.numerator != 0
    ensures Same(r.numerator, r.denominator, x.numerator * y.denominator, x.denominator * y.numerator)
    ensures Reduced(r)
    ensures Positive(x) && Positive(y) && y.numerator != 0 ==> Positive(r)
  {
    var q := DivAsWritten(x, y);
    if q.denominator < 0 then
      assert Abs(-q.numerator) == Abs(q.numerator) && Abs(-q.denominator) == Abs(q.denominator);
      Rational(-q.numerator, -q.denominator)
    else
      assert Positive(x) && Positive(y) && y.numerator != 0 ==> x.denominator * y.numerator != 0;
      q
  }

  /**
   * `Integer / Integer` builds `Rational::new(x, y)` directly: that is the
   * as-written quotient of the two integers, with the same misplaced sign
   * for a negative divisor; the corrected quotient of the two embedded
   * integers keeps the denominator positive.
   */
  lemma IntegerQuotient(a: int, b: int)
    requires a != 0 || b != 0
    ensures New(a, b) == DivAsWritten(FromInt(a), FromInt(b))
    ensures b < 0 ==> New(a, b).denominator < 0
    ensures Same(Div(FromInt(a), FromInt(b)).numerator, Div(FromInt(a), FromInt(b)).denominator, a, b)
    ensures b != 0 ==> Div(FromInt(a), FromInt(b)).denominator > 0
  {
    assert a * 1 == a && 1 * b == b;
  }

  /** An integer embeds faithfully: the sum and order of integers are those of their rationals. */
  lemma FromIntHomomorphic(a: int, b: int)
    ensures Eq(Add(FromInt(a), FromInt(b)), FromInt(a + b))
    ensures Cmp(FromInt(a), FromInt(b)) == (if a < b then Less else if a == b then Equal else Greater)
  {
    var r := Add(FromInt(a), FromInt(b));
    assert r.numerator * 1 == (a + b) * r.denominator;
  }
}
