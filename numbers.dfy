/**
 * Integer helpers behind the ionic formula builder: the Euclidean gcd that
 * `calculateFormula` defines inline, divisibility facts about it, and the
 * decimal digits that `Number.prototype.toString` produces for a natural.
 */
module Numbers {

  /** `d` divides `n`; zero divides only zero. */
  predicate Divides(d: nat, n: nat) {
    if d == 0 then n == 0 else n % d == 0
  }

  /** The recursive Euclidean helper `gcd(a, b) = b === 0 ? a : gcd(b, a % b)`. */
  function Gcd(a: nat, b: nat): (g: nat)
    decreases b
    ensures g == 0 <==> a == 0 && b == 0
    ensures b > 0 ==> g <= b
  {
    if b == 0 then a else Gcd(b, a % b)
  }

  // ---------------------------------------------------------------------
  // Division facts

  lemma {:induction false} MulAtLeast(k: int, d: int)
    requires k >= 1 && d >= 0
    ensures k * d >= d
  {
    if k > 1 {
      MulAtLeast(k - 1, d);
      assert k * d == (k - 1) * d + d;
    }
  }

  /** Euclidean division is unique: a quotient/remainder pair is THE pair. */
  lemma DivModUnique(x: int, d: int, q: int, r: int)
    requires d > 0 && x == q * d + r && 0 <= r < d
    ensures x / d == q && x % d == r
  {
    var q0, r0 := x / d, x % d;
    assert x == q0 * d + r0;
    assert (q - q0) * d == r0 - r;
    if q > q0 {
      MulAtLeast(q - q0, d);
      assert false;
    } else if q < q0 {
      MulAtLeast(q0 - q, d);
      assert false;
    }
  }

  lemma DividesMultiple(d: nat, k: nat)
    requires d > 0
    ensures Divides(d, d * k) && (d * k) / d == k
  {
    DivModUnique(d * k, d, k, 0);
  }

  /** A positive multiple is at least the divisor. */
  lemma DividesLe(d: nat, n: nat)
    requires Divides(d, n) && n > 0
    ensures d <= n
  {
    if d > n {
      DivModUnique(n, d, 0, n);
    }
  }

  lemma DividesAntisymmetric(a: nat, b: nat)
    requires Divides(a, b) && Divides(b, a)
    ensures a == b
  {
    if a > 0 && b > 0 {
      DividesLe(a, b);
      DividesLe(b, a);
    }
  }

  /** A common divisor of `b` and `r` divides `q * b + r`. */
  lemma DividesCombination(d: nat, b: nat, q: nat, r: nat)
    requires d > 0 && Divides(d, b) && Divides(d, r)
    ensures Divides(d, q * b + r)
  {
    var i, j := b / d, r / d;
    assert b == d * i;
    assert r == d * j;
    calc {
      q * b + r;
      q * (d * i) + d * j;
      d * (q * i + j);
    }
    DividesMultiple(d, q * i + j);
  }

  /** A common divisor of `a` and `b > 0` divides `a % b`. */
  lemma DividesRemainder(d: nat, a: nat, b: nat)
    requires d > 0 && b > 0 && Divides(d, a) && Divides(d, b)
    ensures Divides(d, a % b)
  {
    var i, k, q := a / d, b / d, a / b;
    assert a == d * i;
    assert b == d * k;
    assert a % b == a - q * b;
    calc {
      a % b;
      d * i - q * (d * k);
      d * (i - q * k);
    }
    if i - q * k < 0 {
      MulAtLeast(q * k - i, d);
      assert false;
    }
    DividesMultiple(d, i - q * k);
  }

  // ---------------------------------------------------------------------
  // The gcd is the greatest common divisor

  lemma {:induction false} GcdDivides(a: nat, b: nat)
    ensures Divides(Gcd(a, b), a) && Divides(Gcd(a, b), b)
    decreases b
  {
    if b == 0 {
      if a > 0 {
        DividesMultiple(a, 1);
      }
    } else {
      var g := Gcd(b, a % b);
      assert Gcd(a, b) == g;
      assert g > 0;
      GcdDivides(b, a % b);
      var q, r := a / b, a % b;
      assert a == q * b + r;
      DividesCombination(g, b, q, r);
    }
  }

  lemma {:induction false} GcdGreatest(a: nat, b: nat, d: nat)
    requires Divides(d, a) && Divides(d, b)
    ensures Divides(d, Gcd(a, b))
    decreases b
  {
    if b > 0 {
      if d > 0 {
        DividesRemainder(d, a, b);
      }
      GcdGreatest(b, a % b, d);
    }
  }

  lemma GcdCommutes(a: nat, b: nat)
    ensures Gcd(a, b) == Gcd(b, a)
  {
    GcdDivides(a, b);
    GcdDivides(b, a);
    GcdGreatest(a, b, Gcd(b, a));
    GcdGreatest(b, a, Gcd(a, b));
    DividesAntisymmetric(Gcd(a, b), Gcd(b, a));
  }

  lemma ModScale(k: nat, a: nat, b: nat)
    requires k > 0 && b > 0
    ensures k * b > 0 && (k * a) % (k * b) == k * (a % b)
  {
    var q, r := a / b, a % b;
    assert a == q * b + r;
    assert k * a == q * (k * b) + k * r;
    MulAtLeast(k, b - r);
    assert k * (b - r) == k * b - k * r;
    DivModUnique(k * a, k * b, q, k * r);
  }

  /** Scaling both arguments scales the gcd: `gcd(k a, k b) = k gcd(a, b)`. */
  lemma {:induction false} GcdScale(k: nat, a: nat, b: nat)
    requires k > 0
    ensures Gcd(k * a, k * b) == k * Gcd(a, b)
    decreases b
  {
    if b > 0 {
      ModScale(k, a, b);
      GcdScale(k, b, a % b);
    }
  }

  /** Dividing out the gcd leaves coprime cofactors. */
  lemma CofactorsCoprime(a: nat, b: nat)
    requires a > 0 && b > 0
    ensures Gcd(a, b) > 0
    ensures Divides(Gcd(a, b), a) && Divides(Gcd(a, b), b)
    ensures Gcd(a / Gcd(a, b), b / Gcd(a, b)) == 1
  {
    var g := Gcd(a, b);
    GcdDivides(a, b);
    var a', b' := a / g, b / g;
    assert a == g * a';
    assert b == g * b';
    GcdScale(g, a', b');
    assert g * Gcd(a', b') == g * 1;
  }

  /** Euclid's lemma: a divisor of `x a` coprime to `a` divides `x`. */
  lemma CoprimeDividesProduct(d: nat, a: nat, x: nat)
    requires d > 0 && Gcd(d, a) == 1 && Divides(d, x * a)
    ensures Divides(d, x)
  {
    if x == 0 {
      DividesMultiple(d, 0);
    } else {
      DividesMultiple(d, x);
      assert x * d == d * x;
      GcdGreatest(x * d, x * a, d);
      GcdScale(x, d, a);
    }
  }

  // ---------------------------------------------------------------------
  // Decimal digits

  /** The decimal digits of `n`, most significant first, as `n.toString()` writes them. */
  function Digits(n: nat): (ds: seq<nat>)
    ensures |ds| >= 1
    ensures forall i :: 0 <= i < |ds| ==> ds[i] < 10
    ensures ds[0] == 0 ==> n == 0
  {
    if n < 10 then [n] else Digits(n / 10) + [n % 10]
  }

  /** The number a digit sequence denotes in base 10. */
  function DigitsValue(ds: seq<nat>): nat
  {
    if |ds| == 0 then 0 else DigitsValue(ds[..|ds| - 1]) * 10 + ds[|ds| - 1]
  }

  lemma {:induction false} DigitsRoundTrip(n: nat)
    ensures DigitsValue(Digits(n)) == n
  {
    if n >= 10 {
      var ds := Digits(n / 10) + [n % 10];
      assert ds[..|ds| - 1] == Digits(n / 10);
      DigitsRoundTrip(n / 10);
    }
  }

  /** Distinct naturals have distinct decimal digit strings. */
  lemma DigitsInjective(m: nat, n: nat)
    requires Digits(m) == Digits(n)
    ensures m == n
  {
    DigitsRoundTrip(m);
    DigitsRoundTrip(n);
  }
}
