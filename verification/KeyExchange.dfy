// The key exchange of lua-crypt.c.

module KeyExchange {
  // Arithmetic modulo the largest prime below 2^64, with wrapping 64-bit operations
  // only.


  const WRAP64 := 0x1_0000_0000_0000_0000
  const P := 0xffff_ffff_ffff_ffc5
  const G := 5

  type Word64 = x: int | 0 <= x < WRAP64

  // `x * 2 - P` in 64 bits.
  function TwiceLessP(x: Word64): Word64 { (x * 2 % WRAP64 + WRAP64 - P) % WRAP64 }

  function Power(a: nat, n: nat): nat {
    if n == 0 then 1 else a * Power(a, n - 1)
  }

  // -------------------------------------------------------------------------
  // Congruence
  // -------------------------------------------------------------------------

  ghost predicate Congruent(x: int, y: int) { x % P == y % P }

  lemma Moved(x: int, y: int, k: int)
    requires x == y + k * P
    ensures Congruent(x, y)
  {
    var q, r := y / P, y % P;
    assert x == (q + k) * P + r;
  }

  lemma Multiple(x: int) returns (k: int)
    ensures x == x % P + k * P
  {
    k := x / P;
  }

  // Factors may be reduced.
  lemma Product(x: int, y: int, u: int, v: int)
    requires Congruent(x, u) && Congruent(y, v)
    ensures Congruent(x * y, u * v)
  {
    var kx := Multiple(x);
    var ky := Multiple(y);
    var ku := Multiple(u);
    var kv := Multiple(v);
    var r, t := x % P, y % P;
    ReducedProduct(x, y, r, t, kx, ky);
    ReducedProduct(u, v, r, t, ku, kv);
  }

  lemma ReducedProduct(x: int, y: int, r: int, t: int, kx: int, ky: int)
    requires x == r + kx * P && y == t + ky * P
    ensures Congruent(x * y, r * t)
  {
    assert x * y == r * t + (r * ky + kx * t + kx * ky * P) * P by { Expanded(r, t, kx, ky, P); }
    Moved(x * y, r * t, r * ky + kx * t + kx * ky * P);
  }

  lemma Expanded(r: int, t: int, kx: int, ky: int, p: int)
    ensures (r + kx * p) * (t + ky * p) == r * t + (r * ky + kx * t + kx * ky * p) * p
  {
  }

  // -------------------------------------------------------------------------
  // Multiplication
  // -------------------------------------------------------------------------

  // One round: the sum of `m` and `a * b` stays the same modulo P.
  lemma RoundKeeps(m: nat, a: nat, b: nat, m1: nat, a1: nat)
    requires m1 == m + (if b % 2 == 1 then a else 0) || m1 + P == m + (if b % 2 == 1 then a else 0)
    requires a1 == 2 * a || a1 + P == 2 * a
    ensures Congruent(m1 + a1 * (b / 2), m + a * b)
  {
    var h, low := b / 2, b % 2;
    var d: int := if m1 == m + low * a then 0 else 1;
    var e: int := if a1 == 2 * a then 0 else 1;
    assert b == 2 * h + low;
    assert m1 == m + low * a - d * P && a1 == 2 * a - e * P;
    assert m1 + a1 * h == m + a * b + (-d - e * h) * P by { RoundSum(m, a, h, low, d, e, P); }
    Moved(m1 + a1 * h, m + a * b, -d - e * h);
  }

  lemma RoundSum(m: int, a: int, h: int, low: int, d: int, e: int, p: int)
    ensures m + low * a - d * p + (2 * a - e * p) * h == m + a * (2 * h + low) + (-d - e * h) * p
  {
  }

  lemma TwiceIs(a: Word64)
    requires P <= 2 * a && a <= P
    ensures TwiceLessP(a) == 2 * a - P
  {
  }

  // The two updates in a round.
  method AddIn(m: Word64, a: Word64) returns (m1: Word64)
    requires m < P && a <= P
    ensures m1 < P && (m1 == m + a || m1 + P == m + a)
  {
    var t := P - a;
    if m >= t { m1 := m - t; } else { m1 := m + a; }
  }

  method Twice(a: Word64) returns (a1: Word64)
    requires a <= P
    ensures a1 <= P && (a1 == 2 * a || a1 + P == 2 * a)
  {
    hide TwiceLessP;
    if a >= P - a {
      TwiceIs(a);
      a1 := TwiceLessP(a);
    } else {
      a1 := a * 2;
    }
  }

  lemma Finished(m: nat, a: nat, x: int)
    requires m < P && Congruent(m + a * 0, x)
    ensures m == x % P
  {
  }

  // `mul_mod_p`: no sum or difference in it leaves the 64 bits, and the result
  // is the product.
  method MulModP(a0: Word64, b0: Word64) returns (m: Word64)
    requires a0 <= P
    ensures m == a0 * b0 % P
  {
    hide Congruent;
    var a: Word64 := a0;
    var b: Word64 := b0;
    m := 0;
    assert Congruent(0 + a * b, a0 * b0) by { SameCongruent(a * b); }
    while b != 0
      invariant a <= P && m < P
      invariant Congruent(m + a * b, a0 * b0)
      decreases b
    {
      ghost var m0: nat, a1: nat := m, a;
      if b % 2 == 1 { m := AddIn(m, a); }
      a := Twice(a);
      RoundKeeps(m0, a1, b, m, a);
      Chained(m + a * (b / 2), m0 + a1 * b, a0 * b0);
      b := b / 2;
    }
    Finished(m, a, a0 * b0);
  }

  lemma SameCongruent(x: int)
    ensures Congruent(0 + x, x)
  {
  }

  lemma Chained(x: int, y: int, z: int)
    requires Congruent(x, y) && Congruent(y, z)
    ensures Congruent(x, z)
  {
  }

  // -------------------------------------------------------------------------
  // Powers
  // -------------------------------------------------------------------------

  lemma {:induction false} PowerAdds(a: nat, m: nat, n: nat)
    ensures Power(a, m + n) == Power(a, m) * Power(a, n)
    decreases m
  {
    if m > 0 {
      PowerAdds(a, m - 1, n);
      Regrouped(a, Power(a, m - 1), Power(a, n));
    }
  }

  lemma Regrouped(x: nat, y: nat, z: nat)
    ensures x * (y * z) == (x * y) * z
  {
  }

  lemma {:induction false} PowerReduced(a: nat, b: nat, n: nat)
    requires Congruent(a, b)
    ensures Congruent(Power(a, n), Power(b, n))
  {
    if n > 0 {
      PowerReduced(a, b, n - 1);
      Product(a, Power(a, n - 1), b, Power(b, n - 1));
    }
  }

  lemma {:induction false} PowerOfPower(a: nat, m: nat, n: nat)
    ensures Power(Power(a, m), n) == Power(a, m * n)
    decreases n
  {
    if n == 0 {
      assert m * 0 == 0;
    } else {
      PowerOfPower(a, m, n - 1);
      PowerAdds(a, m, m * (n - 1));
      assert m + m * (n - 1) == m * n;
    }
  }

  lemma PowerOne(a: nat)
    ensures Power(a, 1) == a
  {
    assert Power(a, 0) == 1;
  }

  // Squaring the power of half the exponent, and once more the base if the
  // exponent is odd.
  lemma HalfPower(a: nat, b: nat, t: nat)
    requires Congruent(t, Power(a, b / 2))
    ensures Congruent(t * t, Power(a, b - b % 2))
    ensures b % 2 == 1 ==> Congruent(t * t * a, Power(a, b))
  {
    var h := b / 2;
    Product(t, t, Power(a, h), Power(a, h));
    PowerAdds(a, h, h);
    assert b - b % 2 == h + h;
    if b % 2 == 1 {
      Product(t * t, a, Power(a, h + h), a);
      PowerAdds(a, h + h, 1);
      PowerOne(a);
    }
  }

  lemma SquaredThenTimes(x: nat, y: nat, a: nat)
    requires x == y % P
    ensures Congruent(x * a, y * a)
  {
    assert x % P == x;
    Product(x, a, y, a);
  }

  // `pow_mod_p`
  method PowModP(a: Word64, b: Word64) returns (r: Word64)
    requires a <= P && b > 0
    ensures r == if b == 1 then a else Power(a, b) % P
    decreases b
  {
    hide Congruent, Power;
    if b == 1 { return a; }
    var t := PowModP(a, b / 2);
    Halfway(a, b / 2, t);
    HalfPower(a, b, t);
    r := MulModP(t, t);
    if b % 2 == 1 {
      SquaredThenTimes(r, t * t, a);
      Chained(r * a, t * t * a, Power(a, b));
      var u := MulModP(r, a);
      Reduced(r * a, Power(a, b));
      return u;
    }
    Reduced(t * t, Power(a, b));
  }

  lemma Reduced(x: int, y: int)
    requires Congruent(x, y)
    ensures x % P == y % P
  {
  }

  lemma Halfway(a: Word64, h: nat, t: Word64)
    requires t == if h == 1 then a else Power(a, h) % P
    ensures Congruent(t, Power(a, h))
  {
    PowerOne(a);
  }

  // `powmodp`: the power modulo P, except for P itself to the power of one,
  // which is not reduced.
  method PowerModP(a: Word64, b: Word64) returns (r: Word64)
    requires b > 0
    ensures r == Power(a, b) % P <==> !(a == P && b == 1)
    ensures a == P && b == 1 ==> r == P
  {
    var a1 := if a > P then a % P else a;
    PowerReduced(a1, a, b);
    PowerOne(a);
    r := PowModP(a1, b);
  }

  // -------------------------------------------------------------------------
  // The exchange
  // -------------------------------------------------------------------------

  datatype Reply = Key(value: Word64) | Zero

  // `dhexchange`: the public key for a private one.
  method Exchange(x: Word64) returns (r: Reply)
    ensures x == 0 ==> r == Zero
    ensures x != 0 ==> r == Key(Power(G, x) % P)
  {
    if x == 0 { return Zero; }
    var y := PowerModP(G, x);
    return Key(y);
  }

  // `dhsecret`: the secret from a public key and a private one.
  method Secret(x: Word64, y: Word64) returns (r: Reply)
    ensures x == 0 || y == 0 ==> r == Zero
    ensures x != 0 && y != 0 && !(x == P && y == 1) ==> r == Key(Power(x, y) % P)
  {
    if x == 0 || y == 0 { return Zero; }
    var k := PowerModP(x, y);
    return Key(k);
  }

  lemma DividedByFive(y: nat)
    ensures 5 * y % P == 0 ==> y % P == 0
  {
    if 5 * y % P == 0 {
      var q := 5 * y / P;
      assert 5 * y == P * q;
      FiveDivides(q);
      assert y == P * (q / 5);
    }
  }

  lemma FiveDivides(q: int)
    requires P * q % 5 == 0
    ensures q % 5 == 0
  {
  }

  // P does not divide a power of 5.
  lemma {:induction false} NeverZero(n: nat)
    ensures Power(G, n) % P != 0
  {
    if n > 0 {
      NeverZero(n - 1);
      DividedByFive(Power(G, n - 1));
    }
  }

  // Neither exchange is refused, and both sides come to the same secret.
  method Agree(x: Word64, y: Word64) returns (a: Reply, b: Reply)
    requires x != 0 && y != 0
    ensures a == b && a.Key? && a.value == Power(G, x * y) % P
  {
    var px := Exchange(x);
    var py := Exchange(y);
    NeverZero(x);
    NeverZero(y);
    a := Secret(py.value, x);
    b := Secret(px.value, y);
    SameSecret(x, y);
    SameSecret(y, x);
    assert x * y == y * x;
  }

  lemma SameSecret(x: nat, y: nat)
    ensures Power(Power(G, x) % P, y) % P == Power(G, x * y) % P
  {
    PowerReduced(Power(G, x) % P, Power(G, x), y);
    PowerOfPower(G, x, y);
  }
}
