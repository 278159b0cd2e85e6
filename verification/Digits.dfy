// Decimal digits of a quotient, dtoa.c.

module Digits {
  // The digit loop of `dtoa` for a given number of digits, with its round-off, on
  // the numbers of Bigint.dfy.

  import opened Bigint

  // -------------------------------------------------------------------------
  // Arranging the divisor
  // -------------------------------------------------------------------------

  ghost predicate ShiftedTo(word: Word, k: nat, x: nat, least: nat) {
    x == word * Pow2(k) && x < B && (word > 0 ==> x >= least)
  }

  // `hi0bits`: how far a word can be shifted left until its top bit is set.
  method Hi0Bits(word: Word) returns (k: nat)
    ensures word == 0 ==> k == 32
    ensures word > 0 ==> k < 32 && 0x8000_0000 <= word * Pow2(k) < B
  {
    hide Pow2, ShiftedTo;
    var x := word;
    k := 0;
    NotShifted(word);
    if x < 0x1_0000 {
      ShiftMore(word, k, x, 1, 16, 0x1_0000);
      k := 16;
      x := x * 0x1_0000;
    } else {
      ShiftEnough(word, k, x, 1, 0x1_0000);
    }
    if x < 0x100_0000 {
      ShiftMore(word, k, x, 0x1_0000, 8, 0x100);
      k := k + 8;
      x := x * 0x100;
    } else {
      ShiftEnough(word, k, x, 0x1_0000, 0x100_0000);
    }
    if x < 0x1000_0000 {
      ShiftMore(word, k, x, 0x100_0000, 4, 0x10);
      k := k + 4;
      x := x * 0x10;
    } else {
      ShiftEnough(word, k, x, 0x100_0000, 0x1000_0000);
    }
    if x < 0x4000_0000 {
      ShiftMore(word, k, x, 0x1000_0000, 2, 4);
      k := k + 2;
      x := x * 4;
    } else {
      ShiftEnough(word, k, x, 0x1000_0000, 0x4000_0000);
    }
    LastShift(word, k, x);
    if x < 0x8000_0000 {
      k := k + 1;
      if x < 0x4000_0000 { return 32; }
    }
  }

  lemma NotShifted(word: Word)
    ensures ShiftedTo(word, 0, word, 1)
  {
    assert Pow2(0) == 1;
  }

  lemma ShiftMore(word: Word, k: nat, x: nat, least: nat, n: nat, p: nat)
    requires ShiftedTo(word, k, x, least) && x * p < B
    requires (n == 16 && p == 0x1_0000) || (n == 8 && p == 0x100) || (n == 4 && p == 0x10) || (n == 2 && p == 4)
    ensures ShiftedTo(word, k + n, x * p, least * p)
  {
    hide Pow2;
    Pow2Is32();
    ShiftedBy(word, k, n);
    if word > 0 { Carried(least, x, p); }
  }

  lemma ShiftEnough(word: Word, k: nat, x: nat, least: nat, more: nat)
    requires ShiftedTo(word, k, x, least) && x >= more
    ensures ShiftedTo(word, k, x, more)
  {
  }

  lemma LastShift(word: Word, k: nat, x: nat)
    requires ShiftedTo(word, k, x, 0x4000_0000)
    ensures x < B && (word == 0 ==> x == 0) && (word > 0 ==> x >= 0x4000_0000)
    ensures x == word * Pow2(k) && 2 * x == word * Pow2(k + 1)
  {
    hide Pow2;
    Pow2Is32();
    ShiftedBy(word, k, 1);
    assert word == 0 ==> word * Pow2(k) == 0;
  }

  lemma ShiftedBy(w: nat, k: nat, n: nat)
    ensures w * Pow2(k + n) == w * Pow2(k) * Pow2(n) && Pow2(0) == 1
  {
    Pow2Adds(k, n);
    assert w * (Pow2(k) * Pow2(n)) == w * Pow2(k) * Pow2(n);
  }

  // `dshift`: by how much to shift a divisor that is to be shifted by `p2`, so
  // that its top word has four leading zeros. It has `h` now.
  method DShift(b: Big, p2: int) returns (rv: nat, ghost h: nat)
    requires Normal(b)
    ensures TopBits(b.x[b.wds - 1], h)
    ensures rv < 32 && rv == (-4 + h - (if p2 > 0 then p2 else 0)) % 32
  {
    hide Pow2;
    var k := Hi0Bits(b.x[b.wds - 1]);
    h := k;
    var r := (k as int) - 4;
    if p2 > 0 { r := r - p2; }
    rv := r % 32;
  }

  ghost predicate TopBits(w: Word, h: nat) { h < 32 && 0x8000_0000 <= w * Pow2(h) < B }

  ghost predicate Arranged(S: Big)
    reads S, S.x
  {
    Normal(S) && 0x800_0000 <= S.x[S.wds - 1] < 0x1000_0000
  }

  // The number of words and the top word follow from the size of the number.
  lemma TopIs(s: seq<Word>, j: nat, lo: nat, hi: nat)
    requires s != [] && s[|s| - 1] != 0 && 0 < lo < hi <= B
    requires lo * Pow(j) <= Val(s) < hi * Pow(j)
    ensures |s| == j + 1 && lo <= s[j] < hi
  {
    hide Val, Pow;
    var n := |s| - 1;
    ValTop(s);
    ValBound(s);
    if n < j {
      PowGrows(n + 1, j);
      Carried(1, lo, Pow(j));
      assert false;
    }
    if n > j {
      PowUp(j);
      PowGrows(j + 1, n);
      Carried(1, s[n], Pow(n));
      Carried(hi, B, Pow(j));
      assert false;
    }
    if s[n] < lo { Carried(s[n] + 1, lo, Pow(j)); }
    if s[n] >= hi { Carried(hi, s[n], Pow(j)); }
  }

  // Shifting by what `dshift` says, or by 32 bits more a few times, arranges
  // the number.
  lemma ShiftArranges(s: seq<Word>, h: nat, k: nat, t: seq<Word>)
    requires s != [] && TopBits(s[|s| - 1], h) && t != [] && t[|t| - 1] != 0
    requires (k - (h - 4)) % 32 == 0 && Val(t) == Val(s) * Pow2(k)
    ensures 0x800_0000 <= t[|t| - 1] < 0x1000_0000
  {
    hide Val, Pow, Pow2, TopBits;
    var n := |s| - 1;
    var w := s[n];
    TopBitsAre(w, h);
    var m := (k + 4 - h) / 32;
    assert m >= 0 && k + 4 == h + 32 * m;
    ValTop(s);
    var p := Pow(n);
    Pow2Adds(k, 4);
    Pow2Adds(h, 32 * m);
    Pow2Is32();
    PowIsPow2(m);
    PowAdds(n, m);
    ShiftRange(Val(s), w, p, Pow2(k), Pow2(h), Pow(m), Val(t));
    TopIs(t, n + m, 0x800_0000, 0x1000_0000);
  }

  lemma TopBitsAre(w: Word, h: nat)
    requires TopBits(w, h)
    ensures 0x8000_0000 <= w * Pow2(h) && (w + 1) * Pow2(h) <= B && h < 32
  {
    hide Pow2;
    Pow2Adds(h, 32 - h);
    Pow2Is32();
    assert (w + 1) * Pow2(h) <= B by {
      if w >= Pow2(32 - h) {
        Carried(Pow2(32 - h), w, Pow2(h));
        assert Pow2(32 - h) * Pow2(h) == Pow2(h) * Pow2(32 - h);
      }
      Carried(w + 1, Pow2(32 - h), Pow2(h));
      assert Pow2(32 - h) * Pow2(h) == Pow2(h) * Pow2(32 - h);
    }
  }

  lemma ShiftRange(v: nat, w: nat, p: nat, pk: nat, ph: nat, pm: nat, t: nat)
    requires w * p <= v < (w + 1) * p && t == v * pk && pk * 16 == ph * pm
    requires 0x8000_0000 <= w * ph && (w + 1) * ph <= B && pk > 0
    ensures 0x800_0000 * (p * pm) <= t < 0x1000_0000 * (p * pm)
  {
    var u := p * pm;
    assert 16 * t == v * (ph * pm) by { assert v * pk * 16 == v * (pk * 16); }
    assert w * p * (ph * pm) == w * ph * u;
    assert (w + 1) * p * (ph * pm) == (w + 1) * ph * u;
    assert ph * pm > 0;
    Carried(w * p, v, ph * pm);
    Carried(0x8000_0000, w * ph, u);
    Carried((w + 1) * ph, B, u);
    Less(v, (w + 1) * p, ph * pm);
  }

  lemma Less(a: nat, b: nat, c: nat)
    requires a < b && c > 0
    ensures a * c < b * c
  {
    assert b * c == a * c + (b - a) * c;
    assert (b - a) * c > 0;
  }

  // The preparation of `b` and `S`: both are scaled by the same power of two
  // on top of the powers they still lack, and `S` gets its four leading zeros.
  method Arrange(b: Big, b2: nat, S: Big, s2: nat) returns (b1: Big, S1: Big, ghost i: nat)
    requires Normal(b) && Normal(S) && b != S && b.x != S.x
    ensures Normal(b1) && Arranged(S1) && b1 != S1 && b1.x != S1.x
    ensures b1.Value() == b.Value() * Pow2(b2 + i) && S1.Value() == S.Value() * Pow2(s2 + i)
    ensures (b1 == b || fresh(b1)) && (b1.x == b.x || fresh(b1.x)) && (S1 == S || fresh(S1)) && (S1.x == S.x || fresh(S1.x))
  {
    hide Val, Pow2, TopBits;
    ghost var h;
    var shift;
    shift, h := DShift(S, s2);
    i := shift;
    b1, S1 := b, S;
    Pow2Zero(b.Value(), S.Value());
    if b2 + shift > 0 { b1 := LShift(b, b2 + shift); }
    if s2 + shift > 0 { S1 := LShift(S, s2 + shift); }
    SameRemainder(h, s2, shift);
    ShiftArranges(S.Words(), h, s2 + shift, S1.Words());
  }

  lemma Pow2Zero(v: nat, w: nat)
    ensures v * Pow2(0) == v && w * Pow2(0) == w
  {
  }

  lemma SameRemainder(h: nat, s2: nat, shift: nat)
    requires shift == (h - 4 - s2) % 32
    ensures (s2 + shift - (h - 4)) % 32 == 0
  {
  }

  // -------------------------------------------------------------------------
  // Decimal digits
  // -------------------------------------------------------------------------

  type Digit = d: nat | d < 10

  function Num(s: seq<Digit>): nat {
    if s == [] then 0 else 10 * Num(s[..|s| - 1]) + s[|s| - 1]
  }

  function Pow10(n: nat): (p: nat)
    ensures p > 0
  {
    if n == 0 then 1 else 10 * Pow10(n - 1)
  }

  // `n / d` rounded to the nearest integer, to the even one of two.
  function RoundHalfEven(n: nat, d: nat): nat
    requires d > 0
  {
    var q, r := n / d, n % d;
    if 2 * r > d || (2 * r == d && q % 2 == 1) then q + 1 else q
  }

  lemma NumAppend(s: seq<Digit>, d: Digit)
    ensures Num(s + [d]) == 10 * Num(s) + d
  {
    assert (s + [d])[..|s|] == s;
  }

  // The digits `s`, with the decimal point after the first one and the exponent
  // raised by `up`, stand for the number `n` with the point before its last
  // `ilim - 1` digits.
  ghost predicate StandsFor(s: seq<Digit>, up: nat, ilim: nat, n: nat) {
    && 0 < |s| <= ilim && up <= 1
    && s[0] != 0 && s[|s| - 1] != 0
    && Num(s) * Pow10(ilim + up - |s|) == n
  }

  // What the loop has after `i` digits.
  ghost predicate Progress(s: seq<Digit>, i: nat, b: nat, b0: nat, d: nat) {
    && |s| == i > 0 && s[0] != 0 && b < d
    && Num(s) * d + b == b0 * Pow10(i - 1)
  }

  lemma FirstDigit(b0: nat, d: nat, q: nat, b: nat)
    requires d <= b0 < 10 * d && q == b0 / d && b == b0 % d
    ensures 0 < q < 10 && Progress([q], 1, b, b0, d)
  {
    DivMod(b0, d);
    assert q > 0;
    if q >= 10 { Carried(10, q, d); }
    assert [q][..0] == [];
  }

  lemma NextDigit(s: seq<Digit>, i: nat, b0: nat, d: nat, b: nat, q: nat, r: nat)
    requires Progress(s, i, b, b0, d) && q == b * 10 / d && r == b * 10 % d
    ensures q < 10 && Progress(s + [q], i + 1, r, b0, d)
  {
    hide Num, Pow10;
    DivMod(b * 10, d);
    if q >= 10 { Carried(10, q, d); }
    NumAppend(s, q);
    Pow10Next(i - 1);
    TenFold(Num(s), d, b, b0, Pow10(i - 1), q, r);
  }

  lemma TenFold(v: nat, d: nat, b: nat, b0: nat, p: nat, q: nat, r: nat)
    requires v * d + b == b0 * p && b * 10 == q * d + r
    ensures (10 * v + q) * d + r == b0 * (10 * p)
  {
    assert (10 * v + q) * d == 10 * (v * d) + q * d;
    assert b0 * (10 * p) == 10 * (b0 * p);
  }

  // When nothing remains, the digits are exact, and the last one is not zero.
  lemma ExactEnd(s: seq<Digit>, i: nat, b0: nat, d: nat, ilim: nat)
    requires Progress(s, i, 0, b0, d) && i <= ilim && s[i - 1] != 0
    ensures StandsFor(s, 0, ilim, RoundHalfEven(b0 * Pow10(ilim - 1), d))
  {
    hide Num, Pow10;
    Pow10Adds(i - 1, ilim - i);
    var n := Num(s) * Pow10(ilim - i);
    Scaled(Num(s), d, b0, Pow10(i - 1), Pow10(ilim - i));
    QuotientIs(b0 * Pow10(ilim - 1), d, n, 0);
  }

  lemma Scaled(v: nat, d: nat, b0: nat, p: nat, q: nat)
    requires v * d == b0 * p
    ensures d * (v * q) + 0 == b0 * (p * q)
  {
    assert d * (v * q) == v * d * q;
    assert b0 * (p * q) == b0 * p * q;
  }

  lemma {:induction false} Pow10Adds(a: nat, b: nat)
    ensures Pow10(a + b) == Pow10(a) * Pow10(b)
    decreases a
  {
    if a > 0 {
      Pow10Adds(a - 1, b);
      assert Pow10(a + b) == 10 * Pow10(a - 1 + b);
      assert 10 * (Pow10(a - 1) * Pow10(b)) == 10 * Pow10(a - 1) * Pow10(b);
    }
  }

  // A last digit that is followed by a remainder, and then by none.
  lemma LastNotZero(d: nat, b: nat, q: nat, r: nat)
    requires d > 0 && 0 < b && q == b * 10 / d && r == b * 10 % d && r == 0
    ensures q != 0
  {
    DivMod(b * 10, d);
    assert 0 * d == 0;
  }

  // The quotient behind all the digits.
  lemma AllDigits(s: seq<Digit>, ilim: nat, b: nat, b0: nat, d: nat)
    requires Progress(s, ilim, b, b0, d)
    ensures d > 0 && b0 * Pow10(ilim - 1) / d == Num(s) && b0 * Pow10(ilim - 1) % d == b
    ensures Num(s) % 2 == s[ilim - 1] % 2
  {
    assert d * Num(s) == Num(s) * d;
    QuotientIs(b0 * Pow10(ilim - 1), d, Num(s), b);
  }

  // -------------------------------------------------------------------------
  // Round-off
  // -------------------------------------------------------------------------

  // `roundoff`: adds one to the last digit; nines are dropped and carry. `up`
  // tells that the carry went out of the first digit.
  method RoundUp(digits: seq<Digit>) returns (s: seq<Digit>, up: nat)
    requires digits != [] && digits[0] != 0
    ensures StandsFor(s, up, |digits|, Num(digits) + 1)
  {
    hide Pow10, Num;
    s := digits;
    up := 0;
    Pow10Zero();
    NumNothing();
    while s != [] && s[|s| - 1] == 9
      invariant 0 <= |s| <= |digits| && (s != [] ==> s[0] == digits[0])
      invariant (Num(s) + 1) * Pow10(|digits| - |s|) == Num(digits) + 1
      decreases |s|
    {
      ghost var before := s;
      s := s[..|s| - 1];
      assert before == s + [9];
      NumAppend(s, 9);
      Pow10Next(|digits| - |before|);
      NineDropped(Num(s), Pow10(|digits| - |before|));
    }
    if s == [] {
      up := 1;
      s := [1];
      NumAppend([], 1);
      assert [] + [1] == s;
    } else {
      var d: nat := s[|s| - 1];
      ghost var low := s[..|s| - 1];
      assert s == low + [d];
      NumAppend(low, d);
      NumAppend(low, d + 1);
      s := s[..|s| - 1] + [d + 1];
    }
  }

  lemma NineDropped(v: nat, p: nat)
    ensures (10 * v + 9 + 1) * p == (v + 1) * (10 * p)
  {
  }

  lemma NumNothing()
    ensures Num([]) == 0
  {
  }

  lemma Pow10Zero()
    ensures Pow10(0) == 1
  {
  }

  lemma Pow10Next(n: nat)
    ensures Pow10(n + 1) == 10 * Pow10(n)
  {
  }

  lemma ZeroDropped(v: nat, p: nat)
    ensures (10 * v + 0) * p == v * (10 * p)
  {
  }

  // `trimzeros`
  method TrimZeros(digits: seq<Digit>) returns (s: seq<Digit>)
    requires digits != [] && digits[0] != 0
    ensures StandsFor(s, 0, |digits|, Num(digits))
  {
    hide Pow10, Num;
    s := digits;
    Pow10Zero();
    while s[|s| - 1] == 0
      invariant 0 < |s| <= |digits| && s[0] == digits[0]
      invariant Num(s) * Pow10(|digits| - |s|) == Num(digits)
      decreases |s|
    {
      ghost var before := s;
      s := s[..|s| - 1];
      assert before == s + [0];
      NumAppend(s, 0);
      Pow10Next(|digits| - |before|);
      ZeroDropped(Num(s), Pow10(|digits| - |before|));
    }
  }

  // -------------------------------------------------------------------------
  // The digit loop
  // -------------------------------------------------------------------------

  // Ten times what is left is not longer than the divisor: that is what its
  // leading zeros are for.
  lemma TenTimesFits(s: seq<Word>, t: seq<Word>)
    requires t != [] && t[|t| - 1] < 0x1000_0000 && Val(s) < 10 * Val(t)
    requires |s| >= 2 ==> s[|s| - 1] != 0
    ensures |s| <= |t|
  {
    hide Val, Pow;
    TenTimesBelow(t);
    if |s| > |t| { AtLeastPow(s, |t|); }
  }

  lemma TenTimesBelow(t: seq<Word>)
    requires t != [] && t[|t| - 1] < 0x1000_0000
    ensures 10 * Val(t) <= Pow(|t|)
  {
    hide Val, Pow;
    var n := |t| - 1;
    ValTop(t);
    PowUp(n);
    Carried(10 * (t[n] + 1), B, Pow(n));
    assert 10 * ((t[n] + 1) * Pow(n)) == 10 * (t[n] + 1) * Pow(n);
  }

  lemma AtLeastPow(s: seq<Word>, n: nat)
    requires |s| > n && s[|s| - 1] != 0
    ensures Val(s) >= Pow(n)
  {
    hide Val, Pow;
    ValTop(s);
    PowGrows(n, |s| - 1);
    Carried(1, s[|s| - 1], Pow(|s| - 1));
  }

  // Nothing remains.
  predicate Nothing(b: Big)
    reads b, b.x
    requires b.x.Length > 0
  {
    b.x[0] == 0 && b.wds <= 1
  }

  lemma NothingIsZero(b: Big)
    requires b.Valid()
    ensures Nothing(b) <==> b.Value() == 0
    ensures b.Value() > 0 ==> Normal(b)
  {
    hide Val;
    if b.wds <= 1 {
      if b.wds == 1 { SingleWord(b.Words()); } else { ValNothing(); }
    } else {
      PositiveTop(b.Words());
    }
  }

  // The next digit: `b` times ten, divided by `S`.
  method TenTimes(b: Big, S: Big) returns (b1: Big)
    requires Divides(b, S) && b.Value() < S.Value()
    modifies b, b.x
    ensures Divides(b1, S) && b1.Value() == old(b.Value()) * 10 && S.Value() == old(S.Value())
    ensures (b1 == b || fresh(b1)) && (b1.x == old(b.x) || fresh(b1.x))
  {
    hide Val;
    b1 := MultAdd(b, 10, 0);
    TenTimesFits(b1.Words(), S.Words());
  }

  // The body of the loop: the next digit.
  method NextOf(b: Big, S: Big, ghost s: seq<Digit>, ghost i: nat, ghost v0: nat) returns (b1: Big, dig: nat)
    requires Divides(b, S) && b.Value() > 0 && Progress(s, i, b.Value(), v0, S.Value())
    modifies b, b.x
    ensures Divides(b1, S) && S.Value() == old(S.Value())
    ensures dig < 10 && Progress(s + [dig], i + 1, b1.Value(), v0, S.Value())
    ensures b1.Value() == 0 ==> dig != 0
    ensures (b1 == b || fresh(b1)) && (b1.x == old(b.x) || fresh(b1.x))
  {
    hide Val, Num, Pow10, Progress;
    ghost var left, d := b.Value(), S.Value();
    ProgressParts(s, i, left, v0, d);
    b1 := TenTimes(b, S);
    dig := QuoRem(b1, S);
    NextDigit(s, i, v0, d, left, dig, b1.Value());
    if b1.Value() == 0 { LastNotZero(d, left, dig, 0); }
  }

  lemma ProgressParts(s: seq<Digit>, i: nat, b: nat, b0: nat, d: nat)
    requires Progress(s, i, b, b0, d)
    ensures |s| == i > 0 && s[0] != 0 && b < d
  {
  }

  lemma Rounded(n: nat, d: nat)
    requires d > 0
    ensures RoundHalfEven(n, d) ==
            if 2 * (n % d) > d || (2 * (n % d) == d && n / d % 2 == 1) then n / d + 1 else n / d
  {
  }

  // The loop of `dtoa` for `ilim` digits, and the round-off. The digits, with
  // the exponent raised by `up`, are the quotient `b / S` rounded half to even
  // to `ilim` digits, without trailing zeros.
  method Generate(b0: Big, S: Big, ilim: nat) returns (s: seq<Digit>, up: nat)
    requires ilim > 0 && Divides(b0, S) && S.Value() <= b0.Value() < 10 * S.Value()
    modifies b0, b0.x
    ensures S.Value() > 0
    ensures StandsFor(s, up, ilim, RoundHalfEven(old(b0.Value()) * Pow10(ilim - 1), S.Value()))
  {
    hide Val, Num, Pow10, RoundHalfEven, Progress, StandsFor;
    ghost var v0, d := b0.Value(), S.Value();
    var b := b0;
    var dig := QuoRem(b, S);
    FirstDigit(v0, d, dig, b.Value());
    s, up := [dig], 0;
    var i := 1;
    while true
      invariant Divides(b, S) && S.Value() == d
      invariant (b == b0 || fresh(b)) && (b.x == old(b0.x) || fresh(b.x))
      invariant 0 < i <= ilim && |s| == i && Progress(s, i, b.Value(), v0, d)
      invariant b.Value() == 0 ==> s[i - 1] != 0
      decreases ilim - i
    {
      NothingIsZero(b);
      if Nothing(b) {
        ExactEnd(s, i, v0, d, ilim);
        return;
      }
      if i >= ilim { break; }
      b, dig := NextOf(b, S, s, i, v0);
      s := s + [dig];
      i := i + 1;
    }
    AllDigits(s, ilim, b.Value(), v0, d);
    ProgressParts(s, ilim, b.Value(), v0, d);
    s, up := RoundOff(s, b, S);
    Rounded(v0 * Pow10(ilim - 1), d);
  }

  // What follows the loop: twice the remainder against the divisor.
  method RoundOff(digits: seq<Digit>, b: Big, S: Big) returns (s: seq<Digit>, up: nat)
    requires digits != [] && digits[0] != 0 && Normal(b) && Normal(S) && b.Value() < S.Value()
    ensures var d := S.Value();
            StandsFor(s, up, |digits|,
                      if 2 * b.Value() > d || (2 * b.Value() == d && digits[|digits| - 1] % 2 == 1)
                      then Num(digits) + 1 else Num(digits))
  {
    hide Val, Num, Pow10, StandsFor;
    PositiveTop(S.Words());
    Pow2One();
    var b2 := LShift(b, 1);
    var j := Cmp(b2, S);
    if j > 0 || (j == 0 && digits[|digits| - 1] % 2 == 1) {
      s, up := RoundUp(digits);
    } else {
      s := TrimZeros(digits);
      up := 0;
    }
  }

  lemma Pow2One()
    ensures Pow2(1) == 2
  {
  }

  // -------------------------------------------------------------------------
  // From two numbers to digits
  // -------------------------------------------------------------------------

  lemma BelowScaled(n: nat, d: nat, c: nat)
    requires c > 0 && d <= n < 10 * d
    ensures d * c <= n * c < 10 * (d * c)
  {
    Carried(d, n, c);
    Less(n, 10 * d, c);
    assert 10 * d * c == 10 * (d * c);
  }

  // A common factor does not matter for rounding.
  lemma SameRounded(n: nat, d: nat, c: nat)
    requires c > 0 && d > 0
    ensures d * c > 0 && RoundHalfEven(n * c, d * c) == RoundHalfEven(n, d)
  {
    var q, r := n / d, n % d;
    DivMod(n, d);
    assert n * c == (q * d + r) * c == d * c * q + r * c;
    Less(r, d, c);
    Less(0, d, c);
    QuotientIs(n * c, d * c, q, r * c);
    if 2 * r > d { Less(d, 2 * r, c); }
    if 2 * r < d { Less(2 * r, d, c); }
    assert 2 * r * c == 2 * (r * c);
  }

  lemma SplitFactor(v: nat, k: nat, i: nat)
    ensures v * Pow2(k + i) == v * Pow2(k) * Pow2(i) && Pow2(i) > 0
  {
    hide Pow2;
    ShiftedBy(v, k, i);
  }

  // What is known of the scaled numbers.
  lemma ScaledAlike(v: nat, d: nat, c: nat, p: nat)
    requires c > 0 && d <= v < 10 * d
    ensures d * c <= v * c < 10 * (d * c) && d * c > 0
    ensures RoundHalfEven(v * c * p, d * c) == RoundHalfEven(v * p, d)
  {
    hide RoundHalfEven;
    BelowScaled(v, d, c);
    SameRounded(v * p, d, c);
    assert v * p * c == v * c * p;
  }

  lemma ArrangedDivides(b: Big, S: Big)
    requires Normal(b) && Arranged(S) && b != S && b.x != S.x && b.Value() < 10 * S.Value()
    ensures Divides(b, S)
  {
    hide Val;
    TenTimesFits(b.Words(), S.Words());
  }

  // The numbers, with the powers of two they still lack, are arranged and divided:
  // the digits are their quotient, rounded half to even to `ilim` digits.
  method Convert(b: Big, b2: nat, S: Big, s2: nat, ilim: nat) returns (s: seq<Digit>, up: nat)
    requires Normal(b) && Normal(S) && b != S && b.x != S.x && ilim > 0
    requires S.Value() * Pow2(s2) <= b.Value() * Pow2(b2) < 10 * (S.Value() * Pow2(s2))
    modifies b, b.x
    ensures old(S.Value()) * Pow2(s2) > 0
    ensures StandsFor(s, up, ilim,
                      RoundHalfEven(old(b.Value()) * Pow2(b2) * Pow10(ilim - 1), old(S.Value()) * Pow2(s2)))
  {
    hide Val, Pow2, Pow10, RoundHalfEven, StandsFor, Divides;
    ghost var v, d := b.Value() * Pow2(b2), S.Value() * Pow2(s2);
    ghost var p := Pow10(ilim - 1);
    ghost var vb, vs := b.Value(), S.Value();
    var b1, S1;
    ghost var i;
    b1, S1, i := Arrange(b, b2, S, s2);
    SplitFactor(vb, b2, i);
    SplitFactor(vs, s2, i);
    ghost var c := Pow2(i);
    ScaledAlike(v, d, c, p);
    assert b1.Value() == v * c && S1.Value() == d * c;
    ArrangedDivides(b1, S1);
    s, up := Generate(b1, S1, ilim);
  }
}
