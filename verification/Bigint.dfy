// Multiword arithmetic of dtoa.c.

module Bigint {
  // The variant with 32-bit words and 64-bit products, proved to compute exact
  // values.

  const B := 0x1_0000_0000
  const WRAP64 := 0x1_0000_0000_0000_0000

  type Word = w: nat | w < 0x1_0000_0000

  // B to the power n.
  function Pow(n: nat): (p: nat)
    ensures p > 0
  {
    if n == 0 then 1 else B * Pow(n - 1)
  }

  // The number whose words are `s`, lowest first.
  function Val(s: seq<Word>): nat {
    if s == [] then 0 else Val(s[..|s| - 1]) + s[|s| - 1] * Pow(|s| - 1)
  }

  lemma ValAppend(s: seq<Word>, w: Word)
    ensures Val(s + [w]) == Val(s) + w * Pow(|s|)
  {
    assert (s + [w])[..|s|] == s;
  }

  lemma ValPrefix(s: seq<Word>, i: nat)
    requires i < |s|
    ensures Val(s[..i + 1]) == Val(s[..i]) + s[i] * Pow(i)
  {
    assert s[..i + 1] == s[..i] + [s[i]];
    ValAppend(s[..i], s[i]);
  }

  lemma {:induction false} ValBound(s: seq<Word>)
    ensures Val(s) < Pow(|s|)
    decreases |s|
  {
    if s != [] {
      var n := |s| - 1;
      ValBound(s[..n]);
      Carried(s[n], B - 1, Pow(n));
    }
  }

  lemma Monotonic(a: int, b: int, p: nat)
    ensures a <= b ==> a * p <= b * p
  {
    if a <= b { assert (b - a) * p >= 0; }
  }

  lemma Carried(w: nat, most: nat, p: nat)
    requires w <= most
    ensures w * p <= most * p
  {
  }

  // Words of zeros on top change nothing.
  lemma {:induction false} ValZeros(s: seq<Word>, n: nat)
    requires n <= |s| && forall i :: n <= i < |s| ==> s[i] == 0
    ensures Val(s) == Val(s[..n])
    decreases |s|
  {
    if n < |s| {
      var m := |s| - 1;
      ValZeros(s[..m], n);
      assert s[..m][..n] == s[..n];
      assert s[m] * Pow(m) == 0;
    } else {
      assert s[..n] == s;
    }
  }

  // A number with a top word is at least that word times its weight.
  lemma ValTop(s: seq<Word>)
    requires s != []
    ensures s[|s| - 1] * Pow(|s| - 1) <= Val(s) < (s[|s| - 1] + 1) * Pow(|s| - 1)
  {
    var n := |s| - 1;
    ValBound(s[..n]);
    assert (s[n] + 1) * Pow(n) == s[n] * Pow(n) + Pow(n);
  }

  class Big {
    var x: array<Word>
    var wds: nat

    ghost predicate Valid()
      reads this, x
    {
      && 0 < x.Length && wds <= x.Length
      && (wds == 0 ==> x[0] == 0)
      && (wds >= 2 ==> x[wds - 1] != 0)
    }

    ghost function Words(): seq<Word>
      reads this, x
      requires wds <= x.Length
    {
      x[..wds]
    }

    ghost function Value(): nat
      reads this, x
      requires wds <= x.Length
    {
      Val(Words())
    }

    // `Balloc`
    constructor (maxwds: nat)
      requires maxwds > 0
      ensures fresh(x) && x.Length == maxwds && wds == 0
      ensures forall i :: 0 <= i < maxwds ==> x[i] == 0
    {
      x := new Word[maxwds](_ => 0);
      wds := 0;
    }
  }

  // -------------------------------------------------------------------------
  // multadd
  // -------------------------------------------------------------------------

  lemma MulStep(done: nat, before: nat, w: nat, m: nat, a: nat, carry: nat, p: nat)
    requires done + carry * p == before * m + a
    ensures var y := w * m + carry;
            done + (y % B) * p + (y / B) * (B * p) == (before + w * p) * m + a
  {
    var y := w * m + carry;
    assert y == (y / B) * B + y % B;
    assert (y / B) * (B * p) + (y % B) * p == y * p by {
      assert (y / B) * (B * p) == ((y / B) * B) * p;
      assert ((y / B) * B) * p + (y % B) * p == ((y / B) * B + y % B) * p;
    }
    assert y * p == (w * p) * m + carry * p by {
      assert (w * m + carry) * p == w * m * p + carry * p;
      assert w * m * p == (w * p) * m;
    }
    assert (before + w * p) * m == before * m + (w * p) * m;
  }

  lemma CarryFits(w: Word, m: nat, carry: nat)
    requires m < B && carry < B
    ensures w * m + carry < WRAP64 && (w * m + carry) / B < B
  {
    assert w * m <= (B - 1) * (B - 1) by {
      Carried(w, B - 1, m);
      assert (B - 1) * m <= (B - 1) * (B - 1);
    }
  }

  // The carry after the words of `s`, and the words that are stored.
  function MulCarry(s: seq<Word>, m: nat, a: nat): nat {
    if s == [] then a else (s[|s| - 1] * m + MulCarry(s[..|s| - 1], m, a)) / B
  }

  function MulWords(s: seq<Word>, m: nat, a: nat): (r: seq<Word>)
    ensures |r| == |s|
  {
    if s == [] then []
    else
      MulWords(s[..|s| - 1], m, a) + [(s[|s| - 1] * m + MulCarry(s[..|s| - 1], m, a)) % B]
  }

  lemma {:induction false} MulCarryFits(s: seq<Word>, m: nat, a: nat)
    requires m < B && a < B
    ensures MulCarry(s, m, a) < B
    decreases |s|
  {
    if s != [] {
      MulCarryFits(s[..|s| - 1], m, a);
      CarryFits(s[|s| - 1], m, MulCarry(s[..|s| - 1], m, a));
    }
  }

  lemma {:induction false} MulExact(s: seq<Word>, m: nat, a: nat)
    ensures Val(MulWords(s, m, a)) + MulCarry(s, m, a) * Pow(|s|) == Val(s) * m + a
    decreases |s|
  {
    if s != [] {
      var n := |s| - 1;
      var carry := MulCarry(s[..n], m, a);
      MulExact(s[..n], m, a);
      MulStep(Val(MulWords(s[..n], m, a)), Val(s[..n]), s[n], m, a, carry, Pow(n));
      ValAppend(MulWords(s[..n], m, a), (s[n] * m + carry) % B);
    }
  }

  // A top word that is not zero stays so if nothing is carried out of it.
  lemma MulTop(s: seq<Word>, m: nat, a: nat)
    requires s != [] && s[|s| - 1] != 0 && m > 0 && MulCarry(s, m, a) == 0
    ensures MulWords(s, m, a)[|s| - 1] != 0
  {
    var n := |s| - 1;
    var y := s[n] * m + MulCarry(s[..n], m, a);
    assert y >= 1 by { assert s[n] * m >= 1 * m by { Carried(1, s[n], m); } }
    assert y / B == 0 ==> y % B == y;
  }

  lemma MulNext(s: seq<Word>, i: nat, m: nat, a: nat)
    requires i < |s|
    ensures MulCarry(s[..i + 1], m, a) == (s[i] * m + MulCarry(s[..i], m, a)) / B
    ensures MulWords(s[..i + 1], m, a) == MulWords(s[..i], m, a) + [(s[i] * m + MulCarry(s[..i], m, a)) % B]
  {
    assert s[..i + 1][..i] == s[..i];
  }

  // The loop of `multadd`.
  method MulLoop(x: array<Word>, wds: nat, m: nat, a: nat) returns (carry: nat)
    requires wds <= x.Length && m < B && a < B
    modifies x
    ensures x[..wds] == MulWords(old(x[..wds]), m, a) && carry == MulCarry(old(x[..wds]), m, a)
    ensures forall j :: wds <= j < x.Length ==> x[j] == old(x[j])
  {
    hide Val, MulWords, MulCarry;
    ghost var was := x[..wds];
    carry := a;
    var i := 0;
    MulNothing(m, a);
    while i < wds
      invariant 0 <= i <= wds && carry == MulCarry(was[..i], m, a)
      invariant x[..i] == MulWords(was[..i], m, a) && x[i..wds] == was[i..]
      invariant forall j :: wds <= j < x.Length ==> x[j] == old(x[j])
    {
      MulCarryFits(was[..i], m, a);
      MulNext(was, i, m, a);
      assert x[i] == was[i];
      CarryFits(x[i], m, carry);
      ghost var low := x[..i];
      var y := x[i] * m + carry;
      carry := y / B;
      x[i] := y % B;
      assert x[..i + 1] == low + [y % B];
      i := i + 1;
    }
    assert was[..wds] == was;
  }

  // `multadd`: multiplies by `m` and adds `a`. The result is the same number
  // object, or a larger one.
  method MultAdd(b: Big, m: nat, a: nat) returns (r: Big)
    requires b.Valid() && 0 < m < B && a < B && (b.wds == 0 ==> a == 0)
    modifies b, b.x
    ensures r.Valid() && (r == b || fresh(r)) && (r.x == old(b.x) || fresh(r.x))
    ensures r.Value() == old(b.Value()) * m + a
    ensures old(b.wds) > 0 ==> r.wds > 0
  {
    hide Val, MulWords, MulCarry;
    ghost var was := b.x[..b.wds];
    var wds := b.wds;
    var carry := MulLoop(b.x, wds, m, a);
    MulExact(was, m, a);
    MulCarryFits(was, m, a);
    MulNothing(m, a);
    if wds == 0 { assert was == []; }
    r := b;
    if carry != 0 {
      if wds >= b.x.Length {
        r := new Big(b.x.Length * 2);
        forall j | 0 <= j < wds { r.x[j] := b.x[j]; }
        assert r.x[..wds] == b.x[..wds];
      }
      ghost var low := r.x[..wds];
      assert low == MulWords(was, m, a) && wds > 0;
      r.x[wds] := carry;
      r.wds := wds + 1;
      assert r.x[..wds + 1] == low + [carry];
      ValAppend(low, carry);
    } else {
      assert carry * Pow(wds) == 0;
      if wds >= 2 { MulTop(was, m, a); }
    }
  }

  lemma MulNothing(m: nat, a: nat)
    ensures MulCarry([], m, a) == a && MulWords([], m, a) == []
  {
  }

  // -------------------------------------------------------------------------
  // cmp
  // -------------------------------------------------------------------------

  lemma {:induction false} HigherWordDecides(s: seq<Word>, t: seq<Word>, i: nat)
    requires |s| == |t| && i < |s| && s[i] < t[i] && s[i + 1..] == t[i + 1..]
    ensures Val(s) < Val(t)
    decreases |s|
  {
    var n := |s| - 1;
    if i == n {
      ValTop(s);
      ValTop(t);
      Carried(s[n] + 1, t[n], Pow(n));
    } else {
      assert s[n] == s[i + 1..][n - i - 1] == t[n];
      assert s[..n][i + 1..] == s[i + 1..][..n - i - 1] == t[..n][i + 1..];
      HigherWordDecides(s[..n], t[..n], i);
    }
  }

  lemma {:induction false} PowGrows(n: nat, m: nat)
    requires n <= m
    ensures Pow(n) <= Pow(m)
    decreases m
  {
    if n < m { PowGrows(n, m - 1); }
  }

  lemma LongerIsMore(s: seq<Word>, t: seq<Word>)
    requires |s| < |t| && t[|t| - 1] != 0
    ensures Val(s) < Val(t)
  {
    ValBound(s);
    ValTop(t);
    PowGrows(|s|, |t| - 1);
    Carried(1, t[|t| - 1], Pow(|t| - 1));
  }

  // `cmp`, against a number that is not zero.
  method Cmp(a: Big, b: Big) returns (c: int)
    requires a.Valid() && b.Valid() && b.Value() > 0
    ensures c < 0 <==> a.Value() < b.Value()
    ensures c == 0 <==> a.Value() == b.Value()
  {
    hide Val, Pow;
    ValNothing();
    if a.wds != b.wds {
      if a.wds < b.wds {
        if b.wds == 1 { SingleWord(b.Words()); }
        LongerIsMore(a.Words(), b.Words());
      } else {
        LongerIsMore(b.Words(), a.Words());
      }
      return a.wds - b.wds;
    }
    assert a.Words()[a.wds..] == b.Words()[a.wds..];
    var j := a.wds;
    while j > 0
      invariant 0 <= j <= a.wds
      invariant a.Words()[j..] == b.Words()[j..]
    {
      j := j - 1;
      if a.x[j] != b.x[j] {
        if a.x[j] < b.x[j] {
          HigherWordDecides(a.Words(), b.Words(), j);
          return -1;
        } else {
          HigherWordDecides(b.Words(), a.Words(), j);
          return 1;
        }
      }
      assert a.Words()[j..] == [a.x[j]] + a.Words()[j + 1..];
      assert b.Words()[j..] == [b.x[j]] + b.Words()[j + 1..];
    }
    assert a.Words() == b.Words();
    return 0;
  }

  lemma ValNothing()
    ensures Val([]) == 0
  {
  }

  lemma SingleWord(s: seq<Word>)
    requires |s| == 1
    ensures Val(s) == s[0]
  {
    assert s[..0] == [];
    assert s[0] * Pow(0) == s[0];
  }

  // -------------------------------------------------------------------------
  // lshift
  // -------------------------------------------------------------------------

  function Pow2(k: nat): (p: nat)
    ensures p > 0
  {
    if k == 0 then 1 else 2 * Pow2(k - 1)
  }

  lemma {:induction false} Pow2Adds(a: nat, b: nat)
    ensures Pow2(a + b) == Pow2(a) * Pow2(b)
    decreases a
  {
    if a > 0 {
      Pow2Adds(a - 1, b);
      assert Pow2(a + b) == 2 * Pow2(a - 1 + b);
    }
  }

  lemma {:induction false} PowIsPow2(n: nat)
    ensures Pow(n) == Pow2(32 * n)
    decreases n
  {
    if n > 0 {
      PowIsPow2(n - 1);
      Pow2Adds(32, 32 * (n - 1));
      Pow2Is32();
    }
  }

  lemma Pow2Is32()
    ensures Pow2(32) == B && Pow2(16) == 0x10000 && Pow2(8) == 0x100 && Pow2(4) == 16 && Pow2(2) == 4 && Pow2(1) == 2
  {
    Pow2Adds(2, 2);
    Pow2Adds(4, 4);
    Pow2Adds(8, 8);
    Pow2Adds(16, 16);
  }

  function Zeros(n: nat): seq<Word> { seq(n, _ => 0) }

  lemma {:induction false} ValShifted(n: nat, s: seq<Word>)
    ensures Val(Zeros(n) + s) == Pow(n) * Val(s)
    decreases |s|
  {
    hide Pow;
    if s == [] {
      ValZeros(Zeros(n) + s, 0);
      assert (Zeros(n) + s)[..0] == [];
    } else {
      var m := |s| - 1;
      ValShifted(n, s[..m]);
      hide Val;
      assert Zeros(n) + s == (Zeros(n) + s[..m]) + [s[m]];
      ValAppend(Zeros(n) + s[..m], s[m]);
      assert s == s[..m] + [s[m]];
      ValAppend(s[..m], s[m]);
      PowAdds(n, m);
      Spread(Pow(n), Val(s[..m]), s[m], Pow(m));
    }
  }

  lemma Spread(p: nat, v: nat, w: nat, q: nat)
    ensures p * (v + w * q) == p * v + w * (p * q)
  {
    assert p * (v + w * q) == p * v + p * (w * q);
    assert p * (w * q) == w * (p * q);
  }

  lemma {:induction false} PowAdds(a: nat, b: nat)
    ensures Pow(a + b) == Pow(a) * Pow(b)
    decreases a
  {
    if a > 0 {
      PowAdds(a - 1, b);
      assert Pow(a + b) == B * Pow(a - 1 + b);
      assert B * (Pow(a - 1) * Pow(b)) == (B * Pow(a - 1)) * Pow(b);
    }
  }

  // The low bits of a word that is shifted left are free for what is shifted
  // out of the word below.
  lemma ShiftJoins(w: Word, k: nat, z: nat)
    requires 0 < k < 32 && z < Pow2(k)
    ensures w * Pow2(k) % B + z < B
    ensures (w * Pow2(k) + z) % B == w * Pow2(k) % B + z
    ensures (w * Pow2(k) + z) / B == w / Pow2(32 - k) < Pow2(k)
  {
    hide Pow2;
    Pow2Adds(32 - k, k);
    Pow2Is32();
    var p, h := Pow2(k), Pow2(32 - k);
    DivMod(w, h);
    var hi, lo := w / h, w % h;
    HighOut(w, p, h, hi, lo);
    LowFits(lo, h, p, z);
    SplitBy(w * p + z, hi, lo * p + z);
    SplitBy(w * p, hi, lo * p);
  }

  lemma DivMod(n: nat, d: nat)
    requires d > 0
    ensures n == n / d * d + n % d && n % d < d && n / d >= 0
  {
    Monotonic(n / d + 1, 0, d);
  }

  lemma HighOut(w: Word, p: nat, h: nat, hi: nat, lo: nat)
    requires h * p == B && w == hi * h + lo
    ensures w * p == hi * B + lo * p && hi < p
  {
    assert (hi * h + lo) * p == hi * h * p + lo * p;
    assert hi * h * p == hi * (h * p);
    Monotonic(p, hi, h);
    assert p * h == h * p;
  }

  lemma LowFits(lo: nat, h: nat, p: nat, z: nat)
    requires h * p == B && lo < h && z < p
    ensures lo * p + z < B
  {
    Carried(lo + 1, h, p);
    assert (lo + 1) * p == lo * p + p;
  }

  lemma SplitBy(n: nat, q: nat, r: nat)
    requires n == q * B + r && r < B
    ensures n / B == q && n % B == r
  {
  }

  // Shifting words is multiplying them.
  lemma ShiftedOut(s: seq<Word>, k: nat)
    requires 0 < k < 32
    ensures MulCarry(s, Pow2(k), 0) < Pow2(k)
    ensures s != [] ==> MulCarry(s, Pow2(k), 0) == s[|s| - 1] / Pow2(32 - k)
    decreases |s|
  {
    hide Pow2;
    if s != [] {
      var n := |s| - 1;
      ShiftedOut(s[..n], k);
      ShiftJoins(s[n], k, MulCarry(s[..n], Pow2(k), 0));
    }
  }

  // The loop of `lshift` over the words: `n` words below, `k` bits.
  method ShiftLoop(x: array<Word>, n: nat, b: array<Word>, wds: nat, k: nat) returns (z: nat)
    requires 0 < k < 32 && wds <= b.Length && n + wds <= x.Length && x != b
    modifies x
    ensures x[..n] == old(x[..n]) && x[n..n + wds] == MulWords(b[..wds], Pow2(k), 0)
    ensures z == MulCarry(b[..wds], Pow2(k), 0)
  {
    hide MulWords, MulCarry, Pow2;
    ghost var p := Pow2(k);
    z := 0;
    var i := 0;
    MulNothing(p, 0);
    assert b[..0] == [];
    while i < wds
      invariant 0 <= i <= wds && z == MulCarry(b[..i], p, 0)
      invariant x[..n] == old(x[..n]) && x[n..n + i] == MulWords(b[..i], p, 0)
    {
      ShiftedOut(b[..i], k);
      ShiftJoins(b[i], k, z);
      MulNext(b[..wds], i, p, 0);
      assert b[..wds][..i] == b[..i] && b[..wds][..i + 1] == b[..i + 1];
      ghost var low := x[n..n + i];
      x[n + i] := b[i] * Pow2(k) % B + z;
      z := b[i] / Pow2(32 - k);
      assert x[n..n + i + 1] == low + [x[n + i]];
      i := i + 1;
    }
  }

  ghost predicate Normal(b: Big)
    reads b, b.x
  {
    b.Valid() && b.wds > 0 && b.x[b.wds - 1] != 0
  }

  // `lshift`
  method LShift(b: Big, k: nat) returns (r: Big)
    requires Normal(b)
    ensures fresh(r) && fresh(r.x) && Normal(r) && r.Value() == b.Value() * Pow2(k)
  {
    hide Val, Pow2, Zeros;
    var n := k / 32;
    var n1 := n + b.wds + 1;
    var cap := b.x.Length;
    while n1 > cap
      invariant cap > 0
      decreases n1 - cap
    {
      cap := cap * 2;
    }
    r := new Big(cap);
    var i := 0;
    while i < n
      invariant 0 <= i <= n && forall j :: 0 <= j < i ==> r.x[j] == 0
      modifies r.x
    {
      r.x[i] := 0;
      i := i + 1;
    }
    ZerosAre(r.x[..n]);
    if k % 32 != 0 { ShiftBits(r, b, n, k); } else { CopyWords(r, b, n, k); }
  }

  lemma ZerosAre(s: seq<Word>)
    requires forall j :: 0 <= j < |s| ==> s[j] == 0
    ensures s == Zeros(|s|)
  {
  }

  method ShiftBits(r: Big, b: Big, n: nat, k: nat)
    requires Normal(b) && n == k / 32 && k % 32 != 0 && r != b && r.x != b.x
    requires n + b.wds + 1 <= r.x.Length && r.x[..n] == Zeros(n)
    modifies r`wds, r.x
    ensures Normal(r) && r.Value() == old(b.Value()) * Pow2(k)
  {
    hide Val, MulWords, MulCarry, Pow2, Pow, Zeros;
    ghost var words := b.Words();
    var z := ShiftLoop(r.x, n, b.x, b.wds, k % 32);
    ghost var all := r.x[..n + b.wds];
    assert all == Zeros(n) + MulWords(words, Pow2(k % 32), 0);
    ShiftedValue(words, n, k, all, z);
    r.x[n + b.wds] := z;
    r.wds := if z != 0 then n + b.wds + 1 else n + b.wds;
    assert r.Words() == if z == 0 then all else all + [z];
  }

  method CopyWords(r: Big, b: Big, n: nat, k: nat)
    requires Normal(b) && k == 32 * n && r != b && r.x != b.x
    requires n + b.wds + 1 <= r.x.Length && r.x[..n] == Zeros(n)
    modifies r`wds, r.x
    ensures Normal(r) && r.Value() == old(b.Value()) * Pow2(k)
  {
    hide Val, Pow2, Zeros;
    ghost var words := b.Words();
    var i := 0;
    while i < b.wds
      invariant 0 <= i <= b.wds && r.x[..n] == Zeros(n) && r.x[n..n + i] == words[..i]
      modifies r.x
    {
      ghost var low := r.x[n..n + i];
      r.x[n + i] := b.x[i];
      assert r.x[n..n + i + 1] == low + [words[i]];
      i := i + 1;
    }
    r.wds := n + b.wds;
    assert r.Words() == Zeros(n) + words;
    CopiedValue(words, n, k);
  }

  lemma CopiedValue(s: seq<Word>, n: nat, k: nat)
    requires k == 32 * n
    ensures Val(Zeros(n) + s) == Val(s) * Pow2(k)
  {
    hide Val, Pow, Pow2;
    ValShifted(n, s);
    PowIsPow2(n);
  }

  lemma ShiftedValue(s: seq<Word>, n: nat, k: nat, all: seq<Word>, z: nat)
    requires s != [] && s[|s| - 1] != 0 && n == k / 32 && k % 32 != 0
    requires all == Zeros(n) + MulWords(s, Pow2(k % 32), 0) && z == MulCarry(s, Pow2(k % 32), 0)
    ensures z < B && Val(if z == 0 then all else all + [z]) == Val(s) * Pow2(k)
    ensures z == 0 ==> all[|all| - 1] != 0
  {
    hide Val, Pow, Pow2, MulWords, MulCarry;
    var p := Pow2(k % 32);
    ShiftedOut(s, k % 32);
    Pow2Adds(k % 32, 32 - k % 32);
    Pow2Is32();
    Fits(z, p, Pow2(32 - k % 32));
    MulExact(s, p, 0);
    PowIsPow2(n);
    Pow2Adds(32 * n, k % 32);
    var t := MulWords(s, p, 0);
    if z == 0 {
      MulTop(s, p, 0);
      assert z * Pow(|s|) == 0;
      ValShifted(n, t);
      Exchange(Pow(n), Val(s), p);
    } else {
      ValShifted(n, t + [z]);
      ValAppend(t, z);
      assert all + [z] == Zeros(n) + (t + [z]);
      Exchange(Pow(n), Val(s), p);
    }
  }

  lemma Exchange(a: nat, b: nat, c: nat)
    ensures a * (b * c) == b * (a * c)
  {
  }

  lemma Fits(z: nat, p: nat, h: nat)
    requires z < p && p * h == B && h > 0
    ensures z < B && p < B + 1
  {
    Carried(1, h, p);
  }

  // -------------------------------------------------------------------------
  // quorem
  // -------------------------------------------------------------------------

  // Subtracting `q` times the words of `t` from those of `s`: the borrow, and
  // the words that are stored.
  function SubBorrow(s: seq<Word>, t: seq<Word>, q: nat): (r: nat)
    requires |s| == |t|
    ensures r <= 1
  {
    if s == [] then 0
    else
      var n := |s| - 1;
      if s[n] < (t[n] * q + MulCarry(t[..n], q, 0)) % B + SubBorrow(s[..n], t[..n], q) then 1 else 0
  }

  function SubWords(s: seq<Word>, t: seq<Word>, q: nat): (r: seq<Word>)
    requires |s| == |t|
    ensures |r| == |s|
  {
    if s == [] then []
    else
      var n := |s| - 1;
      var low := (t[n] * q + MulCarry(t[..n], q, 0)) % B + SubBorrow(s[..n], t[..n], q);
      SubWords(s[..n], t[..n], q) + [if s[n] < low then s[n] + B - low else s[n] - low]
  }

  lemma {:induction false} SubExact(s: seq<Word>, t: seq<Word>, q: nat)
    requires |s| == |t|
    ensures Val(SubWords(s, t, q)) + Val(t) * q == Val(s) + (MulCarry(t, q, 0) + SubBorrow(s, t, q)) * Pow(|s|)
    decreases |s|
  {
    hide Pow, Val, SubWords, SubBorrow, MulCarry;
    SubNothing(q);
    ValNothing();
    if s == [] {
      assert t == [] && 0 * q == 0 && 0 * Pow(0) == 0;
    } else {
      var n := |s| - 1;
      var carry, borrow := MulCarry(t[..n], q, 0), SubBorrow(s[..n], t[..n], q);
      SubExact(s[..n], t[..n], q);
      assert s[..n + 1] == s && t[..n + 1] == t;
      SubNext(s, t, n, q);
      MulNext(t, n, q, 0);
      ValPrefix(s, n);
      ValPrefix(t, n);
      var y := t[n] * q + carry;
      var low := y % B + borrow;
      var out: Word := if s[n] < low then s[n] + B - low else s[n] - low;
      ValAppend(SubWords(s[..n], t[..n], q), out);
      PowUp(n);
      SubStep(Val(SubWords(s[..n], t[..n], q)), Val(t[..n]), Val(s[..n]), t[n], s[n], out, q, carry, borrow, y, Pow(n));
    }
  }

  lemma PowUp(n: nat)
    ensures Pow(n + 1) == B * Pow(n)
  {
  }

  lemma SubStep(done: nat, tv: nat, sv: nat, tw: nat, sw: nat, out: nat, q: nat, carry: nat, borrow: nat, y: nat, p: nat)
    requires done + tv * q == sv + (carry + borrow) * p
    requires y == tw * q + carry
    requires out == sw + (if sw < y % B + borrow then B else 0) - (y % B + borrow)
    ensures done + out * p + (tv + tw * p) * q
         == sv + sw * p + (y / B + (if sw < y % B + borrow then 1 else 0)) * (B * p)
  {
    var b2 := if sw < y % B + borrow then 1 else 0;
    DivMod(y, B);
    assert out + y + borrow == sw + (y / B + b2) * B;
    assert (out + y + borrow) * p == (sw + (y / B + b2) * B) * p;
    assert (out + y + borrow) * p == out * p + y * p + borrow * p;
    assert (sw + (y / B + b2) * B) * p == sw * p + (y / B + b2) * B * p;
    assert (y / B + b2) * B * p == (y / B + b2) * (B * p);
    assert y * p == tw * q * p + carry * p;
    assert tw * q * p == tw * p * q;
    assert (tv + tw * p) * q == tv * q + tw * p * q;
    assert (carry + borrow) * p == carry * p + borrow * p;
  }

  lemma SubNext(s: seq<Word>, t: seq<Word>, i: nat, q: nat)
    requires |s| == |t| && i < |s|
    ensures var low := (t[i] * q + MulCarry(t[..i], q, 0)) % B + SubBorrow(s[..i], t[..i], q);
            && SubBorrow(s[..i + 1], t[..i + 1], q) == (if s[i] < low then 1 else 0)
            && SubWords(s[..i + 1], t[..i + 1], q)
               == SubWords(s[..i], t[..i], q) + [if s[i] < low then s[i] + B - low else s[i] - low]
  {
    assert s[..i + 1][..i] == s[..i] && t[..i + 1][..i] == t[..i];
  }

  // The borrow of a difference of words, taken from its 64 bits.
  lemma BorrowBit(w: Word, low: nat)
    requires low <= B
    ensures var y := (w + WRAP64 - low) % WRAP64;
            && y / B % 2 == (if w < low then 1 else 0)
            && y % B == (if w < low then w + B - low else w - low)
  {
  }

  // One word of it: `ys` is the product with what was carried.
  method SubWord(w: Word, ys: nat, borrow: nat) returns (out: Word, borrow1: nat)
    requires borrow <= 1
    ensures var low := ys % B + borrow;
            && borrow1 == (if w < low then 1 else 0)
            && out == if w < low then w + B - low else w - low
  {
    BorrowBit(w, ys % B + borrow);
    var y := (w + WRAP64 - (ys % B + borrow)) % WRAP64;
    borrow1 := y / B % 2;
    out := y % B;
  }

  // The loops of `quorem` that subtract `q` times `t`.
  method SubLoop(x: array<Word>, t: array<Word>, n: nat, q: nat)
    requires x != t && n <= x.Length && n <= t.Length && q < B
    modifies x
    ensures x[..n] == SubWords(old(x[..n]), t[..n], q)
    ensures forall j :: n <= j < x.Length ==> x[j] == old(x[j])
  {
    hide SubWords, SubBorrow, MulCarry;
    ghost var was, ts := x[..n], t[..n];
    var i, carry, borrow: nat := 0, 0, 0;
    SubNothing(q);
    while i < n
      invariant 0 <= i <= n && carry == MulCarry(ts[..i], q, 0) && borrow == SubBorrow(was[..i], ts[..i], q)
      invariant x[..i] == SubWords(was[..i], ts[..i], q)
      invariant forall j :: i <= j < x.Length ==> x[j] == old(x[j])
    {
      MulCarryFits(ts[..i], q, 0);
      MulNext(ts, i, q, 0);
      SubNext(was, ts, i, q);
      assert x[i] == was[i] && t[i] == ts[i];
      ghost var low := x[..i];
      CarryFits(t[i], q, carry);
      var ys := t[i] * q + carry;
      var out: Word;
      out, borrow := SubWord(x[i], ys, borrow);
      carry := ys / B;
      x[i] := out;
      assert x[..i + 1] == low + [out];
      i := i + 1;
    }
    assert was[..n] == was && ts[..n] == ts;
  }

  lemma SubNothing(q: nat)
    ensures SubWords([], [], q) == [] && SubBorrow([], [], q) == 0 && MulCarry([], q, 0) == 0
  {
  }

  // The words after a subtraction that does not go below zero.
  lemma SubWithin(s: seq<Word>, t: seq<Word>, q: nat)
    requires |s| == |t| && Val(t) * q <= Val(s)
    ensures Val(SubWords(s, t, q)) == Val(s) - Val(t) * q
  {
    hide Val, SubWords, MulCarry, SubBorrow, Pow;
    SubExact(s, t, q);
    ValBound(SubWords(s, t, q));
    var c := MulCarry(t, q, 0) + SubBorrow(s, t, q);
    if c > 0 { Carried(1, c, Pow(|s|)); }
    assert c == 0;
    assert c * Pow(|s|) == 0;
  }

  // The quotient of the top words, the lower one raised by one, is at most one
  // too low.
  lemma Estimate(s: seq<Word>, t: seq<Word>, top: nat, d: nat, q: nat)
    requires |s| == |t| > 0 && top == s[|s| - 1] && d - 1 == t[|t| - 1] && d > 0x800_0000 && q == top / d
    ensures q < B && Val(t) * q <= Val(s) < Val(t) * (q + 2)
  {
    hide Val, Pow;
    var n := |s| - 1;
    ValTop(s);
    ValTop(t);
    DivMod(top, d);
    Carried(q * d, top, Pow(n));
    EstimateLow(q, d, Val(t), Pow(n));
    assert q < 32 by { if q >= 32 { Carried(32, q, d); } }
    assert top + 1 <= (q + 1) * d by { assert (q + 1) * d == q * d + d; }
    Carried(top + 1, (q + 1) * d, Pow(n));
    EstimateHigh(q, t[n], Val(t), Pow(n));
  }

  lemma EstimateLow(q: nat, d: nat, v: nat, p: nat)
    requires v <= d * p
    ensures v * q <= q * d * p
  {
    Carried(v, d * p, q);
    assert d * p * q == q * d * p;
  }

  lemma EstimateHigh(q: nat, w: nat, v: nat, p: nat)
    requires q < 32 && w >= 0x800_0000 && w * p <= v
    ensures (q + 1) * (w + 1) * p <= v * (q + 2)
  {
    assert (q + 1) * (w + 1) <= w * (q + 2) by {
      assert (q + 1) * (w + 1) == q * w + q + w + 1;
      assert w * (q + 2) == q * w + 2 * w;
    }
    Carried((q + 1) * (w + 1), w * (q + 2), p);
    assert w * (q + 2) * p == w * p * (q + 2);
    Carried(w * p, v, q + 2);
  }

  // Words of zeros on top are dropped.
  method Trim(b: Big)
    requires 0 < b.wds <= b.x.Length
    modifies b`wds
    ensures b.Valid() && b.Value() == old(b.Value()) && b.wds <= old(b.wds)
  {
    hide Val;
    ghost var words := b.Words();
    var n: int := b.wds - 1;
    if b.x[n] == 0 {
      var e := n - 1;
      while e > 0 && b.x[e] == 0
        invariant e == n - 1 && -1 <= e
        invariant forall j :: n <= j < b.wds ==> b.x[j] == 0
        decreases e
      {
        n := n - 1;
        e := e - 1;
      }
      ValZeros(words, n);
      b.wds := n;
      assert words[..n] == b.Words();
    }
  }

  lemma QuotientIs(n: nat, d: nat, q: nat, r: nat)
    requires n == d * q + r && r < d
    ensures n / d == q && n % d == r
  {
    DivMod(n, d);
    var k := n / d;
    Monotonic(q + 1, k, d);
    Monotonic(k + 1, q, d);
    assert (q + 1) * d == d * q + d && (k + 1) * d == k * d + d && q * d == d * q;
  }

  ghost predicate Divides(b: Big, S: Big)
    reads b, b.x, S, S.x
  {
    && b.Valid() && Normal(S) && b != S && b.x != S.x && b.wds <= S.wds
    && 0x800_0000 <= S.x[S.wds - 1] < 0x1000_0000
  }

  // `quorem`: the quotient is returned and the remainder is left in `b`.
  method QuoRem(b: Big, S: Big) returns (q: nat)
    requires Divides(b, S)
    modifies b`wds, b.x
    ensures Divides(b, S) && S.Value() > 0
    ensures q == old(b.Value()) / S.Value() && b.Value() == old(b.Value()) % S.Value()
  {
    hide Val;
    ghost var was, v := b.Value(), S.Value();
    PositiveTop(S.Words());
    if b.wds < S.wds {
      LongerIsMore(b.Words(), S.Words());
      QuotientIs(was, v, 0, was);
      return 0;
    }
    q := TakeGuess(b, S);
    var c := Cmp(b, S);
    if c < 0 {
      FirstGuess(was, v, q, b.Value());
    } else {
      SecondGuess(was, v, q, b.Value() - v);
      q := q + 1;
      TakeOnce(b, S);
    }
  }

  lemma DividesParts(b: Big, S: Big)
    requires Divides(b, S)
    ensures b.Valid() && Normal(S) && b.wds <= S.wds && 0x800_0000 <= S.x[S.wds - 1] < 0x1000_0000
  {
  }

  // What the top words say.
  method GuessOf(b: Big, S: Big) returns (q: nat)
    requires Divides(b, S) && b.wds == S.wds
    ensures q < B && S.Value() * q <= b.Value() < S.Value() * (q + 2)
  {
    hide Val, Pow, Divides;
    DividesParts(b, S);
    var top, d: nat := b.x[b.wds - 1], S.x[S.wds - 1];
    DivMod(top, d + 1);
    q := top / (d + 1);
    Estimate(b.Words(), S.Words(), top, d + 1, q);
  }

  // The first half of `quorem`.
  method TakeGuess(b: Big, S: Big) returns (q: nat)
    requires Divides(b, S) && b.wds == S.wds
    modifies b`wds, b.x
    ensures Divides(b, S)
    ensures var v := S.Value();
            v * q <= old(b.Value()) < v * (q + 2) && b.Value() == old(b.Value()) - v * q
  {
    hide Val;
    q := GuessOf(b, S);
    if q != 0 {
      Subtract(b, S, S.wds, q);
    } else {
      assert S.Value() * 0 == 0;
    }
  }

  // The second half: once more, if `b` is still not below `S`.
  method TakeOnce(b: Big, S: Big)
    requires Divides(b, S) && S.Value() <= b.Value()
    modifies b`wds, b.x
    ensures Divides(b, S) && b.Value() == old(b.Value()) - S.Value()
  {
    hide Val;
    if b.wds < S.wds { LongerIsMore(b.Words(), S.Words()); }
    assert S.Value() * 1 == S.Value();
    Subtract(b, S, S.wds, 1);
  }

  lemma FirstGuess(n: nat, v: nat, q: nat, r: nat)
    requires v * q <= n && r == n - v * q && r < v
    ensures n / v == q && n % v == r
  {
    QuotientIs(n, v, q, r);
  }

  lemma SecondGuess(n: nat, v: nat, q: nat, r: nat)
    requires v > 0 && v * q + v <= n < v * (q + 2) && r == n - v * q - v
    ensures n / v == q + 1 && n % v == r
  {
    assert v * (q + 2) == v * q + v + v && v * (q + 1) == v * q + v;
    QuotientIs(n, v, q + 1, r);
  }

  // One of the two loops of `quorem`, with what follows it.
  method Subtract(b: Big, S: Big, n: nat, q: nat)
    requires b.Valid() && S.Valid() && b.wds == n == S.wds > 0 && q < B
    requires b != S && b.x != S.x && S.Value() * q <= b.Value()
    modifies b`wds, b.x
    ensures b.Valid() && b.wds <= n && b.Value() == old(b.Value()) - S.Value() * q
  {
    hide Val, SubWords;
    SubWithin(b.Words(), S.Words(), q);
    SubLoop(b.x, S.x, n, q);
    assert b.Words() == SubWords(old(b.Words()), S.Words(), q);
    Trim(b);
  }

  lemma PositiveTop(s: seq<Word>)
    requires s != [] && s[|s| - 1] != 0
    ensures Val(s) > 0
  {
    ValTop(s);
    Carried(1, s[|s| - 1], Pow(|s| - 1));
  }
}
