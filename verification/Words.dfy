/** Machine words and the bit operations the hand-written cryptography uses.
    Words are newtypes, so every `+`, `*` and `as` in the model carries the proof
    obligation that the Rust expression does not overflow. */
module Words {

  newtype u8 = x: int | 0 <= x < 0x100
  newtype u32 = x: int | 0 <= x < 0x1_0000_0000
  newtype u64 = x: int | 0 <= x < 0x1_0000_0000_0000_0000

  type Bytes = seq<u8>

  function Pow2(k: nat): (p: nat)
    ensures p >= 1
  {
    if k == 0 then 1 else 2 * Pow2(k - 1)
  }

  // ---- bitwise operators on naturals, bit by bit ----

  function AndNat(a: nat, b: nat): (r: nat)
    ensures r <= a && r <= b
  {
    if a == 0 || b == 0 then 0
    else (if a % 2 == 1 && b % 2 == 1 then 1 else 0) + 2 * AndNat(a / 2, b / 2)
  }

  function OrNat(a: nat, b: nat): (r: nat)
    ensures a <= r <= a + b && b <= r
    decreases a + b
  {
    if a == 0 then b else if b == 0 then a
    else (if a % 2 == 1 || b % 2 == 1 then 1 else 0) + 2 * OrNat(a / 2, b / 2)
  }

  function XorNat(a: nat, b: nat): (r: nat)
    ensures r <= a + b
    decreases a + b
  {
    if a == 0 then b else if b == 0 then a
    else (if a % 2 != b % 2 then 1 else 0) + 2 * XorNat(a / 2, b / 2)
  }

  lemma {:induction false} OrBelow(a: nat, b: nat, k: nat)
    requires a < Pow2(k) && b < Pow2(k)
    ensures OrNat(a, b) < Pow2(k)
  {
    if a != 0 && b != 0 {
      OrBelow(a / 2, b / 2, k - 1);
    }
  }

  lemma {:induction false} XorBelow(a: nat, b: nat, k: nat)
    requires a < Pow2(k) && b < Pow2(k)
    ensures XorNat(a, b) < Pow2(k)
  {
    if a != 0 && b != 0 {
      XorBelow(a / 2, b / 2, k - 1);
    }
  }

  lemma {:induction false} XorZero(a: nat)
    ensures XorNat(a, a) == 0
  {
    if a != 0 { XorZero(a / 2); }
  }

  /** Xoring twice with the same word gives the word back. */
  lemma {:induction false} XorInvolution(a: nat, b: nat)
    ensures XorNat(XorNat(a, b), b) == a
    decreases a + b
  {
    if a == 0 {
      XorZero(b);
    } else if b != 0 {
      XorInvolution(a / 2, b / 2);
      var x := XorNat(a, b);
      assert x / 2 == XorNat(a / 2, b / 2) && (x % 2 == 1 <==> a % 2 != b % 2);
    }
  }

  lemma AndCons(a: nat, i: nat, b: nat, j: nat)
    requires i < 2 && j < 2
    ensures AndNat(2 * a + i, 2 * b + j) == (if i == 1 && j == 1 then 1 else 0) + 2 * AndNat(a, b)
  {
  }

  lemma AndBits(x: nat, y: nat, z: nat, l: nat, m: nat, i: nat, j: nat)
    requires i < 2 && j < 2 && AndNat(x + l, y + m) == z + AndNat(l, m)
    ensures AndNat(2 * x + (2 * l + i), 2 * y + (2 * m + j)) == 2 * z + AndNat(2 * l + i, 2 * m + j)
  {
    hide AndNat;
    AndCons(x + l, i, y + m, j);
    AndCons(l, i, m, j);
  }

  lemma Halves(a: nat)
    ensures a == 2 * (a / 2) + a % 2
  {
  }

  /** Shifted left by `k`. */
  function Shl(a: nat, k: nat): nat {
    if k == 0 then a else 2 * Shl(a, k - 1)
  }

  lemma {:induction false} ShlIs(a: nat, k: nat)
    ensures Shl(a, k) == a * Pow2(k)
  {
    if k > 0 {
      ShlIs(a, k - 1);
      Double(a, Pow2(k - 1));
    }
  }

  lemma {:induction false} AndShl(hi: nat, lo: nat, mhi: nat, mlo: nat, k: nat)
    requires lo < Pow2(k) && mlo < Pow2(k)
    ensures AndNat(Shl(hi, k) + lo, Shl(mhi, k) + mlo) == Shl(AndNat(hi, mhi), k) + AndNat(lo, mlo)
  {
    hide AndNat;
    if k == 0 {
      NoLow(AndNat(hi, mhi), lo, mlo);
    } else {
      var l, i, m, j := lo / 2, lo % 2, mlo / 2, mlo % 2;
      Halves(lo);
      Halves(mlo);
      AndShl(hi, l, mhi, m, k - 1);
      var x, y, z := Shl(hi, k - 1), Shl(mhi, k - 1), Shl(AndNat(hi, mhi), k - 1);
      AndBits(x, y, z, l, m, i, j);
      assert Shl(hi, k) == 2 * x && Shl(mhi, k) == 2 * y && Shl(AndNat(hi, mhi), k) == 2 * z;
      hide Shl, Pow2;
      assert AndNat(2 * x + (2 * l + i), 2 * y + (2 * m + j)) == AndNat(Shl(hi, k) + lo, Shl(mhi, k) + mlo);
    }
  }

  lemma NoLow(z: nat, lo: nat, mlo: nat)
    requires lo == mlo == 0
    ensures z == z + AndNat(lo, mlo)
  {
  }

  /** `&` works on high and low parts separately. */
  lemma AndSplit(hi: nat, lo: nat, mhi: nat, mlo: nat, k: nat)
    requires lo < Pow2(k) && mlo < Pow2(k)
    ensures AndNat(hi * Pow2(k) + lo, mhi * Pow2(k) + mlo) == AndNat(hi, mhi) * Pow2(k) + AndNat(lo, mlo)
  {
    AndShl(hi, lo, mhi, mlo, k);
    ShlIs(hi, k);
    ShlIs(mhi, k);
    ShlIs(AndNat(hi, mhi), k);
    hide AndNat, Pow2, Shl;
  }

  lemma Double(a: nat, p: nat)
    ensures a * (2 * p) == 2 * (a * p)
  {
  }

  /** Masking with `2^k - 1` is the remainder modulo `2^k`. */
  lemma {:induction false} AndMask(a: nat, k: nat)
    ensures AndNat(a, Pow2(k) - 1) == a % Pow2(k)
  {
    if k > 0 {
      var h, b, p := a / 2, a % 2, Pow2(k - 1);
      AndMask(h, k - 1);
      Halves(a);
      assert Pow2(k) == 2 * p;
      hide AndNat, Pow2;
      AndMaskStep(h, b, p);
      assert AndNat(2 * h + b, 2 * p - 1) == AndNat(a, Pow2(k) - 1);
    }
  }

  lemma AndMaskStep(h: nat, b: nat, p: nat)
    requires b < 2 && p > 0 && AndNat(h, p - 1) == h % p
    ensures AndNat(2 * h + b, 2 * p - 1) == (2 * h + b) % (2 * p)
  {
    AndOne(h, b, p);
    DoubleMod(h, b, p);
  }

  lemma AndOne(h: nat, b: nat, p: nat)
    requires b < 2 && p > 0
    ensures AndNat(2 * h + b, 2 * p - 1) == 2 * AndNat(h, p - 1) + b
  {
    AndCons(h, b, p - 1, 1);
    assert 2 * p - 1 == 2 * (p - 1) + 1;
    hide AndNat;
  }

  lemma DoubleMod(h: nat, b: nat, p: nat)
    requires p > 0 && b < 2
    ensures (2 * h + b) % (2 * p) == 2 * (h % p) + b
  {
    var q, r := h / p, h % p;
    Double(q, p);
    ModUnique(2 * h + b, 2 * p, q, 2 * r + b);
  }

  lemma ModUnique(a: nat, m: nat, q: nat, r: nat)
    requires m > 0 && r < m && a == q * m + r
    ensures a % m == r && a / m == q
  {
    var d := q - a / m;
    assert d * m == q * m - (a / m) * m;
    MulGe(d, m);
    MulGe(-d, m);
  }

  /** Dividing twice is dividing by the product. */
  lemma DivDiv(a: nat, m: nat, k: nat)
    requires m > 0 && k > 0
    ensures m * k > 0 && a / (m * k) == (a / m) / k
  {
    DivDivParts(a, m, k, a / m, a % m, a / m / k, a / m % k);
  }

  lemma DivDivParts(a: nat, m: nat, k: nat, q: nat, r: nat, h: nat, d: nat)
    requires a == q * m + r && q == h * k + d && r < m && d < k
    ensures m * k > 0 && a / (m * k) == h
  {
    DivDivAux(h, d, r, m, k);
    ModUnique(a, m * k, h, d * m + r);
  }

  lemma DivDivAux(q: nat, d: nat, r: nat, m: nat, k: nat)
    requires r < m && d < k
    ensures (q * k + d) * m + r == q * (m * k) + (d * m + r) && d * m + r < m * k
  {
    MulLe(d + 1, k, m);
    assert (d + 1) * m == d * m + m;
  }

  lemma MulLe(a: nat, b: nat, m: nat)
    requires a <= b
    ensures a * m <= b * m
  {
  }

  lemma MulGe(d: int, m: nat)
    ensures d >= 1 ==> d * m >= m
  {
  }

  /** `|` of words with no common bit is addition. */
  lemma {:induction false} OrDisjoint(lo: nat, hi: nat, k: nat)
    requires lo < Pow2(k)
    ensures OrNat(lo, hi * Pow2(k)) == lo + hi * Pow2(k)
  {
    if k > 0 && lo != 0 && hi * Pow2(k) != 0 {
      var p := Pow2(k - 1);
      assert hi * Pow2(k) == 2 * (hi * p);
      OrDisjoint(lo / 2, hi, k - 1);
    }
  }

  // ---- little-endian byte strings ----

  function LeNat(s: Bytes): nat
  {
    if s == [] then 0 else s[0] as nat + 256 * LeNat(s[1..])
  }

  lemma {:induction false} LeConcat(a: Bytes, b: Bytes)
    ensures LeNat(a + b) == LeNat(a) + Pow2(8 * |a|) * LeNat(b)
  {
    if a == [] {
      assert a + b == b;
    } else {
      assert (a + b)[1..] == a[1..] + b;
      LeConcat(a[1..], b);
      assert LeNat(a + b) == a[0] as nat + 256 * LeNat((a + b)[1..]);
      hide LeNat, Pow2;
      Pow2Add8(8 * |a[1..]|);
      Scaled(Pow2(8 * |a[1..]|), LeNat(b));
    }
  }

  lemma Scaled(p: nat, n: nat)
    ensures 256 * (p * n) == 256 * p * n
  {
  }

  lemma Pow2Add8(k: nat)
    ensures Pow2(k + 8) == 256 * Pow2(k)
  {
    assert Pow2(k + 8) == 2 * Pow2(k + 7) == 4 * Pow2(k + 6) == 8 * Pow2(k + 5) == 16 * Pow2(k + 4);
    assert Pow2(k + 4) == 2 * Pow2(k + 3) == 4 * Pow2(k + 2) == 8 * Pow2(k + 1) == 16 * Pow2(k);
  }

  lemma {:induction false} Pow2Plus(j: nat, k: nat)
    ensures Pow2(j + k) == Pow2(j) * Pow2(k)
  {
    if j > 0 {
      Pow2Plus(j - 1, k);
      assert Pow2(j + k) == 2 * Pow2(j - 1 + k) && Pow2(j) == 2 * Pow2(j - 1);
      hide Pow2;
      DoubleProduct(Pow2(j - 1), Pow2(k));
    }
  }

  lemma DoubleProduct(a: nat, b: nat)
    ensures 2 * (a * b) == 2 * a * b
  {
  }

  lemma SmallPowers()
    ensures Pow2(8) == 0x100 && Pow2(10) == 0x400
  {
    assert Pow2(4) == 16;
  }

  lemma Powers()
    ensures Pow2(8) == 0x100 && Pow2(16) == 0x1_0000 && Pow2(26) == 0x400_0000 && Pow2(32) == 0x1_0000_0000
    ensures Pow2(64) == 0x1_0000_0000_0000_0000 && Pow2(128) == 0x1_0000_0000_0000_0000_0000_0000_0000_0000
  {
    hide Pow2;
    SmallPowers();
    Pow2Plus(8, 8);
    Pow2Plus(10, 16);
    Pow2Plus(16, 16);
    Pow2Plus(32, 32);
    Pow2Plus(64, 64);
  }

  lemma {:induction false} LeBound(s: Bytes)
    ensures LeNat(s) < Pow2(8 * |s|)
  {
    if s != [] {
      LeBound(s[1..]);
      Pow2Add8(8 * |s[1..]|);
    }
  }

  /** A fixed number of little-endian bytes determines its number and back. */
  lemma {:induction false} LeInjective(a: Bytes, b: Bytes)
    requires |a| == |b| && LeNat(a) == LeNat(b)
    ensures a == b
  {
    if a != [] {
      LeInjective(a[1..], b[1..]);
    }
  }

  function LeEncode(n: nat, len: nat): (s: Bytes)
    ensures |s| == len
  {
    if len == 0 then [] else [(n % 256) as u8] + LeEncode(n / 256, len - 1)
  }

  lemma {:induction false} LeEncodeDecode(n: nat, len: nat)
    requires n < Pow2(8 * len)
    ensures LeNat(LeEncode(n, len)) == n
  {
    if len > 0 {
      Pow2Add8(8 * (len - 1));
      LeEncodeDecode(n / 256, len - 1);
    }
  }

  function Zeros(n: nat): (s: Bytes)
    ensures |s| == n && forall i :: 0 <= i < n ==> s[i] == 0
  {
    seq(n, _ => 0)
  }

  lemma {:induction false} LeZeros(n: nat)
    ensures LeNat(Zeros(n)) == 0
  {
    if n > 0 {
      assert Zeros(n)[1..] == Zeros(n - 1);
      LeZeros(n - 1);
    }
  }

  lemma {:induction false} LeAppendZeros(a: Bytes, n: nat)
    ensures LeNat(a + Zeros(n)) == LeNat(a)
  {
    if a == [] {
      assert a + Zeros(n) == Zeros(n);
      LeZeros(n);
    } else {
      assert (a + Zeros(n))[1..] == a[1..] + Zeros(n);
      LeAppendZeros(a[1..], n);
    }
  }

  /** Big-endian bytes, most significant first. */
  function BeEncode(n: nat, len: nat): (s: Bytes)
    ensures |s| == len
  {
    if len == 0 then [] else BeEncode(n / 256, len - 1) + [(n % 256) as u8]
  }

  lemma {:induction false} BeInjective(a: nat, b: nat, len: nat)
    requires a < Pow2(8 * len) && b < Pow2(8 * len) && BeEncode(a, len) == BeEncode(b, len)
    ensures a == b
  {
    if len > 0 {
      var x, y := BeEncode(a, len), BeEncode(b, len);
      assert x[len - 1] == (a % 256) as u8 && y[len - 1] == (b % 256) as u8;
      assert x[..len - 1] == BeEncode(a / 256, len - 1) && y[..len - 1] == BeEncode(b / 256, len - 1);
      Pow2Add8(8 * (len - 1));
      BeInjective(a / 256, b / 256, len - 1);
    }
  }
}
