/** Poly1305 in 26-bit limbs, as the crate computes it, refined against the
    integer definition of `Poly1305Spec`. */
module Poly1305 {
  import opened Words
  import Spec = Poly1305Spec

  const B26: nat := 0x400_0000
  const MASK26: nat := 0x3ff_ffff
  /** Above every limb after a block has been added to a loose accumulator. */
  const LIMB_MAX: nat := 0x800_0040

  /** A 130-bit accumulator as five limbs of 26 bits. */
  datatype Limbs = Limbs(l0: u32, l1: u32, l2: u32, l3: u32, l4: u32)

  function Value(l0: int, l1: int, l2: int, l3: int, l4: int): int {
    l0 + l1 * 0x400_0000 + l2 * 0x10_0000_0000_0000 + l3 * 0x4000_0000_0000_0000_0000
    + l4 * 0x100_0000_0000_0000_0000_0000_0000
  }

  function ValueOf(h: Limbs): nat {
    Value(h.l0 as int, h.l1 as int, h.l2 as int, h.l3 as int, h.l4 as int)
  }

  predicate Below(h: Limbs, bound: nat) {
    h.l0 as nat < bound && h.l1 as nat < bound && h.l2 as nat < bound && h.l3 as nat < bound && h.l4 as nat < bound
  }

  /** Between blocks every limb has 26 bits except limb 1, which may keep the
      last carry of the 5x wrap-around. */
  predicate Loose(h: Limbs) {
    Below(h.(l1 := 0), B26) && h.l1 as nat <= MASK26 + 64
  }

  // ---- word operations ----

  function Le32(b: Bytes): (w: u32)
    requires |b| == 4
  {
    (b[0] as int + b[1] as int * 0x100 + b[2] as int * 0x1_0000 + b[3] as int * 0x100_0000) as u32
  }

  function And(a: u32, b: u32): (w: u32)
  {
    AndNat(a as nat, b as nat) as u32
  }

  function Or(a: u32, b: u32): (w: u32)
  {
    Powers();
    OrBelow(a as nat, b as nat, 32);
    OrNat(a as nat, b as nat) as u32
  }

  function Not(a: u32): u32 {
    0xffff_ffff - a
  }

  /** The low 26 bits of a 64-bit word, cast to 32 bits. */
  function Low26(d: u64): (w: u32)
    ensures w as nat == d as nat % B26
  {
    Powers();
    AndMask(d as nat, 26);
    AndNat(d as nat, MASK26) as u32
  }

  function Low26w(d: u32): (w: u32)
    ensures w as nat == d as nat % B26
  {
    Low26(d as u64)
  }

  /** A product of two 32-bit words always fits 64 bits. */
  function Mul(a: u32, b: u32): (p: u64)
    ensures p as nat == a as nat * b as nat
    ensures a as nat < LIMB_MAX && b as nat < 5 * B26 ==> p as nat <= LIMB_MAX * 5 * B26
    ensures a as nat < LIMB_MAX && b as nat < B26 ==> p as nat <= LIMB_MAX * B26
  {
    MulBound(a as nat, 0xffff_ffff, b as nat, 0xffff_ffff);
    if a as nat < LIMB_MAX && b as nat < 5 * B26 then
      MulBound(a as nat, LIMB_MAX, b as nat, if b as nat < B26 then B26 else 5 * B26);
      (a as nat * b as nat) as u64
    else
      (a as nat * b as nat) as u64
  }

  lemma MulBound(a: nat, x: nat, b: nat, y: nat)
    requires a <= x && b <= y
    ensures 0 <= a * b <= x * y
  {
    assert a * b <= x * b <= x * y;
  }

  // ---- loading sixteen bytes into limbs ----

  lemma LeStep(m: Bytes, i: nat)
    requires i < |m|
    ensures LeNat(m[i..]) == m[i] as nat + 256 * LeNat(m[i + 1..])
  {
    assert m[i..][1..] == m[i + 1..];
  }

  lemma Le32Nat(b: Bytes)
    requires |b| == 4
    ensures Le32(b) as nat == LeNat(b)
  {
    LeStep(b, 0); LeStep(b, 1); LeStep(b, 2); LeStep(b, 3);
    assert b == b[0..];
  }

  lemma LoadWord(m: Bytes, i: nat)
    requires i + 4 <= |m|
    ensures LeNat(m[i..]) == Le32(m[i..i + 4]) as nat + 0x1_0000_0000 * LeNat(m[i + 4..])
  {
    var b := m[i..i + 4];
    assert m[i..] == b + m[i + 4..];
    LeConcat(b, m[i + 4..]);
    Le32Nat(b);
    Powers();
  }

  /** The four bytes at `i`, seen inside the whole number. */
  lemma LoadAt(m: Bytes, i: nat, e: nat)
    requires i + 4 <= |m| && e == Pow2(8 * i)
    ensures LeNat(m) == LeNat(m[..i]) + e * (Le32(m[i..i + 4]) as nat + 0x1_0000_0000 * LeNat(m[i + 4..]))
    ensures LeNat(m[..i]) < e
  {
    LoadWord(m, i);
    assert m == m[..i] + m[i..];
    LeConcat(m[..i], m[i..]);
    LeBound(m[..i]);
  }

  lemma Regrouped(s: nat, f: nat, b: nat, y: nat)
    ensures s * f * b * y == (f * y * b) * s
  {
    var k := f * b;
    assert s * f * b == s * k;
    assert f * y * b == k * y;
    assert s * k * y == k * y * s;
  }

  /** Dividing `x`, with `y` above it at scale `s * f * b`, by `s`. */
  lemma ShiftDown(x: nat, y: nat, s: nat, f: nat, b: nat)
    requires s > 0
    ensures (x + s * f * b * y) / s == x / s + f * y * b
  {
    Regrouped(s, f, b, y);
    ShiftMultiple(x, s, f * y * b);
  }

  lemma ShiftMultiple(x: nat, s: nat, k: nat)
    requires s > 0
    ensures (x + k * s) / s == x / s + k
  {
    assert (x / s + k) * s == x / s * s + k * s;
    ModUnique(x + k * s, s, x / s + k, x % s);
  }

  lemma MaskMultiple(x: nat, b: nat, k: nat)
    requires b > 0
    ensures (x + k * b) % b == x % b
  {
    assert (x / b + k) * b == x / b * b + k * b;
    ModUnique(x + k * b, b, x / b + k, x % b);
  }

  /** A load `x` with `y` above it, shifted down by `s` and masked to below `b`. */
  lemma WordDigit(x: nat, y: nat, s: nat, f: nat, b: nat)
    requires s > 0 && b > 0
    ensures (x + s * f * b * y) / s % b == x / s % b
  {
    ShiftDown(x, y, s, f, b);
    MaskMultiple(x / s, b, f * y);
  }

  /** What is at scale `e` in the number, shifted down by `s`. */
  lemma CutShift(n: nat, lo: nat, e: nat, w: nat, s: nat)
    requires e > 0 && s > 0 && n == lo + e * w && lo < e
    ensures e * s > 0 && n / (e * s) == w / s
  {
    DivDiv(n, e, s);
    ModUnique(n, e, w, lo);
  }

  lemma LimbAt(m: Bytes, i: nat, e: nat, s: nat, f: nat)
    requires i + 4 <= |m| && e == Pow2(8 * i) && s > 0 && s * f * 0x400_0000 == 0x1_0000_0000
    ensures e * s > 0 && (LeNat(m) / (e * s)) % 0x400_0000 == (Le32(m[i..i + 4]) as nat / s) % 0x400_0000
  {
    LoadAt(m, i, e);
    var x, y := Le32(m[i..i + 4]) as nat, LeNat(m[i + 4..]);
    CutShift(LeNat(m), LeNat(m[..i]), e, x + 0x1_0000_0000 * y, s);
    WordDigit(x, y, s, f, 0x400_0000);
  }

  lemma TopLimb(m: Bytes)
    requires |m| == 16
    ensures LeNat(m) / 0x100_0000_0000_0000_0000_0000_0000 == Le32(m[12..16]) as nat / 256
  {
    BytePowers();
    LoadAt(m, 12, 0x1_0000_0000_0000_0000_0000_0000);
    assert m[16..] == [];
    var x, e := Le32(m[12..16]) as nat, 0x1_0000_0000_0000_0000_0000_0000;
    DivDiv(LeNat(m), e, 256);
    ModUnique(LeNat(m), e, x, LeNat(m[..12]));
  }

  lemma Digits(n: nat)
    ensures n == Value((n / 1) % 0x400_0000, (n / 0x400_0000) % 0x400_0000, (n / 0x10_0000_0000_0000) % 0x400_0000,
                       (n / 0x4000_0000_0000_0000_0000) % 0x400_0000, n / 0x100_0000_0000_0000_0000_0000_0000)
  {
    DivDiv(n, 0x400_0000, 0x400_0000);
    DivDiv(n, 0x10_0000_0000_0000, 0x400_0000);
    DivDiv(n, 0x4000_0000_0000_0000_0000, 0x400_0000);
    DigitStep(n);
    DigitStep(n / 0x400_0000);
    DigitStep(n / 0x10_0000_0000_0000);
    DigitStep(n / 0x4000_0000_0000_0000_0000);
  }

  lemma DigitStep(n: nat)
    ensures n == n % 0x400_0000 + 0x400_0000 * (n / 0x400_0000)
  {
  }

  /** Five overlapping 32-bit loads, shifted by 0, 2, 4, 6 and 8 bits, cut the
      sixteen bytes into limbs without losing or repeating a bit. */
  lemma LimbsOfBytes(m: Bytes)
    requires |m| == 16
    ensures LeNat(m) == Value(Le32(m[0..4]) as nat % 0x400_0000, (Le32(m[3..7]) as nat / 4) % 0x400_0000,
                              (Le32(m[6..10]) as nat / 16) % 0x400_0000, (Le32(m[9..13]) as nat / 64) % 0x400_0000,
                              Le32(m[12..16]) as nat / 256)
  {
    hide *;
    BytePowers();
    Digits(LeNat(m));
    LimbAt(m, 0, 1, 1, 64);
    LimbAt(m, 3, 0x100_0000, 4, 16);
    LimbAt(m, 6, 0x1_0000_0000_0000, 16, 4);
    LimbAt(m, 9, 0x100_0000_0000_0000_0000, 64, 1);
    TopLimb(m);
  }

  lemma BytePowers()
    ensures Pow2(0) == 1 && Pow2(24) == 0x100_0000 && Pow2(48) == 0x1_0000_0000_0000
    ensures Pow2(72) == 0x100_0000_0000_0000_0000 && Pow2(96) == 0x1_0000_0000_0000_0000_0000_0000
  {
    Powers();
    Pow2Plus(8, 16);
    Pow2Plus(16, 32);
    Pow2Plus(8, 64);
    Pow2Plus(32, 64);
  }

  // ---- clamping the multiplier ----

  lemma AndLow(x: nat, mask: nat)
    requires mask < B26
    ensures AndNat(x, mask) == AndNat(x % B26, mask)
  {
    Powers();
    hide AndNat, Pow2;
    AndSplit(x / B26, x % B26, 0, mask, 26);
    NoHigh(x / B26);
  }

  lemma NoHigh(x: nat)
    ensures AndNat(x, 0) == 0
  {
  }

  lemma AndHorner(lo: nat, hi: nat, mlo: nat, mhi: nat)
    requires lo < B26 && mlo < B26
    ensures AndNat(lo + 0x400_0000 * hi, mlo + 0x400_0000 * mhi) == AndNat(lo, mlo) + 0x400_0000 * AndNat(hi, mhi)
  {
    Powers();
    hide AndNat, Pow2;
    AndSplit(hi, lo, mhi, mlo, 26);
  }

  lemma AndHorner3(n0: nat, n1: nat, t: nat, m0: nat, m1: nat, s: nat)
    requires n0 < B26 && n1 < B26 && m0 < B26 && m1 < B26
    ensures AndNat(n0 + 0x400_0000 * n1 + 0x10_0000_0000_0000 * t, m0 + 0x400_0000 * m1 + 0x10_0000_0000_0000 * s)
         == AndNat(n0, m0) + 0x400_0000 * AndNat(n1, m1) + 0x10_0000_0000_0000 * AndNat(t, s)
  {
    hide AndNat;
    AndHorner(n1, t, m1, s);
    AndHorner(n0, n1 + 0x400_0000 * t, m0, m1 + 0x400_0000 * s);
  }

  lemma AndValue(n0: nat, n1: nat, n2: nat, n3: nat, n4: nat, m0: nat, m1: nat, m2: nat, m3: nat, m4: nat)
    requires n0 < B26 && n1 < B26 && n2 < B26 && n3 < B26 && m0 < B26 && m1 < B26 && m2 < B26 && m3 < B26
    ensures AndNat(Value(n0, n1, n2, n3, n4), Value(m0, m1, m2, m3, m4))
         == Value(AndNat(n0, m0), AndNat(n1, m1), AndNat(n2, m2), AndNat(n3, m3), AndNat(n4, m4))
  {
    hide AndNat;
    hide Value;
    var t, s := n2 + 0x400_0000 * n3 + 0x10_0000_0000_0000 * n4, m2 + 0x400_0000 * m3 + 0x10_0000_0000_0000 * m4;
    AndHorner3(n2, n3, n4, m2, m3, m4);
    AndHorner3(n0, n1, t, m0, m1, s);
    ValueSplit(n0, n1, n2, n3, n4);
    ValueSplit(m0, m1, m2, m3, m4);
    ValueSplit(AndNat(n0, m0), AndNat(n1, m1), AndNat(n2, m2), AndNat(n3, m3), AndNat(n4, m4));
  }

  lemma ValueSplit(n0: int, n1: int, n2: int, n3: int, n4: int)
    ensures Value(n0, n1, n2, n3, n4)
         == n0 + 0x400_0000 * n1 + 0x10_0000_0000_0000 * (n2 + 0x400_0000 * n3 + 0x10_0000_0000_0000 * n4)
  {
  }

  /** The five masks are the limbs of the RFC clamp, so masking limb by limb clamps the number. */
  lemma ClampLimbs(n0: nat, n1: nat, n2: nat, n3: nat, n4: nat)
    requires n0 < B26 && n1 < B26 && n2 < B26 && n3 < B26
    ensures AndNat(Value(n0, n1, n2, n3, n4), Spec.CLAMP)
         == Value(AndNat(n0, 0x3ff_ffff), AndNat(n1, 0x3ff_ff03), AndNat(n2, 0x3ff_c0ff), AndNat(n3, 0x3f0_3fff),
                  AndNat(n4, 0xf_ffff))
  {
    AndValue(n0, n1, n2, n3, n4, 0x3ff_ffff, 0x3ff_ff03, 0x3ff_c0ff, 0x3f0_3fff, 0xf_ffff);
  }

  method ClampedMultiplier(key: Bytes) returns (r: Limbs)
    requires |key| == 32
    ensures Below(r, B26) && ValueOf(r) == Spec.ClampedR(key)
  {
    var r0 := And(Le32(key[0..4]), 0x03ff_ffff);
    var r1 := And(Le32(key[3..7]) / 4, 0x03ff_ff03);
    var r2 := And(Le32(key[6..10]) / 16, 0x03ff_c0ff);
    var r3 := And(Le32(key[9..13]) / 64, 0x03f0_3fff);
    var r4 := And(Le32(key[12..16]) / 256, 0x000f_ffff);
    r := Limbs(r0, r1, r2, r3, r4);
    ClampedValue(key);
  }

  lemma ClampedValue(key: Bytes)
    requires |key| == 32
    ensures Spec.ClampedR(key) == Value(AndNat(Le32(key[0..4]) as nat, 0x3ff_ffff),
      AndNat((Le32(key[3..7]) / 4) as nat, 0x3ff_ff03),
      AndNat((Le32(key[6..10]) / 16) as nat, 0x3ff_c0ff), AndNat((Le32(key[9..13]) / 64) as nat, 0x3f0_3fff),
      AndNat((Le32(key[12..16]) / 256) as nat, 0xf_ffff))
  {
    var m := key[..16];
    assert m[0..4] == key[0..4] && m[3..7] == key[3..7] && m[6..10] == key[6..10] && m[9..13] == key[9..13]
      && m[12..16] == key[12..16];
    LimbsOfBytes(m);
    ClampLimbs(Le32(m[0..4]) as nat % B26, (Le32(m[3..7]) as nat / 4) % B26, (Le32(m[6..10]) as nat / 16) % B26,
               (Le32(m[9..13]) as nat / 64) % B26, Le32(m[12..16]) as nat / 256);
    AndLow(Le32(m[0..4]) as nat, 0x3ff_ffff);
    AndLow(Le32(m[3..7]) as nat / 4, 0x3ff_ff03);
    AndLow(Le32(m[6..10]) as nat / 16, 0x3ff_c0ff);
    AndLow(Le32(m[9..13]) as nat / 64, 0x3f0_3fff);
  }

  // ---- adding a block ----

  /** A 16-byte block as limbs; a full block carries 2^128 in `hibit`. */
  lemma FullBlock(chunk: Bytes)
    requires |chunk| == 16
    ensures Spec.BlockNum(chunk) == LeNat(chunk) + 0x1_0000_0000_0000_0000_0000_0000_0000_0000
  {
    LeConcat(chunk, [1]);
    Powers();
    assert LeNat([1]) == 1;
  }

  lemma PartialBlock(chunk: Bytes)
    requires |chunk| < 16
    ensures Spec.BlockNum(chunk) == LeNat(chunk + [1] + Zeros(15 - |chunk|))
  {
    hide LeNat, Zeros;
    LeAppendZeros(chunk + [1], 15 - |chunk|);
  }

  lemma OrHibit(x: nat, hibit: nat)
    requires x < 0x100_0000 && hibit in {0, 0x100_0000}
    ensures OrNat(x, hibit) == x + hibit
  {
    Powers();
    if hibit != 0 {
      OrDisjoint(x, 1, 24);
    }
  }

  method AddBlock(h: Limbs, chunk: Bytes) returns (u: Limbs)
    requires Loose(h) && 0 < |chunk| <= 16
    ensures Below(u, LIMB_MAX)
    ensures ValueOf(u) == ValueOf(h) + Spec.BlockNum(chunk)
  {
    hide LeNat, Pow2, OrNat;
    var m, hibit;
    if |chunk| == 16 {
      m, hibit := chunk, 0x100_0000;
      FullBlock(chunk);
    } else {
      m, hibit := chunk + [1] + Zeros(15 - |chunk|), 0;
      PartialBlock(chunk);
    }
    LimbsOfBytes(m);
    Powers();
    BytePowers();
    OrHibit(Le32(m[12..16]) as nat / 256, hibit as nat);
    var h0 := h.l0 + Low26w(Le32(m[0..4]));
    var h1 := h.l1 + Low26w(Le32(m[3..7]) / 4);
    var h2 := h.l2 + Low26w(Le32(m[6..10]) / 16);
    var h3 := h.l3 + Low26w(Le32(m[9..13]) / 64);
    var h4 := h.l4 + Or(Le32(m[12..16]) / 256, hibit);
    u := Limbs(h0, h1, h2, h3, h4);
  }

  // ---- multiplying modulo 2^130 - 5 ----

  lemma Times(x: int, v0: int, v1: int, v2: int, v3: int, v4: int)
    ensures x * Value(v0, v1, v2, v3, v4) == Value(x * v0, x * v1, x * v2, x * v3, x * v4)
  {
  }

  /** Schoolbook multiplication with 2^130 replaced by 5, on the 25 partial products. */
  lemma Fold(p00: int, p01: int, p02: int, p03: int, p04: int, p10: int, p11: int, p12: int, p13: int, p14: int,
             p20: int, p21: int, p22: int, p23: int, p24: int, p30: int, p31: int, p32: int, p33: int, p34: int,
             p40: int, p41: int, p42: int, p43: int, p44: int)
    ensures Value(Value(p00, p01, p02, p03, p04), Value(p10, p11, p12, p13, p14), Value(p20, p21, p22, p23, p24),
                  Value(p30, p31, p32, p33, p34), Value(p40, p41, p42, p43, p44))
         == Spec.P * Value(p14 + p23 + p32 + p41, p24 + p33 + p42, p34 + p43, p44, 0) + Value(
        p00 + 5 * p14 + 5 * p23 + 5 * p32 + 5 * p41,
        p01 + p10 + 5 * p24 + 5 * p33 + 5 * p42,
        p02 + p11 + p20 + 5 * p34 + 5 * p43,
        p03 + p12 + p21 + p30 + 5 * p44,
        p04 + p13 + p22 + p31 + p40)
  {
  }

  lemma Schoolbook(u0: int, u1: int, u2: int, u3: int, u4: int, v0: int, v1: int, v2: int, v3: int, v4: int)
    returns (q: int)
    ensures Value(u0, u1, u2, u3, u4) * Value(v0, v1, v2, v3, v4) == Spec.P * q + Value(
        u0 * v0 + 5 * (u1 * v4) + 5 * (u2 * v3) + 5 * (u3 * v2) + 5 * (u4 * v1),
        u0 * v1 + u1 * v0 + 5 * (u2 * v4) + 5 * (u3 * v3) + 5 * (u4 * v2),
        u0 * v2 + u1 * v1 + u2 * v0 + 5 * (u3 * v4) + 5 * (u4 * v3),
        u0 * v3 + u1 * v2 + u2 * v1 + u3 * v0 + 5 * (u4 * v4),
        u0 * v4 + u1 * v3 + u2 * v2 + u3 * v1 + u4 * v0)
  {
    var w := Value(v0, v1, v2, v3, v4);
    Times(w, u0, u1, u2, u3, u4);
    Times(u0, v0, v1, v2, v3, v4);
    Times(u1, v0, v1, v2, v3, v4);
    Times(u2, v0, v1, v2, v3, v4);
    Times(u3, v0, v1, v2, v3, v4);
    Times(u4, v0, v1, v2, v3, v4);
    q := Value(u1 * v4 + u2 * v3 + u3 * v2 + u4 * v1, u2 * v4 + u3 * v3 + u4 * v2, u3 * v4 + u4 * v3, u4 * v4, 0);
    Fold(u0 * v0, u0 * v1, u0 * v2, u0 * v3, u0 * v4, u1 * v0, u1 * v1, u1 * v2, u1 * v3, u1 * v4,
         u2 * v0, u2 * v1, u2 * v2, u2 * v3, u2 * v4, u3 * v0, u3 * v1, u3 * v2, u3 * v3, u3 * v4,
         u4 * v0, u4 * v1, u4 * v2, u4 * v3, u4 * v4);
  }

  method CarryChain(d0: u64, e1: u64, e2: u64, e3: u64, e4: u64) returns (h: Limbs)
    requires d0 as nat <= 25 * LIMB_MAX * B26 && e1 as nat <= 25 * LIMB_MAX * B26 && e2 as nat <= 25 * LIMB_MAX * B26
    requires e3 as nat <= 25 * LIMB_MAX * B26 && e4 as nat <= 5 * LIMB_MAX * B26
    ensures Loose(h)
    ensures exists c: nat :: Value(d0 as int, e1 as int, e2 as int, e3 as int, e4 as int) == ValueOf(h) + Spec.P * c
  {
    var d1, d2, d3, d4 := e1, e2, e3, e4;
    var c := d0 / 0x400_0000;
    var h0 := Low26(d0);
    d1 := d1 + c;
    c := d1 / 0x400_0000;
    var h1 := Low26(d1);
    d2 := d2 + c;
    c := d2 / 0x400_0000;
    var h2 := Low26(d2);
    d3 := d3 + c;
    c := d3 / 0x400_0000;
    var h3 := Low26(d3);
    d4 := d4 + c;
    c := d4 / 0x400_0000;
    var h4 := Low26(d4);
    var t := h0 as u64 + c * 5;
    h0 := Low26(t);
    h1 := h1 + (t / 0x400_0000) as u32;
    h := Limbs(h0, h1, h2, h3, h4);
    assert Value(d0 as int, e1 as int, e2 as int, e3 as int, e4 as int) == ValueOf(h) + Spec.P * c as nat;
  }

  lemma CongruentBy(x: int, y: int, q: int)
    requires x == y + Spec.P * q
    ensures x % Spec.P == y % Spec.P
  {
  }

  /** One block step: limb products and carries stay inside 64 bits, and the
      result is the product modulo 2^130 - 5. */
  method MulReduce(u: Limbs, r: Limbs) returns (h: Limbs)
    requires Below(u, LIMB_MAX) && Below(r, B26)
    ensures Loose(h)
    ensures ValueOf(h) % Spec.P == (ValueOf(u) * ValueOf(r)) % Spec.P
  {
    var s1, s2, s3, s4 := r.l1 * 5, r.l2 * 5, r.l3 * 5, r.l4 * 5;
    var d0 := Mul(u.l0, r.l0) + Mul(u.l1, s4) + Mul(u.l2, s3) + Mul(u.l3, s2) + Mul(u.l4, s1);
    var d1 := Mul(u.l0, r.l1) + Mul(u.l1, r.l0) + Mul(u.l2, s4) + Mul(u.l3, s3) + Mul(u.l4, s2);
    var d2 := Mul(u.l0, r.l2) + Mul(u.l1, r.l1) + Mul(u.l2, r.l0) + Mul(u.l3, s4) + Mul(u.l4, s3);
    var d3 := Mul(u.l0, r.l3) + Mul(u.l1, r.l2) + Mul(u.l2, r.l1) + Mul(u.l3, r.l0) + Mul(u.l4, s4);
    var d4 := Mul(u.l0, r.l4) + Mul(u.l1, r.l3) + Mul(u.l2, r.l2) + Mul(u.l3, r.l1) + Mul(u.l4, r.l0);
    ghost var q := Products(u, r, d0 as int, d1 as int, d2 as int, d3 as int, d4 as int);
    h := CarryChain(d0, d1, d2, d3, d4);
    ghost var c: nat :| Value(d0 as int, d1 as int, d2 as int, d3 as int, d4 as int) == ValueOf(h) + Spec.P * c;
    CongruentBy(ValueOf(u) * ValueOf(r), ValueOf(h), q + c);
  }

  lemma FiveTimes(a: int, b: int)
    ensures a * (b * 5) == 5 * (a * b)
  {
  }

  lemma Products(u: Limbs, r: Limbs, d0: int, d1: int, d2: int, d3: int, d4: int) returns (q: int)
    requires
      var u0, u1, u2, u3, u4 := u.l0 as int, u.l1 as int, u.l2 as int, u.l3 as int, u.l4 as int;
      var v0, v1, v2, v3, v4 := r.l0 as int, r.l1 as int, r.l2 as int, r.l3 as int, r.l4 as int;
      && d0 == u0 * v0 + u1 * (v4 * 5) + u2 * (v3 * 5) + u3 * (v2 * 5) + u4 * (v1 * 5)
      && d1 == u0 * v1 + u1 * v0 + u2 * (v4 * 5) + u3 * (v3 * 5) + u4 * (v2 * 5)
      && d2 == u0 * v2 + u1 * v1 + u2 * v0 + u3 * (v4 * 5) + u4 * (v3 * 5)
      && d3 == u0 * v3 + u1 * v2 + u2 * v1 + u3 * v0 + u4 * (v4 * 5)
      && d4 == u0 * v4 + u1 * v3 + u2 * v2 + u3 * v1 + u4 * v0
    ensures ValueOf(u) * ValueOf(r) == Spec.P * q + Value(d0, d1, d2, d3, d4)
  {
    var u0, u1, u2, u3, u4 := u.l0 as int, u.l1 as int, u.l2 as int, u.l3 as int, u.l4 as int;
    var v0, v1, v2, v3, v4 := r.l0 as int, r.l1 as int, r.l2 as int, r.l3 as int, r.l4 as int;
    FiveTimes(u1, v4); FiveTimes(u2, v3); FiveTimes(u3, v2); FiveTimes(u4, v1);
    FiveTimes(u2, v4); FiveTimes(u3, v3); FiveTimes(u4, v2);
    FiveTimes(u3, v4); FiveTimes(u4, v3); FiveTimes(u4, v4);
    q := Schoolbook(u0, u1, u2, u3, u4, v0, v1, v2, v3, v4);
  }

  // ---- the final reduction and the tag ----

  /** `c = d >> 26; d &= 0x03ff_ffff` */
  method SplitWord(d: u32) returns (c: u32, low: u32)
    ensures d as nat == low as nat + 0x400_0000 * c as nat && low as nat < 0x400_0000
  {
    c := d / 0x400_0000;
    low := Low26w(d);
  }

  /** The last carry chain: whatever reached limb 0 through the 5x wrap-around,
      its carry into limb 1 cannot overflow that limb again. */
  method FullCarry(a: Limbs) returns (h: Limbs)
    requires Loose(a)
    ensures Below(h, B26)
    ensures ValueOf(h) % Spec.P == ValueOf(a) % Spec.P
  {
    var h0, h1, h2, h3, h4 := a.l0, a.l1, a.l2, a.l3, a.l4;
    var c;
    c, h1 := SplitWord(h1);
    h2 := h2 + c;
    c, h2 := SplitWord(h2);
    h3 := h3 + c;
    c, h3 := SplitWord(h3);
    h4 := h4 + c;
    c, h4 := SplitWord(h4);
    ghost var top := c as int;
    h0 := h0 + c * 5;
    c, h0 := SplitWord(h0);
    h1 := h1 + c;
    h := Limbs(h0, h1, h2, h3, h4);
    CongruentBy(ValueOf(a), ValueOf(h), top);
  }

  function WrappingAdd(a: u32, b: u32): (w: u32)
    ensures a as int + b as int < 0x1_0000_0000 ==> w as int == a as int + b as int
  {
    ((a as int + b as int) % 0x1_0000_0000) as u32
  }

  function WrappingSub(a: u32, b: u32): u32 {
    ((a as int - b as int) % 0x1_0000_0000) as u32
  }

  lemma {:induction false} AndZero(a: nat)
    ensures AndNat(a, 0) == 0 && AndNat(0, a) == 0
  {
  }

  lemma AndOnes(a: u32)
    ensures AndNat(a as nat, 0xffff_ffff) == a as nat
  {
    Powers();
    hide AndNat, Pow2;
    AndMask(a as nat, 32);
  }

  /** `(h & !mask) | (g & mask)` with an all-ones or all-zeros mask picks one operand. */
  function Select(h: u32, g: u32, mask: u32): (w: u32)
    requires mask in {0, 0xffff_ffff}
    ensures w == if mask == 0 then h else g
  {
    AndOnes(h);
    AndOnes(g);
    AndZero(h as nat);
    AndZero(g as nat);
    Or(And(h, Not(mask)), And(g, mask))
  }

  /** The top limb of `h + 5 - 2^130`, and a mask that is all ones iff it did not underflow. */
  method Borrow(h4: u32, c: u32) returns (g4: u32, mask: u32)
    requires h4 as int < 0x400_0000 && c <= 1
    ensures mask == if h4 as int + c as int < 0x400_0000 then 0 else 0xffff_ffff
    ensures mask != 0 ==> g4 as int == h4 as int + c as int - 0x400_0000
  {
    g4 := WrappingSub(WrappingAdd(h4, c), 0x400_0000);
    mask := WrappingSub(g4 / 0x8000_0000, 1);
  }

  /** `g = h + 5 - 2^130`: one subtraction of the modulus, if it fits. */
  method MinusP(h: Limbs) returns (g: Limbs, mask: u32)
    requires Below(h, B26)
    ensures mask == if ValueOf(h) < Spec.P then 0 else 0xffff_ffff
    ensures mask != 0 ==> Below(g, B26) && ValueOf(g) == ValueOf(h) - Spec.P
  {
    var c, g0, g1, g2, g3, g4;
    c, g0 := SplitWord(WrappingAdd(h.l0, 5));
    c, g1 := SplitWord(WrappingAdd(h.l1, c));
    c, g2 := SplitWord(WrappingAdd(h.l2, c));
    c, g3 := SplitWord(WrappingAdd(h.l3, c));
    ghost var top := h.l4 as int + c as int;
    g4, mask := Borrow(h.l4, c);
    g := Limbs(g0, g1, g2, g3, g4);
    assert Value(g0 as int, g1 as int, g2 as int, g3 as int, top) == ValueOf(h) + 5;
  }

  method Canonical(h: Limbs) returns (k: Limbs)
    requires Below(h, B26)
    ensures Below(k, B26) && ValueOf(k) == ValueOf(h) % Spec.P
  {
    var g, mask := MinusP(h);
    k := Limbs(Select(h.l0, g.l0, mask), Select(h.l1, g.l1, mask), Select(h.l2, g.l2, mask),
               Select(h.l3, g.l3, mask), Select(h.l4, g.l4, mask));
    ReducedOnce(ValueOf(h));
  }

  lemma ReducedOnce(h: nat)
    requires h < Spec.P + 5
    ensures h % Spec.P == if h < Spec.P then h else h - Spec.P
  {
  }

  lemma ModScale(a: nat, f: nat, m: nat)
    requires f > 0 && m > 0 && f * m == 0x1_0000_0000
    ensures (a * f) % 0x1_0000_0000 == (a % m) * f
  {
    var q, r := a / m, a % m;
    assert a == q * m + r;
    assert a * f == q * (f * m) + r * f;
    assert r * f < m * f;
    ModUnique(a * f, 0x1_0000_0000, q, r * f);
  }

  /** `lo | (hi << k)` for `f == 2^k`, with the bits shifted out of the word dropped. */
  method Join(lo: u32, hi: u32, ghost k: nat, f: nat, ghost m: nat) returns (w: u32)
    requires f == Pow2(k) && m > 0 && f * m == 0x1_0000_0000 && lo as nat < f
    ensures w as nat == lo as nat + (hi as nat % m) * f
  {
    ModScale(hi as nat, f, m);
    OrDisjoint(lo as nat, hi as nat % m, k);
    var shifted := ((hi as nat * f) % 0x1_0000_0000) as u32;
    w := Or(lo, shifted);
  }

  /** The low 128 bits of the accumulator, cut into four words. */
  method PackWords(h: Limbs) returns (w0: u32, w1: u32, w2: u32, w3: u32)
    requires Below(h, B26)
    ensures FourWords(w0, w1, w2, w3) == ValueOf(h) % 0x1_0000_0000_0000_0000_0000_0000_0000_0000
  {
    SmallPowers();
    w0 := Join(h.l0, h.l1, 26, 0x400_0000, 0x40);
    w1 := Join(h.l1 / 0x40, h.l2, 20, 0x10_0000, 0x1000);
    w2 := Join(h.l2 / 0x1000, h.l3, 14, 0x4000, 0x4_0000);
    w3 := Join(h.l3 / 0x4_0000, h.l4, 8, 0x100, 0x100_0000);
    Repack(h.l0 as nat, h.l1 as nat, h.l2 as nat, h.l3 as nat, h.l4 as nat);
  }

  function FourWords(w0: u32, w1: u32, w2: u32, w3: u32): (n: nat)
    ensures n < 0x1_0000_0000_0000_0000_0000_0000_0000_0000
  {
    w0 as nat + w1 as nat * 0x1_0000_0000 + w2 as nat * 0x1_0000_0000_0000_0000
    + w3 as nat * 0x1_0000_0000_0000_0000_0000_0000
  }

  lemma SmallPowers()
    ensures Pow2(8) == 0x100 && Pow2(14) == 0x4000 && Pow2(20) == 0x10_0000 && Pow2(26) == 0x400_0000
  {
    Powers();
    Pow2Plus(6, 8);
    Pow2Plus(4, 16);
  }

  /** The words hold the bits of the limbs, but for the top limb's beyond the 128th. */
  lemma RepackExact(h0: nat, h1: nat, h2: nat, h3: nat, low4: nat)
    ensures (h0 + (h1 % 0x40) * 0x400_0000) + (h1 / 0x40 + (h2 % 0x1000) * 0x10_0000) * 0x1_0000_0000
          + (h2 / 0x1000 + (h3 % 0x4_0000) * 0x4000) * 0x1_0000_0000_0000_0000
          + (h3 / 0x4_0000 + low4 * 0x100) * 0x1_0000_0000_0000_0000_0000_0000
         == Value(h0, h1, h2, h3, low4)
  {
    var a1, a2, a3 := h1 / 0x40, h2 / 0x1000, h3 / 0x4_0000;
    assert h1 == a1 * 0x40 + h1 % 0x40 && h2 == a2 * 0x1000 + h2 % 0x1000 && h3 == a3 * 0x4_0000 + h3 % 0x4_0000;
  }

  lemma LowValue(h0: nat, h1: nat, h2: nat, h3: nat, h4: nat)
    requires h0 < 0x400_0000 && h1 < 0x400_0000 && h2 < 0x400_0000 && h3 < 0x400_0000
    ensures Value(h0, h1, h2, h3, h4) % 0x1_0000_0000_0000_0000_0000_0000_0000_0000
      == Value(h0, h1, h2, h3, h4 % 0x100_0000)
  {
    hide *;
    TopApart(h0, h1, h2, h3, h4 / 0x100_0000, h4 % 0x100_0000);
    assert h4 == h4 / 0x100_0000 * 0x100_0000 + h4 % 0x100_0000;
    Remainder(Value(h0, h1, h2, h3, h4), h4 / 0x100_0000, Value(h0, h1, h2, h3, h4 % 0x100_0000));
  }

  lemma TopApart(h0: nat, h1: nat, h2: nat, h3: nat, top: nat, low4: nat)
    requires h0 < 0x400_0000 && h1 < 0x400_0000 && h2 < 0x400_0000 && h3 < 0x400_0000 && low4 < 0x100_0000
    ensures Value(h0, h1, h2, h3, top * 0x100_0000 + low4)
      == Value(h0, h1, h2, h3, low4) + top * 0x1_0000_0000_0000_0000_0000_0000_0000_0000
    ensures 0 <= Value(h0, h1, h2, h3, low4) < 0x1_0000_0000_0000_0000_0000_0000_0000_0000
  {
  }

  lemma Remainder(a: int, q: int, r: int)
    requires a == r + q * 0x1_0000_0000_0000_0000_0000_0000_0000_0000
    requires 0 <= r < 0x1_0000_0000_0000_0000_0000_0000_0000_0000
    ensures a % 0x1_0000_0000_0000_0000_0000_0000_0000_0000 == r
  {
  }

  /** Words at bit offsets 0, 32, 64 and 96 hold the bits of the limbs at 0, 26, 52, 78 and 104. */
  lemma Repack(h0: nat, h1: nat, h2: nat, h3: nat, h4: nat)
    requires h0 < 0x400_0000 && h1 < 0x400_0000 && h2 < 0x400_0000 && h3 < 0x400_0000 && h4 < 0x400_0000
    ensures (h0 + (h1 % 0x40) * 0x400_0000) + (h1 / 0x40 + (h2 % 0x1000) * 0x10_0000) * 0x1_0000_0000
          + (h2 / 0x1000 + (h3 % 0x4_0000) * 0x4000) * 0x1_0000_0000_0000_0000
          + (h3 / 0x4_0000 + (h4 % 0x100_0000) * 0x100) * 0x1_0000_0000_0000_0000_0000_0000
         == Value(h0, h1, h2, h3, h4) % 0x1_0000_0000_0000_0000_0000_0000_0000_0000
  {
    LowValue(h0, h1, h2, h3, h4);
    RepackExact(h0, h1, h2, h3, h4 % 0x100_0000);
    hide Value;
  }

  /** `out = (h + s) mod 2^128`, four words with a 64-bit carry. */
  method AddPad(h: Limbs, pad: Bytes) returns (tag: Bytes)
    requires Below(h, B26) && |pad| == 16
    ensures |tag| == 16
    ensures LeNat(tag) == (ValueOf(h) + LeNat(pad)) % 0x1_0000_0000_0000_0000_0000_0000_0000_0000
  {
    hide LeNat, Pow2, Le32, LeEncode, FourWords, Value;
    var hh0, hh1, hh2, hh3 := PackWords(h);
    var t0, t1, t2, t3, c;
    var p0, p1, p2, p3 := Le32(pad[0..4]), Le32(pad[4..8]), Le32(pad[8..12]), Le32(pad[12..16]);
    SixteenBytes(pad);
    t0, t1, t2, t3, c := AddWords(hh0, hh1, hh2, hh3, p0, p1, p2, p3);
    tag := TagBytes(t0, t1, t2, t3);
    SumModulo(ValueOf(h), FourWords(hh0, hh1, hh2, hh3), LeNat(pad), FourWords(t0, t1, t2, t3), c as nat);
  }

  method AddWords(a0: u32, a1: u32, a2: u32, a3: u32, b0: u32, b1: u32, b2: u32, b3: u32)
    returns (t0: u32, t1: u32, t2: u32, t3: u32, c: u64)
    ensures FourWords(a0, a1, a2, a3) + FourWords(b0, b1, b2, b3)
         == FourWords(t0, t1, t2, t3) + c as nat * 0x1_0000_0000_0000_0000_0000_0000_0000_0000
  {
    t0, c := AddWord(a0, b0, 0);
    t1, c := AddWord(a1, b1, c);
    t2, c := AddWord(a2, b2, c);
    t3, c := AddWord(a3, b3, c);
  }

  method TagBytes(t0: u32, t1: u32, t2: u32, t3: u32) returns (tag: Bytes)
    ensures |tag| == 16 && LeNat(tag) == FourWords(t0, t1, t2, t3)
  {
    var b0, b1, b2, b3 := LeEncode(t0 as nat, 4), LeEncode(t1 as nat, 4), LeEncode(t2 as nat, 4),
      LeEncode(t3 as nat, 4);
    tag := b0 + b1 + b2 + b3;
    SixteenBytes(tag);
    EncodeWord(t0); EncodeWord(t1); EncodeWord(t2); EncodeWord(t3);
    assert tag[0..4] == b0 && tag[4..8] == b1 && tag[8..12] == b2 && tag[12..16] == b3;
  }

  /** One word of the addition: `f = a + b + (f >> 32)`. */
  method AddWord(a: u32, b: u32, carry: u64) returns (t: u32, c: u64)
    requires carry <= 1
    ensures c <= 1 && a as nat + b as nat + carry as nat == t as nat + 0x1_0000_0000 * c as nat
  {
    var f := a as u64 + b as u64 + carry;
    t := (f % 0x1_0000_0000) as u32;
    c := f / 0x1_0000_0000;
  }

  lemma EncodeWord(t: u32)
    ensures |LeEncode(t as nat, 4)| == 4 && Le32(LeEncode(t as nat, 4)) == t
  {
    Powers();
    LeEncodeDecode(t as nat, 4);
    Le32Nat(LeEncode(t as nat, 4));
  }

  lemma SixteenBytes(m: Bytes)
    requires |m| == 16
    ensures LeNat(m) == FourWords(Le32(m[0..4]), Le32(m[4..8]), Le32(m[8..12]), Le32(m[12..16]))
  {
    LoadWord(m, 0);
    LoadWord(m, 4);
    LoadWord(m, 8);
    LoadWord(m, 12);
    assert m[0..] == m && m[16..] == [];
  }

  lemma SumModulo(h: nat, low: nat, pad: nat, tag: nat, c: nat)
    requires low == h % 0x1_0000_0000_0000_0000_0000_0000_0000_0000
    requires tag < 0x1_0000_0000_0000_0000_0000_0000_0000_0000
    requires low + pad == tag + c * 0x1_0000_0000_0000_0000_0000_0000_0000_0000
    ensures tag == (h + pad) % 0x1_0000_0000_0000_0000_0000_0000_0000_0000
  {
    var q := h / 0x1_0000_0000_0000_0000_0000_0000_0000_0000;
    assert h + pad == tag + (q + c) * 0x1_0000_0000_0000_0000_0000_0000_0000_0000;
  }

  // ---- the whole authenticator ----

  lemma AbsorbStep(h: nat, u: nat, n: nat, r: nat, msg: Bytes)
    requires msg != [] && u == h + Spec.BlockNum(msg[..Spec.FirstLen(msg)])
    requires n % Spec.P == (u * r) % Spec.P
    ensures Spec.Absorb(h % Spec.P, r, msg) == Spec.Absorb(n % Spec.P, r, msg[Spec.FirstLen(msg)..])
  {
    ProductModulo(h, Spec.BlockNum(msg[..Spec.FirstLen(msg)]), r);
  }

  lemma ProductModulo(x: nat, b: nat, r: nat)
    ensures ((x % Spec.P + b) * r) % Spec.P == ((x + b) * r) % Spec.P
  {
    var q, m := x / Spec.P, x % Spec.P;
    assert x == m + Spec.P * q;
    assert (x + b) * r == (m + b) * r + (Spec.P * q) * r;
    assert (Spec.P * q) * r == Spec.P * (q * r);
    CongruentBy((x + b) * r, (m + b) * r, q * r);
  }

  /** The block loop: the loose accumulator stays congruent to the integer one. */
  method AbsorbAll(r: Limbs, msg: Bytes) returns (h: Limbs)
    requires Below(r, B26)
    ensures Loose(h) && Spec.Absorb(0, ValueOf(r), msg) == ValueOf(h) % Spec.P
  {
    hide ValueOf, Spec.BlockNum;
    h := Limbs(0, 0, 0, 0, 0);
    assert ValueOf(h) == 0 by { ZeroValue(); }
    var i := 0;
    assert msg[0..] == msg;
    while i < |msg|
      invariant 0 <= i <= |msg|
      invariant Loose(h)
      invariant Spec.Absorb(0, ValueOf(r), msg) == Spec.Absorb(ValueOf(h) % Spec.P, ValueOf(r), msg[i..])
    {
      var n := Spec.FirstLen(msg[i..]);
      assert msg[i..][..n] == msg[i..i + n] && msg[i..][n..] == msg[i + n..];
      var u := AddBlock(h, msg[i..i + n]);
      var next := MulReduce(u, r);
      AbsorbStep(ValueOf(h), ValueOf(u), ValueOf(next), ValueOf(r), msg[i..]);
      h, i := next, i + n;
    }
    assert msg[i..] == [];
  }

  lemma ZeroValue()
    ensures ValueOf(Limbs(0, 0, 0, 0, 0)) == 0
  {
  }

  /** For every key and message the limb code computes the tag of the standard. */
  method Poly1305(key: Bytes, msg: Bytes) returns (tag: Bytes)
    requires |key| == 32
    ensures |tag| == 16 && LeNat(tag) == Spec.Tag(key, msg)
  {
    hide LeNat, ValueOf, Spec.Absorb;
    var r := ClampedMultiplier(key);
    var h := AbsorbAll(r, msg);
    h := FullCarry(h);
    h := Canonical(h);
    tag := AddPad(h, key[16..]);
  }
}
