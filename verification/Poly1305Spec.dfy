/** The one-time authenticator of RFC 8439, section 2.5: the reference definition
    over the integers, and the 26-bit-limb implementation refined against it. */
module Poly1305Spec {
  import opened Words

  const P: nat := 0x4_0000_0000_0000_0000_0000_0000_0000_0000 - 5
  const CLAMP: nat := 0x0fff_fffc_0fff_fffc_0fff_fffc_0fff_ffff

  /** A block read as a little-endian number with a one byte appended. */
  function BlockNum(block: Bytes): nat {
    LeNat(block + [1])
  }

  function FirstLen(msg: Bytes): (n: nat)
    requires msg != []
    ensures 0 < n <= 16 && n <= |msg|
  {
    if |msg| < 16 then |msg| else 16
  }

  /** The accumulator after absorbing `msg`, starting from `acc`. */
  function Absorb(acc: nat, r: nat, msg: Bytes): nat
    decreases |msg|
  {
    if msg == [] then acc
    else
      var n := FirstLen(msg);
      Absorb(((acc + BlockNum(msg[..n])) * r) % P, r, msg[n..])
  }

  function ClampedR(key: Bytes): nat
    requires |key| == 32
  {
    AndNat(LeNat(key[..16]), CLAMP)
  }

  function Tag(key: Bytes, msg: Bytes): nat
    requires |key| == 32
  {
    (Absorb(0, ClampedR(key), msg) + LeNat(key[16..])) % 0x1_0000_0000_0000_0000_0000_0000_0000_0000
  }

  // ---- the accumulator is one polynomial in r ----

  function Blocks(msg: Bytes): (bs: seq<nat>)
    decreases |msg|
  {
    if msg == [] then [] else [BlockNum(msg[..FirstLen(msg)])] + Blocks(msg[FirstLen(msg)..])
  }

  function Power(r: nat, k: nat): nat {
    if k == 0 then 1 else r * Power(r, k - 1)
  }

  /** `sum over i of blocks[i] * r^(n-i)`: the first block carries the highest power. */
  function Polynomial(bs: seq<nat>, r: nat): nat {
    if bs == [] then 0 else bs[0] * Power(r, |bs|) + Polynomial(bs[1..], r)
  }

  lemma ModCongruent(a: int, b: int, q: int)
    requires a == b + q * P
    ensures a % P == b % P
  {
  }

  /** Absorbing block by block with a reduction at each step evaluates the polynomial. */
  lemma {:induction false} AbsorbIsPolynomial(acc: nat, r: nat, msg: Bytes)
    ensures Absorb(acc, r, msg) % P == (acc * Power(r, |Blocks(msg)|) + Polynomial(Blocks(msg), r)) % P
    decreases |msg|
  {
    if msg != [] {
      var n := FirstLen(msg);
      var b, rest := BlockNum(msg[..n]), msg[n..];
      var x := (acc + b) * r;
      AbsorbIsPolynomial(x % P, r, rest);
      var k := Power(r, |Blocks(rest)|);
      var t := Polynomial(Blocks(rest), r);
      assert Blocks(msg)[1..] == Blocks(rest);
      Expand(acc, b, r, k);
      Distribute(x, k);
      ModCongruent(x * k + t, (x % P) * k + t, (x / P) * k);
    }
  }

  lemma Expand(acc: nat, b: nat, r: nat, k: nat)
    ensures (acc + b) * r * k == acc * (r * k) + b * (r * k)
  {
  }

  lemma Distribute(x: nat, k: nat)
    ensures x * k == (x % P) * k + (x / P) * k * P
  {
    var q, m := x / P, x % P;
    assert x == m + q * P;
    assert (m + q * P) * k == m * k + q * P * k;
    assert q * P * k == q * k * P;
  }
}
