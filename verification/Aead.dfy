/** ChaCha20-Poly1305 seal and open (section 2.8 of RFC 8439), over the limb
    authenticator and an arbitrary keystream block function, and HKDF's expand loop. */
module Aead {
  import opened Words
  import Spec = Poly1305Spec
  import Poly1305
  import opened Wrappers

  function Xor8(a: u8, b: u8): (c: u8)
  {
    Powers();
    XorBelow(a as nat, b as nat, 8);
    XorNat(a as nat, b as nat) as u8
  }

  lemma Xor8Twice(a: u8, b: u8)
    ensures Xor8(Xor8(a, b), b) == a
  {
    XorInvolution(a as nat, b as nat);
  }

  lemma Xor8Zero(a: u8, b: u8)
    ensures Xor8(a, b) == 0 <==> a == b
  {
    if a == b {
      XorZero(a as nat);
    } else {
      XorInvolution(a as nat, b as nat);
    }
  }

  function Or8(a: u8, b: u8): (c: u8)
    ensures c == 0 <==> a == 0 && b == 0
  {
    Powers();
    OrBelow(a as nat, b as nat, 8);
    OrNat(a as nat, b as nat) as u8
  }

  /** The comparison looks at every byte and still decides equality. */
  method ConstantTimeEq(a: Bytes, b: Bytes) returns (same: bool)
    ensures same <==> a == b
  {
    if |a| != |b| {
      return false;
    }
    var diff: u8 := 0;
    for i := 0 to |a|
      invariant diff == 0 <==> a[..i] == b[..i]
    {
      Xor8Zero(a[i], b[i]);
      assert a[..i + 1] == a[..i] + [a[i]] && b[..i + 1] == b[..i] + [b[i]];
      diff := Or8(diff, Xor8(a[i], b[i]));
    }
    assert a[..|a|] == a && b[..|b|] == b;
    same := diff == 0;
  }

  // ---- the cipher ----

  /** `block(key, counter, nonce)`: 64 bytes of keystream. */
  type Block = (Bytes, u32, Bytes) -> Bytes

  ghost predicate KeyStream(block: Block) {
    forall key, counter, nonce :: |block(key, counter, nonce)| == 64
  }

  function Counter(start: u32, i: nat): u32 {
    ((start as nat + i) % 0x1_0000_0000) as u32
  }

  /** Byte `j` is xored with byte `j % 64` of block `start + j / 64`. */
  ghost function Xored(block: Block, key: Bytes, nonce: Bytes, start: u32, data: Bytes): (r: Bytes)
    requires KeyStream(block)
    ensures |r| == |data|
  {
    seq(|data|, j requires 0 <= j < |data| => Xor8(data[j], block(key, Counter(start, j / 64), nonce)[j % 64]))
  }

  /** `chacha20_xor`, in place, 64 bytes at a time. */
  method ChaCha20Xor(block: Block, key: Bytes, nonce: Bytes, start: u32, data: array<u8>)
    requires KeyStream(block)
    modifies data
    ensures data[..] == Xored(block, key, nonce, start, old(data[..]))
  {
    var i, at := 0, 0;
    while at < data.Length
      invariant 0 <= i && (at == 64 * i || at == data.Length) && at <= data.Length
      invariant forall j :: 0 <= j < at ==> data[j] == Xored(block, key, nonce, start, old(data[..]))[j]
      invariant forall j :: at <= j < data.Length ==> data[j] == old(data[j])
    {
      var ks := block(key, Counter(start, i), nonce);
      var n := if data.Length - at < 64 then data.Length - at else 64;
      for k := 0 to n
        invariant forall j :: 0 <= j < at + k ==> data[j] == Xored(block, key, nonce, start, old(data[..]))[j]
        invariant forall j :: at + k <= j < data.Length ==> data[j] == old(data[j])
      {
        assert (at + k) / 64 == i && (at + k) % 64 == k;
        data[at + k] := Xor8(data[at + k], ks[k]);
      }
      i, at := i + 1, at + n;
    }
  }

  lemma XoredTwice(block: Block, key: Bytes, nonce: Bytes, start: u32, data: Bytes)
    requires KeyStream(block)
    ensures Xored(block, key, nonce, start, Xored(block, key, nonce, start, data)) == data
  {
    var once := Xored(block, key, nonce, start, data);
    forall j | 0 <= j < |data|
      ensures Xored(block, key, nonce, start, once)[j] == data[j]
    {
      Xor8Twice(data[j], block(key, Counter(start, j / 64), nonce)[j % 64]);
    }
  }

  // ---- the authenticated text ----

  function Pad16(n: nat): nat {
    (16 - n % 16) % 16
  }

  /** aad, padding, ciphertext, padding, and both lengths. */
  function MacData(aad: Bytes, ct: Bytes): Bytes {
    aad + Zeros(Pad16(|aad|)) + ct + Zeros(Pad16(|ct|)) + LeEncode(|aad|, 8) + LeEncode(|ct|, 8)
  }

  lemma MacDataParts(aad: Bytes, ct: Bytes)
    ensures var m := MacData(aad, ct); var n := |aad| + Pad16(|aad|);
      && |m| == n + |ct| + Pad16(|ct|) + 16
      && m[..|aad|] == aad && m[n..n + |ct|] == ct
      && m[|m| - 16..|m| - 8] == LeEncode(|aad|, 8) && m[|m| - 8..] == LeEncode(|ct|, 8)
  {
    hide LeEncode;
  }

  /** Nothing can move between the additional data and the ciphertext: the
      authenticated text determines both. */
  lemma MacDataInjective(aad: Bytes, ct: Bytes, aad': Bytes, ct': Bytes)
    requires |aad| < 0x1_0000_0000_0000_0000 && |ct| < 0x1_0000_0000_0000_0000
    requires |aad'| < 0x1_0000_0000_0000_0000 && |ct'| < 0x1_0000_0000_0000_0000
    requires MacData(aad, ct) == MacData(aad', ct')
    ensures aad == aad' && ct == ct'
  {
    hide MacData, LeEncode, LeNat, Pow2;
    MacDataParts(aad, ct);
    MacDataParts(aad', ct');
    Powers();
    LeEncodeDecode(|aad|, 8);
    LeEncodeDecode(|aad'|, 8);
    LeEncodeDecode(|ct|, 8);
    LeEncodeDecode(|ct'|, 8);
  }

  ghost function Tag(polyKey: Bytes, aad: Bytes, ct: Bytes): (t: Bytes)
    requires |polyKey| == 32
    ensures |t| == 16
  {
    LeEncode(Spec.Tag(polyKey, MacData(aad, ct)), 16)
  }

  method AeadTag(polyKey: Bytes, aad: Bytes, ct: Bytes) returns (tag: Bytes)
    requires |polyKey| == 32
    ensures tag == Tag(polyKey, aad, ct)
  {
    hide LeEncode, LeNat;
    tag := Poly1305.Poly1305(polyKey, MacData(aad, ct));
    Powers();
    LeEncodeDecode(Spec.Tag(polyKey, MacData(aad, ct)), 16);
    LeInjective(tag, Tag(polyKey, aad, ct));
  }

  // ---- seal and open ----

  ghost function PolyKey(block: Block, key: Bytes, nonce: Bytes): (k: Bytes)
    requires KeyStream(block)
    ensures |k| == 32
  {
    block(key, 0, nonce)[..32]
  }

  /** Ciphertext followed by its tag. */
  ghost function Sealed(block: Block, key: Bytes, nonce: Bytes, aad: Bytes, plaintext: Bytes): Bytes
    requires KeyStream(block)
  {
    var ct := Xored(block, key, nonce, 1, plaintext);
    ct + Tag(PolyKey(block, key, nonce), aad, ct)
  }

  ghost function Opened(block: Block, key: Bytes, nonce: Bytes, aad: Bytes, sealed: Bytes): Option<Bytes>
    requires KeyStream(block)
  {
    if |sealed| < 16 then None
    else
      var ct := sealed[..|sealed| - 16];
      if Tag(PolyKey(block, key, nonce), aad, ct) != sealed[|sealed| - 16..] then None
      else Some(Xored(block, key, nonce, 1, ct))
  }

  /** Zeros up to a multiple of sixteen bytes. */
  predicate PadOf(p: Bytes, n: nat) {
    |p| < 16 && (n + |p|) % 16 == 0 && forall i :: 0 <= i < |p| ==> p[i] == 0
  }

  /** Eight little-endian bytes. */
  predicate LengthOf(l: Bytes, n: nat) {
    |l| == 8 && LeNat(l) == n
  }

  /** Section 2.8 of RFC 8439: each part and its padding, then the two lengths. */
  ghost predicate Authenticated(m: Bytes, aad: Bytes, ct: Bytes) {
    exists a, b, la, lb ::
      PadOf(a, |aad|) && PadOf(b, |ct|) && LengthOf(la, |aad|) && LengthOf(lb, |ct|) && m == aad + a + ct + b + la + lb
  }

  lemma PadIs(n: nat)
    ensures PadOf(Zeros(Pad16(n)), n)
  {
    ZerosAreZero(Pad16(n));
    hide Zeros;
  }

  lemma {:induction false} ZerosAreZero(n: nat)
    ensures |Zeros(n)| == n && forall i :: 0 <= i < n ==> Zeros(n)[i] == 0
  {
  }

  lemma LengthIs(n: nat)
    requires n < 0x1_0000_0000_0000_0000
    ensures LengthOf(LeEncode(n, 8), n)
  {
    Powers();
    hide LeEncode, LeNat, Pow2;
    LeEncodeDecode(n, 8);
  }

  lemma MacDataAuthenticated(aad: Bytes, ct: Bytes)
    requires |aad| < 0x1_0000_0000_0000_0000 && |ct| < 0x1_0000_0000_0000_0000
    ensures Authenticated(MacData(aad, ct), aad, ct)
  {
    hide PadOf, LengthOf, Zeros, LeEncode, Pad16;
    PadIs(|aad|);
    PadIs(|ct|);
    LengthIs(|aad|);
    LengthIs(|ct|);
  }

  lemma XoredIs(block: Block, key: Bytes, nonce: Bytes, start: u32, data: Bytes, j: nat)
    requires KeyStream(block) && j < |data|
    ensures Xored(block, key, nonce, start, data)[j] as nat
      == XorNat(data[j] as nat, block(key, ((start as nat + j / 64) % 0x1_0000_0000) as u32, nonce)[j % 64] as nat)
  {
    var ks := block(key, Counter(start, j / 64), nonce);
    assert Xored(block, key, nonce, start, data)[j] == Xor8(data[j], ks[j % 64]) by { hide Xor8; }
    hide XorNat, Xored;
    Xor8Is(data[j], ks[j % 64]);
  }

  lemma Xor8Is(a: u8, b: u8)
    ensures Xor8(a, b) as nat == XorNat(a as nat, b as nat)
  {
    hide XorNat;
  }

  /** What sealing gives, by section 2.8 of RFC 8439: each plaintext byte xored with the
      keystream from block 1 on; and the tag, under the first half of block 0, of the
      additional data and the ciphertext. */
  lemma SealedByRfc(block: Block, key: Bytes, nonce: Bytes, aad: Bytes, plaintext: Bytes)
    returns (ct: Bytes, tag: Bytes, m: Bytes)
    requires KeyStream(block) && |aad| < 0x1_0000_0000_0000_0000 && |plaintext| < 0x1_0000_0000_0000_0000
    ensures Sealed(block, key, nonce, aad, plaintext) == ct + tag && |ct| == |plaintext| && |tag| == 16
    ensures forall j :: 0 <= j < |ct| ==>
      ct[j] as nat
      == XorNat(plaintext[j] as nat, block(key, ((1 + j / 64) % 0x1_0000_0000) as u32, nonce)[j % 64] as nat)
    ensures Authenticated(m, aad, ct) && LeNat(tag) == Spec.Tag(block(key, 0, nonce)[..32], m)
  {
    ct := Xored(block, key, nonce, 1, plaintext);
    m := MacData(aad, ct);
    tag := Tag(block(key, 0, nonce)[..32], aad, ct);
    assert Sealed(block, key, nonce, aad, plaintext) == ct + tag by { hide Tag, Xored; }
    TagNumber(block(key, 0, nonce)[..32], aad, ct);
    hide *;
    MacDataAuthenticated(aad, ct);
    XoredAll(block, key, nonce, plaintext);
  }

  lemma TagNumber(polyKey: Bytes, aad: Bytes, ct: Bytes)
    requires |polyKey| == 32
    ensures LeNat(Tag(polyKey, aad, ct)) == Spec.Tag(polyKey, MacData(aad, ct))
  {
    Powers();
    hide LeEncode, LeNat, MacData, Pow2;
    LeEncodeDecode(Spec.Tag(polyKey, MacData(aad, ct)), 16);
  }

  lemma XoredAll(block: Block, key: Bytes, nonce: Bytes, data: Bytes)
    requires KeyStream(block)
    ensures var r := Xored(block, key, nonce, 1, data);
      forall j :: 0 <= j < |r| ==>
        r[j] as nat == XorNat(data[j] as nat, block(key, ((1 + j / 64) % 0x1_0000_0000) as u32, nonce)[j % 64] as nat)
  {
    hide XorNat, Xored;
    forall j: nat | j < |data|
      ensures Xored(block, key, nonce, 1, data)[j] as nat
        == XorNat(data[j] as nat, block(key, ((1 + j / 64) % 0x1_0000_0000) as u32, nonce)[j % 64] as nat)
    {
      XoredIs(block, key, nonce, 1, data, j);
    }
  }

  method Seal(block: Block, key: Bytes, nonce: Bytes, aad: Bytes, plaintext: Bytes) returns (sealed: Bytes)
    requires KeyStream(block)
    ensures sealed == Sealed(block, key, nonce, aad, plaintext)
  {
    var polyKey := block(key, 0, nonce)[..32];
    var out := new u8[|plaintext|](i requires 0 <= i < |plaintext| => plaintext[i]);
    assert out[..] == plaintext;
    ChaCha20Xor(block, key, nonce, 1, out);
    var tag := AeadTag(polyKey, aad, out[..]);
    sealed := out[..] + tag;
  }

  method Open(block: Block, key: Bytes, nonce: Bytes, aad: Bytes, sealed: Bytes) returns (plaintext: Option<Bytes>)
    requires KeyStream(block)
    ensures plaintext == Opened(block, key, nonce, aad, sealed)
  {
    if |sealed| < 16 {
      return None;
    }
    var ct, tag := sealed[..|sealed| - 16], sealed[|sealed| - 16..];
    var polyKey := block(key, 0, nonce)[..32];
    var expected := AeadTag(polyKey, aad, ct);
    var same := ConstantTimeEq(expected, tag);
    if !same {
      return None;
    }
    var out := new u8[|ct|](i requires 0 <= i < |ct| => ct[i]);
    assert out[..] == ct;
    ChaCha20Xor(block, key, nonce, 1, out);
    plaintext := Some(out[..]);
  }

  /** Opening undoes sealing, and opens nothing but what sealing that plaintext produces. */
  lemma OpenIffSealed(block: Block, key: Bytes, nonce: Bytes, aad: Bytes, sealed: Bytes, plaintext: Bytes)
    requires KeyStream(block)
    ensures Opened(block, key, nonce, aad, sealed) == Some(plaintext) <==>
      sealed == Sealed(block, key, nonce, aad, plaintext)
  {
    hide Tag, PolyKey;
    XoredTwice(block, key, nonce, 1, plaintext);
    if |sealed| >= 16 {
      var ct := sealed[..|sealed| - 16];
      XoredTwice(block, key, nonce, 1, ct);
      assert sealed == ct + sealed[|sealed| - 16..];
    }
  }

  // ---- HKDF expand ----

  /** T(1) ‖ T(2) ‖ ... ‖ T(n) of RFC 5869, for any `hmac` with 32-byte output. */
  function Expanded(hmac: (Bytes, Bytes) -> Bytes, prk: Bytes, info: Bytes, n: nat): (okm: Bytes)
    requires n <= 255
  {
    if n == 0 then [] else Expanded(hmac, prk, info, n - 1) + T(hmac, prk, info, n)
  }

  function T(hmac: (Bytes, Bytes) -> Bytes, prk: Bytes, info: Bytes, n: nat): Bytes
    requires 0 < n <= 255
  {
    hmac(prk, (if n == 1 then [] else T(hmac, prk, info, n - 1)) + info + [n as u8])
  }

  lemma {:induction false} ExpandedLength(hmac: (Bytes, Bytes) -> Bytes, prk: Bytes, info: Bytes, n: nat)
    requires n <= 255 && forall k, m :: |hmac(k, m)| == 32
    ensures |Expanded(hmac, prk, info, n)| == 32 * n
  {
    if n > 0 { ExpandedLength(hmac, prk, info, n - 1); }
  }

  /** Block `k` of the output, by section 2.3 of RFC 5869: the authenticator of the block
      before it, the info and the number of the block. */
  lemma ExpandedChain(hmac: (Bytes, Bytes) -> Bytes, prk: Bytes, info: Bytes, n: nat, k: nat)
    requires 1 <= k <= n <= 255 && forall key, m :: |hmac(key, m)| == 32
    ensures |Expanded(hmac, prk, info, n)| == 32 * n
    ensures var okm := Expanded(hmac, prk, info, n);
      okm[32 * (k - 1)..32 * k]
      == hmac(prk, (if k == 1 then [] else okm[32 * (k - 2)..32 * (k - 1)]) + info + [k as u8])
  {
    ExpandedLength(hmac, prk, info, n);
    ExpandedAt(hmac, prk, info, n, k);
    if k > 1 {
      ExpandedAt(hmac, prk, info, n, k - 1);
    }
  }

  lemma {:induction false} ExpandedAt(hmac: (Bytes, Bytes) -> Bytes, prk: Bytes, info: Bytes, n: nat, k: nat)
    requires 1 <= k <= n <= 255 && forall key, m :: |hmac(key, m)| == 32
    ensures |Expanded(hmac, prk, info, n)| == 32 * n
    ensures Expanded(hmac, prk, info, n)[32 * (k - 1)..32 * k] == T(hmac, prk, info, k)
    decreases n
  {
    ExpandedLength(hmac, prk, info, n);
    ExpandedLength(hmac, prk, info, n - 1);
    if k < n {
      ExpandedAt(hmac, prk, info, n - 1, k);
    }
    hide T;
  }

  datatype Checked = Ok(okm: Bytes) | Overflow

  /** `hkdf_sha256`. The `u8` counter is incremented once more after the last block:
      with overflow checks the largest request that returns is 254 blocks, one block
      less than the documented limit of 255; without them the wrapped counter is not used. */
  method Hkdf(hmac: (Bytes, Bytes) -> Bytes, salt: Bytes, ikm: Bytes, info: Bytes, len: nat, overflowChecks: bool)
    returns (r: Checked)
    requires len <= 255 * 32 && forall k, m :: |hmac(k, m)| == 32
    ensures r.Ok? <==> !overflowChecks || len <= 8128
    ensures r.Ok? ==> |r.okm| == len && r.okm <= Expanded(hmac, hmac(salt, ikm), info, 255)
  {
    var prk := hmac(salt, ikm);
    var okm, prev: Bytes := [], [];
    var i: nat := 1;
    ghost var blocks: nat := 0;
    while |okm| < len
      invariant blocks <= 255 && i == (blocks + 1) % 256 && |okm| == 32 * blocks
      invariant okm == Expanded(hmac, prk, info, blocks)
      invariant prev == if blocks == 0 then [] else T(hmac, prk, info, blocks)
      invariant blocks > 0 ==> 32 * (blocks - 1) < len
      invariant overflowChecks ==> blocks < 255
      decreases len - |okm|
    {
      var block := hmac(prk, prev + info + [i as u8]);
      okm := okm + block;
      prev := block;
      blocks := blocks + 1;
      if i == 255 && overflowChecks {
        return Overflow;
      }
      i := (i + 1) % 256;
    }
    ExpandedPrefix(hmac, prk, info, blocks, 255);
    r := Ok(okm[..len]);
  }

  lemma {:induction false} ExpandedPrefix(hmac: (Bytes, Bytes) -> Bytes, prk: Bytes, info: Bytes, m: nat, n: nat)
    requires m <= n <= 255
    ensures Expanded(hmac, prk, info, m) <= Expanded(hmac, prk, info, n)
    decreases n
  {
    if m < n { ExpandedPrefix(hmac, prk, info, m, n - 1); }
  }
}
