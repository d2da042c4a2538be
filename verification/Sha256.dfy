/** Streaming SHA-256. The compression function is a parameter; what is proved is
    the buffering and the padding around it. */
module Sha256 {
  import opened Words

  /** Compress the whole 64-byte blocks of `data`, in order. */
  function Blocks<H>(compress: (H, Bytes) -> H, h: H, data: Bytes): H
    decreases |data|
  {
    if |data| < 64 then h else Blocks(compress, compress(h, data[..64]), data[64..])
  }

  /** The bytes of `data` after its last whole block. */
  function Rest(data: Bytes): (r: Bytes)
    ensures |r| == |data| % 64
  {
    data[|data| - |data| % 64..]
  }

  lemma RestStep(a: Bytes)
    requires |a| >= 64
    ensures Rest(a[64..]) == Rest(a)
  {
  }

  lemma {:induction false} BlocksAppend<H>(compress: (H, Bytes) -> H, h: H, a: Bytes, b: Bytes)
    ensures Blocks(compress, h, a + b) == Blocks(compress, Blocks(compress, h, a), Rest(a) + b)
    ensures Rest(a + b) == Rest(Rest(a) + b)
    decreases |a|
  {
    if |a| < 64 {
      assert Rest(a) == a;
    } else {
      hide Rest;
      assert (a + b)[..64] == a[..64] && (a + b)[64..] == a[64..] + b;
      RestStep(a);
      RestStep(a + b);
      BlocksAppend(compress, compress(h, a[..64]), a[64..], b);
    }
  }

  // ---- the padded message of section 5.1.1 of FIPS 180-4 ----

  /** The smallest number of zero bytes that leaves room for the length. */
  function ZeroCount(len: nat): (k: nat)
    ensures k < 64 && (len + 1 + k) % 64 == 56
  {
    (55 - len) % 64
  }

  function BitLength(msg: Bytes): nat {
    (8 * |msg|) % 0x1_0000_0000_0000_0000
  }

  function Padded(msg: Bytes): (p: Bytes)
    ensures |p| % 64 == 0
  {
    PaddedLength(|msg|, ZeroCount(|msg|));
    msg + [0x80] + Zeros(ZeroCount(|msg|)) + BeEncode(BitLength(msg), 8)
  }

  lemma PaddedLength(len: nat, zeros: nat)
    requires (len + 1 + zeros) % 64 == 56
    ensures (len + 1 + zeros + 8) % 64 == 0
  {
  }

  /** The hasher: `fed` is everything it has been given. */
  class Hasher<H> {
    const compress: (H, Bytes) -> H
    const init: H
    var h: H
    var buf: array<u8>
    var bufLen: nat
    var totalLen: u64
    ghost var fed: Bytes

    /** The state depends on the concatenation of the updates only. */
    ghost predicate Valid()
      reads this, buf
    {
      && buf.Length == 64 && bufLen < 64
      && h == Blocks(compress, init, fed)
      && buf[..bufLen] == Rest(fed)
      && totalLen as nat == |fed| % 0x1_0000_0000_0000_0000
    }

    constructor (compress: (H, Bytes) -> H, init: H)
      ensures Valid() && fresh(buf) && fed == [] && this.compress == compress && this.init == init
    {
      this.compress, this.init := compress, init;
      h := init;
      buf := new u8[64](_ => 0);
      bufLen, totalLen, fed := 0, 0, [];
    }

    /** Copy `data` into the buffer at `at`. */
    method CopyIn(at: nat, data: Bytes)
      requires at + |data| <= buf.Length
      modifies buf
      ensures buf[..at + |data|] == old(buf[..at]) + data
    {
      for i := 0 to |data|
        invariant buf[..at + i] == old(buf[..at]) + data[..i]
      {
        buf[at + i] := data[i];
        assert buf[..at + i + 1] == buf[..at + i] + [data[i]];
      }
    }

    /** Valid but for `data`, which has been counted and not yet hashed. */
    ghost predicate Owes(data: Bytes)
      reads this, buf
    {
      && buf.Length == 64 && bufLen < 64
      && Blocks(compress, h, buf[..bufLen] + data) == Blocks(compress, init, fed)
      && Rest(buf[..bufLen] + data) == Rest(fed)
      && totalLen as nat == |fed| % 0x1_0000_0000_0000_0000
    }

    /** Fill the partial buffer; compress it if that makes a whole block. */
    method TopUp(data: Bytes) returns (rest: Bytes)
      requires Owes(data) && bufLen > 0
      modifies this`h, this`bufLen, buf
      ensures Owes(rest) && (bufLen > 0 ==> rest == [])
    {
      hide Blocks, Rest;
      ghost var held := buf[..bufLen];
      var take := if 64 - bufLen < |data| then 64 - bufLen else |data|;
      CopyIn(bufLen, data[..take]);
      bufLen := bufLen + take;
      if bufLen < 64 {
        assert buf[..bufLen] + [] == held + data;
        return [];
      }
      assert buf[..] == buf[..64];
      BlockThenRest(compress, h, held, data, take);
      h := compress(h, buf[..]);
      bufLen := 0;
      rest := data[take..];
      assert buf[..0] + rest == rest;
    }

    /** Whole blocks straight from the input; the remainder goes to the buffer. */
    method WholeBlocks(input: Bytes)
      requires Owes(input) && bufLen == 0
      modifies this`h, this`bufLen, buf
      ensures Valid()
    {
      hide Blocks, Rest;
      var data := input;
      assert buf[..0] + data == data;
      while |data| >= 64
        invariant Blocks(compress, h, data) == Blocks(compress, init, fed) && Rest(data) == Rest(fed)
        decreases |data|
      {
        BlockThenRest(compress, h, [], data, 64);
        assert [] + data == data && [] + data[..64] == data[..64];
        h := compress(h, data[..64]);
        data := data[64..];
      }
      ShortData(compress, h, data);
      CopyIn(0, data);
      assert buf[..0] + data == data;
      bufLen := |data|;
    }

    /** Top up a partial buffer, compress whole blocks straight from the input, keep the rest. */
    method Update(input: Bytes)
      requires Valid()
      modifies this, buf
      ensures Valid() && buf == old(buf) && fed == old(fed) + input
    {
      hide Blocks, Rest;
      BlocksAppend(compress, init, fed, input);
      Counted(|fed|, |input|);
      totalLen := ((totalLen as nat + |input|) % 0x1_0000_0000_0000_0000) as u64;
      fed := fed + input;
      var data := input;
      assert Owes(data);
      if bufLen > 0 {
        data := TopUp(data);
        if bufLen > 0 {
          assert buf[..bufLen] + data == buf[..bufLen];
          ShortData(compress, h, buf[..bufLen]);
          return;
        }
      }
      WholeBlocks(data);
    }

    /** What is compressed is exactly the padded message of everything fed. */
    method Finalize() returns (digest: H)
      requires Valid()
      modifies this, buf
      ensures digest == Blocks(compress, init, Padded(old(fed)))
    {
      var bitLen := (totalLen as nat * 8) % 0x1_0000_0000_0000_0000;
      ghost var msg := fed;
      BitLengthOfTotal(|msg|);
      Update([0x80]);
      ghost var zeros: nat := 0;
      assert Zeros(0) == [];
      while bufLen != 56
        invariant Valid() && buf == old(buf)
        invariant fed == msg + [0x80] + Zeros(zeros) && zeros <= ZeroCount(|msg|)
        decreases ZeroCount(|msg|) - zeros
      {
        ZerosStep(zeros);
        assert bufLen == (|msg| + 1 + zeros) % 64;
        assert zeros != ZeroCount(|msg|);
        Update([0]);
        zeros := zeros + 1;
      }
      ZeroCountUnique(|msg|, zeros);
      Update(BeEncode(bitLen, 8));
      assert fed == Padded(msg);
      digest := h;
    }
  }

  lemma {:induction false} ShortData<H>(compress: (H, Bytes) -> H, h: H, data: Bytes)
    requires |data| < 64
    ensures Blocks(compress, h, data) == h && Rest(data) == data
  {
  }

  lemma {:induction false} BlockThenRest<H>(compress: (H, Bytes) -> H, h: H, held: Bytes, data: Bytes, take: nat)
    requires take <= |data| && |held| + take == 64
    ensures Blocks(compress, h, held + data) == Blocks(compress, compress(h, held + data[..take]), data[take..])
    ensures Rest(held + data) == Rest(data[take..])
  {
    var all := held + data;
    SplitAt(held, data, take);
    assert Blocks(compress, h, all) == Blocks(compress, compress(h, all[..64]), all[64..]);
  }

  lemma SplitAt(held: Bytes, data: Bytes, take: nat)
    requires take <= |data|
    ensures (held + data)[..|held| + take] == held + data[..take] && (held + data)[|held| + take..] == data[take..]
  {
  }

  lemma Counted(fed: nat, more: nat)
    ensures (fed % 0x1_0000_0000_0000_0000 + more) % 0x1_0000_0000_0000_0000 == (fed + more) % 0x1_0000_0000_0000_0000
  {
  }

  lemma BitLengthOfTotal(len: nat)
    ensures ((len % 0x1_0000_0000_0000_0000) * 8) % 0x1_0000_0000_0000_0000 == (8 * len) % 0x1_0000_0000_0000_0000
  {
    var q, r := len / 0x1_0000_0000_0000_0000, len % 0x1_0000_0000_0000_0000;
    assert 8 * len == r * 8 + (8 * q) * 0x1_0000_0000_0000_0000;
  }

  lemma ZerosStep(n: nat)
    ensures Zeros(n) + [0] == Zeros(n + 1)
  {
  }

  lemma ZeroCountUnique(len: nat, k: nat)
    requires k <= ZeroCount(len) && (len + 1 + k) % 64 == 56
    ensures k == ZeroCount(len)
  {
  }

  /** Two hashers fed the same bytes, however cut into updates, are in the same state. */
  lemma SplitIndependent<H>(a: Hasher<H>, b: Hasher<H>)
    requires a.Valid() && b.Valid() && a.compress == b.compress && a.init == b.init && a.fed == b.fed
    ensures a.h == b.h && a.bufLen == b.bufLen && a.buf[..a.bufLen] == b.buf[..b.bufLen] && a.totalLen == b.totalLen
  {
  }

  /** The one-shot digest. */
  method Sha256<H>(compress: (H, Bytes) -> H, init: H, data: Bytes) returns (digest: H)
    ensures digest == Blocks(compress, init, Padded(data))
  {
    var hasher := new Hasher(compress, init);
    hasher.Update(data);
    assert hasher.fed == data;
    digest := hasher.Finalize();
  }

  /** The value of big-endian bytes. */
  ghost function BeValue(s: Bytes): nat {
    if s == [] then 0 else BeValue(s[..|s| - 1]) * 256 + s[|s| - 1] as nat
  }

  lemma {:induction false} BeBack(n: nat, len: nat)
    requires n < Pow2(8 * len)
    ensures BeValue(BeEncode(n, len)) == n
    decreases len
  {
    if len > 0 {
      var s := BeEncode(n, len);
      assert s[..len - 1] == BeEncode(n / 256, len - 1) && s[len - 1] as nat == n % 256;
      Pow2Add8(8 * (len - 1));
      BeBack(n / 256, len - 1);
    }
  }

  lemma Sections(msg: Bytes, zeros: Bytes, tail: Bytes)
    requires |tail| == 8 && forall i :: 0 <= i < |zeros| ==> zeros[i] == 0
    ensures var p := msg + [0x80] + zeros + tail;
      && p[..|msg|] == msg && p[|msg|] == 128 && p[|p| - 8..] == tail
      && forall i :: |msg| < i < |p| - 8 ==> p[i] == 0
  {
    var p := msg + [0x80] + zeros + tail;
    assert forall i :: |msg| < i < |p| - 8 ==> p[i] == zeros[i - |msg| - 1];
  }

  /** The padded message, by section 5.1.1 of FIPS 180-4: the message, one bit and zeros, as
      few as make whole blocks of it with the bit length, big-endian, in the last 64 bits. */
  lemma PaddedByFips(msg: Bytes)
    ensures var p := Padded(msg);
      && |p| % 64 == 0 && |msg| + 9 <= |p| < |msg| + 9 + 64 && p[..|msg|] == msg && p[|msg|] == 128
      && (forall i :: |msg| < i < |p| - 8 ==> p[i] == 0)
      && BeValue(p[|p| - 8..]) == 8 * |msg| % 0x1_0000_0000_0000_0000
  {
    var n := BitLength(msg);
    var zeros := Zeros(ZeroCount(|msg|));
    assert Padded(msg) == msg + [0x80] + zeros + BeEncode(n, 8) && |Padded(msg)| % 64 == 0;
    assert n == 8 * |msg| % 0x1_0000_0000_0000_0000 && |zeros| < 64;
    assert forall i :: 0 <= i < |zeros| ==> zeros[i] == 0;
    hide *;
    Powers();
    BeBack(n, 8);
    Sections(msg, zeros, BeEncode(n, 8));
  }

  /** Different messages of fewer than 2^61 bytes are padded differently. */
  lemma PaddedInjective(a: Bytes, b: Bytes)
    requires |a| < 0x2000_0000_0000_0000 && |b| < 0x2000_0000_0000_0000 && Padded(a) == Padded(b)
    ensures a == b
  {
    var p := Padded(a);
    PaddedParts(a);
    PaddedParts(b);
    Powers();
    BeInjective(8 * |a|, 8 * |b|, 8);
  }

  lemma PaddedParts(a: Bytes)
    requires |a| < 0x2000_0000_0000_0000
    ensures var p := Padded(a); |p| >= |a| + 8 && p[..|a|] == a && p[|p| - 8..] == BeEncode(8 * |a|, 8)
  {
    hide BeEncode;
  }
}
