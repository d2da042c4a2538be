/** Standard Base64, as the SCRAM transport and the mail encoder use it. */
module Base64 {
  import opened Words

  datatype Result = Ok(bytes: Bytes) | Invalid(c: char)

  const UPPER: string := "ABCDEFGHIJKLMNOPQRSTUVWXYZ"
  const LOWER: string := "abcdefghijklmnopqrstuvwxyz"
  const ALPHABET: string := UPPER + LOWER + "0123456789+/"

  /** `val` of the decoder: the value of a character, or -1. */
  function Value(c: char): (v: int)
    ensures -1 <= v < 64
  {
    if 'A' <= c <= 'Z' then c as int - 'A' as int
    else if 'a' <= c <= 'z' then c as int - 'a' as int + 26
    else if '0' <= c <= '9' then c as int - '0' as int + 52
    else if c == '+' then 62
    else if c == '/' then 63
    else -1
  }

  function Digit(v: int): (c: char)
    requires 0 <= v < 64
  {
    ALPHABET[v]
  }

  /** The decoder's ranges invert the encoder's table, and the table has no `=`. */
  lemma ValueOfDigit(v: int)
    requires 0 <= v < 64
    ensures Value(Digit(v)) == v && Digit(v) != '='
  {
    if v < 26 {
      assert Digit(v) == UPPER[v];
      UpperCode(v);
    } else if v < 52 {
      assert Digit(v) == LOWER[v - 26];
      LowerCode(v - 26);
    }
  }

  lemma UpperCode(v: int)
    requires 0 <= v < 26
    ensures UPPER[v] as int == 'A' as int + v
  {
    match v {
      case 0 => case 1 => case 2 => case 3 => case 4 => case 5 => case 6 => case 7 => case 8 => case 9 => case 10 =>
      case 11 => case 12 => case 13 => case 14 => case 15 => case 16 => case 17 => case 18 => case 19 => case 20 =>
      case 21 => case 22 => case 23 => case 24 => case 25 =>
    }
  }

  lemma LowerCode(v: int)
    requires 0 <= v < 26
    ensures LOWER[v] as int == 'a' as int + v
  {
    match v {
      case 0 => case 1 => case 2 => case 3 => case 4 => case 5 => case 6 => case 7 => case 8 => case 9 => case 10 =>
      case 11 => case 12 => case 13 => case 14 => case 15 => case 16 => case 17 => case 18 => case 19 => case 20 =>
      case 21 => case 22 => case 23 => case 24 => case 25 =>
    }
  }

  /** The characters of one chunk of one to three bytes. */
  function EncodeChunk(b: Bytes): (s: string)
    requires 1 <= |b| <= 3
    ensures |s| == 4
  {
    var n := b[0] as int * 0x1_0000 + (if |b| > 1 then b[1] as int * 0x100 else 0)
      + (if |b| > 2 then b[2] as int else 0);
    [Digit(n / 0x4_0000 % 64), Digit(n / 0x1000 % 64),
     if |b| > 1 then Digit(n / 64 % 64) else '=', if |b| > 2 then Digit(n % 64) else '=']
  }

  function Encoded(data: Bytes): string
    decreases |data|
  {
    if data == [] then ""
    else
      var k := if |data| < 3 then |data| else 3;
      EncodeChunk(data[..k]) + Encoded(data[k..])
  }

  method Encode(data: Bytes) returns (out: string)
    ensures out == Encoded(data)
  {
    hide EncodeChunk;
    out := "";
    var i := 0;
    assert data[0..] == data;
    while i < |data|
      invariant 0 <= i <= |data| && Encoded(data) == out + Encoded(data[i..])
    {
      var k := if |data| - i < 3 then |data| - i else 3;
      assert data[i..][..k] == data[i..i + k] && data[i..][k..] == data[i + k..];
      var chunk := EncodeChunk(data[i..i + k]);
      assert Encoded(data[i..]) == chunk + Encoded(data[i + k..]);
      out := out + chunk;
      i := i + k;
    }
    assert data[i..] == [] && out + "" == out;
  }

  // ---- decoding ----

  function WithoutPadding(s: string): string {
    if s == "" then "" else (if s[0] == '=' then "" else [s[0]]) + WithoutPadding(s[1..])
  }

  /** The 6-bit values of a chunk, accumulated high to low. */
  function Accumulated(s: string): (n: nat)
    requires forall c :: c in s ==> Value(c) >= 0
  {
    if s == "" then 0 else Accumulated(s[..|s| - 1]) * 64 + Value(s[|s| - 1])
  }

  /** The whole bytes of a chunk of one to four characters; leftover low bits are dropped. */
  function DecodeChunk(s: string): (b: Bytes)
    requires 1 <= |s| <= 4 && forall c :: c in s ==> Value(c) >= 0
  {
    ChunkBound(s);
    var n := Accumulated(s) * (if |s| == 1 then 0x4_0000 else if |s| == 2 then 0x1000 else if |s| == 3 then 64 else 1);
    var whole := [(n / 0x1_0000) as u8, (n / 0x100 % 256) as u8, (n % 256) as u8];
    whole[..6 * |s| / 8]
  }

  lemma ChunkBound(s: string)
    requires 1 <= |s| <= 4 && forall c :: c in s ==> Value(c) >= 0
    ensures Accumulated(s)
      < (if |s| == 1 then 64 else if |s| == 2 then 0x1000 else if |s| == 3 then 0x4_0000 else 0x100_0000)
  {
    if |s| > 1 { ChunkBound(s[..|s| - 1]); }
  }

  function Decoded(s: string): Result
    decreases |s|
  {
    if s == "" then Ok([])
    else
      var k := if |s| < 4 then |s| else 4;
      var bad := FirstInvalid(s[..k]);
      if bad < k then Invalid(s[bad])
      else
        match Decoded(s[k..])
        case Invalid(c) => Invalid(c)
        case Ok(rest) => Ok(DecodeChunk(s[..k]) + rest)
  }

  function FirstInvalid(s: string): (i: nat)
    ensures i <= |s| && (forall j :: 0 <= j < i ==> Value(s[j]) >= 0) && (i < |s| ==> Value(s[i]) < 0)
  {
    if s == "" || Value(s[0]) < 0 then 0 else 1 + FirstInvalid(s[1..])
  }

  /** One chunk of the decoder: the bytes, or the first character that is not in the alphabet. */
  method DecodeOne(chunk: string) returns (r: Result)
    requires 1 <= |chunk| <= 4
    ensures var bad := FirstInvalid(chunk);
      if bad < |chunk| then r == Invalid(chunk[bad]) else r == Ok(DecodeChunk(chunk))
  {
    var n: nat := 0;
    for j := 0 to |chunk|
      invariant forall c :: c in chunk[..j] ==> Value(c) >= 0
      invariant n == Accumulated(chunk[..j])
    {
      if Value(chunk[j]) < 0 {
        FirstInvalidAt(chunk, j);
        return Invalid(chunk[j]);
      }
      assert chunk[..j + 1][..j] == chunk[..j];
      n := n * 64 + Value(chunk[j]);
    }
    assert chunk[..|chunk|] == chunk;
    FirstInvalidAt(chunk, |chunk|);
    r := Ok(DecodeChunk(chunk));
  }

  lemma FirstInvalidAt(s: string, j: nat)
    requires j <= |s| && (forall c :: c in s[..j] ==> Value(c) >= 0) && (j < |s| ==> Value(s[j]) < 0)
    ensures FirstInvalid(s) == j
  {
  }

  method Decode(s: string) returns (r: Result)
    ensures r == Decoded(WithoutPadding(s))
  {
    hide Value, WithoutPadding, DecodeChunk, FirstInvalid, Decoded;
    var bytes := WithoutPadding(s);
    var out: Bytes := [];
    var i := 0;
    assert bytes[0..] == bytes;
    while i < |bytes|
      invariant 0 <= i <= |bytes|
      invariant Decoded(bytes) == Prepend(out, Decoded(bytes[i..]))
    {
      var k := if |bytes| - i < 4 then |bytes| - i else 4;
      var chunk := bytes[i..i + k];
      assert bytes[i..][..k] == chunk && bytes[i..][k..] == bytes[i + k..];
      DecodedStep(bytes[i..], k);
      var one := DecodeOne(chunk);
      if one.Invalid? {
        return one;
      }
      out := out + one.bytes;
      i := i + k;
    }
    assert bytes[i..] == "";
    DecodedNothing();
    r := Ok(out);
  }

  lemma DecodedStep(s: string, k: nat)
    requires s != "" && k == if |s| < 4 then |s| else 4
    ensures var bad := FirstInvalid(s[..k]);
      Decoded(s) == if bad < k then Invalid(s[bad]) else Prepend(DecodeChunk(s[..k]), Decoded(s[k..]))
  {
  }

  lemma DecodedNothing()
    ensures Decoded("") == Ok([])
  {
  }

  function Prepend(b: Bytes, r: Result): Result {
    match r
    case Invalid(c) => Invalid(c)
    case Ok(rest) => Ok(b + rest)
  }

  // ---- the round trip ----

  lemma {:induction false} WithoutPaddingAppend(a: string, b: string)
    ensures WithoutPadding(a + b) == WithoutPadding(a) + WithoutPadding(b)
  {
    if a == "" {
      assert a + b == b;
    } else {
      assert (a + b)[1..] == a[1..] + b;
      WithoutPaddingAppend(a[1..], b);
    }
  }

  lemma FourCharacters(s: string)
    requires |s| == 4 && s[0] != '=' && s[1] != '='
    ensures s[2] != '=' && s[3] != '=' ==> WithoutPadding(s) == s
    ensures s[2] != '=' && s[3] == '=' ==> WithoutPadding(s) == s[..3]
    ensures s[2] == '=' && s[3] == '=' ==> WithoutPadding(s) == s[..2]
  {
    hide WithoutPadding;
    assert s == [s[0]] + ([s[1]] + ([s[2]] + [s[3]]));
    WithoutPaddingAppend([s[0]], [s[1]] + ([s[2]] + [s[3]]));
    WithoutPaddingAppend([s[1]], [s[2]] + [s[3]]);
    WithoutPaddingAppend([s[2]], [s[3]]);
    OneCharacter(s[0]);
    OneCharacter(s[1]);
    OneCharacter(s[2]);
    OneCharacter(s[3]);
  }

  lemma OneCharacter(c: char)
    ensures WithoutPadding([c]) == if c == '=' then "" else [c]
  {
  }

  lemma AccumulatedTwo(a: char, b: char)
    requires Value(a) >= 0 && Value(b) >= 0
    ensures Accumulated([a, b]) == Value(a) * 64 + Value(b)
  {
    assert "" + [a] == [a] && [a] + [b] == [a, b];
    AccumulatedMore("", a);
    AccumulatedMore([a], b);
  }

  lemma AccumulatedMore(s: string, c: char)
    requires (forall x :: x in s ==> Value(x) >= 0) && Value(c) >= 0
    ensures Accumulated(s + [c]) == Accumulated(s) * 64 + Value(c)
  {
    assert (s + [c])[..|s|] == s;
  }

  /** The first `k + 1` characters of an encoded chunk carry its leading bits. */
  lemma EncodedBits(b: Bytes, n: nat)
    requires 1 <= |b| <= 3
    requires n == b[0] as int * 0x1_0000 + (if |b| > 1 then b[1] as int * 0x100 else 0)
      + (if |b| > 2 then b[2] as int else 0)
    ensures var s := EncodeChunk(b)[..|b| + 1];
      && WithoutPadding(EncodeChunk(b)) == s && (forall c :: c in s ==> Value(c) >= 0)
      && Accumulated(s) == n / (if |b| == 1 then 0x1000 else if |b| == 2 then 64 else 1)
  {
    hide WithoutPadding, Value, Digit, Accumulated;
    var v0, v1, v2, v3 := n / 0x4_0000 % 64, n / 0x1000 % 64, n / 64 % 64, n % 64;
    ValueOfDigit(v0); ValueOfDigit(v1); ValueOfDigit(v2); ValueOfDigit(v3);
    var e := EncodeChunk(b);
    FourCharacters(e);
    SixBits(n);
    AccumulatedTwo(e[0], e[1]);
    assert e[..2] == [e[0], e[1]];
    if |b| > 1 {
      assert e[..3] == e[..2] + [e[2]];
      AccumulatedMore(e[..2], e[2]);
    }
    if |b| > 2 {
      assert e[..4] == e[..3] + [e[3]] == e;
      AccumulatedMore(e[..3], e[3]);
    }
  }

  /** Decoding a chunk's digits, the padding dropped, gives the chunk. */
  lemma ChunkRoundTrip(b: Bytes)
    requires 1 <= |b| <= 3
    ensures var s := EncodeChunk(b)[..|b| + 1];
      WithoutPadding(EncodeChunk(b)) == s && (forall c :: c in s ==> Value(c) >= 0) && DecodeChunk(s) == b
  {
    hide EncodeChunk, WithoutPadding, Value, Accumulated;
    var n := b[0] as int * 0x1_0000 + (if |b| > 1 then b[1] as int * 0x100 else 0)
      + (if |b| > 2 then b[2] as int else 0);
    EncodedBits(b, n);
    ThreeBytes(b[0] as nat, if |b| > 1 then b[1] as nat else 0, if |b| > 2 then b[2] as nat else 0);
    var s := EncodeChunk(b)[..|b| + 1];
    assert DecodeChunk(s) == [b[0], (n / 0x100 % 256) as u8, (n % 256) as u8][..|b|];
  }

  lemma ThreeBytes(x: nat, y: nat, z: nat)
    requires x < 256 && y < 256 && z < 256
    ensures var n := x * 0x1_0000 + y * 0x100 + z;
      && n / 0x1_0000 == x && n / 0x100 % 256 == y && n % 256 == z
      && (y == 0 && z == 0 ==> n / 0x1000 * 0x1000 == n) && (z == 0 ==> n / 64 * 64 == n)
  {
    var n := x * 0x1_0000 + y * 0x100 + z;
    ModUnique(n, 0x1_0000, x, y * 0x100 + z);
    ModUnique(n, 0x100, x * 0x100 + y, z);
    ModUnique(x * 0x100 + y, 0x100, x, y);
    if z == 0 {
      ModUnique(n, 64, x * 0x400 + y * 4, 0);
      if y == 0 {
        ModUnique(n, 0x1000, x * 16, 0);
      }
    }
  }

  lemma SixBits(n: nat)
    requires n < 0x100_0000
    ensures (n / 0x4_0000 % 64) * 64 + n / 0x1000 % 64 == n / 0x1000
    ensures (n / 0x1000) * 64 + n / 64 % 64 == n / 64
    ensures (n / 64) * 64 + n % 64 == n
  {
  }

  /** Decoding what was encoded gives the data back, for all data. */
  lemma {:induction false} RoundTrip(data: Bytes)
    ensures Decoded(WithoutPadding(Encoded(data))) == Ok(data)
    decreases |data|
  {
    hide WithoutPadding, EncodeChunk, DecodeChunk, Value;
    if data == [] {
      NoPadding();
    } else {
      var k := if |data| < 3 then |data| else 3;
      var b, rest := data[..k], data[k..];
      ChunkRoundTrip(b);
      var s := EncodeChunk(b)[..k + 1];
      WithoutPaddingAppend(EncodeChunk(b), Encoded(rest));
      RoundTrip(rest);
      if k < 3 {
        NoPadding();
      }
      var all := s + WithoutPadding(Encoded(rest));
      assert all[..k + 1] == s && all[k + 1..] == WithoutPadding(Encoded(rest));
      assert s[..k + 1] == s;
      FirstInvalidAt(s, k + 1);
    }
  }

  lemma NoPadding()
    ensures WithoutPadding("") == ""
  {
  }
}
