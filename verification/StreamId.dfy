/**
 Stream ids: the hex digits of a timestamp and of a counter in one 32-byte buffer. The counter's digits
 are written last digit first and then turned around in place.
 */
module StreamId {
  import opened Wrappers
  import opened Sequences
  import opened Utf8
  import opened Json
  import opened Escaping

  const TWO_64: nat := 0x1_0000_0000_0000_0000

  /** Two digits for every byte. */
  function HexOfBytes(src: bytes): bytes {
    if src == [] then []
    else HexOfBytes(src[..|src| - 1]) + [HexDigit(src[|src| - 1] as int / 16), HexDigit(src[|src| - 1] as int % 16)]
  }

  /** As many digits as `n` needs, most significant first; none for 0. */
  function HexOfNat(n: nat): bytes {
    if n == 0 then [] else HexOfNat(n / 16) + [HexDigit(n % 16)]
  }

  /** The same digits in the order in which they are written. */
  function Backwards(n: nat): bytes {
    if n == 0 then [] else [HexDigit(n % 16)] + Backwards(n / 16)
  }

  function Reversed(s: bytes): bytes {
    seq(|s|, k requires 0 <= k < |s| => s[|s| - 1 - k])
  }

  function Pow(b: nat, k: nat): nat {
    if k == 0 then 1 else b * Pow(b, k - 1)
  }

  lemma {:induction false} ReversedBackwards(n: nat)
    ensures Reversed(Backwards(n)) == HexOfNat(n)
  {
    if n > 0 {
      ReversedBackwards(n / 16);
      assert Reversed(Backwards(n)) == Reversed(Backwards(n / 16)) + [HexDigit(n % 16)];
    }
  }

  lemma {:induction false} BackwardsIsShort(n: nat, k: nat)
    requires n < Pow(16, k)
    ensures |Backwards(n)| <= k
  {
    if n > 0 {
      BackwardsIsShort(n / 16, k - 1);
    }
  }

  lemma SixteenDigits()
    ensures Pow(16, 16) == TWO_64
  {
    assert Pow(16, 4) == 0x1_0000;
    assert Pow(16, 8) == 0x1_0000_0000;
    assert Pow(16, 12) == 0x1_0000_0000_0000;
  }

  method HexEncode(dst: array<byte>, src: array<byte>, cnt: nat) returns (length: nat)
    requires dst.Length == 32 && src.Length == 8 && cnt < TWO_64
    modifies dst
    ensures 16 <= length <= 32
    ensures dst[..length] == HexOfBytes(src[..]) + HexOfNat(cnt)
    ensures dst[length..] == old(dst[length..])
  {
    WriteBytes(dst, src);
    length := WriteBackwards(dst, cnt);
    ReverseFrom16(dst, length);
    ReversedBackwards(cnt);
    hide HexOfBytes, HexOfNat, Backwards, Reversed;
    assert dst[..length] == dst[..16] + dst[16..length];
  }

  /** The third loop: turns the places 16 to length - 1 around. */
  method ReverseFrom16(dst: array<byte>, length: nat)
    requires 16 <= length <= dst.Length
    modifies dst
    ensures dst[16..length] == Reversed(old(dst[16..length]))
    ensures dst[..16] == old(dst[..16]) && dst[length..] == old(dst[length..])
  {
    var i, j := 16, length - 1;
    while i < j
      invariant 16 <= i <= j + 2 <= length + 1 && i + j == length + 15
      invariant forall k | i <= k <= j :: dst[k] == old(dst[k])
      invariant forall k | 16 <= k < i || j < k < length :: dst[k] == old(dst[length + 15 - k])
      invariant forall k | 0 <= k < 16 || length <= k < dst.Length :: dst[k] == old(dst[k])
    {
      dst[i], dst[j] := dst[j], dst[i];
      i, j := i + 1, j - 1;
    }
    ghost var was := old(dst[16..length]);
    forall k | 0 <= k < length - 16 ensures dst[16..length][k] == was[|was| - 1 - k] {
      assert dst[16 + k] == old(dst[length + 15 - (16 + k)]);
    }
  }

  /** The first loop: the bytes' digits fill the first 16 places. */
  method WriteBytes(dst: array<byte>, src: array<byte>)
    requires dst.Length == 32 && src.Length == 8
    modifies dst
    ensures dst[..16] == HexOfBytes(src[..]) && dst[16..] == old(dst[16..])
  {
    var i := 0;
    while i < 8
      invariant 0 <= i <= 8
      invariant dst[..2 * i] == HexOfBytes(src[..i])
      invariant dst[16..] == old(dst[16..])
    {
      dst[i * 2] := HexDigit(src[i] as int / 16);
      dst[i * 2 + 1] := HexDigit(src[i] as int % 16);
      assert src[..i + 1][..i] == src[..i];
      i := i + 1;
    }
    assert src[..8] == src[..];
  }

  /** The second loop: the counter's digits, last digit first; none of them beyond the buffer. */
  method WriteBackwards(dst: array<byte>, cnt: nat) returns (idx: nat)
    requires dst.Length == 32 && cnt < TWO_64
    modifies dst
    ensures 16 <= idx <= 32
    ensures dst[16..idx] == Backwards(cnt)
    ensures dst[..16] == old(dst[..16]) && dst[idx..] == old(dst[idx..])
  {
    hide Backwards, HexDigit, Pow;
    SixteenDigits();
    BackwardsIsShort(cnt, 16);
    var rest := cnt;
    idx := 16;
    while rest > 0
      invariant 16 <= idx <= 32
      invariant dst[16..idx] + Backwards(rest) == Backwards(cnt)
      invariant dst[..16] == old(dst[..16]) && dst[idx..] == old(dst[idx..])
    {
      BackwardsStep(dst[16..idx], rest);
      ghost var before := dst[16..idx];
      dst[idx] := HexDigit(rest % 16);
      assert dst[16..idx + 1] == before + [HexDigit(rest % 16)];
      rest, idx := rest / 16, idx + 1;
    }
    NothingLeft();
    assert dst[16..idx] + [] == dst[16..idx];
  }

  lemma BackwardsStep(before: bytes, rest: nat)
    requires rest > 0
    ensures |Backwards(rest)| >= 1
    ensures before + Backwards(rest) == (before + [HexDigit(rest % 16)]) + Backwards(rest / 16)
  {
    Associates(before, [HexDigit(rest % 16)], Backwards(rest / 16));
  }

  lemma NothingLeft()
    ensures Backwards(0) == []
  {}

  /** No digit too many: the first one is not zero, and zero has none. */
  lemma {:induction false} HexOfNatIsMinimal(n: nat)
    ensures n == 0 <==> HexOfNat(n) == []
    ensures n > 0 ==> HexOfNat(n)[0] != 0x30
  {
    if n > 0 {
      HexOfNatIsMinimal(n / 16);
    }
  }

  // The ids

  /** The conversion of a time in nanoseconds, negative before 1970, to 64 bits without sign. */
  function AsUint64(nanos: int): nat {
    nanos % TWO_64
  }

  function BigEndian(n: nat, width: nat): bytes {
    if width == 0 then [] else BigEndian(n / 256, width - 1) + [(n % 256) as byte]
  }

  function IdOf(nanos: int, counter: nat): bytes {
    HexOfBytes(BigEndian(AsUint64(nanos), 8)) + HexOfNat(counter)
  }

  lemma {:induction false} BigEndianLength(n: nat, width: nat)
    ensures |BigEndian(n, width)| == width
  {
    if width > 0 {
      BigEndianLength(n / 256, width - 1);
    }
  }

  class Generator {
    var counter: nat

    predicate Valid() reads this { counter < TWO_64 }

    constructor (seconds: nat)
      requires seconds < TWO_64
      ensures Valid() && counter == seconds
    {
      counter := seconds;
    }

    /** `nanos` is what the clock says, whatever that is. */
    method GenerateStreamId(nanos: int) returns (id: bytes)
      requires Valid()
      modifies this
      ensures Valid() && counter == (old(counter) + 1) % TWO_64
      ensures id == IdOf(nanos, counter)
    {
      counter := (counter + 1) % TWO_64;
      var bytes8 := BigEndian(AsUint64(nanos), 8);
      BigEndianLength(AsUint64(nanos), 8);
      var src := new byte[8](i requires 0 <= i < 8 => bytes8[i]);
      assert src[..] == bytes8;
      var dst := new byte[32](_ => 0);
      var length := HexEncode(dst, src, counter);
      id := dst[..length];
    }
  }

  // Reading an id back

  function DigitValue(b: byte): nat {
    if HexValue(b).Some? then HexValue(b).value else 0
  }

  function NatOfHex(s: bytes): nat {
    if s == [] then 0 else 16 * NatOfHex(s[..|s| - 1]) + DigitValue(s[|s| - 1])
  }

  /** The timestamp and the counter. */
  function Decode(id: bytes): (nat, nat) {
    if |id| < 16 then (0, 0) else (NatOfHex(id[..16]), NatOfHex(id[16..]))
  }

  lemma {:induction false} NatOfHexOfNat(n: nat)
    ensures NatOfHex(HexOfNat(n)) == n
  {
    if n > 0 {
      NatOfHexOfNat(n / 16);
      assert HexOfNat(n)[..|HexOfNat(n)| - 1] == HexOfNat(n / 16);
    }
  }

  lemma NatOfHexTwo(s: bytes, hi: nat, lo: nat)
    requires hi < 16 && lo < 16
    ensures NatOfHex(s + [HexDigit(hi), HexDigit(lo)]) == 256 * NatOfHex(s) + 16 * hi + lo
  {
    var t := s + [HexDigit(hi), HexDigit(lo)];
    assert t[..|t| - 1] == s + [HexDigit(hi)];
    assert (s + [HexDigit(hi)])[..|s|] == s;
  }

  lemma {:induction false} NatOfBigEndian(n: nat, width: nat)
    requires n < Pow(256, width)
    ensures |HexOfBytes(BigEndian(n, width))| == 2 * width
    ensures NatOfHex(HexOfBytes(BigEndian(n, width))) == n
  {
    if width > 0 {
      NatOfBigEndian(n / 256, width - 1);
      var bs := BigEndian(n, width);
      assert bs[..|bs| - 1] == BigEndian(n / 256, width - 1);
      NatOfHexTwo(HexOfBytes(bs[..|bs| - 1]), n % 256 / 16, n % 256 % 16);
    }
  }

  lemma EightBytes()
    ensures Pow(256, 8) == TWO_64
  {
    assert Pow(256, 2) == 0x1_0000;
    assert Pow(256, 4) == 0x1_0000_0000;
    assert Pow(256, 6) == 0x1_0000_0000_0000;
  }

  /** A decoder recovers both parts of every id. */
  lemma DecodeOfId(nanos: int, counter: nat)
    ensures Decode(IdOf(nanos, counter)) == (AsUint64(nanos), counter)
    ensures counter < TWO_64 ==> 16 <= |IdOf(nanos, counter)| <= 32
  {
    EightBytes();
    NatOfBigEndian(AsUint64(nanos), 8);
    NatOfHexOfNat(counter);
    var id := IdOf(nanos, counter);
    assert id[..16] == HexOfBytes(BigEndian(AsUint64(nanos), 8));
    assert id[16..] == HexOfNat(counter);
    SixteenDigits();
    if counter < TWO_64 {
      BackwardsIsShort(counter, 16);
      ReversedBackwards(counter);
    }
  }

  /** For times after 1970 that fit, the decoded timestamp is the time; for those before, its two's complement. */
  lemma TimestampIsTime(nanos: int, counter: nat)
    requires -0x8000_0000_0000_0000 <= nanos < 0x1_0000_0000_0000_0000
    ensures Decode(IdOf(nanos, counter)).0 == if nanos >= 0 then nanos else nanos + 0x1_0000_0000_0000_0000
    ensures Decode(IdOf(nanos, counter)).1 == counter
  {
    DecodeOfId(nanos, counter);
  }

  lemma IdsEqualIff(nanos1: int, counter1: nat, nanos2: int, counter2: nat)
    ensures IdOf(nanos1, counter1) == IdOf(nanos2, counter2)
       <==> AsUint64(nanos1) == AsUint64(nanos2) && counter1 == counter2
  {
    DecodeOfId(nanos1, counter1);
    DecodeOfId(nanos2, counter2);
  }

  /** Of 2^64 ids generated one after the other no two are the same, whatever the clock does. */
  lemma ConsecutiveIdsDiffer(start: nat, i: nat, j: nat, nanosI: int, nanosJ: int)
    requires i < j < i + TWO_64
    ensures IdOf(nanosI, (start + i) % TWO_64) != IdOf(nanosJ, (start + j) % TWO_64)
  {
    IdsEqualIff(nanosI, (start + i) % TWO_64, nanosJ, (start + j) % TWO_64);
    if (start + i) % TWO_64 == (start + j) % TWO_64 {
      var a, b := (start + i) / TWO_64, (start + j) / TWO_64;
      assert j - i == TWO_64 * (b - a);
    }
  }
}
