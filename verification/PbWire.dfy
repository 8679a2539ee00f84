// The wire format of Protocol Buffers as nanopb reads and writes it: varints,
// zigzag and fixed-width integers (pb_encode.c, pb_decode.c).

module PbWire {
  import opened Bytes

  const U32 := 0x1_0000_0000
  const U64 := 0x1_0000_0000_0000_0000

  // A value read from the front of the input, and the input behind it.
  datatype Read<+T> = Read(value: T, rest: seq<byte>)

  function Pow2(n: nat): (p: nat)
    ensures p > 0
  {
    if n == 0 then 1 else 2 * Pow2(n - 1)
  }

  lemma {:induction false} Pow2Add(m: nat, n: nat)
    ensures Pow2(m + n) == Pow2(m) * Pow2(n)
  {
    if m > 0 {
      Pow2Add(m - 1, n);
      assert 2 * (Pow2(m - 1) * Pow2(n)) == 2 * Pow2(m - 1) * Pow2(n);
    }
  }

  lemma WordSizes()
    ensures Pow2(7) == 128 && Pow2(28) == 0x1000_0000 && Pow2(32) == U32 && Pow2(63) == 0x8000_0000_0000_0000 && Pow2(64) == U64
  {
    assert Pow2(7) == 128 && Pow2(8) == 256;
    Pow2Add(7, 7);
    Pow2Add(14, 14);
    Pow2Add(8, 8);
    Pow2Add(16, 16);
    Pow2Add(32, 32);
    assert Pow2(64) == 2 * Pow2(63);
  }

  // a | b
  function Or(a: nat, b: nat): (r: nat)
    decreases a + b
  {
    if a == 0 && b == 0 then 0
    else 2 * Or(a / 2, b / 2) + (if a % 2 == 1 || b % 2 == 1 then 1 else 0)
  }

  // Bits below k joined with bits from k on.
  lemma {:induction false} OrDisjoint(a: nat, c: nat, k: nat)
    requires a < Pow2(k)
    ensures Or(a, c * Pow2(k)) == a + c * Pow2(k)
  {
    hide Or;
    if k == 0 {
      OrZero(c);
    } else {
      var p := Pow2(k - 1);
      OrDisjoint(a / 2, c, k - 1);
      assert c * (2 * p) == 2 * (c * p);
      OrDoubled(a, c * p);
    }
  }

  lemma OrDoubled(a: nat, x: nat)
    ensures Or(a, 2 * x) == 2 * Or(a / 2, x) + a % 2
  {
    assert 2 * x / 2 == x && 2 * x % 2 == 0;
    assert a == 0 && x == 0 ==> Or(a / 2, x) == 0;
  }

  lemma {:induction false} OrZero(c: nat)
    ensures Or(0, c) == c
  {
    if c > 0 {
      OrZero(c / 2);
    }
  }

  // ------------------------------------------------------------------
  // Writing

  // pb_encode_varint
  function VarintBytes(n: nat): (s: seq<byte>)
    ensures |s| > 0
  {
    if n < 0x80 then [n] else [n % 0x80 + 0x80] + VarintBytes(n / 0x80)
  }

  lemma {:induction false} VarintLength(n: nat, k: nat)
    requires n < Pow2(7 * k + 7)
    ensures |VarintBytes(n)| <= k + 1
  {
    assert Pow2(7) == 128;
    if n >= 0x80 {
      Pow2Add(7, 7 * k);
      VarintLength(n / 0x80, k - 1);
    }
  }

  // A 64-bit varint takes at most the ten bytes of the buffer.
  lemma VarintFits(n: nat)
    requires n < U64
    ensures |VarintBytes(n)| <= 10
  {
    WordSizes();
    Pow2Grows(64, 70);
    VarintLength(n, 9);
  }

  // Two's complement in 64 bits.
  function Wrap64(n: int): (u: nat)
    requires -0x8000_0000_0000_0000 <= n < U64
    ensures u < U64
  {
    if n < 0 then n + U64 else n
  }

  function Signed64(u: nat): (n: int)
    requires u < U64
  {
    if u < 0x8000_0000_0000_0000 then u else u - U64
  }

  function Signed32(u: nat): (n: int)
    requires u < U32
  {
    if u < 0x8000_0000 then u else u - U32
  }

  predicate IsInt64(n: int) {
    -0x8000_0000_0000_0000 <= n < 0x8000_0000_0000_0000
  }

  // pb_encode_svarint, before it is written as a varint: shift left, and
  // complement if negative.
  function ZigZag(n: int): (u: nat)
    requires IsInt64(n)
    ensures u < U64
  {
    var shifted := Wrap64(n) * 2 % U64;
    if n < 0 then U64 - 1 - shifted else shifted
  }

  // pb_decode_svarint
  function UnZigZag(u: nat): (n: int)
    requires u < U64
    ensures IsInt64(n)
  {
    if u % 2 == 1 then Signed64(U64 - 1 - u / 2) else u / 2
  }

  lemma ZigZagRoundTrip(n: int)
    requires IsInt64(n)
    ensures UnZigZag(ZigZag(n)) == n
  {
    if n < 0 {
      assert Wrap64(n) * 2 % U64 == 2 * n + U64;
    }
  }

  lemma ZigZagOnto(u: nat)
    requires u < U64
    ensures ZigZag(UnZigZag(u)) == u
  {
    if u % 2 == 1 {
      var n := UnZigZag(u);
      assert n == -1 - u / 2;
      assert Wrap64(n) * 2 % U64 == 2 * n + U64;
    }
  }

  // Little-endian integers of len bytes.
  function FixedBytes(n: nat, len: nat): (s: seq<byte>)
    ensures |s| == len
  {
    if len == 0 then [] else [n % 256] + FixedBytes(n / 256, len - 1)
  }

  function FixedValue(s: seq<byte>): (n: nat) {
    if s == [] then 0 else s[0] + 256 * FixedValue(s[1..])
  }

  lemma {:induction false} FixedRoundTrip(n: nat, len: nat)
    requires n < Power256(len)
    ensures FixedValue(FixedBytes(n, len)) == n
  {
    if len > 0 {
      FixedRoundTrip(n / 256, len - 1);
      assert FixedBytes(n, len)[1..] == FixedBytes(n / 256, len - 1);
    }
  }

  // ------------------------------------------------------------------
  // Reading

  // pb_decode_varint from the byte at bitpos on: at most ten bytes, and what
  // is shifted beyond 64 bits is lost.
  function VarintFrom(s: seq<byte>, result: nat, bitpos: nat): (r: Option<Read<nat>>)
    requires result < U64
    ensures r.Some? ==> |r.value.rest| < |s| && r.value.value < U64
  {
    if bitpos >= 64 || s == [] then None
    else
      var result := Or(result, s[0] % 0x80 * Pow2(bitpos) % U64) % U64;
      if s[0] < 0x80 then Some(Read(result, s[1..])) else VarintFrom(s[1..], result, bitpos + 7)
  }

  function ReadVarint(s: seq<byte>): (r: Option<Read<nat>>)
    ensures r.Some? ==> |r.value.rest| < |s| && r.value.value < U64
  {
    VarintFrom(s, 0, 0)
  }

  // The do loop of pb_decode_varint32_eof. Bytes above bit 32 must be empty or
  // extend the sign; the position is an 8-bit counter.
  function Varint32From(s: seq<byte>, result: nat, bitpos: nat): (r: Option<Read<nat>>)
    requires result < U32
    ensures r.Some? ==> |r.value.rest| < |s| && r.value.value < U32
  {
    if s == [] || (bitpos >= 32 && Overflows(s[0], result, bitpos)) then None
    else
      var result := if bitpos >= 32 then result else Or(result, s[0] % 0x80 * Pow2(bitpos) % U32) % U32;
      var next := if bitpos + 7 < 256 then bitpos + 7 else bitpos + 7 - 256;
      if s[0] >= 0x80 then Varint32From(s[1..], result, next)
      else if next == 35 && s[0] >= 0x10 then None
      else Some(Read(result, s[1..]))
  }

  predicate Overflows(b: byte, result: nat, bitpos: nat) {
    b % 0x80 != 0 && (result < 0x8000_0000 || b != (if bitpos < 63 then 0xff else 0x01))
  }

  // pb_decode_varint32
  function ReadVarint32(s: seq<byte>): (r: Option<Read<nat>>)
    ensures r.Some? ==> |r.value.rest| < |s| && r.value.value < U32
  {
    if s == [] then None
    else if s[0] < 0x80 then Some(Read(s[0], s[1..]))
    else Varint32From(s[1..], s[0] % 0x80, 7)
  }

  // ------------------------------------------------------------------
  // What reading makes of what was written

  // One byte, given that its bits go above those read before and stay within
  // 64 bits: p is 2^bitpos and d the seven bits of the byte.
  lemma VarintTurn(s: seq<byte>, result: nat, bitpos: nat, d: nat, p: nat)
    requires s != [] && bitpos < 64 && p == Pow2(bitpos) && d == s[0] % 0x80
    requires result < p && result + d * p < U64
    ensures VarintFrom(s, result, bitpos)
      == if s[0] < 0x80 then Some(Read(result + d * p, s[1..])) else VarintFrom(s[1..], result + d * p, bitpos + 7)
  {
    OrDisjoint(result, d, bitpos);
    ByteTurn(s, result, bitpos, d * p);
  }

  // The same with x for the shifted bits.
  lemma ByteTurn(s: seq<byte>, result: nat, bitpos: nat, x: nat)
    requires s != [] && bitpos < 64 && s[0] % 0x80 * Pow2(bitpos) == x && Or(result, x) == result + x < U64
    ensures VarintFrom(s, result, bitpos)
      == if s[0] < 0x80 then Some(Read(result + x, s[1..])) else VarintFrom(s[1..], result + x, bitpos + 7)
  {
    hide Or, Pow2;
    assert x % U64 == x && (result + x) % U64 == result + x;
  }

  lemma PositionInRange(n: nat, bitpos: nat)
    requires n > 0 && n * Pow2(bitpos) < U64
    ensures bitpos < 64
  {
    if bitpos >= 64 {
      WordSizes();
      Pow2Grows(64, bitpos);
      MulGrows(1, n, Pow2(bitpos));
    }
  }

  lemma {:induction false} Pow2Grows(m: nat, n: nat)
    requires m <= n
    ensures Pow2(m) <= Pow2(n)
  {
    if m < n {
      Pow2Grows(m, n - 1);
    }
  }

  lemma MulGrows(a: nat, b: nat, p: nat)
    requires a <= b
    ensures a * p <= b * p
  {}

  // The low seven bits d of n are added first, the rest q at the next weight.
  lemma AddLowBits(n: nat, result: nat, p: nat, total: nat) returns (more: nat)
    requires total == result + n * p && result < p
    ensures more == result + n % 128 * p && more <= total && more < 128 * p
    ensures total == more + n / 128 * (128 * p)
    ensures n < 128 ==> more == total
  {
    var d, q := n % 128, n / 128;
    MulGrows(d, n, p);
    MulGrows(d, 127, p);
    assert n * p == (d + 128 * q) * p == d * p + 128 * q * p;
    more := result + d * p;
  }

  lemma Pow2Next(bitpos: nat)
    ensures Pow2(bitpos + 7) == 128 * Pow2(bitpos)
  {
    WordSizes();
    Pow2Add(7, bitpos);
  }

  lemma FirstByte(n: nat)
    ensures var s := VarintBytes(n);
      s[0] % 0x80 == n % 0x80 && (s[0] < 0x80 <==> n < 0x80) && s[1..] == if n < 0x80 then [] else VarintBytes(n / 0x80)
  {}

  // The first byte of a written varint is read, and the rest is left.
  lemma WrittenTurn(n: nat, result: nat, bitpos: nat, p: nat, total: nat, rest: seq<byte>) returns (more: nat)
    requires p == Pow2(bitpos) && result < p && total == result + n * p < U64 && (n > 0 || bitpos == 0)
    ensures n < 0x80 ==> VarintFrom(VarintBytes(n) + rest, result, bitpos) == Some(Read(total, rest))
    ensures n >= 0x80 ==>
      && more < 128 * p && total == more + n / 0x80 * (128 * p)
      && VarintFrom(VarintBytes(n) + rest, result, bitpos) == VarintFrom(VarintBytes(n / 0x80) + rest, more, bitpos + 7)
  {
    var s := VarintBytes(n) + rest;
    if n > 0 {
      PositionInRange(n, bitpos);
    }
    more := AddLowBits(n, result, p, total);
    FirstByte(n);
    VarintTurn(s, result, bitpos, n % 0x80, p);
    assert s[1..] == (if n < 0x80 then [] else VarintBytes(n / 0x80)) + rest;
  }

  lemma {:induction false} VarintFromWritten(n: nat, result: nat, bitpos: nat, p: nat, total: nat, rest: seq<byte>)
    requires p == Pow2(bitpos) && result < p && total == result + n * p < U64 && (n > 0 || bitpos == 0)
    ensures VarintFrom(VarintBytes(n) + rest, result, bitpos) == Some(Read(total, rest))
    decreases n
  {
    var more := WrittenTurn(n, result, bitpos, p, total, rest);
    if n >= 0x80 {
      Pow2Next(bitpos);
      VarintFromWritten(n / 0x80, more, bitpos + 7, 128 * p, total, rest);
    }
  }

  // Every 64-bit integer survives the round trip, whatever follows it.
  lemma VarintRoundTrip(n: nat, rest: seq<byte>)
    requires n < U64
    ensures ReadVarint(VarintBytes(n) + rest) == Some(Read(n, rest))
  {
    VarintFromWritten(n, 0, 0, 1, n, rest);
  }
}
