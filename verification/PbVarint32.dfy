// What the 32-bit varint reader, which also reads every tag and length, makes
// of a 64-bit varint (pb_decode_varint32_eof).

module PbVarint32 {
  import opened Bytes
  import opened PbWire

  // The low groups * 7 bits come in groups of seven equal bits.
  predicate EvenGroups(n: nat, groups: nat) {
    groups == 0 || (n % 0x80 in {0, 0x7f} && EvenGroups(n / 0x80, groups - 1))
  }

  // What fits is read as it is. Beyond that, only the form of a negative
  // number passes: bits 31 and 63 set, bits 35 to 62 in groups of seven equal
  // bits. Bits 32 to 34 are not looked at.
  function Varint32Result(n: nat): Option<nat>
    requires n < U64
  {
    if n < U32 then Some(n)
    else if n >= 0x8000_0000_0000_0000 && n % U32 >= 0x8000_0000 && EvenGroups(n / 0x8_0000_0000, 4) then Some(n % U32)
    else None
  }

  // One byte above bit 32.
  lemma TailTurn(n: nat, result: nat, bitpos: nat, rest: seq<byte>)
    requires 35 <= bitpos <= 63 && result < U32 && 0 < n && (bitpos == 63 ==> n == 1)
    ensures Varint32From(VarintBytes(n) + rest, result, bitpos) ==
      if bitpos == 63 then (if result >= 0x8000_0000 then Some(Read(result, rest)) else None)
      else if n < 0x80 || (n % 0x80 != 0 && (result < 0x8000_0000 || n % 0x80 != 0x7f)) then None
      else Varint32From(VarintBytes(n / 0x80) + rest, result, bitpos + 7)
  {
    FirstByte(n);
    var s := VarintBytes(n) + rest;
    assert s[1..] == (if n < 0x80 then [] else VarintBytes(n / 0x80)) + rest;
  }

  lemma {:induction false} TailFrom(n: nat, result: nat, k: nat, p: nat, rest: seq<byte>)
    requires k <= 4 && p == Pow2(7 * k) && 0 < n < 2 * p && result < U32
    ensures Varint32From(VarintBytes(n) + rest, result, 63 - 7 * k) ==
      if n >= p && result >= 0x8000_0000 && EvenGroups(n, k) then Some(Read(result, rest)) else None
  {
    TailTurn(n, result, 63 - 7 * k, rest);
    if k > 0 {
      Pow2Next(7 * k - 7);
      if n >= 0x80 {
        TailFrom(n / 0x80, result, k - 1, Pow2(7 * k - 7), rest);
      }
    }
  }

  function Outcome(n: nat, rest: seq<byte>): Option<Read<nat>>
    requires n < U64
  {
    match Varint32Result(n)
    case Some(v) => Some(Read(v, rest))
    case None => None
  }

  // The byte at bit 28: only its low four bits fit.
  lemma FifthTurn(s: seq<byte>, result: nat, d: nat, low: nat)
    requires s != [] && d == s[0] % 0x80 && result < 0x1000_0000 && low == result + d % 0x10 * 0x1000_0000
    ensures Varint32From(s, result, 28) ==
      if s[0] >= 0x80 then Varint32From(s[1..], low, 35) else if s[0] >= 0x10 then None else Some(Read(low, s[1..]))
  {
    MergeFifth(result, d);
  }

  lemma MergeFifth(result: nat, d: nat)
    requires result < 0x1000_0000
    ensures Or(result, d * Pow2(28) % U32) % U32 == result + d % 0x10 * 0x1000_0000
  {
    var x := d % 0x10 * 0x1000_0000;
    ModFifth(d, x);
    OrFifth(result, d % 0x10, x);
    MergeEqual(result, d * Pow2(28), x);
  }

  lemma MergeEqual(result: nat, a: nat, x: nat)
    requires a % U32 == x && Or(result, x) == result + x < U32
    ensures Or(result, a % U32) % U32 == result + x
  {}

  lemma ModFifth(d: nat, x: nat)
    requires x == d % 0x10 * 0x1000_0000
    ensures d * Pow2(28) % U32 == x
  {
    WordSizes();
    assert d * 0x1000_0000 == x + d / 0x10 * U32;
  }

  lemma OrFifth(result: nat, c: nat, x: nat)
    requires result < 0x1000_0000 && x == c * 0x1000_0000
    ensures Or(result, x) == result + x
  {
    WordSizes();
    OrDisjoint(result, c, 28);
  }

  lemma FifthSplit(n: nat, result: nat, total: nat)
    requires result < 0x1000_0000 && total == result + n * 0x1000_0000
    ensures total % U32 == result + n % 0x10 * 0x1000_0000 && total / 0x8_0000_0000 == n / 0x80
    ensures n % 0x80 % 0x10 == n % 0x10
  {
    assert n == n % 0x10 + n / 0x10 * 0x10 && n == n % 0x80 + n / 0x80 * 0x80;
    LowPart(total, result + n % 0x10 * 0x1000_0000, n / 0x10);
    HighPart(total, result + n % 0x80 * 0x1000_0000, n / 0x80);
  }

  lemma LowPart(total: nat, low: nat, q: nat)
    requires low < U32 && total == low + q * U32
    ensures total % U32 == low
  {}

  lemma HighPart(total: nat, low: nat, q: nat)
    requires low < 0x8_0000_0000 && total == low + q * 0x8_0000_0000
    ensures total / 0x8_0000_0000 == q
  {}

  lemma FifthByte(n: nat, result: nat, total: nat, rest: seq<byte>)
    requires result < 0x1000_0000 && n > 0 && total == result + n * 0x1000_0000 < U64
    ensures Varint32From(VarintBytes(n) + rest, result, 28) == Outcome(total, rest)
  {
    var s, low := VarintBytes(n) + rest, result + n % 0x10 * 0x1000_0000;
    FirstByte(n);
    FifthSplit(n, result, total);
    FifthTurn(s, result, n % 0x80, low);
    if n >= 0x80 {
      assert s[1..] == VarintBytes(n / 0x80) + rest;
      TailOutcome(total, low, n / 0x80, rest);
    } else {
      assert s[0] == n && s[1..] == rest;
      LastOutcome(n, result, total, low);
    }
  }

  lemma LastOutcome(n: nat, result: nat, total: nat, low: nat)
    requires n < 0x80 && result < 0x1000_0000 && total == result + n * 0x1000_0000
    requires low == result + n % 0x10 * 0x1000_0000
    ensures Varint32Result(total) == if n >= 0x10 then None else Some(low)
  {}

  lemma TailOutcome(total: nat, low: nat, high: nat, rest: seq<byte>)
    requires total < U64 && low == total % U32 && high == total / 0x8_0000_0000 > 0
    ensures Varint32From(VarintBytes(high) + rest, low, 35) == Outcome(total, rest)
  {
    WordSizes();
    TailFrom(high, low, 4, 0x1000_0000, rest);
    assert total >= 0x8000_0000_0000_0000 <==> high >= 0x1000_0000;
  }

  // One byte below bit 28, whose bits go above those read before.
  lemma Varint32Turn(s: seq<byte>, result: nat, bitpos: nat, d: nat, p: nat)
    requires s != [] && bitpos < 28 && p == Pow2(bitpos) && d == s[0] % 0x80
    requires result < p && result + d * p < U32
    ensures Varint32From(s, result, bitpos)
      == if s[0] < 0x80 then Some(Read(result + d * p, s[1..])) else Varint32From(s[1..], result + d * p, bitpos + 7)
  {
    MergeLow(result, d, bitpos);
  }

  lemma MergeLow(result: nat, d: nat, bitpos: nat)
    requires result < Pow2(bitpos) && result + d * Pow2(bitpos) < U32
    ensures Or(result, d * Pow2(bitpos) % U32) % U32 == result + d * Pow2(bitpos)
  {
    var x := d * Pow2(bitpos);
    OrDisjoint(result, d, bitpos);
    ModSmall(x);
    MergeEqual(result, x, x);
  }

  lemma ModSmall(x: nat)
    requires x < U32
    ensures x % U32 == x
  {}

  lemma LowTurn(n: nat, result: nat, bitpos: nat, p: nat, total: nat, rest: seq<byte>) returns (more: nat)
    requires bitpos in {7, 14, 21} && p == Pow2(bitpos) && result < p && n > 0 && total == result + n * p
    ensures p <= 0x20_0000
    ensures n < 0x80 ==> total < U32 && Varint32From(VarintBytes(n) + rest, result, bitpos) == Some(Read(total, rest))
    ensures n >= 0x80 ==>
      && more < 128 * p && total == more + n / 0x80 * (128 * p)
      && Varint32From(VarintBytes(n) + rest, result, bitpos) == Varint32From(VarintBytes(n / 0x80) + rest, more, bitpos + 7)
  {
    hide Pow2;
    WordSizes();
    Pow2Next(bitpos);
    Pow2Grows(bitpos + 7, 28);
    more := AddLowBits(n, result, p, total);
    FirstByte(n);
    var s := VarintBytes(n) + rest;
    Varint32Turn(s, result, bitpos, n % 0x80, p);
    assert s[1..] == (if n < 0x80 then [] else VarintBytes(n / 0x80)) + rest;
  }

  lemma {:induction false} LowFrom(n: nat, result: nat, bitpos: nat, p: nat, total: nat, rest: seq<byte>)
    requires bitpos in {7, 14, 21, 28} && p == Pow2(bitpos) && result < p && n > 0 && total == result + n * p < U64
    requires result < U32
    ensures Varint32From(VarintBytes(n) + rest, result, bitpos) == Outcome(total, rest)
    decreases 28 - bitpos
  {
    if bitpos == 28 {
      WordSizes();
      FifthByte(n, result, total, rest);
    } else {
      var more := LowTurn(n, result, bitpos, p, total, rest);
      if n >= 0x80 {
        Pow2Next(bitpos);
        LowFrom(n / 0x80, more, bitpos + 7, 128 * p, total, rest);
      }
    }
  }

  // For every 64-bit varint, the 32-bit reader gives exactly this.
  lemma Varint32Exact(n: nat, rest: seq<byte>)
    requires n < U64
    ensures ReadVarint32(VarintBytes(n) + rest) == Outcome(n, rest)
  {
    FirstByte(n);
    var s := VarintBytes(n) + rest;
    assert s[1..] == (if n < 0x80 then [] else VarintBytes(n / 0x80)) + rest;
    if n >= 0x80 {
      assert Pow2(7) == 128;
      LowFrom(n / 0x80, n % 0x80, 7, 128, n, rest);
    }
  }

  // The cases a caller meets: lengths and tags, negative numbers, and what is
  // simply too large.
  lemma Varint32Cases(n: nat)
    requires n < U64
    ensures n < U32 ==> Varint32Result(n) == Some(n)
    ensures U32 <= n < 0x8000_0000_0000_0000 ==> Varint32Result(n) == None
    ensures n >= U64 - 0x8000_0000 ==> Varint32Result(n) == Some(n % U32)
  {
    if n >= U64 - 0x8000_0000 {
      assert n / 0x8_0000_0000 == 0x1fff_ffff;
    }
  }
}
