// The encoding digit by digit, and what a decoder takes for a value, exactly.

module PbExact {
  import opened Bytes
  import opened PbMessage
  import opened PbWire
  import opened PbEncoding
  import opened PbDecoding
  import opened PbRoundTrip

  // ------------------------------------------------------------------
  // Digits

  // d is the digit of n at weight p, in base b.
  predicate DigitAt(n: nat, b: nat, p: nat, d: nat, low: nat, high: nat) {
    d < b && low < p && n == low + p * (d + b * high)
  }

  lemma NextDigit(n: nat, b: nat, p: nat, d: nat, low: nat, high: nat)
    requires b > 0 && DigitAt(n / b, b, p, d, low, high)
    ensures DigitAt(n, b, b * p, d, n % b + b * low, high)
  {
    var x := d + b * high;
    assert n == n % b + b * (n / b);
    Distribute(b, low, p, x);
    Grow(b, low, p);
  }

  lemma Distribute(b: nat, low: nat, p: nat, x: nat)
    ensures b * (low + p * x) == b * low + b * p * x
  {
    assert b * (low + p * x) == b * low + b * (p * x);
    assert b * (p * x) == b * p * x;
  }

  lemma Grow(b: nat, low: nat, p: nat)
    requires low < p
    ensures b * low + b <= b * p
  {
    assert b * (low + 1) <= b * p;
  }

  // Fixed-width numbers are little-endian.
  lemma {:induction false} FixedDigits(n: nat, len: nat, i: nat) returns (low: nat, high: nat)
    requires i < len
    ensures DigitAt(n, 256, Power256(i), FixedBytes(n, len)[i], low, high)
    decreases i
  {
    if i == 0 {
      low, high := 0, n / 256;
    } else {
      low, high := FixedDigits(n / 256, len - 1, i - 1);
      NextDigit(n, 256, Power256(i - 1), FixedBytes(n / 256, len - 1)[i - 1], low, high);
      low := n % 256 + 256 * low;
    }
  }

  // A varint has groups of seven bits, lowest first; a group is marked exactly
  // if there is more above it.
  lemma {:induction false} VarintDigits(n: nat, i: nat) returns (d: nat, low: nat, high: nat)
    requires i < |VarintBytes(n)|
    ensures DigitAt(n, 128, Pow2(7 * i), d, low, high)
    ensures VarintBytes(n)[i] == d + (if high > 0 then 128 else 0) && (i + 1 < |VarintBytes(n)| <==> high > 0)
    decreases i
  {
    if i == 0 {
      d, low, high := n % 128, 0, n / 128;
    } else {
      d, low, high := VarintDigits(n / 128, i - 1);
      assert Pow2(7) == 128;
      Pow2Add(7, 7 * (i - 1));
      NextDigit(n, 128, Pow2(7 * (i - 1)), d, low, high);
      low := n % 128 + 128 * low;
    }
  }

  // Zigzag alternates between the signs.
  lemma ZigZagIs(n: int)
    requires IsInt64(n)
    ensures ZigZag(n) == if n < 0 then -2 * n - 1 else 2 * n
  {
    if n < 0 {
      assert Wrap64(n) * 2 % U64 == 2 * n + U64;
    }
  }

  // ------------------------------------------------------------------
  // Numbers

  // u stands for n: a signed field of up to 32 bits looks at 32 bits only.
  predicate StandsFor(f: Field, u: nat, n: int)
    requires TypedValue(f, Num(n)) && (f.kind.Varint? || f.kind.Uvarint? || f.kind.Svarint?)
  {
    match f.kind
    case Uvarint => u == n
    case Svarint => u == if n < 0 then -2 * n - 1 else 2 * n
    case Varint => if f.dataSize == 8 then n % U64 == u else n % U32 == u % U32
  }

  // A number is read as n if and only if the varint stands for n and n fits
  // the field; what fits no number is an error.
  lemma NumberIsExact(f: Field, prior: Value, s: seq<byte>, v: Value)
    requires WellFormedField(f) && (f.kind.Varint? || f.kind.Uvarint? || f.kind.Svarint?) && TypedValue(f, prior)
    requires ReadVarint(s).Some?
    ensures var r := DecodeValue(f, prior, s);
      && (r.Some? ==> r.value.rest == ReadVarint(s).value.rest)
      && (r.Some? && r.value.value == v <==> v.Num? && TypedValue(f, v) && StandsFor(f, ReadVarint(s).value.value, v.n))
  {
    var u := ReadVarint(s).value.value;
    if v.Num? && TypedValue(f, v) {
      match f.kind
      case Uvarint =>
      case Svarint => SvarintIsExact(u, v.n);
      case Varint => VarintIsExact(u, v.n, f.dataSize);
    }
  }

  lemma SvarintIsExact(u: nat, n: int)
    requires u < U64 && IsInt64(n)
    ensures UnZigZag(u) == n <==> u == if n < 0 then -2 * n - 1 else 2 * n
  {
    ZigZagIs(n);
    ZigZagRoundTrip(n);
    ZigZagOnto(u);
  }

  lemma VarintIsExact(u: nat, n: int, size: nat)
    requires u < U64 && IntSize(size) && FitsSigned(n, size)
    ensures NarrowSigned(u, size) == Some(n) <==> if size == 8 then n % U64 == u else n % U32 == u % U32
  {}

  // An int32 that was written in 32 bits is read back, negative or not.
  lemma NarrowIsRead(f: Field, prior: Value, n: int, rest: seq<byte>)
    requires WellFormedField(f) && f.kind.Varint? && f.dataSize < 8 && FitsSigned(n, f.dataSize) && TypedValue(f, prior)
    ensures DecodeValue(f, prior, VarintBytes(n % U32) + rest) == Some(Read(Num(n), rest))
  {
    hide VarintBytes, ReadVarint, DecodeValue;
    VarintRoundTrip(n % U32, rest);
    NumberIsExact(f, prior, VarintBytes(n % U32) + rest, Num(n));
  }

  // ------------------------------------------------------------------
  // Data

  // A string ends at its first NUL.
  lemma {:induction false} StringEndsAtNul(s: seq<byte>)
    ensures var c := CString(s); c <= s && 0 !in c && (|c| < |s| ==> s[|c|] == 0)
  {
    if s != [] && s[0] != 0 {
      StringEndsAtNul(s[1..]);
    }
  }

  lemma {:induction false} ZerosAre(n: nat)
    ensures forall i :: 0 <= i < n ==> Zeros(n)[i] == 0
  {
    if n > 0 {
      ZerosAre(n - 1);
    }
  }

  // Data is taken if and only if it fits the field.
  lemma DataIsExact(f: Field, prior: Value, body: seq<byte>, rest: seq<byte>)
    requires WellFormedField(f) && (f.kind.Bytes? || f.kind.String? || f.kind.FixedLengthBytes?) && TypedValue(f, prior)
    requires |body| < U32
    ensures var r := DecodeValue(f, prior, Prefixed(body) + rest);
      && (r.Some? <==>
          match f.kind
          case Bytes => |body| + 4 <= f.dataSize
          case String => |body| + 1 <= f.dataSize
          case _ => |body| == f.dataSize || body == [])
      && (r.Some? ==>
          && r.value.rest == rest && r.value.value.Data?
          && var d := r.value.value.bytes;
            if f.kind.Bytes? then d == body
            else if f.kind.String? then d <= body && 0 !in d && (|d| < |body| ==> body[|d|] == 0)
            else |d| == f.dataSize && if body == [] then forall i :: 0 <= i < |d| ==> d[i] == 0 else d == body)
  {
    PrefixedRoundTrip(body, rest);
    assert (body + rest)[..|body|] == body && (body + rest)[|body|..] == rest;
    StringEndsAtNul(body);
    ZerosAre(f.dataSize);
  }
}
