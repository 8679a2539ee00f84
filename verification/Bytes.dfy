// Bytes, options and the big-endian integers of the TLS presentation language.

module Bytes {
  datatype Option<+T> = None | Some(value: T)

  type byte = b: int | 0 <= b < 256

  // CBB_add_u16, CBB_add_u24 and the 48-bit sequence numbers of a record: the
  // len low bytes of n, most significant first.
  function ToBytes(n: nat, len: nat): (s: seq<byte>)
    ensures |s| == len
  {
    if len == 0 then [] else ToBytes(n / 256, len - 1) + [n % 256]
  }

  // CBS_get_u16, CBS_get_u24: any big-endian integer.
  function BigEndian(s: seq<byte>): (n: nat) {
    if s == [] then 0 else BigEndian(s[..|s| - 1]) * 256 + s[|s| - 1]
  }

  function U16(n: nat): (s: seq<byte>)
    requires n < 0x1_0000
    ensures |s| == 2
  {
    ToBytes(n, 2)
  }

  function U24(n: nat): (s: seq<byte>)
    requires n < 0x100_0000
    ensures |s| == 3
  {
    ToBytes(n, 3)
  }

  function U48(n: nat): (s: seq<byte>)
    requires n < 0x1_0000_0000_0000
    ensures |s| == 6
  {
    ToBytes(n, 6)
  }

  lemma {:induction false} BytesRoundTrip(n: nat, len: nat)
    requires n < Power256(len)
    ensures BigEndian(ToBytes(n, len)) == n
  {
    if len > 0 {
      BytesRoundTrip(n / 256, len - 1);
      assert ToBytes(n, len)[..len - 1] == ToBytes(n / 256, len - 1);
    }
  }

  lemma U16RoundTrip(n: nat)
    requires n < 0x1_0000
    ensures BigEndian(U16(n)) == n
  {
    assert Power256(2) == 0x1_0000;
    BytesRoundTrip(n, 2);
  }

  lemma U24RoundTrip(n: nat)
    requires n < 0x100_0000
    ensures BigEndian(U24(n)) == n
  {
    assert Power256(3) == 0x100_0000;
    BytesRoundTrip(n, 3);
  }

  lemma U48RoundTrip(n: nat)
    requires n < 0x1_0000_0000_0000
    ensures BigEndian(U48(n)) == n
  {
    assert Power256(6) == 0x1_0000_0000_0000;
    BytesRoundTrip(n, 6);
  }

  lemma BigEndianByte(b: byte)
    ensures BigEndian([b]) == b
  {
    assert [b][..0] == [];
  }

  lemma {:induction false} BigEndianBound(s: seq<byte>, bound: nat)
    requires bound == Power256(|s|)
    ensures BigEndian(s) < bound
  {
    if s != [] {
      BigEndianBound(s[..|s| - 1], Power256(|s| - 1));
    }
  }

  function Power256(n: nat): (p: nat)
    ensures p > 0
  {
    if n == 0 then 1 else 256 * Power256(n - 1)
  }

  lemma {:induction false} BigEndianAppend(a: seq<byte>, b: seq<byte>)
    ensures BigEndian(a + b) == BigEndian(a) * Power256(|b|) + BigEndian(b)
  {
    if b == [] {
      assert a + b == a;
    } else {
      var n := |b| - 1;
      assert (a + b)[..|a + b| - 1] == a + b[..n];
      BigEndianAppend(a, b[..n]);
      calc {
        BigEndian(a + b);
        (BigEndian(a) * Power256(n) + BigEndian(b[..n])) * 256 + b[n];
        BigEndian(a) * Power256(n) * 256 + BigEndian(b);
        { assert BigEndian(a) * Power256(n) * 256 == BigEndian(a) * (256 * Power256(n)); }
        BigEndian(a) * Power256(n + 1) + BigEndian(b);
      }
    }
  }
}
