// The branch-free choice between the decrypted and the random premaster secret
// (do_read_client_key_exchange; section 7.4.7.1 of RFC 5246, section 7.2.2 of
// RFC 3447), and the masks it is made of (crypto/internal.h).

module TlsPremaster {
  type Word = bv64

  const TRUE_8: bv8 := 0xff
  const MASTER_KEY_LENGTH := 48 // SSL_MAX_MASTER_KEY_LENGTH

  // constant_time_msb_w
  function Msb(a: Word): (m: Word)
    ensures m == if a >= 0x8000_0000_0000_0000 then 0xffff_ffff_ffff_ffff else 0
  {
    0 - (a >> 63)
  }

  // constant_time_is_zero_w
  function IsZero(a: Word): (m: Word)
    ensures m == if a == 0 then 0xffff_ffff_ffff_ffff else 0
  {
    Msb(!a & (a - 1))
  }

  // constant_time_eq_w
  function Eq(a: Word, b: Word): (m: Word)
    ensures m == if a == b then 0xffff_ffff_ffff_ffff else 0
  {
    IsZero(a ^ b)
  }

  // constant_time_is_zero_8, of a byte
  function IsZero8(a: bv8): (m: bv8)
    ensures m == if a == 0 then TRUE_8 else 0
  {
    (IsZero(a as Word) & 0xff) as bv8
  }

  // constant_time_eq_8, of bytes
  function Eq8(a: bv8, b: bv8): (m: bv8)
    ensures m == if a == b then TRUE_8 else 0
  {
    (Eq(a as Word, b as Word) & 0xff) as bv8
  }

  // constant_time_select_w and constant_time_select_8
  function SelectWord(mask: Word, a: Word, b: Word): (r: Word)
    ensures mask == 0xffff_ffff_ffff_ffff ==> r == a
    ensures mask == 0 ==> r == b
  {
    (mask & a) | (!mask & b)
  }

  function Select8(mask: bv8, a: bv8, b: bv8): (r: bv8)
    ensures mask == TRUE_8 ==> r == a
    ensures mask == 0 ==> r == b
  {
    (SelectWord(mask as Word, a as Word, b as Word) & 0xff) as bv8
  }

  // The block is 00 02, non-zero bytes, 00 and a premaster secret that starts
  // with the version the client offered.
  predicate GoodBlock(block: seq<bv8>, version: bv16)
    requires |block| >= 11 + MASTER_KEY_LENGTH
  {
    var padding := |block| - MASTER_KEY_LENGTH;
    && block[0] == 0 && block[1] == 2
    && (forall i :: 2 <= i < padding - 1 ==> block[i] != 0)
    && block[padding - 1] == 0
    && block[padding] == (version >> 8) as bv8
    && block[padding + 1] == (version & 0xff) as bv8
  }

  // The checks, every one of them made: an all-ones or an all-zeros mask.
  method CheckBlock(block: seq<bv8>, version: bv16) returns (good: bv8)
    requires |block| >= 11 + MASTER_KEY_LENGTH
    ensures good == if GoodBlock(block, version) then TRUE_8 else 0
  {
    var padding := |block| - MASTER_KEY_LENGTH;
    good := Eq8(block[0], 0) & Eq8(block[1], 2);
    for i := 2 to padding - 1
      invariant good == if block[0] == 0 && block[1] == 2 && forall j :: 2 <= j < i ==> block[j] != 0 then TRUE_8 else 0
    {
      good := good & !IsZero8(block[i]);
    }
    good := good & IsZero8(block[padding - 1]);
    good := good & Eq8(block[padding], (version >> 8) as bv8);
    good := good & Eq8(block[padding + 1], (version & 0xff) as bv8);
  }

  // premaster holds random bytes on entry. A good block puts its tail there;
  // any other leaves exactly the random bytes; and a block that is too short,
  // which is public, is an error.
  method SelectPremaster(block: seq<bv8>, version: bv16, premaster: array<bv8>) returns (ok: bool)
    requires premaster.Length == MASTER_KEY_LENGTH
    modifies premaster
    ensures ok == (|block| >= 11 + MASTER_KEY_LENGTH)
    ensures premaster[..] ==
      if ok && GoodBlock(block, version) then block[|block| - MASTER_KEY_LENGTH..] else old(premaster[..])
  {
    if |block| < 11 + premaster.Length {
      return false;
    }
    var padding := |block| - premaster.Length;
    var good := CheckBlock(block, version);
    for i := 0 to premaster.Length
      invariant premaster[i..] == old(premaster[i..])
      invariant premaster[..i] == if good == TRUE_8 then block[padding..padding + i] else old(premaster[..i])
    {
      ghost var done, kept := premaster[..i], premaster[i + 1..];
      assert premaster[i] == old(premaster[i..])[0] && kept == old(premaster[i..])[1..];
      var chosen := Select8(good, block[padding + i], premaster[i]);
      premaster[i] := chosen;
      assert premaster[..i + 1] == done + [chosen] && premaster[i + 1..] == kept;
      assert block[padding..padding + i + 1] == block[padding..padding + i] + [block[padding + i]];
    }
    ok := true;
  }
}
