// Reassembly of one handshake message: hm_fragment, its byte buffer and the
// bitmask of the bytes received so far.

module DtlsReassembly {
  import opened Bytes
  import opened DtlsFragment

  // ------------------------------------------------------------------
  // Eight flags in a byte

  // 1u << n
  function OneShl(n: nat): bv32
    requires n <= 8
  {
    (1 as bv32) << n
  }

  // bit_range: the bits from start, inclusive, to end, exclusive.
  function BitRange(start: nat, end: nat): bv8
    requires start <= 8 && end <= 8
  {
    (!(OneShl(start) - 1) & (OneShl(end) - 1) & 0xff) as bv8
  }

  predicate Bit(b: bv8, k: nat)
    requires k < 8
  {
    b & (OneShl(k) as bv8) != 0
  }

  lemma OneShlValues()
    ensures OneShl(0) == 1 && OneShl(1) == 2 && OneShl(2) == 4 && OneShl(3) == 8 && OneShl(4) == 16
    ensures OneShl(5) == 32 && OneShl(6) == 64 && OneShl(7) == 128 && OneShl(8) == 256
  {}

  lemma BitRangeBits(start: nat, end: nat, k: nat)
    requires start <= 8 && end <= 8 && k < 8
    ensures Bit(BitRange(start, end), k) <==> start <= k < end
  {
    OneShlValues();
  }

  lemma OrBit(a: bv8, b: bv8, k: nat)
    requires k < 8
    ensures Bit(a | b, k) <==> Bit(a, k) || Bit(b, k)
  {
    OneShlValues();
  }

  lemma FullBits(k: nat)
    requires k < 8
    ensures Bit(0xff, k) && !Bit(0, k)
  {
    OneShlValues();
  }

  lemma SameBits(a: bv8, b: bv8)
    requires forall k: nat :: k < 8 ==> Bit(a, k) == Bit(b, k)
    ensures a == b
  {
    OneShlValues();
    assert Bit(a, 0) == Bit(b, 0) && Bit(a, 1) == Bit(b, 1) && Bit(a, 2) == Bit(b, 2) && Bit(a, 3) == Bit(b, 3);
    assert Bit(a, 4) == Bit(b, 4) && Bit(a, 5) == Bit(b, 5) && Bit(a, 6) == Bit(b, 6) && Bit(a, 7) == Bit(b, 7);
  }

  // ------------------------------------------------------------------
  // The bitmask of a whole message, as values

  predicate Marked(mask: seq<bv8>, i: nat)
    requires i < 8 * |mask|
  {
    Bit(mask[i / 8], i % 8)
  }

  // No bit beyond the message length is ever set.
  ghost predicate MaskOk(mask: seq<bv8>, len: nat) {
    |mask| == (len + 7) / 8 && forall i: nat :: len <= i < 8 * |mask| ==> !Marked(mask, i)
  }

  ghost predicate AllMarked(mask: seq<bv8>, len: nat)
    requires |mask| == (len + 7) / 8
  {
    forall i: nat :: i < len ==> Marked(mask, i)
  }

  // The test at the end of dtls1_hm_fragment_mark, on whole bytes.
  predicate LooksComplete(mask: seq<bv8>, len: nat)
    requires |mask| == (len + 7) / 8
  {
    && (forall j :: 0 <= j < len / 8 ==> mask[j] == 0xff)
    && (len % 8 != 0 ==> mask[len / 8] == BitRange(0, len % 8))
  }

  lemma WholeByte(b: bv8)
    ensures b == 0xff <==> forall k: nat :: k < 8 ==> Bit(b, k)
  {
    forall k: nat | k < 8 ensures Bit(0xff, k) {
      FullBits(k);
    }
    if forall k: nat :: k < 8 ==> Bit(b, k) {
      SameBits(b, 0xff);
    }
  }

  lemma LastByte(b: bv8, n: nat)
    requires n <= 8 && forall k: nat :: n <= k < 8 ==> !Bit(b, k)
    ensures b == BitRange(0, n) <==> forall k: nat :: k < n ==> Bit(b, k)
  {
    forall k: nat | k < 8 ensures Bit(BitRange(0, n), k) <==> k < n {
      BitRangeBits(0, n, k);
    }
    if forall k: nat :: k < n ==> Bit(b, k) {
      SameBits(b, BitRange(0, n));
    }
  }

  // Comparing whole bytes decides whether every byte of the message is marked.
  lemma CompleteIffAllMarked(mask: seq<bv8>, len: nat)
    requires MaskOk(mask, len)
    ensures LooksComplete(mask, len) <==> AllMarked(mask, len)
  {
    forall j | 0 <= j < len / 8
      ensures mask[j] == 0xff <==> forall i: nat :: 8 * j <= i < 8 * j + 8 ==> Marked(mask, i)
    {
      ByteOfMask(mask, j, 8);
      WholeByte(mask[j]);
    }
    if len % 8 != 0 {
      var j := len / 8;
      ByteOfMask(mask, j, len % 8);
      forall k: nat | len % 8 <= k < 8 ensures !Bit(mask[j], k) {
        assert !Marked(mask, 8 * j + k);
      }
      LastByte(mask[j], len % 8);
    }
    if LooksComplete(mask, len) {
      forall i: nat | i < len ensures Marked(mask, i) {
        assert i / 8 < len / 8 || i / 8 == len / 8;
      }
    }
  }

  lemma ByteOfMask(mask: seq<bv8>, j: nat, n: nat)
    requires j < |mask| && n <= 8
    ensures (forall k: nat :: k < n ==> Bit(mask[j], k)) <==> (forall i: nat :: 8 * j <= i < 8 * j + n ==> Marked(mask, i))
  {
    if forall i: nat :: 8 * j <= i < 8 * j + n ==> Marked(mask, i) {
      forall k: nat | k < n ensures Bit(mask[j], k) {
        assert Marked(mask, 8 * j + k);
      }
    }
  }

  // ------------------------------------------------------------------
  // hm_fragment

  // The positions received: all of them once the bitmask is gone.
  ghost function HeldBy(mask: Option<seq<bv8>>, len: nat): (held: set<nat>)
    requires mask.Some? ==> |mask.value| == (len + 7) / 8
    ensures forall i :: i in held ==> i < len
  {
    set i: nat | i < len && (mask.Some? ==> Marked(mask.value, i))
  }

  // The buffer and bitmask of a fragment stand for message m. The bitmask is
  // dropped as soon as it is full.
  ghost predicate StandsFor(data: seq<byte>, mask: Option<seq<bv8>>, m: Incoming) {
    && m.msgLen < 0x100_0000 && m.msgSeq < MESSAGE_SEQS
    && |data| == HM_HEADER_LENGTH + m.msgLen
    && data[..HM_HEADER_LENGTH] == HeaderBytes(Header(m.typ, m.msgLen, m.msgSeq, 0, m.msgLen))
    && (mask.Some? ==> MaskOk(mask.value, m.msgLen) && !AllMarked(mask.value, m.msgLen))
    && m.body == Select(data[HM_HEADER_LENGTH..], HeldBy(mask, m.msgLen))
  }

  class HmFragment {
    const typ: byte
    const msgSeq: nat
    const msgLen: nat
    const data: array<byte>
    var reassembly: array?<bv8>
    ghost var view: Incoming

    ghost predicate Valid()
      reads this, data, reassembly
    {
      && view.typ == typ && view.msgSeq == msgSeq && view.msgLen == msgLen
      && StandsFor(data[..], Mask(), view)
    }

    // The objects a fragment owns.
    ghost function Repr(): set<object>
      reads this
    {
      {this, data} + if reassembly == null then {} else {reassembly}
    }

    ghost function Mask(): Option<seq<bv8>>
      reads this, reassembly
    {
      if reassembly == null then None else Some(reassembly[..])
    }

    // The bitmask is gone exactly when every position was received, and then
    // the buffer is the message written as a single fragment.
    lemma MaskTellsCompleteness()
      requires Valid()
      ensures reassembly == null <==> view.Complete()
      ensures view.Complete() ==> view.Raw() == data[..]
    {
      CompleteIffNoMask(data[..], Mask(), view);
      if view.Complete() {
        RawIsData(data[..], Mask(), view);
      }
    }

    // dtls1_hm_fragment_new
    constructor (h: Header)
      requires h.Fits()
      ensures Valid() && fresh(Repr())
      ensures view == Incoming(h.typ, h.msgSeq, h.msgLen, map[])
    {
      typ, msgSeq, msgLen := h.typ, h.msgSeq, h.msgLen;
      var header := HeaderBytes(Header(h.typ, h.msgLen, h.msgSeq, 0, h.msgLen));
      var buffer := new byte[HM_HEADER_LENGTH + h.msgLen];
      for i := 0 to HM_HEADER_LENGTH
        invariant buffer[..i] == header[..i]
      {
        buffer[i] := header[i];
      }
      data := buffer;
      var mask: array?<bv8> := null;
      if h.msgLen > 0 {
        mask := new bv8[(h.msgLen + 7) / 8](_ => 0);
        ZeroMask(mask[..], h.msgLen);
      }
      reassembly := mask;
      view := Incoming(h.typ, h.msgSeq, h.msgLen, map[]);
    }

    // The copy of a fragment's body into data and dtls1_hm_fragment_mark.
    method Receive(off: nat, bytes: seq<byte>)
      requires Valid() && reassembly != null && off + |bytes| <= msgLen
      modifies this`reassembly, this`view, data, reassembly
      ensures Valid() && (reassembly == null || reassembly == old(reassembly))
      ensures view == Write(old(view), off, bytes)
    {
      ghost var text, held := data[HM_HEADER_LENGTH..], HeldBy(Some(reassembly[..]), msgLen);
      CopyInto(data, HM_HEADER_LENGTH + off, bytes);
      assert data[HM_HEADER_LENGTH..] == Overwrite(text, off, bytes);
      assert data[..HM_HEADER_LENGTH] == old(data[..HM_HEADER_LENGTH]);
      var complete := Mark(reassembly, msgLen, off, off + |bytes|);
      ghost var after := HeldBy(if complete then None else Some(reassembly[..]), msgLen);
      SelectOverwritten(text, held, after, off, bytes);
      if complete {
        reassembly := null;
      }
      view := Write(view, off, bytes);
    }
  }

  // dtls1_hm_fragment_mark: marks [start, end) in the bitmask and reports
  // whether every byte of the message is marked now.
  method Mark(mask: array<bv8>, msgLen: nat, start: nat, end: nat) returns (complete: bool)
    requires MaskOk(mask[..], msgLen) && !AllMarked(mask[..], msgLen) && start <= end <= msgLen
    modifies mask
    ensures MaskOk(mask[..], msgLen)
    ensures forall i: nat :: i < msgLen ==> (Marked(mask[..], i) <==> old(Marked(mask[..], i)) || start <= i < end)
    ensures complete <==> AllMarked(mask[..], msgLen)
  {
    if start == end {
      return false;
    }
    SetRange(mask, start, end);
    CompleteIffAllMarked(mask[..], msgLen);
    for i := 0 to msgLen / 8
      invariant forall j :: 0 <= j < i ==> mask[j] == 0xff
    {
      if mask[i] != 0xff {
        return false;
      }
    }
    complete := !(msgLen % 8 != 0 && mask[msgLen / 8] != BitRange(0, msgLen % 8));
  }

  // The bytes of text at the given positions.
  function Select(text: seq<byte>, held: set<nat>): map<nat, byte>
    requires forall i :: i in held ==> i < |text|
  {
    map i | i in held :: text[i]
  }

  function Overwrite(text: seq<byte>, off: nat, bytes: seq<byte>): seq<byte>
    requires off + |bytes| <= |text|
  {
    text[..off] + bytes + text[off + |bytes|..]
  }

  lemma SelectOverwritten(text: seq<byte>, held: set<nat>, after: set<nat>, off: nat, bytes: seq<byte>)
    requires off + |bytes| <= |text|
    requires (forall i :: i in held ==> i < |text|) && (forall i :: i in after ==> i < |text|)
    requires forall i :: i in after <==> i in held || off <= i < off + |bytes|
    ensures Select(Overwrite(text, off, bytes), after) == Placed(Select(text, held), off, bytes)
  {
    var left, right := Select(Overwrite(text, off, bytes), after), Placed(Select(text, held), off, bytes);
    forall i | i in after ensures i in right && left[i] == right[i] {
      assert off <= i < off + |bytes| ==> right[i] == ByteAt(bytes, off, i);
    }
    assert left.Keys == right.Keys;
    assert left == right;
  }

  // OPENSSL_memcpy(data + start, bytes, |bytes|)
  method CopyInto(data: array<byte>, start: nat, bytes: seq<byte>)
    requires start + |bytes| <= data.Length
    modifies data
    ensures data[..] == Overwrite(old(data[..]), start, bytes)
  {
    for i := 0 to |bytes|
      invariant data[..] == Overwrite(old(data[..]), start, bytes[..i])
    {
      ghost var before := data[..];
      data[start + i] := bytes[i];
      OneMoreByte(old(data[..]), start, bytes, i);
      assert data[..] == before[start + i := bytes[i]];
    }
  }

  lemma OneMoreByte(s: seq<byte>, start: nat, bytes: seq<byte>, i: nat)
    requires start + |bytes| <= |s| && i < |bytes|
    ensures Overwrite(s, start, bytes[..i + 1]) == Overwrite(s, start, bytes[..i])[start + i := bytes[i]]
  {}

  lemma RawIsData(data: seq<byte>, mask: Option<seq<bv8>>, m: Incoming)
    requires StandsFor(data, mask, m) && m.Complete()
    ensures m.Raw() == data
  {
    assert m.Raw()[HM_HEADER_LENGTH..] == data[HM_HEADER_LENGTH..];
  }

  lemma CompleteIffNoMask(data: seq<byte>, mask: Option<seq<bv8>>, m: Incoming)
    requires StandsFor(data, mask, m)
    ensures mask.None? <==> m.Complete()
  {
    if mask.Some? {
      var i: nat :| i < m.msgLen && !Marked(mask.value, i);
      assert i !in HeldBy(mask, m.msgLen);
      assert i !in m.body;
    } else {
      forall i: nat | i < m.msgLen ensures i in m.body {
        assert i in HeldBy(mask, m.msgLen);
      }
      assert m.Complete();
    }
  }

  lemma ZeroMask(mask: seq<bv8>, len: nat)
    requires |mask| == (len + 7) / 8 && len > 0 && forall j :: 0 <= j < |mask| ==> mask[j] == 0
    ensures MaskOk(mask, len) && forall i: nat :: i < len ==> !Marked(mask, i)
    ensures !AllMarked(mask, len)
  {
    forall i: nat | i < 8 * |mask| ensures !Marked(mask, i) {
      FullBits(i % 8);
    }
    assert !Marked(mask, 0);
  }

  // What is marked after the bits of [start, end) were added to mask.
  ghost predicate Extends(mask: seq<bv8>, before: seq<bv8>, start: nat, end: nat) {
    && |mask| == |before|
    && forall i: nat :: i < 8 * |mask| ==> (Marked(mask, i) <==> Marked(before, i) || start <= i < end)
  }

  lemma OrByteAt(mask: seq<bv8>, j: nat, lo: nat, hi: nat, i: nat)
    requires j < |mask| && lo <= 8 && hi <= 8 && i < 8 * |mask|
    ensures Marked(mask[j := mask[j] | BitRange(lo, hi)], i) <==> Marked(mask, i) || 8 * j + lo <= i < 8 * j + hi
  {
    if i / 8 == j {
      OrBit(mask[j], BitRange(lo, hi), i % 8);
      BitRangeBits(lo, hi, i % 8);
    }
  }

  lemma OrByteExtends(mask: seq<bv8>, before: seq<bv8>, from: nat, j: nat, lo: nat, hi: nat)
    requires j < |mask| && lo <= hi <= 8 && from <= 8 * j + lo
    requires Extends(mask, before, from, 8 * j + lo)
    ensures Extends(mask[j := mask[j] | BitRange(lo, hi)], before, from, 8 * j + hi)
  {
    forall i: nat | i < 8 * |mask|
      ensures Marked(mask[j := mask[j] | BitRange(lo, hi)], i) <==> Marked(before, i) || from <= i < 8 * j + hi
    {
      OrByteAt(mask, j, lo, hi, i);
    }
  }

  lemma FillByteExtends(mask: seq<bv8>, before: seq<bv8>, from: nat, j: nat)
    requires from <= 8 * j && j < |mask|
    requires Extends(mask, before, from, 8 * j)
    ensures Extends(mask[j := 0xff], before, from, 8 * j + 8)
  {
    forall i: nat | i < 8 * |mask|
      ensures Marked(mask[j := 0xff], i) <==> Marked(before, i) || from <= i < 8 * j + 8
    {
      FullBits(i % 8);
      assert Marked(mask, i) <==> Marked(before, i) || from <= i < 8 * j;
    }
  }

  // mask[j] |= bit_range(lo, hi)
  method OrByte(mask: array<bv8>, j: nat, lo: nat, hi: nat, ghost before: seq<bv8>, ghost from: nat)
    requires j < mask.Length && lo <= hi <= 8 && from <= 8 * j + lo
    requires Extends(mask[..], before, from, 8 * j + lo)
    modifies mask
    ensures Extends(mask[..], before, from, 8 * j + hi)
  {
    OrByteExtends(mask[..], before, from, j, lo, hi);
    ghost var after := mask[..][j := mask[j] | BitRange(lo, hi)];
    mask[j] := mask[j] | BitRange(lo, hi);
    assert mask[..] == after;
  }

  // The three steps that set the bits of [start, end) in place.
  method SetRange(mask: array<bv8>, start: nat, end: nat)
    requires start < end <= 8 * mask.Length
    modifies mask
    ensures Extends(mask[..], old(mask[..]), start, end)
  {
    ghost var before := mask[..];
    var first, last := start / 8, end / 8;
    if first == last {
      OrByte(mask, first, start % 8, end % 8, before, start);
    } else {
      OrByte(mask, first, start % 8, 8, before, start);
      for i := first + 1 to last
        invariant Extends(mask[..], before, start, 8 * i)
      {
        FillByteExtends(mask[..], before, start, i);
        ghost var after := mask[..][i := 0xff];
        mask[i] := 0xff;
        assert mask[..] == after;
      }
      if end % 8 != 0 {
        OrByte(mask, last, 0, end % 8, before, start);
      }
    }
  }
}
