// Handshake fragments on the wire (section 4.2.2 of RFC 6347) and the ring of
// partially received messages, as values.

module DtlsFragment {
  import opened Bytes

  const HM_HEADER_LENGTH := 12
  const MAX_FLIGHT := 7 // SSL_MAX_HANDSHAKE_FLIGHT
  const MESSAGE_SEQS := 0x1_0000

  // hm_header_st, at the widths the wire gives its fields.
  datatype Header = Header(typ: byte, msgLen: nat, msgSeq: nat, fragOff: nat, fragLen: nat) {
    predicate Fits() {
      msgLen < 0x100_0000 && msgSeq < MESSAGE_SEQS && fragOff < 0x100_0000 && fragLen < 0x100_0000
    }
  }

  function HeaderBytes(h: Header): (s: seq<byte>)
    requires h.Fits()
    ensures |s| == HM_HEADER_LENGTH
  {
    [h.typ] + U24(h.msgLen) + U16(h.msgSeq) + U24(h.fragOff) + U24(h.fragLen)
  }

  function FragmentBytes(h: Header, body: seq<byte>): seq<byte>
    requires h.Fits()
  {
    HeaderBytes(h) + body
  }

  function ReadHeader(s: seq<byte>): (h: Header)
    requires |s| == HM_HEADER_LENGTH
    ensures h.Fits()
  {
    BigEndianBound(s[1..4], Power256(3));
    BigEndianBound(s[4..6], Power256(2));
    BigEndianBound(s[6..9], Power256(3));
    BigEndianBound(s[9..12], Power256(3));
    assert Power256(2) == 0x1_0000 && Power256(3) == 0x100_0000;
    Header(s[0], BigEndian(s[1..4]), BigEndian(s[4..6]), BigEndian(s[6..9]), BigEndian(s[9..12]))
  }

  datatype Parsed = Parsed(hdr: Header, body: seq<byte>, rest: seq<byte>)

  // dtls1_parse_fragment
  function ParseFragment(s: seq<byte>): (r: Option<Parsed>)
    ensures r.Some? ==> |r.value.body| == r.value.hdr.fragLen && r.value.hdr.Fits() && |r.value.rest| < |s|
  {
    if |s| < HM_HEADER_LENGTH then None
    else
      var h := ReadHeader(s[..HM_HEADER_LENGTH]);
      var tail := s[HM_HEADER_LENGTH..];
      if |tail| < h.fragLen then None else Some(Parsed(h, tail[..h.fragLen], tail[h.fragLen..]))
  }

  lemma HeaderParts(typ: seq<byte>, len: seq<byte>, number: seq<byte>, off: seq<byte>, part: seq<byte>)
    requires |typ| == 1 && |len| == |off| == |part| == 3 && |number| == 2
    ensures var s := typ + len + number + off + part;
      && s[0] == typ[0] && s[1..4] == len && s[4..6] == number && s[6..9] == off && s[9..12] == part
  {
    var s := typ + len + number + off + part;
    assert s[9..12] == part;
    assert s[6..9] == off;
    assert s[4..6] == number;
    assert s[1..4] == len;
  }

  lemma HeaderRoundTrip(h: Header)
    requires h.Fits()
    ensures ReadHeader(HeaderBytes(h)) == h
  {
    HeaderParts([h.typ], U24(h.msgLen), U16(h.msgSeq), U24(h.fragOff), U24(h.fragLen));
    U24RoundTrip(h.msgLen);
    U16RoundTrip(h.msgSeq);
    U24RoundTrip(h.fragOff);
    U24RoundTrip(h.fragLen);
  }

  // Parsing undoes writing, whatever follows the fragment.
  lemma ParseInvertsWrite(h: Header, body: seq<byte>, rest: seq<byte>)
    requires h.Fits() && |body| == h.fragLen
    ensures ParseFragment(FragmentBytes(h, body) + rest) == Some(Parsed(h, body, rest))
  {
    var s := FragmentBytes(h, body) + rest;
    assert s[..HM_HEADER_LENGTH] == HeaderBytes(h);
    assert s[HM_HEADER_LENGTH..] == body + rest;
    HeaderRoundTrip(h);
  }

  // ------------------------------------------------------------------
  // One incoming message: the bytes received so far, by position.

  datatype Incoming = Incoming(typ: byte, msgSeq: nat, msgLen: nat, body: map<nat, byte>) {
    predicate Complete() {
      forall i: nat :: i < msgLen ==> i in body
    }

    // data, header included: the message as a single fragment.
    function Raw(): seq<byte>
      requires Complete() && msgLen < 0x100_0000 && msgSeq < MESSAGE_SEQS
    {
      FragmentBytes(Header(typ, msgLen, msgSeq, 0, msgLen), seq(msgLen, i requires 0 <= i < msgLen => body[i]))
    }
  }

  // The byte that bytes, placed at off, puts at position i.
  function ByteAt(bytes: seq<byte>, off: nat, i: nat): byte
    requires off <= i < off + |bytes|
  {
    bytes[i - off]
  }

  function Placed(body: map<nat, byte>, off: nat, bytes: seq<byte>): map<nat, byte> {
    body + map i: nat | off <= i < off + |bytes| :: ByteAt(bytes, off, i)
  }

  function Write(m: Incoming, off: nat, bytes: seq<byte>): Incoming {
    m.(body := Placed(m.body, off, bytes))
  }

  // ------------------------------------------------------------------
  // handshake_read_seq and the ring of incoming messages

  datatype Receiver = Receiver(readSeq: nat, slots: seq<Option<Incoming>>) {
    predicate CurrentComplete()
      requires |slots| == MAX_FLIGHT
    {
      var slot := slots[readSeq % MAX_FLIGHT];
      slot.Some? && slot.value.Complete()
    }
  }

  const NO_MESSAGES: seq<Option<Incoming>> := [None, None, None, None, None, None, None]

  // Slot i holds a message of the window [readSeq, readSeq + 7) whose number
  // is i modulo 7, and whose received positions are within its length.
  ghost predicate SlotOk(readSeq: nat, i: nat, slot: Option<Incoming>) {
    slot.Some? ==>
      && slot.value.msgSeq % MAX_FLIGHT == i
      && readSeq <= slot.value.msgSeq < readSeq + MAX_FLIGHT
      && slot.value.msgSeq < MESSAGE_SEQS
      && slot.value.msgLen < 0x100_0000
      && forall k :: k in slot.value.body ==> k < slot.value.msgLen
  }

  ghost predicate RingOk(r: Receiver) {
    && |r.slots| == MAX_FLIGHT
    && r.readSeq < MESSAGE_SEQS
    && forall i: nat :: i < MAX_FLIGHT ==> SlotOk(r.readSeq, i, r.slots[i])
  }

  // dtls1_get_incoming_message
  function GetIncoming(r: Receiver, h: Header): (m: Option<Incoming>)
    requires |r.slots| == MAX_FLIGHT
  {
    if h.msgSeq < r.readSeq || h.msgSeq - r.readSeq >= MAX_FLIGHT then None
    else match r.slots[h.msgSeq % MAX_FLIGHT]
      case None => Some(Incoming(h.typ, h.msgSeq, h.msgLen, map[]))
      case Some(m) => if m.typ != h.typ || m.msgLen != h.msgLen then None else Some(m)
  }

  // The ring with message m in its slot.
  function Put(r: Receiver, m: Incoming): (p: Receiver)
    requires |r.slots| == MAX_FLIGHT
    ensures |p.slots| == MAX_FLIGHT
  {
    r.(slots := r.slots[m.msgSeq % MAX_FLIGHT := Some(m)])
  }

  datatype Received = Received(ok: bool, to: Receiver)

  // One turn of the loop of dtls1_open_handshake.
  function ProcessFragment(r: Receiver, epoch: nat, maxLen: nat, h: Header, body: seq<byte>): Received
    requires |r.slots| == MAX_FLIGHT && |body| == h.fragLen
  {
    if h.fragOff > h.msgLen || h.fragOff + h.fragLen > h.msgLen || h.msgLen > maxLen then Received(false, r)
    else if epoch == 1 && h.msgSeq != r.readSeq then Received(false, r)
    else if h.msgSeq < r.readSeq || h.msgSeq > r.readSeq + MAX_FLIGHT then Received(true, r)
    else match GetIncoming(r, h)
      case None => Received(false, r)
      case Some(m) =>
        Received(true, Put(r, if m.Complete() then m else Write(m, h.fragOff, body)))
  }

  // All fragments of one handshake record.
  function ProcessRecord(r: Receiver, epoch: nat, maxLen: nat, record: seq<byte>): Received
    requires |r.slots| == MAX_FLIGHT
    decreases |record|
  {
    if record == [] then Received(true, r)
    else match ParseFragment(record)
      case None => Received(false, r)
      case Some(p) =>
        var next := ProcessFragment(r, epoch, maxLen, p.hdr, p.body);
        if next.ok then ProcessRecord(next.to, epoch, maxLen, p.rest) else next
  }

  // dtls1_next_message
  function NextMessage(r: Receiver): Receiver
    requires |r.slots| == MAX_FLIGHT
  {
    Receiver((r.readSeq + 1) % MESSAGE_SEQS, r.slots[r.readSeq % MAX_FLIGHT := None])
  }

  // ------------------------------------------------------------------
  // The ring invariant

  // The slot a fragment is looked up in never holds another message: the
  // assertion of dtls1_get_incoming_message cannot fail.
  lemma LookupFindsItsOwn(r: Receiver, h: Header)
    requires RingOk(r) && r.readSeq <= h.msgSeq < r.readSeq + MAX_FLIGHT
    ensures var slot := r.slots[h.msgSeq % MAX_FLIGHT]; slot.Some? ==> slot.value.msgSeq == h.msgSeq
  {
    var slot := r.slots[h.msgSeq % MAX_FLIGHT];
    if slot.Some? {
      SameResidue(slot.value.msgSeq, h.msgSeq);
    }
  }

  lemma SameResidue(a: nat, b: nat)
    requires a % MAX_FLIGHT == b % MAX_FLIGHT && a < b + MAX_FLIGHT && b < a + MAX_FLIGHT
    ensures a == b
  {
    assert a == a / 7 * 7 + a % 7 && b == b / 7 * 7 + b % 7;
  }

  lemma LookupKeepsRing(r: Receiver, h: Header)
    requires RingOk(r) && h.Fits() && GetIncoming(r, h).Some?
    ensures var m := GetIncoming(r, h).value;
      m.msgSeq == h.msgSeq && m.msgLen == h.msgLen && RingOk(Put(r, m))
  {
    LookupFindsItsOwn(r, h);
  }

  lemma ProcessFragmentKeepsRing(r: Receiver, epoch: nat, maxLen: nat, h: Header, body: seq<byte>)
    requires RingOk(r) && h.Fits() && |body| == h.fragLen
    ensures RingOk(ProcessFragment(r, epoch, maxLen, h, body).to)
  {
    if GetIncoming(r, h).Some? {
      LookupKeepsRing(r, h);
    }
  }

  lemma {:induction false} ProcessRecordKeepsRing(r: Receiver, epoch: nat, maxLen: nat, record: seq<byte>)
    requires RingOk(r)
    ensures RingOk(ProcessRecord(r, epoch, maxLen, record).to)
    decreases |record|
  {
    if record != [] && ParseFragment(record).Some? {
      var p := ParseFragment(record).value;
      ProcessFragmentKeepsRing(r, epoch, maxLen, p.hdr, p.body);
      ProcessRecordKeepsRing(ProcessFragment(r, epoch, maxLen, p.hdr, p.body).to, epoch, maxLen, p.rest);
    }
  }

  // Also across the wrap of the 16-bit counter: no number exceeds 65535, so
  // the ring is empty once message 65535 has been taken out.
  lemma NextMessageKeepsRing(r: Receiver)
    requires RingOk(r) && r.slots[r.readSeq % MAX_FLIGHT].Some?
    ensures RingOk(NextMessage(r))
    ensures r.readSeq == MESSAGE_SEQS - 1 ==> NextMessage(r) == Receiver(0, NO_MESSAGES)
  {
    forall i: nat | i < MAX_FLIGHT && i != r.readSeq % MAX_FLIGHT && r.slots[i].Some?
      ensures r.slots[i].value.msgSeq != r.readSeq
    {}
    if r.readSeq == MESSAGE_SEQS - 1 {
      assert NextMessage(r).slots == NO_MESSAGES;
    }
  }

  // The fragments that are errors, of any peer: those that do not fit their
  // message, of messages too long, in epoch 1 of any but the next message, and
  // within the reach of the first window check those beyond the second, or
  // that differ in type or length from those received before.
  lemma FragmentErrorsExactly(r: Receiver, epoch: nat, maxLen: nat, h: Header, body: seq<byte>)
    requires RingOk(r) && |body| == h.fragLen
    ensures !ProcessFragment(r, epoch, maxLen, h, body).ok <==>
      || h.fragOff + h.fragLen > h.msgLen || h.msgLen > maxLen || (epoch == 1 && h.msgSeq != r.readSeq)
      || h.msgSeq == r.readSeq + 7
      || (r.readSeq <= h.msgSeq < r.readSeq + 7 &&
          exists i :: 0 <= i < 7 && r.slots[i].Some? && r.slots[i].value.msgSeq == h.msgSeq
            && (r.slots[i].value.typ != h.typ || r.slots[i].value.msgLen != h.msgLen))
  {
    if r.readSeq <= h.msgSeq < r.readSeq + MAX_FLIGHT {
      LookupFindsItsOwn(r, h);
    }
  }

  // A completed message is not written again until it is taken out.
  lemma CompleteIsFrozen(r: Receiver, epoch: nat, maxLen: nat, h: Header, body: seq<byte>, i: nat)
    requires RingOk(r) && |body| == h.fragLen && i < MAX_FLIGHT
    requires r.slots[i].Some? && r.slots[i].value.Complete()
    ensures ProcessFragment(r, epoch, maxLen, h, body).to.slots[i] == r.slots[i]
  {
    if GetIncoming(r, h).Some? {
      LookupFindsItsOwn(r, h);
    }
  }
}
