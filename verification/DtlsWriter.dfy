// The sending side of a DTLS connection: one flight of handshake messages,
// cut into records of at most one MTU with a cursor that can be rolled back.

module DtlsWriter {
  import opened Bytes
  import opened DtlsFragment
  import opened DtlsRecord

  const CCS_BODY: seq<byte> := [1]

  // DTLS_OUTGOING_MESSAGE
  datatype Outgoing = Outgoing(data: seq<byte>, epoch: nat, isCcs: bool)

  // What sealing needs of one epoch: its number, the next record sequence
  // number and the write context.
  datatype Half = Half(epoch: nat, sequence: nat, aead: Aead)

  // w_epoch with its keys, and those of the epoch before it.
  datatype Keys = Keys(current: Half, last: Half)

  // outgoing_written and outgoing_offset
  datatype Position = Position(written: nat, offset: nat)

  const BEGINNING := Position(0, 0)

  datatype Writer = Writer(keys: Keys, messageSeq: nat, flight: seq<Outgoing>, at: Position, complete: bool)

  // ------------------------------------------------------------------
  // Collecting a flight

  // dtls1_init_message and dtls1_finish_message: the body is written behind
  // its fragment length, which is then copied over the message length.
  function BuildMessage(messageSeq: nat, typ: byte, body: seq<byte>): (r: Option<seq<byte>>)
    requires messageSeq < MESSAGE_SEQS
  {
    if |body| >= 0x100_0000 then None
    else
      var out := [typ] + U24(0) + U16(messageSeq) + U24(0) + U24(|body|) + body;
      Some(out[..1] + out[9..12] + out[4..])
  }

  // A whole message as the single fragment the transcript hashes.
  function RawMessage(messageSeq: nat, typ: byte, body: seq<byte>): seq<byte>
    requires messageSeq < MESSAGE_SEQS && |body| < 0x100_0000
  {
    FragmentBytes(Header(typ, |body|, messageSeq, 0, |body|), body)
  }

  lemma BuildIsSingleFragment(messageSeq: nat, typ: byte, body: seq<byte>)
    requires messageSeq < MESSAGE_SEQS
    ensures BuildMessage(messageSeq, typ, body)
      == if |body| < 0x100_0000 then Some(RawMessage(messageSeq, typ, body)) else None
  {
    if |body| < 0x100_0000 {
      CopyLength([typ], U24(0), U16(messageSeq), U24(|body|), body);
    }
  }

  // zero stands where the length is missing and where the offset belongs.
  lemma CopyLength(typ: seq<byte>, zero: seq<byte>, number: seq<byte>, length: seq<byte>, body: seq<byte>)
    requires |typ| == 1 && |zero| == |length| == 3 && |number| == 2
    ensures var out := typ + zero + number + zero + length + body;
      out[..1] + out[9..12] + out[4..] == typ + length + number + zero + length + body
  {
    var out := typ + zero + number + zero + length + body;
    assert out[..1] == typ;
    assert out[9..12] == length;
    assert out[4..] == number + zero + length + body;
  }

  datatype Added = Added(ok: bool, to: Writer)

  // add_outgoing
  function AddOutgoing(w: Writer, isCcs: bool, data: seq<byte>): Added {
    var w := if w.complete then w.(flight := [], at := BEGINNING, complete := false) else w;
    if |w.flight| >= MAX_FLIGHT || |data| > 0xffff_ffff then Added(false, w)
    else
      var w := if isCcs then w else w.(messageSeq := (w.messageSeq + 1) % MESSAGE_SEQS);
      Added(true, w.(flight := w.flight + [Outgoing(data, w.keys.current.epoch, isCcs)]))
  }

  // dtls1_set_write_state
  function SetWriteState(k: Keys, aead: Aead): Keys {
    Keys(Half((k.current.epoch + 1) % EPOCHS, 0, aead), k.current)
  }

  // ------------------------------------------------------------------
  // Sealing one record

  // A sealed record before it is laid out as bytes.
  datatype Record = Record(typ: byte, version: nat, epoch: nat, sequence: nat, text: seq<byte>) {
    predicate Fits() {
      version < 0x1_0000 && epoch < EPOCHS && sequence < SEQUENCES && |text| < 0x1_0000
    }

    function Size(): nat {
      RT_HEADER_LENGTH + |text|
    }
  }

  type WireRecord = r: Record | r.Fits() witness Record(0, 0, 0, 0, [])

  predicate HalfOk(h: Half) {
    h.epoch < EPOCHS && h.sequence < SEQUENCES
  }

  predicate KeysOk(k: Keys) {
    HalfOk(k.current) && HalfOk(k.last) && k.current.aead.recordVersion < 0x1_0000
  }

  predicate UsePrevious(k: Keys, msg: Outgoing) {
    k.current.epoch >= 1 && msg.epoch == k.current.epoch - 1
  }

  predicate EpochKnown(k: Keys, msg: Outgoing) {
    UsePrevious(k, msg) || msg.epoch == k.current.epoch
  }

  datatype SealedRecord = SealedRecord(record: Option<WireRecord>, sequence: nat)

  // dtls_seal_record, with the keys of the epoch in use.
  function SealRecord(h: Half, version: nat, typ: byte, plain: seq<byte>, maxOut: nat): (s: SealedRecord)
    requires HalfOk(h) && version < 0x1_0000
    ensures s.sequence < SEQUENCES && s.sequence <= h.sequence + 1
    ensures s.record.Some? ==> s.record.value.Size() <= maxOut && s.sequence == h.sequence + 1
  {
    var text := h.aead.seal(Number(h.epoch, h.sequence), typ, version, plain);
    if RT_HEADER_LENGTH + |text| > maxOut then SealedRecord(None, h.sequence)
    else if h.sequence == SEQUENCES - 1 || |text| >= 0x1_0000 then SealedRecord(None, (h.sequence + 1) % SEQUENCES)
    else SealedRecord(Some(Record(typ, version, h.epoch, h.sequence, text)), h.sequence + 1)
  }

  // ------------------------------------------------------------------
  // Choosing the next piece

  // A message stored as a single fragment, as seal_next_message checks it.
  function WholeMessage(data: seq<byte>): (r: Option<Parsed>)
    ensures r.Some? ==> r.value.hdr.Fits() && |r.value.body| == r.value.hdr.fragLen == r.value.hdr.msgLen
  {
    match ParseFragment(data)
    case None => None
    case Some(p) =>
      if p.hdr.fragOff != 0 || p.hdr.fragLen != |p.body| || p.hdr.msgLen != |p.body| || p.rest != [] then None
      else Some(p)
  }

  datatype Todo =
    | Malformed
    | NoRoom
    | ChangeCipherSpec
    | Piece(hdr: Header, body: seq<byte>)
  {
    predicate Sendable() {
      ChangeCipherSpec? || (Piece? && hdr.Fits() && |body| == hdr.fragLen && hdr.fragOff + hdr.fragLen <= hdr.msgLen)
    }

    // Nothing of the message is left behind this piece.
    predicate Ends() {
      Piece? ==> hdr.fragOff + hdr.fragLen == hdr.msgLen
    }
  }

  function Min(a: nat, b: nat): nat {
    if a < b then a else b
  }

  // What seal_next_message decides to put into the next record.
  function NextPiece(aead: Aead, msg: Outgoing, offset: nat, maxOut: nat): (t: Todo)
    ensures t.Malformed? || t.NoRoom? || t.Sendable()
    ensures t.Piece? ==> t.hdr.fragOff == offset && (t.Ends() || t.hdr.fragLen > 0)
  {
    var overhead := RT_HEADER_LENGTH + aead.maxOverhead;
    var prefix := RT_HEADER_LENGTH + aead.nonceLen;
    if msg.isCcs then
      if maxOut < |CCS_BODY| + overhead then NoRoom else ChangeCipherSpec
    else match WholeMessage(msg.data)
      case None => Malformed
      case Some(p) =>
        if offset > |p.body| then Malformed
        else if maxOut < HM_HEADER_LENGTH + 1 + overhead || maxOut < prefix then NoRoom
        else
          var todo := Min(|p.body| - offset, maxOut - HM_HEADER_LENGTH - overhead);
          if HM_HEADER_LENGTH + todo > maxOut - prefix then Malformed
          else Piece(p.hdr.(fragOff := offset, fragLen := todo), p.body[offset..offset + todo])
  }

  function TypeOf(piece: Todo): byte {
    if piece.ChangeCipherSpec? then RT_CHANGE_CIPHER_SPEC else RT_HANDSHAKE
  }

  function PlainOf(piece: Todo): seq<byte>
    requires piece.Sendable()
  {
    if piece.ChangeCipherSpec? then CCS_BODY else FragmentBytes(piece.hdr, piece.body)
  }

  datatype Sealed =
    | SealError(sequence: nat)
    | SealNoProgress
    | SealProgress(record: WireRecord, piece: Todo, sequence: nat)

  // seal_next_message, given the keys of the message's epoch; its two ways to
  // succeed differ in whether the piece ends the message.
  function SealMessage(h: Half, version: nat, msg: Outgoing, offset: nat, maxOut: nat): (r: Sealed)
    requires HalfOk(h) && version < 0x1_0000
    ensures !r.SealNoProgress? ==> r.sequence < SEQUENCES && r.sequence <= h.sequence + 1
    ensures r.SealProgress? ==> r.record.Size() <= maxOut && r.piece.Sendable()
    ensures r.SealProgress? && r.piece.Piece? ==> r.piece.hdr.fragOff == offset && (r.piece.Ends() || r.piece.hdr.fragLen > 0)
  {
    var piece := NextPiece(h.aead, msg, offset, maxOut);
    if piece.Malformed? then SealError(h.sequence)
    else if piece.NoRoom? then SealNoProgress
    else
      var s := SealRecord(h, version, TypeOf(piece), PlainOf(piece), maxOut);
      if s.record.None? then SealError(s.sequence) else SealProgress(s.record.value, piece, s.sequence)
  }

  function HalfFor(k: Keys, msg: Outgoing): Half {
    if UsePrevious(k, msg) then k.last else k.current
  }

  // The keys after a record for msg was sealed.
  function Used(k: Keys, msg: Outgoing, sequence: nat): Keys {
    if UsePrevious(k, msg) then k.(last := k.last.(sequence := sequence))
    else k.(current := k.current.(sequence := sequence))
  }

  // seal_next_message: messages of the current and the previous epoch only.
  function SealNext(k: Keys, msg: Outgoing, offset: nat, maxOut: nat): (r: Sealed)
    requires KeysOk(k)
    ensures r.SealProgress? ==> r.record.Size() <= maxOut && r.piece.Sendable()
    ensures !r.SealNoProgress? ==> KeysOk(Used(k, msg, r.sequence))
    ensures r.SealProgress? && r.piece.Piece? ==> r.piece.hdr.fragOff == offset && (r.piece.Ends() || r.piece.hdr.fragLen > 0)
  {
    if EpochKnown(k, msg) then SealMessage(HalfFor(k, msg), k.current.aead.recordVersion, msg, offset, maxOut)
    else SealError(HalfFor(k, msg).sequence)
  }

  // The cursor behind a piece that starts at from. seal_next_message leaves the
  // offset alone behind a ChangeCipherSpec, where it is 0 for every cursor at
  // the start of a message or inside one (DtlsFlight.CursorOk).
  function After(from: Position, piece: Todo): Position {
    if piece.Ends() then Position(from.written + 1, 0) else Position(from.written, from.offset + |piece.body|)
  }

  // ------------------------------------------------------------------
  // Packets and flights

  // pieces are what the message callback reports next to the records.
  datatype Packet = Packet(ok: bool, records: seq<WireRecord>, pieces: seq<Todo>, keys: Keys, at: Position)

  // The cursor moved on, by whole messages or within one.
  predicate Later(from: Position, to: Position) {
    to.written > from.written || (to.written == from.written && from.offset < to.offset < 0x100_0000)
  }

  // The loop of seal_next_packet; ok is false after a seal error.
  function SealLoop(k: Keys, flight: seq<Outgoing>, at: Position, maxOut: nat): (p: Packet)
    requires KeysOk(k) && at.written <= |flight|
    ensures KeysOk(p.keys) && p.at.written <= |flight|
    ensures p.records != [] ==> Later(at, p.at)
    decreases |flight| - at.written
  {
    if at.written == |flight| then Packet(true, [], [], k, at)
    else
      var msg := flight[at.written];
      match SealNext(k, msg, at.offset, maxOut)
      case SealError(sequence) => Packet(false, [], [], Used(k, msg, sequence), at)
      case SealNoProgress => Packet(true, [], [], k, at)
      case SealProgress(record, piece, sequence) =>
        if !piece.Ends() then Packet(true, [record], [piece], Used(k, msg, sequence), After(at, piece))
        else Prepend(record, piece, SealLoop(Used(k, msg, sequence), flight, After(at, piece), maxOut - record.Size()))
  }

  function Prepend(record: WireRecord, piece: Todo, rest: Packet): (p: Packet) {
    rest.(records := [record] + rest.records, pieces := [piece] + rest.pieces)
  }

  function Datagram(records: seq<WireRecord>): seq<byte> {
    if records == [] then [] else WireBytes(records[0]) + Datagram(records[1..])
  }

  function WireBytes(r: WireRecord): (s: seq<byte>)
    ensures |s| == r.Size()
  {
    RecordBytes(r.typ, r.version, r.epoch, r.sequence, r.text)
  }

  // seal_next_packet: no progress at all means the MTU is too small.
  function SealPacket(k: Keys, flight: seq<Outgoing>, at: Position, maxOut: nat): (p: Packet)
    requires KeysOk(k) && at.written <= |flight|
  {
    var p := SealLoop(k, flight, at, maxOut);
    p.(ok := p.ok && p.records != [])
  }

  datatype SendResult = FlightDone | BioBlocked | SendFailed

  // packets and pieces are what BIO_write accepted.
  datatype Sent = Sent(result: SendResult, packets: seq<seq<WireRecord>>, pieces: seq<Todo>, keys: Keys, at: Position)

  // The loop of send_flight. bio gives the outcomes of the writes to come;
  // writes beyond it succeed. A refused packet rolls the cursor back, but not
  // the record sequence numbers.
  function SendFlight(k: Keys, flight: seq<Outgoing>, at: Position, mtu: nat, bio: seq<bool>): (s: Sent)
    requires KeysOk(k) && at.written <= |flight|
    ensures KeysOk(s.keys) && s.at.written <= |flight|
    decreases |flight| - at.written, 0x100_0000 - at.offset
  {
    if at.written == |flight| then Sent(FlightDone, [], [], k, at)
    else
      var p := SealPacket(k, flight, at, mtu);
      if !p.ok then Sent(SendFailed, [], [], p.keys, p.at)
      else if bio != [] && !bio[0] then Sent(BioBlocked, [], [], p.keys, at)
      else
        var rest := SendFlight(p.keys, flight, p.at, mtu, if bio == [] then [] else bio[1..]);
        rest.(packets := [p.records] + rest.packets, pieces := p.pieces + rest.pieces)
  }
}
