// A sender and a receiver joined by a network that loses, repeats, delays and
// reorders datagrams, and brings others that no key authenticates (sections
// 4.2.3, 4.2.4 and 4.2.6 of RFC 6347).

module DtlsEndToEnd {
  import opened Bytes
  import opened DtlsFragment
  import opened DtlsRecord
  import opened DtlsWriter
  import opened DtlsFlight
  import DtlsReader

  // A handshake message as the state machine hands it to dtls1_add_message.
  datatype Handshake = Handshake(typ: byte, body: seq<byte>)

  // The traffic keys of both ends, by epoch.
  type Schedule = nat -> Aead

  ghost predicate Sound(keys: Schedule) {
    forall e: nat :: keys(e).Correct()
  }

  // network holds every datagram that was ever put on the wire; buffer is what
  // is left of the datagram the receiver works on.
  datatype World = World(
    writer: Writer, sent: seq<Handshake>, network: set<seq<byte>>,
    reader: DtlsReader.State, buffer: seq<byte>, delivered: seq<DtlsReader.Message>)

  datatype Event =
    | AddMessage(typ: byte, body: seq<byte>)
    | AddChangeCipherSpec
    | ChangeWriteKeys
    | Flush(mtu: nat, bio: seq<bool>)
    | Retransmit(mtu: nat, bio: seq<bool>)
    | Arrive(datagram: seq<byte>)
    | Inject(bytes: seq<byte>)
    | OpenHandshake(maxLen: nat)
    | OpenChangeCipherSpec(maxLen: nat)
    | GetMessage
    | NextMessage
    | ChangeReadKeys

  function Initial(keys: Schedule): World {
    World(
      Writer(Keys(Half(0, 0, keys(0)), Half(0, 0, keys(0))), 0, [], BEGINNING, false), [], {},
      DtlsReader.Initial(keys(0)), [], [])
  }

  // What a call of send_flight leaves behind.
  ghost function Transmit(w: World, from: Position, complete: bool, mtu: nat, bio: seq<bool>): World
    requires WriterOk(w.writer) && from.written <= |w.writer.flight|
  {
    var s := SendFlight(w.writer.keys, w.writer.flight, from, mtu, bio);
    w.(writer := w.writer.(keys := s.keys, at := s.at, complete := complete),
       network := w.network + set p | p in s.packets :: Datagram(p))
  }

  ghost predicate WriterOk(w: Writer) {
    KeysOk(w.keys) && w.messageSeq < MESSAGE_SEQS && w.at.written <= |w.flight|
  }

  ghost predicate WorldOk(w: World) {
    WriterOk(w.writer) && RingOk(w.reader.receiver)
  }

  ghost function Opened(w: World, o: DtlsReader.Opening): World {
    w.(reader := o.to, buffer := o.rest)
  }

  // One event. An event that is not possible in w leaves w as it is. A failed
  // call does not end the run, for the program may call again.
  ghost function Step(keys: Schedule, w: World, e: Event): World
    requires WorldOk(w)
  {
    match e
    case AddMessage(typ, body) =>
      var raw := BuildMessage(w.writer.messageSeq, typ, body);
      if raw.None? then w
      else
        var added := AddOutgoing(w.writer, false, raw.value);
        w.(writer := added.to, sent := if added.ok then w.sent + [Handshake(typ, body)] else w.sent)
    case AddChangeCipherSpec => w.(writer := AddOutgoing(w.writer, true, []).to)
    case ChangeWriteKeys =>
      var epoch := w.writer.keys.current.epoch + 1;
      if epoch == EPOCHS then w
      else w.(writer := w.writer.(keys := SetWriteState(w.writer.keys, keys(epoch))))
    case Flush(mtu, bio) => Transmit(w, w.writer.at, true, mtu, bio)
    case Retransmit(mtu, bio) => Transmit(w, BEGINNING, w.writer.complete, mtu, bio)
    case Arrive(datagram) => if datagram in w.network then w.(buffer := datagram) else w
    case Inject(bytes) => if Authentic(keys, w.sent, bytes) then w.(buffer := bytes) else w
    case OpenHandshake(maxLen) => Opened(w, DtlsReader.OpenHandshake(w.reader, maxLen, w.buffer))
    case OpenChangeCipherSpec(maxLen) => Opened(w, DtlsReader.OpenChangeCipherSpec(w.reader, maxLen, w.buffer))
    case GetMessage =>
      var m := DtlsReader.GetMessage(w.reader);
      if m.None? then w
      else w.(reader := w.reader.(hasMessage := true),
              delivered := if w.reader.hasMessage then w.delivered else w.delivered + [m.value])
    case NextMessage =>
      if w.reader.hasMessage && w.reader.receiver.CurrentComplete()
      then w.(reader := DtlsReader.TakeMessage(w.reader)) else w
    case ChangeReadKeys =>
      var epoch := w.reader.layer.epoch + 1;
      if epoch == EPOCHS then w
      else match DtlsReader.SetReadState(w.reader, keys(epoch))
        case None => w
        case Some(reader) => w.(reader := reader)
  }

  // ------------------------------------------------------------------
  // What is genuine

  // A fragment of one of the messages sent.
  ghost predicate GenuineFragment(sent: seq<Handshake>, h: Header, body: seq<byte>) {
    && h.Fits() && |body| == h.fragLen && h.msgSeq < |sent|
    && h.typ == sent[h.msgSeq].typ && h.msgLen == |sent[h.msgSeq].body|
    && h.fragOff + h.fragLen <= h.msgLen
    && body == sent[h.msgSeq].body[h.fragOff..h.fragOff + h.fragLen]
  }

  ghost predicate GenuinePlain(sent: seq<Handshake>, typ: byte, plain: seq<byte>) {
    || (typ == RT_CHANGE_CIPHER_SPEC && plain == CCS_BODY)
    || (typ == RT_HANDSHAKE
        && exists h: Header, body: seq<byte> :: GenuineFragment(sent, h, body) && plain == FragmentBytes(h, body))
  }

  ghost predicate GenuineRecord(keys: Schedule, sent: seq<Handshake>, r: WireRecord) {
    exists plain: seq<byte> ::
      && GenuinePlain(sent, r.typ, plain)
      && r.text == keys(r.epoch).seal(Number(r.epoch, r.sequence), r.typ, r.version, plain)
  }

  ghost predicate GenuineRecords(keys: Schedule, sent: seq<Handshake>, rs: seq<WireRecord>) {
    forall r :: r in rs ==> GenuineRecord(keys, sent, r)
  }

  ghost predicate GenuineBytes(keys: Schedule, sent: seq<Handshake>, s: seq<byte>) {
    exists rs: seq<WireRecord> :: Datagram(rs) == s && GenuineRecords(keys, sent, rs)
  }

  // Whatever of these bytes opens under the key of its epoch is genuine: all
  // that the AEAD promises of bytes from anywhere.
  ghost predicate Authentic(keys: Schedule, sent: seq<Handshake>, s: seq<byte>)
    decreases |s|
  {
    ParseRecord(s).Some? ==>
      var raw := ParseRecord(s).value;
      var plain := keys(EpochOf(raw.sequence)).open(BigEndian(raw.sequence), raw.typ, raw.version, raw.body);
      (plain.Some? ==> GenuinePlain(sent, raw.typ, plain.value)) && Authentic(keys, sent, raw.rest)
  }

  // An outgoing message is one of those sent, in its single-fragment form.
  ghost predicate Queued(sent: seq<Handshake>, m: Outgoing) {
    m.isCcs ||
    (&& IsMessage(m)
     && var p := WholeMessage(m.data).value;
        p.hdr.msgSeq < |sent| && p.hdr.typ == sent[p.hdr.msgSeq].typ && p.body == sent[p.hdr.msgSeq].body)
  }

  ghost predicate QueuedAll(sent: seq<Handshake>, flight: seq<Outgoing>) {
    forall m :: m in flight ==> Queued(sent, m)
  }

  ghost predicate OnSchedule(keys: Schedule, k: Keys) {
    && KeysOk(k) && k.current.aead == keys(k.current.epoch)
    && (k.current.epoch >= 1 ==> k.last.epoch == k.current.epoch - 1 && k.last.aead == keys(k.last.epoch))
  }

  ghost predicate GenuineSlot(sent: seq<Handshake>, slot: Option<Incoming>) {
    slot.Some? ==>
      var m := slot.value;
      && m.msgSeq < |sent| && m.typ == sent[m.msgSeq].typ && m.msgLen == |sent[m.msgSeq].body|
      && forall k :: k in m.body ==> k < m.msgLen && m.body[k] == sent[m.msgSeq].body[k]
  }

  ghost predicate GenuineRing(sent: seq<Handshake>, r: Receiver) {
    RingOk(r) && forall i: nat :: i < MAX_FLIGHT ==> GenuineSlot(sent, r.slots[i])
  }

  // The message the receiver should see for the i-th one sent.
  function Expected(sent: seq<Handshake>, i: nat): DtlsReader.Message
    requires i < |sent| && |sent[i].body| < 0x100_0000
  {
    DtlsReader.Message(sent[i].typ, RawMessage(i % MESSAGE_SEQS, sent[i].typ, sent[i].body))
  }

  ghost predicate Sendable(sent: seq<Handshake>) {
    forall h :: h in sent ==> |h.body| < 0x100_0000
  }

  ghost predicate DeliveredPrefix(sent: seq<Handshake>, delivered: seq<DtlsReader.Message>) {
    && Sendable(sent) && |delivered| <= |sent|
    && forall i: nat :: i < |delivered| ==> delivered[i] == Expected(sent, i)
  }

  ghost predicate SenderInv(keys: Schedule, w: World) {
    && OnSchedule(keys, w.writer.keys) && WriterOk(w.writer)
    && |w.sent| < MESSAGE_SEQS && w.writer.messageSeq == |w.sent|
    && QueuedAll(w.sent, w.writer.flight)
    && forall d :: d in w.network ==> GenuineBytes(keys, w.sent, d)
  }

  ghost predicate ReceiverInv(keys: Schedule, w: World) {
    && w.reader.layer.epoch < EPOCHS && w.reader.layer.aead == keys(w.reader.layer.epoch)
    && GenuineRing(w.sent, w.reader.receiver) && Authentic(keys, w.sent, w.buffer)
    && |w.delivered| == w.reader.receiver.readSeq + (if w.reader.hasMessage then 1 else 0)
    && DeliveredPrefix(w.sent, w.delivered)
    && (w.reader.hasMessage ==> w.reader.receiver.CurrentComplete())
  }

  ghost predicate Inv(keys: Schedule, w: World) {
    SenderInv(keys, w) && ReceiverInv(keys, w)
  }

  // ------------------------------------------------------------------
  // The sender puts only genuine records on the wire

  lemma PieceIsGenuine(sent: seq<Handshake>, aead: Aead, m: Outgoing, offset: nat, maxOut: nat)
    requires Queued(sent, m)
    ensures var piece := NextPiece(aead, m, offset, maxOut);
      piece.Sendable() ==> GenuinePlain(sent, TypeOf(piece), PlainOf(piece))
  {
    var piece := NextPiece(aead, m, offset, maxOut);
    if piece.Piece? {
      assert GenuineFragment(sent, piece.hdr, piece.body);
    }
  }

  lemma RecordIsGenuine(keys: Schedule, sent: seq<Handshake>, k: Keys, m: Outgoing, offset: nat, maxOut: nat)
    requires OnSchedule(keys, k) && Queued(sent, m)
    ensures var r := SealNext(k, m, offset, maxOut);
      && (r.SealProgress? ==> GenuineRecord(keys, sent, r.record))
      && (!r.SealNoProgress? ==> OnSchedule(keys, Used(k, m, r.sequence)))
  {
    PieceIsGenuine(sent, HalfFor(k, m).aead, m, offset, maxOut);
  }

  lemma {:induction false} PacketIsGenuine(keys: Schedule, sent: seq<Handshake>, k: Keys, flight: seq<Outgoing>,
                                           at: Position, maxOut: nat)
    requires OnSchedule(keys, k) && QueuedAll(sent, flight) && at.written <= |flight|
    ensures var p := SealLoop(k, flight, at, maxOut);
      OnSchedule(keys, p.keys) && GenuineRecords(keys, sent, p.records)
    decreases |flight| - at.written
  {
    hide SealNext, GenuineRecord, Queued;
    if at.written < |flight| {
      var m := flight[at.written];
      RecordIsGenuine(keys, sent, k, m, at.offset, maxOut);
      var r := SealNext(k, m, at.offset, maxOut);
      if r.SealProgress? && r.piece.Ends() {
        PacketIsGenuine(keys, sent, Used(k, m, r.sequence), flight, After(at, r.piece), maxOut - r.record.Size());
      }
    }
  }

  lemma {:induction false} FlightIsGenuine(keys: Schedule, sent: seq<Handshake>, k: Keys, flight: seq<Outgoing>,
                                           at: Position,
                                           mtu: nat, bio: seq<bool>)
    requires OnSchedule(keys, k) && QueuedAll(sent, flight) && at.written <= |flight|
    ensures var s := SendFlight(k, flight, at, mtu, bio);
      OnSchedule(keys, s.keys) && forall p :: p in s.packets ==> GenuineRecords(keys, sent, p)
    decreases |flight| - at.written, 0x100_0000 - at.offset
  {
    if at.written < |flight| {
      PacketIsGenuine(keys, sent, k, flight, at, mtu);
      var p := SealPacket(k, flight, at, mtu);
      if p.ok && (bio == [] || bio[0]) {
        FlightIsGenuine(keys, sent, p.keys, flight, p.at, mtu, if bio == [] then [] else bio[1..]);
      }
    }
  }

  lemma PlainStaysGenuine(sent: seq<Handshake>, more: Handshake, typ: byte, plain: seq<byte>)
    requires GenuinePlain(sent, typ, plain)
    ensures GenuinePlain(sent + [more], typ, plain)
  {
    if typ == RT_HANDSHAKE {
      var h, body :| GenuineFragment(sent, h, body) && plain == FragmentBytes(h, body);
      assert GenuineFragment(sent + [more], h, body);
    }
  }

  lemma {:induction false} StaysAuthentic(keys: Schedule, sent: seq<Handshake>, more: Handshake, s: seq<byte>)
    requires Authentic(keys, sent, s)
    ensures Authentic(keys, sent + [more], s)
    decreases |s|
  {
    hide GenuinePlain;
    if ParseRecord(s).Some? {
      var raw := ParseRecord(s).value;
      var plain := keys(EpochOf(raw.sequence)).open(BigEndian(raw.sequence), raw.typ, raw.version, raw.body);
      if plain.Some? {
        PlainStaysGenuine(sent, more, raw.typ, plain.value);
      }
      StaysAuthentic(keys, sent, more, raw.rest);
    }
  }

  // Sending one more message makes nothing less genuine.
  lemma BytesStayGenuine(keys: Schedule, sent: seq<Handshake>, more: Handshake, s: seq<byte>)
    requires GenuineBytes(keys, sent, s)
    ensures GenuineBytes(keys, sent + [more], s)
  {
    var rs :| Datagram(rs) == s && GenuineRecords(keys, sent, rs);
    forall r | r in rs ensures GenuineRecord(keys, sent + [more], r) {
      var plain :| GenuinePlain(sent, r.typ, plain) && r.text == keys(r.epoch).seal(Number(r.epoch, r.sequence), r.typ, r.version, plain);
      PlainStaysGenuine(sent, more, r.typ, plain);
    }
  }

  // ------------------------------------------------------------------
  // The receiver accepts only genuine fragments

  lemma GenuineIsWellPlaced(sent: seq<Handshake>, r: Receiver, h: Header, body: seq<byte>)
    requires GenuineRing(sent, r) && GenuineFragment(sent, h, body)
    requires r.readSeq <= h.msgSeq < r.readSeq + MAX_FLIGHT
    ensures GetIncoming(r, h).Some?
    ensures var m := GetIncoming(r, h).value;
      GenuineSlot(sent, Some(m)) && GenuineSlot(sent, Some(Write(m, h.fragOff, body)))
  {
    LookupFindsItsOwn(r, h);
  }

  lemma FragmentKeepsGenuine(sent: seq<Handshake>, r: Receiver, epoch: nat, maxLen: nat, h: Header, body: seq<byte>)
    requires GenuineRing(sent, r) && GenuineFragment(sent, h, body)
    ensures GenuineRing(sent, ProcessFragment(r, epoch, maxLen, h, body).to)
  {
    ProcessFragmentKeepsRing(r, epoch, maxLen, h, body);
    if r.readSeq <= h.msgSeq < r.readSeq + MAX_FLIGHT {
      GenuineIsWellPlaced(sent, r, h, body);
    }
  }

  // Among honest peers only two things make a fragment an error: the limit on
  // the message length, and the gap between the two window checks, which lets
  // the number readSeq + 7 through to a lookup that rejects it. (In epoch 1
  // any message but the next one is an error.)
  lemma HonestFragmentErrors(sent: seq<Handshake>, r: Receiver, epoch: nat, maxLen: nat, h: Header, body: seq<byte>)
    requires GenuineRing(sent, r) && GenuineFragment(sent, h, body)
    ensures !ProcessFragment(r, epoch, maxLen, h, body).ok <==>
      h.msgLen > maxLen || (if epoch == 1 then h.msgSeq != r.readSeq else h.msgSeq == r.readSeq + MAX_FLIGHT)
  {
    if r.readSeq <= h.msgSeq < r.readSeq + MAX_FLIGHT {
      GenuineIsWellPlaced(sent, r, h, body);
    }
  }

  // A sender that waits for the answer to each flight is at most seven
  // messages ahead, and then no number is in that gap.
  lemma SevenAheadIsWelcome(sent: seq<Handshake>, r: Receiver, epoch: nat, maxLen: nat, h: Header, body: seq<byte>)
    requires GenuineRing(sent, r) && GenuineFragment(sent, h, body) && |sent| <= r.readSeq + MAX_FLIGHT
    ensures ProcessFragment(r, epoch, maxLen, h, body).ok <==> h.msgLen <= maxLen && (epoch == 1 ==> h.msgSeq == r.readSeq)
  {
    HonestFragmentErrors(sent, r, epoch, maxLen, h, body);
  }

  lemma RecordKeepsGenuine(sent: seq<Handshake>, r: Receiver, epoch: nat, maxLen: nat, plain: seq<byte>)
    requires GenuineRing(sent, r) && GenuinePlain(sent, RT_HANDSHAKE, plain)
    ensures GenuineRing(sent, ProcessRecord(r, epoch, maxLen, plain).to)
    ensures forall i: nat :: i < MAX_FLIGHT && r.slots[i].Some? && r.slots[i].value.Complete() ==>
      ProcessRecord(r, epoch, maxLen, plain).to.slots[i] == r.slots[i]
    ensures ProcessRecord(r, epoch, maxLen, plain).to.readSeq == r.readSeq
  {
    var h, body :| GenuineFragment(sent, h, body) && plain == FragmentBytes(h, body);
    assert plain == FragmentBytes(h, body) + [];
    ParseInvertsWrite(h, body, []);
    FragmentKeepsGenuine(sent, r, epoch, maxLen, h, body);
    var next := ProcessFragment(r, epoch, maxLen, h, body);
    forall i: nat | i < MAX_FLIGHT && r.slots[i].Some? && r.slots[i].value.Complete()
      ensures next.to.slots[i] == r.slots[i]
    {
      CompleteIsFrozen(r, epoch, maxLen, h, body, i);
    }
    assert ProcessRecord(next.to, epoch, maxLen, []) == Received(true, next.to);
  }

  // A sealed record in front of the input is dropped, fatal, or opened to
  // what was sealed.
  lemma OpenUndoesSeal(keys: Schedule, l: Layer, r: WireRecord, plain: seq<byte>, rest: seq<byte>)
    requires Sound(keys) && l.epoch < EPOCHS && l.aead == keys(l.epoch)
    requires r.text == keys(r.epoch).seal(Number(r.epoch, r.sequence), r.typ, r.version, plain)
    ensures var outcome := OpenRecord(l, WireBytes(r) + rest).0;
      outcome in {Discard([]), Discard(rest), Failed(rest), Accepted(r.typ, Number(r.epoch, r.sequence), plain, rest)}
  {
    ParseInvertsRecord(r.typ, r.version, r.epoch, r.sequence, r.text, rest);
    SequenceBytesRoundTrip(r.epoch, r.sequence);
    assert keys(r.epoch).Correct();
  }

  // What was sealed is authentic.
  lemma {:induction false} SealedIsAuthentic(keys: Schedule, sent: seq<Handshake>, rs: seq<WireRecord>)
    requires Sound(keys) && GenuineRecords(keys, sent, rs)
    ensures Authentic(keys, sent, Datagram(rs))
    decreases |rs|
  {
    if rs != [] {
      var r := rs[0];
      assert GenuineRecord(keys, sent, r) && keys(r.epoch).Correct();
      SealedIsAuthentic(keys, sent, rs[1..]);
      ParseInvertsRecord(r.typ, r.version, r.epoch, r.sequence, r.text, Datagram(rs[1..]));
      SequenceBytesRoundTrip(r.epoch, r.sequence);
    }
  }

  // What the record layer lets through from such bytes is genuine.
  lemma OpenIsGenuine(keys: Schedule, sent: seq<Handshake>, l: Layer, input: seq<byte>)
    requires Authentic(keys, sent, input) && l.epoch < EPOCHS && l.aead == keys(l.epoch)
    ensures var (outcome, layer) := OpenRecord(l, input);
      && layer.epoch == l.epoch && layer.aead == l.aead
      && (!outcome.NoData? ==> Authentic(keys, sent, outcome.rest))
      && (outcome.Accepted? ==> GenuinePlain(sent, outcome.typ, outcome.plain))
  {
    assert Authentic(keys, sent, []);
  }

  // What opening records may change: the slots, and only for genuine bytes;
  // a message that is complete stays as it is.
  ghost predicate Advances(keys: Schedule, sent: seq<Handshake>, s: DtlsReader.State, to: DtlsReader.State,
                           rest: seq<byte>)
    requires |s.receiver.slots| == MAX_FLIGHT
  {
    && to.layer.epoch == s.layer.epoch && to.layer.aead == s.layer.aead && to.hasMessage == s.hasMessage
    && GenuineRing(sent, to.receiver) && to.receiver.readSeq == s.receiver.readSeq
    && (s.receiver.CurrentComplete() ==>
        var i := s.receiver.readSeq % MAX_FLIGHT; to.receiver.slots[i] == s.receiver.slots[i])
    && Authentic(keys, sent, rest)
  }

  lemma HandshakeAdvances(keys: Schedule, sent: seq<Handshake>, s: DtlsReader.State, layer: Layer, maxLen: nat,
                          plain: seq<byte>, rest: seq<byte>)
    requires GenuineRing(sent, s.receiver) && GenuinePlain(sent, RT_HANDSHAKE, plain)
    requires layer.epoch == s.layer.epoch && layer.aead == s.layer.aead && Authentic(keys, sent, rest)
    ensures var to := ProcessRecord(s.receiver, layer.epoch, maxLen, plain).to;
      Advances(keys, sent, s, s.(layer := layer, receiver := to), rest)
  {
    RecordKeepsGenuine(sent, s.receiver, layer.epoch, maxLen, plain);
  }

  lemma OpenAdvances(keys: Schedule, sent: seq<Handshake>, s: DtlsReader.State, maxLen: nat, input: seq<byte>)
    requires Authentic(keys, sent, input) && GenuineRing(sent, s.receiver)
    requires s.layer.epoch < EPOCHS && s.layer.aead == keys(s.layer.epoch)
    ensures var o := DtlsReader.OpenHandshake(s, maxLen, input);
      Advances(keys, sent, s, o.to, o.rest)
  {
    OpenIsGenuine(keys, sent, s.layer, input);
    var (outcome, layer) := OpenRecord(s.layer, input);
    var o := DtlsReader.OpenHandshake(s, maxLen, input);
    if outcome.Accepted? && outcome.typ == RT_HANDSHAKE {
      HandshakeAdvances(keys, sent, s, layer, maxLen, outcome.plain, outcome.rest);
    } else {
      assert o.to.receiver == s.receiver && o.rest == if outcome.NoData? then input else outcome.rest;
    }
  }

  // ------------------------------------------------------------------
  // Every event keeps the invariant

  // The receiver's half does not mind that one more message is sent.
  lemma ReceiverKeepsInv(keys: Schedule, w: World, more: Handshake)
    requires Inv(keys, w) && |w.sent| + 1 < MESSAGE_SEQS && |more.body| < 0x100_0000
    ensures ReceiverInv(keys, w.(sent := w.sent + [more]))
    ensures forall d :: d in w.network ==> GenuineBytes(keys, w.sent + [more], d)
  {
    forall d | d in w.network ensures GenuineBytes(keys, w.sent + [more], d) {
      BytesStayGenuine(keys, w.sent, more, d);
    }
    StaysAuthentic(keys, w.sent, more, w.buffer);
    forall i: nat | i < |w.delivered| ensures w.delivered[i] == Expected(w.sent + [more], i) {
      assert w.delivered[i] == Expected(w.sent, i);
    }
  }

  lemma QueueKeepsInv(sent: seq<Handshake>, more: Handshake, w: Writer, isCcs: bool, data: seq<byte>)
    requires QueuedAll(sent, w.flight) && WriterOk(w)
    requires w.messageSeq + 1 < MESSAGE_SEQS && Queued(sent + [more], Outgoing(data, w.keys.current.epoch, isCcs))
    ensures var added := AddOutgoing(w, isCcs, data);
      && WriterOk(added.to) && added.to.keys == w.keys
      && QueuedAll(if added.ok then sent + [more] else sent, added.to.flight)
      && added.to.messageSeq == (if added.ok && !isCcs then w.messageSeq + 1 else w.messageSeq)
  {
    forall m | m in w.flight ensures Queued(sent + [more], m) {}
  }

  lemma AddKeepsInv(keys: Schedule, w: World, typ: byte, body: seq<byte>)
    requires Inv(keys, w) && |w.sent| + 1 < MESSAGE_SEQS
    ensures Inv(keys, Step(keys, w, AddMessage(typ, body)))
  {
    BuildIsSingleFragment(w.writer.messageSeq, typ, body);
    if |body| < 0x100_0000 {
      var more := Handshake(typ, body);
      RawIsWhole(w.writer.messageSeq, typ, body);
      QueueKeepsInv(w.sent, more, w.writer, false, RawMessage(w.writer.messageSeq, typ, body));
      ReceiverKeepsInv(keys, w, more);
    }
  }

  lemma AddCcsKeepsInv(keys: Schedule, w: World)
    requires Inv(keys, w)
    ensures Inv(keys, Step(keys, w, AddChangeCipherSpec))
  {}

  lemma WriteKeysKeepInv(keys: Schedule, w: World)
    requires Sound(keys) && Inv(keys, w)
    ensures Inv(keys, Step(keys, w, ChangeWriteKeys))
  {
    assert keys(w.writer.keys.current.epoch + 1).Correct();
  }

  lemma ReadKeysKeepInv(keys: Schedule, w: World)
    requires Inv(keys, w)
    ensures Inv(keys, Step(keys, w, ChangeReadKeys))
  {}

  lemma ArriveKeepsInv(keys: Schedule, w: World, datagram: seq<byte>)
    requires Sound(keys) && Inv(keys, w)
    ensures Inv(keys, Step(keys, w, Arrive(datagram)))
  {
    if datagram in w.network {
      var rs :| Datagram(rs) == datagram && GenuineRecords(keys, w.sent, rs);
      SealedIsAuthentic(keys, w.sent, rs);
    }
  }

  lemma InjectKeepsInv(keys: Schedule, w: World, bytes: seq<byte>)
    requires Inv(keys, w)
    ensures Inv(keys, Step(keys, w, Inject(bytes)))
  {}

  lemma TransmitKeepsInv(keys: Schedule, w: World, from: Position, complete: bool, mtu: nat, bio: seq<bool>)
    requires Inv(keys, w) && from.written <= |w.writer.flight|
    ensures Inv(keys, Transmit(w, from, complete, mtu, bio))
  {
    FlightIsGenuine(keys, w.sent, w.writer.keys, w.writer.flight, from, mtu, bio);
    var s := SendFlight(w.writer.keys, w.writer.flight, from, mtu, bio);
    forall p | p in s.packets ensures GenuineBytes(keys, w.sent, Datagram(p)) {
      assert GenuineRecords(keys, w.sent, p);
    }
  }

  lemma OpenKeepsInv(keys: Schedule, w: World, o: DtlsReader.Opening)
    requires Inv(keys, w) && Advances(keys, w.sent, w.reader, o.to, o.rest)
    ensures Inv(keys, Opened(w, o))
  {}

  // A complete slot holds the message that was sent, in the bytes the sender
  // hashed.
  lemma CompleteIsExpected(sent: seq<Handshake>, s: DtlsReader.State)
    requires GenuineRing(sent, s.receiver) && Sendable(sent) && s.receiver.CurrentComplete()
    ensures s.receiver.readSeq < |sent|
    ensures DtlsReader.GetMessage(s) == Some(Expected(sent, s.receiver.readSeq))
  {
    var n := s.receiver.readSeq;
    var m := s.receiver.slots[n % MAX_FLIGHT].value;
    LookupFindsItsOwn(s.receiver, Header(m.typ, m.msgLen, n, 0, 0));
    assert seq(m.msgLen, i requires 0 <= i < m.msgLen => m.body[i]) == sent[n].body;
  }

  lemma GetKeepsInv(keys: Schedule, w: World)
    requires Inv(keys, w)
    ensures Inv(keys, Step(keys, w, GetMessage))
  {
    hide Authentic, GenuineBytes, Expected;
    if w.reader.receiver.CurrentComplete() {
      CompleteIsExpected(w.sent, w.reader);
    }
  }

  lemma NextKeepsInv(keys: Schedule, w: World)
    requires Inv(keys, w)
    ensures Inv(keys, Step(keys, w, NextMessage))
  {
    if w.reader.hasMessage {
      NextMessageKeepsRing(w.reader.receiver);
    }
  }

  lemma StepKeepsInv(keys: Schedule, w: World, e: Event)
    requires Sound(keys) && Inv(keys, w) && |Step(keys, w, e).sent| < MESSAGE_SEQS
    ensures Inv(keys, Step(keys, w, e))
  {
    match e
    case AddMessage(typ, body) =>
      if |w.sent| + 1 < MESSAGE_SEQS { AddKeepsInv(keys, w, typ, body); }
    case Flush(mtu, bio) => TransmitKeepsInv(keys, w, w.writer.at, true, mtu, bio);
    case Retransmit(mtu, bio) => TransmitKeepsInv(keys, w, BEGINNING, w.writer.complete, mtu, bio);
    case OpenHandshake(maxLen) =>
      OpenAdvances(keys, w.sent, w.reader, maxLen, w.buffer);
      OpenKeepsInv(keys, w, DtlsReader.OpenHandshake(w.reader, maxLen, w.buffer));
    case OpenChangeCipherSpec(maxLen) =>
      OpenAdvances(keys, w.sent, w.reader, maxLen, w.buffer);
      OpenKeepsInv(keys, w, DtlsReader.OpenChangeCipherSpec(w.reader, maxLen, w.buffer));
    case GetMessage => GetKeepsInv(keys, w);
    case NextMessage => NextKeepsInv(keys, w);
    case AddChangeCipherSpec => AddCcsKeepsInv(keys, w);
    case Arrive(datagram) => ArriveKeepsInv(keys, w, datagram);
    case Inject(bytes) => InjectKeepsInv(keys, w, bytes);
    case ChangeWriteKeys => WriteKeysKeepInv(keys, w);
    case ChangeReadKeys => ReadKeysKeepInv(keys, w);
  }

  // ------------------------------------------------------------------
  // Runs

  lemma StepKeepsWorld(keys: Schedule, w: World, e: Event)
    requires Sound(keys) && WorldOk(w)
    ensures WorldOk(Step(keys, w, e))
  {
    match e
    case OpenHandshake(maxLen) => OpenKeepsRing(w.reader, maxLen, w.buffer);
    case OpenChangeCipherSpec(maxLen) => OpenKeepsRing(w.reader, maxLen, w.buffer);
    case NextMessage =>
      if w.reader.hasMessage && w.reader.receiver.CurrentComplete() {
        NextMessageKeepsRing(w.reader.receiver);
      }
    case ChangeWriteKeys => assert keys(w.writer.keys.current.epoch + 1).Correct();
    case _ =>
  }

  lemma OpenKeepsRing(s: DtlsReader.State, maxLen: nat, input: seq<byte>)
    requires RingOk(s.receiver)
    ensures RingOk(DtlsReader.OpenHandshake(s, maxLen, input).to.receiver)
  {
    var (outcome, layer) := OpenRecord(s.layer, input);
    if outcome.Accepted? {
      ProcessRecordKeepsRing(s.receiver, layer.epoch, maxLen, outcome.plain);
    }
  }

  ghost function Execute(keys: Schedule, events: seq<Event>): (w: World)
    requires Sound(keys)
    ensures WorldOk(w)
  {
    if events == [] then assert keys(0).Correct(); Initial(keys)
    else
      var w := Execute(keys, events[..|events| - 1]);
      StepKeepsWorld(keys, w, events[|events| - 1]);
      Step(keys, w, events[|events| - 1])
  }

  lemma {:induction false} RunKeepsInv(keys: Schedule, events: seq<Event>)
    requires Sound(keys) && |Execute(keys, events).sent| < MESSAGE_SEQS
    ensures Inv(keys, Execute(keys, events))
  {
    if events == [] {
      assert keys(0).Correct() && Authentic(keys, [], []);
    } else {
      var w := Execute(keys, events[..|events| - 1]);
      var e := events[|events| - 1];
      assert |w.sent| <= |Step(keys, w, e).sent|;
      RunKeepsInv(keys, events[..|events| - 1]);
      StepKeepsInv(keys, w, e);
    }
  }

  // The sender's transcript: every message in its single-fragment form.
  ghost function Transcript(sent: seq<Handshake>): (t: seq<DtlsReader.Message>)
    requires Sendable(sent)
  {
    seq(|sent|, i requires 0 <= i < |sent| => Expected(sent, i))
  }

  // The receiver saw a prefix of what was sent, each message once, in order
  // and byte for byte as the sender hashed it.
  ghost predicate InOrder(w: World) {
    Sendable(w.sent) && w.delivered <= Transcript(w.sent)
  }

  // Whatever the network does to the datagrams and whatever else it brings that
  // no key authenticates, however often flights are retransmitted and at
  // whatever MTUs: as long as the 16-bit message counter
  // has not wrapped, messages are delivered in order. (DtlsWrap shows that
  // this is exactly how long.)
  lemma DeliveredIsPrefix(keys: Schedule, events: seq<Event>)
    requires Sound(keys) && |Execute(keys, events).sent| < MESSAGE_SEQS
    ensures InOrder(Execute(keys, events))
  {
    RunKeepsInv(keys, events);
  }

  // Asking again for a message that was not consumed gives the same message,
  // whatever happened in between.
  lemma PeekIsStable(keys: Schedule, events: seq<Event>)
    requires Sound(keys) && |Execute(keys, events).sent| < MESSAGE_SEQS
    ensures var w := Execute(keys, events);
      w.reader.hasMessage ==>
        w.delivered != [] && DtlsReader.GetMessage(w.reader) == Some(w.delivered[|w.delivered| - 1])
  {
    hide Execute;
    RunKeepsInv(keys, events);
    var w := Execute(keys, events);
    if w.reader.hasMessage {
      CompleteIsExpected(w.sent, w.reader);
    }
  }
}
