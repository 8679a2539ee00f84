// Delivery in the runs of DtlsEndToEnd: a message whose datagrams arrive is
// delivered, whatever else happens in between.

module DtlsArrival {
  import opened Bytes
  import opened DtlsFragment
  import DtlsRecord
  import DtlsReplay
  import opened DtlsWriter
  import opened DtlsFlight
  import opened DtlsEndToEnd
  import opened DtlsDelivery
  import DtlsReader

  // ------------------------------------------------------------------
  // One record

  // The record is the piece, sealed.
  ghost predicate Carries(keys: Schedule, r: WireRecord, p: Todo) {
    p.Sendable() && r.typ == TypeOf(p)
    && r.text == keys(r.epoch).seal(DtlsRecord.Number(r.epoch, r.sequence), r.typ, r.version, PlainOf(p))
  }

  // The record layer finds the end of the record.
  predicate Legible(l: DtlsRecord.Layer, r: WireRecord) {
    DtlsRecord.VersionOk(l.aead, r.version) && |r.text| <= DtlsRecord.MAX_ENCRYPTED_LENGTH
  }

  // The record comes in its epoch and is neither old nor seen.
  predicate Fresh(l: DtlsRecord.Layer, r: WireRecord) {
    && Legible(l, r) && r.epoch == l.epoch
    && !DtlsReplay.ShouldDiscard(l.window, DtlsRecord.Number(r.epoch, r.sequence))
  }

  // Whatever becomes of a legible record, what follows it is left.
  lemma LegibleIsStepped(l: DtlsRecord.Layer, r: WireRecord, rest: seq<byte>)
    requires Legible(l, r)
    ensures var outcome := DtlsRecord.OpenRecord(l, WireBytes(r) + rest).0; !outcome.NoData? && outcome.rest == rest
  {
    DtlsRecord.ParseInvertsRecord(r.typ, r.version, r.epoch, r.sequence, r.text, rest);
  }

  lemma FreshIsOpened(keys: Schedule, l: DtlsRecord.Layer, r: WireRecord, p: Todo, rest: seq<byte>)
    requires Sound(keys) && l.epoch < DtlsRecord.EPOCHS && l.aead == keys(l.epoch) && Carries(keys, r, p) && Fresh(l, r)
    ensures DtlsRecord.OpenRecord(l, WireBytes(r) + rest).0 ==
      if |PlainOf(p)| > DtlsRecord.MAX_PLAIN_LENGTH then DtlsRecord.Failed(rest)
      else DtlsRecord.Accepted(r.typ, DtlsRecord.Number(r.epoch, r.sequence), PlainOf(p), rest)
  {
    DtlsRecord.ParseInvertsRecord(r.typ, r.version, r.epoch, r.sequence, r.text, rest);
    DtlsRecord.SequenceBytesRoundTrip(r.epoch, r.sequence);
    assert keys(r.epoch).Correct();
  }

  // The receiver takes message n: it is in the window, short enough, and the
  // next one in epoch 1.
  predicate Ready(w: World, maxLen: nat, n: nat) {
    var r := w.reader.receiver;
    && r.readSeq <= n < r.readSeq + MAX_FLIGHT && n < |w.sent| && |w.sent[n].body| <= maxLen
    && (w.reader.layer.epoch == 1 ==> n == r.readSeq)
  }

  lemma FragmentKeepsHas(sent: seq<Handshake>, r: Receiver, epoch: nat, maxLen: nat, h: Header, body: seq<byte>, n: nat, k: nat)
    requires GenuineRing(sent, r) && GenuineFragment(sent, h, body)
    requires r.readSeq <= n < r.readSeq + MAX_FLIGHT && Has(r, n, k)
    ensures Has(ProcessFragment(r, epoch, maxLen, h, body).to, n, k)
  {
    HonestFragmentErrors(sent, r, epoch, maxLen, h, body);
    if Welcome(r.readSeq, epoch, maxLen, h) {
      OneArrives(sent, r, epoch, maxLen, Piece(h, body), n, k);
    }
  }

  // A record of one genuine fragment.
  lemma OneFragment(r: Receiver, epoch: nat, maxLen: nat, h: Header, body: seq<byte>)
    requires |r.slots| == MAX_FLIGHT && h.Fits() && |body| == h.fragLen
    ensures ParseFragment(FragmentBytes(h, body)) == Some(Parsed(h, body, []))
    ensures ProcessRecord(r, epoch, maxLen, FragmentBytes(h, body)).to == ProcessFragment(r, epoch, maxLen, h, body).to
  {
    assert FragmentBytes(h, body) == FragmentBytes(h, body) + [];
    ParseInvertsWrite(h, body, []);
    var next := ProcessFragment(r, epoch, maxLen, h, body);
    hide ProcessFragment, FragmentBytes;
    assert |next.to.slots| == MAX_FLIGHT ==> ProcessRecord(next.to, epoch, maxLen, []) == Received(true, next.to);
  }

  lemma RecordKeepsHas(sent: seq<Handshake>, r: Receiver, epoch: nat, maxLen: nat, plain: seq<byte>, n: nat, k: nat)
    requires GenuineRing(sent, r) && GenuinePlain(sent, DtlsRecord.RT_HANDSHAKE, plain)
    requires r.readSeq <= n < r.readSeq + MAX_FLIGHT && Has(r, n, k)
    ensures var to := ProcessRecord(r, epoch, maxLen, plain).to; RingOk(to) && Has(to, n, k)
  {
    ProcessRecordKeepsRing(r, epoch, maxLen, plain);
    var h, body :| GenuineFragment(sent, h, body) && plain == FragmentBytes(h, body);
    OneFragment(r, epoch, maxLen, h, body);
    FragmentKeepsHas(sent, r, epoch, maxLen, h, body, n, k);
  }

  // ------------------------------------------------------------------
  // One event

  ghost predicate WorldHas(w: World, n: nat, k: nat) {
    RingOk(w.reader.receiver) && w.reader.receiver.readSeq <= n < w.reader.receiver.readSeq + MAX_FLIGHT
    && Has(w.reader.receiver, n, k)
  }

  lemma OpenKeepsHas(keys: Schedule, w: World, maxLen: nat, n: nat, k: nat)
    requires Sound(keys) && Inv(keys, w) && WorldHas(w, n, k)
    ensures var to := DtlsReader.OpenHandshake(w.reader, maxLen, w.buffer).to.receiver;
      RingOk(to) && Has(to, n, k) && to.readSeq == w.reader.receiver.readSeq
  {
    OpenIsGenuine(keys, w.sent, w.reader.layer, w.buffer);
    OpenAdvances(keys, w.sent, w.reader, maxLen, w.buffer);
    var (outcome, layer) := DtlsRecord.OpenRecord(w.reader.layer, w.buffer);
    hide DtlsRecord.OpenRecord, GenuinePlain;
    if outcome.Accepted? && outcome.typ == DtlsRecord.RT_HANDSHAKE {
      RecordKeepsHas(w.sent, w.reader.receiver, layer.epoch, maxLen, outcome.plain, n, k);
    }
  }

  lemma NextKeepsHas(r: Receiver, n: nat, k: nat)
    requires RingOk(r) && r.slots[r.readSeq % MAX_FLIGHT].Some? && r.readSeq + 1 < MESSAGE_SEQS
    requires r.readSeq <= n < r.readSeq + MAX_FLIGHT && Has(r, n, k)
    ensures var to := DtlsFragment.NextMessage(r);
      r.readSeq <= to.readSeq && (to.readSeq <= n ==> Has(to, n, k))
  {
    if r.readSeq < n && r.readSeq % MAX_FLIGHT == n % MAX_FLIGHT {
      SameResidue(r.readSeq, n);
    }
  }

  lemma TakingKeepsHas(keys: Schedule, w: World, n: nat, k: nat)
    requires Inv(keys, w) && WorldOk(w) && WorldHas(w, n, k)
    ensures var to := Step(keys, w, NextMessage).reader.receiver;
      w.reader.receiver.readSeq <= to.readSeq && (to.readSeq <= n ==> Has(to, n, k))
  {
    if w.reader.hasMessage {
      CompleteIsExpected(w.sent, w.reader);
      NextKeepsHas(w.reader.receiver, n, k);
    }
    hide GenuineRing, GenuineBytes, DeliveredPrefix, SenderInv, Has, RingOk;
  }

  // What was received stays, until its message is consumed.
  lemma StepKeepsHas(keys: Schedule, w: World, e: Event, n: nat, k: nat)
    requires Sound(keys) && Inv(keys, w) && WorldOk(w) && |w.sent| < MESSAGE_SEQS && WorldHas(w, n, k)
    ensures var to := Step(keys, w, e).reader.receiver;
      w.reader.receiver.readSeq <= to.readSeq && (to.readSeq <= n ==> WorldHas(Step(keys, w, e), n, k))
  {
    StepKeepsWorld(keys, w, e);
    hide Inv, RingOk, Has, DtlsReader.OpenHandshake, DtlsFragment.NextMessage, WriterOk;
    match e
    case OpenHandshake(maxLen) => OpenKeepsHas(keys, w, maxLen, n, k);
    case OpenChangeCipherSpec(maxLen) => OpenKeepsHas(keys, w, maxLen, n, k);
    case NextMessage => TakingKeepsHas(keys, w, n, k);
    case _ => assert Step(keys, w, e).reader.receiver == w.reader.receiver;
  }

  // The event takes the next record off the buffer.
  predicate Opens(w: World, e: Event) {
    e.OpenHandshake? || (e.OpenChangeCipherSpec? && !w.reader.hasCcs)
  }

  lemma OpeningIs(keys: Schedule, w: World, e: Event)
    requires WorldOk(w) && Opens(w, e)
    ensures var o := DtlsReader.OpenHandshake(w.reader, e.maxLen, w.buffer);
      Step(keys, w, e).buffer == o.rest && Step(keys, w, e).reader.receiver == o.to.receiver
  {
    hide DtlsReader.OpenHandshake;
  }

  lemma RecordIsStepped(keys: Schedule, w: World, e: Event, r: WireRecord, rest: seq<byte>)
    requires WorldOk(w) && Opens(w, e) && w.buffer == WireBytes(r) + rest && Legible(w.reader.layer, r)
    ensures Step(keys, w, e).buffer == rest
  {
    OpeningIs(keys, w, e);
    LegibleIsStepped(w.reader.layer, r, rest);
    hide Step, DtlsRecord.OpenRecord, ProcessRecord;
  }

  // The record at hand, opened: what its fragment covers is there.
  lemma RecordIsTaken(keys: Schedule, w: World, e: Event, r: WireRecord, p: Todo, rest: seq<byte>, n: nat, k: nat)
    requires Sound(keys) && Inv(keys, w) && WorldOk(w) && Opens(w, e)
    requires w.buffer == WireBytes(r) + rest && Carries(keys, r, p) && Fresh(w.reader.layer, r)
    requires |PlainOf(p)| <= DtlsRecord.MAX_PLAIN_LENGTH && Covers(p, n, k) && Ready(w, e.maxLen, n)
    ensures WorldHas(Step(keys, w, e), n, k)
  {
    OpeningIs(keys, w, e);
    FreshIsOpened(keys, w.reader.layer, r, p, rest);
    OpenIsGenuine(keys, w.sent, w.reader.layer, w.buffer);
    OpenAdvances(keys, w.sent, w.reader, e.maxLen, w.buffer);
    var (outcome, layer) := DtlsRecord.OpenRecord(w.reader.layer, w.buffer);
    hide Step, DtlsRecord.OpenRecord, ProcessRecord, GenuinePlain, Carries, Fresh, PlainOf, WireBytes, GenuineRing, GenuineBytes, Has;
    PieceIsTaken(w.sent, w.reader.receiver, layer.epoch, e.maxLen, p, n, k);
  }

  lemma PieceIsTaken(sent: seq<Handshake>, r: Receiver, epoch: nat, maxLen: nat, p: Todo, n: nat, k: nat)
    requires GenuineRing(sent, r) && p.Piece? && p.Sendable() && GenuinePlain(sent, DtlsRecord.RT_HANDSHAKE, PlainOf(p))
    requires r.readSeq <= n < r.readSeq + MAX_FLIGHT && n < |sent| && |sent[n].body| <= maxLen && (epoch == 1 ==> n == r.readSeq)
    requires Covers(p, n, k)
    ensures var to := ProcessRecord(r, epoch, maxLen, PlainOf(p)).to; RingOk(to) && Has(to, n, k)
  {
    ProcessRecordKeepsRing(r, epoch, maxLen, PlainOf(p));
    var h, body :| GenuineFragment(sent, h, body) && PlainOf(p) == FragmentBytes(h, body);
    OneFragment(r, epoch, maxLen, h, body);
    OneFragment(r, epoch, maxLen, p.hdr, p.body);
    OneArrives(sent, r, epoch, maxLen, p, n, k);
  }

  // ------------------------------------------------------------------
  // Runs

  // The world after j events.
  ghost function At(keys: Schedule, events: seq<Event>, j: nat): (w: World)
    requires Sound(keys) && j <= |events|
    ensures WorldOk(w)
  {
    Execute(keys, events[..j])
  }

  lemma NextAt(keys: Schedule, events: seq<Event>, j: nat)
    requires Sound(keys) && j < |events|
    ensures At(keys, events, j + 1) == Step(keys, At(keys, events, j), events[j])
  {
    assert events[..j + 1][..j] == events[..j];
  }

  lemma StepSendsNoLess(keys: Schedule, w: World, e: Event)
    requires WorldOk(w)
    ensures w.sent <= Step(keys, w, e).sent
  {}

  lemma {:induction false} AtHasInv(keys: Schedule, events: seq<Event>, i: nat, j: nat)
    requires Sound(keys) && i <= j <= |events| && |At(keys, events, j).sent| < MESSAGE_SEQS
    ensures At(keys, events, i).sent <= At(keys, events, j).sent && Inv(keys, At(keys, events, i))
    decreases j - i
  {
    hide Step, Inv;
    if i == j {
      RunKeepsInv(keys, events[..j]);
    } else {
      NextAt(keys, events, j - 1);
      StepSendsNoLess(keys, At(keys, events, j - 1), events[j - 1]);
      AtHasInv(keys, events, i, j - 1);
    }
  }

  // Between two times of a run at which message n is in the window, what was
  // received of it stays.
  lemma {:induction false} RunKeepsHas(keys: Schedule, events: seq<Event>, i: nat, j: nat, n: nat, k: nat)
    requires Sound(keys) && i <= j <= |events| && |At(keys, events, j).sent| < MESSAGE_SEQS
    requires WorldHas(At(keys, events, i), n, k) && At(keys, events, j).reader.receiver.readSeq <= n
    ensures WorldHas(At(keys, events, j), n, k)
    decreases j - i
  {
    hide Step, WorldHas, Inv;
    if i < j {
      var w, next := At(keys, events, i), At(keys, events, i + 1);
      NextAt(keys, events, i);
      AtHasInv(keys, events, i, j);
      StepKeepsHas(keys, w, events[i], n, k);
      ReadSeqGrows(keys, events, i + 1, j);
      RunKeepsHas(keys, events, i + 1, j, n, k);
    }
  }

  lemma StepReadsNoLess(keys: Schedule, w: World, e: Event)
    requires Sound(keys) && Inv(keys, w) && WorldOk(w) && |w.sent| < MESSAGE_SEQS
    ensures w.reader.receiver.readSeq <= Step(keys, w, e).reader.receiver.readSeq
  {
    match e
    case OpenHandshake(maxLen) => OpenAdvances(keys, w.sent, w.reader, maxLen, w.buffer);
    case OpenChangeCipherSpec(maxLen) => OpenAdvances(keys, w.sent, w.reader, maxLen, w.buffer);
    case NextMessage =>
      if w.reader.hasMessage {
        CompleteIsExpected(w.sent, w.reader);
      }
    case _ => assert Step(keys, w, e).reader.receiver == w.reader.receiver;
  }

  lemma {:induction false} ReadSeqGrows(keys: Schedule, events: seq<Event>, i: nat, j: nat)
    requires Sound(keys) && i <= j <= |events| && |At(keys, events, j).sent| < MESSAGE_SEQS
    ensures At(keys, events, i).reader.receiver.readSeq <= At(keys, events, j).reader.receiver.readSeq
    decreases j - i
  {
    hide Step, Inv;
    if i < j {
      NextAt(keys, events, i);
      AtHasInv(keys, events, i, j);
      StepReadsNoLess(keys, At(keys, events, i), events[i]);
      ReadSeqGrows(keys, events, i + 1, j);
    }
  }

  // ------------------------------------------------------------------
  // Datagrams

  // The packet holds these pieces, one in each record.
  ghost predicate Holds(keys: Schedule, packet: seq<WireRecord>, pieces: seq<Todo>) {
    |packet| == |pieces| && forall x :: 0 <= x < |packet| ==> Carries(keys, packet[x], pieces[x])
  }

  // The bytes an event puts into the buffer.
  ghost function Brought(keys: Schedule, w: World, e: Event): Option<seq<byte>> {
    match e
    case Arrive(datagram) => if datagram in w.network then Some(datagram) else None
    case Inject(bytes) => if Authentic(keys, w.sent, bytes) then Some(bytes) else None
    case _ => None
  }

  // At time j the reader is at record q of the packet: it has arrived, and
  // each record in front of q was opened since, whatever became of it. In
  // between anything may happen, but no other datagram comes in.
  ghost predicate AtHand(keys: Schedule, events: seq<Event>, packet: seq<WireRecord>, q: nat, j: nat)
    requires Sound(keys)
    decreases j
  {
    && 0 < j <= |events| && q <= |packet|
    && var w, e := At(keys, events, j - 1), events[j - 1];
       if Brought(keys, w, e).Some? then q == 0 && Brought(keys, w, e).value == Datagram(packet)
       else if Opens(w, e) then
         q > 0 && Legible(w.reader.layer, packet[q - 1]) && AtHand(keys, events, packet, q - 1, j - 1)
       else AtHand(keys, events, packet, q, j - 1)
  }

  // Then the packet from q on is what is left in the buffer.
  lemma {:induction false} BufferAt(keys: Schedule, events: seq<Event>, packet: seq<WireRecord>, q: nat, j: nat)
    requires Sound(keys) && AtHand(keys, events, packet, q, j)
    ensures At(keys, events, j).buffer == Datagram(packet[q..])
    decreases j
  {
    hide Step, At, Datagram, Legible, WorldOk, Opens, Sound, Brought;
    NextAt(keys, events, j - 1);
    var w, e := At(keys, events, j - 1), events[j - 1];
    var comes, opens := Brought(keys, w, e), Opens(w, e);
    assert if comes.Some? then q == 0 && comes.value == Datagram(packet)
           else if opens then q > 0 && Legible(w.reader.layer, packet[q - 1]) && AtHand(keys, events, packet, q - 1, j - 1)
           else AtHand(keys, events, packet, q, j - 1);
    hide AtHand;
    if comes.Some? {
      BringsDatagram(keys, w, e);
      assert packet[0..] == packet;
    } else if opens {
      BufferAt(keys, events, packet, q - 1, j - 1);
      PacketIsStepped(keys, w, e, packet, q - 1);
    } else {
      BufferAt(keys, events, packet, q, j - 1);
      LeavesBuffer(keys, w, e);
    }
  }

  lemma PacketIsStepped(keys: Schedule, w: World, e: Event, packet: seq<WireRecord>, q: nat)
    requires q < |packet| && WorldOk(w) && Opens(w, e) && w.buffer == Datagram(packet[q..]) && Legible(w.reader.layer, packet[q])
    ensures Step(keys, w, e).buffer == Datagram(packet[q + 1..])
  {
    hide Step, Legible;
    assert packet[q..] == [packet[q]] + packet[q + 1..];
    OneMoreRecordIs(packet[q], packet[q + 1..]);
    RecordIsStepped(keys, w, e, packet[q], Datagram(packet[q + 1..]));
  }

  lemma BringsDatagram(keys: Schedule, w: World, e: Event)
    requires WorldOk(w) && Brought(keys, w, e).Some?
    ensures Step(keys, w, e).buffer == Brought(keys, w, e).value
  {}

  lemma LeavesBuffer(keys: Schedule, w: World, e: Event)
    requires WorldOk(w) && !Opens(w, e) && Brought(keys, w, e).None?
    ensures Step(keys, w, e).buffer == w.buffer
  {}

  // At time j record q of the packet is opened: in its epoch, neither old nor
  // seen, and while message n is welcome.
  ghost predicate RecordComes(keys: Schedule, events: seq<Event>, packet: seq<WireRecord>, q: nat, n: nat, j: nat)
    requires Sound(keys)
  {
    && q < |packet| && j < |events| && AtHand(keys, events, packet, q, j)
    && var w, e := At(keys, events, j), events[j];
       Opens(w, e) && Fresh(w.reader.layer, packet[q]) && Ready(w, e.maxLen, n)
  }

  // Then what its piece covers is there.
  lemma ComingBrings(keys: Schedule, events: seq<Event>, packet: seq<WireRecord>, q: nat, p: Todo, n: nat, k: nat, j: nat)
    requires Sound(keys) && |At(keys, events, |events|).sent| < MESSAGE_SEQS
    requires RecordComes(keys, events, packet, q, n, j) && Carries(keys, packet[q], p)
    requires Covers(p, n, k) && |PlainOf(p)| <= DtlsRecord.MAX_PLAIN_LENGTH
    ensures WorldHas(At(keys, events, j + 1), n, k)
  {
    var w, e := At(keys, events, j), events[j];
    NextAt(keys, events, j);
    AtHasInv(keys, events, j, |events|);
    BufferAt(keys, events, packet, q, j);
    assert packet[q..] == [packet[q]] + packet[q + 1..];
    OneMoreRecordIs(packet[q], packet[q + 1..]);
    hide Step, At, AtHand, Datagram, WorldHas, Inv, Covers, Carries, Fresh, Ready;
    RecordIsTaken(keys, w, e, packet[q], p, Datagram(packet[q + 1..]), n, k);
  }

  lemma OneMoreRecordIs(r: WireRecord, rest: seq<WireRecord>)
    ensures Datagram([r] + rest) == WireBytes(r) + Datagram(rest)
  {
    assert ([r] + rest)[1..] == rest;
  }

  // ------------------------------------------------------------------
  // Messages and flights

  // At some time of the run, position k of message n was there.
  ghost predicate EverHas(keys: Schedule, events: seq<Event>, n: nat, k: nat)
    requires Sound(keys)
  {
    exists j: nat :: j <= |events| && WorldHas(At(keys, events, j), n, k)
  }

  // The next message, once all of it was received at some time, is delivered.
  lemma MessageGetsThrough(keys: Schedule, events: seq<Event>, n: nat)
    requires Sound(keys) && |At(keys, events, |events|).sent| < MESSAGE_SEQS
    requires var w := At(keys, events, |events|); w.reader.receiver.readSeq == n < |w.sent|
    requires forall k: nat :: k <= |At(keys, events, |events|).sent[n].body| ==> EverHas(keys, events, n, k)
    ensures var w := At(keys, events, |events|);
      Sendable(w.sent) && DtlsReader.GetMessage(w.reader) == Some(Expected(w.sent, n))
  {
    var w := At(keys, events, |events|);
    AtHasInv(keys, events, |events|, |events|);
    forall k: nat | k <= |w.sent[n].body| ensures Has(w.reader.receiver, n, k) {
      assert EverHas(keys, events, n, k);
      var j: nat :| j <= |events| && WorldHas(At(keys, events, j), n, k);
      RunKeepsHas(keys, events, j, |events|, n, k);
    }
    hide At, EverHas;
    HasAllIsComplete(w.sent, w.reader.receiver, n);
    CompleteIsExpected(w.sent, w.reader);
  }

  lemma HasAllIsComplete(sent: seq<Handshake>, r: Receiver, n: nat)
    requires GenuineRing(sent, r) && r.readSeq == n < |sent| && forall k: nat :: k <= |sent[n].body| ==> Has(r, n, k)
    ensures r.CurrentComplete()
  {
    assert Has(r, n, |sent[n].body|);
    forall k: nat | k < |sent[n].body| ensures k in r.slots[n % MAX_FLIGHT].value.body {
      assert Has(r, n, k);
    }
  }

  lemma SealedCarries(keys: Schedule, k: Keys, m: Outgoing, offset: nat, room: nat)
    requires OnSchedule(keys, k)
    ensures var r := SealNext(k, m, offset, room);
      && (r.SealProgress? ==> Carries(keys, r.record, r.piece))
      && (!r.SealNoProgress? ==> OnSchedule(keys, Used(k, m, r.sequence)))
  {}

  lemma {:induction false} LoopHolds(keys: Schedule, k: Keys, flight: seq<Outgoing>, at: Position, room: nat)
    requires OnSchedule(keys, k) && at.written <= |flight|
    ensures var p := SealLoop(k, flight, at, room); Holds(keys, p.records, p.pieces) && OnSchedule(keys, p.keys)
    decreases |flight| - at.written
  {
    hide SealNext, Carries;
    if at.written < |flight| {
      var m := flight[at.written];
      SealedCarries(keys, k, m, at.offset, room);
      var r := SealNext(k, m, at.offset, room);
      if r.SealProgress? && r.piece.Ends() {
        LoopHolds(keys, Used(k, m, r.sequence), flight, After(at, r.piece), room - r.record.Size());
      }
    }
  }

  // Each piece is in one of the packets.
  ghost predicate InPacket(keys: Schedule, packets: seq<seq<WireRecord>>, piece: Todo) {
    exists packet, pieces :: packet in packets && Holds(keys, packet, pieces) && piece in pieces
  }

  ghost predicate AllInPackets(keys: Schedule, s: Sent) {
    forall piece :: piece in s.pieces ==> InPacket(keys, s.packets, piece)
  }

  lemma MorePackets(keys: Schedule, a: seq<seq<WireRecord>>, b: seq<seq<WireRecord>>, piece: Todo)
    requires InPacket(keys, a, piece) && forall packet :: packet in a ==> packet in b
    ensures InPacket(keys, b, piece)
  {
    var packet, pieces :| packet in a && Holds(keys, packet, pieces) && piece in pieces;
    assert packet in b;
  }

  lemma {:induction false} SendHolds(keys: Schedule, k: Keys, flight: seq<Outgoing>, at: Position, mtu: nat, bio: seq<bool>)
    requires OnSchedule(keys, k) && at.written <= |flight|
    ensures var s := SendFlight(k, flight, at, mtu, bio);
      OnSchedule(keys, s.keys) && AllInPackets(keys, s)
    decreases |flight| - at.written, 0x100_0000 - at.offset
  {
    assert KeysOk(k);
    hide SealLoop, Holds, InPacket, OnSchedule;
    if at.written < |flight| {
      LoopHolds(keys, k, flight, at, mtu);
      var p := SealPacket(k, flight, at, mtu);
      if p.ok && (bio == [] || bio[0]) {
        var bio' := if bio == [] then [] else bio[1..];
        SendHolds(keys, p.keys, flight, p.at, mtu, bio');
        var s, rest := SendFlight(k, flight, at, mtu, bio), SendFlight(p.keys, flight, p.at, mtu, bio');
        PiecesInPackets(keys, p.records, p.pieces, rest.packets, rest.pieces);
      }
    }
  }

  lemma PiecesInPackets(keys: Schedule, packet: seq<WireRecord>, pieces: seq<Todo>,
                        packets: seq<seq<WireRecord>>, more: seq<Todo>)
    requires Holds(keys, packet, pieces) && forall piece :: piece in more ==> InPacket(keys, packets, piece)
    ensures forall piece :: piece in pieces + more ==> InPacket(keys, [packet] + packets, piece)
  {
    forall piece | piece in pieces + more ensures InPacket(keys, [packet] + packets, piece) {
      if piece in pieces {
        assert packet in [packet] + packets;
      } else {
        MorePackets(keys, packets, [packet] + packets, piece);
      }
    }
  }

  lemma {:induction false} AllHolds(keys: Schedule, k: Keys, flight: seq<Outgoing>, at: Position, attempts: seq<Attempt>)
    requires OnSchedule(keys, k) && at.written <= |flight|
    ensures AllInPackets(keys, SendAll(k, flight, at, attempts))
    decreases |attempts|
  {
    assert KeysOk(k);
    hide SendFlight, InPacket, OnSchedule;
    if attempts != [] {
      SendHolds(keys, k, flight, at, attempts[0].mtu, attempts[0].bio);
      var s := SendFlight(k, flight, at, attempts[0].mtu, attempts[0].bio);
      if s.result != SendFailed {
        var rest := SendAll(s.keys, flight, s.at, attempts[1..]);
        AllHolds(keys, s.keys, flight, s.at, attempts[1..]);
        BothInPackets(keys, s.packets, s.pieces, rest.packets, rest.pieces);
      }
    }
  }

  lemma BothInPackets(keys: Schedule, a: seq<seq<WireRecord>>, first: seq<Todo>, b: seq<seq<WireRecord>>, more: seq<Todo>)
    requires forall piece :: piece in first ==> InPacket(keys, a, piece)
    requires forall piece :: piece in more ==> InPacket(keys, b, piece)
    ensures forall piece :: piece in first + more ==> InPacket(keys, a + b, piece)
  {
    forall piece | piece in first + more ensures InPacket(keys, a + b, piece) {
      if piece in first {
        MorePackets(keys, a, a + b, piece);
      } else {
        MorePackets(keys, b, a + b, piece);
      }
    }
  }

  predicate OfMessage(p: Todo, n: nat) {
    p.Piece? && p.hdr.msgSeq == n
  }

  // Every record that carries a piece of message n comes at some time.
  ghost predicate MessageReceived(keys: Schedule, events: seq<Event>, packets: seq<seq<WireRecord>>, n: nat)
    requires Sound(keys)
  {
    forall packet: seq<WireRecord>, q: nat, p: Todo ::
      packet in packets && q < |packet| && Carries(keys, packet[q], p) && OfMessage(p, n) ==>
      exists j: nat :: RecordComes(keys, events, packet, q, n, j)
  }

  // A flight that was sent to its end: if each record that carries a piece of
  // its next message comes at some time, in its epoch and neither old nor
  // seen, then the message is delivered, whatever else happens in the run.
  lemma FlightGetsThrough(keys: Schedule, events: seq<Event>, k: Keys, flight: seq<Outgoing>, attempts: seq<Attempt>, i: nat)
    requires Sound(keys) && |At(keys, events, |events|).sent| < MESSAGE_SEQS
    requires OnSchedule(keys, k) && SendAll(k, flight, BEGINNING, attempts).result == FlightDone
    requires i < |flight| && IsMessage(flight[i]) && Queued(At(keys, events, |events|).sent, flight[i])
    requires At(keys, events, |events|).reader.receiver.readSeq == SeqOf(flight[i])
    requires forall p :: p in SendAll(k, flight, BEGINNING, attempts).pieces && p.Sendable() && OfMessage(p, SeqOf(flight[i])) ==>
      |PlainOf(p)| <= DtlsRecord.MAX_PLAIN_LENGTH
    requires MessageReceived(keys, events, SendAll(k, flight, BEGINNING, attempts).packets, SeqOf(flight[i]))
    ensures var w := At(keys, events, |events|);
      Sendable(w.sent) && DtlsReader.GetMessage(w.reader) == Some(Expected(w.sent, SeqOf(flight[i])))
  {
    var n, s := SeqOf(flight[i]), SendAll(k, flight, BEGINNING, attempts);
    SendAllTiles(k, flight, BEGINNING, attempts);
    AllHolds(keys, k, flight, BEGINNING, attempts);
    forall x: nat ensures EverHas(keys, events, n, x) {
      var p := TilesVisit(flight, BEGINNING, s.pieces, s.at, i, x);
      PieceGetsThrough(keys, events, s.packets, p, n, x);
    }
    MessageGetsThrough(keys, events, n);
  }

  lemma PieceGetsThrough(keys: Schedule, events: seq<Event>, packets: seq<seq<WireRecord>>, p: Todo, n: nat, k: nat)
    requires Sound(keys) && |At(keys, events, |events|).sent| < MESSAGE_SEQS
    requires MessageReceived(keys, events, packets, n) && InPacket(keys, packets, p) && Covers(p, n, k)
    requires p.Sendable() ==> |PlainOf(p)| <= DtlsRecord.MAX_PLAIN_LENGTH
    ensures EverHas(keys, events, n, k)
  {
    var packet, pieces :| packet in packets && Holds(keys, packet, pieces) && p in pieces;
    var q: nat :| q < |pieces| && pieces[q] == p;
    assert Carries(keys, packet[q], p) && OfMessage(p, n);
    hide At, RecordComes, Carries, Holds, WorldHas;
    var j: nat :| RecordComes(keys, events, packet, q, n, j);
    ComingBrings(keys, events, packet, q, p, n, k, j);
    assert WorldHas(At(keys, events, j + 1), n, k);
  }
}
