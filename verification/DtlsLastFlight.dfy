// The last flight of a handshake, whose one datagram holds records of two
// epochs, in a run that delivers both of its messages.

module DtlsLastFlight {
  import opened Bytes
  import opened DtlsFragment
  import DtlsRecord
  import DtlsReplay
  import opened DtlsWriter
  import opened DtlsFlight
  import opened DtlsEndToEnd
  import opened DtlsDelivery
  import opened DtlsArrival
  import opened DtlsRuns
  import DtlsReader

  // ------------------------------------------------------------------
  // The flight in one packet

  // A message that fits one record.
  predicate Short(h: Handshake) {
    HM_HEADER_LENGTH + |h.body| <= DtlsRecord.MAX_PLAIN_LENGTH
  }

  function Queue(n: nat, h: Handshake, epoch: nat): Outgoing
    requires n < MESSAGE_SEQS && Short(h)
  {
    Outgoing(RawMessage(n, h.typ, h.body), epoch, false)
  }

  // A message and a ChangeCipherSpec of epoch 0, and a message of epoch 1.
  function LastFlight(x: Handshake, y: Handshake): (f: seq<Outgoing>)
    requires Short(x) && Short(y)
    ensures |f| == 3
  {
    [Queue(0, x, 0), Outgoing([], 0, true), Queue(1, y, 1)]
  }

  // The keys after the key change, with this many records sealed under each.
  function BothKeys(current: nat, last: nat): Keys {
    Keys(Half(1, current, NullAead()), Half(0, last, NullAead()))
  }

  function Whole(n: nat, h: Handshake): Todo {
    Piece(Header(h.typ, |h.body|, n, 0, |h.body|), h.body)
  }

  function WholeRecord(n: nat, h: Handshake, epoch: nat): WireRecord
    requires n < MESSAGE_SEQS && Short(h) && epoch < DtlsRecord.EPOCHS
  {
    Record(DtlsRecord.RT_HANDSHAKE, 0xfeff, epoch, 0, RawMessage(n, h.typ, h.body))
  }

  function CcsRecord(): WireRecord {
    Record(DtlsRecord.RT_CHANGE_CIPHER_SPEC, 0xfeff, 0, 1, CCS_BODY)
  }

  function LastPacket(x: Handshake, y: Handshake): (p: seq<WireRecord>)
    requires Short(x) && Short(y)
    ensures |p| == 3
  {
    [WholeRecord(0, x, 0), CcsRecord(), WholeRecord(1, y, 1)]
  }

  function LastPieces(x: Handshake, y: Handshake): (p: seq<Todo>)
    ensures |p| == 3
  {
    [Whole(0, x), ChangeCipherSpec, Whole(1, y)]
  }

  function SizeOf(h: Handshake): nat {
    DtlsRecord.RT_HEADER_LENGTH + HM_HEADER_LENGTH + |h.body|
  }

  // One turn that ends a message.
  lemma TurnEnds(k: Keys, flight: seq<Outgoing>, i: nat, room: nat, r: WireRecord, piece: Todo, n: nat, rest: Packet)
    requires KeysOk(k) && i < |flight| && SealNext(k, flight[i], 0, room) == SealProgress(r, piece, n) && piece.Ends()
    requires SealLoop(Used(k, flight[i], n), flight, Position(i + 1, 0), room - r.Size()) == rest
    ensures SealLoop(k, flight, Position(i, 0), room) == Prepend(r, piece, rest)
  {
    hide SealNext, Used;
  }

  lemma FirstIsSealed(x: Handshake, y: Handshake, room: nat)
    requires Short(x) && Short(y) && SizeOf(x) < room
    ensures SealNext(BothKeys(0, 0), Queue(0, x, 0), 0, room) == SealProgress(WholeRecord(0, x, 0), Whole(0, x), 1)
    ensures Used(BothKeys(0, 0), Queue(0, x, 0), 1) == BothKeys(0, 1) && WholeRecord(0, x, 0).Size() == SizeOf(x)
    ensures KeysOk(BothKeys(0, 0)) && Whole(0, x).Ends() && LastFlight(x, y)[0] == Queue(0, x, 0)
  {
    RawIsWhole(0, x.typ, x.body);
  }

  lemma CcsIsSealed(room: nat)
    requires 14 <= room
    ensures SealNext(BothKeys(0, 1), Outgoing([], 0, true), 0, room) == SealProgress(CcsRecord(), ChangeCipherSpec, 2)
    ensures Used(BothKeys(0, 1), Outgoing([], 0, true), 2) == BothKeys(0, 2) && CcsRecord().Size() == 14
  {}

  lemma LastIsSealed(y: Handshake, room: nat)
    requires Short(y) && SizeOf(y) < room
    ensures SealNext(BothKeys(0, 2), Queue(1, y, 1), 0, room) == SealProgress(WholeRecord(1, y, 1), Whole(1, y), 1)
    ensures Used(BothKeys(0, 2), Queue(1, y, 1), 1) == BothKeys(1, 2) && WholeRecord(1, y, 1).Size() == SizeOf(y)
  {
    RawIsWhole(1, y.typ, y.body);
  }

  // What is sealed behind the first message.
  function LastTwo(y: Handshake): Packet
    requires Short(y)
  {
    var end := Packet(true, [], [], BothKeys(1, 2), Position(3, 0));
    Prepend(CcsRecord(), ChangeCipherSpec, Prepend(WholeRecord(1, y, 1), Whole(1, y), end))
  }

  lemma LoopSealsTwo(x: Handshake, y: Handshake, room: nat)
    requires Short(x) && Short(y) && 14 + SizeOf(y) < room
    ensures SealLoop(BothKeys(0, 1), LastFlight(x, y), Position(1, 0), room) == LastTwo(y)
  {
    hide SealNext, RawMessage, Queue, WholeRecord, CcsRecord, Prepend;
    var flight, end := LastFlight(x, y), Packet(true, [], [], BothKeys(1, 2), Position(3, 0));
    var r, p := WholeRecord(1, y, 1), Whole(1, y);
    CcsIsSealed(room);
    LastIsSealed(y, room - 14);
    TurnEnds(BothKeys(0, 2), flight, 2, room - 14, r, p, 1, end);
    TurnEnds(BothKeys(0, 1), flight, 1, room, CcsRecord(), ChangeCipherSpec, 2, Prepend(r, p, end));
  }

  lemma PacketIs(x: Handshake, y: Handshake)
    requires Short(x) && Short(y)
    ensures Prepend(WholeRecord(0, x, 0), Whole(0, x), LastTwo(y))
      == Packet(true, LastPacket(x, y), LastPieces(x, y), BothKeys(1, 2), Position(3, 0))
  {
    hide RawMessage, BothKeys;
  }

  lemma LoopSealsAll(x: Handshake, y: Handshake, mtu: nat)
    requires Short(x) && Short(y) && SizeOf(x) + 14 + SizeOf(y) < mtu
    ensures SealLoop(BothKeys(0, 0), LastFlight(x, y), BEGINNING, mtu)
      == Packet(true, LastPacket(x, y), LastPieces(x, y), BothKeys(1, 2), Position(3, 0))
  {
    hide SealNext, RawMessage, BothKeys, Used, SealLoop, Queue, WholeRecord, LastTwo, LastPacket, LastPieces,
         LastFlight, Whole, Prepend, KeysOk, NullAead;
    LoopSealsTwo(x, y, mtu - SizeOf(x));
    FirstIsSealed(x, y, mtu);
    PacketIs(x, y);
    TurnEnds(BothKeys(0, 0), LastFlight(x, y), 0, mtu, WholeRecord(0, x, 0), Whole(0, x), 1, LastTwo(y));
  }

  lemma FlightIsOnePacket(x: Handshake, y: Handshake, mtu: nat)
    requires Short(x) && Short(y) && SizeOf(x) + 14 + SizeOf(y) < mtu
    ensures SendFlight(BothKeys(0, 0), LastFlight(x, y), BEGINNING, mtu, [])
      == Sent(FlightDone, [LastPacket(x, y)], LastPieces(x, y), BothKeys(1, 2), Position(3, 0))
  {
    LoopSealsAll(x, y, mtu);
    hide SealLoop, LastPacket, LastPieces, LastFlight;
    var end := SendFlight(BothKeys(1, 2), LastFlight(x, y), Position(3, 0), mtu, []);
    assert end == Sent(FlightDone, [], [], BothKeys(1, 2), Position(3, 0));
    assert [LastPacket(x, y)] + [] == [LastPacket(x, y)] && LastPieces(x, y) + [] == LastPieces(x, y);
  }

  // ------------------------------------------------------------------
  // The run

  function LastRun(x: Handshake, y: Handshake, mtu: nat, maxLen: nat): (events: seq<Event>)
    requires Short(x) && Short(y)
    ensures |events| == 12
  {
    [AddMessage(x.typ, x.body), AddChangeCipherSpec, ChangeWriteKeys, AddMessage(y.typ, y.body), Flush(mtu, []),
     Arrive(Datagram(LastPacket(x, y))), OpenHandshake(maxLen), GetMessage, NextMessage,
     OpenChangeCipherSpec(maxLen), ChangeReadKeys, OpenHandshake(maxLen)]
  }

  // The sender's half.
  lemma QueuesOne(w: World, k: Keys, n: nat, flight: seq<Outgoing>, h: Handshake)
    requires WorldOk(w) && w.writer == Writer(k, n, flight, BEGINNING, false) && |flight| < MAX_FLIGHT
    requires n + 1 < MESSAGE_SEQS && Short(h)
    ensures Step(Unprotected(), w, AddMessage(h.typ, h.body))
      == w.(writer := Writer(k, n + 1, flight + [Queue(n, h, k.current.epoch)], BEGINNING, false), sent := w.sent + [h])
  {
    hide BuildMessage, HeaderBytes;
    BuildIsSingleFragment(n, h.typ, h.body);
  }

  lemma QueuesCcs(w: World, k: Keys, n: nat, flight: seq<Outgoing>)
    requires WorldOk(w) && w.writer == Writer(k, n, flight, BEGINNING, false) && |flight| < MAX_FLIGHT
    ensures Step(Unprotected(), w, AddChangeCipherSpec)
      == w.(writer := Writer(k, n, flight + [Outgoing([], k.current.epoch, true)], BEGINNING, false))
  {}

  lemma ChangesKeys(w: World, n: nat, flight: seq<Outgoing>)
    requires WorldOk(w) && w.writer == Writer(KeysAt(0), n, flight, BEGINNING, false)
    ensures Step(Unprotected(), w, ChangeWriteKeys) == w.(writer := Writer(BothKeys(0, 0), n, flight, BEGINNING, false))
  {}

  lemma StartsAt(keys: Schedule, events: seq<Event>)
    requires Sound(keys)
    ensures At(keys, events, 0) == Initial(keys)
  {}

  // A world in which nothing was sent yet.
  function Sending(k: Keys, flight: seq<Outgoing>, sent: seq<Handshake>): World {
    Initial(Unprotected()).(writer := Writer(k, |sent|, flight, BEGINNING, false), sent := sent)
  }

  lemma CcsIsQueued(x: Handshake, y: Handshake, mtu: nat, maxLen: nat)
    requires Short(x) && Short(y) && Sound(Unprotected())
    ensures At(Unprotected(), LastRun(x, y, mtu, maxLen), 2)
      == Sending(KeysAt(0), [Queue(0, x, 0), Outgoing([], 0, true)], [x])
  {
    hide Step, Datagram, LastPacket, Queue, At, WorldOk;
    var events := LastRun(x, y, mtu, maxLen);
    StartsAt(Unprotected(), events);
    QueuesOne(At(Unprotected(), events, 0), KeysAt(0), 0, [], x);
    NextAt(Unprotected(), events, 0);
    QueuesCcs(At(Unprotected(), events, 1), KeysAt(0), 1, [Queue(0, x, 0)]);
    NextAt(Unprotected(), events, 1);
  }

  lemma FlightIsQueued(x: Handshake, y: Handshake, mtu: nat, maxLen: nat)
    requires Short(x) && Short(y) && Sound(Unprotected())
    ensures At(Unprotected(), LastRun(x, y, mtu, maxLen), 4) == Sending(BothKeys(0, 0), LastFlight(x, y), [x, y])
  {
    hide Step, Datagram, LastPacket, Queue, At, WorldOk;
    var events, flight := LastRun(x, y, mtu, maxLen), [Queue(0, x, 0), Outgoing([], 0, true)];
    CcsIsQueued(x, y, mtu, maxLen);
    ChangesKeys(At(Unprotected(), events, 2), 1, flight);
    NextAt(Unprotected(), events, 2);
    QueuesOne(At(Unprotected(), events, 3), BothKeys(0, 0), 1, flight, y);
    NextAt(Unprotected(), events, 3);
  }

  lemma PacketIsSent(x: Handshake, y: Handshake, mtu: nat, maxLen: nat)
    requires Short(x) && Short(y) && SizeOf(x) + 14 + SizeOf(y) < mtu && Sound(Unprotected())
    ensures var w := At(Unprotected(), LastRun(x, y, mtu, maxLen), 5);
      w.sent == [x, y] && w.reader == DtlsReader.Initial(NullAead()) && Datagram(LastPacket(x, y)) in w.network
  {
    hide Datagram, LastPacket, SendFlight, LastFlight, At;
    var events := LastRun(x, y, mtu, maxLen);
    FlightIsQueued(x, y, mtu, maxLen);
    NextAt(Unprotected(), events, 4);
    FlightIsOnePacket(x, y, mtu);
    assert LastPacket(x, y) in [LastPacket(x, y)];
  }

  lemma PacketArrives(x: Handshake, y: Handshake, mtu: nat, maxLen: nat)
    requires Short(x) && Short(y) && SizeOf(x) + 14 + SizeOf(y) < mtu && Sound(Unprotected())
    ensures var events := LastRun(x, y, mtu, maxLen);
      var w := At(Unprotected(), events, 6);
      w.sent == [x, y] && w.reader == DtlsReader.Initial(NullAead()) && AtHand(Unprotected(), events, LastPacket(x, y), 0, 6)
  {
    hide Datagram, LastPacket, At;
    PacketIsSent(x, y, mtu, maxLen);
    NextAt(Unprotected(), LastRun(x, y, mtu, maxLen), 5);
  }

  // Only the slot of message 0 is taken, by a complete message.
  predicate FirstOnly(r: Receiver) {
    && r.readSeq == 0 && |r.slots| == MAX_FLIGHT && r.CurrentComplete()
    && forall i :: 0 < i < MAX_FLIGHT ==> r.slots[i] == None
  }

  lemma FirstIsProcessed(x: Handshake, maxLen: nat)
    requires Short(x) && |x.body| <= maxLen
    ensures FirstOnly(ProcessRecord(Receiver(0, NO_MESSAGES), 0, maxLen, RawMessage(0, x.typ, x.body)).to)
  {
    OneFragment(Receiver(0, NO_MESSAGES), 0, maxLen, Header(x.typ, |x.body|, 0, 0, |x.body|), x.body);
  }

  // The reader between the first and the last message: message 0 may be in
  // hand or taken, and the epoch is the old one.
  ghost predicate Midway(s: DtlsReader.State) {
    !s.hasCcs && s.layer.epoch == 0 && s.layer.aead == NullAead()
  }

  lemma FirstIsOpened(x: Handshake, maxLen: nat, rest: seq<byte>)
    requires Short(x) && |x.body| <= maxLen && Sound(Unprotected())
    ensures var o := DtlsReader.OpenHandshake(DtlsReader.Initial(NullAead()), maxLen, WireBytes(WholeRecord(0, x, 0)) + rest);
      FirstOnly(o.to.receiver) && Midway(o.to) && !o.to.hasMessage
  {
    hide ProcessRecord, RawMessage, FirstOnly, DtlsReplay.Record, WireBytes;
    var r, l := WholeRecord(0, x, 0), DtlsRecord.Layer(0, DtlsReplay.EMPTY, NullAead());
    FirstIsProcessed(x, maxLen);
    CarriesWhole(0, x, 0);
    assert !DtlsReplay.ShouldDiscard(DtlsReplay.EMPTY, 0);
    FreshIsOpened(Unprotected(), l, r, Whole(0, x), rest);
  }

  lemma CarriesWhole(n: nat, h: Handshake, epoch: nat)
    requires n < MESSAGE_SEQS && Short(h) && epoch < DtlsRecord.EPOCHS
    ensures Carries(Unprotected(), WholeRecord(n, h, epoch), Whole(n, h)) && |PlainOf(Whole(n, h))| <= DtlsRecord.MAX_PLAIN_LENGTH
    ensures PlainOf(Whole(n, h)) == RawMessage(n, h.typ, h.body)
  {}

  lemma FetchesFirst(w: World)
    requires WorldOk(w) && FirstOnly(w.reader.receiver) && Midway(w.reader) && !w.reader.hasMessage
    ensures var w' := Step(Unprotected(), w, GetMessage);
      w' == w.(reader := w.reader.(hasMessage := true), delivered := w'.delivered)
  {}

  lemma ConsumesFirst(w: World)
    requires WorldOk(w) && FirstOnly(w.reader.receiver) && Midway(w.reader) && w.reader.hasMessage
    ensures var w' := Step(Unprotected(), w, NextMessage);
      w' == w.(reader := w'.reader) && w'.reader.receiver == Receiver(1, NO_MESSAGES) && Midway(w'.reader)
  {}

  // The first message is opened, fetched and consumed.
  lemma FirstComesIn(x: Handshake, y: Handshake, mtu: nat, maxLen: nat)
    requires Short(x) && Short(y) && SizeOf(x) + 14 + SizeOf(y) < mtu && |x.body| <= maxLen && Sound(Unprotected())
    ensures var events := LastRun(x, y, mtu, maxLen);
      var w := At(Unprotected(), events, 7);
      && w.sent == [x, y] && FirstOnly(w.reader.receiver) && Midway(w.reader) && !w.reader.hasMessage
      && AtHand(Unprotected(), events, LastPacket(x, y), 1, 7)
  {
    hide Datagram, At, DtlsReader.OpenHandshake, FirstOnly, Midway;
    var events, packet := LastRun(x, y, mtu, maxLen), LastPacket(x, y);
    PacketArrives(x, y, mtu, maxLen);
    BufferAt(Unprotected(), events, packet, 0, 6);
    assert packet[0..] == [packet[0]] + packet[1..];
    OneMoreRecordIs(packet[0], packet[1..]);
    FirstIsOpened(x, maxLen, Datagram(packet[1..]));
    NextAt(Unprotected(), events, 6);
  }

  lemma FirstIsTaken(x: Handshake, y: Handshake, mtu: nat, maxLen: nat)
    requires Short(x) && Short(y) && SizeOf(x) + 14 + SizeOf(y) < mtu && |x.body| <= maxLen && Sound(Unprotected())
    ensures var events := LastRun(x, y, mtu, maxLen);
      var w := At(Unprotected(), events, 9);
      && w.sent == [x, y] && w.reader.receiver == Receiver(1, NO_MESSAGES) && Midway(w.reader)
      && AtHand(Unprotected(), events, LastPacket(x, y), 1, 9)
  {
    hide Datagram, At, Step, FirstOnly, LastPacket;
    var events := LastRun(x, y, mtu, maxLen);
    FirstComesIn(x, y, mtu, maxLen);
    FetchesFirst(At(Unprotected(), events, 7));
    NextAt(Unprotected(), events, 7);
    ConsumesFirst(At(Unprotected(), events, 8));
    NextAt(Unprotected(), events, 8);
  }

  // The ChangeCipherSpec is opened, and the epoch changed.
  lemma CcsIsStepped(w: World, maxLen: nat, rest: seq<byte>)
    requires WorldOk(w) && w.reader.receiver == Receiver(1, NO_MESSAGES) && Midway(w.reader)
    requires w.buffer == WireBytes(CcsRecord()) + rest && Sound(Unprotected())
    ensures var w' := Step(Unprotected(), w, OpenChangeCipherSpec(maxLen));
      && w'.sent == w.sent && w'.reader.receiver == w.reader.receiver && Midway(w'.reader)
  {
    hide WireBytes, ProcessRecord;
    OpenUndoesSeal(Unprotected(), w.reader.layer, CcsRecord(), CCS_BODY, rest);
  }

  lemma EpochChanges(w: World)
    requires WorldOk(w) && w.reader.receiver == Receiver(1, NO_MESSAGES) && Midway(w.reader)
    ensures var w' := Step(Unprotected(), w, ChangeReadKeys);
      && w'.sent == w.sent && w'.reader.receiver == Receiver(1, NO_MESSAGES) && !w'.reader.hasCcs
      && w'.reader.layer == DtlsRecord.Layer(1, DtlsReplay.EMPTY, NullAead())
  {}

  lemma EpochIsChanged(x: Handshake, y: Handshake, mtu: nat, maxLen: nat)
    requires Short(x) && Short(y) && SizeOf(x) + 14 + SizeOf(y) < mtu && |x.body| <= maxLen && Sound(Unprotected())
    ensures var events := LastRun(x, y, mtu, maxLen);
      var w := At(Unprotected(), events, 11);
      && w.sent == [x, y] && w.reader.receiver == Receiver(1, NO_MESSAGES) && !w.reader.hasCcs
      && w.reader.layer == DtlsRecord.Layer(1, DtlsReplay.EMPTY, NullAead())
      && AtHand(Unprotected(), events, LastPacket(x, y), 2, 11)
  {
    hide Datagram, At, Step;
    var events, packet := LastRun(x, y, mtu, maxLen), LastPacket(x, y);
    FirstIsTaken(x, y, mtu, maxLen);
    BufferAt(Unprotected(), events, packet, 1, 9);
    assert packet[1..] == [packet[1]] + packet[2..];
    OneMoreRecordIs(packet[1], packet[2..]);
    CcsIsStepped(At(Unprotected(), events, 9), maxLen, Datagram(packet[2..]));
    NextAt(Unprotected(), events, 9);
    EpochChanges(At(Unprotected(), events, 10));
    NextAt(Unprotected(), events, 10);
  }

  // ------------------------------------------------------------------
  // Both messages get through

  // Which message a record of the packet carries.
  lemma CarriedIs(n: nat, h: Handshake, epoch: nat, p: Todo)
    requires n < MESSAGE_SEQS && Short(h) && epoch < DtlsRecord.EPOCHS
    requires Carries(Unprotected(), WholeRecord(n, h, epoch), p) && p.Piece?
    ensures p.hdr.msgSeq == n
  {
    var whole := Header(h.typ, |h.body|, n, 0, |h.body|);
    assert FragmentBytes(whole, h.body) + [] == RawMessage(n, h.typ, h.body) == FragmentBytes(p.hdr, p.body) + [];
    hide FragmentBytes;
    ParseInvertsWrite(whole, h.body, []);
    ParseInvertsWrite(p.hdr, p.body, []);
  }

  lemma CarrierOf(x: Handshake, y: Handshake, q: nat, p: Todo, n: nat)
    requires Short(x) && Short(y) && q < 3 && Carries(Unprotected(), LastPacket(x, y)[q], p) && OfMessage(p, n)
    ensures n == (if q == 0 then 0 else 1) && q != 1
  {
    hide RawMessage;
    if q == 0 {
      CarriedIs(0, x, 0, p);
    } else if q == 2 {
      CarriedIs(1, y, 1, p);
    }
  }

  lemma FirstIsReceived(x: Handshake, y: Handshake, mtu: nat, maxLen: nat)
    requires Short(x) && Short(y) && SizeOf(x) + 14 + SizeOf(y) < mtu && |x.body| <= maxLen && Sound(Unprotected())
    ensures MessageReceived(Unprotected(), LastRun(x, y, mtu, maxLen)[..7], [LastPacket(x, y)], 0)
  {
    hide At, Carries, Datagram;
    var events, packet := LastRun(x, y, mtu, maxLen), LastPacket(x, y);
    var before := events[..7];
    PacketArrives(x, y, mtu, maxLen);
    PacketIsSent(x, y, mtu, maxLen);
    PrefixAt(Unprotected(), events, 7, 5);
    PrefixAt(Unprotected(), events, 7, 6);
    assert AtHand(Unprotected(), before, packet, 0, 6);
    assert !DtlsReplay.ShouldDiscard(DtlsReplay.EMPTY, 0);
    assert RecordComes(Unprotected(), before, packet, 0, 0, 6);
    forall q: nat, p: Todo | q < |packet| && Carries(Unprotected(), packet[q], p) && OfMessage(p, 0) ensures q == 0 {
      CarrierOf(x, y, q, p, 0);
    }
  }

  lemma PrefixAt(keys: Schedule, events: seq<Event>, n: nat, j: nat)
    requires Sound(keys) && j <= n <= |events|
    ensures At(keys, events[..n], j) == At(keys, events, j)
  {
    assert events[..n][..j] == events[..j];
  }

  lemma LastIsReceived(x: Handshake, y: Handshake, mtu: nat, maxLen: nat)
    requires Short(x) && Short(y) && SizeOf(x) + 14 + SizeOf(y) < mtu && Sound(Unprotected())
    requires |x.body| <= maxLen && |y.body| <= maxLen
    ensures MessageReceived(Unprotected(), LastRun(x, y, mtu, maxLen), [LastPacket(x, y)], 1)
  {
    hide At, Carries, Datagram, AtHand;
    var events, packet := LastRun(x, y, mtu, maxLen), LastPacket(x, y);
    EpochIsChanged(x, y, mtu, maxLen);
    assert !DtlsReplay.ShouldDiscard(DtlsReplay.EMPTY, DtlsRecord.Number(1, 0));
    assert RecordComes(Unprotected(), events, packet, 2, 1, 11);
    forall q: nat, p: Todo | q < |packet| && Carries(Unprotected(), packet[q], p) && OfMessage(p, 1) ensures q == 2 {
      CarrierOf(x, y, q, p, 1);
    }
  }

  lemma LastIsOpened(x: Handshake, y: Handshake, mtu: nat, maxLen: nat)
    requires Short(x) && Short(y) && SizeOf(x) + 14 + SizeOf(y) < mtu && |x.body| <= maxLen && Sound(Unprotected())
    ensures var w := At(Unprotected(), LastRun(x, y, mtu, maxLen), 12);
      w.sent == [x, y] && w.reader.receiver.readSeq == 1
  {
    hide At, DtlsReader.OpenHandshake, AtHand, Inv, LastPacket, Datagram;
    var events := LastRun(x, y, mtu, maxLen);
    var w := At(Unprotected(), events, 11);
    EpochIsChanged(x, y, mtu, maxLen);
    AtHasInv(Unprotected(), events, 11, 11);
    OpensInPlace(Unprotected(), w, maxLen);
    NextAt(Unprotected(), events, 11);
  }

  lemma OpensInPlace(keys: Schedule, w: World, maxLen: nat)
    requires Sound(keys) && Inv(keys, w)
    ensures DtlsReader.OpenHandshake(w.reader, maxLen, w.buffer).to.receiver.readSeq == w.reader.receiver.readSeq
  {
    OpenAdvances(keys, w.sent, w.reader, maxLen, w.buffer);
  }

  // The flight as one call sends it.
  lemma FlightIsSent(x: Handshake, y: Handshake, mtu: nat)
    requires Short(x) && Short(y) && SizeOf(x) + 14 + SizeOf(y) < mtu
    ensures SendAll(BothKeys(0, 0), LastFlight(x, y), BEGINNING, [Attempt(mtu, [])])
      == Sent(FlightDone, [LastPacket(x, y)], LastPieces(x, y), BothKeys(1, 2), Position(3, 0))
  {
    hide SendFlight, LastFlight, LastPacket, LastPieces;
    FlightIsOnePacket(x, y, mtu);
    var attempts := [Attempt(mtu, [])];
    assert attempts[1..] == [] && [LastPacket(x, y)] + [] == [LastPacket(x, y)] && LastPieces(x, y) + [] == LastPieces(x, y);
    assert SendAll(BothKeys(1, 2), LastFlight(x, y), Position(3, 0), []) == Sent(FlightDone, [], [], BothKeys(1, 2), Position(3, 0));
  }

  lemma QueuedIs(n: nat, h: Handshake, epoch: nat, sent: seq<Handshake>)
    requires n < MESSAGE_SEQS && Short(h) && n < |sent| && sent[n] == h
    ensures IsMessage(Queue(n, h, epoch)) && SeqOf(Queue(n, h, epoch)) == n && Queued(sent, Queue(n, h, epoch))
  {
    hide RawMessage;
    RawIsWhole(n, h.typ, h.body);
  }

  lemma PiecesAreShort(x: Handshake, y: Handshake, p: Todo)
    requires Short(x) && Short(y) && p in LastPieces(x, y) && p.Sendable()
    ensures |PlainOf(p)| <= DtlsRecord.MAX_PLAIN_LENGTH
  {
    hide HeaderBytes;
  }

  // A message and a ChangeCipherSpec of one epoch and a message of the next
  // go into one packet. In this run it arrives once, and both messages are
  // delivered: the second after the epoch was changed with its record still
  // in the buffer.
  lemma LastFlightGetsThrough(x: Handshake, y: Handshake, mtu: nat, maxLen: nat) returns (events: seq<Event>)
    requires Short(x) && Short(y) && SizeOf(x) + 14 + SizeOf(y) < mtu && |x.body| <= maxLen && |y.body| <= maxLen
    ensures Sound(Unprotected()) && |events| == 12 && events[4] == Flush(mtu, [])
    ensures var w := At(Unprotected(), events, 4).writer;
      && w == Writer(BothKeys(0, 0), 2, LastFlight(x, y), BEGINNING, false)
      && SendAll(w.keys, w.flight, BEGINNING, [Attempt(mtu, [])]).packets == [LastPacket(x, y)]
    ensures MessageReceived(Unprotected(), events[..7], [LastPacket(x, y)], 0)
    ensures MessageReceived(Unprotected(), events, [LastPacket(x, y)], 1)
    ensures DtlsReader.GetMessage(At(Unprotected(), events, 7).reader) == Some(Expected([x, y], 0))
    ensures DtlsReader.GetMessage(At(Unprotected(), events, 12).reader) == Some(Expected([x, y], 1))
  {
    hide At, MessageReceived, SendAll, LastFlight, LastPacket, LastPieces, Midway, AtHand, Datagram, Expected,
         DtlsReader.GetMessage, Sound;
    events := LastRun(x, y, mtu, maxLen);
    SoundIs();
    FlightIsQueued(x, y, mtu, maxLen);
    FlightIsSent(x, y, mtu);
    FirstIsReceived(x, y, mtu, maxLen);
    LastIsReceived(x, y, mtu, maxLen);
    FirstComesIn(x, y, mtu, maxLen);
    LastIsOpened(x, y, mtu, maxLen);
    PrefixAt(Unprotected(), events, 7, 7);
    assert events[..12] == events;
    Delivers(x, y, mtu, events[..7], 0);
    Delivers(x, y, mtu, events, 1);
  }

  lemma SoundIs()
    ensures Sound(Unprotected())
  {}

  lemma Delivers(x: Handshake, y: Handshake, mtu: nat, events: seq<Event>, n: nat)
    requires Short(x) && Short(y) && SizeOf(x) + 14 + SizeOf(y) < mtu && n < 2 && Sound(Unprotected())
    requires var w := At(Unprotected(), events, |events|); w.sent == [x, y] && w.reader.receiver.readSeq == n
    requires MessageReceived(Unprotected(), events, [LastPacket(x, y)], n)
    ensures DtlsReader.GetMessage(At(Unprotected(), events, |events|).reader) == Some(Expected([x, y], n))
  {
    hide At, MessageReceived, SendAll, LastPieces, LastPacket, Queued, IsMessage, SeqOf, Queue;
    FlightIsSent(x, y, mtu);
    var h, i := [x, y][n], 2 * n;
    QueuedIs(n, h, n, [x, y]);
    forall p | p in LastPieces(x, y) && p.Sendable() ensures |PlainOf(p)| <= DtlsRecord.MAX_PLAIN_LENGTH {
      PiecesAreShort(x, y, p);
    }
    FlightGetsThrough(Unprotected(), events, BothKeys(0, 0), LastFlight(x, y), [Attempt(mtu, [])], i);
  }
}
