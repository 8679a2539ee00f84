// Seal errors in the runs of DtlsEndToEnd: which guards can fail there, and a
// run in which a piece is left out.

module DtlsLossRuns {
  import opened Bytes
  import opened DtlsFragment
  import DtlsRecord
  import opened DtlsWriter
  import opened DtlsFlight
  import opened DtlsLoss
  import opened DtlsEndToEnd
  import opened DtlsRuns
  import DtlsReader

  // ------------------------------------------------------------------
  // What every queue is like

  // Whole messages, the later of no earlier epoch, and none of the future.
  ghost predicate QueueOk(w: Writer) {
    && WriterOk(w) && CursorOk(w.flight, w.at)
    && (forall m :: m in w.flight ==> m.epoch <= w.keys.current.epoch && (m.isCcs || IsMessage(m)))
    && forall i, j :: 0 <= i <= j < |w.flight| ==> w.flight[i].epoch <= w.flight[j].epoch
  }

  ghost predicate WriterSane(keys: Schedule, w: Writer) {
    OnSchedule(keys, w.keys) && QueueOk(w)
  }

  lemma AddStaysSane(keys: Schedule, w: Writer, isCcs: bool, data: seq<byte>)
    requires WriterSane(keys, w) && (isCcs || IsMessage(Outgoing(data, w.keys.current.epoch, false)))
    ensures WriterSane(keys, AddOutgoing(w, isCcs, data).to)
  {}

  lemma {:induction false} LoopKeepsKeys(k: Keys, flight: seq<Outgoing>, at: Position, room: nat)
    requires KeysOk(k) && at.written <= |flight|
    ensures var p := SealLoop(k, flight, at, room); SameButNumbers(k, p.keys)
    decreases |flight| - at.written
  {
    hide SealNext;
    if at.written < |flight| {
      var r := SealNext(k, flight[at.written], at.offset, room);
      if r.SealProgress? && r.piece.Ends() {
        LoopKeepsKeys(Used(k, flight[at.written], r.sequence), flight, After(at, r.piece), room - r.record.Size());
      }
    }
  }

  ghost predicate SameButNumbers(k: Keys, k': Keys) {
    k' == Keys(k.current.(sequence := k'.current.sequence), k.last.(sequence := k'.last.sequence))
  }

  lemma {:induction false} SendStaysSane(k: Keys, flight: seq<Outgoing>, at: Position, mtu: nat, bio: seq<bool>)
    requires KeysOk(k) && CursorOk(flight, at)
    ensures var s := SendFlight(k, flight, at, mtu, bio);
      SameButNumbers(k, s.keys) && CursorOk(flight, s.at)
    decreases |flight| - at.written, 0x100_0000 - at.offset
  {
    hide SealLoop;
    if at.written < |flight| {
      LoopKeepsKeys(k, flight, at, mtu);
      PacketTiles(k, flight, at, mtu);
      var p := SealPacket(k, flight, at, mtu);
      if p.ok && (bio == [] || bio[0]) {
        SendStaysSane(p.keys, flight, p.at, mtu, if bio == [] then [] else bio[1..]);
      }
    }
  }

  lemma TransmitStaysSane(keys: Schedule, w: World, from: Position, complete: bool, mtu: nat, bio: seq<bool>)
    requires WriterSane(keys, w.writer) && CursorOk(w.writer.flight, from)
    ensures WriterSane(keys, Transmit(w, from, complete, mtu, bio).writer)
  {
    SendStaysSane(w.writer.keys, w.writer.flight, from, mtu, bio);
  }

  lemma StepStaysSane(keys: Schedule, w: World, e: Event)
    requires Sound(keys) && WorldOk(w) && WriterSane(keys, w.writer)
    ensures WriterSane(keys, Step(keys, w, e).writer)
  {
    match e
    case AddMessage(typ, body) =>
      BuildIsSingleFragment(w.writer.messageSeq, typ, body);
      if |body| < 0x100_0000 {
        RawIsWhole(w.writer.messageSeq, typ, body);
        AddStaysSane(keys, w.writer, false, RawMessage(w.writer.messageSeq, typ, body));
      }
    case AddChangeCipherSpec => AddStaysSane(keys, w.writer, true, []);
    case ChangeWriteKeys => assert keys(w.writer.keys.current.epoch + 1).Correct();
    case Flush(mtu, bio) => TransmitStaysSane(keys, w, w.writer.at, true, mtu, bio);
    case Retransmit(mtu, bio) => TransmitStaysSane(keys, w, BEGINNING, w.writer.complete, mtu, bio);
    case _ => assert Step(keys, w, e).writer == w.writer;
  }

  lemma {:induction false} RunStaysSane(keys: Schedule, events: seq<Event>)
    requires Sound(keys)
    ensures WriterSane(keys, Execute(keys, events).writer)
  {
    if events == [] {
      assert keys(0).Correct();
    } else {
      var w := Execute(keys, events[..|events| - 1]);
      RunStaysSane(keys, events[..|events| - 1]);
      StepStaysSane(keys, w, events[|events| - 1]);
    }
  }

  // Behind a message whose epoch is known all are known, and all are whole. So
  // in every run only two guards can fail a turn behind a sealed record: the
  // last record number, and a ciphertext of 2^16 bytes or more.
  lemma GuardsInRuns(keys: Schedule, events: seq<Event>, i: nat, j: nat, k: Keys, offset: nat, room: nat)
    requires Sound(keys)
    requires var w := Execute(keys, events).writer;
      && i <= j < |w.flight| && EpochKnown(w.keys, w.flight[i]) && SameButNumbers(w.keys, k)
      && (IsMessage(w.flight[j]) ==> offset <= |BodyOf(w.flight[j])|)
    ensures var m := Execute(keys, events).writer.flight[j];
      var piece := NextPiece(HalfFor(k, m).aead, m, offset, room);
      TurnFails(k, m, offset, room) <==>
        piece.Sendable() && (HalfFor(k, m).sequence == DtlsRecord.SEQUENCES - 1 || |Ciphertext(k, m, piece)| >= 0x1_0000)
  {
    RunStaysSane(keys, events);
    var w := Execute(keys, events).writer;
    hide Execute, TurnFails, NextPiece;
    var m := w.flight[j];
    assert m in w.flight && w.flight[i].epoch <= m.epoch <= w.keys.current.epoch;
    assert keys(w.keys.current.epoch).Correct() && keys(w.keys.last.epoch).Correct();
    assert Sealable(k, m);
    OnlyLimitsFail(k, m, offset, room);
  }

  // ------------------------------------------------------------------
  // A run that leaves a message out

  // A message too long for one record, at an MTU that would take it, behind a
  // message that was sealed: nothing is written, and the cursor has passed the
  // first message.
  lemma LargeMessageLoses(body: seq<byte>, mtu: nat)
    requires 0x1_0000 <= HM_HEADER_LENGTH + |body| && |body| < 0x100_0000
    requires 2 * (DtlsRecord.RT_HEADER_LENGTH + HM_HEADER_LENGTH) + |body| <= mtu
    ensures var large := Outgoing(RawMessage(1, 1, body), 0, false);
      SendFlight(KeysAt(0), [Empty(0, 1), large], BEGINNING, mtu, []) == Sent(SendFailed, [], [], KeysAt(2), Position(1, 0))
  {
    var large := Outgoing(RawMessage(1, 1, body), 0, false);
    FirstIsSealed(mtu);
    LargeIsError(body, mtu - Carrier(0, 0, 1).Size());
    SecondFails(KeysAt(0), Empty(0, 1), large, mtu, Carrier(0, 0, 1), Piece(Header(1, 0, 0, 0, 0), []), 1, 2);
  }

  lemma SecondFails(k: Keys, first: Outgoing, second: Outgoing, mtu: nat, r: WireRecord, piece: Todo, n: nat, n': nat)
    requires KeysOk(k) && SealNext(k, first, 0, mtu) == SealProgress(r, piece, n) && piece.Ends()
    requires SealNext(Used(k, first, n), second, 0, mtu - r.Size()) == SealError(n')
    ensures SendFlight(k, [first, second], BEGINNING, mtu, [])
      == Sent(SendFailed, [], [], Used(Used(k, first, n), second, n'), Position(1, 0))
  {
    hide SealNext, Used;
    var flight, keys := [first, second], Used(k, first, n);
    var p, q := SealLoop(k, flight, BEGINNING, mtu), SealLoop(keys, flight, Position(1, 0), mtu - r.Size());
    assert q == Packet(false, [], [], Used(keys, second, n'), Position(1, 0));
    assert p == Prepend(r, piece, q);
  }

  lemma FirstIsSealed(mtu: nat)
    requires DtlsRecord.RT_HEADER_LENGTH + HM_HEADER_LENGTH + 1 <= mtu
    ensures SealNext(KeysAt(0), Empty(0, 1), 0, mtu) == SealProgress(Carrier(0, 0, 1), Piece(Header(1, 0, 0, 0, 0), []), 1)
  {
    RawIsWhole(0, 1, []);
  }

  lemma LargeIsError(body: seq<byte>, room: nat)
    requires 0x1_0000 <= HM_HEADER_LENGTH + |body| && |body| < 0x100_0000
    requires DtlsRecord.RT_HEADER_LENGTH + HM_HEADER_LENGTH + |body| <= room
    ensures SealNext(KeysAt(1), Outgoing(RawMessage(1, 1, body), 0, false), 0, room) == SealError(2)
  {
    RawIsWhole(1, 1, body);
  }

  lemma LargeMessageIsSkipped(body: seq<byte>, mtu: nat) returns (w: World)
    requires 0x1_0000 <= HM_HEADER_LENGTH + |body| && |body| < 0x100_0000
    requires 2 * (DtlsRecord.RT_HEADER_LENGTH + HM_HEADER_LENGTH) + |body| <= mtu
    ensures Reached(w) && w.sent == [Handshake(1, []), Handshake(1, body)] && w.network == {} && w.writer.at == BEGINNING
    ensures var w' := Step(Unprotected(), w, Flush(mtu, [])); w'.network == {} && w'.writer.at == Position(1, 0)
  {
    hide SendFlight, Reached, Datagram;
    var w0 := InitialIsReached();
    AddsEmpty(w0, 0);
    var w1 := Take(w0, AddMessage(1, []));
    BuildIsSingleFragment(1, 1, body);
    w := Take(w1, AddMessage(1, body));
    var large := Outgoing(RawMessage(1, 1, body), 0, false);
    assert w.writer == Writer(KeysAt(0), 2, [Empty(0, 1), large], BEGINNING, false);
    LargeMessageLoses(body, mtu);
    var none: seq<seq<WireRecord>> := [];
    assert (set p | p in none :: Datagram(p)) == {};
  }
}
