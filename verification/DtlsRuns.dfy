// Runs without protection, of which counterexamples are made.

module DtlsRuns {
  import opened Bytes
  import opened DtlsFragment
  import DtlsRecord
  import DtlsReplay
  import opened DtlsWriter
  import opened DtlsFlight
  import opened DtlsEndToEnd
  import DtlsReader

  // The cipher of epoch 0.
  function NullAead(): DtlsRecord.Aead {
    DtlsRecord.Aead(true, 0xfeff, 0, 0, (n, t, v, x) => x, (n, t, v, x) => Some(x))
  }

  function Unprotected(): Schedule {
    e => NullAead()
  }

  ghost predicate Reached(w: World) {
    Sound(Unprotected()) && exists events :: Execute(Unprotected(), events) == w
  }

  lemma Take(w: World, e: Event) returns (w': World)
    requires Reached(w)
    ensures Reached(w') && WorldOk(w) && w' == Step(Unprotected(), w, e)
  {
    var events :| Execute(Unprotected(), events) == w;
    w' := Step(Unprotected(), w, e);
    assert (events + [e])[..|events|] == events;
    assert Execute(Unprotected(), events + [e]) == w';
  }

  // ------------------------------------------------------------------
  // Empty messages, each in one record

  const MTU := 100

  function Empty(n: nat, typ: byte): Outgoing
    requires n < MESSAGE_SEQS
  {
    Outgoing(RawMessage(n, typ, []), 0, false)
  }

  function Carrier(s: nat, n: nat, typ: byte): WireRecord
    requires s < DtlsRecord.SEQUENCES && n < MESSAGE_SEQS
  {
    Record(DtlsRecord.RT_HANDSHAKE, 0xfeff, 0, s, RawMessage(n, typ, []))
  }

  function KeysAt(s: nat): Keys {
    Keys(Half(0, s, NullAead()), Half(0, 0, NullAead()))
  }

  lemma EmptyIsSealed(s: nat, n: nat, typ: byte)
    requires s < DtlsRecord.SEQUENCES - 1 && n < MESSAGE_SEQS
    ensures var sent := SendFlight(KeysAt(s), [Empty(n, typ)], BEGINNING, MTU, []);
      sent.packets == [[Carrier(s, n, typ)]] && sent.keys == KeysAt(s + 1) && sent.at.written == 1
  {
    RawIsWhole(n, typ, []);
    var m, r := Empty(n, typ), Carrier(s, n, typ);
    var piece := Piece(Header(typ, 0, n, 0, 0), []);
    assert SealNext(KeysAt(s), m, 0, MTU) == SealProgress(r, piece, s + 1);
    assert SealLoop(KeysAt(s + 1), [m], Position(1, 0), MTU - r.Size()) == Packet(true, [], [], KeysAt(s + 1), Position(1, 0));
    assert SealLoop(KeysAt(s), [m], BEGINNING, MTU) == Packet(true, [r], [piece], KeysAt(s + 1), Position(1, 0));
    assert SendFlight(KeysAt(s + 1), [m], Position(1, 0), MTU, []).packets == [];
  }

  function ReaderAt(window: DtlsReplay.Window, n: nat): DtlsReader.State {
    DtlsReader.State(DtlsRecord.Layer(0, window, NullAead()), Receiver(n, NO_MESSAGES), false, false)
  }

  lemma CarrierIsAccepted(window: DtlsReplay.Window, s: nat, n: nat, typ: byte)
    requires s < DtlsRecord.SEQUENCES && n < MESSAGE_SEQS && !DtlsReplay.ShouldDiscard(window, s)
    ensures DtlsRecord.OpenRecord(ReaderAt(window, n).layer, Datagram([Carrier(s, n, typ)]))
      == (DtlsRecord.Accepted(DtlsRecord.RT_HANDSHAKE, s, RawMessage(n, typ, []), []),
          ReaderAt(DtlsReplay.Record(window, s), n).layer)
  {
    var r := Carrier(s, n, typ);
    OneRecord(r);
    assert WireBytes(r) == WireBytes(r) + [];
    DtlsRecord.ParseInvertsRecord(r.typ, r.version, r.epoch, r.sequence, r.text, []);
    DtlsRecord.SequenceBytesRoundTrip(0, s);
  }

  lemma FlushesEmpty(w: World, s: nat, n: nat, typ: byte)
    requires WorldOk(w) && s < DtlsRecord.SEQUENCES - 1 && n < MESSAGE_SEQS
    requires w.writer == Writer(KeysAt(s), w.writer.messageSeq, [Empty(n, typ)], w.writer.at, w.writer.complete)
    ensures var w' := Transmit(w, BEGINNING, true, MTU, []);
      && w' == w.(writer := w.writer.(keys := KeysAt(s + 1), at := w'.writer.at, complete := true), network := w'.network)
      && w.network <= w'.network && Datagram([Carrier(s, n, typ)]) in w'.network
  {
    hide SendFlight, Datagram;
    EmptyIsSealed(s, n, typ);
    assert [Carrier(s, n, typ)] in [[Carrier(s, n, typ)]];
  }

  lemma InitialIsReached() returns (w: World)
    ensures Reached(w) && w == Initial(Unprotected())
  {
    w := Initial(Unprotected());
    assert Execute(Unprotected(), []) == w;
  }

  lemma AddsEmpty(w: World, i: nat)
    requires WorldOk(w) && i < MESSAGE_SEQS
    requires w.writer == Writer(KeysAt(i), i, w.writer.flight, w.writer.at, true) || w.writer == Writer(KeysAt(i), i, [], BEGINNING, false)
    ensures Step(Unprotected(), w, AddMessage(1, []))
      == w.(writer := Writer(KeysAt(i), (i + 1) % MESSAGE_SEQS, [Empty(i, 1)], BEGINNING, false), sent := w.sent + [Handshake(1, [])])
  {
    BuildIsSingleFragment(i, 1, []);
  }
}
