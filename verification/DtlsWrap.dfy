// DtlsEndToEnd.DeliveredIsPrefix speaks of fewer than 65536 messages. Here is
// why: from that number on there are runs in which a message is delivered
// twice. The 48-bit record number and the 16-bit message number of the sender
// both wrap in them.

module DtlsWrap {
  import opened Bytes
  import opened DtlsFragment
  import DtlsRecord
  import DtlsReplay
  import opened DtlsWriter
  import opened DtlsFlight
  import opened DtlsEndToEnd
  import opened DtlsRuns
  import DtlsReader

  // The last record number is never used; trying to wraps the counter.
  lemma CounterWraps(n: nat, typ: byte)
    requires n < MESSAGE_SEQS
    ensures var sent := SendFlight(KeysAt(DtlsRecord.SEQUENCES - 1), [Empty(n, typ)], BEGINNING, MTU, []);
      sent.packets == [] && sent.keys == KeysAt(0) && sent.at == BEGINNING
  {
    RawIsWhole(n, typ, []);
    assert SealNext(KeysAt(DtlsRecord.SEQUENCES - 1), Empty(n, typ), 0, MTU) == SealError(0);
  }

  lemma EmptyIsProcessed(n: nat, typ: byte)
    requires n < MESSAGE_SEQS
    ensures var r, m := Receiver(n, NO_MESSAGES), Incoming(typ, n, 0, map[]);
      ProcessRecord(r, 0, MTU, RawMessage(n, typ, [])) == Received(true, Put(r, m))
  {
    var h := Header(typ, 0, n, 0, 0);
    assert RawMessage(n, typ, []) == FragmentBytes(h, []) + [];
    ParseInvertsWrite(h, [], []);
    var next := ProcessFragment(Receiver(n, NO_MESSAGES), 0, MTU, h, []);
    assert ProcessRecord(next.to, 0, MTU, []) == next;
  }

  // Message n has arrived and is complete.
  function Arrived(n: nat, typ: byte): Receiver {
    Put(Receiver(n, NO_MESSAGES), Incoming(typ, n, 0, map[]))
  }

  lemma Opens(w: World, window: DtlsReplay.Window, s: nat, n: nat, typ: byte)
    requires WorldOk(w) && w.reader == ReaderAt(window, n) && s < DtlsRecord.SEQUENCES && n < MESSAGE_SEQS
    requires !DtlsReplay.ShouldDiscard(window, s) && w.buffer == Datagram([Carrier(s, n, typ)])
    ensures Step(Unprotected(), w, OpenHandshake(MTU))
      == w.(reader := ReaderAt(DtlsReplay.Record(window, s), n).(receiver := Arrived(n, typ)), buffer := [])
  {
    hide ProcessRecord, DtlsRecord.OpenRecord, Datagram, DtlsReplay.Record, DtlsReplay.ShouldDiscard;
    CarrierIsAccepted(window, s, n, typ);
    EmptyIsProcessed(n, typ);
  }

  lemma Delivers(w: World, window: DtlsReplay.Window, n: nat, typ: byte)
    requires WorldOk(w) && n < MESSAGE_SEQS && w.reader == ReaderAt(window, n).(receiver := Arrived(n, typ))
    ensures var w' := Step(Unprotected(), w, GetMessage);
      w' == w.(reader := w.reader.(hasMessage := true), delivered := w'.delivered)
      && |w'.delivered| == |w.delivered| + 1 && w'.delivered[|w.delivered|].typ == typ
  {
    assert Arrived(n, typ).CurrentComplete();
  }

  lemma Consumes(w: World, window: DtlsReplay.Window, n: nat, typ: byte)
    requires WorldOk(w) && n < MESSAGE_SEQS
    requires w.reader == ReaderAt(window, n).(receiver := Arrived(n, typ), hasMessage := true)
    ensures Step(Unprotected(), w, NextMessage) == w.(reader := ReaderAt(window, (n + 1) % MESSAGE_SEQS))
  {
    assert Arrived(n, typ).CurrentComplete();
    assert NO_MESSAGES[n % MAX_FLIGHT := Some(Incoming(typ, n, 0, map[]))][n % MAX_FLIGHT := None] == NO_MESSAGES;
  }

  // The record that carries message n, if the window lets it through, gets it
  // delivered and consumed.
  lemma Receive(w: World, window: DtlsReplay.Window, s: nat, n: nat, typ: byte) returns (w': World)
    requires Reached(w) && w.reader == ReaderAt(window, n) && s < DtlsRecord.SEQUENCES && n < MESSAGE_SEQS
    requires !DtlsReplay.ShouldDiscard(window, s) && Datagram([Carrier(s, n, typ)]) in w.network
    ensures Reached(w') && w'.writer == w.writer && w'.sent == w.sent && w'.network == w.network
    ensures w'.reader == ReaderAt(DtlsReplay.Record(window, s), (n + 1) % MESSAGE_SEQS)
    ensures |w'.delivered| == |w.delivered| + 1 && w'.delivered[|w.delivered|].typ == typ
  {
    hide Reached, Datagram, DtlsReplay.Record, DtlsReplay.ShouldDiscard;
    var w1 := Take(w, Arrive(Datagram([Carrier(s, n, typ)])));
    assert w1 == w.(buffer := Datagram([Carrier(s, n, typ)]));
    hide Step;
    var w2 := Take(w1, OpenHandshake(MTU));
    Opens(w1, window, s, n, typ);
    var w3 := Take(w2, GetMessage);
    Delivers(w2, DtlsReplay.Record(window, s), n, typ);
    w' := Take(w3, NextMessage);
    Consumes(w3, DtlsReplay.Record(window, s), n, typ);
  }

  // ------------------------------------------------------------------
  // The first message, sent until the record numbers start again

  // What comes last and is let through once more: the first message, in the
  // last record before the record numbers wrap.
  function Old(): seq<byte> {
    Datagram([Carrier(DtlsRecord.SEQUENCES - 2, 0, 2)])
  }

  ghost predicate Resending(w: World, s: nat) {
    && Reached(w) && s < DtlsRecord.SEQUENCES
    && w.sent == [Handshake(2, [])] && w.delivered == [] && w.reader == ReaderAt(DtlsReplay.EMPTY, 0)
    && w.writer == Writer(KeysAt(s), 1, [Empty(0, 2)], w.writer.at, true)
    && Datagram([Carrier(0, 0, 2)]) in w.network
  }

  lemma Starts() returns (w: World)
    ensures Resending(w, 1)
  {
    hide SendFlight, Datagram, Reached;
    var w0 := InitialIsReached();
    BuildIsSingleFragment(0, 2, []);
    var w1 := Take(w0, AddMessage(2, []));
    FlushesEmpty(w1, 0, 0, 2);
    w := Take(w1, Flush(MTU, []));
  }

  lemma Resends(w: World, s: nat) returns (w': World)
    requires Resending(w, s) && s < DtlsRecord.SEQUENCES - 1
    ensures Resending(w', s + 1) && w.network <= w'.network && Datagram([Carrier(s, 0, 2)]) in w'.network
  {
    hide Reached, Datagram, SendFlight;
    w' := Take(w, Retransmit(MTU, []));
    FlushesEmpty(w, s, 0, 2);
  }

  lemma {:induction false} ResendsUntil(w: World, s: nat, last: nat) returns (w': World)
    requires Resending(w, s) && s <= last < DtlsRecord.SEQUENCES
    ensures Resending(w', last)
    decreases last - s
  {
    w' := w;
    if s < last {
      w' := Resends(w, s);
      w' := ResendsUntil(w', s + 1, last);
    }
  }

  lemma Restarts(w: World) returns (w': World)
    requires Resending(w, DtlsRecord.SEQUENCES - 1)
    ensures Resending(w', 0) && w.network <= w'.network
  {
    hide Reached, Datagram, SendFlight;
    w' := Take(w, Retransmit(MTU, []));
    CounterWraps(0, 2);
  }

  // ------------------------------------------------------------------
  // All messages, each sent and delivered before the next

  ghost predicate Round(w: World, i: nat) {
    && Reached(w) && 0 < i == |w.sent| == |w.delivered| <= MESSAGE_SEQS && Old() in w.network
    && w.reader == ReaderAt(w.reader.layer.window, i % MESSAGE_SEQS) && w.reader.layer.window.maxSeq == i - 1
    && w.writer == Writer(KeysAt(i), i % MESSAGE_SEQS, w.writer.flight, w.writer.at, true)
  }

  lemma SentAgain() returns (w: World)
    ensures Resending(w, 1) && Old() in w.network
  {
    hide Resending, Datagram;
    var w1 := Starts();
    var w2 := ResendsUntil(w1, 1, DtlsRecord.SEQUENCES - 2);
    var w3 := Resends(w2, DtlsRecord.SEQUENCES - 2);
    var w4 := Restarts(w3);
    w := Resends(w4, 0);
  }

  lemma FirstRound() returns (w: World)
    ensures Round(w, 1)
  {
    hide Reached, Datagram;
    w := SentAgain();
    w := Receive(w, DtlsReplay.EMPTY, 0, 0, 2);
  }

  lemma NextRound(w: World, i: nat) returns (w': World)
    requires Round(w, i) && i < MESSAGE_SEQS
    ensures Round(w', i + 1)
  {
    hide Reached, Datagram, SendFlight;
    var w1 := Take(w, AddMessage(1, []));
    AddsEmpty(w, i);
    var w2 := Take(w1, Flush(MTU, []));
    FlushesEmpty(w1, i, i, 1);
    w' := Receive(w2, w.reader.layer.window, i, i, 1);
  }

  lemma {:induction false} AllRounds(w: World, i: nat, last: nat) returns (w': World)
    requires Round(w, i) && i <= last <= MESSAGE_SEQS
    ensures Round(w', last)
    decreases last - i
  {
    w' := w;
    if i < last {
      w' := NextRound(w, i);
      w' := AllRounds(w', i + 1, last);
    }
  }

  // ------------------------------------------------------------------
  // The first message again

  // One message more was delivered than the counter can tell apart, and it
  // was not the next one sent.
  ghost predicate Repeated(w: World) {
    && Reached(w) && w.writer.complete
    && MESSAGE_SEQS <= |w.sent| && MESSAGE_SEQS < |w.delivered| && w.delivered[MESSAGE_SEQS].typ == 2
    && (|w.sent| > MESSAGE_SEQS ==> w.sent[MESSAGE_SEQS].typ == 1)
  }

  lemma Repeats() returns (w: World)
    ensures Repeated(w) && |w.sent| == MESSAGE_SEQS
  {
    var w1 := FirstRound();
    var w2 := AllRounds(w1, 1, MESSAGE_SEQS);
    w := Receive(w2, w2.reader.layer.window, DtlsRecord.SEQUENCES - 2, 0, 2);
  }

  lemma SendsMore(w: World) returns (w': World)
    requires Repeated(w)
    ensures Repeated(w') && |w'.sent| == |w.sent| + 1
  {
    hide Reached, SendFlight, Datagram;
    var w1 := Take(w, AddMessage(1, []));
    BuildIsSingleFragment(w.writer.messageSeq, 1, []);
    w' := Take(w1, Flush(0, []));
  }

  lemma {:induction false} SendsUntil(w: World, n: nat) returns (w': World)
    requires Repeated(w) && |w.sent| <= n
    ensures Repeated(w') && |w'.sent| == n
    decreases n - |w.sent|
  {
    w' := w;
    if |w.sent| < n {
      w' := SendsMore(w);
      w' := SendsUntil(w', n);
    }
  }

  lemma RepeatedIsDisorder(w: World)
    requires Repeated(w)
    ensures !InOrder(w)
  {
    if |w.sent| > MESSAGE_SEQS && Sendable(w.sent) {
      assert Transcript(w.sent)[MESSAGE_SEQS].typ == w.sent[MESSAGE_SEQS].typ;
    }
  }

  // With 65536 messages or more, DeliveredIsPrefix has a counterexample.
  lemma WrapBreaksOrder(n: nat) returns (events: seq<Event>)
    requires n >= MESSAGE_SEQS
    ensures Sound(Unprotected())
    ensures |Execute(Unprotected(), events).sent| == n && !InOrder(Execute(Unprotected(), events))
  {
    var w := Repeats();
    w := SendsUntil(w, n);
    events :| Execute(Unprotected(), events) == w;
    RepeatedIsDisorder(w);
  }

  // So the counter of 16 bits is just what delivery in order takes.
  lemma OrderIffNoWrap(n: nat)
    ensures n < MESSAGE_SEQS <==>
      forall keys: Schedule, events: seq<Event> :: Sound(keys) && |Execute(keys, events).sent| == n ==> InOrder(Execute(keys, events))
  {
    if n < MESSAGE_SEQS {
      forall keys: Schedule, events: seq<Event> | Sound(keys) && |Execute(keys, events).sent| == n
        ensures InOrder(Execute(keys, events))
      {
        DeliveredIsPrefix(keys, events);
      }
    } else {
      var events := WrapBreaksOrder(n);
      assert Sound(Unprotected());
    }
  }
}
