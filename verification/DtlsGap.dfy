// The gap between the two window checks of the receiver: a run in which an
// honest sender meets it, and why a sender that waits for answers does not.

module DtlsGap {
  import opened Bytes
  import opened DtlsFragment
  import DtlsRecord
  import DtlsReplay
  import opened DtlsWriter
  import opened DtlsFlight
  import opened DtlsEndToEnd
  import opened DtlsArrival
  import opened DtlsRuns
  import DtlsReader

  // The sender has flushed n messages, each a flight of its own, and nothing
  // has arrived yet.
  ghost predicate Unanswered(w: World, n: nat) {
    && Reached(w) && |w.sent| == n && w.reader == ReaderAt(DtlsReplay.EMPTY, 0)
    && w.writer == Writer(KeysAt(n), n, w.writer.flight, w.writer.at, n > 0)
    && (n == 0 ==> w.writer.flight == [] && w.writer.at == BEGINNING)
    && forall i: nat :: i < n < MESSAGE_SEQS ==> Datagram([Carrier(i, i, 1)]) in w.network
  }

  lemma SendsOne(w: World, n: nat) returns (w': World)
    requires Unanswered(w, n) && n + 1 < MESSAGE_SEQS
    ensures Unanswered(w', n + 1)
  {
    hide Reached, Datagram, SendFlight;
    var w1 := Take(w, AddMessage(1, []));
    AddsEmpty(w, n);
    w' := Take(w1, Flush(MTU, []));
    FlushesEmpty(w1, n, n, 1);
  }

  lemma {:induction false} SendsMany(n: nat) returns (w: World)
    requires n < MESSAGE_SEQS
    ensures Unanswered(w, n)
  {
    if n == 0 {
      w := InitialIsReached();
    } else {
      w := SendsMany(n - 1);
      w := SendsOne(w, n - 1);
    }
  }

  // What a receiver at number 0 makes of message n.
  function AfterMessage(n: nat): Received {
    var none := Receiver(0, NO_MESSAGES);
    if n < MAX_FLIGHT then Received(true, Put(none, Incoming(1, n, 0, map[]))) else Received(n != MAX_FLIGHT, none)
  }

  lemma MessageIsProcessed(n: nat)
    requires n < MESSAGE_SEQS
    ensures ProcessRecord(Receiver(0, NO_MESSAGES), 0, MTU, RawMessage(n, 1, [])) == AfterMessage(n)
  {
    var h := Header(1, 0, n, 0, 0);
    assert RawMessage(n, 1, []) == FragmentBytes(h, []) + [];
    ParseInvertsWrite(h, [], []);
    var next := ProcessFragment(Receiver(0, NO_MESSAGES), 0, MTU, h, []);
    assert next == AfterMessage(n);
    assert ProcessRecord(next.to, 0, MTU, []) == Received(true, next.to);
  }

  lemma MessageOpens(n: nat)
    requires n < MESSAGE_SEQS
    ensures var o := DtlsReader.OpenHandshake(ReaderAt(DtlsReplay.EMPTY, 0), MTU, Datagram([Carrier(n, n, 1)]));
      o.result == (if AfterMessage(n).ok then DtlsReader.Success else DtlsReader.Error) && o.to.receiver == AfterMessage(n).to
  {
    hide ProcessRecord, DtlsRecord.OpenRecord, Datagram, DtlsReplay.Record, AfterMessage;
    assert !DtlsReplay.ShouldDiscard(DtlsReplay.EMPTY, n);
    CarrierIsAccepted(DtlsReplay.EMPTY, n, n, 1);
    MessageIsProcessed(n);
  }

  // The datagram with message n, and nothing before it, reaches a receiver
  // that waits for message 0: below 7 the message is taken, above 7 it is
  // ignored, but 7 is an error.
  lemma GapIsReached(n: nat) returns (w: World)
    requires n + 1 < MESSAGE_SEQS
    ensures Reached(w) && |w.sent| == n + 1 && w.reader == ReaderAt(DtlsReplay.EMPTY, 0)
    ensures var o := DtlsReader.OpenHandshake(w.reader, MTU, w.buffer);
      && WorldOk(w) && Step(Unprotected(), w, OpenHandshake(MTU)) == Opened(w, o)
      && o.result == (if n == MAX_FLIGHT then DtlsReader.Error else DtlsReader.Success)
      && o.to.receiver == AfterMessage(n).to
  {
    hide Reached, Datagram, Put, RawMessage, DtlsReader.OpenHandshake;
    var w0 := SendsMany(n + 1);
    w := Take(w0, Arrive(Datagram([Carrier(n, n, 1)])));
    MessageOpens(n);
  }

  // ------------------------------------------------------------------
  // A sender that waits

  // The event starts no new flight before the messages of the one before are
  // all consumed, as the peer's answer shows.
  predicate Waits(w: World, e: Event) {
    (e.AddMessage? || e.AddChangeCipherSpec?) && w.writer.complete ==> w.reader.receiver.readSeq == |w.sent|
  }

  ghost predicate WaitingRun(keys: Schedule, events: seq<Event>)
    requires Sound(keys)
    decreases |events|
  {
    events != [] ==>
      var before, e := events[..|events| - 1], events[|events| - 1];
      WaitingRun(keys, before) && Waits(Execute(keys, before), e)
  }

  // What is sent and not consumed is in the flight, and a flight is short.
  predicate InFlight(w: World) {
    |w.sent| <= w.reader.receiver.readSeq + |w.writer.flight| && |w.writer.flight| <= MAX_FLIGHT
  }

  lemma AddingWaits(w: World, isCcs: bool, data: seq<byte>)
    requires InFlight(w) && (w.writer.complete ==> w.reader.receiver.readSeq == |w.sent|)
    ensures var added := AddOutgoing(w.writer, isCcs, data);
      var sent := if added.ok then |w.sent| + 1 else |w.sent|;
      sent <= w.reader.receiver.readSeq + |added.to.flight| && |added.to.flight| <= MAX_FLIGHT
  {}

  lemma StepWaits(keys: Schedule, w: World, e: Event)
    requires Sound(keys) && Inv(keys, w) && WorldOk(w) && |w.sent| < MESSAGE_SEQS
    requires InFlight(w) && Waits(w, e)
    ensures InFlight(Step(keys, w, e))
  {
    hide Inv, RingOk, DtlsReader.OpenHandshake, DtlsFragment.NextMessage, SendFlight, BuildMessage;
    StepReadsNoLess(keys, w, e);
    match e
    case AddMessage(typ, body) =>
      var raw := BuildMessage(w.writer.messageSeq, typ, body);
      if raw.Some? { AddingWaits(w, false, raw.value); }
    case AddChangeCipherSpec => AddingWaits(w, true, []);
    case _ => assert Step(keys, w, e).sent == w.sent && Step(keys, w, e).writer.flight == w.writer.flight;
  }

  lemma {:induction false} WaitingStaysInFlight(keys: Schedule, events: seq<Event>)
    requires Sound(keys) && WaitingRun(keys, events) && |Execute(keys, events).sent| < MESSAGE_SEQS
    ensures InFlight(Execute(keys, events))
    decreases |events|
  {
    hide Step, Inv, InFlight, Waits;
    if events == [] {
      assert InFlight(Initial(keys)) by { StartsInFlight(keys); }
    } else {
      var before, e := events[..|events| - 1], events[|events| - 1];
      var w := Execute(keys, before);
      StepSendsNoLess(keys, w, e);
      WaitingStaysInFlight(keys, before);
      RunKeepsInv(keys, before);
      StepWaits(keys, w, e);
    }
  }

  lemma StartsInFlight(keys: Schedule)
    ensures InFlight(Initial(keys))
  {}

  // In every run of a sender that waits it is at most seven messages ahead,
  // and no fragment of it is an error for its number, but for epoch 1, which
  // takes only the next one.
  lemma WaitingIsWelcome(keys: Schedule, events: seq<Event>, maxLen: nat, h: Header, body: seq<byte>)
    requires Sound(keys) && WaitingRun(keys, events) && |Execute(keys, events).sent| < MESSAGE_SEQS
    ensures var w := Execute(keys, events);
      var r := w.reader.receiver;
      && |w.sent| <= r.readSeq + MAX_FLIGHT
      && (GenuineFragment(w.sent, h, body) ==>
          |r.slots| == MAX_FLIGHT &&
          (ProcessFragment(r, w.reader.layer.epoch, maxLen, h, body).ok <==>
            h.msgLen <= maxLen && (w.reader.layer.epoch == 1 ==> h.msgSeq == r.readSeq)))
  {
    WaitingStaysInFlight(keys, events);
    RunKeepsInv(keys, events);
    hide Execute, ProcessFragment;
    var w := Execute(keys, events);
    if GenuineFragment(w.sent, h, body) {
      SevenAheadIsWelcome(w.sent, w.reader.receiver, w.reader.layer.epoch, maxLen, h, body);
    }
  }
}
