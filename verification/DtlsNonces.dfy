// No record number is used twice under the same keys, also for packets that
// the transport refused.

module DtlsNonces {
  import opened Bytes
  import opened DtlsFragment
  import DtlsRecord
  import opened DtlsWriter
  import opened DtlsFlight
  import opened DtlsEndToEnd

  // ------------------------------------------------------------------
  // What a call seals

  // Every record a call of send_flight seals, written or not.
  function SealedBy(k: Keys, flight: seq<Outgoing>, at: Position, mtu: nat, bio: seq<bool>): seq<WireRecord>
    requires KeysOk(k) && at.written <= |flight|
    decreases |flight| - at.written, 0x100_0000 - at.offset
  {
    if at.written == |flight| then []
    else
      var p := SealPacket(k, flight, at, mtu);
      p.records +
        (if !p.ok || (bio != [] && !bio[0]) then []
         else SealedBy(p.keys, flight, p.at, mtu, if bio == [] then [] else bio[1..]))
  }

  // All that is written was sealed.
  lemma {:induction false} WrittenIsSealed(k: Keys, flight: seq<Outgoing>, at: Position, mtu: nat, bio: seq<bool>)
    requires KeysOk(k) && at.written <= |flight|
    ensures forall packet, r :: packet in SendFlight(k, flight, at, mtu, bio).packets && r in packet ==>
      r in SealedBy(k, flight, at, mtu, bio)
    decreases |flight| - at.written, 0x100_0000 - at.offset
  {
    hide SealLoop;
    if at.written < |flight| {
      var p := SealPacket(k, flight, at, mtu);
      if p.ok && (bio == [] || bio[0]) {
        WrittenIsSealed(p.keys, flight, p.at, mtu, if bio == [] then [] else bio[1..]);
      }
    }
  }

  // The two epochs in use differ.
  predicate EpochsOk(k: Keys) {
    KeysOk(k) && (k.current.epoch >= 1 ==> k.last.epoch == k.current.epoch - 1)
  }

  predicate From(h: Half, h': Half, r: WireRecord) {
    r.epoch == h.epoch && h.sequence <= r.sequence < h'.sequence
  }

  ghost predicate DistinctNumbers(rs: seq<WireRecord>) {
    forall i, j :: 0 <= i < j < |rs| ==> rs[i].epoch != rs[j].epoch || rs[i].sequence != rs[j].sequence
  }

  ghost predicate Grows(h: Half, h': Half, n: nat) {
    h' == h.(sequence := h'.sequence) && h.sequence <= h'.sequence <= h.sequence + n
  }

  // Between k and k', these records got numbers of their own, and at most
  // extra numbers were lost.
  ghost predicate Draws(k: Keys, k': Keys, rs: seq<WireRecord>, extra: nat) {
    && Grows(k.current, k'.current, |rs| + extra) && Grows(k.last, k'.last, |rs| + extra)
    && (forall r :: r in rs ==> From(k.current, k'.current, r) || (k.current.epoch >= 1 && From(k.last, k'.last, r)))
    && DistinctNumbers(rs)
  }

  lemma DrawsNothing(k: Keys)
    ensures Draws(k, k, [], 0)
  {}

  lemma DrawsMore(k: Keys, k1: Keys, k2: Keys, a: seq<WireRecord>, b: seq<WireRecord>, extra: nat)
    requires EpochsOk(k) && Draws(k, k1, a, 0) && Draws(k1, k2, b, extra)
    ensures Draws(k, k2, a + b, extra)
  {
    forall i, j | 0 <= i < j < |a + b|
      ensures (a + b)[i].epoch != (a + b)[j].epoch || (a + b)[i].sequence != (a + b)[j].sequence
    {
      if i < |a| <= j {
        assert (a + b)[i] in a && (a + b)[j] in b;
      }
    }
  }

  lemma NumberIsUsed(h: Half, version: nat, m: Outgoing, offset: nat, room: nat)
    requires HalfOk(h) && version < 0x1_0000 && h.sequence < DtlsRecord.SEQUENCES - 1
    ensures var r := SealMessage(h, version, m, offset, room);
      && (r.SealError? ==> h.sequence <= r.sequence <= h.sequence + 1)
      && (r.SealProgress? ==> r.record.epoch == h.epoch && r.record.sequence == h.sequence && r.sequence == h.sequence + 1)
  {
    hide NextPiece;
  }

  lemma TurnDraws(k: Keys, m: Outgoing, offset: nat, room: nat)
    requires EpochsOk(k) && k.current.sequence < DtlsRecord.SEQUENCES - 1 && k.last.sequence < DtlsRecord.SEQUENCES - 1
    ensures var r := SealNext(k, m, offset, room);
      && (r.SealError? ==> Draws(k, Used(k, m, r.sequence), [], 1))
      && (r.SealProgress? ==> Draws(k, Used(k, m, r.sequence), [r.record], 0))
  {
    hide SealMessage;
    NumberIsUsed(HalfFor(k, m), k.current.aead.recordVersion, m, offset, room);
  }

  // Enough numbers are left for so many records.
  predicate Enough(k: Keys, n: nat) {
    k.current.sequence + n < DtlsRecord.SEQUENCES - 1 && k.last.sequence + n < DtlsRecord.SEQUENCES - 1
  }

  lemma {:induction false} LoopDraws(k: Keys, flight: seq<Outgoing>, at: Position, room: nat)
    requires EpochsOk(k) && at.written <= |flight| && Enough(k, |SealLoop(k, flight, at, room).records|)
    ensures var p := SealLoop(k, flight, at, room); Draws(k, p.keys, p.records, if p.ok then 0 else 1) && EpochsOk(p.keys)
    decreases |flight| - at.written
  {
    hide SealNext, Draws;
    DrawsNothing(k);
    if at.written < |flight| {
      var m := flight[at.written];
      TurnDraws(k, m, at.offset, room);
      var r := SealNext(k, m, at.offset, room);
      if r.SealProgress? && r.piece.Ends() {
        var keys, less := Used(k, m, r.sequence), room - r.record.Size();
        var rest := SealLoop(keys, flight, After(at, r.piece), less);
        GrowsByOne(k, keys, [r.record], |rest.records|);
        LoopDraws(keys, flight, After(at, r.piece), less);
        DrawsMore(k, keys, rest.keys, [r.record], rest.records, if rest.ok then 0 else 1);
      }
      GrowsAtAll(k, SealLoop(k, flight, at, room));
    }
  }

  lemma GrowsByOne(k: Keys, k': Keys, rs: seq<WireRecord>, n: nat)
    requires EpochsOk(k) && KeysOk(k') && Draws(k, k', rs, 0) && Enough(k, |rs| + n)
    ensures EpochsOk(k') && Enough(k', n)
  {}

  lemma GrowsAtAll(k: Keys, p: Packet)
    requires EpochsOk(k) && KeysOk(p.keys) && Draws(k, p.keys, p.records, if p.ok then 0 else 1)
    ensures EpochsOk(p.keys)
  {}

  lemma {:induction false} CallDraws(k: Keys, flight: seq<Outgoing>, at: Position, mtu: nat, bio: seq<bool>)
    requires EpochsOk(k) && at.written <= |flight| && Enough(k, |SealedBy(k, flight, at, mtu, bio)|)
    ensures var s := SendFlight(k, flight, at, mtu, bio);
      Draws(k, s.keys, SealedBy(k, flight, at, mtu, bio), 1) && EpochsOk(s.keys)
    decreases |flight| - at.written, 0x100_0000 - at.offset
  {
    hide SealLoop, Draws;
    DrawsNothing(k);
    if at.written == |flight| {
      OneLost(k, k, []);
    } else {
      var p := SealPacket(k, flight, at, mtu);
      var loop := SealLoop(k, flight, at, mtu);
      var bio' := if bio == [] then [] else bio[1..];
      assert p.records <= SealedBy(k, flight, at, mtu, bio);
      LoopDraws(k, flight, at, mtu);
      if !p.ok || (bio != [] && !bio[0]) {
        assert p.records + [] == p.records;
        LoopLoses(k, loop);
      } else {
        var rest := SealedBy(p.keys, flight, p.at, mtu, bio');
        GrowsByOne(k, p.keys, p.records, |rest|);
        CallDraws(p.keys, flight, p.at, mtu, bio');
        DrawsMore(k, p.keys, SendFlight(p.keys, flight, p.at, mtu, bio').keys, p.records, rest, 1);
      }
    }
  }

  lemma OneLost(k: Keys, k': Keys, rs: seq<WireRecord>)
    requires Draws(k, k', rs, 0)
    ensures Draws(k, k', rs, 1)
  {}

  lemma LoopLoses(k: Keys, p: Packet)
    requires Draws(k, p.keys, p.records, if p.ok then 0 else 1)
    ensures Draws(k, p.keys, p.records, 1)
  {}

  // ------------------------------------------------------------------
  // Runs

  ghost function SealedIn(w: World, e: Event): seq<WireRecord>
    requires WorldOk(w)
  {
    match e
    case Flush(mtu, bio) => SealedBy(w.writer.keys, w.writer.flight, w.writer.at, mtu, bio)
    case Retransmit(mtu, bio) => SealedBy(w.writer.keys, w.writer.flight, BEGINNING, mtu, bio)
    case _ => []
  }

  // Every record ever sealed in a run.
  ghost function Sealed(keys: Schedule, events: seq<Event>): seq<WireRecord>
    requires Sound(keys)
    decreases |events|
  {
    if events == [] then []
    else
      var before := events[..|events| - 1];
      Sealed(keys, before) + SealedIn(Execute(keys, before), events[|events| - 1])
  }

  // Numbers up to those of the keys are taken, others are not, and at most n
  // were ever drawn.
  ghost predicate Numbered(k: Keys, rs: seq<WireRecord>, n: nat) {
    && EpochsOk(k) && DistinctNumbers(rs) && k.current.sequence <= n && k.last.sequence <= n
    && forall r :: r in rs ==>
      && r.epoch <= k.current.epoch
      && (r.epoch == k.current.epoch ==> r.sequence < k.current.sequence)
      && (k.current.epoch >= 1 && r.epoch == k.last.epoch ==> r.sequence < k.last.sequence)
  }

  lemma NumbersGrow(k: Keys, k': Keys, rs: seq<WireRecord>, more: seq<WireRecord>, n: nat)
    requires Numbered(k, rs, n) && EpochsOk(k') && Draws(k, k', more, 1)
    ensures Numbered(k', rs + more, n + |more| + 1)
  {
    forall i, j | 0 <= i < j < |rs + more|
      ensures (rs + more)[i].epoch != (rs + more)[j].epoch || (rs + more)[i].sequence != (rs + more)[j].sequence
    {
      if i < |rs| <= j {
        assert (rs + more)[i] in rs && (rs + more)[j] in more;
      }
    }
  }

  lemma NewEpoch(k: Keys, aead: DtlsRecord.Aead, rs: seq<WireRecord>, n: nat)
    requires Numbered(k, rs, n) && k.current.epoch + 1 < DtlsRecord.EPOCHS && aead.recordVersion < 0x1_0000
    ensures Numbered(SetWriteState(k, aead), rs, n + 1)
  {}

  lemma StepIsNumbered(keys: Schedule, w: World, e: Event, rs: seq<WireRecord>, n: nat)
    requires Sound(keys) && WorldOk(w) && Numbered(w.writer.keys, rs, n)
    requires n + |SealedIn(w, e)| < DtlsRecord.SEQUENCES - 1
    ensures Numbered(Step(keys, w, e).writer.keys, rs + SealedIn(w, e), n + |SealedIn(w, e)| + 1)
  {
    hide SendFlight, SealedBy, Numbered, Draws, DistinctNumbers;
    var k := w.writer.keys;
    NumberedIs(k, rs, n);
    match e
    case Flush(mtu, bio) =>
      CallDraws(k, w.writer.flight, w.writer.at, mtu, bio);
      NumbersGrow(k, SendFlight(k, w.writer.flight, w.writer.at, mtu, bio).keys, rs, SealedIn(w, e), n);
    case Retransmit(mtu, bio) =>
      CallDraws(k, w.writer.flight, BEGINNING, mtu, bio);
      NumbersGrow(k, SendFlight(k, w.writer.flight, BEGINNING, mtu, bio).keys, rs, SealedIn(w, e), n);
    case ChangeWriteKeys =>
      assert keys(k.current.epoch + 1).Correct() && rs + [] == rs;
      if k.current.epoch + 1 < DtlsRecord.EPOCHS { NewEpoch(k, keys(k.current.epoch + 1), rs, n); }
    case _ =>
      assert Step(keys, w, e).writer.keys == k && rs + [] == rs;
  }

  lemma NumberedIs(k: Keys, rs: seq<WireRecord>, n: nat)
    requires Numbered(k, rs, n)
    ensures EpochsOk(k) && k.current.sequence <= n && k.last.sequence <= n && Numbered(k, rs, n + 1)
  {}

  lemma {:induction false} RunIsNumbered(keys: Schedule, events: seq<Event>)
    requires Sound(keys) && |Sealed(keys, events)| + |events| < DtlsRecord.SEQUENCES
    ensures Numbered(Execute(keys, events).writer.keys, Sealed(keys, events), |Sealed(keys, events)| + |events|)
    decreases |events|
  {
    hide Step, SealedIn, Numbered;
    if events == [] {
      StartIsNumbered(keys);
    } else {
      var before, e := events[..|events| - 1], events[|events| - 1];
      RunIsNumbered(keys, before);
      StepIsNumbered(keys, Execute(keys, before), e, Sealed(keys, before), |Sealed(keys, before)| + |before|);
    }
  }

  lemma StartIsNumbered(keys: Schedule)
    requires Sound(keys)
    ensures Numbered(Initial(keys).writer.keys, [], 0)
  {
    assert keys(0).Correct();
  }

  // In every run in which records and events together stay below the 2^48
  // numbers of an epoch, no two records were ever sealed with the same epoch
  // and number, whatever was refused, retransmitted or failed: the nonces of
  // the AEAD do not repeat.
  lemma NoNonceTwice(keys: Schedule, events: seq<Event>)
    requires Sound(keys) && |Sealed(keys, events)| + |events| < DtlsRecord.SEQUENCES
    ensures DistinctNumbers(Sealed(keys, events))
  {
    hide Execute, Sealed, EpochsOk;
    RunIsNumbered(keys, events);
  }

  // And all that ever was on the wire was sealed in the run.
  ghost predicate OnlySealed(datagram: seq<byte>, rs: seq<WireRecord>) {
    exists packet: seq<WireRecord> :: Datagram(packet) == datagram && forall r :: r in packet ==> r in rs
  }

  lemma SendingOnlySealed(w: World, from: Position, complete: bool, mtu: nat, bio: seq<bool>, rs: seq<WireRecord>)
    requires WriterOk(w.writer) && from.written <= |w.writer.flight|
    requires forall d :: d in w.network ==> OnlySealed(d, rs)
    ensures forall d :: d in Transmit(w, from, complete, mtu, bio).network ==>
      OnlySealed(d, rs + SealedBy(w.writer.keys, w.writer.flight, from, mtu, bio))
  {
    hide SendFlight, SealedBy, Datagram;
    var s, more := SendFlight(w.writer.keys, w.writer.flight, from, mtu, bio), SealedBy(w.writer.keys, w.writer.flight, from, mtu, bio);
    WrittenIsSealed(w.writer.keys, w.writer.flight, from, mtu, bio);
    forall d | d in w.network ensures OnlySealed(d, rs + more) {
      var packet :| Datagram(packet) == d && forall r :: r in packet ==> r in rs;
      assert forall r :: r in packet ==> r in rs + more;
    }
    forall packet | packet in s.packets ensures OnlySealed(Datagram(packet), rs + more) {
      assert forall r :: r in packet ==> r in rs + more;
    }
  }

  lemma {:induction false} NetworkIsSealed(keys: Schedule, events: seq<Event>)
    requires Sound(keys)
    ensures forall d :: d in Execute(keys, events).network ==> OnlySealed(d, Sealed(keys, events))
    decreases |events|
  {
    hide SealedBy, OnlySealed, SendFlight, Authentic;
    if events != [] {
      var before, e := events[..|events| - 1], events[|events| - 1];
      var w, rs := Execute(keys, before), Sealed(keys, before);
      NetworkIsSealed(keys, before);
      match e
      case Flush(mtu, bio) => SendingOnlySealed(w, w.writer.at, true, mtu, bio, rs);
      case Retransmit(mtu, bio) => SendingOnlySealed(w, BEGINNING, w.writer.complete, mtu, bio, rs);
      case _ => assert Step(keys, w, e).network == w.network && rs + [] == rs;
    }
  }
}
