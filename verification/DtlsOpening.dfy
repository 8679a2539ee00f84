// What opening a record and changing the keys do in the runs of DtlsEndToEnd:
// forgeries leave no trace, errors have few causes, and a key change leaves
// nothing behind.

module DtlsOpening {
  import opened Bytes
  import opened DtlsFragment
  import DtlsRecord
  import opened DtlsWriter
  import opened DtlsFlight
  import opened DtlsEndToEnd
  import DtlsReader
  import DtlsReplay

  // ------------------------------------------------------------------
  // Forgeries

  // No record in these bytes opens under the key of its epoch.
  ghost predicate Forged(keys: Schedule, s: seq<byte>)
    decreases |s|
  {
    DtlsRecord.ParseRecord(s).Some? ==>
      var raw := DtlsRecord.ParseRecord(s).value;
      && keys(DtlsRecord.EpochOf(raw.sequence)).open(BigEndian(raw.sequence), raw.typ, raw.version, raw.body).None?
      && Forged(keys, raw.rest)
  }

  // The network may always bring a forgery.
  lemma {:induction false} ForgedIsAuthentic(keys: Schedule, sent: seq<Handshake>, s: seq<byte>)
    requires Forged(keys, s)
    ensures Authentic(keys, sent, s)
    decreases |s|
  {
    if DtlsRecord.ParseRecord(s).Some? {
      ForgedIsAuthentic(keys, sent, DtlsRecord.ParseRecord(s).value.rest);
    }
  }

  // One call drops a forged record, or all of the datagram, and that is all.
  lemma ForgeryIsDropped(keys: Schedule, s: DtlsReader.State, maxLen: nat, input: seq<byte>)
    requires Forged(keys, input) && s.layer.aead == keys(s.layer.epoch) && |s.receiver.slots| == MAX_FLIGHT
    ensures var o := DtlsReader.OpenHandshake(s, maxLen, input);
      && o.to == s && o.result == (if input == [] then DtlsReader.Partial else DtlsReader.Discarded)
      && Forged(keys, o.rest) && (if input == [] then o.rest == [] else |o.rest| < |input|)
  {
    assert Forged(keys, []);
  }

  // A run that goes on with a datagram from anywhere and n calls.
  function Injected(events: seq<Event>, bytes: seq<byte>, maxLen: nat, n: nat): seq<Event> {
    if n == 0 then events + [Inject(bytes)] else Injected(events, bytes, maxLen, n - 1) + [OpenHandshake(maxLen)]
  }

  lemma LastStep(keys: Schedule, events: seq<Event>, e: Event)
    requires Sound(keys)
    ensures Execute(keys, events + [e]) == Step(keys, Execute(keys, events), e)
  {
    assert (events + [e])[..|events|] == events;
  }

  // In every run, at any time: when a forged datagram comes in, and records
  // are opened, the world is as it was but for the buffer; and the buffer is
  // empty after as many calls as the datagram has bytes.
  lemma {:induction false} ForgeryLeavesNoTrace(keys: Schedule, events: seq<Event>, bytes: seq<byte>, maxLen: nat, n: nat)
    requires Sound(keys) && Forged(keys, bytes) && |Execute(keys, events).sent| < MESSAGE_SEQS
    ensures var w, w' := Execute(keys, events), Execute(keys, Injected(events, bytes, maxLen, n));
      && w' == w.(buffer := w'.buffer) && Forged(keys, w'.buffer)
      && |w'.buffer| <= if n < |bytes| then |bytes| - n else 0
    decreases n
  {
    hide Execute, Forged, Inv, Authentic, DtlsReader.OpenHandshake;
    var w := Execute(keys, events);
    if n == 0 {
      ForgedIsAuthentic(keys, w.sent, bytes);
      LastStep(keys, events, Inject(bytes));
    } else {
      var before := Injected(events, bytes, maxLen, n - 1);
      ForgeryLeavesNoTrace(keys, events, bytes, maxLen, n - 1);
      InvHasKeys(keys, events);
      ForgeryIsDropped(keys, w.reader, maxLen, Execute(keys, before).buffer);
      LastStep(keys, before, OpenHandshake(maxLen));
    }
  }

  lemma InvHasKeys(keys: Schedule, events: seq<Event>)
    requires Sound(keys) && |Execute(keys, events).sent| < MESSAGE_SEQS
    ensures var r := Execute(keys, events).reader; r.layer.aead == keys(r.layer.epoch)
  {
    RunKeepsInv(keys, events);
  }

  // ------------------------------------------------------------------
  // Errors

  // In every run, whatever the network brings, opening a record is an error
  // only if its plaintext is too long, if it is a ChangeCipherSpec under keys,
  // or if its fragment is of a message that is too long, or out of turn.
  lemma OpenErrorsExactly(keys: Schedule, events: seq<Event>, maxLen: nat)
    requires Sound(keys) && |Execute(keys, events).sent| < MESSAGE_SEQS
    ensures var w := Execute(keys, events);
      var r, outcome := w.reader.receiver, DtlsRecord.OpenRecord(w.reader.layer, w.buffer).0;
      DtlsReader.OpenHandshake(w.reader, maxLen, w.buffer).result == DtlsReader.Error <==>
        || outcome.Failed?
        || (outcome.Accepted? && outcome.typ == DtlsRecord.RT_CHANGE_CIPHER_SPEC && !w.reader.layer.aead.isNull)
        || (outcome.Accepted? && outcome.typ == DtlsRecord.RT_HANDSHAKE &&
            exists h, body :: GenuineFragment(w.sent, h, body) && outcome.plain == FragmentBytes(h, body)
              && (h.msgLen > maxLen
                  || (if w.reader.layer.epoch == 1 then h.msgSeq != r.readSeq else h.msgSeq == r.readSeq + MAX_FLIGHT)))
  {
    hide Execute;
    RunKeepsInv(keys, events);
    var w := Execute(keys, events);
    OpenIsGenuine(keys, w.sent, w.reader.layer, w.buffer);
    var (outcome, layer) := DtlsRecord.OpenRecord(w.reader.layer, w.buffer);
    if outcome.Accepted? && outcome.typ == DtlsRecord.RT_HANDSHAKE {
      var h, body :| GenuineFragment(w.sent, h, body) && outcome.plain == FragmentBytes(h, body);
      OneFragmentFails(w.sent, w.reader.receiver, layer.epoch, maxLen, h, body);
      forall h', body' | GenuineFragment(w.sent, h', body') && outcome.plain == FragmentBytes(h', body') ensures h' == h {
        SameFragment(h, body, h', body');
      }
    }
  }

  // Records of other types: alerts are handed out, application data is dropped
  // under keys and an error without them, and anything else is an error; none
  // of them changes more than the window.
  lemma OtherRecordsOpen(s: DtlsReader.State, maxLen: nat, input: seq<byte>)
    requires |s.receiver.slots| == MAX_FLIGHT && DtlsRecord.OpenRecord(s.layer, input).0.Accepted?
    requires DtlsRecord.OpenRecord(s.layer, input).0.typ !in {DtlsRecord.RT_HANDSHAKE, DtlsRecord.RT_CHANGE_CIPHER_SPEC}
    ensures var o, outcome := DtlsReader.OpenHandshake(s, maxLen, input), DtlsRecord.OpenRecord(s.layer, input).0;
      && o.to == s.(layer := o.to.layer) && o.rest == outcome.rest
      && (outcome.typ == 21 ==> o.result == DtlsReader.AlertRecord(outcome.plain))
      && (outcome.typ == 23 ==> o.result == if s.layer.aead.isNull then DtlsReader.Error else DtlsReader.Discarded)
      && (outcome.typ !in {21, 23} ==> o.result == DtlsReader.Error)
  {}

  lemma SameFragment(h: Header, body: seq<byte>, h': Header, body': seq<byte>)
    requires h.Fits() && h'.Fits() && |body| == h.fragLen && |body'| == h'.fragLen && FragmentBytes(h, body) == FragmentBytes(h', body')
    ensures h == h' && body == body'
  {
    ParseInvertsWrite(h, body, []);
    ParseInvertsWrite(h', body', []);
  }

  lemma OneFragmentFails(sent: seq<Handshake>, r: Receiver, epoch: nat, maxLen: nat, h: Header, body: seq<byte>)
    requires GenuineRing(sent, r) && GenuineFragment(sent, h, body)
    ensures !ProcessRecord(r, epoch, maxLen, FragmentBytes(h, body)).ok <==>
      h.msgLen > maxLen || (if epoch == 1 then h.msgSeq != r.readSeq else h.msgSeq == r.readSeq + MAX_FLIGHT)
  {
    HonestFragmentErrors(sent, r, epoch, maxLen, h, body);
    ProcessFragmentKeepsRing(r, epoch, maxLen, h, body);
    assert FragmentBytes(h, body) == FragmentBytes(h, body) + [];
    ParseInvertsWrite(h, body, []);
    var next := ProcessFragment(r, epoch, maxLen, h, body);
    hide ProcessFragment, FragmentBytes;
    assert ProcessRecord(next.to, epoch, maxLen, []) == Received(true, next.to);
  }

  // ------------------------------------------------------------------
  // ChangeCipherSpec and new keys

  // A ChangeCipherSpec is taken exactly if one is pending, or the record at
  // hand is one; each is taken once.
  lemma CcsIsTakenOnce(s: DtlsReader.State, maxLen: nat, input: seq<byte>)
    requires |s.receiver.slots| == MAX_FLIGHT
    ensures var o, outcome := DtlsReader.OpenChangeCipherSpec(s, maxLen, input), DtlsRecord.OpenRecord(s.layer, input).0;
      && (o.result == DtlsReader.Success <==>
          || s.hasCcs
          || (outcome.Accepted? && outcome.typ == DtlsRecord.RT_CHANGE_CIPHER_SPEC && outcome.plain == [1] && s.layer.aead.isNull))
      && !o.to.hasCcs && (s.hasCcs ==> o == DtlsReader.Opening(DtlsReader.Success, s.(hasCcs := false), input))
  {}

  // In every run: the read keys change exactly if no ChangeCipherSpec is
  // pending and the ring holds nothing but the message in hand, which is
  // complete. So nothing that came in under the old keys is taken under the new
  // ones.
  lemma KeyChangeLeavesNothing(keys: Schedule, events: seq<Event>)
    requires Sound(keys) && |Execute(keys, events).sent| < MESSAGE_SEQS
    ensures var w := Execute(keys, events);
      var r, w' := w.reader.receiver, Step(keys, w, ChangeReadKeys);
      && (w'.reader.layer.epoch != w.reader.layer.epoch <==>
          && w.reader.layer.epoch + 1 < DtlsRecord.EPOCHS && !w.reader.hasCcs
          && forall i :: 0 <= i < MAX_FLIGHT && r.slots[i].Some? ==>
            w.reader.hasMessage && r.slots[i].value.msgSeq == r.readSeq && r.slots[i].value.Complete())
      && w' == w.(reader := w.reader.(layer := w'.reader.layer))
      && (w'.reader.layer.epoch != w.reader.layer.epoch ==>
          && w'.reader.layer == DtlsRecord.Layer(w.reader.layer.epoch + 1, w'.reader.layer.window, keys(w.reader.layer.epoch + 1))
          && forall number: nat :: !DtlsReplay.ShouldDiscard(w'.reader.layer.window, number))
  {
    hide Execute;
    RunKeepsInv(keys, events);
    var w := Execute(keys, events);
    var r, current := w.reader.receiver, w.reader.receiver.readSeq % MAX_FLIGHT;
    forall i | 0 <= i < MAX_FLIGHT && r.slots[i].Some?
      ensures w.reader.hasMessage ==>
        (i == current <==> r.slots[i].value.msgSeq == r.readSeq) && (i == current ==> r.slots[i].value.Complete())
    {
      if r.slots[i].value.msgSeq % MAX_FLIGHT == current {
        SameResidue(r.slots[i].value.msgSeq, r.readSeq);
      }
    }
  }
}
