// Moving along the script: reading what comes next and sending what comes
// next.

module TlsMoves {
  import opened TlsTypes
  import opened TlsScript

  // Everything opaque succeeds and has the agreed contents; callbacks may ask
  // to be called again.
  ghost predicate Honest(e: Choice, d: Deal) {
    e.ok && e.verdict != VerifyInvalid && forall k: Kind :: e.blob(k) == d.blob(k)
  }

  function Sends(from: Side, rs: seq<Record>): (es: seq<Entry>)
    ensures |es| == |rs| && forall i :: 0 <= i < |rs| ==> es[i] == Entry(from, rs[i])
  {
    seq(|rs|, i requires 0 <= i < |rs| => Entry(from, rs[i]))
  }

  function HeldRecords(buffer: seq<Held>): (rs: seq<Record>)
    ensures |rs| == |buffer| && forall i :: 0 <= i < |rs| ==> rs[i] == Record(buffer[i].epoch, Messages([buffer[i].msg]))
  {
    seq(|buffer|, i requires 0 <= i < |buffer| => Record(buffer[i].epoch, Messages([buffer[i].msg])))
  }

  // The first message held is what comes next.
  ghost predicate HeadIsNext(h: Hs, from: Side, tail: seq<Entry>) {
    HasMessage(h) ==> tail != [] && tail[0] == Plain(from, h.buffer[0].epoch, h.buffer[0].msg)
  }

  // What one turn of a machine does to its place in the script: nothing, or it
  // reads the first message held, or it sends.
  ghost predicate Moved(side: Side, peer: Side, h: Hs, tail: seq<Entry>, h': Hs, tail': seq<Entry>) {
    && h'.flushed == h.flushed
    && (|| (h'.buffer == h.buffer && h'.sent == h.sent && h'.transcript == h.transcript && tail' == tail)
        || (ReadOne(h, h') && tail == [Plain(peer, h.buffer[0].epoch, h.buffer[0].msg)] + tail')
        || SentOne(side, h, tail, h', tail'))
  }

  // Reading one message.
  ghost predicate ReadOne(h: Hs, h': Hs) {
    && HasMessage(h) && h'.buffer == h.buffer[1..] && h'.sent == h.sent && h'.flushed == h.flushed
    && h'.transcript == h.transcript + [h.buffer[0].msg]
  }

  // Sending some records.
  ghost predicate SentOne(side: Side, h: Hs, tail: seq<Entry>, h': Hs, tail': seq<Entry>) {
    && h'.flushed == h.flushed && h'.buffer == h.buffer && h.sent <= h'.sent
    && tail == Sends(side, h'.sent[|h.sent|..]) + tail'
    && h'.transcript == h.transcript + MessagesIn(Sends(side, h'.sent[|h.sent|..]))
  }

  lemma SentBoth(side: Side, h: Hs, tail: seq<Entry>, h': Hs, tail': seq<Entry>, h'': Hs, tail'': seq<Entry>)
    requires SentOne(side, h, tail, h', tail') && SentOne(side, h', tail', h'', tail'')
    ensures SentOne(side, h, tail, h'', tail'')
  {
    var first, second := Sends(side, h'.sent[|h.sent|..]), Sends(side, h''.sent[|h'.sent|..]);
    assert Sends(side, h''.sent[|h.sent|..]) == first + second;
    MessagesAppend(first, second);
  }

  lemma OneEntry(e: Entry)
    ensures MessagesIn([e]) == MessagesOf(e.record.content)
  {
    assert [e][1..] == [];
  }

  // Sending what is due at a stage, if it is due.
  lemma SendsDue(side: Side, stage: Stage, d: Deal, h: Hs, c: bool, m: Message)
    requires stage != End && Due(stage, d, h.transcript) == When(c, Plain(side, h.writeEpoch, m))
    ensures var h' := AddIf(c, h, m);
      SentOne(side, h, Tail(stage, d, h.transcript), h', Tail(Next(stage, d.Resumed()), d, h'.transcript))
  {
    var h' := AddIf(c, h, m);
    if c {
      assert h'.sent[|h.sent|..] == [Record(h.writeEpoch, Messages([m]))];
      assert Sends(side, [Record(h.writeEpoch, Messages([m]))]) == [Plain(side, h.writeEpoch, m)];
      OneEntry(Plain(side, h.writeEpoch, m));
    } else {
      assert Sends(side, h'.sent[|h.sent|..]) == [];
      assert [] + Tail(stage, d, h.transcript) == Tail(stage, d, h.transcript);
    }
  }

  lemma SendsCcs(side: Side, stage: Stage, d: Deal, h: Hs)
    requires stage != End && Due(stage, d, h.transcript) == Present(Entry(side, Record(h.writeEpoch, Ccs)))
    ensures var h' := ChangeWriteCipher(h);
      SentOne(side, h, Tail(stage, d, h.transcript), h', Tail(Next(stage, d.Resumed()), d, h'.transcript))
  {
    var h', r := ChangeWriteCipher(h), Record(h.writeEpoch, Ccs);
    assert h'.sent[|h.sent|..] == [r] && Sends(side, [r]) == [Entry(side, r)];
    OneEntry(Entry(side, r));
    assert h.transcript + [] == h.transcript;
  }

  lemma SendsFinished(side: Side, stage: Stage, d: Deal, h: Hs)
    requires stage != End
    requires Due(stage, d, h.transcript) == Present(Plain(side, h.writeEpoch, Message(Finished, Verify(side, h.transcript))))
    ensures var h' := SendFinished(h, side);
      SentOne(side, h, Tail(stage, d, h.transcript), h', Tail(Next(stage, d.Resumed()), d, h'.transcript))
  {
    SendsDue(side, stage, d, h, true, Message(Finished, Verify(side, h.transcript)));
  }

  // Reading what is due: the message held is the one due, and reading it
  // moves to the next stage.
  lemma ReadsDue(peer: Side, stage: Stage, d: Deal, h: Hs, e: Entry)
    requires stage != End && Due(stage, d, h.transcript) == Present(e) && HasMessage(h)
    requires HeadIsNext(h, peer, Tail(stage, d, h.transcript))
    ensures e == Plain(peer, h.buffer[0].epoch, h.buffer[0].msg)
    ensures Tail(stage, d, h.transcript) == [e] + Tail(Next(stage, d.Resumed()), d, Consume(h).transcript)
  {}

  // The kind of the message that comes next.
  function HeadKind(tail: seq<Entry>): Kind {
    if tail == [] || tail[0].record.content.Ccs? || tail[0].record.content.msgs == [] then OtherKind
    else tail[0].record.content.msgs[0].kind
  }

  lemma ServerFlightHeads(d: Deal, t: seq<Message>)
    ensures HeadKind(Tail(DoneS, d, t)) == TlsTypes.ServerHelloDone
    ensures HeadKind(Tail(RequestS, d, t)) == if d.Requested() then TlsTypes.CertificateRequest else TlsTypes.ServerHelloDone
    ensures !(d.config.flags.certAuth && d.config.flags.status) ==> Tail(StatusS, d, t) == Tail(KeyS, d, t)
    ensures !d.Parameters() ==> Tail(KeyS, d, t) == Tail(RequestS, d, t)
    ensures d.Parameters() ==> HeadKind(Tail(KeyS, d, t)) == TlsTypes.ServerKeyExchange
    ensures !d.Requested() ==> Tail(RequestS, d, t) == Tail(DoneS, d, t)
  {}

  // What a state implies: whether nothing was settled yet, whether it belongs
  // to full handshakes only, whether a certificate request would be behind it,
  // its epochs, whether it may hold back what it sent, and whether it waits
  // for messages.
  datatype Facts = Facts(early: bool, full: bool, asked: bool, read: nat, wrote: nat, holdsBack: bool, awaits: bool)
}
