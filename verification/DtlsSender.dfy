// The sending half of DTLS1_STATE: the outgoing queue and its cursor, updated
// in place by the functions of d1_both.cc.

module DtlsSender {
  import opened Bytes
  import opened DtlsFragment
  import opened DtlsRecord
  import opened DtlsWriter

  // A packet with records and pieces already sealed in front of it.
  function Behind(records: seq<WireRecord>, pieces: seq<Todo>, p: Packet): Packet {
    p.(records := records + p.records, pieces := pieces + p.pieces)
  }

  function SentBehind(packets: seq<seq<WireRecord>>, pieces: seq<Todo>, s: Sent): Sent {
    s.(packets := packets + s.packets, pieces := pieces + s.pieces)
  }

  // One turn of the loop of seal_next_packet, with r what sealing gave.
  lemma PacketTurn(records: seq<WireRecord>, pieces: seq<Todo>,
                   k: Keys, flight: seq<Outgoing>, at: Position, room: nat, r: Sealed)
    requires KeysOk(k) && at.written < |flight| && r == SealNext(k, flight[at.written], at.offset, room)
    ensures Behind(records, pieces, SealLoop(k, flight, at, room)) == match r
      case SealError(sequence) => Packet(false, records, pieces, Used(k, flight[at.written], sequence), at)
      case SealNoProgress => Packet(true, records, pieces, k, at)
      case SealProgress(record, piece, sequence) =>
        var keys := Used(k, flight[at.written], sequence);
        if piece.Ends()
        then Behind(records + [record], pieces + [piece], SealLoop(keys, flight, After(at, piece), room - record.Size()))
        else Packet(true, records + [record], pieces + [piece], keys, After(at, piece))
  {
    if r.SealProgress? && r.piece.Ends() {
      var keys := Used(k, flight[at.written], r.sequence);
      var rest := SealLoop(keys, flight, After(at, r.piece), room - r.record.Size());
      assert records + ([r.record] + rest.records) == records + [r.record] + rest.records;
      assert pieces + ([r.piece] + rest.pieces) == pieces + [r.piece] + rest.pieces;
    }
  }

  // One turn of the loop of send_flight, with p the packet that was sealed.
  lemma SendTurn(packets: seq<seq<WireRecord>>, pieces: seq<Todo>,
                 k: Keys, flight: seq<Outgoing>, at: Position, mtu: nat, bio: seq<bool>, p: Packet)
    requires KeysOk(k) && at.written < |flight| && p == SealPacket(k, flight, at, mtu)
    ensures SentBehind(packets, pieces, SendFlight(k, flight, at, mtu, bio)) ==
      if !p.ok then Sent(SendFailed, packets, pieces, p.keys, p.at)
      else if bio != [] && !bio[0] then Sent(BioBlocked, packets, pieces, p.keys, at)
      else SentBehind(packets + [p.records], pieces + p.pieces,
                      SendFlight(p.keys, flight, p.at, mtu, if bio == [] then [] else bio[1..]))
  {
    if p.ok && (bio == [] || bio[0]) {
      var rest := SendFlight(p.keys, flight, p.at, mtu, if bio == [] then [] else bio[1..]);
      assert packets + ([p.records] + rest.packets) == packets + [p.records] + rest.packets;
      assert pieces + (p.pieces + rest.pieces) == pieces + p.pieces + rest.pieces;
    }
  }

  class Sender {
    var keys: Keys
    var messageSeq: nat
    const outgoing: array<Outgoing>
    var outgoingLen: nat
    var at: Position // outgoing_written and outgoing_offset
    var messagesComplete: bool
    var mtu: nat

    ghost predicate Valid()
      reads this, outgoing
    {
      && outgoing.Length == MAX_FLIGHT && at.written <= outgoingLen <= MAX_FLIGHT
      && KeysOk(keys) && messageSeq < MESSAGE_SEQS
    }

    ghost function Flight(): seq<Outgoing>
      requires outgoingLen <= outgoing.Length
      reads this`outgoingLen, outgoing
    {
      outgoing[..outgoingLen]
    }

    ghost function View(): Writer
      requires Valid()
      reads this, outgoing
    {
      Writer(keys, messageSeq, Flight(), at, messagesComplete)
    }

    constructor (aead: Aead, mtu: nat)
      requires aead.recordVersion < 0x1_0000
      ensures Valid() && fresh(outgoing) && this.mtu == mtu
      ensures View() == Writer(Keys(Half(0, 0, aead), Half(0, 0, aead)), 0, [], BEGINNING, false)
    {
      keys, messageSeq, this.mtu := Keys(Half(0, 0, aead), Half(0, 0, aead)), 0, mtu;
      outgoing := new Outgoing[MAX_FLIGHT](_ => Outgoing([], 0, false));
      outgoingLen, at, messagesComplete := 0, BEGINNING, false;
    }

    // add_outgoing
    method Add(isCcs: bool, data: seq<byte>) returns (ok: bool)
      requires Valid()
      modifies this`outgoingLen, this`at, this`messagesComplete, this`messageSeq, outgoing
      ensures Valid() && Added(ok, View()) == AddOutgoing(old(View()), isCcs, data)
    {
      if messagesComplete {
        outgoingLen, at, messagesComplete := 0, BEGINNING, false;
      }
      if outgoingLen >= MAX_FLIGHT || |data| > 0xffff_ffff {
        return false;
      }
      if !isCcs {
        messageSeq := (messageSeq + 1) % MESSAGE_SEQS;
      }
      outgoing[outgoingLen] := Outgoing(data, keys.current.epoch, isCcs);
      outgoingLen := outgoingLen + 1;
      ok := true;
    }

    // dtls1_set_write_state
    method ChangeWriteState(next: Aead)
      requires Valid() && next.recordVersion < 0x1_0000
      modifies this`keys
      ensures Valid() && keys == SetWriteState(old(keys), next)
    {
      var epoch := (keys.current.epoch + 1) % EPOCHS;
      keys := keys.(last := keys.current);
      keys := keys.(current := Half(epoch, 0, next));
    }

    // seal_next_message for the message under the cursor; the caller steps
    // over a finished message.
    method SealNextMessage(maxOut: nat) returns (r: Sealed)
      requires Valid() && at.written < outgoingLen
      modifies this`keys, this`at
      ensures Valid()
      ensures r == SealNext(old(keys), outgoing[old(at.written)], old(at.offset), maxOut)
      ensures keys == if r.SealNoProgress? then old(keys) else Used(old(keys), outgoing[old(at.written)], r.sequence)
      ensures at == if !r.SealProgress? then old(at)
                    else if r.piece.Ends() then Position(old(at.written), 0) else After(old(at), r.piece)
    {
      var msg := outgoing[at.written];
      var half := HalfFor(keys, msg);
      if !EpochKnown(keys, msg) {
        return SealError(half.sequence);
      }
      var piece := NextPiece(half.aead, msg, at.offset, maxOut);
      if piece.Malformed? {
        return SealError(half.sequence);
      }
      if piece.NoRoom? {
        return SealNoProgress;
      }
      var s := SealRecord(half, keys.current.aead.recordVersion, TypeOf(piece), PlainOf(piece), maxOut);
      keys := Used(keys, msg, s.sequence);
      if s.record.None? {
        return SealError(s.sequence);
      }
      if piece.Ends() {
        at := at.(offset := 0);
      } else {
        at := at.(offset := at.offset + |piece.body|);
      }
      r := SealProgress(s.record.value, piece, s.sequence);
    }

    // The body of the loop of seal_next_packet.
    method SealTurn(records: seq<WireRecord>, pieces: seq<Todo>, room: nat)
      returns (more: bool, ok: bool, records': seq<WireRecord>, pieces': seq<Todo>, room': nat)
      requires Valid() && at.written < outgoingLen
      modifies this`keys, this`at
      ensures Valid() && (more ==> ok && at.written == old(at.written) + 1)
      ensures Behind(records, pieces, SealLoop(old(keys), Flight(), old(at), room))
        == if more then Behind(records', pieces', SealLoop(keys, Flight(), at, room'))
           else Packet(ok, records', pieces', keys, at)
    {
      hide SealNext;
      ghost var k, from, flight := keys, at, Flight();
      var r := SealNextMessage(room);
      assert Flight() == flight;
      PacketTurn(records, pieces, k, flight, from, room, r);
      match r
      case SealError(_) =>
        return false, false, records, pieces, room;
      case SealNoProgress =>
        return false, true, records, pieces, room;
      case SealProgress(record, piece, _) =>
        if !piece.Ends() {
          return false, true, records + [record], pieces + [piece], room;
        }
        at := at.(written := at.written + 1);
        return true, true, records + [record], pieces + [piece], room - record.Size();
    }

    // seal_next_packet
    method SealNextPacket(maxOut: nat) returns (ok: bool, records: seq<WireRecord>, pieces: seq<Todo>)
      requires Valid()
      modifies this`keys, this`at
      ensures Valid()
      ensures SealPacket(old(keys), Flight(), old(at), maxOut) == Packet(ok, records, pieces, keys, at)
    {
      hide SealNext;
      ok, records, pieces := true, [], [];
      var room, more := maxOut, true;
      ghost var flight, whole := Flight(), SealLoop(keys, Flight(), at, maxOut);
      while more && at.written < outgoingLen
        invariant Valid() && Flight() == flight
        invariant whole == if more then Behind(records, pieces, SealLoop(keys, flight, at, room))
                           else Packet(ok, records, pieces, keys, at)
        invariant more ==> ok
        decreases more, outgoingLen - at.written
      {
        more, ok, records, pieces, room := SealTurn(records, pieces, room);
      }
      ok := ok && records != [];
    }

    // send_flight; a refused packet is taken up again by the next call.
    method Send(bio: seq<bool>) returns (result: SendResult, packets: seq<seq<WireRecord>>, pieces: seq<Todo>)
      requires Valid()
      modifies this`keys, this`at
      ensures Valid()
      ensures SendFlight(old(keys), Flight(), old(at), mtu, bio) == Sent(result, packets, pieces, keys, at)
    {
      hide SealLoop;
      packets, pieces := [], [];
      var left := bio;
      ghost var flight := Flight();
      while at.written < outgoingLen
        invariant Valid() && Flight() == flight
        invariant SendFlight(old(keys), flight, old(at), mtu, bio)
               == SentBehind(packets, pieces, SendFlight(keys, flight, at, mtu, left))
        decreases outgoingLen - at.written, 0x100_0000 - at.offset
      {
        ghost var k := keys;
        var from := at;
        var ok, records, more := SealNextPacket(mtu);
        SendTurn(packets, pieces, k, flight, from, mtu, left, Packet(ok, records, more, keys, at));
        if !ok {
          return SendFailed, packets, pieces;
        }
        if left != [] && !left[0] {
          at := from;
          return BioBlocked, packets, pieces;
        }
        packets, pieces := packets + [records], pieces + more;
        left := if left == [] then [] else left[1..];
      }
      result := FlightDone;
    }

    // dtls1_flush_flight
    method Flush(bio: seq<bool>) returns (result: SendResult, packets: seq<seq<WireRecord>>, pieces: seq<Todo>)
      requires Valid()
      modifies this`keys, this`at, this`messagesComplete
      ensures Valid() && messagesComplete
      ensures SendFlight(old(keys), Flight(), old(at), mtu, bio) == Sent(result, packets, pieces, keys, at)
    {
      messagesComplete := true;
      result, packets, pieces := Send(bio);
    }

    // dtls1_retransmit_outgoing_messages
    method Retransmit(bio: seq<bool>) returns (result: SendResult, packets: seq<seq<WireRecord>>, pieces: seq<Todo>)
      requires Valid()
      modifies this`keys, this`at
      ensures Valid()
      ensures SendFlight(old(keys), Flight(), BEGINNING, mtu, bio) == Sent(result, packets, pieces, keys, at)
    {
      at := BEGINNING;
      result, packets, pieces := Send(bio);
    }
  }
}
