// What sending a flight achieves: datagrams within the MTU, every byte of
// every message exactly once and in order, and progress.

module DtlsFlight {
  import opened Bytes
  import opened DtlsFragment
  import opened DtlsRecord
  import opened DtlsWriter

  // ------------------------------------------------------------------
  // Datagrams fit the MTU

  lemma {:induction false} PacketFits(k: Keys, flight: seq<Outgoing>, at: Position, maxOut: nat)
    requires KeysOk(k) && at.written <= |flight|
    ensures |Datagram(SealLoop(k, flight, at, maxOut).records)| <= maxOut
    decreases |flight| - at.written
  {
    if at.written < |flight| {
      var r := SealNext(k, flight[at.written], at.offset, maxOut);
      if r.SealProgress? {
        var keys, room := Used(k, flight[at.written], r.sequence), maxOut - r.record.Size();
        OneRecord(r.record);
        if r.piece.Ends() {
          PacketFits(keys, flight, After(at, r.piece), room);
          OneMoreRecord(r.record, SealLoop(keys, flight, After(at, r.piece), room).records);
        }
      }
    }
  }

  lemma OneMoreRecord(record: WireRecord, records: seq<WireRecord>)
    ensures |Datagram([record] + records)| == record.Size() + |Datagram(records)|
  {
    assert ([record] + records)[1..] == records;
    assert |WireBytes(record)| == record.Size();
  }

  lemma OneRecord(record: WireRecord)
    ensures Datagram([record]) == WireBytes(record)
  {
    assert [record][1..] == [];
  }

  lemma {:induction false} DatagramsFitMtu(k: Keys, flight: seq<Outgoing>, at: Position, mtu: nat, bio: seq<bool>)
    requires KeysOk(k) && at.written <= |flight|
    ensures forall p :: p in SendFlight(k, flight, at, mtu, bio).packets ==> |Datagram(p)| <= mtu
    decreases |flight| - at.written, 0x100_0000 - at.offset
  {
    if at.written < |flight| {
      PacketFits(k, flight, at, mtu);
      var p := SealPacket(k, flight, at, mtu);
      if p.ok {
        DatagramsFitMtu(p.keys, flight, p.at, mtu, if bio == [] then [] else bio[1..]);
      }
    }
  }

  // ------------------------------------------------------------------
  // The pieces tile the flight

  predicate IsMessage(m: Outgoing) {
    !m.isCcs && WholeMessage(m.data).Some?
  }

  function BodyOf(m: Outgoing): seq<byte>
    requires IsMessage(m)
  {
    WholeMessage(m.data).value.body
  }

  function SeqOf(m: Outgoing): nat
    requires IsMessage(m)
  {
    WholeMessage(m.data).value.hdr.msgSeq
  }

  // What dtls1_finish_message produces is such a message.
  lemma RawIsWhole(messageSeq: nat, typ: byte, body: seq<byte>)
    requires messageSeq < MESSAGE_SEQS && |body| < 0x100_0000
    ensures WholeMessage(RawMessage(messageSeq, typ, body))
      == Some(Parsed(Header(typ, |body|, messageSeq, 0, |body|), body, []))
  {
    var h := Header(typ, |body|, messageSeq, 0, |body|);
    assert RawMessage(messageSeq, typ, body) == FragmentBytes(h, body) + [];
    ParseInvertsWrite(h, body, []);
  }

  // The piece is the part of the message that starts at offset; it is empty
  // only for an empty message.
  ghost predicate SliceAt(m: Outgoing, offset: nat, piece: Todo) {
    match piece
    case ChangeCipherSpec => m.isCcs
    case Piece(hdr, body) =>
      && IsMessage(m)
      && offset + |body| <= |BodyOf(m)|
      && (body == [] ==> BodyOf(m) == [])
      && body == BodyOf(m)[offset..offset + |body|]
      && hdr == WholeMessage(m.data).value.hdr.(fragOff := offset, fragLen := |body|)
    case _ => false
  }

  ghost predicate Tiles(flight: seq<Outgoing>, from: Position, pieces: seq<Todo>, to: Position)
    decreases |pieces|
  {
    if pieces == [] then from == to
    else
      && from.written < |flight| && SliceAt(flight[from.written], from.offset, pieces[0])
      && Tiles(flight, After(from, pieces[0]), pieces[1..], to)
  }

  lemma {:induction false} TilesCompose(flight: seq<Outgoing>, a: Position, p: seq<Todo>, b: Position, q: seq<Todo>,
                                        c: Position)
    requires Tiles(flight, a, p, b) && Tiles(flight, b, q, c)
    ensures Tiles(flight, a, p + q, c)
    decreases |p|
  {
    if p == [] {
      assert p + q == q;
    } else {
      TilesCompose(flight, After(a, p[0]), p[1..], b, q, c);
      assert (p + q)[1..] == p[1..] + q;
    }
  }

  lemma {:induction false} TilesSplit(flight: seq<Outgoing>, from: Position, pieces: seq<Todo>, to: Position, n: nat)
    returns (mid: Position)
    requires Tiles(flight, from, pieces, to) && n <= |pieces|
    ensures Tiles(flight, from, pieces[..n], mid) && Tiles(flight, mid, pieces[n..], to)
    decreases n
  {
    if n == 0 {
      mid := from;
      assert pieces[0..] == pieces && pieces[..0] == [];
    } else {
      mid := TilesSplit(flight, After(from, pieces[0]), pieces[1..], to, n - 1);
      assert pieces[..n][1..] == pieces[1..][..n - 1];
      assert pieces[n..] == pieces[1..][n - 1..];
    }
  }

  // The cursor is at the start of a message or inside it.
  ghost predicate CursorOk(flight: seq<Outgoing>, at: Position) {
    && at.written <= |flight|
    && (at.offset != 0 ==> at.written < |flight| && IsMessage(flight[at.written]) && at.offset < |BodyOf(flight[at.written])|)
  }

  lemma NextPieceIsSlice(aead: Aead, m: Outgoing, offset: nat, maxOut: nat)
    requires offset != 0 ==> IsMessage(m) && offset < |BodyOf(m)|
    ensures var piece := NextPiece(aead, m, offset, maxOut);
      piece.Sendable() ==> SliceAt(m, offset, piece)
  {}

  // A piece that does not end its message fills the room, and there is no room
  // exactly if not one byte fits with the header and the overhead.
  lemma PieceFills(aead: Aead, m: Outgoing, offset: nat, room: nat)
    requires aead.Correct() && (m.isCcs || (IsMessage(m) && offset <= |BodyOf(m)|))
    ensures var piece := NextPiece(aead, m, offset, room);
      && (piece.NoRoom? <==> room < (if m.isCcs then 0 else HM_HEADER_LENGTH) + 1 + RT_HEADER_LENGTH + aead.maxOverhead)
      && (piece.Piece? && !piece.Ends() ==> room == HM_HEADER_LENGTH + |piece.body| + RT_HEADER_LENGTH + aead.maxOverhead)
  {}

  lemma SliceMovesCursor(flight: seq<Outgoing>, at: Position, piece: Todo)
    requires CursorOk(flight, at) && at.written < |flight| && SliceAt(flight[at.written], at.offset, piece)
    requires piece.Piece? ==> piece.Sendable() && (piece.Ends() || piece.hdr.fragLen > 0)
    ensures CursorOk(flight, After(at, piece))
  {}

  lemma TilesCons(flight: seq<Outgoing>, from: Position, piece: Todo, rest: seq<Todo>, to: Position)
    requires from.written < |flight| && SliceAt(flight[from.written], from.offset, piece)
    requires Tiles(flight, After(from, piece), rest, to)
    ensures Tiles(flight, from, [piece] + rest, to)
  {
    assert ([piece] + rest)[1..] == rest;
  }

  // A sealed piece is a slice at the cursor and leaves the cursor in place.
  lemma ProgressIsSlice(k: Keys, flight: seq<Outgoing>, at: Position, maxOut: nat)
    requires KeysOk(k) && CursorOk(flight, at) && at.written < |flight|
    ensures var r := SealNext(k, flight[at.written], at.offset, maxOut);
      r.SealProgress? ==> SliceAt(flight[at.written], at.offset, r.piece) && CursorOk(flight, After(at, r.piece))
  {
    var m := flight[at.written];
    NextPieceIsSlice(HalfFor(k, m).aead, m, at.offset, maxOut);
    var r := SealNext(k, m, at.offset, maxOut);
    if r.SealProgress? {
      SliceMovesCursor(flight, at, r.piece);
    }
  }

  lemma {:induction false} PacketTiles(k: Keys, flight: seq<Outgoing>, at: Position, maxOut: nat)
    requires KeysOk(k) && CursorOk(flight, at)
    ensures var p := SealLoop(k, flight, at, maxOut);
      Tiles(flight, at, p.pieces, p.at) && CursorOk(flight, p.at)
    decreases |flight| - at.written
  {
    if at.written < |flight| {
      ProgressIsSlice(k, flight, at, maxOut);
      var r := SealNext(k, flight[at.written], at.offset, maxOut);
      if r.SealProgress? {
        var next := After(at, r.piece);
        if r.piece.Ends() {
          var keys := Used(k, flight[at.written], r.sequence);
          PacketTiles(keys, flight, next, maxOut - r.record.Size());
          var rest := SealLoop(keys, flight, next, maxOut - r.record.Size());
          TilesCons(flight, at, r.piece, rest.pieces, rest.at);
        } else {
          TilesCons(flight, at, r.piece, [], next);
          assert [r.piece] + [] == [r.piece];
        }
      }
    }
  }

  // What BIO_write accepted is a gapless tiling, from the cursor before the
  // call to the cursor after it, also when the call stops at a refused packet.
  lemma {:induction false} SendFlightTiles(k: Keys, flight: seq<Outgoing>, at: Position, mtu: nat, bio: seq<bool>)
    requires KeysOk(k) && CursorOk(flight, at)
    ensures var s := SendFlight(k, flight, at, mtu, bio);
      s.result != SendFailed ==> Tiles(flight, at, s.pieces, s.at) && CursorOk(flight, s.at)
    decreases |flight| - at.written, 0x100_0000 - at.offset
  {
    if at.written < |flight| {
      PacketTiles(k, flight, at, mtu);
      var p := SealPacket(k, flight, at, mtu);
      if p.ok && (bio == [] || bio[0]) {
        var bio' := if bio == [] then [] else bio[1..];
        SendFlightTiles(p.keys, flight, p.at, mtu, bio');
        var rest := SendFlight(p.keys, flight, p.at, mtu, bio');
        if rest.result != SendFailed {
          TilesCompose(flight, at, p.pieces, p.at, rest.pieces, rest.at);
        }
      }
    }
  }

  // One call of send_flight after another, at any MTU and with any refusals.
  datatype Attempt = Attempt(mtu: nat, bio: seq<bool>)

  function SendAll(k: Keys, flight: seq<Outgoing>, at: Position, attempts: seq<Attempt>): (s: Sent)
    requires KeysOk(k) && at.written <= |flight|
    decreases |attempts|
  {
    if attempts == [] then Sent(if at.written == |flight| then FlightDone else BioBlocked, [], [], k, at)
    else
      var s := SendFlight(k, flight, at, attempts[0].mtu, attempts[0].bio);
      if s.result == SendFailed then s
      else
        var rest := SendAll(s.keys, flight, s.at, attempts[1..]);
        rest.(packets := s.packets + rest.packets, pieces := s.pieces + rest.pieces)
  }

  lemma {:induction false} SendAllTiles(k: Keys, flight: seq<Outgoing>, at: Position, attempts: seq<Attempt>)
    requires KeysOk(k) && CursorOk(flight, at)
    ensures var s := SendAll(k, flight, at, attempts);
      s.result != SendFailed ==> Tiles(flight, at, s.pieces, s.at) && (s.result == FlightDone <==> s.at.written == |flight|)
    decreases |attempts|
  {
    if attempts != [] {
      SendFlightTiles(k, flight, at, attempts[0].mtu, attempts[0].bio);
      var s := SendFlight(k, flight, at, attempts[0].mtu, attempts[0].bio);
      if s.result != SendFailed {
        SendAllTiles(s.keys, flight, s.at, attempts[1..]);
        var rest := SendAll(s.keys, flight, s.at, attempts[1..]);
        if rest.result != SendFailed {
          TilesCompose(flight, at, s.pieces, s.at, rest.pieces, rest.at);
        }
      }
    }
  }

  // ------------------------------------------------------------------
  // What a tiling means for the messages

  ghost predicate DistinctSeqs(flight: seq<Outgoing>) {
    forall i, j :: 0 <= i < j < |flight| && IsMessage(flight[i]) && IsMessage(flight[j]) ==>
      SeqOf(flight[i]) != SeqOf(flight[j])
  }

  // The bodies of all fragments of message number n, end to end.
  function Collected(pieces: seq<Todo>, n: nat): seq<byte> {
    if pieces == [] then []
    else (if pieces[0].Piece? && pieces[0].hdr.msgSeq == n then pieces[0].body else []) + Collected(pieces[1..], n)
  }

  // How much of message i lies before a cursor.
  function Before(flight: seq<Outgoing>, i: nat, at: Position): nat
    requires i < |flight| && IsMessage(flight[i])
  {
    var len := |BodyOf(flight[i])|;
    if i < at.written then len else if i == at.written then Min(at.offset, len) else 0
  }

  // One piece covers what lies between the cursors around it.
  lemma PieceCovers(flight: seq<Outgoing>, from: Position, piece: Todo, i: nat)
    requires DistinctSeqs(flight) && i < |flight| && IsMessage(flight[i])
    requires from.written < |flight| && SliceAt(flight[from.written], from.offset, piece)
    ensures var lo, hi := Before(flight, i, from), Before(flight, i, After(from, piece));
      lo <= hi && BodyOf(flight[i])[lo..hi]
        == if piece.Piece? && piece.hdr.msgSeq == SeqOf(flight[i]) then piece.body else []
  {
    if piece.Piece? && from.written != i {
      assert SeqOf(flight[from.written]) != SeqOf(flight[i]);
    }
  }

  lemma {:induction false} TilesCollect(flight: seq<Outgoing>, from: Position, pieces: seq<Todo>, to: Position, i: nat)
    requires DistinctSeqs(flight) && Tiles(flight, from, pieces, to)
    requires i < |flight| && IsMessage(flight[i])
    ensures var lo, hi := Before(flight, i, from), Before(flight, i, to);
      lo <= hi && Collected(pieces, SeqOf(flight[i])) == BodyOf(flight[i])[lo..hi]
    decreases |pieces|
  {
    if pieces != [] {
      var mid := After(from, pieces[0]);
      PieceCovers(flight, from, pieces[0], i);
      TilesCollect(flight, mid, pieces[1..], to, i);
      JoinSlices(BodyOf(flight[i]), Before(flight, i, from), Before(flight, i, mid), Before(flight, i, to));
    }
  }

  lemma JoinSlices(s: seq<byte>, lo: nat, mid: nat, hi: nat)
    requires lo <= mid <= hi <= |s|
    ensures s[lo..mid] + s[mid..hi] == s[lo..hi]
  {}

  // A flight sent to its end, over any number of calls, MTUs and refused
  // writes, put every byte of every message on the wire exactly once, each
  // fragment starting where the previous one of its message ended.
  lemma FlightCovered(k: Keys, flight: seq<Outgoing>, attempts: seq<Attempt>, i: nat, j: nat)
    requires KeysOk(k) && DistinctSeqs(flight) && i < |flight| && IsMessage(flight[i])
    requires SendAll(k, flight, BEGINNING, attempts).result == FlightDone
    ensures var pieces, n := SendAll(k, flight, BEGINNING, attempts).pieces, SeqOf(flight[i]);
      && Collected(pieces, n) == BodyOf(flight[i])
      && (j < |pieces| && pieces[j].Piece? && pieces[j].hdr.msgSeq == n
        ==> pieces[j].hdr.fragOff == |Collected(pieces[..j], n)|)
  {
    var s := SendAll(k, flight, BEGINNING, attempts);
    SendAllTiles(k, flight, BEGINNING, attempts);
    TilesCollect(flight, BEGINNING, s.pieces, s.at, i);
    if j < |s.pieces| && s.pieces[j].Piece? && s.pieces[j].hdr.msgSeq == SeqOf(flight[i]) {
      var mid := TilesSplit(flight, BEGINNING, s.pieces, s.at, j);
      TilesCollect(flight, BEGINNING, s.pieces[..j], mid, i);
      assert SeqOf(flight[mid.written]) == SeqOf(flight[i]);
    }
  }
}
