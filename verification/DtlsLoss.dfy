// What seal errors do to a flight. seal_next_packet steps over every piece it
// seals, and send_flight does not roll the cursor back when the packet fails
// further on: exactly then pieces are left out that were never written.

module DtlsLoss {
  import opened Bytes
  import opened DtlsFragment
  import opened DtlsRecord
  import opened DtlsWriter
  import opened DtlsFlight

  // ------------------------------------------------------------------
  // The guards of the failing branches

  function Ciphertext(k: Keys, m: Outgoing, piece: Todo): seq<byte>
    requires piece.Sendable()
  {
    var h := HalfFor(k, m);
    h.aead.seal(Number(h.epoch, h.sequence), TypeOf(piece), k.current.aead.recordVersion, PlainOf(piece))
  }

  // One turn fails: on an unknown epoch, a message or an offset that does not
  // fit, the last record number, or a ciphertext too long for its length field
  // or for the room.
  predicate TurnFails(k: Keys, m: Outgoing, offset: nat, room: nat) {
    var h := HalfFor(k, m);
    var piece := NextPiece(h.aead, m, offset, room);
    || !EpochKnown(k, m)
    || piece.Malformed?
    || (piece.Sendable() &&
        var size := |Ciphertext(k, m, piece)|;
        h.sequence == SEQUENCES - 1 || size >= 0x1_0000 || RT_HEADER_LENGTH + size > room)
  }

  // The keys after a record for m.
  function Spent(k: Keys, m: Outgoing): Keys {
    Used(k, m, HalfFor(k, m).sequence + 1)
  }

  // What the guards decide is what sealing does.
  lemma GuardsDecide(k: Keys, m: Outgoing, offset: nat, room: nat)
    requires KeysOk(k)
    ensures var r, piece := SealNext(k, m, offset, room), NextPiece(HalfFor(k, m).aead, m, offset, room);
      && (r.SealError? <==> TurnFails(k, m, offset, room))
      && (r.SealNoProgress? <==> EpochKnown(k, m) && piece.NoRoom?)
      && (r.SealProgress? ==>
          && r.piece == piece && Used(k, m, r.sequence) == Spent(k, m) && KeysOk(Spent(k, m))
          && r.record.Size() == RT_HEADER_LENGTH + |Ciphertext(k, m, piece)| <= room)
  {}

  // From this cursor on, a turn of seal_next_packet fails; behind tells
  // whether a record was sealed before.
  predicate FailsBehind(k: Keys, flight: seq<Outgoing>, at: Position, room: nat, behind: bool)
    requires KeysOk(k) && at.written <= |flight|
    decreases |flight| - at.written
  {
    at.written < |flight| &&
    var m := flight[at.written];
    var piece := NextPiece(HalfFor(k, m).aead, m, at.offset, room);
    if TurnFails(k, m, at.offset, room) then behind
    else
      && !piece.NoRoom? && piece.Ends()
      && FailsBehind(Spent(k, m), flight, After(at, piece), room - RT_HEADER_LENGTH - |Ciphertext(k, m, piece)|, true)
  }

  // One turn of the loop of the specification.
  lemma LoopTurns(k: Keys, flight: seq<Outgoing>, at: Position, room: nat)
    requires KeysOk(k) && at.written < |flight|
    ensures var p, r := SealLoop(k, flight, at, room), SealNext(k, flight[at.written], at.offset, room);
      && (r.SealError? ==> !p.ok && p.records == [])
      && (r.SealNoProgress? ==> p.ok)
      && (r.SealProgress? && !r.piece.Ends() ==> p.ok)
      && (r.SealProgress? && r.piece.Ends() ==>
          var keys, less := Used(k, flight[at.written], r.sequence), room - r.record.Size();
          p.records != [] && p.ok == SealLoop(keys, flight, After(at, r.piece), less).ok)
  {
    hide SealNext;
  }

  lemma {:induction false} PacketFails(k: Keys, flight: seq<Outgoing>, at: Position, room: nat, behind: bool)
    requires KeysOk(k) && at.written <= |flight|
    ensures var p := SealLoop(k, flight, at, room);
      FailsBehind(k, flight, at, room, behind) <==> !p.ok && (behind || p.records != [])
    decreases |flight| - at.written
  {
    hide SealNext, NextPiece, TurnFails, Spent, Ciphertext;
    if at.written < |flight| {
      var m := flight[at.written];
      GuardsDecide(k, m, at.offset, room);
      LoopTurns(k, flight, at, room);
      var r := SealNext(k, m, at.offset, room);
      hide SealLoop;
      if r.SealProgress? && r.piece.Ends() {
        PacketFails(Spent(k, m), flight, After(at, r.piece), room - r.record.Size(), true);
      }
    }
  }

  // Its first turn seals something, and no turn behind it fails.
  predicate PacketGoes(k: Keys, flight: seq<Outgoing>, at: Position, mtu: nat)
    requires KeysOk(k) && at.written < |flight|
  {
    var m := flight[at.written];
    && !TurnFails(k, m, at.offset, mtu) && !NextPiece(HalfFor(k, m).aead, m, at.offset, mtu).NoRoom?
    && !FailsBehind(k, flight, at, mtu, false)
  }

  // Exactly then a packet can be sent.
  lemma PacketSealed(k: Keys, flight: seq<Outgoing>, at: Position, mtu: nat)
    requires KeysOk(k) && at.written < |flight|
    ensures SealPacket(k, flight, at, mtu).ok <==> PacketGoes(k, flight, at, mtu)
  {
    hide SealNext, NextPiece, TurnFails, FailsBehind;
    PacketFails(k, flight, at, mtu, false);
    GuardsDecide(k, flight[at.written], at.offset, mtu);
  }

  // ------------------------------------------------------------------
  // Calls of send_flight

  // The cursor behind some pieces.
  function Passed(from: Position, pieces: seq<Todo>): Position
    decreases |pieces|
  {
    if pieces == [] then from else Passed(After(from, pieces[0]), pieces[1..])
  }

  lemma {:induction false} PassedAppend(from: Position, a: seq<Todo>, b: seq<Todo>)
    ensures Passed(from, a + b) == Passed(Passed(from, a), b)
    decreases |a|
  {
    if a == [] {
      assert a + b == b;
    } else {
      assert (a + b)[1..] == a[1..] + b;
      PassedAppend(After(from, a[0]), a[1..], b);
    }
  }

  lemma {:induction false} PacketPasses(k: Keys, flight: seq<Outgoing>, at: Position, room: nat)
    requires KeysOk(k) && at.written <= |flight|
    ensures var p := SealLoop(k, flight, at, room); p.at == Passed(at, p.pieces)
    decreases |flight| - at.written
  {
    hide SealNext;
    if at.written < |flight| {
      var r := SealNext(k, flight[at.written], at.offset, room);
      if r.SealProgress? {
        var next, keys, less := After(at, r.piece), Used(k, flight[at.written], r.sequence), room - r.record.Size();
        if r.piece.Ends() {
          PacketPasses(keys, flight, next, less);
          assert ([r.piece] + SealLoop(keys, flight, next, less).pieces)[1..] == SealLoop(keys, flight, next, less).pieces;
        } else {
          assert [r.piece][1..] == [];
        }
      }
    }
  }

  // Some packet of the call, behind packets that go and are written, fails
  // behind a record.
  predicate CallLoses(k: Keys, flight: seq<Outgoing>, at: Position, mtu: nat, bio: seq<bool>)
    requires KeysOk(k) && at.written <= |flight|
    decreases |flight| - at.written, 0x100_0000 - at.offset
  {
    at.written < |flight| &&
    (FailsBehind(k, flight, at, mtu, false)
     || (PacketGoes(k, flight, at, mtu) && (bio == [] || bio[0]) &&
         var p := SealPacket(k, flight, at, mtu);
         PacketSealed(k, flight, at, mtu);
         CallLoses(p.keys, flight, p.at, mtu, if bio == [] then [] else bio[1..])))
  }

  // A call leaves its cursor behind the pieces it wrote and no further, unless
  // a turn behind a sealed record met the guard of a failing branch.
  lemma {:induction false} LosesExactly(k: Keys, flight: seq<Outgoing>, at: Position, mtu: nat, bio: seq<bool>)
    requires KeysOk(k) && at.written <= |flight|
    ensures var s := SendFlight(k, flight, at, mtu, bio);
      && (CallLoses(k, flight, at, mtu, bio) <==> s.at != Passed(at, s.pieces))
      && (CallLoses(k, flight, at, mtu, bio) ==> s.result == SendFailed && Passed(at, s.pieces).written < s.at.written)
    decreases |flight| - at.written, 0x100_0000 - at.offset
  {
    hide SealLoop, FailsBehind, PacketGoes;
    if at.written < |flight| {
      PacketFails(k, flight, at, mtu, false);
      PacketSealed(k, flight, at, mtu);
      PacketPasses(k, flight, at, mtu);
      var p := SealPacket(k, flight, at, mtu);
      if !p.ok {
        EmptyPacketStays(k, flight, at, mtu);
      } else if bio == [] || bio[0] {
        var bio' := if bio == [] then [] else bio[1..];
        LosesExactly(p.keys, flight, p.at, mtu, bio');
        PassedAppend(at, p.pieces, SendFlight(p.keys, flight, p.at, mtu, bio').pieces);
      }
    }
  }

  lemma EmptyPacketStays(k: Keys, flight: seq<Outgoing>, at: Position, room: nat)
    requires KeysOk(k) && at.written <= |flight|
    ensures var p := SealLoop(k, flight, at, room);
      && (p.records == [] ==> p.at == at)
      && (p.records != [] && !p.ok ==> at.written < p.at.written)
  {
    hide SealNext;
  }

  // ------------------------------------------------------------------
  // Calls that go on after a failure

  // One call after another, whatever becomes of them; the result says whether
  // the flight was sent to its end.
  function CallAll(k: Keys, flight: seq<Outgoing>, at: Position, attempts: seq<Attempt>): (s: Sent)
    requires KeysOk(k) && at.written <= |flight|
    ensures KeysOk(s.keys) && s.at.written <= |flight|
    decreases |attempts|
  {
    if attempts == [] then Sent(if at.written == |flight| then FlightDone else BioBlocked, [], [], k, at)
    else
      var s := SendFlight(k, flight, at, attempts[0].mtu, attempts[0].bio);
      var rest := CallAll(s.keys, flight, s.at, attempts[1..]);
      rest.(packets := s.packets + rest.packets, pieces := s.pieces + rest.pieces)
  }

  predicate SomeCallLoses(k: Keys, flight: seq<Outgoing>, at: Position, attempts: seq<Attempt>)
    requires KeysOk(k) && at.written <= |flight|
    decreases |attempts|
  {
    attempts != [] &&
    var s := SendFlight(k, flight, at, attempts[0].mtu, attempts[0].bio);
    CallLoses(k, flight, at, attempts[0].mtu, attempts[0].bio) || SomeCallLoses(s.keys, flight, s.at, attempts[1..])
  }

  // A cursor that is messages behind stays behind.
  lemma {:induction false} StaysBehind(from: Position, to: Position, pieces: seq<Todo>)
    requires from.written < to.written
    ensures Passed(from, pieces).written < Passed(to, pieces).written
    decreases |pieces|
  {
    if pieces != [] {
      StaysBehind(After(from, pieces[0]), After(to, pieces[0]), pieces[1..]);
    }
  }

  // Over any calls, the cursor is behind the pieces that were written and no
  // further, unless a call lost some: what one call loses, no later one makes
  // up for.
  lemma {:induction false} CallsLoseExactly(k: Keys, flight: seq<Outgoing>, at: Position, attempts: seq<Attempt>)
    requires KeysOk(k) && at.written <= |flight|
    ensures var s := CallAll(k, flight, at, attempts);
      if SomeCallLoses(k, flight, at, attempts) then Passed(at, s.pieces).written < s.at.written
      else s.at == Passed(at, s.pieces)
    decreases |attempts|
  {
    hide SendFlight, CallLoses;
    if attempts != [] {
      var a := attempts[0];
      var s := SendFlight(k, flight, at, a.mtu, a.bio);
      var rest := CallAll(s.keys, flight, s.at, attempts[1..]);
      LosesExactly(k, flight, at, a.mtu, a.bio);
      CallsLoseExactly(s.keys, flight, s.at, attempts[1..]);
      PassedAppend(at, s.pieces, rest.pieces);
      if CallLoses(k, flight, at, a.mtu, a.bio) {
        StaysBehind(Passed(at, s.pieces), s.at, rest.pieces);
      }
    }
  }

  lemma {:induction false} TilingPasses(flight: seq<Outgoing>, from: Position, pieces: seq<Todo>, to: Position)
    requires Tiles(flight, from, pieces, to)
    ensures to == Passed(from, pieces)
    decreases |pieces|
  {
    if pieces != [] {
      TilingPasses(flight, After(from, pieces[0]), pieces[1..], to);
    }
  }

  // Of each packet the pieces are slices, also of one that failed.
  lemma {:induction false} CallTiles(k: Keys, flight: seq<Outgoing>, at: Position, mtu: nat, bio: seq<bool>)
    requires KeysOk(k) && CursorOk(flight, at)
    ensures var s := SendFlight(k, flight, at, mtu, bio);
      Tiles(flight, at, s.pieces, Passed(at, s.pieces)) && CursorOk(flight, s.at)
    decreases |flight| - at.written, 0x100_0000 - at.offset
  {
    hide SealLoop;
    if at.written < |flight| {
      PacketTiles(k, flight, at, mtu);
      var p := SealPacket(k, flight, at, mtu);
      if p.ok && (bio == [] || bio[0]) {
        var bio' := if bio == [] then [] else bio[1..];
        CallTiles(p.keys, flight, p.at, mtu, bio');
        var rest := SendFlight(p.keys, flight, p.at, mtu, bio');
        TilingPasses(flight, at, p.pieces, p.at);
        PassedAppend(at, p.pieces, rest.pieces);
        TilesCompose(flight, at, p.pieces, p.at, rest.pieces, Passed(p.at, rest.pieces));
      }
    }
  }

  lemma {:induction false} LosslessCallsTile(k: Keys, flight: seq<Outgoing>, at: Position, attempts: seq<Attempt>)
    requires KeysOk(k) && CursorOk(flight, at) && !SomeCallLoses(k, flight, at, attempts)
    ensures var s := CallAll(k, flight, at, attempts); Tiles(flight, at, s.pieces, s.at)
    decreases |attempts|
  {
    hide SendFlight, CallLoses;
    if attempts != [] {
      var a := attempts[0];
      var s := SendFlight(k, flight, at, a.mtu, a.bio);
      var rest := CallAll(s.keys, flight, s.at, attempts[1..]);
      LosesExactly(k, flight, at, a.mtu, a.bio);
      CallTiles(k, flight, at, a.mtu, a.bio);
      LosslessCallsTile(s.keys, flight, s.at, attempts[1..]);
      TilesCompose(flight, at, s.pieces, s.at, rest.pieces, rest.at);
    }
  }

  // Over any calls, failed ones included, what was accepted tiles the flight
  // up to the last cursor if and only if no call lost a piece.
  lemma CallsTileUnlessLost(k: Keys, flight: seq<Outgoing>, at: Position, attempts: seq<Attempt>)
    requires KeysOk(k) && CursorOk(flight, at)
    ensures var s := CallAll(k, flight, at, attempts);
      Tiles(flight, at, s.pieces, s.at) <==> !SomeCallLoses(k, flight, at, attempts)
  {
    hide CallAll, SomeCallLoses;
    var s := CallAll(k, flight, at, attempts);
    CallsLoseExactly(k, flight, at, attempts);
    if SomeCallLoses(k, flight, at, attempts) {
      if Tiles(flight, at, s.pieces, s.at) {
        TilingPasses(flight, at, s.pieces, s.at);
      }
    } else {
      LosslessCallsTile(k, flight, at, attempts);
    }
  }

  // So a flight that reached its end without a loss is covered, although
  // calls may have failed.
  lemma CoveredUnlessLost(k: Keys, flight: seq<Outgoing>, attempts: seq<Attempt>, i: nat)
    requires KeysOk(k) && DistinctSeqs(flight) && i < |flight| && IsMessage(flight[i])
    requires !SomeCallLoses(k, flight, BEGINNING, attempts) && i < CallAll(k, flight, BEGINNING, attempts).at.written
    ensures Collected(CallAll(k, flight, BEGINNING, attempts).pieces, SeqOf(flight[i])) == BodyOf(flight[i])
  {
    hide CallAll, SomeCallLoses;
    var s := CallAll(k, flight, BEGINNING, attempts);
    LosslessCallsTile(k, flight, BEGINNING, attempts);
    TilesCollect(flight, BEGINNING, s.pieces, s.at, i);
  }

  // ------------------------------------------------------------------
  // When nothing fails

  function Overhead(k: Keys, m: Outgoing): nat {
    RT_HEADER_LENGTH + HalfFor(k, m).aead.maxOverhead
  }

  // The plaintext of the largest record for m.
  function Longest(m: Outgoing): nat
    requires m.isCcs || IsMessage(m)
  {
    if m.isCcs then |CCS_BODY| else HM_HEADER_LENGTH + |BodyOf(m)|
  }

  // The MTU has room for one byte of m, and not for a ciphertext that its
  // length field cannot tell.
  predicate MtuOk(k: Keys, m: Outgoing, mtu: nat)
    requires m.isCcs || IsMessage(m)
  {
    && Overhead(k, m) + HM_HEADER_LENGTH + 1 <= mtu
    && (mtu < RT_HEADER_LENGTH + 0x1_0000 || Longest(m) + HalfFor(k, m).aead.maxOverhead < 0x1_0000)
  }

  // A message of the current or previous epoch, or a ChangeCipherSpec of them.
  ghost predicate Sealable(k: Keys, m: Outgoing) {
    EpochKnown(k, m) && HalfFor(k, m).aead.Correct() && (m.isCcs || IsMessage(m))
  }

  // Of the guards only two can hold then: the last record number, and a
  // ciphertext of 2^16 bytes or more.
  lemma OnlyLimitsFail(k: Keys, m: Outgoing, offset: nat, room: nat)
    requires Sealable(k, m) && (m.isCcs || offset <= |BodyOf(m)|)
    ensures var piece := NextPiece(HalfFor(k, m).aead, m, offset, room);
      && (piece.NoRoom? ==> room < HM_HEADER_LENGTH + 1 + Overhead(k, m))
      && (TurnFails(k, m, offset, room) <==>
          piece.Sendable() && (HalfFor(k, m).sequence == SEQUENCES - 1 || |Ciphertext(k, m, piece)| >= 0x1_0000))
      && (piece.Sendable() ==>
          |Ciphertext(k, m, piece)| <= room - RT_HEADER_LENGTH && |Ciphertext(k, m, piece)| <= Longest(m) + HalfFor(k, m).aead.maxOverhead)
  {
    var piece := NextPiece(HalfFor(k, m).aead, m, offset, room);
    if piece.Sendable() {
      assert |PlainOf(piece)| <= Longest(m) && |PlainOf(piece)| + Overhead(k, m) <= room;
    }
  }

  // So within the bounds a turn seals a piece, as long as there is room.
  lemma TurnSeals(k: Keys, m: Outgoing, offset: nat, room: nat, mtu: nat)
    requires Sealable(k, m) && (m.isCcs || offset <= |BodyOf(m)|) && MtuOk(k, m, mtu) && room <= mtu
    requires HalfFor(k, m).sequence < SEQUENCES - 1
    ensures !TurnFails(k, m, offset, room)
    ensures room == mtu ==> !NextPiece(HalfFor(k, m).aead, m, offset, room).NoRoom?
  {
    OnlyLimitsFail(k, m, offset, room);
  }

  // How many records are still to come at most: each takes a byte, or a whole
  // message.
  function Units(m: Outgoing): (n: nat)
    ensures n > 0
  {
    if IsMessage(m) && BodyOf(m) != [] then |BodyOf(m)| else 1
  }

  function UnitsFrom(flight: seq<Outgoing>, i: nat): nat
    requires i <= |flight|
    decreases |flight| - i
  {
    if i == |flight| then 0 else Units(flight[i]) + UnitsFrom(flight, i + 1)
  }

  ghost function RecordsLeft(flight: seq<Outgoing>, at: Position): nat
    requires CursorOk(flight, at)
  {
    UnitsFrom(flight, at.written) - at.offset
  }

  lemma PieceTakesOne(flight: seq<Outgoing>, at: Position, piece: Todo)
    requires CursorOk(flight, at) && at.written < |flight| && SliceAt(flight[at.written], at.offset, piece)
    requires piece.Ends() || piece.hdr.fragLen > 0
    ensures CursorOk(flight, After(at, piece)) && RecordsLeft(flight, After(at, piece)) < RecordsLeft(flight, at)
  {}

  predicate NumbersLeft(k: Keys, n: nat) {
    k.current.sequence + n < SEQUENCES && k.last.sequence + n < SEQUENCES
  }

  // The keys differ by at most n record numbers.
  ghost predicate SpentAtMost(k: Keys, k': Keys, n: nat) {
    && k' == Keys(k.current.(sequence := k'.current.sequence), k.last.(sequence := k'.last.sequence))
    && k.current.sequence <= k'.current.sequence <= k.current.sequence + n
    && k.last.sequence <= k'.last.sequence <= k.last.sequence + n
  }

  ghost predicate FlightOk(k: Keys, flight: seq<Outgoing>, mtu: nat) {
    forall m :: m in flight ==> Sealable(k, m) && MtuOk(k, m, mtu)
  }

  lemma FlightStaysOk(k: Keys, k': Keys, n: nat, flight: seq<Outgoing>, mtu: nat)
    requires FlightOk(k, flight, mtu) && SpentAtMost(k, k', n)
    ensures FlightOk(k', flight, mtu)
  {
    forall m | m in flight ensures Sealable(k', m) && MtuOk(k', m, mtu) {
      assert Sealable(k, m) && MtuOk(k, m, mtu) && HalfFor(k', m).aead == HalfFor(k, m).aead;
    }
  }

  // A packet that is started is sealed, and takes no more record numbers than
  // it moves the cursor.
  lemma {:induction false} PacketSeals(k: Keys, flight: seq<Outgoing>, at: Position, room: nat, mtu: nat)
    requires KeysOk(k) && CursorOk(flight, at) && FlightOk(k, flight, mtu) && room <= mtu
    requires NumbersLeft(k, RecordsLeft(flight, at))
    ensures var p := SealLoop(k, flight, at, room);
      && p.ok && CursorOk(flight, p.at) && RecordsLeft(flight, p.at) <= RecordsLeft(flight, at)
      && SpentAtMost(k, p.keys, RecordsLeft(flight, at) - RecordsLeft(flight, p.at))
      && (room == mtu && at.written < |flight| ==> p.records != [])
    decreases |flight| - at.written
  {
    hide SealNext, NextPiece, TurnFails, RecordsLeft, MtuOk;
    if at.written < |flight| {
      var m := flight[at.written];
      assert m in flight;
      HasUnits(flight, at);
      TurnSeals(k, m, at.offset, room, mtu);
      GuardsDecide(k, m, at.offset, room);
      ProgressIsSlice(k, flight, at, room);
      var r := SealNext(k, m, at.offset, room);
      if r.SealProgress? {
        PieceTakesOne(flight, at, r.piece);
        if r.piece.Ends() {
          var keys := Spent(k, m);
          FlightStaysOk(k, keys, 1, flight, mtu);
          PacketSeals(keys, flight, After(at, r.piece), room - r.record.Size(), mtu);
        }
      }
    }
  }

  lemma HasUnits(flight: seq<Outgoing>, at: Position)
    requires CursorOk(flight, at) && at.written < |flight|
    ensures RecordsLeft(flight, at) > 0 && (flight[at.written].isCcs || (IsMessage(flight[at.written]) ==> at.offset <= |BodyOf(flight[at.written])|))
  {}

  // A call with enough record numbers, at an MTU within the bounds, never
  // fails; and if no write is refused, it sends the flight to its end.
  lemma {:induction false} CallSucceeds(k: Keys, flight: seq<Outgoing>, at: Position, mtu: nat, bio: seq<bool>)
    requires KeysOk(k) && CursorOk(flight, at) && FlightOk(k, flight, mtu)
    requires NumbersLeft(k, RecordsLeft(flight, at))
    ensures var s := SendFlight(k, flight, at, mtu, bio);
      && s.result != SendFailed && (false !in bio ==> s.result == FlightDone)
      && (s.result == FlightDone ==> s.at.written == |flight|)
      && CursorOk(flight, s.at) && RecordsLeft(flight, s.at) <= RecordsLeft(flight, at)
      && SpentAtMost(k, s.keys, RecordsLeft(flight, at))
    decreases |flight| - at.written, 0x100_0000 - at.offset
  {
    hide SealLoop, RecordsLeft, FlightOk;
    if at.written < |flight| {
      PacketSeals(k, flight, at, mtu, mtu);
      var p := SealPacket(k, flight, at, mtu);
      if bio == [] || bio[0] {
        var bio' := if bio == [] then [] else bio[1..];
        FlightStaysOk(k, p.keys, RecordsLeft(flight, at), flight, mtu);
        CallSucceeds(p.keys, flight, p.at, mtu, bio');
      }
    }
  }

  // The same for any number of calls: each may have to seal the rest of the
  // flight again.
  lemma {:induction false} CallsSucceed(k: Keys, flight: seq<Outgoing>, at: Position, attempts: seq<Attempt>)
    requires KeysOk(k) && CursorOk(flight, at) && forall a :: a in attempts ==> FlightOk(k, flight, a.mtu)
    requires NumbersLeft(k, |attempts| * RecordsLeft(flight, at))
    ensures var s := SendAll(k, flight, at, attempts);
      && s.result != SendFailed
      && (attempts != [] && false !in attempts[|attempts| - 1].bio ==> s.result == FlightDone)
    decreases |attempts|
  {
    hide SendFlight, RecordsLeft, FlightOk;
    if attempts != [] {
      var a, rest, n := attempts[0], attempts[1..], RecordsLeft(flight, at);
      assert |attempts| * n == n + |rest| * n;
      CallSucceeds(k, flight, at, a.mtu, a.bio);
      var s := SendFlight(k, flight, at, a.mtu, a.bio);
      MulGrows(|rest|, RecordsLeft(flight, s.at), n);
      forall b | b in rest ensures FlightOk(s.keys, flight, b.mtu) {
        FlightStaysOk(k, s.keys, n, flight, b.mtu);
      }
      CallsSucceed(s.keys, flight, s.at, rest);
    }
  }

  lemma MulGrows(a: nat, b: nat, c: nat)
    requires b <= c
    ensures a * b <= a * c
  {}

  // So such a flight is covered in the end, however many writes of the calls
  // before the last one are refused.
  lemma FlightGetsCovered(k: Keys, flight: seq<Outgoing>, attempts: seq<Attempt>, i: nat)
    requires KeysOk(k) && DistinctSeqs(flight) && i < |flight| && IsMessage(flight[i])
    requires forall a :: a in attempts ==> FlightOk(k, flight, a.mtu)
    requires attempts != [] && false !in attempts[|attempts| - 1].bio
    requires NumbersLeft(k, |attempts| * RecordsLeft(flight, BEGINNING))
    ensures Collected(SendAll(k, flight, BEGINNING, attempts).pieces, SeqOf(flight[i])) == BodyOf(flight[i])
  {
    hide SendAll, RecordsLeft, FlightOk;
    CallsSucceed(k, flight, BEGINNING, attempts);
    FlightCovered(k, flight, attempts, i, 0);
  }
}
