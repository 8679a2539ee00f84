// When a message gets through: as soon as its fragments cover it.

module DtlsDelivery {
  import opened Bytes
  import opened DtlsFragment
  import opened DtlsRecord
  import opened DtlsWriter
  import opened DtlsFlight
  import opened DtlsEndToEnd
  import DtlsReader

  // ------------------------------------------------------------------
  // All fragments of a message, in any order

  ghost predicate Arrived(sent: seq<Handshake>, pieces: seq<Todo>) {
    forall p :: p in pieces ==> p.Piece? && GenuineFragment(sent, p.hdr, p.body)
  }

  // The fragment is not one HonestFragmentErrors calls an error.
  predicate Welcome(readSeq: nat, epoch: nat, maxLen: nat, h: Header) {
    h.msgLen <= maxLen && (if epoch == 1 then h.msgSeq == readSeq else h.msgSeq != readSeq + MAX_FLIGHT)
  }

  ghost predicate InReach(readSeq: nat, epoch: nat, maxLen: nat, pieces: seq<Todo>) {
    forall p :: p in pieces && p.Piece? ==> Welcome(readSeq, epoch, maxLen, p.hdr)
  }

  function ProcessAll(r: Receiver, epoch: nat, maxLen: nat, pieces: seq<Todo>): (to: Receiver)
    requires |r.slots| == MAX_FLIGHT
    ensures |to.slots| == MAX_FLIGHT
    requires forall p :: p in pieces ==> p.Piece? && |p.body| == p.hdr.fragLen
    decreases |pieces|
  {
    if pieces == [] then r
    else ProcessAll(ProcessFragment(r, epoch, maxLen, pieces[0].hdr, pieces[0].body).to, epoch, maxLen, pieces[1..])
  }

  // Message n has a slot, and position k of it (if it is one) was received.
  predicate Has(r: Receiver, n: nat, k: nat)
    requires |r.slots| == MAX_FLIGHT
  {
    var slot := r.slots[n % MAX_FLIGHT];
    slot.Some? && slot.value.msgSeq == n && (k < slot.value.msgLen ==> k in slot.value.body)
  }

  predicate Covers(p: Todo, n: nat, k: nat) {
    p.Piece? && p.hdr.msgSeq == n && (k < p.hdr.msgLen ==> p.hdr.fragOff <= k < p.hdr.fragOff + p.hdr.fragLen)
  }

  ghost predicate Covered(pieces: seq<Todo>, n: nat, k: nat) {
    exists p :: p in pieces && Covers(p, n, k)
  }

  // One fragment: nothing received is lost, and what it covers is there.
  lemma OneArrives(sent: seq<Handshake>, r: Receiver, epoch: nat, maxLen: nat, p: Todo, n: nat, k: nat)
    requires GenuineRing(sent, r) && p.Piece? && GenuineFragment(sent, p.hdr, p.body)
    requires Welcome(r.readSeq, epoch, maxLen, p.hdr)
    requires r.readSeq <= n < r.readSeq + MAX_FLIGHT
    requires Has(r, n, k) || Covers(p, n, k)
    ensures Has(ProcessFragment(r, epoch, maxLen, p.hdr, p.body).to, n, k)
  {
    LookupFindsItsOwn(r, p.hdr.(msgSeq := n));
    if r.readSeq <= p.hdr.msgSeq < r.readSeq + MAX_FLIGHT {
      GenuineIsWellPlaced(sent, r, p.hdr, p.body);
      LookupFindsItsOwn(r, p.hdr);
      if p.hdr.msgSeq % MAX_FLIGHT == n % MAX_FLIGHT {
        SameResidue(p.hdr.msgSeq, n);
      }
    }
  }

  lemma {:induction false} AllArrive(sent: seq<Handshake>, r: Receiver, epoch: nat, maxLen: nat, pieces: seq<Todo>,
                                     n: nat, k: nat)
    requires GenuineRing(sent, r) && Arrived(sent, pieces) && InReach(r.readSeq, epoch, maxLen, pieces)
    requires r.readSeq <= n < r.readSeq + MAX_FLIGHT
    requires Has(r, n, k) || Covered(pieces, n, k)
    ensures var to := ProcessAll(r, epoch, maxLen, pieces);
      GenuineRing(sent, to) && to.readSeq == r.readSeq && Has(to, n, k)
    decreases |pieces|
  {
    if pieces != [] {
      var p, rest := pieces[0], pieces[1..];
      FragmentKeepsGenuine(sent, r, epoch, maxLen, p.hdr, p.body);
      var next := ProcessFragment(r, epoch, maxLen, p.hdr, p.body).to;
      if Has(r, n, k) || Covers(p, n, k) {
        OneArrives(sent, r, epoch, maxLen, p, n, k);
      } else {
        var q :| q in pieces && Covers(q, n, k);
        assert q in rest;
      }
      AllArrive(sent, next, epoch, maxLen, rest, n, k);
    }
  }

  // Fragments that cover a message complete it, in any order, with any
  // overlaps and among any other fragments.
  lemma CoverageCompletes(sent: seq<Handshake>, r: Receiver, epoch: nat, maxLen: nat, pieces: seq<Todo>, n: nat)
    requires GenuineRing(sent, r) && Arrived(sent, pieces) && InReach(r.readSeq, epoch, maxLen, pieces)
    requires r.readSeq <= n < r.readSeq + MAX_FLIGHT && n < |sent|
    requires forall k: nat :: k <= |sent[n].body| ==> Covered(pieces, n, k)
    ensures var slot := ProcessAll(r, epoch, maxLen, pieces).slots[n % MAX_FLIGHT];
      slot.Some? && slot.value.msgSeq == n && slot.value.Complete()
  {
    var to := ProcessAll(r, epoch, maxLen, pieces);
    AllArrive(sent, r, epoch, maxLen, pieces, n, |sent[n].body|);
    forall k: nat | k < |sent[n].body| ensures k in to.slots[n % MAX_FLIGHT].value.body {
      AllArrive(sent, r, epoch, maxLen, pieces, n, k);
    }
  }

  // ------------------------------------------------------------------
  // Several fragments in one record

  function Joined(pieces: seq<Todo>): seq<byte>
    requires forall p :: p in pieces ==> p.Piece? && p.hdr.Fits()
  {
    if pieces == [] then [] else FragmentBytes(pieces[0].hdr, pieces[0].body) + Joined(pieces[1..])
  }

  // A record is processed fragment by fragment, up to the first error.
  lemma OneOfMany(r: Receiver, epoch: nat, maxLen: nat, h: Header, body: seq<byte>, rest: seq<byte>)
    requires |r.slots| == MAX_FLIGHT && h.Fits() && |body| == h.fragLen
    ensures ProcessFragment(r, epoch, maxLen, h, body).ok ==> |ProcessFragment(r, epoch, maxLen, h, body).to.slots| == MAX_FLIGHT
    ensures ProcessRecord(r, epoch, maxLen, FragmentBytes(h, body) + rest) ==
      var next := ProcessFragment(r, epoch, maxLen, h, body);
      if next.ok then ProcessRecord(next.to, epoch, maxLen, rest) else next
  {
    ParseInvertsWrite(h, body, rest);
  }

  // Fragments of one record do what they do one by one.
  lemma {:induction false} RecordIsAll(sent: seq<Handshake>, r: Receiver, epoch: nat, maxLen: nat, pieces: seq<Todo>)
    requires GenuineRing(sent, r) && Arrived(sent, pieces) && InReach(r.readSeq, epoch, maxLen, pieces)
    ensures ProcessRecord(r, epoch, maxLen, Joined(pieces)) == Received(true, ProcessAll(r, epoch, maxLen, pieces))
    decreases |pieces|
  {
    hide ProcessFragment, FragmentBytes;
    if pieces != [] {
      var p, rest := pieces[0], pieces[1..];
      assert p in pieces && GenuineFragment(sent, p.hdr, p.body);
      FragmentKeepsGenuine(sent, r, epoch, maxLen, p.hdr, p.body);
      HonestFragmentErrors(sent, r, epoch, maxLen, p.hdr, p.body);
      OneOfMany(r, epoch, maxLen, p.hdr, p.body, Joined(rest));
      var next := ProcessFragment(r, epoch, maxLen, p.hdr, p.body).to;
      KeepsReadSeq(r, epoch, maxLen, p.hdr, p.body);
      RecordIsAll(sent, next, epoch, maxLen, rest);
    }
  }

  lemma KeepsReadSeq(r: Receiver, epoch: nat, maxLen: nat, h: Header, body: seq<byte>)
    requires |r.slots| == MAX_FLIGHT && |body| == h.fragLen
    ensures ProcessFragment(r, epoch, maxLen, h, body).to.readSeq == r.readSeq
  {}

  // ------------------------------------------------------------------
  // A flight that was sent to its end covers its messages

  // On its way past message i, the cursor covers position k of it.
  lemma {:induction false} TilesVisit(flight: seq<Outgoing>, from: Position, pieces: seq<Todo>, to: Position, i: nat,
                                      k: nat)
    returns (p: Todo)
    requires Tiles(flight, from, pieces, to) && CursorOk(flight, from)
    requires i < |flight| && IsMessage(flight[i]) && i < to.written
    requires from.written < i || (from.written == i && from.offset <= k)
    ensures p in pieces && Covers(p, SeqOf(flight[i]), k)
    decreases |pieces|
  {
    p := pieces[0];
    SliceCovers(flight, from, p, i, k);
    if !(from.written == i && Covers(p, SeqOf(flight[i]), k)) {
      p := TilesVisit(flight, After(from, p), pieces[1..], to, i, k);
    }
  }

  lemma SliceCovers(flight: seq<Outgoing>, from: Position, p: Todo, i: nat, k: nat)
    requires CursorOk(flight, from) && from.written < |flight| && SliceAt(flight[from.written], from.offset, p)
    requires i < |flight| && IsMessage(flight[i])
    requires from.written == i ==> from.offset <= k
    ensures CursorOk(flight, After(from, p))
    ensures from.written == i && !Covers(p, SeqOf(flight[i]), k) ==>
      After(from, p).written == i && After(from, p).offset <= k
  {}

  // Once a flight was sent to its end, over any calls of send_flight, the
  // receiver completes each of its messages as soon as every fragment of it
  // arrived once, in any order and among any other genuine fragments.
  lemma FlightArrives(sent: seq<Handshake>, k: Keys, flight: seq<Outgoing>, attempts: seq<Attempt>, i: nat,
                      r: Receiver, epoch: nat, maxLen: nat, pieces: seq<Todo>)
    requires KeysOk(k) && SendAll(k, flight, BEGINNING, attempts).result == FlightDone
    requires i < |flight| && IsMessage(flight[i]) && Queued(sent, flight[i])
    requires GenuineRing(sent, r) && Arrived(sent, pieces) && InReach(r.readSeq, epoch, maxLen, pieces)
    requires r.readSeq <= SeqOf(flight[i]) < r.readSeq + MAX_FLIGHT
    requires forall p :: p in SendAll(k, flight, BEGINNING, attempts).pieces && p.Piece? && p.hdr.msgSeq == SeqOf(flight[i]) ==>
      p in pieces
    ensures var n := SeqOf(flight[i]);
      var slot := ProcessAll(r, epoch, maxLen, pieces).slots[n % MAX_FLIGHT];
      slot.Some? && slot.value.msgSeq == n && slot.value.Complete()
  {
    var n, s := SeqOf(flight[i]), SendAll(k, flight, BEGINNING, attempts);
    SendAllTiles(k, flight, BEGINNING, attempts);
    forall k: nat ensures Covered(pieces, n, k) {
      var p := TilesVisit(flight, BEGINNING, s.pieces, s.at, i, k);
      assert p in pieces && Covers(p, n, k);
    }
    CoverageCompletes(sent, r, epoch, maxLen, pieces, n);
  }
}
