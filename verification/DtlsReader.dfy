// The receiving side of a DTLS connection: dtls1_open_handshake and the
// message interface above it, as functions and as the object they describe.

module DtlsReader {
  import opened Bytes
  import opened DtlsFragment
  import opened DtlsRecord
  import opened DtlsReassembly
  import opened DtlsReplay

  const MT_CCS: byte := 1

  datatype State = State(layer: Layer, receiver: Receiver, hasCcs: bool, hasMessage: bool)

  datatype Result =
    | Partial
    | Discarded
    | Error
    | AlertRecord(alert: seq<byte>)
    | Success

  datatype Opening = Opening(result: Result, to: State, rest: seq<byte>)

  // dtls1_open_handshake
  function OpenHandshake(s: State, maxLen: nat, input: seq<byte>): Opening
    requires |s.receiver.slots| == MAX_FLIGHT
  {
    var (outcome, layer) := OpenRecord(s.layer, input);
    var s := s.(layer := layer);
    match outcome
    case NoData => Opening(Partial, s, input)
    case Discard(rest) => Opening(Discarded, s, rest)
    case Failed(rest) => Opening(Error, s, rest)
    case Accepted(typ, _, plain, rest) =>
      if typ == RT_ALERT then Opening(AlertRecord(plain), s, rest)
      else if typ == RT_APPLICATION_DATA then Opening(if layer.aead.isNull then Error else Discarded, s, rest)
      else if typ == RT_CHANGE_CIPHER_SPEC then
        if !layer.aead.isNull || plain != [MT_CCS] then Opening(Error, s, rest)
        else Opening(Success, s.(hasCcs := true), rest)
      else if typ != RT_HANDSHAKE then Opening(Error, s, rest)
      else
        var r := ProcessRecord(s.receiver, layer.epoch, maxLen, plain);
        Opening(if r.ok then Success else Error, s.(receiver := r.to), rest)
  }

  datatype Message = Message(typ: byte, raw: seq<byte>)

  // dtls1_get_message
  function GetMessage(s: State): Option<Message>
    requires RingOk(s.receiver)
  {
    if s.receiver.CurrentComplete() then
      var m := s.receiver.slots[s.receiver.readSeq % MAX_FLIGHT].value;
      Some(Message(m.typ, m.Raw()))
    else None
  }

  function TakeMessage(s: State): State
    requires |s.receiver.slots| == MAX_FLIGHT
  {
    s.(receiver := DtlsFragment.NextMessage(s.receiver), hasMessage := false)
  }

  // dtls_has_unprocessed_handshake_data
  predicate HasUnprocessedData(s: State)
    requires |s.receiver.slots| == MAX_FLIGHT
  {
    var current := s.receiver.readSeq % MAX_FLIGHT;
    s.hasCcs || exists i :: 0 <= i < MAX_FLIGHT && s.receiver.slots[i].Some? && !(s.hasMessage && i == current)
  }

  // dtls1_set_read_state; None when leftover data forbids the change.
  function SetReadState(s: State, aead: Aead): Option<State>
    requires |s.receiver.slots| == MAX_FLIGHT
  {
    if HasUnprocessedData(s) then None else Some(s.(layer := NextEpoch(s.layer, aead)))
  }

  // dtls1_open_change_cipher_spec
  function OpenChangeCipherSpec(s: State, maxLen: nat, input: seq<byte>): Opening
    requires |s.receiver.slots| == MAX_FLIGHT
  {
    var o := if s.hasCcs then Opening(Success, s, input) else OpenHandshake(s, maxLen, input);
    if o.result != Success then o
    else Opening(if o.to.hasCcs then Success else Discarded, o.to.(hasCcs := false), o.rest)
  }

  function Initial(aead: Aead): State {
    State(Layer(0, EMPTY, aead), Receiver(0, NO_MESSAGES), false, false)
  }

  // ------------------------------------------------------------------

  // Fragment f, in objects among own, is the message in a slot of the ring.
  ghost predicate SlotHolds(f: HmFragment?, slot: Option<Incoming>, own: set<object>)
    reads own
  {
    if f == null then slot == None
    else f in own && f.Repr() <= own && f.Valid() && slot == Some(f.view)
  }

  class Reader {
    var epoch: nat
    const bitmap: Bitmap
    var aead: Aead
    var readSeq: nat
    const incoming: array<HmFragment?>
    var hasCcs: bool
    var hasMessage: bool
    const maxMessageLen: nat
    ghost var ring: Receiver // what readSeq and incoming stand for
    ghost var owned: seq<set<object>> // the objects of each slot
    ghost var repr: set<object>

    ghost predicate Valid()
      reads this, incoming, repr
    {
      && this in repr && bitmap in repr && incoming in repr
      && incoming.Length == |owned| == MAX_FLIGHT && RingOk(ring) && ring.readSeq == readSeq
      && (forall i :: 0 <= i < MAX_FLIGHT ==> owned[i] <= repr && {this, bitmap, incoming} !! owned[i])
      && (forall i, j :: 0 <= i < j < MAX_FLIGHT ==> owned[i] !! owned[j])
      && (forall i :: 0 <= i < MAX_FLIGHT ==> SlotHolds(incoming[i], ring.slots[i], owned[i]))
    }

    ghost function View(): State
      reads this, bitmap
    {
      State(Layer(epoch, bitmap.View(), aead), ring, hasCcs, hasMessage)
    }

    constructor (aead: Aead, maxMessageLen: nat)
      ensures Valid() && fresh(repr)
      ensures View() == Initial(aead) && this.maxMessageLen == maxMessageLen
    {
      epoch, this.aead, readSeq, hasCcs, hasMessage := 0, aead, 0, false, false;
      this.maxMessageLen := maxMessageLen;
      var window := new Bitmap();
      var slots := new HmFragment?[MAX_FLIGHT](_ => null);
      bitmap, incoming := window, slots;
      ring, owned, repr := Receiver(0, NO_MESSAGES), [{}, {}, {}, {}, {}, {}, {}], {this, window, slots};
    }

    // dtls1_get_incoming_message
    method GetIncomingMessage(h: Header) returns (frag: HmFragment?)
      requires Valid() && h.Fits()
      modifies this`repr, this`owned, this`ring, incoming
      ensures Valid() && fresh(repr - old(repr))
      ensures frag == null <==> GetIncoming(old(ring), h).None?
      ensures frag == null ==> ring == old(ring)
      ensures frag != null ==>
        frag == incoming[h.msgSeq % MAX_FLIGHT] && ring == Put(old(ring), GetIncoming(old(ring), h).value)
    {
      if h.msgSeq < readSeq || h.msgSeq - readSeq >= MAX_FLIGHT {
        return null;
      }
      var idx := h.msgSeq % MAX_FLIGHT;
      assert SlotHolds(incoming[idx], ring.slots[idx], owned[idx]);
      LookupFindsItsOwn(ring, h);
      frag := incoming[idx];
      if frag != null {
        assert frag.msgSeq == h.msgSeq;
        if frag.typ != h.typ || frag.msgLen != h.msgLen {
          return null;
        }
        assert Put(ring, frag.view).slots == ring.slots;
        return;
      }
      LookupKeepsRing(ring, h);
      frag := NewSlot(h);
    }

    // The message was not seen before: its slot gets a fresh fragment.
    method NewSlot(h: Header) returns (frag: HmFragment)
      requires Valid() && h.Fits() && ring.slots[h.msgSeq % MAX_FLIGHT].None?
      requires RingOk(Put(ring, Incoming(h.typ, h.msgSeq, h.msgLen, map[])))
      modifies this`repr, this`owned, this`ring, incoming
      ensures Valid() && fresh(repr - old(repr)) && frag == incoming[h.msgSeq % MAX_FLIGHT]
      ensures ring == Put(old(ring), Incoming(h.typ, h.msgSeq, h.msgLen, map[]))
    {
      var idx := h.msgSeq % MAX_FLIGHT;
      frag := new HmFragment(h);
      incoming[idx] := frag;
      owned := owned[idx := frag.Repr()];
      repr := repr + frag.Repr();
      ring := Put(ring, frag.view);
    }

    // One turn of the loop of dtls1_open_handshake.
    method ProcessOne(h: Header, body: seq<byte>) returns (ok: bool)
      requires Valid() && h.Fits() && |body| == h.fragLen
      modifies repr - {bitmap}
      ensures Valid() && fresh(repr - old(repr))
      ensures var r := ProcessFragment(old(ring), old(epoch), maxMessageLen, h, body);
        ok == r.ok && View() == old(View()).(receiver := r.to)
    {
      hide SlotOk, Placed, ByteAt;
      if h.fragOff > h.msgLen || h.fragOff + h.fragLen > h.msgLen || h.msgLen > maxMessageLen {
        return false;
      }
      if epoch == 1 && h.msgSeq != readSeq {
        return false;
      }
      if h.msgSeq < readSeq || h.msgSeq > readSeq + MAX_FLIGHT {
        return true;
      }
      ghost var before := ring;
      ProcessFragmentKeepsRing(before, epoch, maxMessageLen, h, body);
      var frag := GetIncomingMessage(h);
      if frag == null {
        return false;
      }
      LookupKeepsRing(before, h);
      var idx := h.msgSeq % MAX_FLIGHT;
      assert SlotHolds(incoming[idx], ring.slots[idx], owned[idx]);
      frag.MaskTellsCompleteness();
      if frag.reassembly != null {
        assert Put(ring, Write(frag.view, h.fragOff, body)) == ProcessFragment(before, epoch, maxMessageLen, h, body).to;
        WriteSlot(idx, frag, h.fragOff, body);
      }
      ok := true;
    }

    method WriteSlot(idx: nat, frag: HmFragment, off: nat, body: seq<byte>)
      requires Valid() && idx < MAX_FLIGHT && frag == incoming[idx] && frag.Valid()
      requires frag.reassembly != null && off + |body| <= frag.msgLen
      requires RingOk(Put(ring, Write(frag.view, off, body)))
      modifies this`ring, frag, frag.data, frag.reassembly
      ensures Valid() && ring == Put(old(ring), Write(old(frag.view), off, body))
    {
      assert frag in owned[idx] && frag.Repr() <= owned[idx];
      assert frag.view == ring.slots[idx].value && frag.view.msgSeq % MAX_FLIGHT == idx;
      frag.Receive(off, body);
      ring := Put(ring, frag.view);
      forall i | 0 <= i < MAX_FLIGHT
        ensures SlotHolds(incoming[i], ring.slots[i], owned[i])
      {
        if i != idx {
          assert owned[i] !! owned[idx] && old(SlotHolds(incoming[i], ring.slots[i], owned[i]));
        }
      }
    }

    // dtls_open_record
    method OpenNext(input: seq<byte>) returns (outcome: Opened)
      requires Valid()
      modifies bitmap
      ensures Valid()
      ensures (outcome, View().layer) == OpenRecord(old(View().layer), input)
      ensures View() == old(View()).(layer := View().layer)
    {
      if input == [] {
        return NoData;
      }
      var parsed := ParseRecord(input);
      if parsed.None? {
        return Discard([]);
      }
      var raw := parsed.value;
      if !VersionOk(aead, raw.version) {
        return Discard([]);
      }
      var number := ToU64(raw.sequence);
      if EpochOf(raw.sequence) != epoch {
        return Discard(raw.rest);
      }
      var replay := bitmap.TestDiscard(number);
      if replay {
        return Discard(raw.rest);
      }
      var plain := aead.open(number, raw.typ, raw.version, raw.body);
      if plain.None? {
        return Discard(raw.rest);
      }
      if |plain.value| > MAX_PLAIN_LENGTH {
        return Failed(raw.rest);
      }
      bitmap.Insert(number);
      outcome := Accepted(raw.typ, number, plain.value, raw.rest);
    }

    method OpenHandshakeRecord(input: seq<byte>) returns (result: Result, rest: seq<byte>)
      requires Valid()
      modifies repr
      ensures Valid() && fresh(repr - old(repr))
      ensures OpenHandshake(old(View()), maxMessageLen, input) == Opening(result, View(), rest)
    {
      var outcome := OpenNext(input);
      match outcome
      case NoData => return Partial, input;
      case Discard(left) => return Discarded, left;
      case Failed(left) => return Error, left;
      case Accepted(typ, _, plain, left) =>
        if typ == RT_ALERT {
          return AlertRecord(plain), left;
        } else if typ == RT_APPLICATION_DATA {
          return if aead.isNull then Error else Discarded, left;
        } else if typ == RT_CHANGE_CIPHER_SPEC {
          if !aead.isNull || plain != [MT_CCS] {
            return Error, left;
          }
          hasCcs := true;
          return Success, left;
        } else if typ != RT_HANDSHAKE {
          return Error, left;
        }
        var ok := ProcessFragments(plain);
        return if ok then Success else Error, left;
    }

    // The loop over the fragments of one handshake record.
    method ProcessFragments(record: seq<byte>) returns (ok: bool)
      requires Valid()
      modifies repr - {bitmap}
      ensures Valid() && fresh(repr - old(repr))
      ensures var r := ProcessRecord(old(ring), old(epoch), maxMessageLen, record);
        ok == r.ok && View() == old(View()).(receiver := r.to)
    {
      var cbs := record;
      while cbs != []
        invariant Valid() && fresh(repr - old(repr)) && View() == old(View()).(receiver := ring)
        invariant ProcessRecord(old(ring), epoch, maxMessageLen, record) == ProcessRecord(ring, epoch, maxMessageLen, cbs)
        decreases |cbs|
      {
        var parsed := ParseFragment(cbs);
        if parsed.None? {
          return false;
        }
        var more := ProcessOne(parsed.value.hdr, parsed.value.body);
        if !more {
          return false;
        }
        cbs := parsed.value.rest;
      }
      ok := true;
    }

    method IsCurrentMessageComplete() returns (complete: bool)
      requires Valid()
      ensures complete == ring.CurrentComplete()
    {
      var idx := readSeq % MAX_FLIGHT;
      assert SlotHolds(incoming[idx], ring.slots[idx], owned[idx]);
      var frag := incoming[idx];
      if frag != null {
        frag.MaskTellsCompleteness();
      }
      complete := frag != null && frag.reassembly == null;
    }

    // dtls1_get_message
    method TryGetMessage() returns (message: Option<Message>)
      requires Valid()
      modifies this`hasMessage
      ensures Valid() && message == GetMessage(old(View()))
      ensures View() == old(View()).(hasMessage := old(hasMessage) || message.Some?)
    {
      var complete := IsCurrentMessageComplete();
      if !complete {
        return None;
      }
      var idx := readSeq % MAX_FLIGHT;
      assert SlotHolds(incoming[idx], ring.slots[idx], owned[idx]);
      var frag := incoming[idx];
      frag.MaskTellsCompleteness();
      hasMessage := true;
      message := Some(Message(frag.typ, frag.data[..]));
    }

    // dtls1_next_message
    method DropMessage()
      requires Valid() && hasMessage && ring.CurrentComplete()
      modifies this`ring, this`readSeq, this`hasMessage, incoming
      ensures Valid() && View() == TakeMessage(old(View()))
    {
      NextMessageKeepsRing(ring);
      var idx := readSeq % MAX_FLIGHT;
      incoming[idx] := null;
      readSeq := (readSeq + 1) % MESSAGE_SEQS;
      hasMessage := false;
      ring := DtlsFragment.NextMessage(ring);
    }

    // dtls_has_unprocessed_handshake_data
    method HasUnprocessed() returns (pending: bool)
      requires Valid()
      ensures pending == HasUnprocessedData(View())
    {
      if hasCcs {
        return true;
      }
      var current := readSeq % MAX_FLIGHT;
      for i := 0 to MAX_FLIGHT
        invariant forall j :: 0 <= j < i ==> ring.slots[j].Some? ==> hasMessage && j == current
      {
        assert SlotHolds(incoming[i], ring.slots[i], owned[i]);
        if !(hasMessage && i == current) && incoming[i] != null {
          return true;
        }
      }
      pending := false;
    }

    // dtls1_set_read_state
    method ChangeReadState(next: Aead) returns (ok: bool)
      requires Valid()
      modifies this`epoch, this`aead, bitmap
      ensures Valid()
      ensures SetReadState(old(View()), next) == if ok then Some(View()) else None
      ensures !ok ==> View() == old(View())
    {
      var pending := HasUnprocessed();
      if pending {
        return false;
      }
      epoch := (epoch + 1) % EPOCHS;
      bitmap.Reset();
      aead := next;
      ok := true;
    }

    // dtls1_open_change_cipher_spec
    method OpenChangeCipherSpecRecord(input: seq<byte>) returns (result: Result, rest: seq<byte>)
      requires Valid()
      modifies repr
      ensures Valid() && fresh(repr - old(repr))
      ensures OpenChangeCipherSpec(old(View()), maxMessageLen, input) == Opening(result, View(), rest)
    {
      result, rest := Success, input;
      if !hasCcs {
        result, rest := OpenHandshakeRecord(input);
        if result != Success {
          return;
        }
      }
      result := if hasCcs then Success else Discarded;
      hasCcs := false;
    }
  }
}
