// The encoder of nanopb: output streams and the two passes over nested
// messages (pb_encode.c).

module PbEncoder {
  import opened Bytes
  import opened PbMessage
  import opened PbWire
  import opened PbEncoding
  import opened PbIter

  const SIZE_MAX := U64 - 1

  // pb_ostream_t. Without a buffer it only counts (PB_OSTREAM_SIZING), up to
  // what a size_t holds.
  class OStream {
    const buf: array?<byte>
    var state: nat // where the next byte goes
    const maxSize: nat
    var bytesWritten: nat
    ghost const base: nat // where state was in the beginning
    ghost var written: seq<byte> // everything written, or counted, so far

    ghost predicate Valid()
      reads this, buf
    {
      && bytesWritten == |written| && bytesWritten <= maxSize <= SIZE_MAX
      && (buf != null ==>
          && state == base + bytesWritten && base + maxSize <= buf.Length
          && buf[base..state] == written)
    }

    ghost function Memory(): seq<byte>
      reads buf
    {
      if buf == null then [] else buf[..]
    }

    // Memory below from and beyond the end of the stream is as before.
    ghost predicate Spared(from: nat, before: seq<byte>)
      reads buf
    {
      buf != null ==>
        && |before| == buf.Length
        && forall i :: 0 <= i < buf.Length && (i < from || base + maxSize <= i) ==> buf[i] == before[i]
    }

    function Room(): (n: nat)
      requires bytesWritten <= maxSize
      reads this
    {
      maxSize - bytesWritten
    }

    constructor Sizing()
      ensures Valid() && buf == null && maxSize == SIZE_MAX && written == []
    {
      buf, state, maxSize, bytesWritten, base, written := null, 0, SIZE_MAX, 0, 0, [];
    }

    // pb_ostream_from_buffer, or a window of maxSize bytes of it.
    constructor Within(buf: array<byte>, state: nat, maxSize: nat)
      requires state + maxSize <= buf.Length && maxSize <= SIZE_MAX
      ensures Valid() && this.buf == buf && this.state == base == state && this.maxSize == maxSize && written == []
    {
      this.buf, this.state, this.maxSize, bytesWritten, base, written := buf, state, maxSize, 0, state, [];
    }

    // pb_write
    method Write(data: seq<byte>) returns (ok: bool)
      requires Valid()
      modifies this, buf
      ensures Valid() && Spared(old(state), old(Memory()))
      ensures ok == (|data| <= old(Room())) && written == if ok then old(written) + data else old(written)
    {
      if bytesWritten + |data| > maxSize {
        return false;
      }
      if buf != null {
        Copy(data);
      }
      bytesWritten := bytesWritten + |data|;
      written := written + data;
      ok := true;
    }

    // buf_write
    method Copy(data: seq<byte>)
      requires buf != null && state + |data| <= base + maxSize <= buf.Length && base <= state
      modifies this`state, buf
      ensures state == old(state) + |data| && buf[old(state)..state] == data
      ensures Spared(old(state), old(Memory()))
    {
      var dest := state;
      state := dest + |data|;
      for i := 0 to |data|
        invariant state == dest + |data| && buf[dest..dest + i] == data[..i]
        invariant Spared(dest, old(Memory()))
      {
        buf[dest + i] := data[i];
      }
    }

    // pb_write with no data, on a stream that only counts; the data it stands
    // for is ghost.
    method Count(size: nat, ghost data: seq<byte>) returns (ok: bool)
      requires Valid() && buf == null && |data| == size
      modifies this
      ensures Valid() && ok == (size <= old(Room())) && written == if ok then old(written) + data else old(written)
    {
      if bytesWritten + size > maxSize {
        return false;
      }
      ok := true;
      bytesWritten := bytesWritten + size;
      written := written + data;
    }
  }

  // What a call leaves behind that writes enc if it is no error and there is
  // room for it.
  ghost predicate Appended(ok: bool, enc: Option<seq<byte>>, room: nat, before: seq<byte>, after: seq<byte>) {
    ok == (enc.Some? && |enc.value| <= room) && (ok ==> after == before + enc.value)
  }

  // The groups of seven bits of n, every one marked as not the last.
  function Groups(n: nat): (g: seq<byte>) {
    if n == 0 then [] else [n % 0x80 + 0x80] + Groups(n / 0x80)
  }

  lemma {:induction false} LastGroup(n: nat)
    requires n > 0
    ensures var g := Groups(n);
      |g| == |VarintBytes(n)| && g[|g| - 1] >= 0x80 && VarintBytes(n) == g[..|g| - 1] + [g[|g| - 1] - 0x80]
  {
    if n >= 0x80 {
      LastGroup(n / 0x80);
    }
  }

  lemma GroupsFit(n: nat)
    requires 0 < n < U64
    ensures var g := Groups(n);
      0 < |g| <= 10 && g[|g| - 1] >= 0x80 && VarintBytes(n) == g[..|g| - 1] + [g[|g| - 1] - 0x80]
  {
    VarintFits(n);
    LastGroup(n);
  }

  lemma NoGroups()
    ensures Groups(0) == []
  {}

  lemma NextGroup(filled: seq<byte>, left: nat, whole: seq<byte>)
    requires left > 0 && filled + Groups(left) == whole
    ensures (filled + [left % 0x80 + 0x80]) + Groups(left / 0x80) == whole
    ensures |Groups(left)| == 1 + |Groups(left / 0x80)|
  {
    var b, rest := [left % 0x80 + 0x80], Groups(left / 0x80);
    assert filled + (b + rest) == (filled + b) + rest;
  }

  // The loop of pb_encode_varint.
  method FillVarint(buffer: array<byte>, value: nat) returns (i: nat)
    requires buffer.Length == 10 && 0 < value < U64
    modifies buffer
    ensures i <= 10 && buffer[..i] == VarintBytes(value)
  {
    hide Groups, VarintBytes;
    ghost var whole := Groups(value);
    GroupsFit(value);
    NoGroups();
    i := 0;
    var left := value;
    while left > 0
      invariant i + |Groups(left)| <= 10 && buffer[..i] + Groups(left) == whole
    {
      ghost var filled := buffer[..i];
      NextGroup(filled, left, whole);
      buffer[i] := left % 0x80 + 0x80;
      assert buffer[..i + 1] == filled + [left % 0x80 + 0x80];
      left := left / 0x80;
      i := i + 1;
    }
    assert buffer[..i] == whole;
    buffer[i - 1] := buffer[i - 1] % 0x80;
    assert buffer[..i] == whole[..i - 1] + [whole[i - 1] - 0x80];
  }

  // pb_encode_varint
  method EncodeVarint(s: OStream, value: nat) returns (ok: bool)
    requires s.Valid() && value < U64
    modifies s, s.buf
    ensures s.Valid() && s.Spared(old(s.state), old(s.Memory()))
    ensures Appended(ok, Some(VarintBytes(value)), old(s.Room()), old(s.written), s.written)
  {
    if value <= 0x7f {
      ok := s.Write([value]);
      return;
    }
    var buffer := new byte[10];
    var i := FillVarint(buffer, value);
    ok := s.Write(buffer[..i]);
  }

  // The entries of PB_ENCODERS.
  method EncodeItem(s: OStream, f: Field, v: Value) returns (ok: bool)
    requires s.Valid() && TypedValue(f, v)
    modifies s, s.buf
    ensures s.Valid() && s.Spared(old(s.state), old(s.Memory()))
    ensures Appended(ok, EncodeValue(f, v), old(s.Room()), old(s.written), s.written)
    decreases v, 3, 0
  {
    match f.kind
    case Varint =>
      if !IntSize(f.dataSize) { return false; }
      ok := EncodeVarint(s, Wrap64(v.n));
    case Uvarint =>
      if !IntSize(f.dataSize) { return false; }
      ok := EncodeVarint(s, v.n);
    case Svarint =>
      if !IntSize(f.dataSize) { return false; }
      ok := EncodeVarint(s, ZigZag(v.n));
    case Fixed32 => ok := s.Write(FixedBytes(v.n, 4));
    case Fixed64 => ok := s.Write(FixedBytes(v.n, 8));
    case Bytes =>
      if |v.bytes| + BYTES_HEADER > f.dataSize { return false; }
      ok := EncodeString(s, v.bytes);
    case String => ok := EncodeString(s, v.bytes);
    case FixedLengthBytes => ok := EncodeString(s, v.bytes);
    case Submessage(fields) => ok := EncodeSubmessage(s, fields, v.slots);
  }

  // pb_encode_string
  method EncodeString(s: OStream, data: seq<byte>) returns (ok: bool)
    requires s.Valid() && |data| < U64
    modifies s, s.buf
    ensures s.Valid() && s.Spared(old(s.state), old(s.Memory()))
    ensures Appended(ok, Some(Prefixed(data)), old(s.Room()), old(s.written), s.written)
  {
    ok := EncodeVarint(s, |data|);
    if ok {
      ok := s.Write(data);
    }
  }

  // pb_encode_submessage: the size first, from a stream that only counts, and
  // then the message, into a window of just that size.
  method EncodeSubmessage(s: OStream, fields: seq<Field>, slots: seq<Slot>) returns (ok: bool)
    requires s.Valid() && Typed(fields, slots)
    modifies s, s.buf
    ensures s.Valid() && s.Spared(old(s.state), old(s.Memory()))
    ensures var body := Encode(fields, slots, 0);
      Appended(ok, if body.Some? then Some(Prefixed(body.value)) else None, old(s.Room()), old(s.written), s.written)
    decreases slots, 2, |fields| + 3
  {
    var substream := new OStream.Sizing();
    ok := PbEncode(substream, fields, slots);
    if !ok {
      return;
    }
    var size := substream.bytesWritten;
    ghost var body := Encode(fields, slots, 0).value;
    ok := EncodeVarint(s, size);
    if !ok {
      return;
    }
    if s.buf == null {
      ok := s.Count(size, body);
      return;
    }
    if s.bytesWritten + size > s.maxSize {
      return false;
    }
    ok := EncodeWindow(s, size, fields, slots);
  }

  // The second pass of pb_encode_submessage: it cannot fail, and what it writes
  // has the size the first pass announced.
  method EncodeWindow(s: OStream, size: nat, fields: seq<Field>, slots: seq<Slot>) returns (ok: bool)
    requires s.Valid() && s.buf != null && size <= s.Room() && Typed(fields, slots)
    requires Encode(fields, slots, 0).Some? && |Encode(fields, slots, 0).value| == size
    modifies s, s.buf
    ensures s.Valid() && s.Spared(old(s.state), old(s.Memory()))
    ensures ok && s.written == old(s.written) + Encode(fields, slots, 0).value
    decreases slots, 2, |fields| + 2
  {
    var substream := new OStream.Within(s.buf, s.state, size);
    ok := PbEncode(substream, fields, slots);
    s.bytesWritten := s.bytesWritten + substream.bytesWritten;
    s.state := substream.state;
    s.written := s.written + substream.written;
    if substream.bytesWritten != size {
      assert false; // "submsg size changed" cannot happen
    }
  }

  lemma AppendBoth(a: seq<byte>, b: Option<seq<byte>>, ok: bool, room: nat, w0: seq<byte>, w1: seq<byte>, w2: seq<byte>)
    requires |a| <= room && w1 == w0 + a && Appended(ok, b, room - |a|, w1, w2)
    ensures Appended(ok, Join(Some(a), b), room, w0, w2)
  {
    if ok {
      assert w0 + a + b.value == w0 + (a + b.value);
    }
  }

  // pb_encode_tag
  method EncodeTag(s: OStream, wireType: nat, tag: PbSize) returns (ok: bool)
    requires s.Valid() && wireType < 8
    modifies s, s.buf
    ensures s.Valid() && s.Spared(old(s.state), old(s.Memory()))
    ensures Appended(ok, Some(TagBytes(tag, wireType)), old(s.Room()), old(s.written), s.written)
  {
    ok := EncodeVarint(s, tag * 8 + wireType);
  }

  // pb_encode_tag_for_field and the encoder of the field.
  method EncodeTaggedItem(s: OStream, f: Field, v: Value) returns (ok: bool)
    requires s.Valid() && TypedValue(f, v)
    modifies s, s.buf
    ensures s.Valid() && s.Spared(old(s.state), old(s.Memory()))
    ensures Appended(ok, EncodeTagged(f, v), old(s.Room()), old(s.written), s.written)
    decreases v, 4, 0
  {
    ok := EncodeTag(s, WireType(f.kind), f.tag);
    if !ok {
      return;
    }
    ghost var tagged := s.written;
    ok := EncodeItem(s, f, v);
    AppendBoth(TagBytes(f.tag, WireType(f.kind)), EncodeValue(f, v), ok, old(s.Room()), old(s.written), tagged, s.written);
  }

  lemma JoinNothing(part: Option<seq<byte>>)
    ensures Join(Some([]), part) == part && Join(part, Some([])) == part
  {
    if part.Some? {
      assert [] + part.value == part.value && part.value + [] == part.value;
    }
  }

  // One item is done: what was to come from i on is now done plus the rest.
  lemma ItemDone(done: seq<byte>, item: seq<byte>, rest: Option<seq<byte>>)
    ensures Join(Some(done), Join(Some(item), rest)) == Join(Some(done + item), rest)
  {
    if rest.Some? {
      assert done + (item + rest.value) == done + item + rest.value;
    }
  }

  // The loops of encode_array.
  method EncodeAll(s: OStream, f: Field, items: seq<Value>, packed: bool) returns (ok: bool)
    requires s.Valid() && forall v :: v in items ==> TypedValue(f, v)
    modifies s, s.buf
    ensures s.Valid() && s.Spared(old(s.state), old(s.Memory()))
    ensures Appended(ok, EncodeItems(f, items, packed, 0), old(s.Room()), old(s.written), s.written)
    decreases items, 5, 0
  {
    ghost var done: seq<byte> := [];
    JoinNothing(EncodeItems(f, items, packed, 0));
    for i := 0 to |items|
      invariant s.Valid() && s.Spared(old(s.state), old(s.Memory()))
      invariant s.written == old(s.written) + done
      invariant EncodeItems(f, items, packed, 0) == Join(Some(done), EncodeItems(f, items, packed, i))
    {
      var one;
      if packed {
        one := EncodeItem(s, f, items[i]);
      } else {
        one := EncodeTaggedItem(s, f, items[i]);
      }
      if !one {
        return false;
      }
      ghost var item := if packed then EncodeValue(f, items[i]) else EncodeTagged(f, items[i]);
      ItemDone(done, item.value, EncodeItems(f, items, packed, i + 1));
      done := done + item.value;
    }
    JoinNothing(Some(done));
    ok := true;
  }

  // Without looking at the items, encode_array knows their size.
  lemma {:induction false} FixedItems(f: Field, items: seq<Value>, i: nat)
    requires (f.kind.Fixed32? || f.kind.Fixed64?) && i <= |items| && forall v :: v in items ==> TypedValue(f, v)
    ensures var enc := EncodeItems(f, items, true, i);
      enc.Some? && |enc.value| == (if f.kind.Fixed32? then 4 else 8) * (|items| - i)
    decreases |items| - i
  {
    if i < |items| {
      FixedItems(f, items, i + 1);
    }
  }

  // The size of a packed array, counted unless it follows from the type.
  method PackedSize(f: Field, items: seq<Value>) returns (ok: bool, size: nat)
    requires |items| < 0x1_0000_0000 && forall v :: v in items ==> TypedValue(f, v)
    ensures var enc := EncodeItems(f, items, true, 0);
      && ok == (enc.Some? && |enc.value| <= SIZE_MAX) && (ok ==> size == |enc.value|)
    decreases items, 6, 0
  {
    if f.kind.Fixed32? {
      FixedItems(f, items, 0);
      return true, 4 * |items|;
    }
    if f.kind.Fixed64? {
      FixedItems(f, items, 0);
      return true, 8 * |items|;
    }
    var sizestream := new OStream.Sizing();
    ok := EncodeAll(sizestream, f, items, true);
    size := sizestream.bytesWritten;
  }

  // The packed branch of encode_array, after the size is known.
  method EncodePacked(s: OStream, f: Field, items: seq<Value>, size: nat) returns (ok: bool)
    requires s.Valid() && forall v :: v in items ==> TypedValue(f, v)
    requires EncodeItems(f, items, true, 0).Some? && |EncodeItems(f, items, true, 0).value| == size <= SIZE_MAX
    modifies s, s.buf
    ensures s.Valid() && s.Spared(old(s.state), old(s.Memory()))
    ensures var body := EncodeItems(f, items, true, 0).value;
      Appended(ok, Some(Prefixed(body)), old(s.Room()), old(s.written), s.written)
    decreases items, 6, 0
  {
    hide EncodeItems, VarintBytes;
    ok := EncodeVarint(s, size);
    if !ok {
      return;
    }
    if s.buf == null {
      ok := s.Count(size, EncodeItems(f, items, true, 0).value);
      return;
    }
    ok := EncodeAll(s, f, items, true);
  }

  // encode_array; nothing is written before an array is found too long.
  method EncodeArrayField(s: OStream, f: Field, items: seq<Value>) returns (ok: bool)
    requires s.Valid() && f.rule.Repeated? && forall v :: v in items ==> TypedValue(f, v)
    modifies s, s.buf
    ensures s.Valid() && s.Spared(old(s.state), old(s.Memory()))
    ensures Appended(ok, EncodeArray(f, items), old(s.Room()), old(s.written), s.written)
    decreases items, 7, 0
  {
    if |items| == 0 {
      return true;
    }
    if |items| > f.rule.arraySize {
      return false;
    }
    if !Packable(f.kind) {
      ok := EncodeAll(s, f, items, false);
      return;
    }
    ok := EncodeTag(s, WT_STRING, f.tag);
    if !ok {
      return;
    }
    var size;
    ok, size := PackedSize(f, items);
    if ok {
      ok := EncodePacked(s, f, items, size);
    }
  }

  // pb_check_proto3_default_value
  method CheckDefault(f: Field, slot: Slot) returns (zero: bool)
    requires TypedSlot(f, slot)
    ensures zero == ZeroSlot(f, slot)
    decreases slot, 0
  {
    match f.rule
    case Required => zero := false;
    case Repeated(_) => zero := |slot.items| == 0;
    case Oneof(_) => zero := slot.chosen.None?;
    case Optional => zero := !slot.has;
    case Singular =>
      match f.kind {
        case Bytes => zero := |slot.value.bytes| == 0;
        case String => zero := |slot.value.bytes| == 0;
        case FixedLengthBytes => zero := f.dataSize == 0;
        case Submessage(fields) => zero := CheckAllDefault(fields, slot.value.slots);
        case _ => zero := slot.value.n == 0;
      }
  }

  method CheckAllDefault(fields: seq<Field>, slots: seq<Slot>) returns (zero: bool)
    requires Typed(fields, slots)
    ensures zero == ZeroMessage(fields, slots)
    decreases slots, 1
  {
    var iter := new FieldIter(fields);
    var more := iter.Begin();
    while more
      invariant iter.Valid() && iter.start == fields && fresh(iter)
      invariant more ==> iter.pos < |fields| && forall i :: 0 <= i < iter.pos ==> ZeroSlot(fields[i], slots[i])
      invariant !more ==> ZeroMessage(fields, slots)
      decreases if more then 1 + |fields| - iter.pos else 0
    {
      var one := CheckDefault(fields[iter.pos], slots[iter.pos]);
      if !one {
        return false;
      }
      more := iter.Next();
    }
    zero := true;
  }

  // encode_basic_field
  method EncodeField(s: OStream, f: Field, slot: Slot) returns (ok: bool)
    requires s.Valid() && TypedSlot(f, slot)
    modifies s, s.buf
    ensures s.Valid() && s.Spared(old(s.state), old(s.Memory()))
    ensures Appended(ok, EncodeSlot(f, slot), old(s.Room()), old(s.written), s.written)
    decreases slot, 0, 0
  {
    match f.rule
    case Required => ok := EncodeTaggedItem(s, f, slot.value);
    case Optional =>
      ok := true;
      if slot.has {
        ok := EncodeTaggedItem(s, f, slot.held);
      }
    case Singular =>
      var absent := CheckDefault(f, slot);
      ok := true;
      if !absent {
        ok := EncodeTaggedItem(s, f, slot.value);
      }
    case Repeated(_) => ok := EncodeArrayField(s, f, slot.items);
    case Oneof(_) =>
      ok := true;
      if slot.chosen.Some? {
        ok := EncodeTaggedItem(s, f, slot.chosen.value);
      }
  }

  // pb_encode
  method PbEncode(s: OStream, fields: seq<Field>, slots: seq<Slot>) returns (ok: bool)
    requires s.Valid() && Typed(fields, slots)
    modifies s, s.buf
    ensures s.Valid() && s.Spared(old(s.state), old(s.Memory()))
    ensures Appended(ok, Encode(fields, slots, 0), old(s.Room()), old(s.written), s.written)
    decreases slots, 2, |fields| + 1
  {
    var iter := new FieldIter(fields);
    var more := iter.Begin();
    ghost var done: seq<byte> := [];
    JoinNothing(Encode(fields, slots, 0));
    while more
      invariant s.Valid() && s.Spared(old(s.state), old(s.Memory()))
      invariant iter.Valid() && iter.start == fields && fresh(iter)
      invariant s.written == old(s.written) + done
      invariant more ==> iter.pos < |fields|
      invariant Encode(fields, slots, 0) == Join(Some(done), Encode(fields, slots, if more then iter.pos else |fields|))
      decreases if more then 1 + |fields| - iter.pos else 0
    {
      ghost var i := iter.pos;
      var one := EncodeField(s, fields[iter.pos], slots[iter.pos]);
      if !one {
        return false;
      }
      ghost var item := EncodeSlot(fields[i], slots[i]).value;
      ItemDone(done, item, Encode(fields, slots, i + 1));
      done := done + item;
      more := iter.Next();
    }
    JoinNothing(Some(done));
    ok := true;
  }

  // pb_get_encoded_size
  method GetEncodedSize(fields: seq<Field>, slots: seq<Slot>) returns (ok: bool, size: nat)
    requires Typed(fields, slots)
    ensures var enc := Encode(fields, slots, 0);
      && ok == (enc.Some? && |enc.value| <= SIZE_MAX) && (ok ==> size == |enc.value|)
  {
    var stream := new OStream.Sizing();
    ok := PbEncode(stream, fields, slots);
    size := stream.bytesWritten;
  }

  // A message that sizes without error encodes into a buffer of a given
  // capacity exactly when the size is within it, and then takes just that size.
  method EncodeToBuffer(buf: array<byte>, fields: seq<Field>, slots: seq<Slot>) returns (ok: bool, sized: bool,
                        size: nat)
    requires Typed(fields, slots) && buf.Length <= SIZE_MAX
    modifies buf
    ensures ok == (sized && size <= buf.Length)
    ensures ok ==> Encode(fields, slots, 0) == Some(buf[..size])
  {
    sized, size := GetEncodedSize(fields, slots);
    var stream := new OStream.Within(buf, 0, buf.Length);
    ok := PbEncode(stream, fields, slots);
  }
}
