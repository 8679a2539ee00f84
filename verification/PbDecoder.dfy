// The decoder of nanopb: input streams, substreams and the message loop
// (pb_decode.c).

module PbDecoder {
  import opened Bytes
  import opened PbMessage
  import opened PbWire
  import opened PbIter
  import opened PbDecoding
  import opened PbRequired

  // pb_istream_t over a buffer.
  class IStream {
    const source: seq<byte>
    var state: nat // where the next byte comes from
    var bytesLeft: nat

    function End(): (n: nat)
      reads this
    {
      state + bytesLeft
    }

    ghost predicate Valid()
      reads this
    {
      End() <= |source|
    }

    // A call that succeeds stays on the same part of the source; one that fails
    // may leave the stream short of a substream it did not close.
    ghost predicate Kept(ok: bool, end: nat)
      reads this
    {
      Valid() && End() <= end && (ok ==> End() == end)
    }

    function Left(): (s: seq<byte>)
      requires Valid()
      reads this
      ensures |s| == bytesLeft
    {
      source[state..state + bytesLeft]
    }

    // pb_istream_from_buffer, or a part of it.
    constructor (source: seq<byte>, state: nat, bytesLeft: nat)
      requires state + bytesLeft <= |source|
      ensures Valid() && this.source == source && this.state == state && this.bytesLeft == bytesLeft
    {
      this.source, this.state, this.bytesLeft := source, state, bytesLeft;
    }

    // pb_read
    method Read(count: nat) returns (ok: bool, data: seq<byte>)
      requires Valid()
      modifies this
      ensures Kept(true, old(End())) && ok == (count <= old(bytesLeft))
      ensures ok ==> data == old(Left())[..count] && Left() == old(Left())[count..] && state == old(state) + count
      ensures !ok ==> Left() == old(Left())
    {
      if bytesLeft < count {
        return false, [];
      }
      data := source[state..state + count];
      state := state + count;
      bytesLeft := bytesLeft - count;
      ok := true;
    }

    // pb_readbyte
    method ReadByte() returns (ok: bool, b: byte)
      requires Valid()
      modifies this
      ensures Kept(true, old(End())) && ok == (old(Left()) != [])
      ensures ok ==> b == old(Left())[0] && Left() == old(Left())[1..]
      ensures !ok ==> Left() == old(Left())
    {
      if bytesLeft == 0 {
        return false, 0;
      }
      b := source[state];
      state := state + 1;
      bytesLeft := bytesLeft - 1;
      ok := true;
    }
  }

  // What a call made of the input: a result and the input behind it.
  ghost predicate Consumed<T>(ok: bool, value: T, after: seq<byte>, spec: Option<Read<T>>) {
    ok == spec.Some? && (ok ==> spec.value == Read(value, after))
  }

  // pb_decode_varint
  method DecodeVarint(s: IStream) returns (ok: bool, result: nat)
    requires s.Valid()
    modifies s
    ensures s.Kept(true, old(s.End())) && Consumed(ok, result, s.Left(), ReadVarint(old(s.Left())))
  {
    var bitpos, more := 0, true;
    result := 0;
    while more
      invariant s.Kept(true, old(s.End())) && result < U64
      invariant ReadVarint(old(s.Left())) == if more then VarintFrom(s.Left(), result, bitpos) else Some(Read(result, s.Left()))
      decreases more, s.bytesLeft
    {
      if bitpos >= 64 {
        return false, 0;
      }
      var read, b := s.ReadByte();
      if !read {
        return false, 0;
      }
      result := Or(result, b % 0x80 * Pow2(bitpos) % U64) % U64;
      bitpos := bitpos + 7;
      more := b >= 0x80;
    }
    ok := true;
  }

  // pb_decode_varint32_eof
  method DecodeVarint32Eof(s: IStream) returns (ok: bool, result: nat, eof: bool)
    requires s.Valid()
    modifies s
    ensures s.Kept(true, old(s.End())) && Consumed(ok, result, s.Left(), ReadVarint32(old(s.Left())))
    ensures eof == (old(s.Left()) == [])
  {
    var read, b := s.ReadByte();
    if !read {
      return false, 0, true;
    }
    if b < 0x80 {
      return true, b, false;
    }
    var bitpos, more := 7, true;
    result := b % 0x80;
    while more
      invariant s.Kept(true, old(s.End())) && result < U32 && bitpos >= 0
      invariant ReadVarint32(old(s.Left())) ==
        if more then Varint32From(s.Left(), result, bitpos)
        else if bitpos == 35 && b >= 0x10 then None else Some(Read(result, s.Left()))
      invariant !more ==> b < 0x80
      decreases more, s.bytesLeft
    {
      read, b := s.ReadByte();
      if !read {
        return false, 0, false;
      }
      if bitpos >= 32 {
        if Overflows(b, result, bitpos) {
          return false, 0, false;
        }
      } else {
        result := Or(result, b % 0x80 * Pow2(bitpos) % U32) % U32;
      }
      bitpos := if bitpos + 7 < 256 then bitpos + 7 else bitpos + 7 - 256;
      more := b >= 0x80;
    }
    if bitpos == 35 && b >= 0x10 {
      return false, 0, false;
    }
    return true, result, false;
  }

  // pb_decode_varint32
  method DecodeVarint32(s: IStream) returns (ok: bool, result: nat)
    requires s.Valid()
    modifies s
    ensures s.Kept(true, old(s.End())) && Consumed(ok, result, s.Left(), ReadVarint32(old(s.Left())))
  {
    var eof;
    ok, result, eof := DecodeVarint32Eof(s);
  }

  // pb_skip_varint
  method SkipVarintField(s: IStream) returns (ok: bool)
    requires s.Valid()
    modifies s
    ensures s.Kept(true, old(s.End())) && SkipVarint(old(s.Left())) == if ok then Some(s.Left()) else None
  {
    var more := true;
    while more
      invariant s.Kept(true, old(s.End()))
      invariant SkipVarint(old(s.Left())) == if more then SkipVarint(s.Left()) else Some(s.Left())
      decreases more, s.bytesLeft
    {
      var read, data := s.Read(1);
      if !read {
        return false;
      }
      more := data[0] >= 0x80;
    }
    ok := true;
  }

  // pb_skip_field, and pb_skip_string
  method Skip(s: IStream, wireType: nat) returns (ok: bool)
    requires s.Valid()
    modifies s
    ensures s.Kept(true, old(s.End())) && SkipField(wireType, old(s.Left())) == if ok then Some(s.Left()) else None
  {
    var skipped: seq<byte>;
    match wireType
    case 0 => ok := SkipVarintField(s);
    case 1 => ok, skipped := s.Read(8);
    case 2 =>
      var length;
      ok, length := DecodeVarint32(s);
      if ok {
        ok, skipped := s.Read(length);
      }
    case 5 => ok, skipped := s.Read(4);
    case _ => ok := false;
  }

  // pb_make_string_substream. Until it is closed, the stream is short of the
  // bytes of the substream but not yet behind them.
  method MakeSubstream(s: IStream) returns (ok: bool, sub: IStream)
    requires s.Valid()
    modifies s
    ensures s.Valid() && ok == ReadPrefixed(old(s.Left())).Some?
    ensures !ok ==> s.End() == old(s.End())
    ensures ok ==>
      && fresh(sub) && sub.Valid() && sub.source == s.source
      && sub.End() + s.bytesLeft == old(s.End())
      && s.End() <= old(s.End())
      && ReadPrefixed(old(s.Left())).value == Read(sub.Left(), s.source[sub.End()..sub.End() + s.bytesLeft])
  {
    var size;
    ok, size := DecodeVarint32(s);
    if ok {
      ok := size <= s.bytesLeft;
    }
    if !ok {
      sub := new IStream([], 0, 0);
      return;
    }
    assert s.Left()[..size] == s.source[s.state..s.state + size];
    assert s.Left()[size..] == s.source[s.state + size..s.state + s.bytesLeft];
    sub := new IStream(s.source, s.state, size);
    s.bytesLeft := s.bytesLeft - size;
  }

  // pb_close_string_substream
  method CloseSubstream(s: IStream, sub: IStream) returns (ok: bool)
    requires s != sub && sub.Valid() && s.source == sub.source && sub.End() + s.bytesLeft <= |s.source|
    modifies s, sub
    ensures ok && s.Valid() && s.bytesLeft == old(s.bytesLeft) && s.state == old(sub.End())
  {
    ok := true;
    if sub.bytesLeft != 0 {
      var skipped;
      ok, skipped := sub.Read(sub.bytesLeft);
      if !ok {
        return;
      }
    }
    s.state := sub.state;
  }

  // ------------------------------------------------------------------
  // Fields

  // The structure a message is decoded into.
  class Record {
    var slots: seq<Slot>

    constructor (slots: seq<Slot>)
      ensures this.slots == slots
    {
      this.slots := slots;
    }
  }

  // pb_dec_bytes, pb_dec_string and pb_dec_fixed_length_bytes
  method DecodeData(s: IStream, f: Field) returns (ok: bool, v: Value)
    requires s.Valid() && (f.kind.Bytes? || f.kind.String? || f.kind.FixedLengthBytes?)
    modifies s
    ensures s.Kept(true, old(s.End()))
    ensures Consumed(ok, v, s.Left(),
      match ReadVarint32(old(s.Left())) case None => None case Some(Read(size, rest)) => ReadData(f, size, rest))
  {
    var size, data;
    ok, size := DecodeVarint32(s);
    if !ok {
      return false, Num(0);
    }
    match f.kind
    case Bytes =>
      if size + BYTES_HEADER > f.dataSize {
        return false, Num(0);
      }
      ok, data := s.Read(size);
      v := Data(data);
    case String =>
      if size + 1 > f.dataSize {
        return false, Num(0);
      }
      ok, data := s.Read(size);
      v := Data(CString(data));
    case FixedLengthBytes =>
      if size == 0 {
        return true, Data(Zeros(f.dataSize));
      }
      if size != f.dataSize {
        return false, Num(0);
      }
      ok, data := s.Read(size);
      v := Data(data);
  }

  // The entries of PB_DECODERS.
  method DecodeItem(s: IStream, f: Field, prior: Value) returns (ok: bool, v: Value)
    requires s.Valid() && TypedValue(f, prior) && WellFormedField(f)
    modifies s
    ensures s.Kept(ok, old(s.End()))
    ensures Consumed(ok, v, s.Left(), DecodeValue(f, prior, old(s.Left())))
    decreases f, 1
  {
    match f.kind
    case Varint => ok, v := DecodeNumber(s, f);
    case Uvarint => ok, v := DecodeNumber(s, f);
    case Svarint => ok, v := DecodeNumber(s, f);
    case Fixed32 => ok, v := DecodeFixed(s, 4);
    case Fixed64 => ok, v := DecodeFixed(s, 8);
    case Submessage(fields) =>
      DefaultsAreTyped(fields);
      var slots := if f.rule.Repeated? then Defaults(fields) else prior.slots;
      ok, v := DecodeSubmessage(s, fields, slots);
    case _ => ok, v := DecodeData(s, f);
  }

  // pb_dec_varint, pb_dec_uvarint and pb_dec_svarint
  method DecodeNumber(s: IStream, f: Field) returns (ok: bool, v: Value)
    requires s.Valid() && (f.kind.Varint? || f.kind.Uvarint? || f.kind.Svarint?)
    modifies s
    ensures s.Kept(true, old(s.End()))
    ensures Consumed(ok, v, s.Left(),
      match ReadVarint(old(s.Left()))
      case None => None
      case Some(Read(u, rest)) =>
        var n := ReadNumber(f.kind, f.dataSize, u);
        if n.None? then None else Some(Read(Num(n.value), rest)))
  {
    var u;
    ok, u := DecodeVarint(s);
    if !ok {
      return false, Num(0);
    }
    var n := ReadNumber(f.kind, f.dataSize, u);
    if n.None? {
      return false, Num(0);
    }
    return true, Num(n.value);
  }

  // pb_decode_fixed32 and pb_decode_fixed64
  method DecodeFixed(s: IStream, len: nat) returns (ok: bool, v: Value)
    requires s.Valid()
    modifies s
    ensures s.Kept(true, old(s.End()))
    ensures Consumed(ok, v, s.Left(),
      match ReadFixed(old(s.Left()), len) case None => None case Some(Read(n, rest)) => Some(Read(Num(n), rest)))
  {
    var data;
    ok, data := s.Read(len);
    v := Num(if ok then FixedValue(data) else 0);
  }

  // pb_dec_submessage
  method DecodeSubmessage(s: IStream, fields: seq<Field>, slots: seq<Slot>) returns (ok: bool, v: Value)
    requires s.Valid() && WellFormedFields(fields) && Typed(fields, slots)
    modifies s
    ensures s.Kept(ok, old(s.End()))
    ensures Consumed(ok, v, s.Left(),
      match ReadPrefixed(old(s.Left()))
      case None => None
      case Some(Read(body, rest)) =>
        match DecodeNoInit(fields, slots, body) case None => None case Some(m) => Some(Read(Msg(m.value), rest)))
    decreases fields, 3
  {
    var sub;
    ok, sub := MakeSubstream(s);
    if !ok {
      return false, Num(0);
    }
    var dest := new Record(slots);
    var status := DecodeMessage(sub, fields, dest);
    ok := CloseSubstream(s, sub);
    return status, Msg(dest.slots);
  }

  // The loop of the packed branch of decode_static_field: up to the end of the
  // substream, or until an item is malformed or there is no place for it.
  method DecodePackedItems(sub: IStream, f: Field, held: seq<Value>) returns (status: bool, items: seq<Value>)
    requires sub.Valid() && f.rule.Repeated? && WellFormedField(f) && forall v :: v in held ==> TypedValue(f, v)
    modifies sub
    ensures sub.Kept(status, old(sub.End()))
    ensures DecodePacked(f, held, old(sub.Left())) == if status && sub.bytesLeft == 0 then Some(items) else None
    decreases f, 2
  {
    items, status := held, true;
    DefaultIsTyped(f);
    while sub.bytesLeft > 0 && |items| < f.rule.arraySize
      invariant sub.Kept(true, old(sub.End())) && forall v :: v in items ==> TypedValue(f, v)
      invariant DecodePacked(f, held, old(sub.Left())) == DecodePacked(f, items, sub.Left())
      decreases sub.bytesLeft
    {
      var v;
      status, v := DecodeItem(sub, f, DefaultValue(f));
      if !status {
        return;
      }
      items := items + [v];
    }
  }

  method DecodePackedArray(s: IStream, f: Field, held: seq<Value>) returns (ok: bool, items: seq<Value>)
    requires s.Valid() && f.rule.Repeated? && WellFormedField(f) && forall v :: v in held ==> TypedValue(f, v)
    modifies s
    ensures s.Kept(ok, old(s.End()))
    ensures Consumed(ok, items, s.Left(),
      match ReadPrefixed(old(s.Left()))
      case None => None
      case Some(Read(body, rest)) =>
        match DecodePacked(f, held, body) case None => None case Some(vs) => Some(Read(vs, rest)))
    decreases f, 3
  {
    var sub, status;
    ok, sub := MakeSubstream(s);
    if !ok {
      return false, held;
    }
    status, items := DecodePackedItems(sub, f, held);
    if sub.bytesLeft != 0 {
      return false, items;
    }
    ok := CloseSubstream(s, sub);
    ok := status;
  }

  // decode_static_field, for the field under the iterator.
  method DecodeStaticField(s: IStream, wireType: nat, f: Field, slot: Slot) returns (ok: bool, slot': Slot)
    requires s.Valid() && TypedSlot(f, slot) && WellFormedField(f)
    modifies s
    ensures s.Kept(ok, old(s.End()))
    ensures Consumed(ok, slot', s.Left(), DecodeField(f, wireType, slot, old(s.Left())))
    decreases f, 4
  {
    DefaultIsTyped(f);
    var v;
    match f.rule
    case Required =>
      ok, v := DecodeItem(s, f, slot.value);
      slot' := One(v);
    case Singular =>
      ok, v := DecodeItem(s, f, slot.value);
      slot' := One(v);
    case Optional =>
      ok, v := DecodeItem(s, f, slot.held);
      slot' := Maybe(true, v);
    case Oneof(_) =>
      ok, v := DecodeItem(s, f, DefaultValue(f));
      slot' := Choice(Some(v));
    case Repeated(arraySize) =>
      if wireType == WT_STRING && Packable(f.kind) {
        var items;
        ok, items := DecodePackedArray(s, f, slot.items);
        return ok, Many(items);
      }
      if |slot.items| >= arraySize {
        return false, slot;
      }
      ok, v := DecodeItem(s, f, DefaultValue(f));
      slot' := Many(slot.items + [v]);
  }

  // ------------------------------------------------------------------
  // Messages

  // pb_decode_tag. A zero, like the end of the stream, is the end of the
  // message.
  method DecodeTag(s: IStream) returns (ok: bool, wireType: nat, tag: nat, eof: bool)
    requires s.Valid()
    modifies s
    ensures s.Kept(true, old(s.End()))
    ensures var key := ReadVarint32(old(s.Left()));
      && ok == (key.Some? && key.value.value != 0)
      && eof == (old(s.Left()) == [] || (key.Some? && key.value.value == 0))
      && (ok ==> wireType == key.value.value % 8 && tag == key.value.value / 8)
      && (key.Some? ==> s.Left() == key.value.rest)
  {
    var temp;
    ok, temp, eof := DecodeVarint32Eof(s);
    wireType, tag := 0, 0;
    if !ok {
      return;
    }
    if temp == 0 {
      return false, 0, 0, true;
    }
    tag, wireType := temp / 8, temp % 8;
  }

  // One turn of the loop of pb_decode_noinit, behind the tag.
  method DecodeFound(s: IStream, wireType: nat, tag: nat, iter: FieldIter, dest: Record, words: seq<Word>,
                     ghost seen: set<nat>)
    returns (ok: bool, words': seq<Word>, ghost seen': set<nat>)
    requires s.Valid() && iter.Valid() && WellFormedFields(iter.start) && Typed(iter.start, dest.slots)
    requires Marks(iter.start, words, seen)
    modifies s, iter, dest
    ensures s.Kept(ok, old(s.End())) && iter.Valid() && Typed(iter.start, dest.slots)
    ensures Marks(iter.start, words', seen')
    ensures Consumed(ok, (dest.slots, seen'), s.Left(), Turn(iter.start, wireType, tag, old(dest.slots), seen, old(s.Left())))
    decreases iter.start, 0
  {
    words', seen' := words, seen;
    var found := iter.Find(tag);
    if !found {
      ok := Skip(s, wireType);
      return;
    }
    if iter.pos == |iter.start| {
      return false, words, seen; // the terminator: invalid data_size
    }
    FoundIsField(iter.start, tag, iter.pos, 0);
    MarkField(iter.start, words, seen, iter.pos);
    var i, f := iter.pos, iter.start[iter.pos];
    if f.rule.Required? && iter.requiredFieldIndex < MAX_REQUIRED_FIELDS {
      words' := SetBit(words, iter.requiredFieldIndex);
    }
    seen' := seen + {i};
    var slot;
    ok, slot := DecodeStaticField(s, wireType, f, dest.slots[i]);
    if ok {
      dest.slots := SetSlot(iter.start, dest.slots, i, slot);
    }
  }

  // The loop of pb_decode_noinit.
  method DecodeFields(s: IStream, iter: FieldIter, dest: Record) returns (ok: bool, words: seq<Word>,
                      ghost seen: set<nat>)
    requires s.Valid() && iter.Valid() && WellFormedFields(iter.start) && Typed(iter.start, dest.slots)
    modifies s, iter, dest
    ensures s.Kept(ok, old(s.End())) && iter.Valid() && Marks(iter.start, words, seen)
    ensures var l := DecodeLoop(iter.start, old(dest.slots), {}, old(s.Left()));
      && ok == l.Some?
      && (ok ==> l.value.slots == dest.slots && l.value.seen == seen && l.value.rest == s.Left())
    decreases iter.start, 1
  {
    words, seen := [LowBits(0), LowBits(0)], {};
    var stopped := false;
    while !stopped && s.bytesLeft > 0
      invariant s.Kept(true, old(s.End())) && iter.Valid() && Typed(iter.start, dest.slots) && Marks(iter.start, words, seen)
      invariant DecodeLoop(iter.start, old(dest.slots), {}, old(s.Left()))
        == if stopped then Some(Loop(dest.slots, seen, s.Left(), true)) else DecodeLoop(iter.start, dest.slots, seen, s.Left())
      decreases !stopped, s.bytesLeft
    {
      var wireType, tag, eof;
      ok, wireType, tag, eof := DecodeTag(s);
      if !ok {
        if !eof {
          return;
        }
        stopped := true;
      } else {
        ok, words, seen := DecodeFound(s, wireType, tag, iter, dest, words, seen);
        if !ok {
          return;
        }
      }
    }
    ok := true;
  }

  // pb_decode_noinit
  method DecodeMessage(s: IStream, fields: seq<Field>, dest: Record) returns (ok: bool)
    requires s.Valid() && WellFormedFields(fields) && Typed(fields, dest.slots)
    modifies s, dest
    ensures s.Kept(ok, old(s.End()))
    ensures Consumed(ok, dest.slots, s.Left(), DecodeNoInit(fields, old(dest.slots), old(s.Left())))
    decreases fields, 2
  {
    var iter := new FieldIter(fields);
    var words;
    ghost var seen;
    ok, words, seen := DecodeFields(s, iter, dest);
    if !ok {
      return;
    }
    MarksMeanSeen(fields, words, seen);
    var count := CountRequired(iter);
    ok := AllSeen(words, if count > MAX_REQUIRED_FIELDS then MAX_REQUIRED_FIELDS else count);
  }

  // pb_message_set_to_defaults
  method SetToDefaults(fields: seq<Field>, dest: Record)
    requires |dest.slots| == |fields|
    modifies dest
    ensures dest.slots == Defaults(fields)
  {
    var iter := new FieldIter(fields);
    var more := iter.Begin();
    while more
      invariant iter.Valid() && iter.start == fields && fresh(iter) && |dest.slots| == |fields|
      invariant more ==> iter.pos < |fields|
      invariant forall i :: 0 <= i < (if more then iter.pos else |fields|) ==> dest.slots[i] == DefaultSlot(fields[i])
      decreases if more then 1 + |fields| - iter.pos else 0
    {
      dest.slots := dest.slots[iter.pos := DefaultSlot(fields[iter.pos])];
      more := iter.Next();
    }
  }

  // pb_decode
  method PbDecode(s: IStream, fields: seq<Field>, dest: Record) returns (ok: bool)
    requires s.Valid() && WellFormedFields(fields) && |dest.slots| == |fields|
    modifies s, dest
    ensures s.Kept(ok, old(s.End()))
    ensures Consumed(ok, dest.slots, s.Left(), Decode(fields, old(s.Left())))
  {
    SetToDefaults(fields, dest);
    DefaultsAreTyped(fields);
    ok := DecodeMessage(s, fields, dest);
  }
}
