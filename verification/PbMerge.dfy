// Decoding is local: what was read does not depend on what follows. Hence
// messages merge by concatenation and unknown fields leave no trace.

module PbMerge {
  import opened Bytes
  import opened PbMessage
  import opened PbWire
  import opened PbDecoding
  import opened PbVarint32

  // What the same read gives with more behind its input.
  function More<T>(r: Option<Read<T>>, more: seq<byte>): Option<Read<T>> {
    match r
    case None => None
    case Some(Read(v, rest)) => Some(Read(v, rest + more))
  }

  // ------------------------------------------------------------------
  // Locality of the readers

  lemma {:induction false} VarintIsLocal(s: seq<byte>, result: nat, bitpos: nat, more: seq<byte>)
    requires result < U64 && VarintFrom(s, result, bitpos).Some?
    ensures VarintFrom(s + more, result, bitpos) == More(VarintFrom(s, result, bitpos), more)
  {
    assert (s + more)[1..] == s[1..] + more;
    if s[0] >= 0x80 {
      VarintIsLocal(s[1..], Or(result, s[0] % 0x80 * Pow2(bitpos) % U64) % U64, bitpos + 7, more);
    }
  }

  lemma {:induction false} Varint32FromIsLocal(s: seq<byte>, result: nat, bitpos: nat, more: seq<byte>)
    requires result < U32 && Varint32From(s, result, bitpos).Some?
    ensures Varint32From(s + more, result, bitpos) == More(Varint32From(s, result, bitpos), more)
  {
    assert (s + more)[1..] == s[1..] + more;
    if s[0] >= 0x80 {
      var next := if bitpos >= 32 then result else Or(result, s[0] % 0x80 * Pow2(bitpos) % U32) % U32;
      Varint32FromIsLocal(s[1..], next, if bitpos + 7 < 256 then bitpos + 7 else bitpos + 7 - 256, more);
    }
  }

  lemma Varint32IsLocal(s: seq<byte>, more: seq<byte>)
    requires ReadVarint32(s).Some?
    ensures ReadVarint32(s + more) == More(ReadVarint32(s), more)
  {
    assert (s + more)[1..] == s[1..] + more;
    if s[0] >= 0x80 {
      Varint32FromIsLocal(s[1..], s[0] % 0x80, 7, more);
    }
  }

  lemma PrefixedIsLocal(s: seq<byte>, more: seq<byte>)
    requires ReadPrefixed(s).Some?
    ensures ReadPrefixed(s + more) == More(ReadPrefixed(s), more)
  {
    Varint32IsLocal(s, more);
    var r := ReadVarint32(s).value;
    assert (r.rest + more)[..r.value] == r.rest[..r.value];
    assert (r.rest + more)[r.value..] == r.rest[r.value..] + more;
  }

  lemma {:induction false} SkipVarintIsLocal(s: seq<byte>, more: seq<byte>)
    requires SkipVarint(s).Some?
    ensures SkipVarint(s + more) == Some(SkipVarint(s).value + more)
  {
    assert (s + more)[1..] == s[1..] + more;
    if s[0] >= 0x80 {
      SkipVarintIsLocal(s[1..], more);
    }
  }

  lemma SkipIsLocal(wireType: nat, s: seq<byte>, more: seq<byte>)
    requires SkipField(wireType, s).Some?
    ensures SkipField(wireType, s + more) == Some(SkipField(wireType, s).value + more)
  {
    match wireType
    case 0 => SkipVarintIsLocal(s, more);
    case 1 => assert (s + more)[8..] == s[8..] + more;
    case 2 => PrefixedIsLocal(s, more);
    case _ => assert (s + more)[4..] == s[4..] + more;
  }

  lemma FixedIsLocal(s: seq<byte>, len: nat, more: seq<byte>)
    requires ReadFixed(s, len).Some?
    ensures ReadFixed(s + more, len) == More(ReadFixed(s, len), more)
  {
    assert (s + more)[..len] == s[..len] && (s + more)[len..] == s[len..] + more;
  }

  lemma DataIsLocal(f: Field, size: nat, s: seq<byte>, more: seq<byte>)
    requires (f.kind.Bytes? || f.kind.String? || f.kind.FixedLengthBytes?) && ReadData(f, size, s).Some?
    ensures ReadData(f, size, s + more) == More(ReadData(f, size, s), more)
  {
    if |s| >= size {
      assert (s + more)[..size] == s[..size] && (s + more)[size..] == s[size..] + more;
    }
  }

  lemma ValueIsLocal(f: Field, prior: Value, s: seq<byte>, more: seq<byte>)
    requires TypedValue(f, prior) && WellFormedField(f) && DecodeValue(f, prior, s).Some?
    ensures DecodeValue(f, prior, s + more) == More(DecodeValue(f, prior, s), more)
  {
    match f.kind
    case Varint => VarintIsLocal(s, 0, 0, more);
    case Uvarint => VarintIsLocal(s, 0, 0, more);
    case Svarint => VarintIsLocal(s, 0, 0, more);
    case Fixed32 => FixedIsLocal(s, 4, more);
    case Fixed64 => FixedIsLocal(s, 8, more);
    case Submessage(_) => PrefixedIsLocal(s, more);
    case _ =>
      Varint32IsLocal(s, more);
      DataIsLocal(f, ReadVarint32(s).value.value, ReadVarint32(s).value.rest, more);
  }

  lemma FieldIsLocal(f: Field, wireType: nat, slot: Slot, s: seq<byte>, more: seq<byte>)
    requires TypedSlot(f, slot) && WellFormedField(f) && DecodeField(f, wireType, slot, s).Some?
    ensures DecodeField(f, wireType, slot, s + more) == More(DecodeField(f, wireType, slot, s), more)
  {
    DefaultIsTyped(f);
    match f.rule
    case Required => ValueIsLocal(f, slot.value, s, more);
    case Singular => ValueIsLocal(f, slot.value, s, more);
    case Optional => ValueIsLocal(f, slot.held, s, more);
    case Oneof(_) => ValueIsLocal(f, DefaultValue(f), s, more);
    case Repeated(_) =>
      if wireType == WT_STRING && Packable(f.kind) {
        PrefixedIsLocal(s, more);
      } else {
        ValueIsLocal(f, DefaultValue(f), s, more);
      }
  }

  lemma TurnIsLocal(fields: seq<Field>, wireType: nat, tag: nat, slots: seq<Slot>, seen: set<nat>, s: seq<byte>,
                    more: seq<byte>)
    requires WellFormedFields(fields) && Typed(fields, slots) && Turn(fields, wireType, tag, slots, seen, s).Some?
    ensures Turn(fields, wireType, tag, slots, seen, s + more) == More(Turn(fields, wireType, tag, slots, seen, s), more)
  {
    match FindField(fields, tag, 0)
    case None => SkipIsLocal(wireType, s, more);
    case Some(i) => FieldIsLocal(fields[i], wireType, slots[i], s, more);
  }

  // ------------------------------------------------------------------
  // Merging

  // s decodes to its end, without a zero tag.
  ghost predicate Ends(fields: seq<Field>, slots: seq<Slot>, seen: set<nat>, s: seq<byte>)
    requires WellFormedFields(fields) && Typed(fields, slots)
  {
    var l := DecodeLoop(fields, slots, seen, s);
    l.Some? && !l.value.stopped
  }

  // Decoding a and then b is decoding a ++ b.
  lemma {:induction false} LoopMerges(fields: seq<Field>, slots: seq<Slot>, seen: set<nat>, a: seq<byte>, b: seq<byte>)
    requires WellFormedFields(fields) && Typed(fields, slots) && Ends(fields, slots, seen, a)
    ensures var l := DecodeLoop(fields, slots, seen, a).value;
      DecodeLoop(fields, slots, seen, a + b) == DecodeLoop(fields, l.slots, l.seen, b)
    decreases |a|
  {
    if a == [] {
      assert a + b == b;
    } else {
      var key := ReadVarint32(a).value;
      Varint32IsLocal(a, b);
      TurnIsLocal(fields, key.value % 8, key.value / 8, slots, seen, key.rest, b);
      var t := Turn(fields, key.value % 8, key.value / 8, slots, seen, key.rest).value;
      LoopMerges(fields, t.value.0, t.value.1, t.rest, b);
    }
  }

  // The fields seen before only add to those seen.
  lemma {:induction false} SeenAddsUp(fields: seq<Field>, slots: seq<Slot>, seen: set<nat>, more: set<nat>,
                                      s: seq<byte>)
    requires WellFormedFields(fields) && Typed(fields, slots)
    ensures DecodeLoop(fields, slots, more + seen, s) ==
      match DecodeLoop(fields, slots, seen, s)
      case None => None
      case Some(l) => Some(l.(seen := more + l.seen))
    decreases |s|
  {
    if s != [] && ReadVarint32(s).Some? && ReadVarint32(s).value.value != 0 {
      var key := ReadVarint32(s).value;
      var t := Turn(fields, key.value % 8, key.value / 8, slots, seen, key.rest);
      if t.Some? {
        var t' := Turn(fields, key.value % 8, key.value / 8, slots, more + seen, key.rest);
        assert forall i: nat :: more + seen + {i} == more + (seen + {i});
        assert t' == Some(Read((t.value.value.0, more + t.value.value.1), t.value.rest));
        SeenAddsUp(fields, t.value.value.0, t.value.value.1, more, t.value.rest);
      }
    }
  }

  // pb_decode_noinit on a ++ b does what it does on a and then, into the same
  // message, on b; the required fields are those seen in either.
  lemma MessagesMerge(fields: seq<Field>, slots: seq<Slot>, a: seq<byte>, b: seq<byte>)
    requires WellFormedFields(fields) && Typed(fields, slots) && Ends(fields, slots, {}, a)
    ensures var first := DecodeLoop(fields, slots, {}, a).value;
      var second := DecodeLoop(fields, first.slots, {}, b);
      DecodeNoInit(fields, slots, a + b) ==
        if second.Some? && RequiredSeen(fields, first.seen + second.value.seen)
        then Some(Read(second.value.slots, second.value.rest)) else None
  {
    var first := DecodeLoop(fields, slots, {}, a).value;
    LoopMerges(fields, slots, {}, a, b);
    SeenAddsUp(fields, first.slots, {}, first.seen, b);
    assert first.seen + {} == first.seen;
  }

  // ------------------------------------------------------------------
  // Unknown fields

  // One whole field that is not of the message: a key with a non-zero tag,
  // read by the decoder in whatever form, and a payload that skipping takes to
  // the end.
  predicate IsUnknown(fields: seq<Field>, u: seq<byte>) {
    var key := ReadVarint32(u);
    && key.Some? && key.value.value >= 8 && FindField(fields, key.value.value / 8, 0).None?
    && SkipField(key.value.value % 8, key.value.rest) == Some([])
  }

  lemma SkipTurn(fields: seq<Field>, slots: seq<Slot>, seen: set<nat>, s: seq<byte>, key: nat, rest: seq<byte>,
                 more: seq<byte>)
    requires WellFormedFields(fields) && Typed(fields, slots)
    requires s != [] && ReadVarint32(s) == Some(Read(key, rest)) && key >= 8
    requires FindField(fields, key / 8, 0).None? && SkipField(key % 8, rest) == Some(more)
    ensures DecodeLoop(fields, slots, seen, s) == DecodeLoop(fields, slots, seen, more)
  {}

  lemma UnknownIsSkipped(fields: seq<Field>, slots: seq<Slot>, seen: set<nat>, u: seq<byte>, more: seq<byte>)
    requires WellFormedFields(fields) && Typed(fields, slots) && IsUnknown(fields, u)
    ensures DecodeLoop(fields, slots, seen, u + more) == DecodeLoop(fields, slots, seen, more)
  {
    var key := ReadVarint32(u).value;
    Varint32IsLocal(u, more);
    SkipIsLocal(key.value % 8, key.rest, more);
    assert [] + more == more;
    SkipTurn(fields, slots, seen, u + more, key.value, key.rest + more, more);
  }

  // An input with unknown fields in between.
  datatype Segment = Known(bytes: seq<byte>) | Foreign(field: seq<byte>)

  function Input(segments: seq<Segment>): seq<byte> {
    if segments == [] then []
    else (match segments[0] case Known(s) => s case Foreign(u) => u) + Input(segments[1..])
  }

  function KnownInput(segments: seq<Segment>): seq<byte> {
    if segments == [] then []
    else (match segments[0] case Known(s) => s case Foreign(_) => []) + KnownInput(segments[1..])
  }

  // Foreign fields stand only where a field ends.
  ghost predicate AtBoundaries(fields: seq<Field>, slots: seq<Slot>, seen: set<nat>, segments: seq<Segment>)
    requires WellFormedFields(fields) && Typed(fields, slots)
    decreases |segments|
  {
    segments != [] ==>
      match segments[0]
      case Foreign(u) => IsUnknown(fields, u) && AtBoundaries(fields, slots, seen, segments[1..])
      case Known(s) =>
        segments[1..] != [] ==>
          && Ends(fields, slots, seen, s)
          && var l := DecodeLoop(fields, slots, seen, s).value;
            AtBoundaries(fields, l.slots, l.seen, segments[1..])
  }

  // However many unknown fields stand at whatever field boundaries, the
  // decoder does what it does without them.
  lemma {:induction false} UnknownFieldsAreInvisible(fields: seq<Field>, slots: seq<Slot>, seen: set<nat>,
                                                     segments: seq<Segment>)
    requires WellFormedFields(fields) && Typed(fields, slots) && AtBoundaries(fields, slots, seen, segments)
    ensures DecodeLoop(fields, slots, seen, Input(segments)) == DecodeLoop(fields, slots, seen, KnownInput(segments))
    decreases |segments|
  {
    if segments != [] {
      var rest := segments[1..];
      match segments[0]
      case Foreign(u) =>
        UnknownIsSkipped(fields, slots, seen, u, Input(rest));
        UnknownFieldsAreInvisible(fields, slots, seen, rest);
        assert KnownInput(segments) == KnownInput(rest);
      case Known(s) =>
        if rest != [] {
          var l := DecodeLoop(fields, slots, seen, s).value;
          LoopMerges(fields, slots, seen, s, Input(rest));
          LoopMerges(fields, slots, seen, s, KnownInput(rest));
          UnknownFieldsAreInvisible(fields, l.slots, l.seen, rest);
        }
    }
  }

  lemma NoInitIgnoresUnknown(fields: seq<Field>, slots: seq<Slot>, segments: seq<Segment>)
    requires WellFormedFields(fields) && Typed(fields, slots) && AtBoundaries(fields, slots, {}, segments)
    ensures DecodeNoInit(fields, slots, Input(segments)) == DecodeNoInit(fields, slots, KnownInput(segments))
  {
    UnknownFieldsAreInvisible(fields, slots, {}, segments);
  }
}
