// Fields that occur more than once: the last scalar wins, arrays are
// appended, nested messages merge, and a union starts anew.

module PbRepeats {
  import opened Bytes
  import opened PbMessage
  import opened PbWire
  import opened PbEncoding
  import opened PbIter
  import opened PbDecoding
  import opened PbMerge
  import opened PbRoundTrip

  // Decoding two encodings in a row gives the second merged into the first.
  lemma EncodingsMerge(fields: seq<Field>, a: seq<Slot>, b: seq<Slot>)
    requires WellFormedFields(fields) && WellFormed(fields, a) && WellFormed(fields, b) && Typed(fields, a) && Typed(fields, b)
    requires Typed(fields, Normal(fields, a)) && RoomFor(fields, Normal(fields, a), b)
    ensures Encode(fields, a, 0).Some? && Encode(fields, b, 0).Some?
    ensures var x, y := Encode(fields, a, 0).value, Encode(fields, b, 0).value;
      |x| < U32 && |y| < U32 ==> Decode(fields, x + y) == Some(Read(Merged(fields, Normal(fields, a), b), []))
  {
    hide DecodeLoop, Merged, TypedSlot, RoomForSlot, EncodeSlot;
    var start, mid := Defaults(fields), Normal(fields, a);
    DefaultsAreTyped(fields);
    DefaultsHaveRoom(fields, a);
    StartsPartial(fields, start, a);
    StartsPartial(fields, mid, b);
    FieldsRoundTrip(fields, start, a, 0, {});
    var x := Encode(fields, a, 0).value;
    if |x| < U32 {
      var l := DecodeLoop(fields, start, {}, x).value;
      FieldsRoundTrip(fields, mid, b, 0, l.seen);
      LoopMerges(fields, start, {}, x, Encode(fields, b, 0).value);
    } else {
      FieldsRoundTrip(fields, mid, b, 0, {});
    }
  }

  // A scalar replaces whatever there was.
  lemma LastScalarWins(f: Field, prior: Value, prior': Value, s: seq<byte>)
    requires WellFormedField(f) && !f.kind.Submessage? && TypedValue(f, prior) && TypedValue(f, prior')
    ensures DecodeValue(f, prior, s) == DecodeValue(f, prior', s)
  {}

  // A member of a union does not see what the union held.
  lemma UnionStartsAnew(f: Field, wireType: nat, slot: Slot, slot': Slot, s: seq<byte>)
    requires WellFormedField(f) && f.rule.Oneof? && TypedSlot(f, slot) && TypedSlot(f, slot')
    ensures DecodeField(f, wireType, slot, s) == DecodeField(f, wireType, slot', s)
  {}

  // Two chunks of packed items are one chunk.
  lemma {:induction false} ChunksAppend(f: Field, items: seq<Value>, a: seq<byte>, b: seq<byte>)
    requires f.rule.Repeated? && WellFormedField(f) && (forall v :: v in items ==> TypedValue(f, v))
    requires DecodePacked(f, items, a).Some?
    ensures items <= DecodePacked(f, items, a).value
    ensures DecodePacked(f, items, a + b) == DecodePacked(f, DecodePacked(f, items, a).value, b)
    decreases |a|
  {
    if a == [] {
      assert a + b == b;
    } else {
      DefaultIsTyped(f);
      ValueIsLocal(f, DefaultValue(f), a, b);
      var r := DecodeValue(f, DefaultValue(f), a).value;
      ChunksAppend(f, items + [r.value], r.rest, b);
    }
  }

  // A numeric array takes items one by one as well.
  lemma NumbersComeUnpacked(f: Field, held: seq<Value>, v: Value, rest: seq<byte>)
    requires WellFormedField(f) && f.rule.Repeated? && Packable(f.kind) && |held| < f.rule.arraySize
    requires TypedValue(f, v) && TypedSlot(f, Many(held))
    ensures EncodeValue(f, v).Some?
    ensures DecodeField(f, WireType(f.kind), Many(held), EncodeValue(f, v).value + rest) == Some(Read(Many(held + [v]), rest))
  {
    DefaultIsTyped(f);
    PackableRoundTrip(f, v, DefaultValue(f), rest);
  }

  // An array that is full takes nothing more: another item is an error, and so
  // is a packed chunk that is not empty.
  lemma FullArrayFails(f: Field, held: seq<Value>, wireType: nat, s: seq<byte>)
    requires WellFormedField(f) && f.rule.Repeated? && |held| >= f.rule.arraySize && TypedSlot(f, Many(held))
    ensures var r, chunk := DecodeField(f, wireType, Many(held), s), ReadPrefixed(s);
      r.Some? ==>
        && wireType == 2 && Packable(f.kind) && chunk.Some? && chunk.value.value == []
        && r.value == Read(Many(held), chunk.value.rest)
  {}

  // A tag of zero ends a message, whatever follows.
  lemma ZeroTagStops(fields: seq<Field>, slots: seq<Slot>, seen: set<nat>, s: seq<byte>)
    requires WellFormedFields(fields) && Typed(fields, slots)
    ensures DecodeLoop(fields, slots, seen, [0] + s) == Some(Loop(slots, seen, s, true))
  {
    assert ([0] + s)[1..] == s;
  }

  // Two occurrences of a submessage are one with the contents of both.
  lemma OccurrencesMerge(f: Field, prior: Value, a: seq<byte>, b: seq<byte>, rest: seq<byte>)
    requires WellFormedField(f) && f.kind.Submessage? && !f.rule.Repeated? && TypedValue(f, prior) && |a + b| < U32
    requires Ends(f.kind.fields, prior.slots, {}, a)
    requires var first := DecodeValue(f, prior, Prefixed(a) + rest);
      first.Some? && DecodeValue(f, first.value.value, Prefixed(b) + rest).Some?
    ensures var first := DecodeValue(f, prior, Prefixed(a) + rest).value.value;
      DecodeValue(f, prior, Prefixed(a + b) + rest) == DecodeValue(f, first, Prefixed(b) + rest)
  {
    PrefixedRoundTrip(a, rest);
    PrefixedRoundTrip(b, rest);
    PrefixedRoundTrip(a + b, rest);
    hide ReadPrefixed, DecodeLoop;
    MessagesMerge(f.kind.fields, prior.slots, a, b);
  }

  // A tag of zero with another wire type is skipped, but in a message without
  // fields it finds the end of the descriptor, and is an error.
  lemma ZeroTagWithType(fields: seq<Field>, slots: seq<Slot>, seen: set<nat>, wireType: nat, s: seq<byte>)
    requires WellFormedFields(fields) && Typed(fields, slots) && 0 < wireType < 8
    ensures var next := SkipField(wireType, s);
      DecodeLoop(fields, slots, seen, [wireType as byte] + s)
        == if fields == [] || next.None? then None else DecodeLoop(fields, slots, seen, next.value)
  {
    assert ([wireType as byte] + s)[1..] == s;
    assert ReadVarint32([wireType as byte] + s) == Some(Read(wireType, s));
    NoZeroTag(fields, 0);
  }

  lemma {:induction false} NoZeroTag(fields: seq<Field>, i: nat)
    requires WellFormedFields(fields) && i <= |fields|
    ensures FindField(fields, 0, i).None?
    decreases |fields| - i
  {
    if i < |fields| {
      assert WellFormedField(fields[i]);
      NoZeroTag(fields, i + 1);
    }
  }
}
