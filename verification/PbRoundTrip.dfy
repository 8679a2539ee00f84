// Decoding what pb_encode wrote merges it into the structure, at every nesting
// depth; into defaults, pb_decode undoes pb_encode.

module PbRoundTrip {
  import opened Bytes
  import opened PbMessage
  import opened PbWire
  import opened PbVarint32
  import opened PbEncoding
  import opened PbIter
  import opened PbDecoding

  // ------------------------------------------------------------------
  // What decoding a message makes of a structure

  // Nested messages are merged, other values replaced.
  function MergedValue(f: Field, prior: Value, v: Value): (r: Value)
    requires WellFormedField(f) && TypedValue(f, prior) && TypedValue(f, v)
    decreases v, 0
  {
    if f.kind.Submessage? then Msg(Merged(f.kind.fields, prior.slots, v.slots)) else v
  }

  // Items of an array and members of a union start from their defaults.
  function NormalValue(f: Field, v: Value): (r: Value)
    requires WellFormedField(f) && TypedValue(f, v)
    decreases v, 1
  {
    DefaultIsTyped(f);
    MergedValue(f, DefaultValue(f), v)
  }

  function NormalItems(f: Field, items: seq<Value>): (r: seq<Value>)
    requires WellFormedField(f) && forall v :: v in items ==> TypedValue(f, v)
    ensures |r| == |items| && forall i :: 0 <= i < |items| ==> r[i] == NormalValue(f, items[i])
    decreases items, 2
  {
    seq(|items|, i requires 0 <= i < |items| => NormalValue(f, items[i]))
  }

  // A field that is not written leaves what is there.
  function MergedSlot(f: Field, base: Slot, s: Slot): (r: Slot)
    requires WellFormedField(f) && TypedSlot(f, base) && TypedSlot(f, s)
    decreases s, 0
  {
    match f.rule
    case Required => One(MergedValue(f, base.value, s.value))
    case Singular => if ZeroValue(f, s.value) then base else One(MergedValue(f, base.value, s.value))
    case Optional => if s.has then Maybe(true, MergedValue(f, base.held, s.held)) else base
    case Repeated(_) => Many(base.items + NormalItems(f, s.items))
    case Oneof(_) => if s.chosen.Some? then Choice(Some(NormalValue(f, s.chosen.value))) else base
  }

  // One of the first n fields is written, and takes the union from field j.
  predicate Displaced(fields: seq<Field>, slots: seq<Slot>, j: nat, n: nat)
    requires |fields| == |slots| && j < |fields| && n <= |fields|
  {
    slots[j] == Choice(None) && exists i :: 0 <= i < n && SameUnion(fields[i], fields[j]) && slots[i] != Choice(None)
  }

  function Merged(fields: seq<Field>, base: seq<Slot>, slots: seq<Slot>): (r: seq<Slot>)
    requires WellFormedFields(fields) && Typed(fields, base) && Typed(fields, slots)
    ensures |r| == |fields|
    ensures forall j :: 0 <= j < |fields| ==>
      r[j] == if Displaced(fields, slots, j, |fields|) then Choice(None) else MergedSlot(fields[j], base[j], slots[j])
    decreases slots, 1
  {
    seq(|fields|, j requires 0 <= j < |fields| =>
      if Displaced(fields, slots, j, |fields|) then Choice(None) else MergedSlot(fields[j], base[j], slots[j]))
  }

  // What pb_decode makes of a message: absent fields are at their defaults,
  // whatever the structure held there.
  function Normal(fields: seq<Field>, slots: seq<Slot>): (r: seq<Slot>)
    requires WellFormedFields(fields) && Typed(fields, slots)
  {
    DefaultsAreTyped(fields);
    Merged(fields, Defaults(fields), slots)
  }

  lemma {:induction false} MergedValueIsTyped(f: Field, prior: Value, v: Value)
    requires WellFormedField(f) && TypedValue(f, prior) && TypedValue(f, v)
    ensures TypedValue(f, MergedValue(f, prior, v))
    decreases v, 0
  {
    if f.kind.Submessage? {
      MergedIsTyped(f.kind.fields, prior.slots, v.slots);
    }
  }

  lemma {:induction false} NormalValueIsTyped(f: Field, v: Value)
    requires WellFormedField(f) && TypedValue(f, v)
    ensures TypedValue(f, NormalValue(f, v))
    decreases v, 1
  {
    DefaultIsTyped(f);
    MergedValueIsTyped(f, DefaultValue(f), v);
  }

  lemma {:induction false} MergedSlotIsTyped(f: Field, base: Slot, s: Slot)
    requires WellFormedField(f) && TypedSlot(f, base) && TypedSlot(f, s)
    ensures TypedSlot(f, MergedSlot(f, base, s))
    decreases s, 0
  {
    match f.rule
    case Required => MergedValueIsTyped(f, base.value, s.value);
    case Singular => MergedValueIsTyped(f, base.value, s.value);
    case Optional => MergedValueIsTyped(f, base.held, s.held);
    case Oneof(_) => if s.chosen.Some? { NormalValueIsTyped(f, s.chosen.value); }
    case Repeated(_) =>
      forall v | v in s.items ensures TypedValue(f, NormalValue(f, v)) {
        NormalValueIsTyped(f, v);
      }
  }

  lemma {:induction false} MergedIsTyped(fields: seq<Field>, base: seq<Slot>, slots: seq<Slot>)
    requires WellFormedFields(fields) && Typed(fields, base) && Typed(fields, slots)
    ensures Typed(fields, Merged(fields, base, slots))
    decreases slots, 1
  {
    forall i | 0 <= i < |fields| ensures TypedSlot(fields[i], Merged(fields, base, slots)[i]) {
      MergedSlotIsTyped(fields[i], base[i], slots[i]);
    }
  }

  // The arrays of both fit into the arrays of the structure.
  predicate RoomForValue(f: Field, prior: Value, v: Value)
    requires TypedValue(f, prior) && TypedValue(f, v)
    decreases v, 0
  {
    f.kind.Submessage? ==> RoomFor(f.kind.fields, prior.slots, v.slots)
  }

  predicate RoomForSlot(f: Field, base: Slot, s: Slot)
    requires TypedSlot(f, base) && TypedSlot(f, s)
    decreases s, 0
  {
    match f.rule
    case Required | Singular => RoomForValue(f, base.value, s.value)
    case Optional => s.has ==> RoomForValue(f, base.held, s.held)
    case Repeated(n) => |base.items| + |s.items| <= n
    case Oneof(_) => true
  }

  predicate RoomFor(fields: seq<Field>, base: seq<Slot>, slots: seq<Slot>)
    requires Typed(fields, base) && Typed(fields, slots)
    decreases slots, 1
  {
    forall i :: 0 <= i < |fields| ==> RoomForSlot(fields[i], base[i], slots[i])
  }

  // Defaults have room for every well-formed message.
  lemma {:induction false} DefaultHasRoom(f: Field, v: Value)
    requires WellFormedField(f) && WellFormedValue(f, v) && TypedValue(f, DefaultValue(f))
    ensures RoomForValue(f, DefaultValue(f), v)
    decreases v, 0
  {
    if f.kind.Submessage? {
      DefaultsHaveRoom(f.kind.fields, v.slots);
    }
  }

  lemma {:induction false} DefaultsHaveRoom(fields: seq<Field>, slots: seq<Slot>)
    requires WellFormedFields(fields) && WellFormed(fields, slots) && Typed(fields, slots) && Typed(fields, Defaults(fields))
    ensures RoomFor(fields, Defaults(fields), slots)
    decreases slots, 1
  {
    forall i | 0 <= i < |fields| ensures RoomForSlot(fields[i], Defaults(fields)[i], slots[i]) {
      DefaultSlotHasRoom(fields[i], slots[i]);
    }
  }

  lemma {:induction false} DefaultSlotHasRoom(f: Field, s: Slot)
    requires WellFormedField(f) && WellFormedSlot(f, s) && TypedSlot(f, s) && TypedSlot(f, DefaultSlot(f))
    ensures RoomForSlot(f, DefaultSlot(f), s)
    decreases s, 0
  {
    match f.rule
    case Required => DefaultHasRoom(f, s.value);
    case Singular => DefaultHasRoom(f, s.value);
    case Optional => DefaultHasRoom(f, s.held);
    case _ =>
  }

  lemma {:induction false} WellFormedIsTyped(fields: seq<Field>, slots: seq<Slot>)
    requires WellFormed(fields, slots)
    ensures Typed(fields, slots)
  {
    forall i | 0 <= i < |fields| ensures TypedSlot(fields[i], slots[i]) {
      assert WellFormedSlot(fields[i], slots[i]);
    }
  }

  // ------------------------------------------------------------------
  // Values

  lemma Width64(n: int)
    requires IsInt64(n)
    ensures Signed64(Wrap64(n)) == n
    ensures -0x8000_0000 <= n < 0x8000_0000 ==> Signed32(Wrap64(n) % U32) == n
  {
    if -0x8000_0000 <= n < 0 {
      assert Wrap64(n) == n + U32 + 0xffff_ffff * U32;
    }
  }

  lemma NumberRoundTrip(f: Field, v: Value, prior: Value, rest: seq<byte>)
    requires WellFormedField(f) && TypedValue(f, v) && TypedValue(f, prior)
    requires f.kind.Varint? || f.kind.Uvarint? || f.kind.Svarint?
    ensures EncodeValue(f, v).Some?
    ensures DecodeValue(f, prior, EncodeValue(f, v).value + rest) == Some(Read(v, rest))
  {
    match f.kind
    case Varint =>
      Width64(v.n);
      VarintRoundTrip(Wrap64(v.n), rest);
    case Uvarint => VarintRoundTrip(v.n, rest);
    case Svarint =>
      ZigZagRoundTrip(v.n);
      VarintRoundTrip(ZigZag(v.n), rest);
  }

  lemma FixedValueRoundTrip(n: nat, len: nat, rest: seq<byte>)
    requires n < Power256(len)
    ensures ReadFixed(FixedBytes(n, len) + rest, len) == Some(Read(n, rest))
  {
    FixedRoundTrip(n, len);
    var s := FixedBytes(n, len) + rest;
    assert s[..len] == FixedBytes(n, len) && s[len..] == rest;
  }

  lemma {:induction false} CStringIsWhole(s: seq<byte>)
    requires 0 !in s
    ensures CString(s) == s
  {
    if s != [] {
      CStringIsWhole(s[1..]);
    }
  }

  lemma PrefixedRoundTrip(s: seq<byte>, rest: seq<byte>)
    requires |s| < U32
    ensures ReadVarint32(Prefixed(s) + rest) == Some(Read(|s|, s + rest))
    ensures ReadPrefixed(Prefixed(s) + rest) == Some(Read(s, rest))
  {
    assert Prefixed(s) + rest == VarintBytes(|s|) + (s + rest);
    Varint32Exact(|s|, s + rest);
    assert (s + rest)[..|s|] == s && (s + rest)[|s|..] == rest;
  }

  lemma DataRoundTrip(f: Field, v: Value, prior: Value, rest: seq<byte>)
    requires WellFormedField(f) && WellFormedValue(f, v) && TypedValue(f, prior)
    requires f.kind.Bytes? || f.kind.String? || f.kind.FixedLengthBytes?
    ensures EncodeValue(f, v).Some?
    ensures DecodeValue(f, prior, EncodeValue(f, v).value + rest) == Some(Read(v, rest))
  {
    PrefixedRoundTrip(v.bytes, rest);
    assert (v.bytes + rest)[..|v.bytes|] == v.bytes && (v.bytes + rest)[|v.bytes|..] == rest;
    if f.kind.String? {
      CStringIsWhole(v.bytes);
    }
  }

  lemma {:induction false} ValueRoundTrip(f: Field, v: Value, prior: Value, rest: seq<byte>)
    requires WellFormedField(f) && WellFormedValue(f, v) && TypedValue(f, prior) && RoomForValue(f, prior, v)
    requires f.kind.Submessage? && f.rule.Repeated? ==> prior == DefaultValue(f)
    ensures EncodeValue(f, v).Some?
    ensures |EncodeValue(f, v).value| < U32 ==>
      DecodeValue(f, prior, EncodeValue(f, v).value + rest) == Some(Read(MergedValue(f, prior, v), rest))
    decreases v, 3, 0
  {
    match f.kind
    case Varint => NumberRoundTrip(f, v, prior, rest);
    case Uvarint => NumberRoundTrip(f, v, prior, rest);
    case Svarint => NumberRoundTrip(f, v, prior, rest);
    case Fixed32 => FixedValueRoundTrip(v.n, 4, rest);
    case Fixed64 => FixedValueRoundTrip(v.n, 8, rest);
    case Submessage(fields) => SubmessageRoundTrip(f, v, prior, rest);
    case _ => DataRoundTrip(f, v, prior, rest);
  }

  lemma {:induction false} SubmessageRoundTrip(f: Field, v: Value, prior: Value, rest: seq<byte>)
    requires f.kind.Submessage? && WellFormedField(f) && WellFormedValue(f, v) && TypedValue(f, prior) && RoomForValue(f, prior, v)
    requires f.rule.Repeated? ==> prior == DefaultValue(f)
    ensures EncodeValue(f, v).Some?
    ensures |EncodeValue(f, v).value| < U32 ==>
      DecodeValue(f, prior, EncodeValue(f, v).value + rest) == Some(Read(MergedValue(f, prior, v), rest))
    decreases v, 2, 0
  {
    var fields := f.kind.fields;
    MessageRoundTrip(fields, prior.slots, v.slots);
    var body := Encode(fields, v.slots, 0).value;
    if |body| < U32 {
      PrefixedRoundTrip(body, rest);
    }
  }

  // Into defaults.
  lemma {:induction false} NormalRoundTrip(f: Field, v: Value, rest: seq<byte>)
    requires WellFormedField(f) && WellFormedValue(f, v) && TypedValue(f, DefaultValue(f))
    ensures EncodeValue(f, v).Some?
    ensures |EncodeValue(f, v).value| < U32 ==>
      DecodeValue(f, DefaultValue(f), EncodeValue(f, v).value + rest) == Some(Read(NormalValue(f, v), rest))
    decreases v, 4, 0
  {
    DefaultHasRoom(f, v);
    ValueRoundTrip(f, v, DefaultValue(f), rest);
  }

  // ------------------------------------------------------------------
  // Fields

  // Fields below i are read, the others as they were, but for what a union
  // lost.
  function Partial(fields: seq<Field>, base: seq<Slot>, slots: seq<Slot>, i: nat): (r: seq<Slot>)
    requires WellFormedFields(fields) && Typed(fields, base) && Typed(fields, slots) && i <= |fields|
    ensures |r| == |fields|
    ensures forall j :: 0 <= j < |fields| ==>
      r[j] == if Displaced(fields, slots, j, i) then Choice(None)
              else if j < i then MergedSlot(fields[j], base[j], slots[j]) else base[j]
  {
    seq(|fields|, j requires 0 <= j < |fields| =>
      if Displaced(fields, slots, j, i) then Choice(None)
      else if j < i then MergedSlot(fields[j], base[j], slots[j]) else base[j])
  }

  lemma PartialIsTyped(fields: seq<Field>, base: seq<Slot>, slots: seq<Slot>, i: nat)
    requires WellFormedFields(fields) && Typed(fields, base) && Typed(fields, slots) && i <= |fields|
    ensures Typed(fields, Partial(fields, base, slots, i))
  {
    forall j | 0 <= j < |fields| ensures TypedSlot(fields[j], Partial(fields, base, slots, i)[j]) {
      MergedSlotIsTyped(fields[j], base[j], slots[j]);
    }
  }

  // One tagged item is one turn of the decoding loop.
  lemma TaggedTurn(fields: seq<Field>, slots: seq<Slot>, seen: set<nat>, i: nat, body: seq<byte>, slot: Slot,
                   rest: seq<byte>, wireType: nat)
    requires WellFormedFields(fields) && Typed(fields, slots) && i < |fields| && wireType < 8
    requires DecodeField(fields[i], wireType, slots[i], body + rest) == Some(Read(slot, rest))
    ensures Typed(fields, SetSlot(fields, slots, i, slot))
    ensures DecodeLoop(fields, slots, seen, TagBytes(fields[i].tag, wireType) + body + rest)
      == DecodeLoop(fields, SetSlot(fields, slots, i, slot), seen + {i}, rest)
  {
    hide DecodeLoop, VarintBytes, DecodeField;
    var key, s := fields[i].tag * 8 + wireType, TagBytes(fields[i].tag, wireType) + body + rest;
    assert s == VarintBytes(key) + (body + rest);
    Varint32Exact(key, body + rest);
    FoundIsField(fields, fields[i].tag, i, 0);
    LoopTurn(fields, slots, seen, s, key, body + rest, Read((SetSlot(fields, slots, i, slot), seen + {i}), rest));
  }

  // Setting the slot of field i moves on to the next field.
  lemma NextPartial(fields: seq<Field>, base: seq<Slot>, slots: seq<Slot>, i: nat)
    requires WellFormedFields(fields) && WellFormed(fields, slots) && Typed(fields, base) && Typed(fields, slots) && i < |fields|
    requires fields[i].rule.Oneof? ==> slots[i] != Choice(None)
    ensures Partial(fields, base, slots, i)[i] == base[i]
    ensures SetSlot(fields, Partial(fields, base, slots, i), i, MergedSlot(fields[i], base[i], slots[i]))
      == Partial(fields, base, slots, i + 1)
  {
    hide MergedSlot, WellFormedField, TypedSlot, WellFormedSlot;
    var at, next := Partial(fields, base, slots, i), Partial(fields, base, slots, i + 1);
    forall j | 0 <= j < |fields|
      ensures next[j] == if j == i then MergedSlot(fields[i], base[i], slots[i])
                         else if SameUnion(fields[i], fields[j]) then Choice(None) else at[j]
    {
      if j != i && SameUnion(fields[i], fields[j]) {
        assert SameUnion(fields[j], fields[i]) && slots[j] == Choice(None);
      } else if j != i {
        DisplacedByOthers(fields, slots, j, i);
      }
    }
  }

  lemma DisplacedByOthers(fields: seq<Field>, slots: seq<Slot>, j: nat, i: nat)
    requires |fields| == |slots| && j < |fields| && i < |fields|
    requires !SameUnion(fields[i], fields[j]) || slots[i] == Choice(None)
    ensures Displaced(fields, slots, j, i + 1) == Displaced(fields, slots, j, i)
  {}

  lemma NothingPartial(fields: seq<Field>, base: seq<Slot>, slots: seq<Slot>, i: nat)
    requires WellFormedFields(fields) && Typed(fields, base) && Typed(fields, slots) && i < |fields|
    requires MergedSlot(fields[i], base[i], slots[i]) == base[i] && (fields[i].rule.Oneof? ==> slots[i] == Choice(None))
    ensures Partial(fields, base, slots, i) == Partial(fields, base, slots, i + 1)
  {
    hide MergedSlot, WellFormedField, TypedSlot;
    forall j | 0 <= j < |fields|
      ensures Partial(fields, base, slots, i)[j] == Partial(fields, base, slots, i + 1)[j]
    {
      DisplacedByOthers(fields, slots, j, i);
    }
  }

  // The value of a slot that is written once, if it is written.
  function Written(f: Field, s: Slot): Option<Value>
    requires TypedSlot(f, s) && !f.rule.Repeated?
  {
    match f.rule
    case Required => Some(s.value)
    case Singular => if ZeroValue(f, s.value) then None else Some(s.value)
    case Optional => if s.has then Some(s.held) else None
    case Oneof(_) => s.chosen
  }

  lemma {:induction false} SingleRoundTrip(f: Field, base: Slot, s: Slot, v: Value, rest: seq<byte>)
    requires WellFormedField(f) && TypedSlot(f, base) && TypedSlot(f, s) && WellFormedSlot(f, s) && RoomForSlot(f, base, s)
    requires !f.rule.Repeated? && Written(f, s) == Some(v)
    ensures EncodeValue(f, v).Some? && EncodeSlot(f, s) == EncodeTagged(f, v)
    ensures |EncodeValue(f, v).value| < U32 ==>
      DecodeField(f, WireType(f.kind), base, EncodeValue(f, v).value + rest) == Some(Read(MergedSlot(f, base, s), rest))
    decreases s, 0, 0
  {
    DefaultIsTyped(f);
    match f.rule
    case Oneof(_) => NormalRoundTrip(f, v, rest);
    case Optional => ValueRoundTrip(f, v, base.held, rest);
    case Required => ValueRoundTrip(f, v, base.value, rest);
    case Singular => ValueRoundTrip(f, v, base.value, rest);
  }

  // The packed items of an array, from item k on, behind what it holds.
  lemma {:induction false} PackedRoundTrip(f: Field, held: seq<Value>, items: seq<Value>, k: nat)
    requires f.rule.Repeated? && Packable(f.kind) && WellFormedField(f) && |held| + |items| <= f.rule.arraySize && k <= |items|
    requires forall v :: v in held + items ==> TypedValue(f, v)
    ensures EncodeItems(f, items, true, k).Some?
    ensures DecodePacked(f, held + items[..k], EncodeItems(f, items, true, k).value) == Some(held + items)
    decreases |items| - k
  {
    if k < |items| {
      PackedRoundTrip(f, held, items, k + 1);
      PackedTurn(f, held, items, k, EncodeItems(f, items, true, k + 1).value);
    } else {
      assert items[..k] == items;
    }
  }

  lemma PackedTurn(f: Field, held: seq<Value>, items: seq<Value>, k: nat, rest: seq<byte>)
    requires f.rule.Repeated? && Packable(f.kind) && WellFormedField(f) && |held| + |items| <= f.rule.arraySize && k < |items|
    requires forall v :: v in held + items ==> TypedValue(f, v)
    ensures EncodeValue(f, items[k]).Some?
    ensures DecodePacked(f, held + items[..k], EncodeValue(f, items[k]).value + rest) == DecodePacked(f, held + items[..k + 1], rest)
  {
    DefaultIsTyped(f);
    assert items[k] in held + items;
    PackableRoundTrip(f, items[k], DefaultValue(f), rest);
    assert held + items[..k] + [items[k]] == held + items[..k + 1];
  }

  lemma PackableRoundTrip(f: Field, v: Value, prior: Value, rest: seq<byte>)
    requires Packable(f.kind) && WellFormedField(f) && TypedValue(f, v) && TypedValue(f, prior)
    ensures EncodeValue(f, v).Some? && EncodeValue(f, v).value != []
    ensures DecodeValue(f, prior, EncodeValue(f, v).value + rest) == Some(Read(v, rest))
  {
    match f.kind
    case Varint => NumberRoundTrip(f, v, prior, rest);
    case Uvarint => NumberRoundTrip(f, v, prior, rest);
    case Svarint => NumberRoundTrip(f, v, prior, rest);
    case Fixed32 => FixedValueRoundTrip(v.n, 4, rest);
    case Fixed64 => FixedValueRoundTrip(v.n, 8, rest);
  }

  // A packed chunk is appended to what the array holds.
  lemma PackedFieldRoundTrip(f: Field, held: seq<Value>, items: seq<Value>, rest: seq<byte>)
    requires f.rule.Repeated? && Packable(f.kind) && WellFormedField(f) && items != [] && |held| + |items| <= f.rule.arraySize
    requires forall v :: v in held + items ==> TypedValue(f, v)
    ensures var body := EncodeItems(f, items, true, 0);
      && body.Some? && EncodeArray(f, items) == Some(TagBytes(f.tag, WT_STRING) + Prefixed(body.value))
      && (|body.value| < U32 ==>
          DecodeField(f, WT_STRING, Many(held), Prefixed(body.value) + rest) == Some(Read(Many(held + items), rest)))
  {
    PackedRoundTrip(f, held, items, 0);
    var body := EncodeItems(f, items, true, 0).value;
    if |body| < U32 {
      PrefixedRoundTrip(body, rest);
      assert held + items[..0] == held;
    }
  }

  // One more item of an array that is not packed.
  lemma UnpackedTurn(fields: seq<Field>, slots: seq<Slot>, seen: set<nat>, i: nat, held: seq<Value>, v: Value,
                     rest: seq<byte>)
    requires WellFormedFields(fields) && Typed(fields, slots) && i < |fields| && slots[i] == Many(held)
    requires fields[i].rule.Repeated? && !Packable(fields[i].kind) && |held| < fields[i].rule.arraySize
    requires WellFormedValue(fields[i], v)
    requires EncodeValue(fields[i], v).Some? && TypedValue(fields[i], DefaultValue(fields[i]))
    requires DecodeValue(fields[i], DefaultValue(fields[i]), EncodeValue(fields[i], v).value + rest)
      == Some(Read(NormalValue(fields[i], v), rest))
    ensures var slots' := SetSlot(fields, slots, i, Many(held + [NormalValue(fields[i], v)]));
      && Typed(fields, slots')
      && DecodeLoop(fields, slots, seen, EncodeTagged(fields[i], v).value + rest) == DecodeLoop(fields, slots', seen + {i}, rest)
  {
    var f := fields[i];
    TaggedTurn(fields, slots, seen, i, EncodeValue(f, v).value, Many(held + [NormalValue(f, v)]), rest, WireType(f.kind));
  }

  // An array that is not packed, with the first k items read behind what it
  // held.
  ghost predicate UnpackedAt(fields: seq<Field>, slots: seq<Slot>, i: nat, held: seq<Value>, items: seq<Value>, k: nat) {
    && WellFormedFields(fields) && Typed(fields, slots) && i < |fields|
    && fields[i].rule.Repeated? && !Packable(fields[i].kind) && k <= |items| && |held| + |items| <= fields[i].rule.arraySize
    && (forall v :: v in held ==> TypedValue(fields[i], v))
    && (forall v :: v in items ==> TypedValue(fields[i], v) && WellFormedValue(fields[i], v))
    && slots[i] == Many(held + NormalItems(fields[i], items)[..k])
  }

  function WithItems(fields: seq<Field>, slots: seq<Slot>, i: nat, held: seq<Value>, items: seq<Value>, k: nat): seq<Slot>
    requires i < |fields| == |slots| && k <= |items| && WellFormedField(fields[i]) && forall v :: v in items ==> TypedValue(fields[i], v)
  {
    SetSlot(fields, slots, i, Many(held + NormalItems(fields[i], items)[..k]))
  }

  lemma {:induction false} UnpackedStep(fields: seq<Field>, slots: seq<Slot>, seen: set<nat>, i: nat,
                                        held: seq<Value>, items: seq<Value>, k: nat,
                                        more: seq<byte>, rest: seq<byte>)
    requires UnpackedAt(fields, slots, i, held, items, k) && k < |items|
    requires EncodeItems(fields[i], items, false, k + 1) == Some(more)
    ensures var enc := EncodeItems(fields[i], items, false, k);
      var slots' := WithItems(fields, slots, i, held, items, k + 1);
      && enc.Some? && |more| <= |enc.value| && Typed(fields, slots')
      && (|enc.value| < U32 ==>
          DecodeLoop(fields, slots, seen, enc.value + rest) == DecodeLoop(fields, slots', seen + {i}, more + rest))
    decreases items, 5, 0
  {
    var f, v, normal := fields[i], items[k], NormalItems(fields[i], items);
    DefaultIsTyped(f);
    NextIsUnpacked(fields, slots, i, held, items, k);
    assert held + normal[..k] + [NormalValue(f, v)] == held + normal[..k + 1];
    NormalRoundTrip(f, v, more + rest);
    FirstItem(f, items, k, more, rest);
    if |EncodeItems(f, items, false, k).value| < U32 {
      UnpackedTurn(fields, slots, seen, i, held + normal[..k], v, more + rest);
    }
  }

  lemma FirstItem(f: Field, items: seq<Value>, k: nat, more: seq<byte>, rest: seq<byte>)
    requires k < |items| && forall v :: v in items ==> TypedValue(f, v)
    requires EncodeValue(f, items[k]).Some? && EncodeItems(f, items, false, k + 1) == Some(more)
    ensures var enc, one := EncodeItems(f, items, false, k), EncodeTagged(f, items[k]);
      && one.Some? && enc == Some(one.value + more) && enc.value + rest == one.value + (more + rest)
      && |EncodeValue(f, items[k]).value| <= |enc.value| && |more| <= |enc.value|
  {
    hide EncodeValue, TagBytes;
    var one := EncodeTagged(f, items[k]).value;
    assert EncodeItems(f, items, false, k) == Some(one + more);
    assert (one + more) + rest == one + (more + rest);
  }

  lemma {:induction false} UnpackedRoundTrip(fields: seq<Field>, slots: seq<Slot>, seen: set<nat>, i: nat,
                                             held: seq<Value>, items: seq<Value>, k: nat,
                                             rest: seq<byte>) returns (seen': set<nat>)
    requires UnpackedAt(fields, slots, i, held, items, k)
    ensures var enc := EncodeItems(fields[i], items, false, k);
      && enc.Some? && seen <= seen'
      && (|enc.value| < U32 ==>
          var slots' := WithItems(fields, slots, i, held, items, |items|);
          && Typed(fields, slots')
          && DecodeLoop(fields, slots, seen, enc.value + rest) == DecodeLoop(fields, slots', seen', rest))
    decreases items, 6, |items| - k
  {
    hide DecodeLoop, EncodeValue, NormalValue, TypedSlot;
    seen' := seen;
    if k == |items| {
      assert [] + rest == rest;
      KeepsSlot(fields, slots, i);
    } else {
      var next := WithItems(fields, slots, i, held, items, k + 1);
      NextIsUnpacked(fields, slots, i, held, items, k);
      seen' := UnpackedRoundTrip(fields, next, seen + {i}, i, held, items, k + 1, rest);
      UnpackedStep(fields, slots, seen, i, held, items, k, EncodeItems(fields[i], items, false, k + 1).value, rest);
      assert WithItems(fields, next, i, held, items, |items|) == WithItems(fields, slots, i, held, items, |items|);
    }
  }

  // Outside unions, writing back what a slot holds changes nothing.
  lemma KeepsSlot(fields: seq<Field>, slots: seq<Slot>, i: nat)
    requires i < |fields| == |slots| && !fields[i].rule.Oneof?
    ensures SetSlot(fields, slots, i, slots[i]) == slots
  {}

  lemma NextIsUnpacked(fields: seq<Field>, slots: seq<Slot>, i: nat, held: seq<Value>, items: seq<Value>, k: nat)
    requires UnpackedAt(fields, slots, i, held, items, k) && k < |items|
    ensures UnpackedAt(fields, WithItems(fields, slots, i, held, items, k + 1), i, held, items, k + 1)
  {
    forall v | v in items ensures TypedValue(fields[i], NormalValue(fields[i], v)) {
      NormalValueIsTyped(fields[i], v);
    }
  }

  // ------------------------------------------------------------------
  // Messages

  // Between fields i - 1 and i of a well-formed message.
  ghost predicate At(fields: seq<Field>, base: seq<Slot>, slots: seq<Slot>, i: nat) {
    && WellFormedFields(fields) && WellFormed(fields, slots) && Typed(fields, slots)
    && Typed(fields, base) && RoomFor(fields, base, slots)
    && i <= |fields| && Typed(fields, Partial(fields, base, slots, i))
  }

  // Field i was read from enc.
  ghost predicate FieldRead(fields: seq<Field>, base: seq<Slot>, slots: seq<Slot>, i: nat, seen: set<nat>, seen': set<nat>,
                            enc: seq<byte>, rest: seq<byte>)
    requires At(fields, base, slots, i) && i < |fields|
  {
    && At(fields, base, slots, i + 1)
    && DecodeLoop(fields, Partial(fields, base, slots, i), seen, enc + rest)
      == DecodeLoop(fields, Partial(fields, base, slots, i + 1), seen', rest)
    && seen <= seen' && (fields[i].rule.Required? ==> i in seen')
  }

  lemma AtField(fields: seq<Field>, base: seq<Slot>, slots: seq<Slot>, i: nat)
    requires At(fields, base, slots, i) && i < |fields|
    ensures WellFormedField(fields[i]) && WellFormedSlot(fields[i], slots[i]) && TypedSlot(fields[i], slots[i])
    ensures TypedSlot(fields[i], base[i]) && RoomForSlot(fields[i], base[i], slots[i])
  {}

  lemma {:induction false} SingleFieldRead(fields: seq<Field>, base: seq<Slot>, slots: seq<Slot>, i: nat, seen: set<nat>, v: Value,
                                           rest: seq<byte>)
    requires At(fields, base, slots, i) && At(fields, base, slots, i + 1) && i < |fields| && !fields[i].rule.Repeated?
    requires Written(fields[i], slots[i]) == Some(v)
    ensures var enc := EncodeSlot(fields[i], slots[i]);
      enc.Some? && (|enc.value| < U32 ==> FieldRead(fields, base, slots, i, seen, seen + {i}, enc.value, rest))
    decreases slots, 0, 0
  {
    var f, at := fields[i], Partial(fields, base, slots, i);
    AtField(fields, base, slots, i);
    NextPartial(fields, base, slots, i);
    SingleRoundTrip(f, base[i], slots[i], v, rest);
    var enc := EncodeSlot(f, slots[i]).value;
    if |enc| < U32 {
      TaggedTurn(fields, at, seen, i, EncodeValue(f, v).value, MergedSlot(f, base[i], slots[i]), rest, WireType(f.kind));
    }
  }

  lemma AbsentFieldRead(fields: seq<Field>, base: seq<Slot>, slots: seq<Slot>, i: nat, seen: set<nat>, rest: seq<byte>)
    requires At(fields, base, slots, i) && At(fields, base, slots, i + 1) && i < |fields|
    requires TypedSlot(fields[i], slots[i])
    requires if fields[i].rule.Repeated? then slots[i] == Many([]) else Written(fields[i], slots[i]).None?
    ensures EncodeSlot(fields[i], slots[i]) == Some([]) && FieldRead(fields, base, slots, i, seen, seen, [], rest)
  {
    AtField(fields, base, slots, i);
    NothingMerged(fields[i], base[i], slots[i]);
    NothingPartial(fields, base, slots, i);
    assert [] + rest == rest;
  }

  lemma NothingMerged(f: Field, base: Slot, s: Slot)
    requires WellFormedField(f) && TypedSlot(f, base) && TypedSlot(f, s)
    requires if f.rule.Repeated? then s == Many([]) else Written(f, s).None?
    ensures MergedSlot(f, base, s) == base
  {
    if f.rule.Repeated? {
      assert base.items + [] == base.items;
    }
  }

  lemma PlainIsNormal(f: Field, items: seq<Value>)
    requires WellFormedField(f) && !f.kind.Submessage? && forall v :: v in items ==> TypedValue(f, v)
    ensures NormalItems(f, items) == items
  {
    forall k | 0 <= k < |items| ensures NormalItems(f, items)[k] == items[k] {
      assert NormalValue(f, items[k]) == items[k];
    }
  }

  lemma PackedFieldRead(fields: seq<Field>, base: seq<Slot>, slots: seq<Slot>, i: nat, seen: set<nat>, rest: seq<byte>)
    requires At(fields, base, slots, i) && At(fields, base, slots, i + 1) && i < |fields|
    requires fields[i].rule.Repeated? && Packable(fields[i].kind) && slots[i] != Many([])
    ensures var enc := EncodeSlot(fields[i], slots[i]);
      enc.Some? && (|enc.value| < U32 ==> FieldRead(fields, base, slots, i, seen, seen + {i}, enc.value, rest))
  {
    AtField(fields, base, slots, i);
    NextPartial(fields, base, slots, i);
    var f, at, held, items := fields[i], Partial(fields, base, slots, i), base[i].items, slots[i].items;
    PackedFieldRoundTrip(f, held, items, rest);
    PlainIsNormal(f, items);
    var body := EncodeItems(f, items, true, 0).value;
    if |EncodeSlot(f, slots[i]).value| < U32 {
      TaggedTurn(fields, at, seen, i, Prefixed(body), Many(held + items), rest, WT_STRING);
    }
  }

  lemma {:induction false} UnpackedFieldRead(fields: seq<Field>, base: seq<Slot>, slots: seq<Slot>, i: nat, seen: set<nat>,
                                             rest: seq<byte>)
    returns (seen': set<nat>)
    requires At(fields, base, slots, i) && At(fields, base, slots, i + 1) && i < |fields|
    requires fields[i].rule.Repeated? && !Packable(fields[i].kind)
    ensures var enc := EncodeSlot(fields[i], slots[i]);
      enc.Some? && (|enc.value| < U32 ==> FieldRead(fields, base, slots, i, seen, seen', enc.value, rest))
    decreases slots, 0, 0
  {
    AtField(fields, base, slots, i);
    NextPartial(fields, base, slots, i);
    var f, at, held, items := fields[i], Partial(fields, base, slots, i), base[i].items, slots[i].items;
    assert held + NormalItems(f, items)[..0] == held && NormalItems(f, items)[..|items|] == NormalItems(f, items);
    seen' := UnpackedRoundTrip(fields, at, seen, i, held, items, 0, rest);
  }

  lemma {:induction false} FieldRoundTrip(fields: seq<Field>, base: seq<Slot>, slots: seq<Slot>, i: nat, seen: set<nat>, rest: seq<byte>)
    returns (seen': set<nat>)
    requires At(fields, base, slots, i) && i < |fields|
    ensures var enc := EncodeSlot(fields[i], slots[i]);
      enc.Some? && (|enc.value| < U32 ==> FieldRead(fields, base, slots, i, seen, seen', enc.value, rest))
    decreases slots, 1, 0
  {
    PartialIsTyped(fields, base, slots, i + 1);
    AtField(fields, base, slots, i);
    var f, s := fields[i], slots[i];
    if if f.rule.Repeated? then s == Many([]) else Written(f, s).None? {
      AbsentFieldRead(fields, base, slots, i, seen, rest);
      seen' := seen;
    } else if !f.rule.Repeated? {
      SingleFieldRead(fields, base, slots, i, seen, Written(f, s).value, rest);
      seen' := seen + {i};
    } else if Packable(f.kind) {
      PackedFieldRead(fields, base, slots, i, seen, rest);
      seen' := seen + {i};
    } else {
      seen' := UnpackedFieldRead(fields, base, slots, i, seen, rest);
    }
  }

  // The fields from i on.
  lemma {:induction false} FieldsRoundTrip(fields: seq<Field>, base: seq<Slot>, slots: seq<Slot>, i: nat, seen: set<nat>)
    requires At(fields, base, slots, i)
    ensures Encode(fields, slots, i).Some?
    ensures |Encode(fields, slots, i).value| < U32 ==>
      var l := DecodeLoop(fields, Partial(fields, base, slots, i), seen, Encode(fields, slots, i).value);
      && l.Some? && l.value.slots == Merged(fields, base, slots) && l.value.rest == [] && !l.value.stopped
      && seen <= l.value.seen
      && forall j :: i <= j < |fields| && fields[j].rule.Required? ==> j in l.value.seen
    decreases slots, 2, |fields| - i
  {
    if i == |fields| {
      assert Partial(fields, base, slots, i) == Merged(fields, base, slots);
    } else {
      PartialIsTyped(fields, base, slots, i + 1);
      FieldsRoundTrip(fields, base, slots, i + 1, seen);
      var more := Encode(fields, slots, i + 1).value;
      var seen' := FieldRoundTrip(fields, base, slots, i, seen, more);
      FieldsRoundTrip(fields, base, slots, i + 1, seen');
    }
  }

  lemma StartsPartial(fields: seq<Field>, base: seq<Slot>, slots: seq<Slot>)
    requires WellFormedFields(fields) && Typed(fields, base) && Typed(fields, slots)
    ensures Partial(fields, base, slots, 0) == base
  {}

  lemma {:induction false} MessageRoundTrip(fields: seq<Field>, base: seq<Slot>, slots: seq<Slot>)
    requires WellFormedFields(fields) && WellFormed(fields, slots) && Typed(fields, slots)
    requires Typed(fields, base) && RoomFor(fields, base, slots)
    ensures Encode(fields, slots, 0).Some?
    ensures |Encode(fields, slots, 0).value| < U32 ==>
      DecodeNoInit(fields, base, Encode(fields, slots, 0).value) == Some(Read(Merged(fields, base, slots), []))
    decreases slots, 3, 0
  {
    StartsPartial(fields, base, slots);
    FieldsRoundTrip(fields, base, slots, 0, {});
  }

  // Every well-formed message encodes, and decoding the result gives it back.
  lemma DecodeUndoesEncode(fields: seq<Field>, slots: seq<Slot>)
    requires WellFormedFields(fields) && WellFormed(fields, slots)
    ensures Typed(fields, slots) && Encode(fields, slots, 0).Some?
    ensures |Encode(fields, slots, 0).value| < U32 ==>
      Decode(fields, Encode(fields, slots, 0).value) == Some(Read(Normal(fields, slots), []))
  {
    WellFormedIsTyped(fields, slots);
    DefaultsAreTyped(fields);
    DefaultsHaveRoom(fields, slots);
    MessageRoundTrip(fields, Defaults(fields), slots);
  }
}
