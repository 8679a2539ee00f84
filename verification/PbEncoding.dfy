// What the encoder of nanopb writes for a message, as a function.

module PbEncoding {
  import opened Bytes
  import opened PbMessage
  import opened PbWire

  // Two parts in a row; None is an error.
  function Join(a: Option<seq<byte>>, b: Option<seq<byte>>): Option<seq<byte>> {
    if a.Some? && b.Some? then Some(a.value + b.value) else None
  }

  // pb_encode_tag
  function TagBytes(tag: nat, wireType: nat): seq<byte> {
    VarintBytes(tag * 8 + wireType)
  }

  // pb_encode_string
  function Prefixed(s: seq<byte>): seq<byte> {
    VarintBytes(|s|) + s
  }

  // The entries of PB_ENCODERS: the value behind its tag.
  function EncodeValue(f: Field, v: Value): (r: Option<seq<byte>>)
    requires TypedValue(f, v)
    decreases v, 3, 0
  {
    match f.kind
    case Varint => if IntSize(f.dataSize) then Some(VarintBytes(Wrap64(v.n))) else None
    case Uvarint => if IntSize(f.dataSize) then Some(VarintBytes(v.n)) else None
    case Svarint => if IntSize(f.dataSize) then Some(VarintBytes(ZigZag(v.n))) else None
    case Fixed32 => Some(FixedBytes(v.n, 4))
    case Fixed64 => Some(FixedBytes(v.n, 8))
    case Bytes => if |v.bytes| + BYTES_HEADER > f.dataSize then None else Some(Prefixed(v.bytes))
    case String => Some(Prefixed(v.bytes))
    case FixedLengthBytes => Some(Prefixed(v.bytes))
    case Submessage(fields) =>
      var body := Encode(fields, v.slots, 0);
      if body.Some? then Some(Prefixed(body.value)) else None
  }

  // pb_encode_tag_for_field and the value.
  function EncodeTagged(f: Field, v: Value): (r: Option<seq<byte>>)
    requires TypedValue(f, v)
    decreases v, 4, 0
  {
    Join(Some(TagBytes(f.tag, WireType(f.kind))), EncodeValue(f, v))
  }

  // The items from i on, without tags (packed) or each with its tag.
  function EncodeItems(f: Field, items: seq<Value>, packed: bool, i: nat): (r: Option<seq<byte>>)
    requires i <= |items| && forall v :: v in items ==> TypedValue(f, v)
    decreases items, 5, |items| - i
  {
    if i == |items| then Some([])
    else
      Join(if packed then EncodeValue(f, items[i]) else EncodeTagged(f, items[i]), EncodeItems(f, items, packed, i + 1))
  }

  // encode_array
  function EncodeArray(f: Field, items: seq<Value>): (r: Option<seq<byte>>)
    requires f.rule.Repeated? && forall v :: v in items ==> TypedValue(f, v)
    decreases items, 6, 0
  {
    if items == [] then Some([])
    else if |items| > f.rule.arraySize then None
    else if Packable(f.kind) then
      var body := EncodeItems(f, items, true, 0);
      if body.Some? then Some(TagBytes(f.tag, WT_STRING) + Prefixed(body.value)) else None
    else EncodeItems(f, items, false, 0)
  }

  // encode_basic_field
  function EncodeSlot(f: Field, s: Slot): (r: Option<seq<byte>>)
    requires TypedSlot(f, s)
    decreases s, 0, 0
  {
    match f.rule
    case Required => EncodeTagged(f, s.value)
    case Optional => if s.has then EncodeTagged(f, s.held) else Some([])
    case Singular => if ZeroValue(f, s.value) then Some([]) else EncodeTagged(f, s.value)
    case Repeated(_) => EncodeArray(f, s.items)
    case Oneof(_) => if s.chosen.Some? then EncodeTagged(f, s.chosen.value) else Some([])
  }

  // pb_encode, from field i on.
  function Encode(fields: seq<Field>, slots: seq<Slot>, i: nat): (r: Option<seq<byte>>)
    requires Typed(fields, slots) && i <= |fields|
    decreases slots, 2, |fields| - i
  {
    if i == |fields| then Some([]) else Join(EncodeSlot(fields[i], slots[i]), Encode(fields, slots, i + 1))
  }
}
