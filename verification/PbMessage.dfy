// Message descriptors and messages of nanopb, as values (pb.h).

module PbMessage {
  import opened Bytes

  const WT_VARINT := 0
  const WT_64BIT := 1
  const WT_STRING := 2
  const WT_32BIT := 5
  const MAX_REQUIRED_FIELDS := 64 // PB_MAX_REQUIRED_FIELDS
  const BYTES_HEADER := 4 // offsetof(pb_bytes_array_t, bytes), with 32-bit sizes

  type PbSize = n: int | 0 <= n < 0x1_0000_0000 // pb_size_t, with PB_FIELD_32BIT

  // PB_LTYPE. Extension placeholders are left out.
  datatype Kind =
    | Varint
    | Uvarint
    | Svarint
    | Fixed32
    | Fixed64
    | Bytes
    | String
    | Submessage(fields: seq<Field>)
    | FixedLengthBytes

  // PB_HTYPE. An optional field without has_ flag (proto3) is Singular; the
  // members of one union share its group.
  datatype Rule = Required | Optional | Singular | Repeated(arraySize: PbSize) | Oneof(group: nat)

  // pb_field_t with static allocation. initial is what ptr points to for
  // anything but a submessage, or zeros.
  datatype Field = Field(tag: PbSize, rule: Rule, kind: Kind, dataSize: PbSize, initial: Value)

  // One item of field data: the number in an integer, the contents of a bytes
  // field or of a string up to its terminator, or a nested structure.
  datatype Value = Num(n: int) | Data(bytes: seq<byte>) | Msg(slots: seq<Slot>)

  // The data of one field. Of a union, the member that which_ names has the
  // value and the others have none.
  datatype Slot =
    | One(value: Value)
    | Maybe(has: bool, held: Value)
    | Many(items: seq<Value>)
    | Choice(chosen: Option<Value>)

  predicate Packable(k: Kind) {
    k.Varint? || k.Uvarint? || k.Svarint? || k.Fixed32? || k.Fixed64?
  }

  // pb_encode_tag_for_field
  function WireType(k: Kind): (wt: nat)
    ensures wt < 8
  {
    match k
    case Varint | Uvarint | Svarint => WT_VARINT
    case Fixed32 => WT_32BIT
    case Fixed64 => WT_64BIT
    case _ => WT_STRING
  }

  // ------------------------------------------------------------------
  // Defaults

  // pb_field_set_to_default
  function DefaultSlot(f: Field): (s: Slot)
    decreases f, 1
  {
    match f.rule
    case Repeated(_) => Many([])
    case Oneof(_) => Choice(None)
    case Optional => Maybe(false, DefaultValue(f))
    case _ => One(DefaultValue(f))
  }

  function DefaultValue(f: Field): (v: Value)
    decreases f, 0
  {
    if f.kind.Submessage? then Msg(Defaults(f.kind.fields)) else f.initial
  }

  // pb_message_set_to_defaults
  function Defaults(fields: seq<Field>): (slots: seq<Slot>)
    ensures |slots| == |fields|
    ensures forall i :: 0 <= i < |fields| ==> slots[i] == DefaultSlot(fields[i])
  {
    seq(|fields|, i requires 0 <= i < |fields| => DefaultSlot(fields[i]))
  }

  // ------------------------------------------------------------------
  // Types

  predicate IntSize(n: nat) {
    n in {1, 2, 4, 8}
  }

  // The integers of a signed or unsigned C integer of n bytes. Any other size
  // is an error in the codec.
  predicate FitsSigned(x: int, n: nat) {
    match n
    case 1 => -0x80 <= x < 0x80
    case 2 => -0x8000 <= x < 0x8000
    case 4 => -0x8000_0000 <= x < 0x8000_0000
    case 8 => -0x8000_0000_0000_0000 <= x < 0x8000_0000_0000_0000
    case _ => x == 0
  }

  predicate FitsUnsigned(x: int, n: nat) {
    match n
    case 1 => 0 <= x < 0x100
    case 2 => 0 <= x < 0x1_0000
    case 4 => 0 <= x < 0x1_0000_0000
    case 8 => 0 <= x < 0x1_0000_0000_0000_0000
    case _ => x == 0
  }

  // v is what the C type of field f can hold, which is a 32-bit or 64-bit
  // integer for the fixed kinds. A string may fill its buffer
  // without a terminator, and a bytes field may claim more than its buffer.
  predicate TypedValue(f: Field, v: Value)
    decreases v, 0
  {
    match f.kind
    case Varint => v.Num? && FitsSigned(v.n, f.dataSize)
    case Svarint => v.Num? && FitsSigned(v.n, f.dataSize)
    case Uvarint => v.Num? && FitsUnsigned(v.n, f.dataSize)
    case Fixed32 => v.Num? && f.dataSize == 4 && FitsUnsigned(v.n, 4)
    case Fixed64 => v.Num? && f.dataSize == 8 && FitsUnsigned(v.n, 8)
    case Bytes => v.Data?
    case String => v.Data? && |v.bytes| <= f.dataSize && 0 !in v.bytes
    case FixedLengthBytes => v.Data? && |v.bytes| == f.dataSize
    case Submessage(fields) => v.Msg? && Typed(fields, v.slots)
  }

  predicate TypedSlot(f: Field, s: Slot)
    decreases s, 0
  {
    match f.rule
    case Required | Singular => s.One? && TypedValue(f, s.value)
    case Optional => s.Maybe? && TypedValue(f, s.held)
    case Repeated(_) => s.Many? && forall v :: v in s.items ==> TypedValue(f, v)
    case Oneof(_) => s.Choice? && (s.chosen.Some? ==> TypedValue(f, s.chosen.value))
  }

  predicate Typed(fields: seq<Field>, slots: seq<Slot>)
    decreases slots, 1
  {
    && |slots| == |fields|
    && forall i :: 0 <= i < |fields| ==> TypedSlot(fields[i], slots[i])
  }

  // ------------------------------------------------------------------
  // Well-formed descriptors and messages

  predicate WellFormedField(f: Field)
    decreases f, 0
  {
    && 0 < f.tag < 0x2000_0000
    && (f.kind.Varint? || f.kind.Uvarint? || f.kind.Svarint? ==> IntSize(f.dataSize))
    && (if f.kind.Submessage? then WellFormedFields(f.kind.fields) else TypedValue(f, f.initial))
    && (f.kind.String? ==> |f.initial.bytes| < f.dataSize)
    && (f.kind.Bytes? ==> |f.initial.bytes| + BYTES_HEADER <= f.dataSize)
  }

  predicate WellFormedFields(fields: seq<Field>)
    decreases fields, 1
  {
    && (forall i :: 0 <= i < |fields| ==> WellFormedField(fields[i]))
    && (forall i, j :: 0 <= i < j < |fields| ==> fields[i].tag != fields[j].tag)
  }

  lemma {:induction false} DefaultIsTyped(f: Field)
    requires WellFormedField(f)
    ensures TypedValue(f, DefaultValue(f)) && TypedSlot(f, DefaultSlot(f))
    decreases f, 0
  {
    if f.kind.Submessage? {
      DefaultsAreTyped(f.kind.fields);
    }
  }

  lemma {:induction false} DefaultsAreTyped(fields: seq<Field>)
    requires WellFormedFields(fields)
    ensures Typed(fields, Defaults(fields))
    decreases fields, 1
  {
    forall i | 0 <= i < |fields| ensures TypedSlot(fields[i], Defaults(fields)[i]) {
      DefaultIsTyped(fields[i]);
    }
  }

  // Strings are terminated, bytes and counts are within bounds, and no union
  // has two members.
  predicate WellFormedValue(f: Field, v: Value)
    decreases v, 0
  {
    && TypedValue(f, v)
    && (f.kind.String? ==> |v.bytes| < f.dataSize)
    && (f.kind.Bytes? ==> |v.bytes| + BYTES_HEADER <= f.dataSize)
    && (f.kind.Submessage? ==> WellFormed(f.kind.fields, v.slots))
  }

  predicate WellFormedSlot(f: Field, s: Slot)
    decreases s, 0
  {
    match f.rule
    case Required | Singular => s.One? && WellFormedValue(f, s.value)
    case Optional => s.Maybe? && WellFormedValue(f, s.held)
    case Repeated(n) => s.Many? && |s.items| <= n && forall v :: v in s.items ==> WellFormedValue(f, v)
    case Oneof(_) => s.Choice? && (s.chosen.Some? ==> WellFormedValue(f, s.chosen.value))
  }

  predicate WellFormed(fields: seq<Field>, slots: seq<Slot>)
    decreases slots, 1
  {
    && |slots| == |fields|
    && (forall i :: 0 <= i < |fields| ==> WellFormedSlot(fields[i], slots[i]))
    && (forall i, j :: 0 <= i < j < |fields| && SameUnion(fields[i], fields[j]) ==>
        slots[i] == Choice(None) || slots[j] == Choice(None))
  }

  predicate SameUnion(f: Field, g: Field) {
    f.rule.Oneof? && g.rule.Oneof? && f.rule.group == g.rule.group
  }

  // ------------------------------------------------------------------
  // pb_check_proto3_default_value

  predicate ZeroValue(f: Field, v: Value)
    requires TypedValue(f, v)
    decreases v, 0
  {
    match f.kind
    case Bytes | String => v.bytes == []
    case FixedLengthBytes => f.dataSize == 0
    case Submessage(fields) => ZeroMessage(fields, v.slots)
    case _ => v.n == 0
  }

  predicate ZeroMessage(fields: seq<Field>, slots: seq<Slot>)
    requires Typed(fields, slots)
    decreases slots, 1
  {
    forall i :: 0 <= i < |fields| ==> ZeroSlot(fields[i], slots[i])
  }

  // For a member of a union the program looks at which_ itself; over all
  // fields of a message that comes to the same.
  predicate ZeroSlot(f: Field, s: Slot)
    requires TypedSlot(f, s)
    decreases s, 0
  {
    match f.rule
    case Required => false
    case Repeated(_) => s.items == []
    case Oneof(_) => s.chosen.None?
    case Optional => !s.has
    case Singular => ZeroValue(f, s.value)
  }
}
