// Whatever the input, a decoded message is well formed: strings terminated,
// bytes and counts within bounds, at most one member of each union.

module PbInBounds {
  import opened Bytes
  import opened PbMessage
  import opened PbWire
  import opened PbEncoding
  import opened PbDecoding
  import opened PbRoundTrip

  lemma {:induction false} DefaultIsWellFormed(f: Field)
    requires WellFormedField(f)
    ensures WellFormedValue(f, DefaultValue(f)) && WellFormedSlot(f, DefaultSlot(f))
    decreases f, 0
  {
    DefaultIsTyped(f);
    if f.kind.Submessage? {
      DefaultsAreWellFormed(f.kind.fields);
    }
  }

  lemma {:induction false} DefaultsAreWellFormed(fields: seq<Field>)
    requires WellFormedFields(fields)
    ensures WellFormed(fields, Defaults(fields))
    decreases fields, 1
  {
    forall i | 0 <= i < |fields| ensures WellFormedSlot(fields[i], Defaults(fields)[i]) {
      DefaultIsWellFormed(fields[i]);
    }
  }

  lemma {:induction false} ValueInBounds(f: Field, prior: Value, s: seq<byte>)
    requires WellFormedField(f) && TypedValue(f, prior) && WellFormedValue(f, prior) && DecodeValue(f, prior, s).Some?
    ensures WellFormedValue(f, DecodeValue(f, prior, s).value.value)
    decreases f, 1, |s|
  {
    if f.kind.Submessage? {
      var fields, body := f.kind.fields, ReadPrefixed(s).value.value;
      DefaultsAreTyped(fields);
      DefaultsAreWellFormed(fields);
      MessageInBounds(fields, if f.rule.Repeated? then Defaults(fields) else prior.slots, body);
    }
  }

  lemma {:induction false} PackedInBounds(f: Field, items: seq<Value>, s: seq<byte>)
    requires f.rule.Repeated? && WellFormedField(f) && |items| <= f.rule.arraySize
    requires forall v :: v in items ==> TypedValue(f, v) && WellFormedValue(f, v)
    requires DecodePacked(f, items, s).Some?
    ensures var r := DecodePacked(f, items, s).value;
      |r| <= f.rule.arraySize && forall v :: v in r ==> WellFormedValue(f, v)
    decreases f, 2, |s|
  {
    if s != [] {
      DefaultIsTyped(f);
      DefaultIsWellFormed(f);
      ValueInBounds(f, DefaultValue(f), s);
      var r := DecodeValue(f, DefaultValue(f), s).value;
      PackedInBounds(f, items + [r.value], r.rest);
    }
  }

  lemma {:induction false} FieldInBounds(f: Field, wireType: nat, slot: Slot, s: seq<byte>)
    requires WellFormedField(f) && TypedSlot(f, slot) && WellFormedSlot(f, slot)
    requires DecodeField(f, wireType, slot, s).Some?
    ensures WellFormedSlot(f, DecodeField(f, wireType, slot, s).value.value)
    decreases f, 3, |s|
  {
    DefaultIsTyped(f);
    DefaultIsWellFormed(f);
    match f.rule
    case Required => ValueInBounds(f, slot.value, s);
    case Singular => ValueInBounds(f, slot.value, s);
    case Optional => ValueInBounds(f, slot.held, s);
    case Oneof(_) => ValueInBounds(f, DefaultValue(f), s);
    case Repeated(_) =>
      if wireType == WT_STRING && Packable(f.kind) {
        PackedInBounds(f, slot.items, ReadPrefixed(s).value.value);
      } else {
        ValueInBounds(f, DefaultValue(f), s);
      }
  }

  lemma SetInBounds(fields: seq<Field>, slots: seq<Slot>, i: nat, slot: Slot)
    requires WellFormed(fields, slots) && i < |fields| && WellFormedSlot(fields[i], slot)
    ensures WellFormed(fields, SetSlot(fields, slots, i, slot))
  {
    var r := SetSlot(fields, slots, i, slot);
    forall j | 0 <= j < |fields| ensures WellFormedSlot(fields[j], r[j]) {
      assert WellFormedSlot(fields[j], slots[j]);
    }
    forall j, k | 0 <= j < k < |fields| && SameUnion(fields[j], fields[k]) ensures r[j] == Choice(None) || r[k] == Choice(None) {
      assert slots[j] == Choice(None) || slots[k] == Choice(None);
    }
  }

  lemma {:induction false} LoopInBounds(fields: seq<Field>, slots: seq<Slot>, seen: set<nat>, s: seq<byte>)
    requires WellFormedFields(fields) && Typed(fields, slots) && WellFormed(fields, slots)
    requires DecodeLoop(fields, slots, seen, s).Some?
    ensures WellFormed(fields, DecodeLoop(fields, slots, seen, s).value.slots)
    decreases fields, 4, |s|
  {
    if s != [] && ReadVarint32(s).value.value != 0 {
      var key := ReadVarint32(s).value;
      var next := Turn(fields, key.value % 8, key.value / 8, slots, seen, key.rest).value;
      var i := FindField(fields, key.value / 8, 0);
      if i.Some? {
        FieldInBounds(fields[i.value], key.value % 8, slots[i.value], key.rest);
        SetInBounds(fields, slots, i.value, DecodeField(fields[i.value], key.value % 8, slots[i.value], key.rest).value.value);
      }
      LoopInBounds(fields, next.value.0, next.value.1, next.rest);
    }
  }

  lemma {:induction false} MessageInBounds(fields: seq<Field>, slots: seq<Slot>, s: seq<byte>)
    requires WellFormedFields(fields) && Typed(fields, slots) && WellFormed(fields, slots)
    requires DecodeNoInit(fields, slots, s).Some?
    ensures WellFormed(fields, DecodeNoInit(fields, slots, s).value.value)
    decreases fields, 5, |s|
  {
    LoopInBounds(fields, slots, {}, s);
  }

  // What was decoded from any input encodes again, and to the same message.
  lemma DecodedReencodes(fields: seq<Field>, s: seq<byte>)
    requires WellFormedFields(fields) && Decode(fields, s).Some?
    ensures var slots := Decode(fields, s).value.value;
      && Typed(fields, slots) && WellFormed(fields, slots) && Encode(fields, slots, 0).Some?
      && (|Encode(fields, slots, 0).value| < U32 ==>
          Decode(fields, Encode(fields, slots, 0).value) == Some(Read(Normal(fields, slots), [])))
  {
    DefaultsAreTyped(fields);
    DefaultsAreWellFormed(fields);
    MessageInBounds(fields, Defaults(fields), s);
    DecodeUndoesEncode(fields, Decode(fields, s).value.value);
  }
}
