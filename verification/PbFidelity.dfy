// What the round trip means for each field, in terms of the two messages
// alone, and which fields take no bytes.

module PbFidelity {
  import opened Bytes
  import opened PbMessage
  import opened PbWire
  import opened PbEncoding
  import opened PbDecoding
  import opened PbRoundTrip
  import opened PbPresence

  // ------------------------------------------------------------------
  // What survives

  // A number that is 0, and data that is empty.
  predicate Blank(v: Value) {
    v == Num(0) || v == Data([])
  }

  // r is what v is read back as.
  predicate SameValue(f: Field, v: Value, r: Value)
    decreases v, 0
  {
    if f.kind.Submessage? then v.Msg? && r.Msg? && Same(f.kind.fields, v.slots, r.slots) else r == v
  }

  // Presence and contents survive; a proto3 field that is blank is read back
  // as it is initialised.
  predicate SameSlot(f: Field, s: Slot, r: Slot)
    decreases s, 0
  {
    match f.rule
    case Required => s.One? && r.One? && SameValue(f, s.value, r.value)
    case Singular =>
      && s.One? && r.One?
      && (if !f.kind.Submessage? && Blank(s.value) then r.value == f.initial else SameValue(f, s.value, r.value))
    case Optional =>
      && s.Maybe? && r.Maybe? && r.has == s.has
      && (if s.has then SameValue(f, s.held, r.held) else AtInitial(f, r.held))
    case Repeated(_) =>
      && s.Many? && r.Many? && |r.items| == |s.items|
      && forall i :: 0 <= i < |s.items| ==> SameValue(f, s.items[i], r.items[i])
    case Oneof(_) =>
      && s.Choice? && r.Choice? && r.chosen.Some? == s.chosen.Some?
      && (s.chosen.Some? ==> SameValue(f, s.chosen.value, r.chosen.value))
  }

  predicate Same(fields: seq<Field>, slots: seq<Slot>, r: seq<Slot>)
    decreases slots, 1
  {
    |slots| == |r| == |fields| && forall i :: 0 <= i < |fields| ==> SameSlot(fields[i], slots[i], r[i])
  }

  // A message none of whose fields is written is read back as it is
  // initialised.
  lemma {:induction false} ZeroIsSame(f: Field, v: Value)
    requires WellFormedField(f) && TypedValue(f, v) && f.kind.Submessage? && ZeroValue(f, v)
    ensures SameValue(f, v, DefaultValue(f))
    decreases v, 0
  {
    ZeroesAreSame(f.kind.fields, v.slots);
  }

  lemma {:induction false} ZeroesAreSame(fields: seq<Field>, slots: seq<Slot>)
    requires WellFormedFields(fields) && Typed(fields, slots) && ZeroMessage(fields, slots)
    ensures Same(fields, slots, Defaults(fields))
    decreases slots, 1
  {
    forall i | 0 <= i < |fields| ensures SameSlot(fields[i], slots[i], Defaults(fields)[i]) {
      assert TypedSlot(fields[i], slots[i]) && ZeroSlot(fields[i], slots[i]);
      ZeroSlotIsSame(fields[i], slots[i]);
    }
  }

  lemma {:induction false} ZeroSlotIsSame(f: Field, s: Slot)
    requires WellFormedField(f) && TypedSlot(f, s) && ZeroSlot(f, s)
    ensures SameSlot(f, s, DefaultSlot(f))
    decreases s, 0
  {
    DefaultIsInitial(f);
    if f.rule.Singular? && f.kind.Submessage? {
      ZeroIsSame(f, s.value);
    }
  }

  lemma {:induction false} NormalIsSame(f: Field, v: Value)
    requires WellFormedField(f) && WellFormedValue(f, v) && TypedValue(f, DefaultValue(f))
    ensures SameValue(f, v, MergedValue(f, DefaultValue(f), v))
    decreases v, 0
  {
    if f.kind.Submessage? {
      AllAreSame(f.kind.fields, v.slots);
    }
  }

  lemma {:induction false} SlotIsSame(f: Field, s: Slot)
    requires WellFormedField(f) && TypedSlot(f, s) && WellFormedSlot(f, s) && TypedSlot(f, DefaultSlot(f))
    ensures SameSlot(f, s, MergedSlot(f, DefaultSlot(f), s))
    decreases s, 0
  {
    DefaultIsTyped(f);
    DefaultIsInitial(f);
    match f.rule
    case Required => NormalIsSame(f, s.value);
    case Singular => if ZeroValue(f, s.value) { ZeroSlotIsSame(f, s); } else { NormalIsSame(f, s.value); }
    case Optional => NormalIsSame(f, s.held);
    case Oneof(_) => if s.chosen.Some? { NormalIsSame(f, s.chosen.value); }
    case Repeated(_) =>
      forall i | 0 <= i < |s.items| ensures SameValue(f, s.items[i], NormalValue(f, s.items[i])) {
        NormalIsSame(f, s.items[i]);
      }
  }

  lemma {:induction false} AllAreSame(fields: seq<Field>, slots: seq<Slot>)
    requires WellFormedFields(fields) && WellFormed(fields, slots) && Typed(fields, slots) && Typed(fields, Defaults(fields))
    ensures Same(fields, slots, Merged(fields, Defaults(fields), slots))
    decreases slots, 1
  {
    forall i | 0 <= i < |fields| ensures SameSlot(fields[i], slots[i], Merged(fields, Defaults(fields), slots)[i]) {
      assert WellFormedField(fields[i]) && WellFormedSlot(fields[i], slots[i]) && TypedSlot(fields[i], slots[i]);
      SlotIsSame(fields[i], slots[i]);
    }
  }

  // pb_decode of pb_encode: all of it is read, and every field survives.
  lemma FieldsSurvive(fields: seq<Field>, slots: seq<Slot>)
    requires WellFormedFields(fields) && WellFormed(fields, slots)
    ensures Typed(fields, slots) && Encode(fields, slots, 0).Some?
    ensures |Encode(fields, slots, 0).value| < U32 ==>
      var r := Decode(fields, Encode(fields, slots, 0).value);
      r.Some? && r.value.rest == [] && Same(fields, slots, r.value.value)
  {
    DefaultsAreTyped(fields);
    DecodeUndoesEncode(fields, slots);
    AllAreSame(fields, slots);
  }

  // A proto3 field that is initialised to 0 or nothing survives with every
  // value.
  lemma SingularSurvives(fields: seq<Field>, slots: seq<Slot>, i: nat)
    requires WellFormedFields(fields) && WellFormed(fields, slots) && Typed(fields, slots) && i < |fields|
    requires fields[i].rule.Singular? && !fields[i].kind.Submessage? && Blank(fields[i].initial)
    requires Encode(fields, slots, 0).Some? && |Encode(fields, slots, 0).value| < U32
    ensures Decode(fields, Encode(fields, slots, 0).value).Some?
    ensures Decode(fields, Encode(fields, slots, 0).value).value.value[i] == slots[i]
  {
    FieldsSurvive(fields, slots);
    var f := fields[i];
    assert WellFormedField(f) && TypedValue(f, f.initial) && TypedSlot(f, slots[i]);
    assert SameSlot(f, slots[i], Decode(fields, Encode(fields, slots, 0).value).value.value[i]);
  }

  // ------------------------------------------------------------------
  // What takes no bytes

  lemma {:induction false} NothingIsWritten(f: Field, s: Slot)
    requires TypedSlot(f, s)
    ensures EncodeSlot(f, s) == Some([]) <==> ZeroSlot(f, s)
  {
    match f.rule
    case Repeated(_) => if s.items != [] { ItemsTakeBytes(f, s.items); }
    case _ =>
  }

  lemma ItemsTakeBytes(f: Field, items: seq<Value>)
    requires f.rule.Repeated? && items != [] && forall v :: v in items ==> TypedValue(f, v)
    ensures EncodeArray(f, items) != Some([])
  {
    hide EncodeValue;
    var first := EncodeTagged(f, items[0]);
    assert EncodeItems(f, items, false, 0) == Join(first, EncodeItems(f, items, false, 1));
    assert first.Some? ==> |first.value| > 0;
  }

  predicate AllTakeNothing(fields: seq<Field>, slots: seq<Slot>)
    requires Typed(fields, slots)
  {
    forall i :: 0 <= i < |fields| ==> EncodeSlot(fields[i], slots[i]) == Some([])
  }

  lemma {:induction false} MembersTakeNothing(fields: seq<Field>, slots: seq<Slot>)
    requires Typed(fields, slots)
    ensures ZeroMessage(fields, slots) <==> AllTakeNothing(fields, slots)
  {
    forall i | 0 <= i < |fields| ensures EncodeSlot(fields[i], slots[i]) == Some([]) <==> ZeroSlot(fields[i], slots[i]) {
      assert TypedSlot(fields[i], slots[i]);
      NothingIsWritten(fields[i], slots[i]);
    }
  }

  // A field takes no bytes exactly if: it is a proto3 number that is 0, data
  // that is empty, or a submessage whose fields all take none; it is optional
  // and absent, an empty array, or an unset member of a union.
  lemma TakesNoBytes(f: Field, s: Slot)
    requires TypedSlot(f, s)
    ensures EncodeSlot(f, s) == Some([]) <==>
      match f.rule
      case Required => false
      case Optional => !s.has
      case Repeated(_) => s.items == []
      case Oneof(_) => s.chosen.None?
      case Singular =>
        match f.kind
        case Submessage(fields) =>
          s.value.Msg? && Typed(fields, s.value.slots) && AllTakeNothing(fields, s.value.slots)
        case Bytes | String | FixedLengthBytes => s.value == Data([])
        case _ => s.value == Num(0)
  {
    NothingIsWritten(f, s);
    if f.rule.Singular? && f.kind.Submessage? {
      MembersTakeNothing(f.kind.fields, s.value.slots);
    }
  }

  // ------------------------------------------------------------------
  // What is an error

  // The value is within its bounds; a string need not be terminated.
  predicate Fits(f: Field, v: Value)
    requires TypedValue(f, v)
    decreases v, 0
  {
    match f.kind
    case Bytes => |v.bytes| + 4 <= f.dataSize
    case Submessage(fields) => AllFit(fields, v.slots)
    case _ => true
  }

  predicate SlotFits(f: Field, s: Slot)
    requires TypedSlot(f, s)
    decreases s, 0
  {
    match f.rule
    case Required | Singular => Fits(f, s.value)
    case Optional => s.has ==> Fits(f, s.held)
    case Repeated(n) => |s.items| <= n && forall v :: v in s.items ==> Fits(f, v)
    case Oneof(_) => s.chosen.Some? ==> Fits(f, s.chosen.value)
  }

  predicate AllFit(fields: seq<Field>, slots: seq<Slot>)
    requires Typed(fields, slots)
    decreases slots, 1
  {
    forall i :: 0 <= i < |fields| ==> SlotFits(fields[i], slots[i])
  }

  lemma {:induction false} ZeroFits(f: Field, v: Value)
    requires WellFormedField(f) && TypedValue(f, v) && ZeroValue(f, v)
    ensures Fits(f, v)
    decreases v, 0
  {
    if f.kind.Submessage? {
      var fields, slots := f.kind.fields, v.slots;
      forall i | 0 <= i < |fields| ensures SlotFits(fields[i], slots[i]) {
        assert TypedSlot(fields[i], slots[i]) && ZeroSlot(fields[i], slots[i]) && WellFormedField(fields[i]);
        if fields[i].rule.Singular? {
          ZeroFits(fields[i], slots[i].value);
        }
      }
    }
  }

  lemma {:induction false} ValueEncodes(f: Field, v: Value)
    requires WellFormedField(f) && TypedValue(f, v)
    ensures EncodeValue(f, v).Some? <==> Fits(f, v)
    decreases v, 0
  {
    if f.kind.Submessage? {
      EncodesExactly(f.kind.fields, v.slots, 0);
    }
  }

  lemma {:induction false} ItemsEncode(f: Field, items: seq<Value>, packed: bool, k: nat)
    requires WellFormedField(f) && k <= |items| && forall v :: v in items ==> TypedValue(f, v)
    ensures EncodeItems(f, items, packed, k).Some? <==> forall i :: k <= i < |items| ==> Fits(f, items[i])
    decreases items, 1, |items| - k
  {
    if k < |items| {
      ValueEncodes(f, items[k]);
      ItemsEncode(f, items, packed, k + 1);
    }
  }

  lemma {:induction false} SlotEncodesExactly(f: Field, s: Slot)
    requires WellFormedField(f) && TypedSlot(f, s)
    ensures EncodeSlot(f, s).Some? <==> SlotFits(f, s)
    decreases s, 0
  {
    match f.rule
    case Required => ValueEncodes(f, s.value);
    case Singular =>
      ValueEncodes(f, s.value);
      if ZeroValue(f, s.value) { ZeroFits(f, s.value); }
    case Optional => ValueEncodes(f, s.held);
    case Oneof(_) => if s.chosen.Some? { ValueEncodes(f, s.chosen.value); }
    case Repeated(_) => ItemsEncode(f, s.items, Packable(f.kind), 0);
  }

  // pb_encode fails exactly if data or an array that is written is too long
  // for its field.
  lemma {:induction false} EncodesExactly(fields: seq<Field>, slots: seq<Slot>, i: nat)
    requires WellFormedFields(fields) && Typed(fields, slots) && i <= |fields|
    ensures Encode(fields, slots, i).Some? <==> forall j :: i <= j < |fields| ==> SlotFits(fields[j], slots[j])
    decreases slots, 1, |fields| - i
  {
    if i < |fields| {
      assert WellFormedField(fields[i]) && TypedSlot(fields[i], slots[i]);
      SlotEncodesExactly(fields[i], slots[i]);
      EncodesExactly(fields, slots, i + 1);
    }
  }
}
