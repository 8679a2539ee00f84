// Skipping takes exactly what an encoder writes. Hence a program whose
// descriptor lacks some fields reads the others.

module PbUnknown {
  import opened Bytes
  import opened PbMessage
  import opened PbWire
  import opened PbVarint32
  import opened PbEncoding
  import opened PbDecoding
  import opened PbMerge
  import opened PbRoundTrip
  import opened PbFidelity

  // ------------------------------------------------------------------
  // What an encoder writes is skipped

  lemma {:induction false} VarintIsSkipped(n: nat, rest: seq<byte>)
    ensures SkipVarint(VarintBytes(n) + rest) == Some(rest)
  {
    var s := VarintBytes(n) + rest;
    if n < 0x80 {
      assert s[1..] == rest;
    } else {
      assert s[1..] == VarintBytes(n / 0x80) + rest;
      VarintIsSkipped(n / 0x80, rest);
    }
  }

  // The wire types of the kinds of fields.
  lemma WireTypes(k: Kind)
    ensures WireType(k) ==
      match k
      case Varint | Uvarint | Svarint => 0
      case Fixed64 => 1
      case Bytes | String | FixedLengthBytes | Submessage(_) => 2
      case Fixed32 => 5
  {}

  lemma PayloadIsSkipped(s: seq<byte>, n: nat, rest: seq<byte>)
    ensures SkipField(0, VarintBytes(n) + rest) == Some(rest)
    ensures |s| == 8 ==> SkipField(1, s + rest) == Some(rest)
    ensures |s| < U32 ==> SkipField(2, Prefixed(s) + rest) == Some(rest)
    ensures |s| == 4 ==> SkipField(5, s + rest) == Some(rest)
  {
    VarintIsSkipped(n, rest);
    assert (s + rest)[|s|..] == rest;
    if |s| < U32 {
      PrefixedRoundTrip(s, rest);
    }
  }

  // The wire types without a meaning, among them those of groups, are errors.
  lemma OtherTypesFail(wireType: nat, s: seq<byte>)
    requires wireType !in {0, 1, 2, 5}
    ensures SkipField(wireType, s).None?
  {}

  // A value is skipped by the wire type it is written with.
  lemma ValueIsSkipped(f: Field, v: Value, rest: seq<byte>)
    requires TypedValue(f, v) && EncodeValue(f, v).Some? && |EncodeValue(f, v).value| < U32
    ensures SkipField(WireType(f.kind), EncodeValue(f, v).value + rest) == Some(rest)
  {
    var e := EncodeValue(f, v).value;
    WireTypes(f.kind);
    match f.kind
    case Varint => PayloadIsSkipped([], Wrap64(v.n), rest);
    case Uvarint => PayloadIsSkipped([], v.n, rest);
    case Svarint => PayloadIsSkipped([], ZigZag(v.n), rest);
    case Fixed32 => PayloadIsSkipped(e, 0, rest);
    case Fixed64 => PayloadIsSkipped(e, 0, rest);
    case Submessage(fields) => PayloadIsSkipped(Encode(fields, v.slots, 0).value, 0, rest);
    case _ => PayloadIsSkipped(v.bytes, 0, rest);
  }

  lemma TagIsRead(tag: nat, wireType: nat, payload: seq<byte>)
    requires tag < 0x2000_0000 && wireType < 8
    ensures ReadVarint32(TagBytes(tag, wireType) + payload) == Some(Read(tag * 8 + wireType, payload))
  {
    Varint32Exact(tag * 8 + wireType, payload);
  }

  // A tag that is not in the descriptor, with a payload of any wire type.
  lemma FieldsAreUnknown(fields: seq<Field>, tag: nat, n: nat, s: seq<byte>)
    requires 0 < tag < 0x2000_0000 && FindField(fields, tag, 0).None?
    ensures IsUnknown(fields, VarintBytes(tag * 8) + VarintBytes(n))
    ensures |s| == 8 ==> IsUnknown(fields, VarintBytes(tag * 8 + 1) + s)
    ensures |s| < U32 ==> IsUnknown(fields, VarintBytes(tag * 8 + 2) + VarintBytes(|s|) + s)
    ensures |s| == 4 ==> IsUnknown(fields, VarintBytes(tag * 8 + 5) + s)
  {
    hide SkipField, ReadVarint32, VarintBytes;
    PayloadIsSkipped(s, n, []);
    assert VarintBytes(n) + [] == VarintBytes(n) && s + [] == s && Prefixed(s) + [] == Prefixed(s);
    TagIsRead(tag, 0, VarintBytes(n));
    TagIsRead(tag, 1, s);
    TagIsRead(tag, 5, s);
    TagIsRead(tag, 2, Prefixed(s));
    assert VarintBytes(tag * 8 + 2) + VarintBytes(|s|) + s == TagBytes(tag, 2) + Prefixed(s);
  }

  // ------------------------------------------------------------------
  // A field that the reader does not know

  lemma TaggedIsSkipped(fields: seq<Field>, slots: seq<Slot>, seen: set<nat>, tag: nat, wireType: nat, e: seq<byte>, rest: seq<byte>)
    requires WellFormedFields(fields) && Typed(fields, slots)
    requires 0 < tag < 0x2000_0000 && wireType < 8 && FindField(fields, tag, 0).None?
    requires SkipField(wireType, e + rest) == Some(rest)
    ensures DecodeLoop(fields, slots, seen, TagBytes(tag, wireType) + e + rest) == DecodeLoop(fields, slots, seen, rest)
  {
    TagIsRead(tag, wireType, e + rest);
    assert TagBytes(tag, wireType) + e + rest == TagBytes(tag, wireType) + (e + rest);
    SkipTurn(fields, slots, seen, TagBytes(tag, wireType) + (e + rest), tag * 8 + wireType, e + rest, rest);
  }

  lemma {:induction false} ItemsAreSkipped(fields: seq<Field>, slots: seq<Slot>, seen: set<nat>, f: Field, items: seq<Value>, k: nat,
                                           rest: seq<byte>)
    requires WellFormedFields(fields) && Typed(fields, slots) && 0 < f.tag < 0x2000_0000 && FindField(fields, f.tag, 0).None?
    requires k <= |items| && forall v :: v in items ==> TypedValue(f, v)
    requires EncodeItems(f, items, false, k).Some? && |EncodeItems(f, items, false, k).value| < U32
    ensures DecodeLoop(fields, slots, seen, EncodeItems(f, items, false, k).value + rest) == DecodeLoop(fields, slots, seen, rest)
    decreases |items| - k
  {
    hide DecodeLoop, EncodeValue, SkipField;
    if k == |items| {
      assert [] + rest == rest;
    } else {
      var more := EncodeItems(f, items, false, k + 1).value;
      ItemsAreSkipped(fields, slots, seen, f, items, k + 1, rest);
      FirstItem(f, items, k, more, rest);
      ValueIsSkipped(f, items[k], more + rest);
      TaggedIsSkipped(fields, slots, seen, f.tag, WireType(f.kind), EncodeValue(f, items[k]).value, more + rest);
    }
  }

  // Whatever was written for a field with a tag the reader does not know is
  // skipped.
  lemma SlotIsSkipped(fields: seq<Field>, slots: seq<Slot>, seen: set<nat>, f: Field, s: Slot, rest: seq<byte>)
    requires WellFormedFields(fields) && Typed(fields, slots) && 0 < f.tag < 0x2000_0000 && FindField(fields, f.tag, 0).None?
    requires TypedSlot(f, s) && EncodeSlot(f, s).Some? && |EncodeSlot(f, s).value| < U32
    ensures DecodeLoop(fields, slots, seen, EncodeSlot(f, s).value + rest) == DecodeLoop(fields, slots, seen, rest)
  {
    hide DecodeLoop, EncodeValue, SkipField, EncodeItems;
    assert [] + rest == rest;
    if f.rule.Repeated? {
      if s.items != [] && Packable(f.kind) {
        var body := EncodeItems(f, s.items, true, 0).value;
        PayloadIsSkipped(body, 0, rest);
        TaggedIsSkipped(fields, slots, seen, f.tag, 2, Prefixed(body), rest);
      } else if s.items != [] {
        ItemsAreSkipped(fields, slots, seen, f, s.items, 0, rest);
      }
    } else if Written(f, s).Some? {
      var v := Written(f, s).value;
      ValueIsSkipped(f, v, rest);
      TaggedIsSkipped(fields, slots, seen, f.tag, WireType(f.kind), EncodeValue(f, v).value, rest);
    }
  }

  // ------------------------------------------------------------------
  // A descriptor that lacks some fields

  // The positions below n that are kept.
  function Kept(keep: seq<bool>, n: nat): (ix: seq<nat>)
    requires n <= |keep|
    ensures forall k :: 0 <= k < |ix| ==> ix[k] < n && keep[ix[k]]
    ensures forall k, l :: 0 <= k < l < |ix| ==> ix[k] < ix[l]
  {
    if n == 0 then [] else if keep[n - 1] then Kept(keep, n - 1) + [n - 1] else Kept(keep, n - 1)
  }

  lemma {:induction false} KeptGrows(keep: seq<bool>, m: nat, n: nat)
    requires m <= n <= |keep|
    ensures Kept(keep, m) <= Kept(keep, n)
    ensures m < n && keep[m] ==> |Kept(keep, m)| < |Kept(keep, n)| && Kept(keep, n)[|Kept(keep, m)|] == m
    decreases n - m
  {
    if m < n {
      KeptGrows(keep, m, n - 1);
    }
  }

  function Pick<T>(xs: seq<T>, keep: seq<bool>): (r: seq<T>)
    requires |xs| == |keep|
    ensures |r| == |Kept(keep, |keep|)| && forall k :: 0 <= k < |r| ==> r[k] == xs[Kept(keep, |keep|)[k]]
  {
    var ix := Kept(keep, |keep|);
    seq(|ix|, k requires 0 <= k < |ix| => xs[ix[k]])
  }

  lemma PickIsWellFormed(fields: seq<Field>, slots: seq<Slot>, keep: seq<bool>)
    requires WellFormedFields(fields) && WellFormed(fields, slots) && |keep| == |fields|
    ensures WellFormedFields(Pick(fields, keep)) && WellFormed(Pick(fields, keep), Pick(slots, keep))
  {
    hide Pick, Kept, WellFormedField, WellFormedSlot;
    var ix := Kept(keep, |keep|);
    forall k, l | 0 <= k < l < |ix| ensures ix[k] < ix[l] {}
  }

  // A field is known exactly if it is kept.
  lemma DroppedIsUnknown(fields: seq<Field>, keep: seq<bool>, i: nat)
    requires WellFormedFields(fields) && |keep| == |fields| && i < |fields| && !keep[i]
    ensures FindField(Pick(fields, keep), fields[i].tag, 0).None?
  {
    var known, ix := Pick(fields, keep), Kept(keep, |keep|);
    forall k | 0 <= k < |known| ensures known[k].tag != fields[i].tag {
      assert known[k] == fields[ix[k]] && keep[ix[k]];
    }
  }

  lemma NextIsKept(fields: seq<Field>, slots: seq<Slot>, keep: seq<bool>, i: nat)
    requires |slots| == |keep| == |fields| && i < |fields|
    ensures |Kept(keep, i + 1)| <= |Kept(keep, |keep|)|
    ensures keep[i] ==>
      && |Kept(keep, i + 1)| == |Kept(keep, i)| + 1
      && Pick(fields, keep)[|Kept(keep, i)|] == fields[i] && Pick(slots, keep)[|Kept(keep, i)|] == slots[i]
    ensures !keep[i] ==> Kept(keep, i + 1) == Kept(keep, i)
  {
    KeptGrows(keep, i, |keep|);
    KeptGrows(keep, i + 1, |keep|);
  }

  // Every field of a well-formed message encodes.
  lemma SlotEncodes(fields: seq<Field>, slots: seq<Slot>, i: nat)
    requires WellFormedFields(fields) && WellFormed(fields, slots) && Typed(fields, slots) && i < |fields|
    ensures EncodeSlot(fields[i], slots[i]).Some? && TypedSlot(fields[i], slots[i]) && 0 < fields[i].tag < 0x2000_0000
  {
    DefaultsAreTyped(fields);
    DefaultsHaveRoom(fields, slots);
    PartialIsTyped(fields, Defaults(fields), slots, i);
    var seen := FieldRoundTrip(fields, Defaults(fields), slots, i, {}, []);
  }

  // One field, read by a reader that knows it or not.
  lemma OneFieldIsRead(fields: seq<Field>, slots: seq<Slot>, keep: seq<bool>, i: nat, seen: set<nat>, more: seq<byte>)
    returns (seen': set<nat>)
    requires WellFormedFields(fields) && WellFormed(fields, slots) && Typed(fields, slots) && |keep| == |fields| && i < |fields|
    requires At(Pick(fields, keep), Defaults(Pick(fields, keep)), Pick(slots, keep), |Kept(keep, i)|)
    ensures EncodeSlot(fields[i], slots[i]).Some?
    ensures var known, some, n, n' := Pick(fields, keep), Pick(slots, keep), |Kept(keep, i)|, |Kept(keep, i + 1)|;
      && At(known, Defaults(known), some, n')
      && (|EncodeSlot(fields[i], slots[i]).value| < U32 ==>
          && DecodeLoop(known, Partial(known, Defaults(known), some, n), seen, EncodeSlot(fields[i], slots[i]).value + more)
            == DecodeLoop(known, Partial(known, Defaults(known), some, n'), seen', more)
          && seen <= seen' && forall j :: n <= j < n' && known[j].rule.Required? ==> j in seen')
  {
    hide DecodeLoop, EncodeSlot, Pick, Merged, MergedSlot, TypedSlot, Partial;
    var known, some := Pick(fields, keep), Pick(slots, keep);
    var base, n := Defaults(known), |Kept(keep, i)|;
    NextIsKept(fields, slots, keep, i);
    PartialIsTyped(known, base, some, |Kept(keep, i + 1)|);
    SlotEncodes(fields, slots, i);
    seen' := seen;
    if keep[i] {
      seen' := FieldRoundTrip(known, base, some, n, seen, more);
    } else if |EncodeSlot(fields[i], slots[i]).value| < U32 {
      DroppedIsUnknown(fields, keep, i);
      SlotIsSkipped(known, Partial(known, base, some, n), seen, fields[i], slots[i], more);
    }
  }

  // The fields of a message from i on, read with the descriptor that lacks
  // some of them.
  lemma {:induction false} KeptFieldsRead(fields: seq<Field>, slots: seq<Slot>, keep: seq<bool>, i: nat, seen: set<nat>)
    requires WellFormedFields(fields) && WellFormed(fields, slots) && Typed(fields, slots) && |keep| == |fields| && i <= |fields|
    requires At(Pick(fields, keep), Defaults(Pick(fields, keep)), Pick(slots, keep), |Kept(keep, i)|)
    ensures Encode(fields, slots, i).Some?
    ensures |Encode(fields, slots, i).value| < U32 ==>
      var known, some, n := Pick(fields, keep), Pick(slots, keep), |Kept(keep, i)|;
      var l := DecodeLoop(known, Partial(known, Defaults(known), some, n), seen, Encode(fields, slots, i).value);
      && l.Some? && l.value.slots == Merged(known, Defaults(known), some) && l.value.rest == [] && seen <= l.value.seen
      && forall j :: n <= j < |known| && known[j].rule.Required? ==> j in l.value.seen
    decreases |fields| - i
  {
    hide DecodeLoop, EncodeSlot, Pick, Merged, Partial, At, Kept;
    var known, some := Pick(fields, keep), Pick(slots, keep);
    if i == |fields| {
      FieldsRoundTrip(known, Defaults(known), some, |Kept(keep, i)|, seen);
      assert Encode(fields, slots, i) == Some([]) && Encode(known, some, |known|) == Some([]);
    } else {
      var seen0 := OneFieldIsRead(fields, slots, keep, i, seen, []);
      KeptFieldsRead(fields, slots, keep, i + 1, seen);
      var more := Encode(fields, slots, i + 1).value;
      var seen' := OneFieldIsRead(fields, slots, keep, i, seen, more);
      KeptFieldsRead(fields, slots, keep, i + 1, seen');
    }
  }

  // What a program with all fields wrote, a program that lacks some of them
  // reads as the message without them.
  lemma OldReadersRead(fields: seq<Field>, slots: seq<Slot>, keep: seq<bool>)
    requires WellFormedFields(fields) && WellFormed(fields, slots) && Typed(fields, slots) && |keep| == |fields|
    ensures WellFormedFields(Pick(fields, keep)) && Encode(fields, slots, 0).Some?
    ensures |Encode(fields, slots, 0).value| < U32 ==>
      var r := Decode(Pick(fields, keep), Encode(fields, slots, 0).value);
      r.Some? && r.value.rest == [] && Same(Pick(fields, keep), Pick(slots, keep), r.value.value)
  {
    hide DecodeLoop, Encode, Pick, Merged, TypedSlot;
    var known, some := Pick(fields, keep), Pick(slots, keep);
    PickIsWellFormed(fields, slots, keep);
    WellFormedIsTyped(known, some);
    DefaultsAreTyped(known);
    DefaultsHaveRoom(known, some);
    StartsPartial(known, Defaults(known), some);
    KeptFieldsRead(fields, slots, keep, 0, {});
    AllAreSame(known, some);
  }
}
