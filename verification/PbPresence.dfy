// Which fields of a decoded message are present, for every input, by the tags
// that occurred in it.

module PbPresence {
  import opened Bytes
  import opened PbMessage
  import opened PbWire
  import opened PbIter
  import opened PbDecoding

  // The tags the decoding loop reads, in order. Where a field ends depends on
  // the descriptor, hence on the turns of the loop.
  ghost function TagsRead(fields: seq<Field>, slots: seq<Slot>, s: seq<byte>): (tags: seq<nat>)
    requires WellFormedFields(fields) && Typed(fields, slots)
    decreases |s|
  {
    if s == [] || ReadVarint32(s).None? || ReadVarint32(s).value.value == 0 then []
    else
      var Read(key, body) := ReadVarint32(s).value;
      match Turn(fields, key % 8, key / 8, slots, {}, body)
      case None => []
      case Some(Read((next, _), rest)) => [key / 8] + TagsRead(fields, next, rest)
  }

  // Some member of the union of field i occurred.
  ghost predicate UnionRead(fields: seq<Field>, i: nat, tags: seq<nat>)
    requires i < |fields|
  {
    exists j :: 0 <= j < |fields| && SameUnion(fields[i], fields[j]) && fields[j].tag in tags
  }

  // Of the members of its union, field i occurred last.
  ghost predicate LastOfUnion(fields: seq<Field>, i: nat, tags: seq<nat>)
    requires i < |fields|
    decreases |tags|
  {
    tags != [] &&
    if UnionRead(fields, i, tags[1..]) then LastOfUnion(fields, i, tags[1..]) else fields[i].tag == tags[0]
  }

  // What reading these tags makes of the presence of field i.
  ghost predicate Follows(fields: seq<Field>, slots: seq<Slot>, tags: seq<nat>, r: seq<Slot>, i: nat)
    requires Typed(fields, slots) && Typed(fields, r) && i < |fields|
  {
    var f := fields[i];
    TypedSlot(f, slots[i]) && TypedSlot(f, r[i]) &&
    match f.rule
    case Required | Singular => f.tag !in tags ==> r[i] == slots[i]
    case Optional => (r[i].has <==> slots[i].has || f.tag in tags) && (f.tag !in tags ==> r[i] == slots[i])
    case Repeated(_) => slots[i].items <= r[i].items && (f.tag !in tags ==> r[i] == slots[i])
    case Oneof(_) =>
      if UnionRead(fields, i, tags) then r[i].chosen.Some? <==> LastOfUnion(fields, i, tags) else r[i] == slots[i]
  }

  lemma {:induction false} PackedOnlyAppends(f: Field, items: seq<Value>, s: seq<byte>)
    requires f.rule.Repeated? && WellFormedField(f) && (forall v :: v in items ==> TypedValue(f, v))
    requires DecodePacked(f, items, s).Some?
    ensures items <= DecodePacked(f, items, s).value
    decreases |s|
  {
    if s != [] {
      DefaultIsTyped(f);
      var r := DecodeValue(f, DefaultValue(f), s).value;
      PackedOnlyAppends(f, items + [r.value], r.rest);
    }
  }

  // One field sets its own slot and empties the rest of its union.
  lemma FieldIsPresent(f: Field, wireType: nat, slot: Slot, s: seq<byte>)
    requires TypedSlot(f, slot) && WellFormedField(f) && DecodeField(f, wireType, slot, s).Some?
    ensures var r := DecodeField(f, wireType, slot, s).value.value;
      && (f.rule.Optional? ==> r.has) && (f.rule.Oneof? ==> r.chosen.Some?)
      && (f.rule.Repeated? ==> slot.items <= r.items)
  {
    DefaultIsTyped(f);
    if f.rule.Repeated? && wireType == WT_STRING && Packable(f.kind) {
      PackedOnlyAppends(f, slot.items, ReadPrefixed(s).value.value);
    }
  }

  lemma TurnFollows(fields: seq<Field>, wireType: nat, tag: nat, slots: seq<Slot>, seen: set<nat>, s: seq<byte>, i: nat)
    requires WellFormedFields(fields) && Typed(fields, slots) && i < |fields|
    requires Turn(fields, wireType, tag, slots, seen, s).Some?
    ensures var t := Turn(fields, wireType, tag, slots, seen, s).value;
      && Follows(fields, slots, [tag], t.value.0, i)
      && t.value.0 == Turn(fields, wireType, tag, slots, {}, s).value.value.0 && t.rest == Turn(fields, wireType, tag, slots, {}, s).value.rest
      && (i in t.value.1 <==> i in seen || fields[i].tag == tag)
  {
    var found := FindField(fields, tag, 0);
    if found.Some? {
      var j := found.value;
      FieldIsPresent(fields[j], wireType, slots[j], s);
      if fields[i].tag == tag {
        FoundIsField(fields, tag, i, 0);
      }
      UnionOfOne(fields, i, j);
    } else {
      assert fields[i].tag != tag && !UnionRead(fields, i, [tag]);
    }
  }

  lemma UnionOfOne(fields: seq<Field>, i: nat, j: nat)
    requires WellFormedFields(fields) && i < |fields| && j < |fields|
    ensures UnionRead(fields, i, [fields[j].tag]) <==> SameUnion(fields[i], fields[j])
    ensures LastOfUnion(fields, i, [fields[j].tag]) <==> i == j
  {
    assert [fields[j].tag][1..] == [];
    if UnionRead(fields, i, [fields[j].tag]) {
      var k :| 0 <= k < |fields| && SameUnion(fields[i], fields[k]) && fields[k].tag in [fields[j].tag];
      assert k == j;
    }
  }

  lemma FollowsOn(fields: seq<Field>, slots: seq<Slot>, tag: nat, mid: seq<Slot>, tags: seq<nat>, r: seq<Slot>, i: nat)
    requires WellFormedFields(fields) && Typed(fields, slots) && Typed(fields, mid) && Typed(fields, r) && i < |fields|
    requires Follows(fields, slots, [tag], mid, i) && Follows(fields, mid, tags, r, i)
    ensures Follows(fields, slots, [tag] + tags, r, i)
  {
    assert ([tag] + tags)[1..] == tags && [tag][1..] == [];
    if fields[i].rule.Oneof? {
      UnionOfMore(fields, i, tag, tags);
    }
  }

  lemma UnionOfMore(fields: seq<Field>, i: nat, tag: nat, tags: seq<nat>)
    requires i < |fields|
    ensures UnionRead(fields, i, [tag] + tags) <==> UnionRead(fields, i, [tag]) || UnionRead(fields, i, tags)
  {
    if UnionRead(fields, i, [tag] + tags) {
      var k :| 0 <= k < |fields| && SameUnion(fields[i], fields[k]) && fields[k].tag in [tag] + tags;
      assert fields[k].tag in [tag] || fields[k].tag in tags;
    }
    if UnionRead(fields, i, [tag]) {
      var k :| 0 <= k < |fields| && SameUnion(fields[i], fields[k]) && fields[k].tag in [tag];
      assert fields[k].tag in [tag] + tags;
    }
    if UnionRead(fields, i, tags) {
      var k :| 0 <= k < |fields| && SameUnion(fields[i], fields[k]) && fields[k].tag in tags;
      assert fields[k].tag in [tag] + tags;
    }
  }

  lemma NothingFollows(fields: seq<Field>, slots: seq<Slot>, i: nat)
    requires Typed(fields, slots) && i < |fields|
    ensures Follows(fields, slots, [], slots, i)
  {}

  lemma TagsTurn(fields: seq<Field>, slots: seq<Slot>, s: seq<byte>, key: nat, body: seq<byte>, next: seq<Slot>, rest: seq<byte>)
    requires WellFormedFields(fields) && Typed(fields, slots) && Typed(fields, next)
    requires s != [] && ReadVarint32(s) == Some(Read(key, body)) && key != 0
    requires var t := Turn(fields, key % 8, key / 8, slots, {}, body); t.Some? && t.value.value.0 == next && t.value.rest == rest
    ensures TagsRead(fields, slots, s) == [key / 8] + TagsRead(fields, next, rest)
  {}

  // For every input, the loop leaves field i as the tags that occurred say.
  lemma {:induction false} LoopFollows(fields: seq<Field>, slots: seq<Slot>, seen: set<nat>, s: seq<byte>, i: nat)
    requires WellFormedFields(fields) && Typed(fields, slots) && i < |fields| && DecodeLoop(fields, slots, seen, s).Some?
    ensures var l, tags := DecodeLoop(fields, slots, seen, s).value, TagsRead(fields, slots, s);
      Follows(fields, slots, tags, l.slots, i) && (i in l.seen <==> i in seen || fields[i].tag in tags)
    decreases |s|
  {
    if s == [] || ReadVarint32(s).value.value == 0 {
      NothingFollows(fields, slots, i);
    } else {
      OneFollows(fields, slots, seen, s, i);
      var Read(key, body) := ReadVarint32(s).value;
      var t := Turn(fields, key % 8, key / 8, slots, seen, body).value;
      LoopFollows(fields, t.value.0, t.value.1, t.rest, i);
      FollowsOn(fields, slots, key / 8, t.value.0, TagsRead(fields, t.value.0, t.rest), DecodeLoop(fields, slots, seen, s).value.slots, i);
    }
  }

  lemma OneFollows(fields: seq<Field>, slots: seq<Slot>, seen: set<nat>, s: seq<byte>, i: nat)
    requires WellFormedFields(fields) && Typed(fields, slots) && i < |fields| && DecodeLoop(fields, slots, seen, s).Some?
    requires s != [] && ReadVarint32(s).Some? && ReadVarint32(s).value.value != 0
    ensures var Read(key, body) := ReadVarint32(s).value;
      var t := Turn(fields, key % 8, key / 8, slots, seen, body);
      && t.Some? && |t.value.rest| < |s| && Typed(fields, t.value.value.0)
      && DecodeLoop(fields, slots, seen, s) == DecodeLoop(fields, t.value.value.0, t.value.value.1, t.value.rest)
      && TagsRead(fields, slots, s) == [key / 8] + TagsRead(fields, t.value.value.0, t.value.rest)
      && Follows(fields, slots, [key / 8], t.value.value.0, i)
      && (i in t.value.value.1 <==> i in seen || fields[i].tag == key / 8)
  {
    var Read(key, body) := ReadVarint32(s).value;
    var t := Turn(fields, key % 8, key / 8, slots, seen, body).value;
    TurnFollows(fields, key % 8, key / 8, slots, seen, body, i);
    LoopTurn(fields, slots, seen, s, key, body, t);
    TagsTurn(fields, slots, s, key, body, t.value.0, t.rest);
  }

  // ------------------------------------------------------------------
  // After pb_decode

  // The field as the descriptor initialises it.
  predicate AtInitial(f: Field, v: Value)
    decreases f, 0
  {
    if f.kind.Submessage? then
      && v.Msg? && |v.slots| == |f.kind.fields|
      && forall i :: 0 <= i < |f.kind.fields| ==> Untouched(f.kind.fields[i], v.slots[i])
    else v == f.initial
  }

  predicate Untouched(f: Field, s: Slot)
    decreases f, 1
  {
    match f.rule
    case Required | Singular => s.One? && AtInitial(f, s.value)
    case Optional => s.Maybe? && !s.has && AtInitial(f, s.held)
    case Repeated(_) => s == Many([])
    case Oneof(_) => s == Choice(None)
  }

  lemma {:induction false} DefaultIsInitial(f: Field)
    ensures AtInitial(f, DefaultValue(f)) && Untouched(f, DefaultSlot(f))
    decreases f
  {
    if f.kind.Submessage? {
      forall i | 0 <= i < |f.kind.fields| ensures Untouched(f.kind.fields[i], DefaultSlot(f.kind.fields[i])) {
        DefaultIsInitial(f.kind.fields[i]);
      }
    }
  }

  // After pb_decode of any input: an optional field has a value exactly if its
  // tag occurred, a union has the member that occurred last, and what did not
  // occur is empty, or as the descriptor initialises it.
  lemma DecodedPresence(fields: seq<Field>, s: seq<byte>, i: nat)
    requires WellFormedFields(fields) && i < |fields| && Decode(fields, s).Some?
    ensures Typed(fields, Defaults(fields)) && Typed(fields, Decode(fields, s).value.value)
    ensures var f, slot, tags := fields[i], Decode(fields, s).value.value[i], TagsRead(fields, Defaults(fields), s);
      match f.rule
      case Required =>
        (RequiredBefore(fields, i) < 64 ==> f.tag in tags) && (f.tag !in tags ==> slot.One? && AtInitial(f, slot.value))
      case Singular => f.tag !in tags ==> slot.One? && AtInitial(f, slot.value)
      case Optional => slot.Maybe? && (slot.has <==> f.tag in tags) && (f.tag !in tags ==> AtInitial(f, slot.held))
      case Repeated(_) => f.tag !in tags ==> slot == Many([])
      case Oneof(_) => slot.Choice? && (slot.chosen.Some? <==> UnionRead(fields, i, tags) && LastOfUnion(fields, i, tags))
  {
    hide DecodeLoop, TagsRead, DefaultValue, AtInitial;
    DefaultsAreTyped(fields);
    DefaultIsInitial(fields[i]);
    LoopFollows(fields, Defaults(fields), {}, s, i);
    var slot := Decode(fields, s).value.value[i];
    assert TypedSlot(fields[i], slot) && Defaults(fields)[i] == DefaultSlot(fields[i]);
  }

  // And it succeeds exactly if the loop does and the tags of the first 64
  // required fields occurred.
  lemma DecodesExactly(fields: seq<Field>, s: seq<byte>)
    requires WellFormedFields(fields) && Typed(fields, Defaults(fields))
    ensures Decode(fields, s).Some? <==>
      && DecodeLoop(fields, Defaults(fields), {}, s).Some?
      && forall i: nat :: i < |fields| && fields[i].rule.Required? && RequiredBefore(fields, i) < 64 ==>
        fields[i].tag in TagsRead(fields, Defaults(fields), s)
  {
    hide DecodeLoop, TagsRead, Follows;
    if DecodeLoop(fields, Defaults(fields), {}, s).Some? {
      forall i: nat | i < |fields|
        ensures i in DecodeLoop(fields, Defaults(fields), {}, s).value.seen
          <==> fields[i].tag in TagsRead(fields, Defaults(fields), s)
      {
        LoopFollows(fields, Defaults(fields), {}, s, i);
      }
    }
  }
}
