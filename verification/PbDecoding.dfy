// What the decoder of nanopb makes of an input, as functions.

module PbDecoding {
  import opened Bytes
  import opened PbMessage
  import opened PbWire
  import opened PbIter

  // ------------------------------------------------------------------
  // Leaving a field out

  // pb_skip_varint: of any length.
  function SkipVarint(s: seq<byte>): (r: Option<seq<byte>>)
    ensures r.Some? ==> |r.value| < |s|
  {
    if s == [] then None else if s[0] < 0x80 then Some(s[1..]) else SkipVarint(s[1..])
  }

  function SkipBytes(s: seq<byte>, n: nat): (r: Option<seq<byte>>)
    ensures r.Some? ==> |r.value| <= |s|
  {
    if |s| < n then None else Some(s[n..])
  }

  // pb_make_string_substream, with what is left behind the substream.
  function ReadPrefixed(s: seq<byte>): (r: Option<Read<seq<byte>>>)
    ensures r.Some? ==> |r.value.rest| < |s|
  {
    match ReadVarint32(s)
    case None => None
    case Some(Read(size, rest)) => if |rest| < size then None else Some(Read(rest[..size], rest[size..]))
  }

  // pb_skip_field
  function SkipField(wireType: nat, s: seq<byte>): (r: Option<seq<byte>>)
    ensures r.Some? ==> |r.value| <= |s|
  {
    match wireType
    case 0 => SkipVarint(s)
    case 1 => SkipBytes(s, 8)
    case 2 => (match ReadPrefixed(s) case None => None case Some(p) => Some(p.rest))
    case 5 => SkipBytes(s, 4)
    case _ => None
  }

  // ------------------------------------------------------------------
  // Reading a value

  // What a C string in memory is worth: the bytes before the first NUL.
  function CString(s: seq<byte>): (c: seq<byte>)
    ensures |c| <= |s| && 0 !in c
  {
    if s == [] || s[0] == 0 then [] else [s[0]] + CString(s[1..])
  }

  function Zeros(n: nat): (s: seq<byte>)
    ensures |s| == n
  {
    if n == 0 then [] else [0] + Zeros(n - 1)
  }

  // pb_dec_varint: fields of up to 32 bits look at the low 32 bits only.
  function NarrowSigned(u: nat, size: nat): Option<int>
    requires u < U64
  {
    var n := if size == 8 then Signed64(u) else Signed32(u % U32);
    if IntSize(size) && FitsSigned(n, size) then Some(n) else None
  }

  function ReadNumber(k: Kind, size: nat, u: nat): (n: Option<int>)
    requires u < U64 && (k.Varint? || k.Uvarint? || k.Svarint?)
    ensures n.Some? ==> if k.Uvarint? then FitsUnsigned(n.value, size) else FitsSigned(n.value, size)
  {
    match k
    case Varint => NarrowSigned(u, size)
    case Uvarint => if IntSize(size) && FitsUnsigned(u, size) then Some(u) else None
    case Svarint => if IntSize(size) && FitsSigned(UnZigZag(u), size) then Some(UnZigZag(u)) else None
  }

  lemma {:induction false} FixedBound(s: seq<byte>)
    ensures FixedValue(s) < Power256(|s|)
  {
    if s != [] {
      FixedBound(s[1..]);
    }
  }

  function ReadFixed(s: seq<byte>, len: nat): (r: Option<Read<nat>>)
    ensures r.Some? ==> r.value.value < Power256(len) && |r.value.rest| == |s| - len
  {
    if |s| < len then None
    else
      FixedBound(s[..len]);
      Some(Read(FixedValue(s[..len]), s[len..]))
  }

  // The length-prefixed kinds but submessages, given the length and the input
  // behind it.
  function ReadData(f: Field, size: nat, s: seq<byte>): (r: Option<Read<Value>>)
    requires f.kind.Bytes? || f.kind.String? || f.kind.FixedLengthBytes?
    ensures r.Some? ==> |r.value.rest| <= |s| && TypedValue(f, r.value.value)
  {
    match f.kind
    case Bytes =>
      if size + BYTES_HEADER > f.dataSize || |s| < size then None
      else Some(Read(Data(s[..size]), s[size..]))
    case String =>
      if size + 1 > f.dataSize || |s| < size then None
      else Some(Read(Data(CString(s[..size])), s[size..]))
    case FixedLengthBytes =>
      if size == 0 then Some(Read(Data(Zeros(f.dataSize)), s))
      else if size != f.dataSize || |s| < size then None
      else Some(Read(Data(s[..size]), s[size..]))
  }

  // The entries of PB_DECODERS. prior is what the structure holds: nested
  // messages are merged into it, unless they are new array entries.
  ghost function DecodeValue(f: Field, prior: Value, s: seq<byte>): (r: Option<Read<Value>>)
    requires TypedValue(f, prior) && WellFormedField(f)
    ensures r.Some? ==> |r.value.rest| < |s| && TypedValue(f, r.value.value)
    decreases f, 1, |s|
  {
    match f.kind
    case Varint | Uvarint | Svarint =>
      (match ReadVarint(s)
       case None => None
       case Some(Read(u, rest)) =>
         var n := ReadNumber(f.kind, f.dataSize, u);
         if n.None? then None else Some(Read(Num(n.value), rest)))
    case Fixed32 =>
      (match ReadFixed(s, 4) case None => None case Some(Read(n, rest)) => Some(Read(Num(n), rest)))
    case Fixed64 =>
      (match ReadFixed(s, 8) case None => None case Some(Read(n, rest)) => Some(Read(Num(n), rest)))
    case Submessage(fields) =>
      (match ReadPrefixed(s)
       case None => None
       case Some(Read(body, rest)) =>
         DefaultsAreTyped(fields);
         match DecodeNoInit(fields, if f.rule.Repeated? then Defaults(fields) else prior.slots, body)
         case None => None
         case Some(m) => Some(Read(Msg(m.value), rest)))
    case _ =>
      (match ReadVarint32(s) case None => None case Some(Read(size, rest)) => ReadData(f, size, rest))
  }

  // The packed items of a repeated field, up to the end of the substream.
  ghost function DecodePacked(f: Field, items: seq<Value>, s: seq<byte>): (r: Option<seq<Value>>)
    requires f.rule.Repeated? && WellFormedField(f) && forall v :: v in items ==> TypedValue(f, v)
    ensures r.Some? ==> forall v :: v in r.value ==> TypedValue(f, v)
    decreases f, 2, |s|
  {
    if s == [] then Some(items)
    else if |items| >= f.rule.arraySize then None
    else
      DefaultIsTyped(f);
      match DecodeValue(f, DefaultValue(f), s)
      case None => None
      case Some(Read(v, rest)) => DecodePacked(f, items + [v], rest)
  }

  // decode_static_field. The wire type only tells packed from unpacked.
  ghost function DecodeField(f: Field, wireType: nat, slot: Slot, s: seq<byte>): (r: Option<Read<Slot>>)
    requires TypedSlot(f, slot) && WellFormedField(f)
    ensures r.Some? ==> |r.value.rest| < |s| && TypedSlot(f, r.value.value)
    decreases f, 3, |s|
  {
    DefaultIsTyped(f);
    match f.rule
    case Required | Singular =>
      (match DecodeValue(f, slot.value, s) case None => None case Some(Read(v, rest)) => Some(Read(One(v), rest)))
    case Optional =>
      (match DecodeValue(f, slot.held, s) case None => None case Some(Read(v, rest)) => Some(Read(Maybe(true, v), rest)))
    case Oneof(_) =>
      (match DecodeValue(f, DefaultValue(f), s)
       case None => None
       case Some(Read(v, rest)) => Some(Read(Choice(Some(v)), rest)))
    case Repeated(arraySize) =>
      if wireType == WT_STRING && Packable(f.kind) then
        match ReadPrefixed(s)
        case None => None
        case Some(Read(body, rest)) =>
          match DecodePacked(f, slot.items, body)
          case None => None
          case Some(items) => Some(Read(Many(items), rest))
      else if |slot.items| >= arraySize then None
      else
        match DecodeValue(f, DefaultValue(f), s)
        case None => None
        case Some(Read(v, rest)) => Some(Read(Many(slot.items + [v]), rest))
  }

  // ------------------------------------------------------------------
  // Reading a message

  // The field a tag belongs to.
  function FindField(fields: seq<Field>, tag: nat, i: nat): (r: Option<nat>)
    requires i <= |fields|
    ensures r.Some? ==> i <= r.value < |fields| && fields[r.value].tag == tag
    ensures r.None? ==> forall j :: i <= j < |fields| ==> fields[j].tag != tag
    decreases |fields| - i
  {
    if i == |fields| then None else if fields[i].tag == tag then Some(i) else FindField(fields, tag, i + 1)
  }

  // With distinct tags, a field is found by its tag.
  lemma FoundIsField(fields: seq<Field>, tag: nat, pos: nat, i: nat)
    requires WellFormedFields(fields) && i <= pos < |fields| && fields[pos].tag == tag
    ensures FindField(fields, tag, i) == Some(pos)
    decreases pos - i
  {
    if i < pos {
      FoundIsField(fields, tag, pos, i + 1);
    }
  }

  // Slot i set; the other members of its union lose their value.
  function SetSlot(fields: seq<Field>, slots: seq<Slot>, i: nat, slot: Slot): (r: seq<Slot>)
    requires |fields| == |slots| && i < |fields|
    ensures |r| == |fields| && r[i] == slot
    ensures forall j :: 0 <= j < |fields| && j != i ==>
      r[j] == if SameUnion(fields[i], fields[j]) then Choice(None) else slots[j]
  {
    seq(|fields|, j requires 0 <= j < |fields| =>
      if j == i then slot else if SameUnion(fields[i], fields[j]) then Choice(None) else slots[j])
  }

  // The state at the end of the loop; stopped by a zero tag, or at the end of
  // the input.
  datatype Loop = Loop(slots: seq<Slot>, seen: set<nat>, rest: seq<byte>, stopped: bool)

  // One field behind its tag. In an empty message, tag 0 with a wire type finds
  // the terminator of the descriptor, whose size 0 is an error.
  ghost function Turn(fields: seq<Field>, wireType: nat, tag: nat, slots: seq<Slot>, seen: set<nat>, s: seq<byte>)
    : (r: Option<Read<(seq<Slot>, set<nat>)>>)
    requires WellFormedFields(fields) && Typed(fields, slots)
    ensures r.Some? ==> |r.value.rest| <= |s| && Typed(fields, r.value.value.0)
    decreases fields, 0, 0
  {
    match FindField(fields, tag, 0)
    case None =>
      if fields == [] && tag == 0 then None
      else (match SkipField(wireType, s) case None => None case Some(rest) => Some(Read((slots, seen), rest)))
    case Some(i) =>
      match DecodeField(fields[i], wireType, slots[i], s)
      case None => None
      case Some(Read(slot, rest)) => Some(Read((SetSlot(fields, slots, i, slot), seen + {i}), rest))
  }

  // The loop of pb_decode_noinit.
  ghost function DecodeLoop(fields: seq<Field>, slots: seq<Slot>, seen: set<nat>, s: seq<byte>): (r: Option<Loop>)
    requires WellFormedFields(fields) && Typed(fields, slots)
    ensures r.Some? ==> Typed(fields, r.value.slots)
    decreases fields, 1, |s|
  {
    if s == [] then Some(Loop(slots, seen, s, false))
    else
      match ReadVarint32(s)
      case None => None
      case Some(Read(key, rest)) =>
        if key == 0 then Some(Loop(slots, seen, rest, true))
        else
          match Turn(fields, key % 8, key / 8, slots, seen, rest)
          case None => None
          case Some(Read((slots, seen), rest)) => DecodeLoop(fields, slots, seen, rest)
  }

  lemma LoopTurn(fields: seq<Field>, slots: seq<Slot>, seen: set<nat>, s: seq<byte>, key: nat, body: seq<byte>,
                 next: Read<(seq<Slot>, set<nat>)>)
    requires WellFormedFields(fields) && Typed(fields, slots)
    requires s != [] && ReadVarint32(s) == Some(Read(key, body)) && key != 0
    requires Turn(fields, key % 8, key / 8, slots, seen, body) == Some(next)
    ensures Typed(fields, next.value.0) && DecodeLoop(fields, slots, seen, s) == DecodeLoop(fields, next.value.0, next.value.1, next.rest)
  {}

  // The first 64 required fields all occurred.
  ghost predicate RequiredSeen(fields: seq<Field>, seen: set<nat>) {
    forall i: nat :: i < |fields| && fields[i].rule.Required? && RequiredBefore(fields, i) < MAX_REQUIRED_FIELDS ==> i in seen
  }

  // pb_decode_noinit
  ghost function DecodeNoInit(fields: seq<Field>, slots: seq<Slot>, s: seq<byte>): (r: Option<Read<seq<Slot>>>)
    requires WellFormedFields(fields) && Typed(fields, slots)
    ensures r.Some? ==> Typed(fields, r.value.value)
    decreases fields, 2, |s|
  {
    match DecodeLoop(fields, slots, {}, s)
    case None => None
    case Some(l) => if RequiredSeen(fields, l.seen) then Some(Read(l.slots, l.rest)) else None
  }

  // pb_decode
  ghost function Decode(fields: seq<Field>, s: seq<byte>): (r: Option<Read<seq<Slot>>>)
    requires WellFormedFields(fields)
  {
    DefaultsAreTyped(fields);
    DecodeNoInit(fields, Defaults(fields), s)
  }
}
