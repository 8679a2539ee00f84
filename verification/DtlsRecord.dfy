// The DTLS record layer: sealing and opening records (dtls_record.cc) and the
// epoch change that resets the replay window (dtls_method.cc).

module DtlsRecord {
  import opened Bytes
  import DtlsReplay

  const RT_HEADER_LENGTH := 13
  const RT_CHANGE_CIPHER_SPEC: byte := 20
  const RT_ALERT: byte := 21
  const RT_HANDSHAKE: byte := 22
  const RT_APPLICATION_DATA: byte := 23
  const VERSION_MAJOR := 0xfe
  const MAX_PLAIN_LENGTH := 16384
  const MAX_ENCRYPTED_LENGTH := MAX_PLAIN_LENGTH + 256 + 64
  const EPOCHS := 0x1_0000
  const SEQUENCES := 0x1_0000_0000_0000

  // An AEAD context. The cipher itself is abstract: seal and open take the
  // 64-bit record number, the content type, the record version and the text.
  datatype Aead = Aead(
    isNull: bool, recordVersion: nat, nonceLen: nat, maxOverhead: nat,
    seal: (nat, byte, nat, seq<byte>) -> seq<byte>,
    open: (nat, byte, nat, seq<byte>) -> Option<seq<byte>>)
  {
    // Open undoes Seal, and sealing adds at most maxOverhead bytes.
    ghost predicate Correct() {
      && recordVersion < 0x1_0000
      && nonceLen <= maxOverhead
      && forall n: nat, t: byte, v: nat, x: seq<byte> ::
        open(n, t, v, seal(n, t, v, x)) == Some(x) && |seal(n, t, v, x)| <= |x| + maxOverhead
    }
  }

  // The eight sequence bytes as to_u64_be reads them: epoch, then sequence.
  function Number(epoch: nat, sequence: nat): nat {
    epoch * SEQUENCES + sequence
  }

  // The epoch of a record, from the first two sequence bytes.
  function EpochOf(sequence: seq<byte>): nat
    requires |sequence| == 8
  {
    sequence[0] as nat * 256 + sequence[1] as nat
  }

  function SequenceBytes(epoch: nat, sequence: nat): (s: seq<byte>)
    requires epoch < EPOCHS && sequence < SEQUENCES
    ensures |s| == 8
  {
    U16(epoch) + U48(sequence)
  }

  lemma SequenceBytesRoundTrip(epoch: nat, sequence: nat)
    requires epoch < EPOCHS && sequence < SEQUENCES
    ensures BigEndian(SequenceBytes(epoch, sequence)) == Number(epoch, sequence)
    ensures EpochOf(SequenceBytes(epoch, sequence)) == epoch
  {
    BigEndianAppend(U16(epoch), U48(sequence));
    U16RoundTrip(epoch);
    U48RoundTrip(sequence);
    assert Power256(6) == SEQUENCES;
  }

  // to_u64_be
  method ToU64(input: seq<byte>) returns (ret: nat)
    requires |input| == 8
    ensures ret == BigEndian(input)
  {
    ret := 0;
    for i := 0 to 8
      invariant ret == BigEndian(input[..i]) && ret < Power256(i)
    {
      BigEndianBound(input[..i + 1], Power256(i + 1));
      assert input[..i + 1][..i] == input[..i];
      Power256Grows(i + 1, 8);
      ret := ret * 256 % 0x1_0000_0000_0000_0000 + input[i];
    }
    assert input[..8] == input;
  }

  lemma {:induction false} Power256Grows(m: nat, n: nat)
    requires m <= n
    ensures Power256(m) <= Power256(n)
  {
    if m < n {
      Power256Grows(m, n - 1);
    }
  }

  function RecordBytes(typ: byte, version: nat, epoch: nat, sequence: nat, body: seq<byte>): seq<byte>
    requires version < 0x1_0000 && epoch < EPOCHS && sequence < SEQUENCES && |body| < 0x1_0000
  {
    [typ] + U16(version) + SequenceBytes(epoch, sequence) + U16(|body|) + body
  }

  datatype RawRecord = RawRecord(typ: byte, version: nat, sequence: seq<byte>, body: seq<byte>, rest: seq<byte>)

  // The header and body, or None for what the record layer calls malformed.
  function ParseRecord(input: seq<byte>): (r: Option<RawRecord>)
    ensures r.Some? ==> |r.value.sequence| == 8 && |r.value.rest| < |input|
  {
    if |input| < RT_HEADER_LENGTH then None
    else
      var len := BigEndian(input[11..13]);
      var tail := input[RT_HEADER_LENGTH..];
      if |tail| < len || len > MAX_ENCRYPTED_LENGTH then None
      else Some(RawRecord(input[0], BigEndian(input[1..3]), input[3..11], tail[..len], tail[len..]))
  }

  lemma ParseInvertsRecord(typ: byte, version: nat, epoch: nat, sequence: nat, body: seq<byte>, rest: seq<byte>)
    requires version < 0x1_0000 && epoch < EPOCHS && sequence < SEQUENCES && |body| < 0x1_0000
    ensures ParseRecord(RecordBytes(typ, version, epoch, sequence, body) + rest)
      == if |body| > MAX_ENCRYPTED_LENGTH then None
         else Some(RawRecord(typ, version, SequenceBytes(epoch, sequence), body, rest))
  {
    var input := RecordBytes(typ, version, epoch, sequence, body) + rest;
    assert input[1..3] == U16(version);
    assert input[3..11] == SequenceBytes(epoch, sequence);
    assert input[11..13] == U16(|body|);
    assert input[RT_HEADER_LENGTH..] == body + rest;
    U16RoundTrip(version);
    U16RoundTrip(|body|);
  }

  // The receiving half: r_epoch, the replay window and the read context.
  datatype Layer = Layer(epoch: nat, window: DtlsReplay.Window, aead: Aead)

  datatype Opened =
    | NoData
    | Discard(rest: seq<byte>)
    | Failed(rest: seq<byte>)
    | Accepted(typ: byte, number: nat, plain: seq<byte>, rest: seq<byte>)

  predicate VersionOk(aead: Aead, version: nat) {
    if aead.isNull then version / 256 == VERSION_MAJOR else version == aead.recordVersion
  }

  // dtls_open_record. An alert record counts as a success here; acting on it
  // is left to the caller.
  function OpenRecord(l: Layer, input: seq<byte>): (Opened, Layer) {
    if input == [] then (NoData, l)
    else match ParseRecord(input)
      case None => (Discard([]), l)
      case Some(raw) =>
        if !VersionOk(l.aead, raw.version) then (Discard([]), l)
        else
          var number := BigEndian(raw.sequence);
          if EpochOf(raw.sequence) != l.epoch || DtlsReplay.ShouldDiscard(l.window, number)
          then (Discard(raw.rest), l)
          else match l.aead.open(number, raw.typ, raw.version, raw.body)
            case None => (Discard(raw.rest), l)
            case Some(plain) =>
              if |plain| > MAX_PLAIN_LENGTH then (Failed(raw.rest), l)
              else (Accepted(raw.typ, number, plain, raw.rest), l.(window := DtlsReplay.Record(l.window, number)))
  }

  // The part of dtls1_set_read_state that follows its check for leftover data.
  function NextEpoch(l: Layer, aead: Aead): Layer {
    Layer((l.epoch + 1) % EPOCHS, DtlsReplay.EMPTY, aead)
  }

  // ------------------------------------------------------------------
  // Runs: any packets and any epoch changes, in any order.

  datatype Event = Input(data: seq<byte>) | Change(aead: Aead)

  datatype Run = Run(layer: Layer, accepted: seq<nat>, changes: nat)

  function Start(aead: Aead): Run {
    Run(Layer(0, DtlsReplay.EMPTY, aead), [], 0)
  }

  function Step(r: Run, e: Event): Run {
    match e
    case Change(aead) => Run(NextEpoch(r.layer, aead), r.accepted, r.changes + 1)
    case Input(data) =>
      var (outcome, layer) := OpenRecord(r.layer, data);
      Run(layer, if outcome.Accepted? then r.accepted + [outcome.number] else r.accepted, r.changes)
  }

  function Execute(aead: Aead, events: seq<Event>): Run {
    if events == [] then Start(aead)
    else Step(Execute(aead, events[..|events| - 1]), events[|events| - 1])
  }

  // Record numbers of one epoch.
  predicate InEpoch(number: nat, epoch: nat) {
    epoch * SEQUENCES <= number < (epoch + 1) * SEQUENCES
  }

  ghost function AcceptedIn(accepted: seq<nat>, epoch: nat): set<nat> {
    set n | n in accepted && InEpoch(n, epoch)
  }

  ghost predicate Distinct(s: seq<nat>) {
    forall i, j :: 0 <= i < j < |s| ==> s[i] != s[j]
  }

  ghost predicate RunOk(r: Run) {
    && r.layer.epoch == r.changes
    && Distinct(r.accepted)
    && (forall n :: n in r.accepted ==> n < (r.layer.epoch + 1) * SEQUENCES)
    && DtlsReplay.Represents(r.layer.window, AcceptedIn(r.accepted, r.layer.epoch))
  }

  lemma NumberInEpoch(sequence: seq<byte>)
    requires |sequence| == 8
    ensures InEpoch(BigEndian(sequence), EpochOf(sequence))
  {
    var high, low := sequence[..2], sequence[2..];
    assert sequence == high + low;
    BigEndianAppend(high, low);
    assert Power256(6) == SEQUENCES;
    BigEndianBound(low, SEQUENCES);
    assert high[..1] == [sequence[0]];
    BigEndianByte(sequence[0]);
  }

  lemma StepKeepsRunOk(r: Run, e: Event)
    requires RunOk(r)
    requires Step(r, e).changes < EPOCHS
    ensures RunOk(Step(r, e))
  {
    var r' := Step(r, e);
    match e
    case Change(_) =>
      assert AcceptedIn(r'.accepted, r'.layer.epoch) == {};
    case Input(data) =>
      var (outcome, layer) := OpenRecord(r.layer, data);
      if outcome.Accepted? {
        var raw := ParseRecord(data).value;
        NumberInEpoch(raw.sequence);
        var seen := AcceptedIn(r.accepted, r.layer.epoch);
        DtlsReplay.DiscardIsExact(r.layer.window, seen, outcome.number);
        DtlsReplay.RecordRepresents(r.layer.window, seen, outcome.number);
        assert AcceptedIn(r'.accepted, r.layer.epoch) == seen + {outcome.number};
      }
  }

  // Whatever arrives and whenever the epoch changes, as long as the 16-bit
  // epoch has not wrapped, no record number is accepted twice.
  lemma {:induction false} NoReplay(aead: Aead, events: seq<Event>)
    requires Execute(aead, events).changes < EPOCHS
    ensures RunOk(Execute(aead, events))
    ensures Distinct(Execute(aead, events).accepted)
  {
    if events != [] {
      NoReplay(aead, events[..|events| - 1]);
      StepKeepsRunOk(Execute(aead, events[..|events| - 1]), events[|events| - 1]);
    } else {
      assert AcceptedIn([], 0) == {};
    }
  }

  // A genuine record of the current epoch that was not accepted before and is
  // no more than 63 behind the newest accepted one is let through.
  lemma FreshIsAccepted(aead: Aead, events: seq<Event>, data: seq<byte>)
    requires Execute(aead, events).changes < EPOCHS
    requires ParseRecord(data).Some?
    ensures
      var run, raw := Execute(aead, events), ParseRecord(data).value;
      var number := BigEndian(raw.sequence);
      var plain := run.layer.aead.open(number, raw.typ, raw.version, raw.body);
      OpenRecord(run.layer, data).0.Accepted? <==>
        && VersionOk(run.layer.aead, raw.version)
        && InEpoch(number, run.layer.epoch)
        && plain.Some? && |plain.value| <= MAX_PLAIN_LENGTH
        && number !in run.accepted
        && run.layer.window.maxSeq < number + DtlsReplay.WINDOW_SIZE
  {
    var run, raw := Execute(aead, events), ParseRecord(data).value;
    var number := BigEndian(raw.sequence);
    NoReplay(aead, events);
    NumberInEpoch(raw.sequence);
    DtlsReplay.DiscardIsExact(run.layer.window, AcceptedIn(run.accepted, run.layer.epoch), number);
  }

  // Without keys any version of DTLS will do, and under keys only the
  // negotiated one.
  lemma VersionsTaken(aead: Aead, version: nat)
    ensures VersionOk(aead, version) <==> if aead.isNull then 0xfe00 <= version < 0xff00 else version == aead.recordVersion
  {}

  predicate TooLong(run: Run, raw: RawRecord)
    requires |raw.sequence| == 8
  {
    var number := BigEndian(raw.sequence);
    var plain := run.layer.aead.open(number, raw.typ, raw.version, raw.body);
    && VersionOk(run.layer.aead, raw.version) && InEpoch(number, run.layer.epoch)
    && number !in run.accepted && run.layer.window.maxSeq < number + 64
    && plain.Some? && |plain.value| > 16384
  }

  // Only one thing is fatal: a fresh record that authenticates and whose
  // plaintext is too long. Any other record that is not accepted is dropped,
  // and leaves the layer as it was. With a header that is malformed, or of
  // another version, all of the datagram is dropped.
  lemma FailsExactly(aead: Aead, events: seq<Event>, data: seq<byte>)
    requires Execute(aead, events).changes < EPOCHS && data != []
    ensures
      var run, parsed := Execute(aead, events), ParseRecord(data);
      var (outcome, layer) := OpenRecord(run.layer, data);
      && !outcome.NoData? && (!outcome.Accepted? ==> layer == run.layer)
      && outcome.rest == (if parsed.None? || !VersionOk(run.layer.aead, parsed.value.version) then [] else parsed.value.rest)
      && (outcome.Failed? <==> (parsed.Some? && TooLong(run, parsed.value)))
  {
    var run := Execute(aead, events);
    if ParseRecord(data).Some? {
      var number := BigEndian(ParseRecord(data).value.sequence);
      NoReplay(aead, events);
      NumberInEpoch(ParseRecord(data).value.sequence);
      DtlsReplay.DiscardIsExact(run.layer.window, AcceptedIn(run.accepted, run.layer.epoch), number);
    }
  }
}
