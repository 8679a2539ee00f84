// What the handshake state machines of both sides have in common: messages,
// records, the transcript, and what a state function may wait for
// (handshake.cc).

module TlsTypes {
  datatype Side = ClientSide | ServerSide

  datatype Kind =
    | ClientHello
    | ServerHello
    | Certificate
    | CertificateStatus
    | ServerKeyExchange
    | CertificateRequest
    | ServerHelloDone
    | ClientKeyExchange
    | CertificateVerify
    | NextProto
    | ChannelId
    | NewSessionTicket
    | Finished
    | OtherKind

  // What the two hellos settle: the version, resumption, whether the cipher
  // authenticates by certificate and whether it is ECDHE, and the extensions.
  datatype Flags = Flags(
    tls13: bool, resumed: bool, certAuth: bool, ecdhe: bool,
    status: bool, ticket: bool, npn: bool, channelId: bool)

  // A body is opaque, but for what decides the course of the handshake. The
  // verify data of a Finished stands for the MAC of a transcript.
  datatype Body =
    | Blob(n: nat)
    | Hello(flags: Flags)
    | Chain(present: bool)
    | Verify(from: Side, over: seq<Message>)

  datatype Message = Message(kind: Kind, body: Body)

  // A record holds whole messages or a ChangeCipherSpec; epoch counts the
  // cipher changes of its sender.
  datatype Content = Ccs | Messages(msgs: seq<Message>)

  datatype Record = Record(epoch: nat, content: Content)

  // A message that was opened but not yet consumed, and the epoch it came in.
  datatype Held = Held(msg: Message, epoch: nat)

  // ssl_hs_wait_t. Paused stands for every wait on a callback of the
  // application.
  datatype Wait = Go | Failed | Flush | ReadMessage | ReadCcs | Paused | EarlyReturn

  // What happened so far that matters for security.
  datatype Mark =
    | PeerVerified
    | SignatureVerified
    | ReadCipher
    | WriteCipher
    | PeerFinished(epoch: nat, over: seq<Message>)
    | OwnFinished(epoch: nat, over: seq<Message>)

  // sent holds all records ever added, of which the first flushed ones were
  // flushed.
  datatype Hs = Hs(
    flags: Flags, certRequest: bool, buffer: seq<Held>, transcript: seq<Message>,
    sent: seq<Record>, flushed: nat, readEpoch: nat, writeEpoch: nat, log: seq<Mark>)

  const NO_FLAGS := Flags(false, false, false, false, false, false, false, false)
  const FRESH := Hs(NO_FLAGS, false, [], [], [], 0, 0, 0, [])

  datatype Verdict = VerifyOk | VerifyInvalid | VerifyRetry

  // What the environment decides in one step: whether everything that is
  // opaque succeeds, whether a callback asks to be called again, the outcome
  // of certificate verification, whether False Start is taken, and the
  // contents of an opaque body.
  datatype Choice = Choice(ok: bool, retry: bool, verdict: Verdict, falseStart: bool, blob: Kind -> nat)

  // A message whose body is opaque.
  function Opaque(e: Choice, kind: Kind): Message {
    Message(kind, Blob(e.blob(kind)))
  }

  // ------------------------------------------------------------------
  // Sending and receiving

  // ssl_add_message_cbb: queued for the flight and hashed.
  function Add(h: Hs, m: Message): Hs {
    h.(sent := h.sent + [Record(h.writeEpoch, Messages([m]))], transcript := h.transcript + [m])
  }

  function AddIf(c: bool, h: Hs, m: Message): Hs {
    if c then Add(h, m) else h
  }

  // add_change_cipher_spec and tls1_change_cipher_state for writing.
  function ChangeWriteCipher(h: Hs): Hs {
    h.(sent := h.sent + [Record(h.writeEpoch, Ccs)], writeEpoch := h.writeEpoch + 1, log := h.log + [WriteCipher])
  }

  // ssl_send_finished
  function SendFinished(h: Hs, side: Side): Hs {
    Add(h.(log := h.log + [OwnFinished(h.writeEpoch, h.transcript)]), Message(Finished, Verify(side, h.transcript)))
  }

  predicate HasMessage(h: Hs) {
    h.buffer != []
  }

  // ssl_hash_message and next_message for the current message.
  function Consume(h: Hs): Hs
    requires HasMessage(h)
  {
    h.(buffer := h.buffer[1..], transcript := h.transcript + [h.buffer[0].msg])
  }

  // The check of ssl_get_finished.
  predicate FinishedOk(h: Hs, from: Side)
    requires HasMessage(h)
  {
    h.buffer[0].msg == Message(Finished, Verify(from, h.transcript))
  }

  function ConsumeFinished(h: Hs): Hs
    requires HasMessage(h)
  {
    Consume(h).(log := h.log + [PeerFinished(h.buffer[0].epoch, h.transcript)])
  }

  // tls1_change_cipher_state for reading, which refuses leftover messages.
  function ChangeReadCipher(h: Hs): Hs {
    h.(readEpoch := h.readEpoch + 1, log := h.log + [ReadCipher])
  }

  // What ssl_run_handshake makes of a record, given what it waits for.
  datatype Opened = Opened(wait: Wait, hs: Hs)

  function Hold(msgs: seq<Message>, epoch: nat): (hs: seq<Held>)
    ensures |hs| == |msgs| && forall i :: 0 <= i < |msgs| ==> hs[i] == Held(msgs[i], epoch)
  {
    seq(|msgs|, i requires 0 <= i < |msgs| => Held(msgs[i], epoch))
  }

  function Open(h: Hs, wait: Wait, r: Record): Opened {
    if r.epoch != h.readEpoch then Opened(Failed, h)
    else match r.content
      case Ccs => Opened(if wait == ReadCcs then Go else Failed, h)
      case Messages(msgs) =>
        if wait == ReadCcs then Opened(Failed, h) else Opened(Go, h.(buffer := h.buffer + Hold(msgs, r.epoch)))
  }
}
