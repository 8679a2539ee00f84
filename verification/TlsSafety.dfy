// What every run of either state machine has done when it is done, whatever
// the peer sends (sections 7.3 and 7.4.9 of RFC 5246).

module TlsSafety {
  import opened TlsTypes
  import C = TlsClient
  import S = TlsServer

  function Other(side: Side): Side {
    if side == ClientSide then ServerSide else ClientSide
  }

  // A transcript and the Finished that covers it.
  function Covered(from: Side, over: seq<Message>): seq<Message> {
    over + [Message(Finished, Verify(from, over))]
  }

  // The transcript a mark speaks of, up to the Finished.
  function CoveredBy(side: Side, m: Mark): seq<Message> {
    match m
    case PeerFinished(_, over) => Covered(Other(side), over)
    case OwnFinished(_, over) => Covered(side, over)
    case _ => []
  }

  // Each Finished, verified or sent, covers all of the transcript before it.
  ghost predicate FinishedCover(side: Side, h: Hs) {
    forall m :: m in h.log ==> CoveredBy(side, m) <= h.transcript
  }

  // Messages in the buffer came in under the current read cipher.
  ghost predicate HsOk(side: Side, h: Hs) {
    (forall x :: x in h.buffer ==> x.epoch == h.readEpoch) && FinishedCover(side, h)
  }

  // A mark without the transcript of a Finished.
  function Bare(m: Mark): Mark {
    match m
    case PeerFinished(epoch, _) => PeerFinished(epoch, [])
    case OwnFinished(epoch, _) => OwnFinished(epoch, [])
    case _ => m
  }

  function BareLog(log: seq<Mark>): (r: seq<Mark>)
    ensures |r| == |log| && forall i :: 0 <= i < |log| ==> r[i] == Bare(log[i])
  {
    seq(|log|, i requires 0 <= i < |log| => Bare(log[i]))
  }

  lemma BareAppend(log: seq<Mark>, m: Mark)
    ensures BareLog(log + [m]) == BareLog(log) + [Bare(m)]
  {}

  const READ := [ReadCipher, PeerFinished(1, [])]
  const WROTE := [WriteCipher, OwnFinished(1, [])]

  // What a state of the machine implies: the marks so far, the read and the
  // write epoch.
  datatype Past = Past(marks: seq<Mark>, readEpoch: nat, writeEpoch: nat) | Impossible

  function PastOf(h: Hs): Past {
    Past(BareLog(h.log), h.readEpoch, h.writeEpoch)
  }

  // How far a state is, by the marks that lie behind it.
  datatype Phase = Greeting | Unverified | Keyed | Wrote | WroteChanged | Changed | ReadDone | Complete | Unreachable

  function ClientPhase(state: C.State, flags: Flags): Phase {
    if flags.resumed then
      match state
      case ReadSessionTicket | ProcessChangeCipherSpec => Unverified
      case ReadServerFinished => Changed
      case SendClientFinished => ReadDone
      case FinishFlight | FinishClientHandshake | Done => Complete
      case _ => Unreachable
    else
      match state
      case StartConnect | EnterEarlyData | ReadServerHello => if flags == NO_FLAGS then Greeting else Unreachable
      case ReadServerCertificate | ReadCertificateStatus | VerifyServerCertificate => Unverified
      case FinishFlight | ReadSessionTicket | ProcessChangeCipherSpec => Wrote
      case ReadServerFinished => WroteChanged
      case FinishClientHandshake | Done => Complete
      case _ => Keyed
  }

  function ClientPast(phase: Phase, flags: Flags): Past {
    var verified := if flags.certAuth && !flags.resumed then [PeerVerified] else [];
    match phase
    case Greeting | Unverified => Past([], 0, 0)
    case Keyed => Past(verified, 0, 0)
    case Wrote => Past(verified + WROTE, 0, 1)
    case WroteChanged => Past(verified + WROTE + [ReadCipher], 1, 1)
    case Changed => Past([ReadCipher], 1, 0)
    case ReadDone => Past(READ, 1, 0)
    case Complete => Past(if flags.resumed then READ + WROTE else verified + WROTE + READ, 1, 1)
    case Unreachable => Impossible
  }

  ghost predicate ClientOk(c: C.Client) {
    HsOk(ClientSide, c.hs) && (c.state == C.Tls13 || PastOf(c.hs) == ClientPast(ClientPhase(c.state, c.hs.flags), c.hs.flags))
  }

  lemma OpenKeepsOk(side: Side, h: Hs, wait: Wait, r: Record)
    requires HsOk(side, h)
    ensures HsOk(side, Open(h, wait, r).hs) && PastOf(Open(h, wait, r).hs) == PastOf(h)
  {}

  lemma AddKeepsOk(side: Side, h: Hs, m: Message)
    requires HsOk(side, h)
    ensures HsOk(side, Add(h, m))
  {}

  lemma ConsumeKeepsOk(side: Side, h: Hs)
    requires HsOk(side, h) && HasMessage(h)
    ensures HsOk(side, Consume(h)) && (FinishedOk(h, Other(side)) ==> HsOk(side, ConsumeFinished(h)))
    ensures PastOf(ConsumeFinished(h)).marks == PastOf(h).marks + [PeerFinished(h.readEpoch, [])]
  {
    assert h.buffer[0] in h.buffer;
    BareAppend(h.log, PeerFinished(h.buffer[0].epoch, h.transcript));
  }

  lemma MarkKeepsOk(side: Side, h: Hs, m: Mark)
    requires HsOk(side, h) && !m.PeerFinished? && !m.OwnFinished?
    ensures HsOk(side, h.(log := h.log + [m]))
    ensures PastOf(h.(log := h.log + [m])).marks == PastOf(h).marks + [m]
  {
    BareAppend(h.log, m);
  }

  lemma ChangesKeepOk(side: Side, h: Hs)
    requires HsOk(side, h)
    ensures HsOk(side, ChangeWriteCipher(h)) && (!HasMessage(h) ==> HsOk(side, ChangeReadCipher(h)))
    ensures PastOf(ChangeWriteCipher(h)) == Past(BareLog(h.log) + [WriteCipher], h.readEpoch, h.writeEpoch + 1)
    ensures PastOf(ChangeReadCipher(h)) == Past(BareLog(h.log) + [ReadCipher], h.readEpoch + 1, h.writeEpoch)
  {
    BareAppend(h.log, WriteCipher);
    BareAppend(h.log, ReadCipher);
  }

  lemma FinishedKeepsOk(side: Side, h: Hs)
    requires HsOk(side, h)
    ensures HsOk(side, SendFinished(h, side))
    ensures PastOf(SendFinished(h, side)) == Past(BareLog(h.log) + [OwnFinished(h.writeEpoch, [])], h.readEpoch, h.writeEpoch)
  {
    BareAppend(h.log, OwnFinished(h.writeEpoch, h.transcript));
  }

  // Writing under the new cipher, with any messages before the Finished.
  function Write(h: Hs, first: bool, m: Message, second: bool, m': Message, side: Side): Hs {
    SendFinished(AddIf(second, AddIf(first, ChangeWriteCipher(h), m), m'), side)
  }

  lemma WriteKeepsOk(side: Side, h: Hs, first: bool, m: Message, second: bool, m': Message)
    requires HsOk(side, h) && h.writeEpoch == 0
    ensures var w := Write(h, first, m, second, m', side);
      HsOk(side, w) && PastOf(w) == Past(BareLog(h.log) + WROTE, h.readEpoch, 1) && w.flags == h.flags
  {
    ChangesKeepOk(side, h);
    var w := ChangeWriteCipher(h);
    AddKeepsOk(side, w, m);
    AddKeepsOk(side, AddIf(first, w, m), m');
    var w' := AddIf(second, AddIf(first, w, m), m');
    FinishedKeepsOk(side, w');
    assert BareLog(h.log) + [WriteCipher] + [OwnFinished(1, [])] == BareLog(h.log) + WROTE;
  }

  lemma ClientSendKeepsOk(c: C.Client, e: Choice)
    requires ClientOk(c) && c.state == C.SendClientFinished
    ensures ClientOk(C.Do(c, e))
  {
    var npn, id := Opaque(e, NextProto), Opaque(e, ChannelId);
    WriteKeepsOk(ClientSide, c.hs, c.hs.flags.npn, npn, c.hs.flags.channelId, id);
  }

  // A state that only reads a message, or sends one that leaves no mark.
  predicate ClientPlain(state: C.State) {
    state !in {C.ReadServerHello, C.VerifyServerCertificate, C.SendClientFinished, C.ProcessChangeCipherSpec, C.ReadServerFinished}
  }

  // Messages may have been read or sent, but nothing was marked.
  ghost predicate Quiet(h: Hs, h': Hs) {
    && h'.log == h.log && h'.readEpoch == h.readEpoch && h'.writeEpoch == h.writeEpoch && h'.flags == h.flags
    && h.transcript <= h'.transcript && forall x :: x in h'.buffer ==> x in h.buffer
  }

  lemma QuietKeepsOk(side: Side, h: Hs, h': Hs)
    requires HsOk(side, h) && Quiet(h, h')
    ensures HsOk(side, h') && PastOf(h') == PastOf(h)
  {}

  lemma AddIsQuiet(h: Hs, m: Message)
    ensures Quiet(h, Add(h, m))
  {}

  lemma ConsumeIsQuiet(h: Hs)
    requires HasMessage(h)
    ensures Quiet(h, Consume(h))
  {}

  predicate Sending(state: C.State) {
    state in {C.StartConnect, C.SendClientCertificate, C.SendClientKeyExchange, C.SendClientCertificateVerify}
  }

  lemma ClientSendIsQuiet(c: C.Client, e: Choice)
    requires Sending(c.state)
    ensures Quiet(c.hs, C.Do(c, e).hs)
  {
    AddIsQuiet(c.hs, Opaque(e, ClientHello));
    AddIsQuiet(c.hs, Message(Certificate, Chain(c.hasCertificate)));
    AddIsQuiet(c.hs, Opaque(e, ClientKeyExchange));
    AddIsQuiet(c.hs, Opaque(e, CertificateVerify));
  }

  predicate Reading(state: C.State) {
    state in {C.ReadServerCertificate, C.ReadCertificateStatus, C.ReadServerKeyExchange, C.ReadCertificateRequest, C.ReadServerHelloDone}
  }

  lemma ClientReadIsQuiet(c: C.Client, e: Choice)
    requires Reading(c.state)
    ensures Quiet(c.hs, C.Do(c, e).hs)
  {
    if HasMessage(c.hs) {
      ConsumeIsQuiet(c.hs);
    }
  }

  lemma ClientPlainIsQuiet(c: C.Client, e: Choice)
    requires ClientPlain(c.state)
    ensures Quiet(c.hs, C.Do(c, e).hs)
  {
    if Sending(c.state) {
      ClientSendIsQuiet(c, e);
    } else if Reading(c.state) {
      ClientReadIsQuiet(c, e);
    } else if HasMessage(c.hs) {
      ConsumeIsQuiet(c.hs);
    }
  }

  lemma ClientPlainPhase(c: C.Client, e: Choice)
    requires ClientPlain(c.state) && ClientPhase(c.state, c.hs.flags) != Unreachable
    ensures ClientPhase(C.Do(c, e).state, c.hs.flags) == ClientPhase(c.state, c.hs.flags)
  {}

  lemma ClientPlainKeepsOk(c: C.Client, e: Choice)
    requires ClientOk(c) && ClientPlain(c.state)
    ensures ClientOk(C.Do(c, e))
  {
    ClientPlainIsQuiet(c, e);
    QuietKeepsOk(ClientSide, c.hs, C.Do(c, e).hs);
    if c.state != C.Tls13 {
      ClientPlainPhase(c, e);
    }
  }

  lemma ClientVerifyKeepsOk(c: C.Client, e: Choice)
    requires ClientOk(c) && c.state == C.VerifyServerCertificate
    ensures ClientOk(C.Do(c, e))
  {
    MarkKeepsOk(ClientSide, c.hs, PeerVerified);
  }

  lemma ClientChangeKeepsOk(c: C.Client, e: Choice)
    requires ClientOk(c) && c.state == C.ProcessChangeCipherSpec
    ensures ClientOk(C.Do(c, e))
  {
    ChangesKeepOk(ClientSide, c.hs);
  }

  lemma ClientFinishedKeepsOk(c: C.Client, e: Choice)
    requires ClientOk(c) && c.state == C.ReadServerFinished
    ensures ClientOk(C.Do(c, e))
  {
    if HasMessage(c.hs) {
      ConsumeKeepsOk(ClientSide, c.hs);
    }
  }

  lemma ClientHelloKeepsOk(c: C.Client, e: Choice)
    requires ClientOk(c) && c.state == C.ReadServerHello
    ensures ClientOk(C.Do(c, e))
  {
    if HasMessage(c.hs) {
      ConsumeKeepsOk(ClientSide, c.hs);
    }
  }

  lemma ClientStepKeepsOk(c: C.Client, v: C.Event)
    requires ClientOk(c)
    ensures ClientOk(C.Step(c, v))
  {
    match v
    case Run(e) => ClientDoKeepsOk(c, e);
    case Arrive(r) => OpenKeepsOk(ClientSide, c.hs, c.wait, r);
    case Resume =>
  }

  lemma ClientDoKeepsOk(c: C.Client, e: Choice)
    requires ClientOk(c)
    ensures ClientOk(C.Do(c, e))
  {
    match c.state
    case ReadServerHello => ClientHelloKeepsOk(c, e);
    case VerifyServerCertificate => ClientVerifyKeepsOk(c, e);
    case SendClientFinished => ClientSendKeepsOk(c, e);
    case ProcessChangeCipherSpec => ClientChangeKeepsOk(c, e);
    case ReadServerFinished => ClientFinishedKeepsOk(c, e);
    case _ => ClientPlainKeepsOk(c, e);
  }

  lemma {:induction false} ClientRunKeepsOk(hasCertificate: bool, events: seq<C.Event>)
    ensures ClientOk(C.Execute(C.Start(hasCertificate), events))
  {
    if events == [] {
      assert BareLog([]) == [];
    } else {
      ClientRunKeepsOk(hasCertificate, events[..|events| - 1]);
      ClientStepKeepsOk(C.Execute(C.Start(hasCertificate), events[..|events| - 1]), events[|events| - 1]);
    }
  }

  // A client that is done, without TLS 1.3, did exactly this, whatever the
  // peer sent: its one Finished went out under the new write cipher, the one
  // Finished of the peer came in under the new read cipher and matched the
  // transcript, and in a full handshake with a certificate cipher the
  // certificate was verified before all that.
  lemma ClientDoneIsSafe(hasCertificate: bool, events: seq<C.Event>)
    ensures var c := C.Execute(C.Start(hasCertificate), events);
      c.state == C.Done ==>
        && BareLog(c.hs.log) == (
            if c.hs.flags.resumed then READ + WROTE
            else (if c.hs.flags.certAuth then [PeerVerified] else []) + WROTE + READ)
        && c.hs.readEpoch == c.hs.writeEpoch == 1
        && FinishedCover(ClientSide, c.hs)
  {
    hide C.Execute;
    ClientRunKeepsOk(hasCertificate, events);
    var c := C.Execute(C.Start(hasCertificate), events);
    assert c.state == C.Done ==> PastOf(c.hs) == ClientPast(Complete, c.hs.flags);
  }

  // After its Finished a client goes on only when all it added was flushed.
  lemma {:induction false} FinishedIsFlushed(hasCertificate: bool, events: seq<C.Event>)
    ensures var c := C.Execute(C.Start(hasCertificate), events);
      c.state == C.FinishFlight ==> c.wait == Flush || c.hs.flushed == |c.hs.sent|
  {
    if events != [] {
      FinishedIsFlushed(hasCertificate, events[..|events| - 1]);
      FinishedStaysFlushed(C.Execute(C.Start(hasCertificate), events[..|events| - 1]), events[|events| - 1]);
    }
  }

  lemma FinishedStaysFlushed(c: C.Client, v: C.Event)
    requires c.state == C.FinishFlight ==> c.wait == Flush || c.hs.flushed == |c.hs.sent|
    ensures var d := C.Step(c, v);
      d.state == C.FinishFlight ==> d.wait == Flush || d.hs.flushed == |d.hs.sent|
  {}

  // False Start: the client returns early exactly in a full handshake with an
  // ECDHE cipher where the rest of the conditions hold. By then it has
  // verified a certificate cipher's certificate and flushed its Finished,
  // and has read nothing under the new cipher.
  lemma EarlyReturnIsSafe(hasCertificate: bool, events: seq<C.Event>, e: Choice)
    requires C.Execute(C.Start(hasCertificate), events).wait == Go
    ensures var c := C.Execute(C.Start(hasCertificate), events);
      var d := C.Do(c, e);
      && (d.wait == EarlyReturn <==> c.state == C.FinishFlight && !c.hs.flags.resumed && c.hs.flags.ecdhe && e.ok && e.falseStart)
      && (d.wait == EarlyReturn ==>
          && BareLog(d.hs.log) == (if d.hs.flags.certAuth then [PeerVerified] else []) + WROTE
          && d.hs.readEpoch == 0 && d.hs.writeEpoch == 1
          && d.hs.flushed == |d.hs.sent|
          && C.Step(d, C.Resume) == d.(wait := Go))
  {
    hide C.Execute;
    ClientRunKeepsOk(hasCertificate, events);
    FinishedIsFlushed(hasCertificate, events);
    var c := C.Execute(C.Start(hasCertificate), events);
    assert c.state == C.FinishFlight && !c.hs.flags.resumed ==> PastOf(c.hs) == ClientPast(Wrote, c.hs.flags);
  }

  // ------------------------------------------------------------------
  // The server

  function ServerPhase(state: S.State, flags: Flags): Phase {
    match state
    case StartAccept | ReadClientHello | SelectCertificate | SelectParameters =>
      if flags == NO_FLAGS then Greeting else Unreachable
    case SendServerHello => Unverified
    case SendServerFinished => if flags.resumed then Unverified else ReadDone
    case ReadChangeCipherSpec | ProcessChangeCipherSpec => if flags.resumed then Wrote else Keyed
    case ReadNextProto | ReadChannelId | ReadClientFinished => if flags.resumed then WroteChanged else Changed
    case FinishServerHandshake | Done => Complete
    case _ => if flags.resumed then Unreachable else Unverified
  }

  // A client certificate is verified after it was read, and its key proved
  // after the key exchange.
  function ServerPast(state: S.State, flags: Flags, peer: bool): Past {
    var proved := if peer && !flags.resumed then [PeerVerified, SignatureVerified] else [];
    match ServerPhase(state, flags)
    case Greeting => Past([], 0, 0)
    case Unverified => Past(if peer && state in {S.ReadClientKeyExchange, S.ReadClientCertificateVerify} then [PeerVerified] else [], 0, 0)
    case Keyed => Past(proved, 0, 0)
    case Wrote => Past(WROTE, 0, 1)
    case WroteChanged => Past(WROTE + [ReadCipher], 1, 1)
    case Changed => Past(proved + [ReadCipher], 1, 0)
    case ReadDone => Past(proved + READ, 1, 0)
    case Complete => Past(if flags.resumed then WROTE + READ else proved + READ + WROTE, 1, 1)
    case Unreachable => Impossible
  }

  // Before its certificate was read, the client has none.
  predicate NoPeerYet(state: S.State) {
    state in {S.StartAccept, S.ReadClientHello, S.SelectCertificate, S.SelectParameters, S.SendServerHello,
              S.SendServerCertificate, S.SendServerKeyExchange, S.SendServerHelloDone, S.ReadClientCertificate}
  }

  ghost predicate ServerOk(s: S.Server) {
    && HsOk(ServerSide, s.hs)
    && (NoPeerYet(s.state) ==> !s.peerCertificate)
    && (s.state == S.Tls13 || PastOf(s.hs) == ServerPast(s.state, s.hs.flags, s.peerCertificate))
  }

  predicate ServerPlain(state: S.State) {
    state !in {S.SelectParameters, S.ReadClientCertificate, S.VerifyClientCertificate, S.ReadClientCertificateVerify,
               S.ProcessChangeCipherSpec, S.ReadClientFinished, S.SendServerFinished}
  }

  predicate ServerSending(state: S.State) {
    state in {S.SendServerHello, S.SendServerCertificate, S.SendServerKeyExchange, S.SendServerHelloDone}
  }

  lemma AddTwoIsQuiet(h: Hs, first: bool, m: Message, second: bool, m': Message)
    ensures Quiet(h, AddIf(second, AddIf(first, h, m), m'))
  {
    AddIsQuiet(h, m);
    AddIsQuiet(AddIf(first, h, m), m');
  }

  lemma ServerSendIsQuiet(s: S.Server, e: Choice)
    requires ServerSending(s.state)
    ensures Quiet(s.hs, S.Do(s, e).hs) && S.Do(s, e).peerCertificate == s.peerCertificate
  {
    var f := s.hs.flags;
    AddIsQuiet(s.hs, Message(ServerHello, Hello(f)));
    AddIsQuiet(s.hs, Opaque(e, ServerKeyExchange));
    AddTwoIsQuiet(s.hs, f.certAuth, Message(Certificate, Chain(true)), f.certAuth && f.status, Opaque(e, CertificateStatus));
    AddTwoIsQuiet(s.hs, s.hs.certRequest, Opaque(e, CertificateRequest), true, Message(ServerHelloDone, Blob(0)));
  }

  lemma ServerPlainIsQuiet(s: S.Server, e: Choice)
    requires ServerPlain(s.state)
    ensures Quiet(s.hs, S.Do(s, e).hs) && S.Do(s, e).peerCertificate == s.peerCertificate
  {
    if ServerSending(s.state) {
      ServerSendIsQuiet(s, e);
    } else if HasMessage(s.hs) {
      ConsumeIsQuiet(s.hs);
    }
  }

  lemma ServerPlainPast(s: S.Server, e: Choice)
    requires ServerPlain(s.state) && s.state != S.Tls13 && S.Do(s, e).state != S.Tls13
    requires ServerPhase(s.state, s.hs.flags) != Unreachable && (NoPeerYet(s.state) ==> !s.peerCertificate)
    ensures ServerPast(S.Do(s, e).state, s.hs.flags, s.peerCertificate) == ServerPast(s.state, s.hs.flags, s.peerCertificate)
    ensures NoPeerYet(S.Do(s, e).state) ==> !s.peerCertificate
  {}

  lemma ServerPlainKeepsOk(s: S.Server, e: Choice)
    requires ServerOk(s) && ServerPlain(s.state)
    ensures ServerOk(S.Do(s, e))
  {
    ServerPlainIsQuiet(s, e);
    QuietKeepsOk(ServerSide, s.hs, S.Do(s, e).hs);
    if s.state != S.Tls13 && S.Do(s, e).state != S.Tls13 {
      ServerPlainPast(s, e);
    }
  }

  lemma ServerReadsKeepOk(s: S.Server, e: Choice)
    requires ServerOk(s) && s.state in {S.SelectParameters, S.ReadClientCertificate}
    ensures ServerOk(S.Do(s, e))
  {
    if HasMessage(s.hs) {
      ConsumeKeepsOk(ServerSide, s.hs);
    }
  }

  lemma ServerVerifyKeepsOk(s: S.Server, e: Choice)
    requires ServerOk(s) && s.state == S.VerifyClientCertificate
    ensures ServerOk(S.Do(s, e))
  {
    MarkKeepsOk(ServerSide, s.hs, PeerVerified);
  }

  lemma ServerProofKeepsOk(s: S.Server, e: Choice)
    requires ServerOk(s) && s.state == S.ReadClientCertificateVerify
    ensures ServerOk(S.Do(s, e))
  {
    if HasMessage(s.hs) {
      ConsumeKeepsOk(ServerSide, s.hs);
      MarkKeepsOk(ServerSide, Consume(s.hs), SignatureVerified);
    }
  }

  lemma ServerChangeKeepsOk(s: S.Server, e: Choice)
    requires ServerOk(s) && s.state == S.ProcessChangeCipherSpec
    ensures ServerOk(S.Do(s, e))
  {
    ChangesKeepOk(ServerSide, s.hs);
  }

  lemma ServerFinishedKeepsOk(s: S.Server, e: Choice)
    requires ServerOk(s) && s.state == S.ReadClientFinished
    ensures ServerOk(S.Do(s, e))
  {
    if HasMessage(s.hs) {
      ConsumeKeepsOk(ServerSide, s.hs);
    }
  }

  lemma ServerSendKeepsOk(s: S.Server, e: Choice)
    requires ServerOk(s) && s.state == S.SendServerFinished
    ensures ServerOk(S.Do(s, e))
  {
    var m := Opaque(e, NewSessionTicket);
    AddKeepsOk(ServerSide, s.hs, m);
    WriteKeepsOk(ServerSide, AddIf(s.hs.flags.ticket, s.hs, m), false, m, false, m);
  }

  lemma ServerDoKeepsOk(s: S.Server, e: Choice)
    requires ServerOk(s)
    ensures ServerOk(S.Do(s, e))
  {
    match s.state
    case SelectParameters => ServerReadsKeepOk(s, e);
    case ReadClientCertificate => ServerReadsKeepOk(s, e);
    case VerifyClientCertificate => ServerVerifyKeepsOk(s, e);
    case ReadClientCertificateVerify => ServerProofKeepsOk(s, e);
    case ProcessChangeCipherSpec => ServerChangeKeepsOk(s, e);
    case ReadClientFinished => ServerFinishedKeepsOk(s, e);
    case SendServerFinished => ServerSendKeepsOk(s, e);
    case _ => ServerPlainKeepsOk(s, e);
  }

  lemma ServerStepKeepsOk(s: S.Server, v: S.Event)
    requires ServerOk(s)
    ensures ServerOk(S.Step(s, v))
  {
    match v
    case Run(e) => ServerDoKeepsOk(s, e);
    case Arrive(r) => OpenKeepsOk(ServerSide, s.hs, s.wait, r);
    case Resume =>
  }

  lemma {:induction false} ServerRunKeepsOk(config: S.Config, events: seq<S.Event>)
    ensures ServerOk(S.Execute(S.Start(config), events))
  {
    if events == [] {
      assert BareLog([]) == [];
    } else {
      ServerRunKeepsOk(config, events[..|events| - 1]);
      ServerStepKeepsOk(S.Execute(S.Start(config), events[..|events| - 1]), events[|events| - 1]);
    }
  }

  // The same for a server: and a client that sent a certificate had it
  // verified and proved that it has the key.
  lemma ServerDoneIsSafe(config: S.Config, events: seq<S.Event>)
    ensures var s := S.Execute(S.Start(config), events);
      s.state == S.Done ==>
        && BareLog(s.hs.log) == (
            if s.hs.flags.resumed then WROTE + READ
            else (if s.peerCertificate then [PeerVerified, SignatureVerified] else []) + READ + WROTE)
        && s.hs.readEpoch == s.hs.writeEpoch == 1
        && FinishedCover(ServerSide, s.hs)
  {
    hide S.Execute;
    ServerRunKeepsOk(config, events);
  }
}
