// The server's state machine for TLS 1.0 to 1.2 (handshake_server.cc).

module TlsServer {
  import opened TlsTypes

  datatype State =
    | StartAccept
    | ReadClientHello
    | SelectCertificate
    | Tls13
    | SelectParameters
    | SendServerHello
    | SendServerCertificate
    | SendServerKeyExchange
    | SendServerHelloDone
    | ReadClientCertificate
    | VerifyClientCertificate
    | ReadClientKeyExchange
    | ReadClientCertificateVerify
    | ReadChangeCipherSpec
    | ProcessChangeCipherSpec
    | ReadNextProto
    | ReadChannelId
    | ReadClientFinished
    | SendServerFinished
    | FinishServerHandshake
    | Done

  // What the server will settle on, whether it asks for (and insists on) a
  // client certificate, and whether it has a PSK identity hint.
  datatype Config = Config(flags: Flags, wantsCertificate: bool, mustHaveCertificate: bool, pskHint: bool)

  // peerCertificate: the client sent a certificate (peer_pubkey).
  datatype Server = Server(state: State, wait: Wait, hs: Hs, config: Config, peerCertificate: bool)

  function Start(config: Config): Server {
    Server(StartAccept, Go, FRESH, config, false)
  }

  function To(s: Server, state: State, wait: Wait, hs: Hs): Server {
    s.(state := state, wait := wait, hs := hs)
  }

  function Stay(s: Server, wait: Wait): Server {
    s.(wait := wait)
  }

  // A message of one kind is due.
  function Expect(s: Server, e: Choice, kind: Kind, next: State): Server {
    if !HasMessage(s.hs) then Stay(s, ReadMessage)
    else if s.hs.buffer[0].msg.kind != kind || !e.ok then Stay(s, Failed)
    else To(s, next, Go, Consume(s.hs))
  }

  // The ClientHello is looked at here and in the next two states, and
  // consumed in the last.
  function DoReadClientHello(s: Server, e: Choice): Server {
    if !HasMessage(s.hs) then Stay(s, ReadMessage)
    else if s.hs.buffer[0].msg.kind != ClientHello then Stay(s, Failed)
    else if e.retry then Stay(s, Paused)
    else if !e.ok then Stay(s, Failed)
    else To(s, SelectCertificate, Go, s.hs)
  }

  function DoSelectCertificate(s: Server, e: Choice): Server {
    if !HasMessage(s.hs) then Stay(s, ReadMessage)
    else if e.retry then Stay(s, Paused)
    else if !e.ok then Stay(s, Failed)
    else To(s, if s.config.flags.tls13 then Tls13 else SelectParameters, Go, s.hs)
  }

  // A certificate is asked for in full handshakes with a certificate cipher.
  function DoSelectParameters(s: Server, e: Choice): Server {
    if !HasMessage(s.hs) then Stay(s, ReadMessage)
    else if e.retry then Stay(s, Paused)
    else if !e.ok then Stay(s, Failed)
    else
      var flags := s.config.flags;
      var certRequest := s.config.wantsCertificate && !flags.resumed && flags.certAuth;
      To(s, SendServerHello, Go, Consume(s.hs).(flags := flags, certRequest := certRequest))
  }

  function DoSendServerHello(s: Server, e: Choice): Server {
    if !e.ok then Stay(s, Failed)
    else
      To(s, if s.hs.flags.resumed then SendServerFinished else SendServerCertificate, Go,
         Add(s.hs, Message(ServerHello, Hello(s.hs.flags))))
  }

  function DoSendServerCertificate(s: Server, e: Choice): Server {
    if !e.ok then Stay(s, Failed)
    else
      var f := s.hs.flags;
      var hs := AddIf(f.certAuth, s.hs, Message(Certificate, Chain(true)));
      var hs := AddIf(f.certAuth && f.status, hs, Opaque(e, CertificateStatus));
      To(s, SendServerKeyExchange, Go, hs)
  }

  // ServerKeyExchange parameters exist for ECDHE, and for PSK with a hint.
  predicate HasParameters(s: Server) {
    s.hs.flags.ecdhe || (!s.hs.flags.certAuth && s.config.pskHint)
  }

  function DoSendServerKeyExchange(s: Server, e: Choice): Server {
    if !HasParameters(s) then To(s, SendServerHelloDone, Go, s.hs)
    else if s.hs.flags.certAuth && e.retry then Stay(s, Paused)
    else if !e.ok then Stay(s, Failed)
    else To(s, SendServerHelloDone, Go, Add(s.hs, Opaque(e, ServerKeyExchange)))
  }

  function DoSendServerHelloDone(s: Server, e: Choice): Server {
    if !e.ok then Stay(s, Failed)
    else
      var hs := AddIf(s.hs.certRequest, s.hs, Opaque(e, CertificateRequest));
      To(s, ReadClientCertificate, Flush, Add(hs, Message(ServerHelloDone, Blob(0))))
  }

  function DoReadClientCertificate(s: Server, e: Choice): Server {
    if !s.hs.certRequest then To(s, VerifyClientCertificate, Go, s.hs)
    else if !HasMessage(s.hs) then Stay(s, ReadMessage)
    else
      var m := s.hs.buffer[0].msg;
      if m.kind != Certificate || !m.body.Chain? || !e.ok then Stay(s, Failed)
      else if !m.body.present && s.config.mustHaveCertificate then Stay(s, Failed)
      else To(s, VerifyClientCertificate, Go, Consume(s.hs)).(peerCertificate := m.body.present)
  }

  function DoVerifyClientCertificate(s: Server, e: Choice): Server {
    if !s.peerCertificate then To(s, ReadClientKeyExchange, Go, s.hs)
    else match e.verdict
      case VerifyInvalid => Stay(s, Failed)
      case VerifyRetry => Stay(s, Paused)
      case VerifyOk => To(s, ReadClientKeyExchange, Go, s.hs.(log := s.hs.log + [PeerVerified]))
  }

  // RSA decryption may be deferred; the message is then read again.
  function DoReadClientKeyExchange(s: Server, e: Choice): Server {
    if HasMessage(s.hs) && s.hs.buffer[0].msg.kind == ClientKeyExchange && e.retry then Stay(s, Paused)
    else Expect(s, e, ClientKeyExchange, ReadClientCertificateVerify)
  }

  function DoReadClientCertificateVerify(s: Server, e: Choice): Server {
    if !s.peerCertificate then To(s, ReadChangeCipherSpec, Go, s.hs)
    else
      var r := Expect(s, e, CertificateVerify, ReadChangeCipherSpec);
      if r.state == ReadChangeCipherSpec then r.(hs := r.hs.(log := r.hs.log + [SignatureVerified])) else r
  }

  function DoProcessChangeCipherSpec(s: Server, e: Choice): Server {
    if HasMessage(s.hs) || !e.ok then Stay(s, Failed) else To(s, ReadNextProto, Go, ChangeReadCipher(s.hs))
  }

  function DoReadNextProto(s: Server, e: Choice): Server {
    if !s.hs.flags.npn then To(s, ReadChannelId, Go, s.hs) else Expect(s, e, NextProto, ReadChannelId)
  }

  function DoReadChannelId(s: Server, e: Choice): Server {
    if !s.hs.flags.channelId then To(s, ReadClientFinished, Go, s.hs) else Expect(s, e, ChannelId, ReadClientFinished)
  }

  function DoReadClientFinished(s: Server, e: Choice): Server {
    if !HasMessage(s.hs) then Stay(s, ReadMessage)
    else if !FinishedOk(s.hs, ClientSide) || !e.ok then Stay(s, Failed)
    else To(s, if s.hs.flags.resumed then FinishServerHandshake else SendServerFinished, Go, ConsumeFinished(s.hs))
  }

  function DoSendServerFinished(s: Server, e: Choice): Server {
    if !e.ok then Stay(s, Failed)
    else
      var hs := AddIf(s.hs.flags.ticket, s.hs, Opaque(e, NewSessionTicket));
      var hs := SendFinished(ChangeWriteCipher(hs), ServerSide);
      To(s, if hs.flags.resumed then ReadChangeCipherSpec else FinishServerHandshake, Flush, hs)
  }

  function DoFinishServerHandshake(s: Server, e: Choice): Server {
    if !e.ok then Stay(s, Failed) else To(s, Done, Go, s.hs)
  }

  // The switch of ssl_server_handshake.
  function Do(s: Server, e: Choice): Server {
    match s.state
    case StartAccept => To(s, ReadClientHello, Go, s.hs)
    case ReadClientHello => DoReadClientHello(s, e)
    case SelectCertificate => DoSelectCertificate(s, e)
    case SelectParameters => DoSelectParameters(s, e)
    case SendServerHello => DoSendServerHello(s, e)
    case SendServerCertificate => DoSendServerCertificate(s, e)
    case SendServerKeyExchange => DoSendServerKeyExchange(s, e)
    case SendServerHelloDone => DoSendServerHelloDone(s, e)
    case ReadClientCertificate => DoReadClientCertificate(s, e)
    case VerifyClientCertificate => DoVerifyClientCertificate(s, e)
    case ReadClientKeyExchange => DoReadClientKeyExchange(s, e)
    case ReadClientCertificateVerify => DoReadClientCertificateVerify(s, e)
    case ReadChangeCipherSpec => To(s, ProcessChangeCipherSpec, ReadCcs, s.hs)
    case ProcessChangeCipherSpec => DoProcessChangeCipherSpec(s, e)
    case ReadNextProto => DoReadNextProto(s, e)
    case ReadChannelId => DoReadChannelId(s, e)
    case ReadClientFinished => DoReadClientFinished(s, e)
    case SendServerFinished => DoSendServerFinished(s, e)
    case FinishServerHandshake => DoFinishServerHandshake(s, e)
    case Tls13 => s
    case Done => s
  }

  // ------------------------------------------------------------------
  // Runs against any peer

  datatype Event = Run(e: Choice) | Resume | Arrive(r: Record)

  function Step(s: Server, v: Event): Server {
    match v
    case Run(e) => if s.wait == Go then Do(s, e) else s
    case Resume =>
      if s.wait == Flush then s.(wait := Go, hs := s.hs.(flushed := |s.hs.sent|))
      else if s.wait == Paused || s.wait == EarlyReturn then s.(wait := Go)
      else s
    case Arrive(r) =>
      if s.wait == ReadMessage || s.wait == ReadCcs then
        var o := Open(s.hs, s.wait, r);
        s.(wait := o.wait, hs := o.hs)
      else s
  }

  function Execute(s: Server, events: seq<Event>): Server {
    if events == [] then s else Step(Execute(s, events[..|events| - 1]), events[|events| - 1])
  }
}
