// The client's state machine for TLS 1.0 to 1.2 (handshake_client.cc).

module TlsClient {
  import opened TlsTypes

  datatype State =
    | StartConnect
    | EnterEarlyData
    | ReadServerHello
    | Tls13
    | ReadServerCertificate
    | ReadCertificateStatus
    | VerifyServerCertificate
    | ReadServerKeyExchange
    | ReadCertificateRequest
    | ReadServerHelloDone
    | SendClientCertificate
    | SendClientKeyExchange
    | SendClientCertificateVerify
    | SendClientFinished
    | FinishFlight
    | ReadSessionTicket
    | ProcessChangeCipherSpec
    | ReadServerFinished
    | FinishClientHandshake
    | Done

  datatype Client = Client(state: State, wait: Wait, hs: Hs, hasCertificate: bool)

  function Start(hasCertificate: bool): Client {
    Client(StartConnect, Go, FRESH, hasCertificate)
  }

  function To(c: Client, state: State, wait: Wait, hs: Hs): Client {
    c.(state := state, wait := wait, hs := hs)
  }

  function Stay(c: Client, wait: Wait): Client {
    c.(wait := wait)
  }

  // A message of one kind is due: wait for it, reject any other, and consume
  // it if all that is opaque about it is in order.
  function Expect(c: Client, e: Choice, kind: Kind, next: State, wait: Wait): Client {
    if !HasMessage(c.hs) then Stay(c, ReadMessage)
    else if c.hs.buffer[0].msg.kind != kind || !e.ok then Stay(c, Failed)
    else To(c, next, wait, Consume(c.hs))
  }

  function DoStartConnect(c: Client, e: Choice): Client {
    if !e.ok then Stay(c, Failed)
    else To(c, EnterEarlyData, Flush, Add(c.hs, Opaque(e, ClientHello)))
  }

  function DoReadServerHello(c: Client, e: Choice): Client {
    if !HasMessage(c.hs) then Stay(c, ReadMessage)
    else
      var m := c.hs.buffer[0].msg;
      if m.kind != ServerHello || !m.body.Hello? || !e.ok then Stay(c, Failed)
      else if m.body.flags.tls13 then To(c, Tls13, Go, c.hs)
      else
        var hs := Consume(c.hs).(flags := m.body.flags);
        To(c, if m.body.flags.resumed then ReadSessionTicket else ReadServerCertificate, Go, hs)
  }

  function DoReadServerCertificate(c: Client, e: Choice): Client {
    if !c.hs.flags.certAuth then To(c, ReadCertificateStatus, Go, c.hs)
    else if HasMessage(c.hs) && c.hs.buffer[0].msg.body != Chain(true) then Stay(c, Failed)
    else Expect(c, e, Certificate, ReadCertificateStatus, Go)
  }

  // The server may announce a CertificateStatus and then not send it.
  function DoReadCertificateStatus(c: Client, e: Choice): Client {
    if !c.hs.flags.status then To(c, VerifyServerCertificate, Go, c.hs)
    else if HasMessage(c.hs) && c.hs.buffer[0].msg.kind != CertificateStatus then To(c, VerifyServerCertificate, Go, c.hs)
    else Expect(c, e, CertificateStatus, VerifyServerCertificate, Go)
  }

  function DoVerifyServerCertificate(c: Client, e: Choice): Client {
    if !c.hs.flags.certAuth then To(c, ReadServerKeyExchange, Go, c.hs)
    else match e.verdict
      case VerifyInvalid => Stay(c, Failed)
      case VerifyRetry => Stay(c, Paused)
      case VerifyOk => To(c, ReadServerKeyExchange, Go, c.hs.(log := c.hs.log + [PeerVerified]))
  }

  // ServerKeyExchange is due for ECDHE, optional for plain PSK and an error
  // for RSA key transport.
  function DoReadServerKeyExchange(c: Client, e: Choice): Client {
    if HasMessage(c.hs) && c.hs.buffer[0].msg.kind != ServerKeyExchange then
      if c.hs.flags.ecdhe then Stay(c, Failed) else To(c, ReadCertificateRequest, Go, c.hs)
    else if HasMessage(c.hs) && c.hs.flags.certAuth && !c.hs.flags.ecdhe then Stay(c, Failed)
    else Expect(c, e, ServerKeyExchange, ReadCertificateRequest, Go)
  }

  function DoReadCertificateRequest(c: Client, e: Choice): Client {
    if !c.hs.flags.certAuth then To(c, ReadServerHelloDone, Go, c.hs)
    else if HasMessage(c.hs) && c.hs.buffer[0].msg.kind == ServerHelloDone then To(c, ReadServerHelloDone, Go, c.hs)
    else
      var r := Expect(c, e, CertificateRequest, ReadServerHelloDone, Go);
      if r.state == ReadServerHelloDone then r.(hs := r.hs.(certRequest := true)) else r
  }

  function DoSendClientCertificate(c: Client, e: Choice): Client {
    if !c.hs.certRequest then To(c, SendClientKeyExchange, Go, c.hs)
    else if e.retry then Stay(c, Paused)
    else if !e.ok then Stay(c, Failed)
    else To(c, SendClientKeyExchange, Go, Add(c.hs, Message(Certificate, Chain(c.hasCertificate))))
  }

  function DoSendClientKeyExchange(c: Client, e: Choice): Client {
    if !e.ok then Stay(c, Failed)
    else To(c, SendClientCertificateVerify, Go, Add(c.hs, Opaque(e, ClientKeyExchange)))
  }

  function DoSendClientCertificateVerify(c: Client, e: Choice): Client {
    if !c.hs.certRequest || !c.hasCertificate then To(c, SendClientFinished, Go, c.hs)
    else if e.retry then Stay(c, Paused)
    else if !e.ok then Stay(c, Failed)
    else To(c, SendClientFinished, Go, Add(c.hs, Opaque(e, CertificateVerify)))
  }

  function DoSendClientFinished(c: Client, e: Choice): Client {
    if c.hs.flags.channelId && e.retry then Stay(c, Paused)
    else if !e.ok then Stay(c, Failed)
    else
      var hs := ChangeWriteCipher(c.hs);
      var hs := AddIf(hs.flags.npn, hs, Opaque(e, NextProto));
      var hs := AddIf(hs.flags.channelId, hs, Opaque(e, ChannelId));
      To(c, FinishFlight, Flush, SendFinished(hs, ClientSide))
  }

  function DoFinishFlight(c: Client, e: Choice): Client {
    if c.hs.flags.resumed then To(c, FinishClientHandshake, Go, c.hs)
    else if !e.ok then Stay(c, Failed)
    else To(c, ReadSessionTicket, if c.hs.flags.ecdhe && e.falseStart then EarlyReturn else Go, c.hs)
  }

  function DoReadSessionTicket(c: Client, e: Choice): Client {
    if !c.hs.flags.ticket then To(c, ProcessChangeCipherSpec, ReadCcs, c.hs)
    else Expect(c, e, NewSessionTicket, ProcessChangeCipherSpec, ReadCcs)
  }

  function DoProcessChangeCipherSpec(c: Client, e: Choice): Client {
    if HasMessage(c.hs) || !e.ok then Stay(c, Failed) else To(c, ReadServerFinished, Go, ChangeReadCipher(c.hs))
  }

  function DoReadServerFinished(c: Client, e: Choice): Client {
    if !HasMessage(c.hs) then Stay(c, ReadMessage)
    else if !FinishedOk(c.hs, ServerSide) || !e.ok then Stay(c, Failed)
    else To(c, if c.hs.flags.resumed then SendClientFinished else FinishClientHandshake, Go, ConsumeFinished(c.hs))
  }

  function DoFinishClientHandshake(c: Client, e: Choice): Client {
    if !e.ok then Stay(c, Failed) else To(c, Done, Go, c.hs)
  }

  // The switch of ssl_client_handshake. TLS 1.3 is not part of this model.
  function Do(c: Client, e: Choice): Client {
    match c.state
    case StartConnect => DoStartConnect(c, e)
    case EnterEarlyData => To(c, ReadServerHello, Go, c.hs)
    case ReadServerHello => DoReadServerHello(c, e)
    case ReadServerCertificate => DoReadServerCertificate(c, e)
    case ReadCertificateStatus => DoReadCertificateStatus(c, e)
    case VerifyServerCertificate => DoVerifyServerCertificate(c, e)
    case ReadServerKeyExchange => DoReadServerKeyExchange(c, e)
    case ReadCertificateRequest => DoReadCertificateRequest(c, e)
    case ReadServerHelloDone => Expect(c, e, ServerHelloDone, SendClientCertificate, Go)
    case SendClientCertificate => DoSendClientCertificate(c, e)
    case SendClientKeyExchange => DoSendClientKeyExchange(c, e)
    case SendClientCertificateVerify => DoSendClientCertificateVerify(c, e)
    case SendClientFinished => DoSendClientFinished(c, e)
    case FinishFlight => DoFinishFlight(c, e)
    case ReadSessionTicket => DoReadSessionTicket(c, e)
    case ProcessChangeCipherSpec => DoProcessChangeCipherSpec(c, e)
    case ReadServerFinished => DoReadServerFinished(c, e)
    case FinishClientHandshake => DoFinishClientHandshake(c, e)
    case Tls13 => c
    case Done => c
  }

  // ------------------------------------------------------------------
  // Runs against any peer

  // One thing that may happen: a state function runs, what was waited for is
  // there, or a record arrives.
  datatype Event = Run(e: Choice) | Resume | Arrive(r: Record)

  function Step(c: Client, v: Event): Client {
    match v
    case Run(e) => if c.wait == Go then Do(c, e) else c
    case Resume =>
      if c.wait == Flush then c.(wait := Go, hs := c.hs.(flushed := |c.hs.sent|))
      else if c.wait == Paused || c.wait == EarlyReturn then c.(wait := Go)
      else c
    case Arrive(r) =>
      if c.wait == ReadMessage || c.wait == ReadCcs then
        var o := Open(c.hs, c.wait, r);
        c.(wait := o.wait, hs := o.hs)
      else c
  }

  function Execute(c: Client, events: seq<Event>): Client {
    if events == [] then c else Step(Execute(c, events[..|events| - 1]), events[|events| - 1])
  }
}
