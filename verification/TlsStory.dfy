// Which messages the transcript of a handshake that is done consists of,
// whatever the peer sends: the flows of section 7.3 of RFC 5246, and no other.

module TlsStory {
  import opened Bytes
  import opened TlsTypes
  import C = TlsClient
  import S = TlsServer
  import opened TlsSafety

  // A message by its kind, and of a Certificate whether it has a chain.
  datatype Token = Token(kind: Kind, present: bool)

  function TokenOf(m: Message): Token {
    Token(m.kind, m.kind == Certificate && m.body == Chain(true))
  }

  function Story(messages: seq<Message>): (r: seq<Token>)
    ensures |r| == |messages| && forall i :: 0 <= i < |messages| ==> r[i] == TokenOf(messages[i])
  {
    seq(|messages|, i requires 0 <= i < |messages| => TokenOf(messages[i]))
  }

  // What the flow depends on: what the hellos settled, and which of the
  // optional messages there are.
  datatype Course = Course(flags: Flags, status: bool, parameters: bool, request: bool, certificate: bool)

  function If(c: bool, kind: Kind): seq<Token> {
    if c then [Token(kind, false)] else []
  }

  // The n-th message, if it is sent.
  function Stage(k: Course, n: nat): seq<Token> {
    var f := k.flags;
    if f.resumed then
      match n
      case 0 => If(true, ClientHello)
      case 1 => If(true, ServerHello)
      case 2 => If(f.ticket, NewSessionTicket)
      case 3 => If(true, Finished)
      case 4 => If(f.npn, NextProto)
      case 5 => If(f.channelId, ChannelId)
      case 6 => If(true, Finished)
      case _ => []
    else
      match n
      case 0 => If(true, ClientHello)
      case 1 => If(true, ServerHello)
      case 2 => if f.certAuth then [Token(Certificate, true)] else []
      case 3 => If(k.status, CertificateStatus)
      case 4 => If(k.parameters, ServerKeyExchange)
      case 5 => If(k.request, CertificateRequest)
      case 6 => If(true, ServerHelloDone)
      case 7 => if k.request then [Token(Certificate, k.certificate)] else []
      case 8 => If(true, ClientKeyExchange)
      case 9 => If(k.request && k.certificate, CertificateVerify)
      case 10 => If(f.npn, NextProto)
      case 11 => If(f.channelId, ChannelId)
      case 12 => If(true, Finished)
      case 13 => If(f.ticket, NewSessionTicket)
      case 14 => If(true, Finished)
      case _ => []
  }

  function Flow(k: Course, n: nat): seq<Token> {
    if n == 0 then [] else Flow(k, n - 1) + Stage(k, n - 1)
  }

  function Whole(k: Course): seq<Token> {
    Flow(k, if k.flags.resumed then 7 else 15)
  }

  lemma {:induction false} SameFlow(k: Course, k': Course, n: nat)
    requires forall i: nat :: i < n ==> Stage(k, i) == Stage(k', i)
    ensures Flow(k, n) == Flow(k', n)
  {
    if n > 0 {
      SameFlow(k, k', n - 1);
    }
  }

  lemma OneMore(before: seq<Message>, m: Message, k: Course, n: nat)
    requires Story(before) == Flow(k, n) && Stage(k, n) == [TokenOf(m)]
    ensures Story(before + [m]) == Flow(k, n + 1)
  {
    hide Stage, TokenOf;
    assert Story(before + [m]) == Story(before) + [TokenOf(m)];
  }

  lemma NoMore(k: Course, n: nat)
    requires Stage(k, n) == []
    ensures Flow(k, n + 1) == Flow(k, n)
  {
    hide Stage;
    assert Flow(k, n) + [] == Flow(k, n);
  }

  lemma MaybeMore(before: Hs, c: bool, m: Message, k: Course, n: nat)
    requires Story(before.transcript) == Flow(k, n) && Stage(k, n) == if c then [TokenOf(m)] else []
    ensures Story(AddIf(c, before, m).transcript) == Flow(k, n + 1)
  {
    if c {
      OneMore(before.transcript, m, k, n);
    } else {
      NoMore(k, n);
    }
  }

  // The stages of a full handshake, and of either kind from the first
  // ChangeCipherSpec on.
  lemma FullStages(k: Course)
    requires !k.flags.resumed
    ensures Stage(k, 2) == if k.flags.certAuth then [Token(Certificate, true)] else []
    ensures Stage(k, 3) == If(k.status, CertificateStatus) && Stage(k, 4) == If(k.parameters, ServerKeyExchange)
    ensures Stage(k, 5) == If(k.request, CertificateRequest) && Stage(k, 6) == If(true, ServerHelloDone)
    ensures Stage(k, 7) == if k.request then [Token(Certificate, k.certificate)] else []
    ensures Stage(k, 8) == If(true, ClientKeyExchange) && Stage(k, 9) == If(k.request && k.certificate, CertificateVerify)
  {}

  lemma LastStages(k: Course)
    ensures Stage(k, if k.flags.resumed then 2 else 13) == If(k.flags.ticket, NewSessionTicket)
    ensures Stage(k, if k.flags.resumed then 3 else 14) == If(true, Finished)
    ensures Stage(k, if k.flags.resumed then 4 else 10) == If(k.flags.npn, NextProto)
    ensures Stage(k, if k.flags.resumed then 5 else 11) == If(k.flags.channelId, ChannelId)
    ensures Stage(k, if k.flags.resumed then 6 else 12) == If(true, Finished)
  {}

  // ------------------------------------------------------------------
  // The client

  function ClientCourse(c: C.Client, status: bool, parameters: bool): Course {
    Course(c.hs.flags, status, parameters, c.hs.certRequest, c.hasCertificate)
  }

  // How many messages lie behind a state.
  function ClientAt(state: C.State, resumed: bool): Option<nat> {
    if resumed then
      match state
      case ReadSessionTicket => Some(2)
      case ProcessChangeCipherSpec | ReadServerFinished => Some(3)
      case SendClientFinished => Some(4)
      case FinishFlight | FinishClientHandshake | Done => Some(7)
      case _ => None
    else
      match state
      case StartConnect => Some(0)
      case EnterEarlyData | ReadServerHello => Some(1)
      case ReadServerCertificate => Some(2)
      case ReadCertificateStatus => Some(3)
      case VerifyServerCertificate | ReadServerKeyExchange => Some(4)
      case ReadCertificateRequest => Some(5)
      case ReadServerHelloDone => Some(6)
      case SendClientCertificate => Some(7)
      case SendClientKeyExchange => Some(8)
      case SendClientCertificateVerify => Some(9)
      case SendClientFinished => Some(10)
      case FinishFlight | ReadSessionTicket => Some(13)
      case ProcessChangeCipherSpec | ReadServerFinished => Some(14)
      case FinishClientHandshake | Done => Some(15)
      case Tls13 => None
  }

  // The transcript is that of a course, as far as the state has come.
  ghost predicate ClientTold(c: C.Client, status: bool, parameters: bool) {
    c.state == C.Tls13 ||
    var f, at := c.hs.flags, ClientAt(c.state, c.hs.flags.resumed);
    && at.Some? && Story(c.hs.transcript) == Flow(ClientCourse(c, status, parameters), at.value)
    && (at.value <= 1 ==> f == NO_FLAGS)
    && (!f.resumed && at.value <= 5 ==> !c.hs.certRequest)
    && (!f.resumed && at.value > 3 && status ==> f.status)
    && (!f.resumed && at.value > 4 && f.ecdhe ==> parameters)
    && (!f.resumed && at.value > 4 && f.certAuth && !f.ecdhe ==> !parameters)
  }

  // A machine that stands where it stood.
  lemma ClientKeepsTold(c: C.Client, d: C.Client, status: bool, parameters: bool)
    requires ClientTold(c, status, parameters)
    requires ClientAt(d.state, d.hs.flags.resumed) == ClientAt(c.state, c.hs.flags.resumed) && d.hasCertificate == c.hasCertificate
    requires d.hs.transcript == c.hs.transcript && d.hs.flags == c.hs.flags && d.hs.certRequest == c.hs.certRequest
    requires d.state == C.Tls13 || c.state != C.Tls13
    ensures ClientTold(d, status, parameters)
  {
    hide Flow, Story, ClientAt;
  }

  lemma ClientHelloTells(c: C.Client, e: Choice, status: bool, parameters: bool)
    requires ClientTold(c, status, parameters) && c.state in {C.StartConnect, C.EnterEarlyData, C.ReadServerHello}
    ensures ClientTold(C.Do(c, e), status, parameters)
  {
    hide Flow, Story;
    var d := C.Do(c, e);
    var k, k' := ClientCourse(c, status, parameters), ClientCourse(d, status, parameters);
    if c.state == C.StartConnect {
      OneMore(c.hs.transcript, Opaque(e, ClientHello), k, 0);
    } else if c.state == C.ReadServerHello && HasMessage(c.hs) && d.state != c.state && d.state != C.Tls13 {
      SameFlow(k, k', 1);
      OneMore(c.hs.transcript, c.hs.buffer[0].msg, k', 1);
    }
  }

  // A message that is read, or skipped.
  lemma ClientReadTells(c: C.Client, e: Choice, status: bool, parameters: bool)
    requires ClientTold(c, status, parameters)
    requires c.state in {C.ReadServerCertificate, C.VerifyServerCertificate, C.ReadServerHelloDone}
    ensures ClientTold(C.Do(c, e), status, parameters)
  {
    hide Flow, Story, Stage;
    var k, d := ClientCourse(c, status, parameters), C.Do(c, e);
    FullStages(k);
    if d.state == c.state {
      ClientKeepsTold(c, d, status, parameters);
    } else if c.state == C.ReadServerCertificate && !c.hs.flags.certAuth {
      NoMore(k, 2);
    } else if c.state == C.ReadServerCertificate {
      OneMore(c.hs.transcript, c.hs.buffer[0].msg, k, 2);
    } else if c.state == C.ReadServerHelloDone {
      OneMore(c.hs.transcript, c.hs.buffer[0].msg, k, 6);
    }
  }

  lemma MaybeRead(c: C.Client, d: C.Client, k: Course, n: nat)
    requires Story(c.hs.transcript) == Flow(k, n) && (d.hs == c.hs || (HasMessage(c.hs) && d.hs == Consume(c.hs)))
    requires Stage(k, n) == if d.hs == c.hs then [] else [TokenOf(c.hs.buffer[0].msg)]
    ensures Story(d.hs.transcript) == Flow(k, n + 1)
  {
    hide Flow, Story, Stage;
    if d.hs == c.hs {
      NoMore(k, n);
    } else {
      OneMore(c.hs.transcript, c.hs.buffer[0].msg, k, n);
    }
  }

  lemma ClientStatusTells(c: C.Client, e: Choice, status: bool, parameters: bool) returns (status': bool)
    requires ClientTold(c, status, parameters) && c.state == C.ReadCertificateStatus
    ensures ClientTold(C.DoReadCertificateStatus(c, e), status', parameters)
  {
    hide Flow, Story;
    var d := C.DoReadCertificateStatus(c, e);
    status' := status;
    if d.state == c.state {
      ClientKeepsTold(c, d, status, parameters);
    } else {
      status' := d.hs != c.hs;
      var k, k' := ClientCourse(c, status, parameters), ClientCourse(c, status', parameters);
      SameFlow(k, k', 3);
      MaybeRead(c, d, k', 3);
    }
  }

  lemma ClientParametersTell(c: C.Client, e: Choice, status: bool, parameters: bool) returns (parameters': bool)
    requires ClientTold(c, status, parameters) && c.state == C.ReadServerKeyExchange
    ensures ClientTold(C.DoReadServerKeyExchange(c, e), status, parameters')
  {
    hide Flow, Story;
    var d := C.DoReadServerKeyExchange(c, e);
    parameters' := parameters;
    if d.state == c.state {
      ClientKeepsTold(c, d, status, parameters);
    } else {
      parameters' := d.hs != c.hs;
      var k, k' := ClientCourse(c, status, parameters), ClientCourse(c, status, parameters');
      SameFlow(k, k', 4);
      MaybeRead(c, d, k', 4);
    }
  }

  lemma ClientRequestTells(c: C.Client, e: Choice, status: bool, parameters: bool)
    requires ClientTold(c, status, parameters) && c.state == C.ReadCertificateRequest
    ensures ClientTold(C.Do(c, e), status, parameters)
  {
    hide Flow, Story;
    var d := C.Do(c, e);
    var k, k' := ClientCourse(c, status, parameters), ClientCourse(d, status, parameters);
    if d.state != c.state {
      SameFlow(k, k', 5);
      if d.hs.certRequest {
        OneMore(c.hs.transcript, c.hs.buffer[0].msg, k', 5);
      } else {
        NoMore(k', 5);
      }
    }
  }

  // A message that is sent, or left out.
  lemma ClientSendTells(c: C.Client, d: C.Client, sends: bool, m: Message, status: bool, parameters: bool)
    requires ClientTold(c, status, parameters) && !c.hs.flags.resumed
    requires c.state in {C.SendClientCertificate, C.SendClientKeyExchange, C.SendClientCertificateVerify}
    requires ClientAt(d.state, false) == Some(ClientAt(c.state, false).value + 1) && d.hasCertificate == c.hasCertificate
    requires d.hs == AddIf(sends, c.hs, m)
    requires Stage(ClientCourse(c, status, parameters), ClientAt(c.state, false).value) == if sends then [TokenOf(m)] else []
    ensures ClientTold(d, status, parameters)
  {
    hide Flow, Story, Stage;
    MaybeMore(c.hs, sends, m, ClientCourse(c, status, parameters), ClientAt(c.state, false).value);
  }

  lemma ClientCertificateTells(c: C.Client, e: Choice, status: bool, parameters: bool)
    requires ClientTold(c, status, parameters) && c.state == C.SendClientCertificate
    ensures ClientTold(C.DoSendClientCertificate(c, e), status, parameters)
  {
    hide Flow, Story, Stage;
    var d, m := C.DoSendClientCertificate(c, e), Message(Certificate, Chain(c.hasCertificate));
    FullStages(ClientCourse(c, status, parameters));
    if d.state == c.state {
      ClientKeepsTold(c, d, status, parameters);
    } else {
      ClientSendTells(c, d, c.hs.certRequest, m, status, parameters);
    }
  }

  lemma ClientKeyTells(c: C.Client, e: Choice, status: bool, parameters: bool)
    requires ClientTold(c, status, parameters) && c.state == C.SendClientKeyExchange
    ensures ClientTold(C.DoSendClientKeyExchange(c, e), status, parameters)
  {
    hide Flow, Story, Stage;
    var d := C.DoSendClientKeyExchange(c, e);
    FullStages(ClientCourse(c, status, parameters));
    if d.state == c.state {
      ClientKeepsTold(c, d, status, parameters);
    } else {
      ClientSendTells(c, d, true, Opaque(e, ClientKeyExchange), status, parameters);
    }
  }

  lemma ClientProofTells(c: C.Client, e: Choice, status: bool, parameters: bool)
    requires ClientTold(c, status, parameters) && c.state == C.SendClientCertificateVerify
    ensures ClientTold(C.DoSendClientCertificateVerify(c, e), status, parameters)
  {
    hide Flow, Story, Stage;
    var d := C.DoSendClientCertificateVerify(c, e);
    FullStages(ClientCourse(c, status, parameters));
    if d.state == c.state {
      ClientKeepsTold(c, d, status, parameters);
    } else {
      ClientSendTells(c, d, c.hs.certRequest && c.hasCertificate, Opaque(e, CertificateVerify), status, parameters);
    }
  }

  // NextProto, ChannelId and Finished in a row.
  lemma ThreeMore(h: Hs, a: Message, b: Message, side: Side, k: Course, n: nat)
    requires Story(h.transcript) == Flow(k, n) && a.kind == NextProto && b.kind == ChannelId
    requires k.flags == h.flags && n == if k.flags.resumed then 4 else 10
    ensures Story(SendFinished(AddIf(h.flags.channelId, AddIf(h.flags.npn, h, a), b), side).transcript) == Flow(k, n + 3)
  {
    hide Flow, Story, Stage;
    LastStages(k);
    var h' := AddIf(h.flags.npn, h, a);
    var h'' := AddIf(h.flags.channelId, h', b);
    MaybeMore(h, h.flags.npn, a, k, n);
    MaybeMore(h', h.flags.channelId, b, k, n + 1);
    OneMore(h''.transcript, Message(Finished, Verify(side, h''.transcript)), k, n + 2);
  }

  lemma ClientFinishedTells(c: C.Client, e: Choice, status: bool, parameters: bool)
    requires ClientTold(c, status, parameters) && c.state == C.SendClientFinished
    ensures ClientTold(C.DoSendClientFinished(c, e), status, parameters)
  {
    hide Flow, Story, Stage, SendFinished;
    var k := ClientCourse(c, status, parameters);
    ThreeMore(ChangeWriteCipher(c.hs), Opaque(e, NextProto), Opaque(e, ChannelId), ClientSide, k, ClientAt(c.state, c.hs.flags.resumed).value);
    AddingKeeps(ChangeWriteCipher(c.hs), c.hs.flags.npn, Opaque(e, NextProto), c.hs.flags.channelId, Opaque(e, ChannelId), ClientSide);
  }

  lemma AddingKeeps(h: Hs, first: bool, m: Message, second: bool, m': Message, side: Side)
    ensures var h' := SendFinished(AddIf(second, AddIf(first, h, m), m'), side);
      h'.flags == h.flags && h'.certRequest == h.certRequest
  {}

  lemma ClientTicketTells(c: C.Client, e: Choice, status: bool, parameters: bool)
    requires ClientTold(c, status, parameters) && c.state == C.ReadSessionTicket
    ensures ClientTold(C.DoReadSessionTicket(c, e), status, parameters)
  {
    hide Flow, Story, Stage;
    var k, d := ClientCourse(c, status, parameters), C.DoReadSessionTicket(c, e);
    LastStages(k);
    if d.state == c.state {
      ClientKeepsTold(c, d, status, parameters);
    } else {
      MaybeRead(c, d, k, ClientAt(c.state, c.hs.flags.resumed).value);
    }
  }

  lemma ClientEndTells(c: C.Client, e: Choice, status: bool, parameters: bool)
    requires ClientTold(c, status, parameters) && c.state == C.ReadServerFinished
    ensures ClientTold(C.DoReadServerFinished(c, e), status, parameters)
  {
    hide Flow, Story, Stage;
    var k, d := ClientCourse(c, status, parameters), C.DoReadServerFinished(c, e);
    LastStages(k);
    if d.state == c.state {
      ClientKeepsTold(c, d, status, parameters);
    } else {
      OneMore(c.hs.transcript, c.hs.buffer[0].msg, k, ClientAt(c.state, c.hs.flags.resumed).value);
    }
  }

  lemma ClientLastTells(c: C.Client, e: Choice, status: bool, parameters: bool)
    requires ClientTold(c, status, parameters)
    requires c.state in {C.FinishFlight, C.ProcessChangeCipherSpec, C.FinishClientHandshake, C.Done}
    ensures ClientTold(C.Do(c, e), status, parameters)
  {
    hide Flow, Story, Stage;
    ClientKeepsTold(c, C.Do(c, e), status, parameters);
  }

  lemma Tls13Stays(c: C.Client, e: Choice)
    requires c.state == C.Tls13
    ensures C.Do(c, e) == c
  {}

  lemma ClientWaits(c: C.Client, v: C.Event)
    requires !v.Run? || c.wait != Go
    ensures var d := C.Step(c, v);
      && d.state == c.state && d.hasCertificate == c.hasCertificate
      && d.hs.transcript == c.hs.transcript && d.hs.flags == c.hs.flags && d.hs.certRequest == c.hs.certRequest
  {}

  lemma ClientKeepsCertificate(c: C.Client, v: C.Event)
    ensures C.Step(c, v).hasCertificate == c.hasCertificate
  {}

  lemma ClientStepTells(c: C.Client, v: C.Event, status: bool, parameters: bool) returns (status': bool, parameters': bool)
    requires ClientTold(c, status, parameters)
    ensures ClientTold(C.Step(c, v), status', parameters')
  {
    hide ClientTold, Story, Flow;
    status', parameters' := status, parameters;
    if v.Run? && c.wait == Go {
      match c.state
      case StartConnect | EnterEarlyData | ReadServerHello => ClientHelloTells(c, v.e, status, parameters);
      case ReadServerCertificate | VerifyServerCertificate | ReadServerHelloDone => ClientReadTells(c, v.e, status, parameters);
      case ReadCertificateStatus => status' := ClientStatusTells(c, v.e, status, parameters);
      case ReadServerKeyExchange => parameters' := ClientParametersTell(c, v.e, status, parameters);
      case ReadCertificateRequest => ClientRequestTells(c, v.e, status, parameters);
      case SendClientCertificate => ClientCertificateTells(c, v.e, status, parameters);
      case SendClientKeyExchange => ClientKeyTells(c, v.e, status, parameters);
      case SendClientCertificateVerify => ClientProofTells(c, v.e, status, parameters);
      case SendClientFinished => ClientFinishedTells(c, v.e, status, parameters);
      case ReadSessionTicket => ClientTicketTells(c, v.e, status, parameters);
      case ReadServerFinished => ClientEndTells(c, v.e, status, parameters);
      case Tls13 => Tls13Stays(c, v.e);
      case _ => ClientLastTells(c, v.e, status, parameters);
    } else {
      ClientWaits(c, v);
      ClientKeepsTold(c, C.Step(c, v), status, parameters);
    }
  }

  lemma ClientStartTells(hasCertificate: bool)
    ensures ClientTold(C.Start(hasCertificate), false, false)
  {
    assert Story([]) == [];
  }

  lemma {:induction false} ClientRunTells(hasCertificate: bool, events: seq<C.Event>) returns (status: bool, parameters: bool)
    ensures ClientTold(C.Execute(C.Start(hasCertificate), events), status, parameters)
    ensures C.Execute(C.Start(hasCertificate), events).hasCertificate == hasCertificate
  {
    hide ClientTold, C.Step, Flow;
    status, parameters := false, false;
    if events == [] {
      ClientStartTells(hasCertificate);
    } else {
      var before := events[..|events| - 1];
      status, parameters := ClientRunTells(hasCertificate, before);
      ClientKeepsCertificate(C.Execute(C.Start(hasCertificate), before), events[|events| - 1]);
      status, parameters := ClientStepTells(C.Execute(C.Start(hasCertificate), before), events[|events| - 1], status, parameters);
    }
  }

  // The transcript of a client that is done is the flow of some course: the
  // CertificateStatus at most if it was announced, the ServerKeyExchange if
  // the cipher is ECDHE, and of certificate ciphers only then.
  lemma ClientDoneStory(hasCertificate: bool, events: seq<C.Event>) returns (k: Course)
    requires C.Execute(C.Start(hasCertificate), events).state == C.Done
    ensures var c := C.Execute(C.Start(hasCertificate), events);
      && Story(c.hs.transcript) == Whole(k)
      && k == Course(c.hs.flags, k.status, k.parameters, c.hs.certRequest, hasCertificate)
      && (!k.flags.resumed ==>
          (k.status ==> k.flags.status) && (k.flags.ecdhe ==> k.parameters) && (k.flags.certAuth ==> k.parameters == k.flags.ecdhe))
  {
    hide C.Execute, Flow;
    var status, parameters := ClientRunTells(hasCertificate, events);
    k := ClientCourse(C.Execute(C.Start(hasCertificate), events), status, parameters);
  }

  // With a certificate cipher, a client that is done in a full handshake read a
  // ServerKeyExchange if and only if the cipher is ECDHE.
  lemma KeyExchangeIsRead(hasCertificate: bool, events: seq<C.Event>)
    requires var c := C.Execute(C.Start(hasCertificate), events);
      c.state == C.Done && !c.hs.flags.resumed && c.hs.flags.certAuth
    ensures var c := C.Execute(C.Start(hasCertificate), events);
      Token(ServerKeyExchange, false) in Story(c.hs.transcript) <==> c.hs.flags.ecdhe
  {
    hide C.Execute, Story;
    var k := ClientDoneStory(hasCertificate, events);
    FlowHasKey(k, 15);
  }

  lemma {:induction false} FlowHasKey(k: Course, n: nat)
    requires !k.flags.resumed
    ensures Token(ServerKeyExchange, false) in Flow(k, n) <==> n > 4 && k.parameters
  {
    hide Stage;
    if n > 0 {
      FlowHasKey(k, n - 1);
      StageHasKey(k, n - 1);
    }
  }

  lemma StageHasKey(k: Course, n: nat)
    requires !k.flags.resumed
    ensures Token(ServerKeyExchange, false) in Stage(k, n) <==> n == 4 && k.parameters
  {}

  // An announced CertificateStatus, and the hint of a plain PSK cipher, may be
  // missing: the client goes on, and leaves the message at hand to what
  // follows.
  lemma OptionsMayBeMissing(c: C.Client, e: Choice)
    requires c.wait == Go && HasMessage(c.hs)
    ensures c.state == C.ReadCertificateStatus && c.hs.buffer[0].msg.kind != CertificateStatus ==>
      C.Do(c, e) == c.(state := C.VerifyServerCertificate)
    ensures c.state == C.ReadServerKeyExchange && !c.hs.flags.ecdhe && c.hs.buffer[0].msg.kind != ServerKeyExchange ==>
      C.Do(c, e) == c.(state := C.ReadCertificateRequest)
  {}

  // ------------------------------------------------------------------
  // The server

  function ServerCourse(s: S.Server): Course {
    var f := s.hs.flags;
    Course(f, f.certAuth && f.status, S.HasParameters(s), s.hs.certRequest, s.peerCertificate)
  }

  function ServerAt(state: S.State, resumed: bool): Option<nat> {
    if resumed then
      match state
      case SendServerHello => Some(1)
      case SendServerFinished => Some(2)
      case ReadChangeCipherSpec | ProcessChangeCipherSpec | ReadNextProto => Some(4)
      case ReadChannelId => Some(5)
      case ReadClientFinished => Some(6)
      case FinishServerHandshake | Done => Some(7)
      case _ => None
    else
      match state
      case StartAccept | ReadClientHello | SelectCertificate | SelectParameters => Some(0)
      case SendServerHello => Some(1)
      case SendServerCertificate => Some(2)
      case SendServerKeyExchange => Some(4)
      case SendServerHelloDone => Some(5)
      case ReadClientCertificate => Some(7)
      case VerifyClientCertificate | ReadClientKeyExchange => Some(8)
      case ReadClientCertificateVerify => Some(9)
      case ReadChangeCipherSpec | ProcessChangeCipherSpec | ReadNextProto => Some(10)
      case ReadChannelId => Some(11)
      case ReadClientFinished => Some(12)
      case SendServerFinished => Some(13)
      case FinishServerHandshake | Done => Some(15)
      case Tls13 => None
  }

  // What the server settled on is its configuration, and the ClientHello is
  // at hand until it is consumed. Behind the client's Certificate, a client
  // has one only if it was asked, and must have one if that was insisted on.
  ghost predicate Settled(s: S.Server, config: S.Config, at: nat) {
    var h, f := s.hs, config.flags;
    && (at == 0 ==> h.flags == NO_FLAGS && !h.certRequest && !s.peerCertificate)
    && (s.state in {S.SelectCertificate, S.SelectParameters} ==> HasMessage(h) && h.buffer[0].msg.kind == ClientHello)
    && (at > 0 ==> h.flags == f && h.certRequest == (config.wantsCertificate && !f.resumed && f.certAuth))
    && (h.flags.resumed || at < 8 ==> !s.peerCertificate)
    && (!h.flags.resumed && at >= 8 ==>
        (s.peerCertificate ==> h.certRequest) && (h.certRequest && config.mustHaveCertificate ==> s.peerCertificate))
  }

  ghost predicate ServerTold(s: S.Server, config: S.Config) {
    s.config == config &&
    (s.state == S.Tls13 ||
     var at := ServerAt(s.state, s.hs.flags.resumed);
     at.Some? && Story(s.hs.transcript) == Flow(ServerCourse(s), at.value) && Settled(s, config, at.value))
  }

  lemma ServerKeepsTold(s: S.Server, t: S.Server, config: S.Config)
    requires ServerTold(s, config) && t.config == s.config && t.peerCertificate == s.peerCertificate
    requires ServerAt(t.state, t.hs.flags.resumed) == ServerAt(s.state, s.hs.flags.resumed)
    requires t.hs.transcript == s.hs.transcript && t.hs.flags == s.hs.flags && t.hs.certRequest == s.hs.certRequest
    requires s.hs.buffer <= t.hs.buffer && (t.state in {S.SelectCertificate, S.SelectParameters} ==>
      s.state == t.state || (HasMessage(s.hs) && s.hs.buffer[0].msg.kind == ClientHello))
    requires t.state == S.Tls13 || s.state != S.Tls13
    ensures ServerTold(t, config)
  {
    hide Flow, Story, ServerAt;
  }

  // One message was added, or none, and the rest is as it was.
  lemma ServerMoves(s: S.Server, t: S.Server, config: S.Config, adds: bool, m: Message)
    requires ServerTold(s, config) && t.config == s.config && t.peerCertificate == s.peerCertificate
    requires s.state != S.Tls13 && t.hs.flags == s.hs.flags && t.hs.certRequest == s.hs.certRequest
    requires t.hs.transcript == s.hs.transcript + (if adds then [m] else [])
    requires var n := ServerAt(s.state, s.hs.flags.resumed).value;
      && ServerAt(t.state, t.hs.flags.resumed) == Some(n + 1) && n > 0 && n != 7
      && Stage(ServerCourse(s), n) == if adds then [TokenOf(m)] else []
    ensures ServerTold(t, config)
  {
    hide Flow, Story, Stage, TokenOf;
    var k, n := ServerCourse(s), ServerAt(s.state, s.hs.flags.resumed).value;
    if adds {
      OneMore(s.hs.transcript, m, k, n);
    } else {
      assert s.hs.transcript + [] == s.hs.transcript;
      NoMore(k, n);
    }
  }

  lemma ServerHelloTells(s: S.Server, e: Choice, config: S.Config)
    requires ServerTold(s, config) && s.state in {S.StartAccept, S.ReadClientHello, S.SelectCertificate}
    ensures ServerTold(S.Do(s, e), config)
  {
    hide Flow, Story, Stage;
    if S.Do(s, e).state != S.Tls13 {
      ServerKeepsTold(s, S.Do(s, e), config);
    }
  }

  lemma ServerParametersTell(s: S.Server, e: Choice, config: S.Config)
    requires ServerTold(s, config) && s.state == S.SelectParameters
    ensures ServerTold(S.DoSelectParameters(s, e), config)
  {
    hide Flow, Story;
    var t := S.DoSelectParameters(s, e);
    if t.state == s.state {
      ServerKeepsTold(s, t, config);
    } else {
      SameFlow(ServerCourse(s), ServerCourse(t), 0);
      OneMore(s.hs.transcript, s.hs.buffer[0].msg, ServerCourse(t), 0);
    }
  }

  lemma FirstStages(k: Course)
    ensures Stage(k, 0) == If(true, ClientHello) && Stage(k, 1) == If(true, ServerHello)
  {}

  lemma ServerGreetingTells(s: S.Server, e: Choice, config: S.Config)
    requires ServerTold(s, config) && s.state == S.SendServerHello
    ensures ServerTold(S.DoSendServerHello(s, e), config)
  {
    hide Flow, Story, Stage;
    var t := S.DoSendServerHello(s, e);
    if t.state == s.state {
      ServerKeepsTold(s, t, config);
    } else {
      FirstStages(ServerCourse(s));
      ServerMoves(s, t, config, true, Message(ServerHello, Hello(s.hs.flags)));
    }
  }

  lemma ServerCertificateTells(s: S.Server, e: Choice, config: S.Config)
    requires ServerTold(s, config) && s.state == S.SendServerCertificate
    ensures ServerTold(S.DoSendServerCertificate(s, e), config)
  {
    hide Flow, Story, Stage;
    var t, k, f := S.DoSendServerCertificate(s, e), ServerCourse(s), s.hs.flags;
    if t.state == s.state {
      ServerKeepsTold(s, t, config);
    } else {
      FullStages(k);
      var h := AddIf(f.certAuth, s.hs, Message(Certificate, Chain(true)));
      MaybeMore(s.hs, f.certAuth, Message(Certificate, Chain(true)), k, 2);
      MaybeMore(h, f.certAuth && f.status, Opaque(e, CertificateStatus), k, 3);
    }
  }

  lemma ServerKeyTells(s: S.Server, e: Choice, config: S.Config)
    requires ServerTold(s, config) && s.state == S.SendServerKeyExchange
    ensures ServerTold(S.DoSendServerKeyExchange(s, e), config)
  {
    hide Flow, Story, Stage;
    var t := S.DoSendServerKeyExchange(s, e);
    if t.state == s.state {
      ServerKeepsTold(s, t, config);
    } else {
      FullStages(ServerCourse(s));
      ServerMoves(s, t, config, S.HasParameters(s), Opaque(e, ServerKeyExchange));
    }
  }

  lemma ServerHelloDoneTells(s: S.Server, e: Choice, config: S.Config)
    requires ServerTold(s, config) && s.state == S.SendServerHelloDone
    ensures ServerTold(S.DoSendServerHelloDone(s, e), config)
  {
    hide Flow, Story, Stage;
    var t, k := S.DoSendServerHelloDone(s, e), ServerCourse(s);
    if t.state == s.state {
      ServerKeepsTold(s, t, config);
    } else {
      FullStages(k);
      var h := AddIf(s.hs.certRequest, s.hs, Opaque(e, CertificateRequest));
      MaybeMore(s.hs, s.hs.certRequest, Opaque(e, CertificateRequest), k, 5);
      MaybeMore(h, true, Message(ServerHelloDone, Blob(0)), k, 6);
    }
  }

  lemma ServerChainTells(s: S.Server, e: Choice, config: S.Config)
    requires ServerTold(s, config) && s.state == S.ReadClientCertificate
    ensures ServerTold(S.DoReadClientCertificate(s, e), config)
  {
    hide Flow, Story;
    var t := S.DoReadClientCertificate(s, e);
    if t.state == s.state {
      ServerKeepsTold(s, t, config);
    } else {
      SameFlow(ServerCourse(s), ServerCourse(t), 7);
      if s.hs.certRequest {
        OneMore(s.hs.transcript, s.hs.buffer[0].msg, ServerCourse(t), 7);
      } else {
        NoMore(ServerCourse(t), 7);
      }
    }
  }

  lemma ServerVerifyTells(s: S.Server, e: Choice, config: S.Config)
    requires ServerTold(s, config) && s.state in {S.VerifyClientCertificate, S.ReadChangeCipherSpec, S.ProcessChangeCipherSpec,
                                                  S.FinishServerHandshake, S.Done, S.Tls13}
    ensures ServerTold(S.Do(s, e), config)
  {
    hide Flow, Story, Stage;
    if s.state != S.Tls13 {
      ServerKeepsTold(s, S.Do(s, e), config);
    }
  }

  // A message that is read, or skipped.
  lemma ServerReadTells(s: S.Server, t: S.Server, config: S.Config, takes: bool, kind: Kind)
    requires ServerTold(s, config) && s.state != S.Tls13 && t.config == s.config && t.peerCertificate == s.peerCertificate
    requires takes ==> HasMessage(s.hs) && s.hs.buffer[0].msg.kind == kind && kind != Certificate
    requires t.hs == (if takes then Consume(s.hs) else s.hs).(log := t.hs.log)
    requires var n := ServerAt(s.state, s.hs.flags.resumed).value;
      && ServerAt(t.state, t.hs.flags.resumed) == Some(n + 1) && n > 0 && n != 7
      && Stage(ServerCourse(s), n) == If(takes, kind)
    ensures ServerTold(t, config)
  {
    hide Flow, Story, Stage, ServerAt, Settled;
    var m := if takes then s.hs.buffer[0].msg else Message(kind, Blob(0));
    assert s.hs.transcript + [] == s.hs.transcript;
    ServerMoves(s, t, config, takes, m);
  }

  lemma ServerExchangeTells(s: S.Server, e: Choice, config: S.Config)
    requires ServerTold(s, config) && s.state == S.ReadClientKeyExchange
    ensures ServerTold(S.DoReadClientKeyExchange(s, e), config)
  {
    hide Flow, Story, Stage;
    var t := S.DoReadClientKeyExchange(s, e);
    FullStages(ServerCourse(s));
    if t.state == s.state {
      ServerKeepsTold(s, t, config);
    } else {
      ServerReadTells(s, t, config, true, ClientKeyExchange);
    }
  }

  lemma ServerProofTells(s: S.Server, e: Choice, config: S.Config)
    requires ServerTold(s, config) && s.state == S.ReadClientCertificateVerify
    ensures ServerTold(S.DoReadClientCertificateVerify(s, e), config)
  {
    hide Flow, Story, Stage;
    var t := S.DoReadClientCertificateVerify(s, e);
    FullStages(ServerCourse(s));
    if t.state == s.state {
      ServerKeepsTold(s, t, config);
    } else {
      ServerReadTells(s, t, config, s.peerCertificate, CertificateVerify);
    }
  }

  lemma ServerNextProtoTells(s: S.Server, e: Choice, config: S.Config)
    requires ServerTold(s, config) && s.state == S.ReadNextProto
    ensures ServerTold(S.DoReadNextProto(s, e), config)
  {
    hide Flow, Story, Stage;
    var t := S.DoReadNextProto(s, e);
    LastStages(ServerCourse(s));
    if t.state == s.state {
      ServerKeepsTold(s, t, config);
    } else {
      ServerReadTells(s, t, config, s.hs.flags.npn, NextProto);
    }
  }

  lemma ServerChannelIdTells(s: S.Server, e: Choice, config: S.Config)
    requires ServerTold(s, config) && s.state == S.ReadChannelId
    ensures ServerTold(S.DoReadChannelId(s, e), config)
  {
    hide Flow, Story, Stage;
    var t := S.DoReadChannelId(s, e);
    LastStages(ServerCourse(s));
    if t.state == s.state {
      ServerKeepsTold(s, t, config);
    } else {
      ServerReadTells(s, t, config, s.hs.flags.channelId, ChannelId);
    }
  }

  lemma ServerFinishedTells(s: S.Server, e: Choice, config: S.Config)
    requires ServerTold(s, config) && s.state == S.ReadClientFinished
    ensures ServerTold(S.DoReadClientFinished(s, e), config)
  {
    hide Flow, Story, Stage;
    var t := S.DoReadClientFinished(s, e);
    LastStages(ServerCourse(s));
    if t.state == s.state {
      ServerKeepsTold(s, t, config);
    } else {
      ServerReadTells(s, t, config, true, Finished);
    }
  }

  lemma TwoMore(h: Hs, m: Message, side: Side, k: Course, n: nat)
    requires Story(h.transcript) == Flow(k, n) && m.kind == NewSessionTicket
    requires k.flags == h.flags && n == if k.flags.resumed then 2 else 13
    ensures Story(SendFinished(ChangeWriteCipher(AddIf(h.flags.ticket, h, m)), side).transcript) == Flow(k, n + 2)
  {
    hide Flow, Story, Stage;
    LastStages(k);
    var h' := AddIf(h.flags.ticket, h, m);
    MaybeMore(h, h.flags.ticket, m, k, n);
    OneMore(h'.transcript, Message(Finished, Verify(side, h'.transcript)), k, n + 1);
  }

  lemma ServerLastTells(s: S.Server, e: Choice, config: S.Config)
    requires ServerTold(s, config) && s.state == S.SendServerFinished
    ensures ServerTold(S.DoSendServerFinished(s, e), config)
  {
    hide Flow, Story, Stage;
    var t := S.DoSendServerFinished(s, e);
    if t.state == s.state {
      ServerKeepsTold(s, t, config);
    } else {
      TwoMore(s.hs, Opaque(e, NewSessionTicket), ServerSide, ServerCourse(s), ServerAt(s.state, s.hs.flags.resumed).value);
    }
  }

  lemma ServerDoTells(s: S.Server, e: Choice, config: S.Config)
    requires ServerTold(s, config)
    ensures ServerTold(S.Do(s, e), config)
  {
    hide ServerTold, Story, Flow;
    match s.state
    case StartAccept | ReadClientHello | SelectCertificate => ServerHelloTells(s, e, config);
    case SelectParameters => ServerParametersTell(s, e, config);
    case SendServerHello => ServerGreetingTells(s, e, config);
    case SendServerCertificate => ServerCertificateTells(s, e, config);
    case SendServerKeyExchange => ServerKeyTells(s, e, config);
    case SendServerHelloDone => ServerHelloDoneTells(s, e, config);
    case ReadClientCertificate => ServerChainTells(s, e, config);
    case ReadClientKeyExchange => ServerExchangeTells(s, e, config);
    case ReadClientCertificateVerify => ServerProofTells(s, e, config);
    case ReadNextProto => ServerNextProtoTells(s, e, config);
    case ReadChannelId => ServerChannelIdTells(s, e, config);
    case ReadClientFinished => ServerFinishedTells(s, e, config);
    case SendServerFinished => ServerLastTells(s, e, config);
    case _ => ServerVerifyTells(s, e, config);
  }

  lemma ServerWaits(s: S.Server, v: S.Event)
    requires !v.Run? || s.wait != Go
    ensures var t := S.Step(s, v);
      && t.state == s.state && t.config == s.config && t.peerCertificate == s.peerCertificate && s.hs.buffer <= t.hs.buffer
      && t.hs.transcript == s.hs.transcript && t.hs.flags == s.hs.flags && t.hs.certRequest == s.hs.certRequest
  {}

  lemma ServerStepTells(s: S.Server, v: S.Event, config: S.Config)
    requires ServerTold(s, config)
    ensures ServerTold(S.Step(s, v), config)
  {
    hide S.Do, Story, Flow, ServerTold;
    if v.Run? && s.wait == Go {
      ServerDoTells(s, v.e, config);
    } else {
      ServerWaits(s, v);
      ServerKeepsTold(s, S.Step(s, v), config);
    }
  }

  lemma {:induction false} ServerRunTells(config: S.Config, events: seq<S.Event>)
    ensures ServerTold(S.Execute(S.Start(config), events), config)
  {
    hide ServerTold, S.Step, Flow;
    if events == [] {
      ServerStartTells(config);
    } else {
      ServerRunTells(config, events[..|events| - 1]);
      ServerStepTells(S.Execute(S.Start(config), events[..|events| - 1]), events[|events| - 1], config);
    }
  }

  lemma ServerStartTells(config: S.Config)
    ensures ServerTold(S.Start(config), config)
  {
    assert Story([]) == [];
  }

  // The transcript of a server that is done is the flow its configuration
  // settles, but for whether the client has a certificate.
  lemma ServerDoneStory(config: S.Config, events: seq<S.Event>)
    requires S.Execute(S.Start(config), events).state == S.Done
    ensures var s, f := S.Execute(S.Start(config), events), config.flags;
      var request := config.wantsCertificate && !f.resumed && f.certAuth;
      && Story(s.hs.transcript)
        == Whole(Course(f, f.certAuth && f.status, f.ecdhe || (!f.certAuth && config.pskHint), request, s.peerCertificate))
      && (s.peerCertificate ==> request) && (request && config.mustHaveCertificate ==> s.peerCertificate)
  {
    hide S.Execute, Flow, Story;
    ServerRunTells(config, events);
  }

  // A server that insists on a client certificate is done, in a full handshake
  // with a certificate cipher, only if the client's was verified and the
  // client proved that it has the key.
  lemma ServerInsists(config: S.Config, events: seq<S.Event>)
    requires S.Execute(S.Start(config), events).state == S.Done
    requires !config.flags.resumed && config.flags.certAuth && config.wantsCertificate && config.mustHaveCertificate
    ensures var s := S.Execute(S.Start(config), events);
      s.peerCertificate && PeerVerified in s.hs.log && SignatureVerified in s.hs.log
  {
    hide S.Execute, Story;
    ServerRunTells(config, events);
    ServerDoneStory(config, events);
    ServerDoneIsSafe(config, events);
    var s := S.Execute(S.Start(config), events);
    assert BareLog(s.hs.log)[0] == PeerVerified && BareLog(s.hs.log)[1] == SignatureVerified;
    assert s.hs.log[0] == PeerVerified && s.hs.log[1] == SignatureVerified;
  }
}
