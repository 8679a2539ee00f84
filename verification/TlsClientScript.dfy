// An honest client keeps to the script.

module TlsClientScript {
  import opened TlsTypes
  import opened TlsScript
  import opened TlsMoves
  import C = TlsClient

  function ClientFacts(state: C.State, resumed: bool): Facts {
    match state
    case StartConnect | EnterEarlyData => Facts(true, false, false, 0, 0, false, false)
    case ReadServerHello => Facts(true, false, false, 0, 0, false, true)
    case ReadServerCertificate | ReadCertificateStatus | ReadServerKeyExchange | ReadCertificateRequest =>
      Facts(false, true, false, 0, 0, false, true)
    case VerifyServerCertificate => Facts(false, true, false, 0, 0, false, false)
    case ReadServerHelloDone => Facts(false, true, true, 0, 0, false, true)
    case SendClientCertificate => Facts(false, true, true, 0, 0, false, false)
    case SendClientKeyExchange | SendClientCertificateVerify => Facts(false, true, true, 0, 0, true, false)
    case SendClientFinished => Facts(false, false, true, if resumed then 1 else 0, 0, true, false)
    case FinishFlight => Facts(false, false, true, if resumed then 1 else 0, 1, false, false)
    case ReadSessionTicket => Facts(false, false, true, 0, if resumed then 0 else 1, false, true)
    case ProcessChangeCipherSpec => Facts(false, false, true, 0, if resumed then 0 else 1, false, false)
    case ReadServerFinished => Facts(false, false, true, 1, if resumed then 0 else 1, false, true)
    case FinishClientHandshake | Done | Tls13 => Facts(false, false, true, 1, 1, false, false)
  }

  predicate ClientWaits(state: C.State, wait: Wait, awaits: bool) {
    match wait
    case Go => true
    case Failed => false
    case Flush => state == C.EnterEarlyData || state == C.FinishFlight
    case ReadMessage => awaits
    case ReadCcs => state == C.ProcessChangeCipherSpec
    case Paused => state != C.ProcessChangeCipherSpec && state != C.Done
    case EarlyReturn => state == C.ReadSessionTicket
  }

  ghost predicate ClientAt(c: C.Client, d: Deal) {
    var f := ClientFacts(c.state, d.Resumed());
    && c.state != C.Tls13 && ClientWaits(c.state, c.wait, f.awaits) && (f.full ==> !d.Resumed())
    && c.hasCertificate == d.hasCertificate
    && c.hs.flags == (if f.early then NO_FLAGS else d.config.flags)
    && c.hs.certRequest == (d.Requested() && f.asked)
    && c.hs.readEpoch == f.read && c.hs.writeEpoch == f.wrote
    && c.hs.flushed <= |c.hs.sent|
    && (c.hs.flushed == |c.hs.sent| || c.wait == Flush || f.holdsBack)
    && (c.wait == ReadMessage || (c.wait == Go && c.state == C.ProcessChangeCipherSpec) ==> !HasMessage(c.hs))
    && (c.wait == ReadMessage && c.state == C.ReadSessionTicket ==> d.config.flags.ticket)
  }

  ghost predicate ClientTurn(c: C.Client, d: Deal, e: Choice) {
    && ClientAt(c, d) && c.wait == Go && d.Possible() && Honest(e, d)
    && HeadIsNext(c.hs, ServerSide, ClientTail(c, d))
  }

  // Nothing was rejected, and the machine kept to the script.
  ghost predicate ClientTurned(c: C.Client, d: Deal, c': C.Client) {
    c'.wait != Failed && Moved(ClientSide, ServerSide, c.hs, ClientTail(c, d), c'.hs, ClientTail(c', d))
  }

  // The client's facts are kept by a turn that rejects nothing. Of what it
  // reads, only the hello and a request matter.
  lemma StaysGreeting(c: C.Client, d: Deal, e: Choice)
    requires ClientAt(c, d) && c.wait == Go && d.Possible() && C.Do(c, e).wait != Failed
    requires c.state == C.StartConnect || c.state == C.EnterEarlyData || c.state == C.ReadServerHello
    requires c.state == C.ReadServerHello && HasMessage(c.hs) ==> c.hs.buffer[0].msg.body == Hello(d.config.flags)
    ensures ClientAt(C.Do(c, e), d)
  {}

  lemma StaysCertificate(c: C.Client, d: Deal, e: Choice)
    requires ClientAt(c, d) && c.wait == Go && d.Possible() && C.Do(c, e).wait != Failed
    requires c.state in {C.ReadServerCertificate, C.ReadCertificateStatus, C.VerifyServerCertificate, C.ReadServerKeyExchange}
    ensures ClientAt(C.Do(c, e), d)
  {}

  lemma StaysRequest(c: C.Client, d: Deal, e: Choice)
    requires ClientAt(c, d) && c.wait == Go && d.Possible() && C.Do(c, e).wait != Failed
    requires c.state == C.ReadCertificateRequest || c.state == C.ReadServerHelloDone || c.state == C.SendClientCertificate
    requires c.state == C.ReadCertificateRequest && HasMessage(c.hs) ==>
      (c.hs.buffer[0].msg.kind == TlsTypes.CertificateRequest <==> d.Requested())
    ensures ClientAt(C.Do(c, e), d)
  {}

  lemma StaysKeys(c: C.Client, d: Deal, e: Choice)
    requires ClientAt(c, d) && c.wait == Go && d.Possible() && C.Do(c, e).wait != Failed
    requires c.state == C.SendClientKeyExchange || c.state == C.SendClientCertificateVerify
    ensures ClientAt(C.Do(c, e), d)
  {}

  lemma StaysFinished(c: C.Client, d: Deal, e: Choice)
    requires ClientAt(c, d) && c.wait == Go && d.Possible() && C.Do(c, e).wait != Failed
    requires c.state == C.SendClientFinished
    ensures ClientAt(C.Do(c, e), d)
  {}

  lemma StaysTicket(c: C.Client, d: Deal, e: Choice)
    requires ClientAt(c, d) && c.wait == Go && d.Possible() && C.Do(c, e).wait != Failed
    requires c.state == C.FinishFlight || c.state == C.ReadSessionTicket || c.state == C.ProcessChangeCipherSpec
    ensures ClientAt(C.Do(c, e), d)
  {}

  lemma StaysEnding(c: C.Client, d: Deal, e: Choice)
    requires ClientAt(c, d) && c.wait == Go && d.Possible() && C.Do(c, e).wait != Failed
    requires c.state == C.ReadServerFinished || c.state == C.FinishClientHandshake || c.state == C.Done
    ensures ClientAt(C.Do(c, e), d)
  {}

  // The place in the script is the same, and so is the rest.
  lemma ClientStands(c: C.Client, d: Deal, c': C.Client)
    requires ClientStage(c'.state, c'.wait, d.Resumed()) == ClientStage(c.state, c.wait, d.Resumed())
    requires c'.hs.transcript == c.hs.transcript && c'.hs.flushed == c.hs.flushed
    requires c'.hs.buffer == c.hs.buffer && c'.hs.sent == c.hs.sent
    ensures Moved(ClientSide, ServerSide, c.hs, ClientTail(c, d), c'.hs, ClientTail(c', d))
  {}

  lemma ClientSkips(c: C.Client, d: Deal, c': C.Client, stage: Stage)
    requires stage == ClientStage(c.state, c.wait, d.Resumed()) != End && Due(stage, d, c.hs.transcript).Absent?
    requires ClientStage(c'.state, c'.wait, d.Resumed()) == Next(stage, d.Resumed()) && c'.hs == c.hs
    ensures Moved(ClientSide, ServerSide, c.hs, ClientTail(c, d), c'.hs, ClientTail(c', d))
  {}

  lemma ClientRead(c: C.Client, d: Deal, c': C.Client, stage: Stage)
    requires stage == ClientStage(c.state, c.wait, d.Resumed()) != End && Due(stage, d, c.hs.transcript).Present?
    requires HasMessage(c.hs) && HeadIsNext(c.hs, ServerSide, ClientTail(c, d)) && ReadOne(c.hs, c'.hs)
    requires ClientStage(c'.state, c'.wait, d.Resumed()) == Next(stage, d.Resumed())
    ensures Moved(ClientSide, ServerSide, c.hs, ClientTail(c, d), c'.hs, ClientTail(c', d))
  {
    ReadsDue(ServerSide, stage, d, c.hs, Due(stage, d, c.hs.transcript).entry);
  }

  lemma ClientWent(c: C.Client, d: Deal, c': C.Client)
    requires SentOne(ClientSide, c.hs, ClientTail(c, d), c'.hs, ClientTail(c', d))
    ensures Moved(ClientSide, ServerSide, c.hs, ClientTail(c, d), c'.hs, ClientTail(c', d))
  {}

  lemma ClientHello(c: C.Client, d: Deal, e: Choice)
    requires ClientTurn(c, d, e) && c.state == C.StartConnect
    ensures ClientTurned(c, d, C.Do(c, e))
  {
    hide Tail;
    SendsDue(ClientSide, HelloC, d, c.hs, true, Dealt(d, TlsTypes.ClientHello));
    ClientWent(c, d, C.Do(c, e));
  }

  lemma ClientServerHello(c: C.Client, d: Deal, e: Choice)
    requires ClientTurn(c, d, e) && c.state == C.ReadServerHello
    ensures ClientTurned(c, d, C.Do(c, e))
    ensures HasMessage(c.hs) ==> c.hs.buffer[0].msg.body == Hello(d.config.flags)
  {
    hide Tail, Moved;
    if HasMessage(c.hs) {
      ReadsDue(ServerSide, HelloS, d, c.hs, Due(HelloS, d, c.hs.transcript).entry);
      ClientRead(c, d, C.Do(c, e), HelloS);
    } else {
      ClientStands(c, d, C.Do(c, e));
    }
  }

  lemma ClientCertificate(c: C.Client, d: Deal, e: Choice)
    requires ClientTurn(c, d, e) && c.state == C.ReadServerCertificate
    ensures ClientTurned(c, d, C.Do(c, e))
  {
    hide Tail, Moved;
    if !d.config.flags.certAuth {
      ClientSkips(c, d, C.Do(c, e), CertS);
    } else if HasMessage(c.hs) {
      ReadsDue(ServerSide, CertS, d, c.hs, Due(CertS, d, c.hs.transcript).entry);
      ClientRead(c, d, C.Do(c, e), CertS);
    } else {
      ClientStands(c, d, C.Do(c, e));
    }
  }

  lemma ClientCertificateStatus(c: C.Client, d: Deal, e: Choice)
    requires ClientTurn(c, d, e) && c.state == C.ReadCertificateStatus
    ensures ClientTurned(c, d, C.Do(c, e))
  {
    hide Tail, Moved;
    ServerFlightHeads(d, c.hs.transcript);
    if !HasMessage(c.hs) && d.config.flags.status {
      ClientStands(c, d, C.Do(c, e));
    } else if d.config.flags.certAuth && d.config.flags.status {
      ReadsDue(ServerSide, StatusS, d, c.hs, Due(StatusS, d, c.hs.transcript).entry);
      ClientRead(c, d, C.Do(c, e), StatusS);
    } else {
      ClientSkips(c, d, C.Do(c, e), StatusS);
    }
  }

  lemma ClientServerKeyExchange(c: C.Client, d: Deal, e: Choice)
    requires ClientTurn(c, d, e) && c.state == C.ReadServerKeyExchange
    ensures ClientTurned(c, d, C.Do(c, e))
  {
    hide Tail, Moved;
    ServerFlightHeads(d, c.hs.transcript);
    if !HasMessage(c.hs) {
      ClientStands(c, d, C.Do(c, e));
    } else if d.Parameters() {
      ReadsDue(ServerSide, KeyS, d, c.hs, Due(KeyS, d, c.hs.transcript).entry);
      ClientRead(c, d, C.Do(c, e), KeyS);
    } else {
      ClientSkips(c, d, C.Do(c, e), KeyS);
    }
  }

  lemma ClientCertificateRequest(c: C.Client, d: Deal, e: Choice)
    requires ClientTurn(c, d, e) && c.state == C.ReadCertificateRequest
    ensures ClientTurned(c, d, C.Do(c, e))
    ensures HasMessage(c.hs) ==> (c.hs.buffer[0].msg.kind == TlsTypes.CertificateRequest <==> d.Requested())
  {
    hide Tail, Moved;
    ServerFlightHeads(d, c.hs.transcript);
    if !HasMessage(c.hs) && d.config.flags.certAuth {
      ClientStands(c, d, C.Do(c, e));
    } else if d.Requested() {
      ReadsDue(ServerSide, RequestS, d, c.hs, Due(RequestS, d, c.hs.transcript).entry);
      ClientRead(c, d, C.Do(c, e), RequestS);
    } else {
      ClientSkips(c, d, C.Do(c, e), RequestS);
    }
  }

  lemma ClientServerHelloDone(c: C.Client, d: Deal, e: Choice)
    requires ClientTurn(c, d, e) && c.state == C.ReadServerHelloDone
    ensures ClientTurned(c, d, C.Do(c, e))
  {
    hide Tail, Moved;
    if HasMessage(c.hs) {
      ReadsDue(ServerSide, DoneS, d, c.hs, Due(DoneS, d, c.hs.transcript).entry);
      ClientRead(c, d, C.Do(c, e), DoneS);
    } else {
      ClientStands(c, d, C.Do(c, e));
    }
  }

  lemma ClientSendsCertificate(c: C.Client, d: Deal, e: Choice)
    requires ClientTurn(c, d, e) && c.state == C.SendClientCertificate
    ensures ClientTurned(c, d, C.Do(c, e))
  {
    hide Tail, Moved;
    SendsDue(ClientSide, CertC, d, c.hs, d.Requested(), Message(Certificate, Chain(d.hasCertificate)));
    if d.Requested() && e.retry {
      ClientStands(c, d, C.Do(c, e));
    } else {
      ClientWent(c, d, C.Do(c, e));
    }
  }

  lemma ClientSendsKeyExchange(c: C.Client, d: Deal, e: Choice)
    requires ClientTurn(c, d, e) && c.state == C.SendClientKeyExchange
    ensures ClientTurned(c, d, C.Do(c, e))
  {
    hide Tail, Moved;
    SendsDue(ClientSide, KeyC, d, c.hs, true, Dealt(d, ClientKeyExchange));
    ClientWent(c, d, C.Do(c, e));
  }

  lemma ClientSendsProof(c: C.Client, d: Deal, e: Choice)
    requires ClientTurn(c, d, e) && c.state == C.SendClientCertificateVerify
    ensures ClientTurned(c, d, C.Do(c, e))
  {
    hide Tail, Moved;
    SendsDue(ClientSide, ProofC, d, c.hs, d.Requested() && d.hasCertificate, Dealt(d, CertificateVerify));
    if d.Requested() && d.hasCertificate && e.retry {
      ClientStands(c, d, C.Do(c, e));
    } else {
      ClientWent(c, d, C.Do(c, e));
    }
  }

  lemma ClientTicket(c: C.Client, d: Deal, e: Choice)
    requires ClientTurn(c, d, e) && c.state == C.ReadSessionTicket
    ensures ClientTurned(c, d, C.Do(c, e))
  {
    hide Tail, Moved;
    if !d.config.flags.ticket {
      ClientSkips(c, d, C.Do(c, e), TicketS);
    } else if HasMessage(c.hs) {
      ReadsDue(ServerSide, TicketS, d, c.hs, Due(TicketS, d, c.hs.transcript).entry);
      ClientRead(c, d, C.Do(c, e), TicketS);
    } else {
      ClientStands(c, d, C.Do(c, e));
    }
  }

  lemma ClientServerFinished(c: C.Client, d: Deal, e: Choice)
    requires ClientTurn(c, d, e) && c.state == C.ReadServerFinished
    ensures ClientTurned(c, d, C.Do(c, e))
  {
    hide Tail, Moved;
    if HasMessage(c.hs) {
      ReadsDue(ServerSide, FinishS, d, c.hs, Due(FinishS, d, c.hs.transcript).entry);
      ClientRead(c, d, C.Do(c, e), FinishS);
    } else {
      ClientStands(c, d, C.Do(c, e));
    }
  }

  lemma ClientMovesOn(c: C.Client, d: Deal, e: Choice)
    requires ClientTurn(c, d, e) && c.state in {C.EnterEarlyData, C.FinishClientHandshake, C.Done}
    ensures ClientTurned(c, d, C.Do(c, e))
  {
    ClientStands(c, d, C.Do(c, e));
  }

  lemma ClientVerifies(c: C.Client, d: Deal, e: Choice)
    requires ClientTurn(c, d, e) && c.state == C.VerifyServerCertificate
    ensures ClientTurned(c, d, C.Do(c, e))
  {
    ClientStands(c, d, C.Do(c, e));
  }

  lemma ClientFlushed(c: C.Client, d: Deal, e: Choice)
    requires ClientTurn(c, d, e) && c.state == C.FinishFlight
    ensures ClientTurned(c, d, C.Do(c, e))
  {
    ClientStands(c, d, C.Do(c, e));
  }

  lemma ClientChanges(c: C.Client, d: Deal, e: Choice)
    requires ClientTurn(c, d, e) && c.state == C.ProcessChangeCipherSpec
    ensures ClientTurned(c, d, C.Do(c, e))
  {
    ClientStands(c, d, C.Do(c, e));
  }

  // ChangeCipherSpec, NextProto, ChannelId and Finished in one go.
  function ClientLast(h: Hs, d: Deal): Hs {
    SendFinished(AddIf(d.config.flags.channelId, AddIf(d.config.flags.npn, ChangeWriteCipher(h), Dealt(d, NextProto)),
                       Dealt(d, ChannelId)), ClientSide)
  }

  lemma ClientLastIsDue(h: Hs, d: Deal)
    requires h.writeEpoch == 0
    ensures var h' := ClientLast(h, d);
      SentOne(ClientSide, h, Tail(ChangeC, d, h.transcript), h', Tail(Next(FinishC, d.Resumed()), d, h'.transcript))
  {
    var f := d.config.flags;
    var h1 := ChangeWriteCipher(h);
    var h2 := AddIf(f.npn, h1, Dealt(d, NextProto));
    var h3 := AddIf(f.channelId, h2, Dealt(d, ChannelId));
    SendsCcs(ClientSide, ChangeC, d, h);
    SendsDue(ClientSide, ProtoC, d, h1, f.npn, Dealt(d, NextProto));
    SendsDue(ClientSide, IdC, d, h2, f.channelId, Dealt(d, ChannelId));
    SendsFinished(ClientSide, FinishC, d, h3);
    var t0, t1 := Tail(ChangeC, d, h.transcript), Tail(ProtoC, d, h1.transcript);
    var t2, t3 := Tail(IdC, d, h2.transcript), Tail(FinishC, d, h3.transcript);
    var h4 := SendFinished(h3, ClientSide);
    SentBoth(ClientSide, h, t0, h1, t1, h2, t2);
    SentBoth(ClientSide, h, t0, h2, t2, h3, t3);
    SentBoth(ClientSide, h, t0, h3, t3, h4, Tail(Next(FinishC, d.Resumed()), d, h4.transcript));
  }

  lemma ClientSendsLast(c: C.Client, d: Deal, e: Choice)
    requires ClientAt(c, d) && c.state == C.SendClientFinished && Honest(e, d)
    ensures C.Do(c, e) ==
      if d.config.flags.channelId && e.retry then C.Stay(c, Paused) else C.To(c, C.FinishFlight, Flush, ClientLast(c.hs, d))
  {}

  lemma ClientFinished(c: C.Client, d: Deal, e: Choice)
    requires ClientTurn(c, d, e) && c.state == C.SendClientFinished
    ensures ClientTurned(c, d, C.Do(c, e))
  {
    hide Tail, Moved, SentOne, C.Do;
    ClientSendsLast(c, d, e);
    if d.config.flags.channelId && e.retry {
      ClientStands(c, d, C.Stay(c, Paused));
    } else {
      ClientLastIsDue(c.hs, d);
      ClientWent(c, d, C.To(c, C.FinishFlight, Flush, ClientLast(c.hs, d)));
    }
  }

  // One turn of an honest client.
  lemma ClientKeepsToScript(c: C.Client, d: Deal, e: Choice)
    requires ClientTurn(c, d, e)
    ensures ClientTurned(c, d, C.Do(c, e)) && ClientAt(C.Do(c, e), d)
  {
    match c.state
    case StartConnect =>
      ClientHello(c, d, e);
      StaysGreeting(c, d, e);
    case EnterEarlyData =>
      ClientMovesOn(c, d, e);
      StaysGreeting(c, d, e);
    case ReadServerHello =>
      ClientServerHello(c, d, e);
      StaysGreeting(c, d, e);
    case ReadServerCertificate =>
      ClientCertificate(c, d, e);
      StaysCertificate(c, d, e);
    case ReadCertificateStatus =>
      ClientCertificateStatus(c, d, e);
      StaysCertificate(c, d, e);
    case VerifyServerCertificate =>
      ClientVerifies(c, d, e);
      StaysCertificate(c, d, e);
    case ReadServerKeyExchange =>
      ClientServerKeyExchange(c, d, e);
      StaysCertificate(c, d, e);
    case ReadCertificateRequest =>
      ClientCertificateRequest(c, d, e);
      StaysRequest(c, d, e);
    case ReadServerHelloDone =>
      ClientServerHelloDone(c, d, e);
      StaysRequest(c, d, e);
    case SendClientCertificate =>
      ClientSendsCertificate(c, d, e);
      StaysRequest(c, d, e);
    case SendClientKeyExchange =>
      ClientSendsKeyExchange(c, d, e);
      StaysKeys(c, d, e);
    case SendClientCertificateVerify =>
      ClientSendsProof(c, d, e);
      StaysKeys(c, d, e);
    case SendClientFinished =>
      ClientFinished(c, d, e);
      StaysFinished(c, d, e);
    case FinishFlight =>
      ClientFlushed(c, d, e);
      StaysTicket(c, d, e);
    case ReadSessionTicket =>
      ClientTicket(c, d, e);
      StaysTicket(c, d, e);
    case ProcessChangeCipherSpec =>
      ClientChanges(c, d, e);
      StaysTicket(c, d, e);
    case ReadServerFinished =>
      ClientServerFinished(c, d, e);
      StaysEnding(c, d, e);
    case FinishClientHandshake =>
      ClientMovesOn(c, d, e);
      StaysEnding(c, d, e);
    case Done =>
      ClientMovesOn(c, d, e);
      StaysEnding(c, d, e);
  }
}
