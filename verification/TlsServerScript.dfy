// An honest server keeps to the script.

module TlsServerScript {
  import opened TlsTypes
  import opened TlsScript
  import opened TlsMoves
  import S = TlsServer

  function ServerFacts(state: S.State, resumed: bool): Facts {
    match state
    case StartAccept | SelectCertificate | SelectParameters => Facts(true, false, false, 0, 0, false, false)
    case ReadClientHello => Facts(true, false, false, 0, 0, false, true)
    case SendServerHello => Facts(false, false, true, 0, 0, false, false)
    case SendServerCertificate | SendServerKeyExchange | SendServerHelloDone => Facts(false, true, true, 0, 0, true, false)
    case VerifyClientCertificate => Facts(false, true, true, 0, 0, false, false)
    case ReadClientCertificate | ReadClientKeyExchange | ReadClientCertificateVerify =>
      Facts(false, true, true, 0, 0, false, true)
    case ReadChangeCipherSpec | ProcessChangeCipherSpec => Facts(false, false, true, 0, if resumed then 1 else 0, false, false)
    case ReadNextProto | ReadChannelId | ReadClientFinished => Facts(false, false, true, 1, if resumed then 1 else 0, false, true)
    case SendServerFinished => Facts(false, false, true, if resumed then 0 else 1, 0, true, false)
    case FinishServerHandshake | Done | Tls13 => Facts(false, false, true, 1, 1, false, false)
  }

  predicate ServerWaits(state: S.State, wait: Wait, awaits: bool) {
    match wait
    case Go => true
    case Failed => false
    case Flush => state == S.ReadClientCertificate || state == S.ReadChangeCipherSpec || state == S.FinishServerHandshake
    case ReadMessage => awaits
    case ReadCcs => state == S.ProcessChangeCipherSpec
    case Paused => state != S.ProcessChangeCipherSpec && state != S.Done
    case EarlyReturn => false
  }

  // The client's certificate is known once it was read.
  predicate BeforePeer(state: S.State) {
    match state
    case StartAccept | ReadClientHello | SelectCertificate | SelectParameters | SendServerHello | SendServerCertificate
       | SendServerKeyExchange | SendServerHelloDone | ReadClientCertificate => true
    case _ => false
  }

  ghost predicate ServerAt(s: S.Server, d: Deal) {
    var f := ServerFacts(s.state, d.Resumed());
    && s.state != S.Tls13 && ServerWaits(s.state, s.wait, f.awaits) && (f.full ==> !d.Resumed())
    && s.config == d.config
    && s.hs.flags == (if f.early then NO_FLAGS else d.config.flags)
    && s.hs.certRequest == (d.Requested() && f.asked)
    && s.peerCertificate == (d.Requested() && d.hasCertificate && !BeforePeer(s.state))
    && s.hs.readEpoch == f.read && s.hs.writeEpoch == f.wrote
    && s.hs.flushed <= |s.hs.sent|
    && (s.hs.flushed == |s.hs.sent| || s.wait == Flush || f.holdsBack)
    && (s.wait == ReadMessage || (s.wait == Go && s.state == S.ProcessChangeCipherSpec) ==> !HasMessage(s.hs))
    && (s.wait == ReadMessage && s.state == S.ReadClientCertificateVerify ==> d.Requested() && d.hasCertificate)
    && (s.state == S.SelectCertificate || s.state == S.SelectParameters ==> HasMessage(s.hs))
  }

  ghost predicate ServerTurn(s: S.Server, d: Deal, e: Choice) {
    && ServerAt(s, d) && s.wait == Go && d.Possible() && Honest(e, d)
    && HeadIsNext(s.hs, ClientSide, ServerTail(s, d))
  }

  // Nothing was rejected, and the machine kept to the script.
  ghost predicate ServerTurned(s: S.Server, d: Deal, s': S.Server) {
    s'.wait != Failed && Moved(ServerSide, ClientSide, s.hs, ServerTail(s, d), s'.hs, ServerTail(s', d))
  }

  // The server's facts are kept by a turn that rejects nothing. Of what it
  // reads, only the client's certificate matters.
  lemma StaysGreeting(s: S.Server, d: Deal, e: Choice)
    requires ServerAt(s, d) && s.wait == Go && d.Possible() && S.Do(s, e).wait != Failed
    requires s.state in {S.StartAccept, S.ReadClientHello, S.SelectCertificate, S.SelectParameters}
    ensures ServerAt(S.Do(s, e), d)
  {}

  lemma StaysHello(s: S.Server, d: Deal, e: Choice)
    requires ServerAt(s, d) && s.wait == Go && d.Possible() && S.Do(s, e).wait != Failed
    requires s.state == S.SendServerHello || s.state == S.SendServerFinished
    ensures ServerAt(S.Do(s, e), d)
  {}

  lemma StaysFlight(s: S.Server, d: Deal, e: Choice)
    requires ServerAt(s, d) && s.wait == Go && d.Possible() && S.Do(s, e).wait != Failed
    requires s.state in {S.SendServerCertificate, S.SendServerKeyExchange, S.SendServerHelloDone}
    ensures ServerAt(S.Do(s, e), d)
  {}

  lemma StaysCertificate(s: S.Server, d: Deal, e: Choice)
    requires ServerAt(s, d) && s.wait == Go && d.Possible() && S.Do(s, e).wait != Failed
    requires s.state == S.ReadClientCertificate || s.state == S.VerifyClientCertificate
    requires s.state == S.ReadClientCertificate && d.Requested() && HasMessage(s.hs) ==>
      s.hs.buffer[0].msg.body == Chain(d.hasCertificate)
    ensures ServerAt(S.Do(s, e), d)
  {}

  lemma StaysProof(s: S.Server, d: Deal, e: Choice)
    requires ServerAt(s, d) && s.wait == Go && d.Possible() && S.Do(s, e).wait != Failed
    requires s.state == S.ReadClientKeyExchange || s.state == S.ReadClientCertificateVerify
    ensures ServerAt(S.Do(s, e), d)
  {}

  lemma StaysChange(s: S.Server, d: Deal, e: Choice)
    requires ServerAt(s, d) && s.wait == Go && d.Possible() && S.Do(s, e).wait != Failed
    requires s.state == S.ReadChangeCipherSpec || s.state == S.ProcessChangeCipherSpec
    ensures ServerAt(S.Do(s, e), d)
  {}

  lemma StaysExtras(s: S.Server, d: Deal, e: Choice)
    requires ServerAt(s, d) && s.wait == Go && d.Possible() && S.Do(s, e).wait != Failed
    requires s.state == S.ReadNextProto || s.state == S.ReadChannelId
    ensures ServerAt(S.Do(s, e), d)
  {}

  lemma StaysEnding(s: S.Server, d: Deal, e: Choice)
    requires ServerAt(s, d) && s.wait == Go && d.Possible() && S.Do(s, e).wait != Failed
    requires s.state == S.ReadClientFinished || s.state == S.FinishServerHandshake || s.state == S.Done
    ensures ServerAt(S.Do(s, e), d)
  {}

  // The place in the script is the same, and so is the rest.
  lemma ServerStands(s: S.Server, d: Deal, s': S.Server)
    requires ServerStage(s'.state, s'.wait, d.Resumed()) == ServerStage(s.state, s.wait, d.Resumed())
    requires s'.hs.transcript == s.hs.transcript && s'.hs.flushed == s.hs.flushed
    requires s'.hs.buffer == s.hs.buffer && s'.hs.sent == s.hs.sent
    ensures Moved(ServerSide, ClientSide, s.hs, ServerTail(s, d), s'.hs, ServerTail(s', d))
  {}

  lemma ServerSkips(s: S.Server, d: Deal, s': S.Server, stage: Stage)
    requires stage == ServerStage(s.state, s.wait, d.Resumed()) != End && Due(stage, d, s.hs.transcript).Absent?
    requires ServerStage(s'.state, s'.wait, d.Resumed()) == Next(stage, d.Resumed()) && s'.hs == s.hs
    ensures Moved(ServerSide, ClientSide, s.hs, ServerTail(s, d), s'.hs, ServerTail(s', d))
  {}

  lemma ServerRead(s: S.Server, d: Deal, s': S.Server, stage: Stage)
    requires stage == ServerStage(s.state, s.wait, d.Resumed()) != End && Due(stage, d, s.hs.transcript).Present?
    requires HasMessage(s.hs) && HeadIsNext(s.hs, ClientSide, ServerTail(s, d)) && ReadOne(s.hs, s'.hs)
    requires ServerStage(s'.state, s'.wait, d.Resumed()) == Next(stage, d.Resumed())
    ensures Moved(ServerSide, ClientSide, s.hs, ServerTail(s, d), s'.hs, ServerTail(s', d))
  {
    ReadsDue(ClientSide, stage, d, s.hs, Due(stage, d, s.hs.transcript).entry);
  }

  lemma ServerWent(s: S.Server, d: Deal, s': S.Server)
    requires SentOne(ServerSide, s.hs, ServerTail(s, d), s'.hs, ServerTail(s', d))
    ensures Moved(ServerSide, ClientSide, s.hs, ServerTail(s, d), s'.hs, ServerTail(s', d))
  {}

  lemma ServerLooks(s: S.Server, d: Deal, e: Choice)
    requires ServerTurn(s, d, e) && s.state in {S.StartAccept, S.SelectCertificate}
    ensures ServerTurned(s, d, S.Do(s, e))
  {
    ServerStands(s, d, S.Do(s, e));
  }

  lemma ServerClientHello(s: S.Server, d: Deal, e: Choice)
    requires ServerTurn(s, d, e) && s.state == S.ReadClientHello
    ensures ServerTurned(s, d, S.Do(s, e))
  {
    assert Due(HelloC, d, s.hs.transcript).entry == Plain(ClientSide, 0, Dealt(d, ClientHello));
    if HasMessage(s.hs) {
      ReadsDue(ClientSide, HelloC, d, s.hs, Due(HelloC, d, s.hs.transcript).entry);
    }
    ServerStands(s, d, S.Do(s, e));
  }

  lemma ServerParameters(s: S.Server, d: Deal, e: Choice)
    requires ServerTurn(s, d, e) && s.state == S.SelectParameters
    ensures ServerTurned(s, d, S.Do(s, e))
  {
    hide Tail, Moved;
    ReadsDue(ClientSide, HelloC, d, s.hs, Due(HelloC, d, s.hs.transcript).entry);
    if e.retry {
      ServerStands(s, d, S.Do(s, e));
    } else {
      ServerRead(s, d, S.Do(s, e), HelloC);
    }
  }

  lemma ServerHello(s: S.Server, d: Deal, e: Choice)
    requires ServerTurn(s, d, e) && s.state == S.SendServerHello
    ensures ServerTurned(s, d, S.Do(s, e))
  {
    hide Tail, Moved;
    SendsDue(ServerSide, HelloS, d, s.hs, true, Message(TlsTypes.ServerHello, Hello(d.config.flags)));
    ServerWent(s, d, S.Do(s, e));
  }

  // Two messages in one go, each if it is due.
  lemma SendsTwo(stage: Stage, d: Deal, h: Hs, c: bool, m: Message, c': bool, m': Message)
    requires stage != End && Next(stage, d.Resumed()) != End
    requires Due(stage, d, h.transcript) == When(c, Plain(ServerSide, h.writeEpoch, m))
    requires var h' := AddIf(c, h, m);
      Due(Next(stage, d.Resumed()), d, h'.transcript) == When(c', Plain(ServerSide, h'.writeEpoch, m'))
    ensures var h'' := AddIf(c', AddIf(c, h, m), m');
      SentOne(ServerSide, h, Tail(stage, d, h.transcript),
              h'', Tail(Next(Next(stage, d.Resumed()), d.Resumed()), d, h''.transcript))
  {
    var next := Next(stage, d.Resumed());
    var h' := AddIf(c, h, m);
    var h'' := AddIf(c', h', m');
    SendsDue(ServerSide, stage, d, h, c, m);
    SendsDue(ServerSide, next, d, h', c', m');
    SentBoth(ServerSide, h, Tail(stage, d, h.transcript), h', Tail(next, d, h'.transcript),
             h'', Tail(Next(next, d.Resumed()), d, h''.transcript));
  }

  lemma ServerCertificate(s: S.Server, d: Deal, e: Choice)
    requires ServerTurn(s, d, e) && s.state == S.SendServerCertificate
    ensures ServerTurned(s, d, S.Do(s, e))
  {
    hide Tail, Moved;
    var f := d.config.flags;
    SendsTwo(CertS, d, s.hs, f.certAuth, Message(Certificate, Chain(true)), f.certAuth && f.status, Dealt(d, CertificateStatus));
    ServerWent(s, d, S.Do(s, e));
  }

  lemma ServerKeyExchange(s: S.Server, d: Deal, e: Choice)
    requires ServerTurn(s, d, e) && s.state == S.SendServerKeyExchange
    ensures ServerTurned(s, d, S.Do(s, e))
  {
    hide Tail, Moved;
    SendsDue(ServerSide, KeyS, d, s.hs, d.Parameters(), Dealt(d, TlsTypes.ServerKeyExchange));
    if d.Parameters() && d.config.flags.certAuth && e.retry {
      ServerStands(s, d, S.Do(s, e));
    } else {
      ServerWent(s, d, S.Do(s, e));
    }
  }

  lemma ServerHelloDone(s: S.Server, d: Deal, e: Choice)
    requires ServerTurn(s, d, e) && s.state == S.SendServerHelloDone
    ensures ServerTurned(s, d, S.Do(s, e))
  {
    hide Tail, Moved;
    SendsTwo(RequestS, d, s.hs, d.Requested(), Dealt(d, CertificateRequest), true, Message(TlsTypes.ServerHelloDone, Blob(0)));
    ServerWent(s, d, S.Do(s, e));
  }

  lemma ServerClientCertificate(s: S.Server, d: Deal, e: Choice)
    requires ServerTurn(s, d, e) && s.state == S.ReadClientCertificate
    ensures ServerTurned(s, d, S.Do(s, e))
    ensures d.Requested() && HasMessage(s.hs) ==> s.hs.buffer[0].msg.body == Chain(d.hasCertificate)
  {
    hide Tail, Moved;
    var s' := S.Do(s, e);
    if !d.Requested() {
      ServerSkips(s, d, s', CertC);
    } else if HasMessage(s.hs) {
      ReadsDue(ClientSide, CertC, d, s.hs, Due(CertC, d, s.hs.transcript).entry);
      ServerRead(s, d, s', CertC);
    } else {
      ServerStands(s, d, s');
    }
  }

  lemma ServerVerifies(s: S.Server, d: Deal, e: Choice)
    requires ServerTurn(s, d, e) && s.state == S.VerifyClientCertificate
    ensures ServerTurned(s, d, S.Do(s, e))
  {
    ServerStands(s, d, S.Do(s, e));
  }

  lemma ServerClientKeyExchange(s: S.Server, d: Deal, e: Choice)
    requires ServerTurn(s, d, e) && s.state == S.ReadClientKeyExchange
    ensures ServerTurned(s, d, S.Do(s, e))
  {
    hide Tail, Moved;
    if HasMessage(s.hs) {
      ReadsDue(ClientSide, KeyC, d, s.hs, Due(KeyC, d, s.hs.transcript).entry);
    }
    if HasMessage(s.hs) && !e.retry {
      ServerRead(s, d, S.Do(s, e), KeyC);
    } else {
      ServerStands(s, d, S.Do(s, e));
    }
  }

  lemma ServerProof(s: S.Server, d: Deal, e: Choice)
    requires ServerTurn(s, d, e) && s.state == S.ReadClientCertificateVerify
    ensures ServerTurned(s, d, S.Do(s, e))
  {
    hide Tail, Moved;
    var s' := S.Do(s, e);
    if !(d.Requested() && d.hasCertificate) {
      ServerSkips(s, d, s', ProofC);
    } else if HasMessage(s.hs) {
      ReadsDue(ClientSide, ProofC, d, s.hs, Due(ProofC, d, s.hs.transcript).entry);
      ServerRead(s, d, s', ProofC);
    } else {
      ServerStands(s, d, s');
    }
  }

  lemma ServerChanges(s: S.Server, d: Deal, e: Choice)
    requires ServerTurn(s, d, e) && s.state in {S.ReadChangeCipherSpec, S.ProcessChangeCipherSpec}
    ensures ServerTurned(s, d, S.Do(s, e))
  {
    ServerStands(s, d, S.Do(s, e));
  }

  lemma ReadsNextProto(s: S.Server, d: Deal, e: Choice, s': S.Server)
    requires ServerTurn(s, d, e) && s.state == S.ReadNextProto
    requires s' == S.DoReadNextProto(s, e)
    ensures ServerTurned(s, d, s')
  {
    hide Tail, Moved;
    if !d.config.flags.npn {
      ServerSkips(s, d, s', ProtoC);
    } else if HasMessage(s.hs) {
      ReadsDue(ClientSide, ProtoC, d, s.hs, Due(ProtoC, d, s.hs.transcript).entry);
      ServerRead(s, d, s', ProtoC);
    } else {
      ServerStands(s, d, s');
    }
  }

  lemma ServerNextProto(s: S.Server, d: Deal, e: Choice)
    requires ServerTurn(s, d, e) && s.state == S.ReadNextProto
    ensures ServerTurned(s, d, S.Do(s, e))
  {
    hide Tail, Moved;
    ReadsNextProto(s, d, e, S.Do(s, e));
  }

  lemma ReadsChannelId(s: S.Server, d: Deal, e: Choice, s': S.Server)
    requires ServerTurn(s, d, e) && s.state == S.ReadChannelId
    requires s' == S.DoReadChannelId(s, e)
    ensures ServerTurned(s, d, s')
  {
    hide Tail, Moved;
    if !d.config.flags.channelId {
      ServerSkips(s, d, s', IdC);
    } else if HasMessage(s.hs) {
      ReadsDue(ClientSide, IdC, d, s.hs, Due(IdC, d, s.hs.transcript).entry);
      ServerRead(s, d, s', IdC);
    } else {
      ServerStands(s, d, s');
    }
  }

  lemma ServerChannelId(s: S.Server, d: Deal, e: Choice)
    requires ServerTurn(s, d, e) && s.state == S.ReadChannelId
    ensures ServerTurned(s, d, S.Do(s, e))
  {
    hide Tail, Moved;
    ReadsChannelId(s, d, e, S.Do(s, e));
  }

  lemma ReadsClientFinished(s: S.Server, d: Deal, e: Choice, s': S.Server)
    requires ServerTurn(s, d, e) && s.state == S.ReadClientFinished
    requires s' == S.DoReadClientFinished(s, e)
    ensures ServerTurned(s, d, s')
  {
    hide Tail, Moved;
    if HasMessage(s.hs) {
      ReadsDue(ClientSide, FinishC, d, s.hs, Due(FinishC, d, s.hs.transcript).entry);
      ServerRead(s, d, s', FinishC);
    } else {
      ServerStands(s, d, s');
    }
  }

  lemma ServerClientFinished(s: S.Server, d: Deal, e: Choice)
    requires ServerTurn(s, d, e) && s.state == S.ReadClientFinished
    ensures ServerTurned(s, d, S.Do(s, e))
  {
    hide Tail, Moved;
    ReadsClientFinished(s, d, e, S.Do(s, e));
  }

  // NewSessionTicket, ChangeCipherSpec and Finished in one go.
  function ServerLast(h: Hs, d: Deal): Hs {
    SendFinished(ChangeWriteCipher(AddIf(d.config.flags.ticket, h, Dealt(d, NewSessionTicket))), ServerSide)
  }

  lemma ServerLastIsDue(h: Hs, d: Deal)
    requires h.writeEpoch == 0
    ensures var h' := ServerLast(h, d);
      SentOne(ServerSide, h, Tail(TicketS, d, h.transcript), h', Tail(Next(FinishS, d.Resumed()), d, h'.transcript))
  {
    var h1 := AddIf(d.config.flags.ticket, h, Dealt(d, NewSessionTicket));
    var h2 := ChangeWriteCipher(h1);
    var h3 := SendFinished(h2, ServerSide);
    SendsDue(ServerSide, TicketS, d, h, d.config.flags.ticket, Dealt(d, NewSessionTicket));
    SendsCcs(ServerSide, ChangeS, d, h1);
    SendsFinished(ServerSide, FinishS, d, h2);
    var t0, t1, t2 := Tail(TicketS, d, h.transcript), Tail(ChangeS, d, h1.transcript), Tail(FinishS, d, h2.transcript);
    SentBoth(ServerSide, h, t0, h1, t1, h2, t2);
    SentBoth(ServerSide, h, t0, h2, t2, h3, Tail(Next(FinishS, d.Resumed()), d, h3.transcript));
  }

  lemma ServerSendsLast(s: S.Server, d: Deal, e: Choice)
    requires ServerAt(s, d) && s.state == S.SendServerFinished && Honest(e, d)
    ensures S.Do(s, e)
      == S.To(s, if d.Resumed() then S.ReadChangeCipherSpec else S.FinishServerHandshake, Flush, ServerLast(s.hs, d))
  {}

  lemma ServerLastStage(s: S.Server, d: Deal, next: S.State)
    requires s.state == S.SendServerFinished && next == if d.Resumed() then S.ReadChangeCipherSpec else S.FinishServerHandshake
    ensures ServerTail(s, d) == Tail(TicketS, d, s.hs.transcript)
    ensures var s' := S.To(s, next, Flush, ServerLast(s.hs, d));
      ServerTail(s', d) == Tail(Next(FinishS, d.Resumed()), d, s'.hs.transcript)
  {
    hide Tail;
  }

  lemma ServerFinished(s: S.Server, d: Deal, e: Choice)
    requires ServerTurn(s, d, e) && s.state == S.SendServerFinished
    ensures ServerTurned(s, d, S.Do(s, e))
  {
    hide Tail, Moved, SentOne, S.Do;
    ServerSendsLast(s, d, e);
    ServerLastIsDue(s.hs, d);
    var next := if d.Resumed() then S.ReadChangeCipherSpec else S.FinishServerHandshake;
    ServerLastStage(s, d, next);
    ServerWent(s, d, S.To(s, next, Flush, ServerLast(s.hs, d)));
  }

  lemma ServerEnds(s: S.Server, d: Deal, e: Choice)
    requires ServerTurn(s, d, e) && s.state in {S.FinishServerHandshake, S.Done}
    ensures ServerTurned(s, d, S.Do(s, e))
  {
    ServerStands(s, d, S.Do(s, e));
  }

  // One turn of an honest server.
  lemma ServerKeepsToScript(s: S.Server, d: Deal, e: Choice)
    requires ServerTurn(s, d, e)
    ensures ServerTurned(s, d, S.Do(s, e)) && ServerAt(S.Do(s, e), d)
  {
    match s.state
    case StartAccept =>
      ServerLooks(s, d, e);
      StaysGreeting(s, d, e);
    case ReadClientHello =>
      ServerClientHello(s, d, e);
      StaysGreeting(s, d, e);
    case SelectCertificate =>
      ServerLooks(s, d, e);
      StaysGreeting(s, d, e);
    case SelectParameters =>
      ServerParameters(s, d, e);
      StaysGreeting(s, d, e);
    case SendServerHello =>
      ServerHello(s, d, e);
      StaysHello(s, d, e);
    case SendServerCertificate =>
      ServerCertificate(s, d, e);
      StaysFlight(s, d, e);
    case SendServerKeyExchange =>
      ServerKeyExchange(s, d, e);
      StaysFlight(s, d, e);
    case SendServerHelloDone =>
      ServerHelloDone(s, d, e);
      StaysFlight(s, d, e);
    case ReadClientCertificate =>
      ServerClientCertificate(s, d, e);
      StaysCertificate(s, d, e);
    case VerifyClientCertificate =>
      ServerVerifies(s, d, e);
      StaysCertificate(s, d, e);
    case ReadClientKeyExchange =>
      ServerClientKeyExchange(s, d, e);
      StaysProof(s, d, e);
    case ReadClientCertificateVerify =>
      ServerProof(s, d, e);
      StaysProof(s, d, e);
    case ReadChangeCipherSpec =>
      ServerChanges(s, d, e);
      StaysChange(s, d, e);
    case ProcessChangeCipherSpec =>
      ServerChanges(s, d, e);
      StaysChange(s, d, e);
    case ReadNextProto =>
      ServerNextProto(s, d, e);
      StaysExtras(s, d, e);
    case ReadChannelId =>
      ServerChannelId(s, d, e);
      StaysExtras(s, d, e);
    case ReadClientFinished =>
      ServerClientFinished(s, d, e);
      StaysEnding(s, d, e);
    case SendServerFinished =>
      ServerFinished(s, d, e);
      StaysHello(s, d, e);
    case FinishServerHandshake =>
      ServerEnds(s, d, e);
      StaysEnding(s, d, e);
    case Done =>
      ServerEnds(s, d, e);
      StaysEnding(s, d, e);
  }
}
