// What one step of either machine never does, and where its marks come from.

module TlsDiscipline {
  import opened TlsTypes
  import C = TlsClient
  import S = TlsServer

  // ------------------------------------------------------------------
  // Records

  // A record is taken exactly in its epoch, and a ChangeCipherSpec exactly
  // when one is awaited; anything else is fatal and changes nothing.
  lemma OpenIsStrict(h: Hs, wait: Wait, r: Record)
    ensures var o := Open(h, wait, r);
      && (o.wait == Go <==> r.epoch == h.readEpoch && (r.content.Ccs? <==> wait == ReadCcs))
      && (o.wait != Go ==> o == Opened(Failed, h))
      && (o.wait == Go ==> o.hs == h.(buffer := h.buffer + if r.content.Ccs? then [] else Hold(r.content.msgs, r.epoch)))
  {
    assert h.buffer + [] == h.buffer;
  }

  // A message may be taken from the front of the buffer; then it is hashed.
  ghost predicate TakesInOrder(h: Hs, h': Hs) {
    || (h'.buffer == h.buffer && h.transcript <= h'.transcript)
    || (HasMessage(h) && h'.buffer == h.buffer[1..] && h'.transcript == h.transcript + [h.buffer[0].msg])
  }

  // Nothing was read, sent or changed.
  ghost predicate Idle(h: Hs, h': Hs) {
    && h'.buffer == h.buffer && h'.transcript == h.transcript && h'.sent == h.sent
    && h'.readEpoch == h.readEpoch && h'.writeEpoch == h.writeEpoch
  }

  // Where something opaque went wrong, nothing is read, sent or changed; a
  // message is waited for only if none is at hand; to pause is to come back
  // to the same state; and what is taken is hashed.
  ghost predicate Disciplined(ok: bool, wait: Wait, done: bool, h: Hs, h': Hs) {
    && (!ok ==> Idle(h, h') && !done)
    && (wait == ReadMessage ==> !HasMessage(h))
    && (wait in {Paused, ReadMessage, Failed} ==> h' == h)
    && TakesInOrder(h, h')
  }

  lemma ClientReadsInOrder(c: C.Client, e: Choice)
    requires c.wait == Go && c.state in {C.ReadServerHello, C.ReadServerCertificate, C.ReadCertificateStatus, C.VerifyServerCertificate,
                                          C.ReadServerKeyExchange, C.ReadCertificateRequest, C.ReadServerHelloDone}
    ensures var d := C.Do(c, e); Disciplined(e.ok, d.wait, d.state == C.Done, c.hs, d.hs)
  {}

  lemma ClientSendsInOrder(c: C.Client, e: Choice)
    requires c.wait == Go && c.state in {C.StartConnect, C.EnterEarlyData, C.SendClientCertificate, C.SendClientKeyExchange,
                                          C.SendClientCertificateVerify, C.Tls13}
    ensures var d := C.Do(c, e); Disciplined(e.ok, d.wait, d.state == C.Done, c.hs, d.hs)
  {}

  lemma ClientWritesInOrder(c: C.Client, e: Choice)
    requires c.wait == Go && c.state == C.SendClientFinished
    ensures var d := C.DoSendClientFinished(c, e); Disciplined(e.ok, d.wait, d.state == C.Done, c.hs, d.hs)
  {
    var h := ChangeWriteCipher(c.hs);
    var h' := AddIf(h.flags.npn, h, Opaque(e, NextProto));
    var h'' := AddIf(h.flags.channelId, h', Opaque(e, ChannelId));
    assert h.transcript <= h'.transcript <= h''.transcript <= SendFinished(h'', ClientSide).transcript;
  }

  lemma ClientEndsInOrder(c: C.Client, e: Choice)
    requires c.wait == Go && c.state in {C.FinishFlight, C.ReadSessionTicket, C.ProcessChangeCipherSpec, C.ReadServerFinished,
                                          C.FinishClientHandshake}
    ensures var d := C.Do(c, e); Disciplined(e.ok, d.wait, d.state == C.Done, c.hs, d.hs)
  {}

  lemma ClientIsDisciplined(c: C.Client, e: Choice)
    requires c.wait == Go && c.state != C.Done
    ensures var d := C.Do(c, e);
      && Disciplined(e.ok, d.wait, d.state == C.Done, c.hs, d.hs)
      && (d.wait == Paused ==> C.Step(d, C.Resume) == c)
  {
    hide Disciplined;
    match c.state
    case StartConnect | EnterEarlyData | Tls13 => ClientSendsInOrder(c, e);
    case SendClientCertificate | SendClientKeyExchange | SendClientCertificateVerify => ClientSendsInOrder(c, e);
    case SendClientFinished => ClientWritesInOrder(c, e);
    case FinishFlight | ReadSessionTicket | ProcessChangeCipherSpec => ClientEndsInOrder(c, e);
    case ReadServerFinished | FinishClientHandshake => ClientEndsInOrder(c, e);
    case _ => ClientReadsInOrder(c, e);
  }

  lemma ServerHellosInOrder(s: S.Server, e: Choice)
    requires s.wait == Go && s.state in {S.StartAccept, S.ReadClientHello, S.SelectCertificate, S.SelectParameters, S.Tls13}
    ensures var t := S.Do(s, e); Disciplined(e.ok, t.wait, t.state == S.Done, s.hs, t.hs)
  {}

  lemma ServerSendsInOrder(s: S.Server, e: Choice)
    requires s.wait == Go && s.state in {S.SendServerHello, S.SendServerCertificate, S.SendServerKeyExchange, S.SendServerHelloDone}
    ensures var t := S.Do(s, e); Disciplined(e.ok, t.wait, t.state == S.Done, s.hs, t.hs)
  {
    AddsTwo(s.hs, s.hs.flags.certAuth, Message(Certificate, Chain(true)), s.hs.flags.certAuth && s.hs.flags.status, Opaque(e, CertificateStatus));
    AddsTwo(s.hs, s.hs.certRequest, Opaque(e, CertificateRequest), true, Message(ServerHelloDone, Blob(0)));
  }

  lemma AddsTwo(h: Hs, first: bool, m: Message, second: bool, m': Message)
    ensures TakesInOrder(h, AddIf(second, AddIf(first, h, m), m'))
  {
    assert h.transcript <= AddIf(first, h, m).transcript <= AddIf(second, AddIf(first, h, m), m').transcript;
  }

  lemma ServerReadsInOrder(s: S.Server, e: Choice)
    requires s.wait == Go && s.state in {S.ReadClientCertificate, S.VerifyClientCertificate, S.ReadClientKeyExchange,
                                          S.ReadClientCertificateVerify, S.ReadChangeCipherSpec}
    ensures var t := S.Do(s, e); Disciplined(e.ok, t.wait, t.state == S.Done, s.hs, t.hs)
  {}

  lemma ServerEndsInOrder(s: S.Server, e: Choice)
    requires s.wait == Go && s.state in {S.ProcessChangeCipherSpec, S.ReadNextProto, S.ReadChannelId, S.ReadClientFinished,
                                          S.FinishServerHandshake}
    ensures var t := S.Do(s, e); Disciplined(e.ok, t.wait, t.state == S.Done, s.hs, t.hs)
  {}

  lemma ServerWritesInOrder(s: S.Server, e: Choice)
    requires s.wait == Go && s.state == S.SendServerFinished
    ensures var t := S.DoSendServerFinished(s, e); Disciplined(e.ok, t.wait, t.state == S.Done, s.hs, t.hs)
  {
    var h := AddIf(s.hs.flags.ticket, s.hs, Opaque(e, NewSessionTicket));
    assert s.hs.transcript <= h.transcript <= SendFinished(ChangeWriteCipher(h), ServerSide).transcript;
  }

  lemma ServerIsDisciplined(s: S.Server, e: Choice)
    requires s.wait == Go && s.state != S.Done
    ensures var t := S.Do(s, e);
      && Disciplined(e.ok, t.wait, t.state == S.Done, s.hs, t.hs)
      && (t.wait == Paused ==> S.Step(t, S.Resume) == s)
  {
    hide Disciplined;
    match s.state
    case StartAccept | ReadClientHello | SelectCertificate => ServerHellosInOrder(s, e);
    case SelectParameters | Tls13 => ServerHellosInOrder(s, e);
    case SendServerHello | SendServerCertificate | SendServerKeyExchange => ServerSendsInOrder(s, e);
    case SendServerHelloDone => ServerSendsInOrder(s, e);
    case ProcessChangeCipherSpec | ReadNextProto | ReadChannelId => ServerEndsInOrder(s, e);
    case ReadClientFinished | FinishServerHandshake => ServerEndsInOrder(s, e);
    case SendServerFinished => ServerWritesInOrder(s, e);
    case _ => ServerReadsInOrder(s, e);
  }

  // After a failure nothing happens any more.
  lemma FailedStays(c: C.Client, v: C.Event, s: S.Server, x: S.Event)
    ensures c.wait == Failed ==> C.Step(c, v) == c
    ensures s.wait == Failed ==> S.Step(s, x) == s
  {}

  // ------------------------------------------------------------------
  // Where the marks come from

  // At some time of a run, this mark was earned.
  ghost predicate ClientEarned(hasCertificate: bool, events: seq<C.Event>, i: nat) {
    i < |events| && events[i].Run? && events[i].e.verdict == VerifyOk
    && C.Execute(C.Start(hasCertificate), events[..i]).state == C.VerifyServerCertificate
  }

  lemma ClientMarks(c: C.Client, v: C.Event)
    requires PeerVerified in C.Step(c, v).hs.log && PeerVerified !in c.hs.log
    ensures v.Run? && v.e.verdict == VerifyOk && c.state == C.VerifyServerCertificate
  {
    assert v.Run? && c.wait == Go;
    if c.state != C.VerifyServerCertificate {
      ClientLogGrows(c, v.e);
    }
  }

  // Elsewhere only ciphers and Finished messages are marked.
  predicate NotPeer(log: seq<Mark>, log': seq<Mark>) {
    log <= log' && forall i :: |log| <= i < |log'| ==> log'[i] != PeerVerified && log'[i] != SignatureVerified
  }

  lemma ClientLogGrows(c: C.Client, e: Choice)
    requires c.state != C.VerifyServerCertificate
    ensures NotPeer(c.hs.log, C.Do(c, e).hs.log)
  {}

  // A client that holds the server's certificate for verified was told so by
  // the verification.
  lemma {:induction false} VerifiedMeansOk(hasCertificate: bool, events: seq<C.Event>) returns (i: nat)
    requires PeerVerified in C.Execute(C.Start(hasCertificate), events).hs.log
    ensures ClientEarned(hasCertificate, events, i)
    decreases |events|
  {
    hide C.Step;
    var n := |events| - 1;
    var c := C.Execute(C.Start(hasCertificate), events[..n]);
    if PeerVerified in c.hs.log {
      i := VerifiedMeansOk(hasCertificate, events[..n]);
      assert events[..n][..i] == events[..i];
    } else {
      ClientMarks(c, events[n]);
      i := n;
    }
  }

  ghost predicate ServerEarned(config: S.Config, events: seq<S.Event>, i: nat) {
    i < |events| && events[i].Run? && events[i].e.verdict == VerifyOk
    && S.Execute(S.Start(config), events[..i]).state == S.VerifyClientCertificate
  }

  // The proof of possession is a CertificateVerify in which all was in order.
  ghost predicate ServerProved(config: S.Config, events: seq<S.Event>, i: nat) {
    var s := S.Execute(S.Start(config), events[..(if i < |events| then i else 0)]);
    && i < |events| && events[i].Run? && events[i].e.ok && s.state == S.ReadClientCertificateVerify
    && HasMessage(s.hs) && s.hs.buffer[0].msg.kind == CertificateVerify
  }

  lemma ServerLogGrows(s: S.Server, e: Choice)
    requires s.state != S.VerifyClientCertificate && s.state != S.ReadClientCertificateVerify
    ensures NotPeer(s.hs.log, S.Do(s, e).hs.log)
  {}

  lemma ServerMarks(s: S.Server, v: S.Event)
    requires s.hs.log != S.Step(s, v).hs.log
    ensures v.Run? && s.wait == Go && s.hs.log <= S.Step(s, v).hs.log
    ensures PeerVerified in S.Step(s, v).hs.log && PeerVerified !in s.hs.log ==>
      v.e.verdict == VerifyOk && s.state == S.VerifyClientCertificate
    ensures SignatureVerified in S.Step(s, v).hs.log && SignatureVerified !in s.hs.log ==>
      && v.e.ok && s.state == S.ReadClientCertificateVerify
      && HasMessage(s.hs) && s.hs.buffer[0].msg.kind == CertificateVerify
  {
    if s.state != S.VerifyClientCertificate && s.state != S.ReadClientCertificateVerify {
      ServerLogGrows(s, v.e);
    }
  }

  // The same for a server and its client, and for the proof of possession.
  lemma {:induction false} ProvedMeansOk(config: S.Config, events: seq<S.Event>) returns (i: nat, j: nat)
    ensures PeerVerified in S.Execute(S.Start(config), events).hs.log ==> ServerEarned(config, events, i)
    ensures SignatureVerified in S.Execute(S.Start(config), events).hs.log ==> ServerProved(config, events, j)
    decreases |events|
  {
    hide S.Step;
    i, j := 0, 0;
    if events != [] {
      var n := |events| - 1;
      var s := S.Execute(S.Start(config), events[..n]);
      i, j := ProvedMeansOk(config, events[..n]);
      if PeerVerified in s.hs.log {
        assert events[..n][..i] == events[..i];
      }
      if SignatureVerified in s.hs.log {
        assert events[..n][..j] == events[..j];
      }
      if S.Step(s, events[n]).hs.log != s.hs.log {
        ServerMarks(s, events[n]);
      }
      if PeerVerified !in s.hs.log { i := n; }
      if SignatureVerified !in s.hs.log { j := n; }
    }
  }
}
