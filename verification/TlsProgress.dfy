// Two honest peers never deadlock: until both are done there is always a step
// that brings them closer to the end.

module TlsProgress {
  import opened TlsTypes
  import opened TlsScript
  import opened TlsMoves
  import opened TlsClientScript
  import opened TlsServerScript
  import opened TlsPeers
  import opened TlsAgreement
  import C = TlsClient
  import S = TlsServer

  // Nothing asks to be called again.
  function Smooth(d: Deal): Choice {
    Choice(true, false, VerifyOk, false, d.blob)
  }

  // How many states are still ahead.
  function ClientAhead(state: C.State, resumed: bool): nat {
    match state
    case StartConnect => 18
    case EnterEarlyData => 17
    case ReadServerHello => 16
    case ReadServerCertificate => 15
    case ReadCertificateStatus => 14
    case VerifyServerCertificate => 13
    case ReadServerKeyExchange => 12
    case ReadCertificateRequest => 11
    case ReadServerHelloDone => 10
    case SendClientCertificate => 9
    case SendClientKeyExchange => 8
    case SendClientCertificateVerify => 7
    case SendClientFinished => if resumed then 3 else 6
    case FinishFlight => if resumed then 2 else 5
    case ReadSessionTicket => if resumed then 6 else 4
    case ProcessChangeCipherSpec => if resumed then 5 else 3
    case ReadServerFinished => if resumed then 4 else 2
    case FinishClientHandshake => 1
    case Done | Tls13 => 0
  }

  function ServerAhead(state: S.State, resumed: bool): nat {
    match state
    case StartAccept => 19
    case ReadClientHello => 18
    case SelectCertificate => 17
    case SelectParameters => 16
    case SendServerHello => 15
    case SendServerCertificate => 14
    case SendServerKeyExchange => 13
    case SendServerHelloDone => 12
    case ReadClientCertificate => 11
    case VerifyClientCertificate => 10
    case ReadClientKeyExchange => 9
    case ReadClientCertificateVerify => 8
    case ReadChangeCipherSpec => 7
    case ProcessChangeCipherSpec => 6
    case ReadNextProto => 5
    case ReadChannelId => 4
    case ReadClientFinished => 3
    case SendServerFinished => if resumed then 8 else 2
    case FinishServerHandshake => 1
    case Done | Tls13 => 0
  }

  function WaitAhead(wait: Wait): nat {
    match wait
    case Flush | Paused | EarlyReturn => 2
    case Go => 1
    case _ => 0
  }

  // A state weighs more than all it sends, and a record weighs less the closer
  // it is to its reader.
  function Weight(ahead: nat, wait: Wait, h: Hs): nat {
    32 * ahead + WaitAhead(wait) + 6 * |Pending(h)| + |h.buffer|
  }

  function Measure(w: World, d: Deal): nat {
    Weight(ClientAhead(w.client.state, d.Resumed()), w.client.wait, w.client.hs)
    + Weight(ServerAhead(w.server.state, d.Resumed()), w.server.wait, w.server.hs)
    + 4 * (|w.toServer| + |w.toClient|)
  }

  // One turn: the machine starts to wait for a message, or gets to a later
  // state and adds at most four records.
  ghost predicate Advanced(ahead: nat, h: Hs, ahead': nat, wait': Wait, h': Hs) {
    || (h' == h && ahead' == ahead && wait' == ReadMessage)
    || (ahead' < ahead && |h'.sent| <= |h.sent| + 4 && h'.flushed == h.flushed && |h'.buffer| <= |h.buffer|)
  }

  lemma AdvancedIsLighter(ahead: nat, h: Hs, ahead': nat, wait': Wait, h': Hs)
    requires Advanced(ahead, h, ahead', wait', h') && h.flushed <= |h.sent| && h'.flushed <= |h'.sent|
    ensures Weight(ahead', wait', h') < Weight(ahead, Go, h)
  {}

  ghost predicate ClientAdvanced(c: C.Client, d: Deal, c': C.Client) {
    Advanced(ClientAhead(c.state, d.Resumed()), c.hs, ClientAhead(c'.state, d.Resumed()), c'.wait, c'.hs)
  }

  ghost predicate ServerAdvanced(s: S.Server, d: Deal, s': S.Server) {
    Advanced(ServerAhead(s.state, d.Resumed()), s.hs, ServerAhead(s'.state, d.Resumed()), s'.wait, s'.hs)
  }

  lemma ClientGreetingAdvances(c: C.Client, d: Deal)
    requires ClientAt(c, d) && d.Possible() && C.Do(c, Smooth(d)).wait != Failed
    requires c.state in {C.StartConnect, C.EnterEarlyData, C.ReadServerHello}
    requires c.state == C.ReadServerHello && HasMessage(c.hs) ==> c.hs.buffer[0].msg.body == Hello(d.config.flags)
    ensures ClientAdvanced(c, d, C.Do(c, Smooth(d)))
  {}

  lemma ClientCertificateAdvances(c: C.Client, d: Deal)
    requires ClientAt(c, d) && d.Possible() && C.Do(c, Smooth(d)).wait != Failed
    requires c.state in {C.ReadServerCertificate, C.ReadCertificateStatus, C.VerifyServerCertificate, C.ReadServerKeyExchange}
    ensures ClientAdvanced(c, d, C.Do(c, Smooth(d)))
  {}

  lemma ClientRequestAdvances(c: C.Client, d: Deal)
    requires ClientAt(c, d) && d.Possible() && C.Do(c, Smooth(d)).wait != Failed
    requires c.state in {C.ReadCertificateRequest, C.ReadServerHelloDone, C.SendClientCertificate, C.SendClientKeyExchange}
    ensures ClientAdvanced(c, d, C.Do(c, Smooth(d)))
  {}

  lemma ClientSendingAdvances(c: C.Client, d: Deal)
    requires ClientAt(c, d) && d.Possible() && C.Do(c, Smooth(d)).wait != Failed
    requires c.state in {C.SendClientCertificateVerify, C.SendClientFinished, C.FinishFlight}
    ensures ClientAdvanced(c, d, C.Do(c, Smooth(d)))
  {}

  lemma ClientEndingAdvances(c: C.Client, d: Deal)
    requires ClientAt(c, d) && d.Possible() && C.Do(c, Smooth(d)).wait != Failed
    requires c.state in {C.ReadSessionTicket, C.ProcessChangeCipherSpec, C.ReadServerFinished, C.FinishClientHandshake}
    ensures ClientAdvanced(c, d, C.Do(c, Smooth(d)))
  {}

  lemma ServerGreetingAdvances(s: S.Server, d: Deal)
    requires ServerAt(s, d) && d.Possible() && S.Do(s, Smooth(d)).wait != Failed
    requires s.state in {S.StartAccept, S.ReadClientHello, S.SelectCertificate, S.SelectParameters}
    ensures ServerAdvanced(s, d, S.Do(s, Smooth(d)))
  {}

  lemma ServerFlightAdvances(s: S.Server, d: Deal)
    requires ServerAt(s, d) && d.Possible() && S.Do(s, Smooth(d)).wait != Failed
    requires s.state in {S.SendServerHello, S.SendServerCertificate, S.SendServerKeyExchange, S.SendServerHelloDone}
    ensures ServerAdvanced(s, d, S.Do(s, Smooth(d)))
  {}

  lemma ServerKeysAdvances(s: S.Server, d: Deal)
    requires ServerAt(s, d) && d.Possible() && S.Do(s, Smooth(d)).wait != Failed
    requires s.state in {S.ReadClientCertificate, S.VerifyClientCertificate, S.ReadClientKeyExchange, S.ReadClientCertificateVerify}
    ensures ServerAdvanced(s, d, S.Do(s, Smooth(d)))
  {}

  lemma ServerChangeAdvances(s: S.Server, d: Deal)
    requires ServerAt(s, d) && d.Possible() && S.Do(s, Smooth(d)).wait != Failed
    requires s.state in {S.ReadChangeCipherSpec, S.ProcessChangeCipherSpec, S.ReadNextProto, S.ReadChannelId}
    ensures ServerAdvanced(s, d, S.Do(s, Smooth(d)))
  {}

  lemma ServerEndingAdvances(s: S.Server, d: Deal)
    requires ServerAt(s, d) && d.Possible() && S.Do(s, Smooth(d)).wait != Failed
    requires s.state in {S.ReadClientFinished, S.SendServerFinished, S.FinishServerHandshake}
    ensures ServerAdvanced(s, d, S.Do(s, Smooth(d)))
  {}

  lemma ClientAdvances(c: C.Client, d: Deal)
    requires ClientTurn(c, d, Smooth(d)) && c.state != C.Done
    ensures C.Do(c, Smooth(d)).wait != Failed && ClientAdvanced(c, d, C.Do(c, Smooth(d)))
  {
    ClientKeepsToScript(c, d, Smooth(d));
    match c.state
    case StartConnect => ClientGreetingAdvances(c, d);
    case EnterEarlyData => ClientGreetingAdvances(c, d);
    case ReadServerHello =>
      ClientServerHello(c, d, Smooth(d));
      ClientGreetingAdvances(c, d);
    case ReadServerCertificate => ClientCertificateAdvances(c, d);
    case ReadCertificateStatus => ClientCertificateAdvances(c, d);
    case VerifyServerCertificate => ClientCertificateAdvances(c, d);
    case ReadServerKeyExchange => ClientCertificateAdvances(c, d);
    case ReadCertificateRequest => ClientRequestAdvances(c, d);
    case ReadServerHelloDone => ClientRequestAdvances(c, d);
    case SendClientCertificate => ClientRequestAdvances(c, d);
    case SendClientKeyExchange => ClientRequestAdvances(c, d);
    case SendClientCertificateVerify => ClientSendingAdvances(c, d);
    case SendClientFinished => ClientSendingAdvances(c, d);
    case FinishFlight => ClientSendingAdvances(c, d);
    case ReadSessionTicket => ClientEndingAdvances(c, d);
    case ProcessChangeCipherSpec => ClientEndingAdvances(c, d);
    case ReadServerFinished => ClientEndingAdvances(c, d);
    case FinishClientHandshake => ClientEndingAdvances(c, d);
  }

  lemma ServerAdvances(s: S.Server, d: Deal)
    requires ServerTurn(s, d, Smooth(d)) && s.state != S.Done
    ensures S.Do(s, Smooth(d)).wait != Failed && ServerAdvanced(s, d, S.Do(s, Smooth(d)))
  {
    ServerKeepsToScript(s, d, Smooth(d));
    match s.state
    case StartAccept => ServerGreetingAdvances(s, d);
    case ReadClientHello => ServerGreetingAdvances(s, d);
    case SelectCertificate => ServerGreetingAdvances(s, d);
    case SelectParameters => ServerGreetingAdvances(s, d);
    case SendServerHello => ServerFlightAdvances(s, d);
    case SendServerCertificate => ServerFlightAdvances(s, d);
    case SendServerKeyExchange => ServerFlightAdvances(s, d);
    case SendServerHelloDone => ServerFlightAdvances(s, d);
    case ReadClientCertificate => ServerKeysAdvances(s, d);
    case VerifyClientCertificate => ServerKeysAdvances(s, d);
    case ReadClientKeyExchange => ServerKeysAdvances(s, d);
    case ReadClientCertificateVerify => ServerKeysAdvances(s, d);
    case ReadChangeCipherSpec => ServerChangeAdvances(s, d);
    case ProcessChangeCipherSpec => ServerChangeAdvances(s, d);
    case ReadNextProto => ServerChangeAdvances(s, d);
    case ReadChannelId => ServerChangeAdvances(s, d);
    case ReadClientFinished => ServerEndingAdvances(s, d);
    case SendServerFinished => ServerEndingAdvances(s, d);
    case FinishServerHandshake => ServerEndingAdvances(s, d);
  }

  // ------------------------------------------------------------------
  // No deadlock

  // The client waits for what was not sent.
  predicate ClientStuck(w: World) {
    Receiving(w.client.wait) && w.toClient == []
  }

  predicate ServerStuck(w: World) {
    Receiving(w.server.wait) && w.toServer == []
  }

  lemma ClientRunsOn(w: World, d: Deal)
    requires Inv(w, d) && w.client.state != C.Done && w.client.wait == Go
    ensures Inv(Step(w, ClientRuns(Smooth(d))), d)
    ensures Measure(Step(w, ClientRuns(Smooth(d))), d) < Measure(w, d)
  {
    hide Tail, C.Do;
    StepKeepsInv(w, d, ClientRuns(Smooth(d)));
    HeadFits(w, d);
    ClientAdvances(w.client, d);
    var c, c' := w.client, C.Do(w.client, Smooth(d));
    AdvancedIsLighter(ClientAhead(c.state, d.Resumed()), c.hs, ClientAhead(c'.state, d.Resumed()), c'.wait, c'.hs);
  }

  lemma ClientReadsOn(w: World, d: Deal)
    requires Inv(w, d) && w.client.wait == ReadMessage && w.toClient != []
    ensures Inv(Step(w, ClientReceives), d) && Measure(Step(w, ClientReceives), d) < Measure(w, d)
  {
    StepKeepsInv(w, d, ClientReceives);
    ClientMessageArrives(w, d);
  }

  lemma ClientPassesOn(w: World, d: Deal)
    requires Inv(w, d) && w.client.wait == ReadCcs && w.toClient != []
    ensures Inv(Step(w, ClientReceives), d) && Measure(Step(w, ClientReceives), d) < Measure(w, d)
  {
    StepKeepsInv(w, d, ClientReceives);
    ClientCcsKeepsInv(w, d);
    CcsSteps(w);
  }

  lemma ClientQueuesOn(w: World, d: Deal)
    requires Inv(w, d) && w.client.wait in {Flush, Paused, EarlyReturn}
    ensures Inv(Step(w, ClientResumes), d) && Measure(Step(w, ClientResumes), d) < Measure(w, d)
  {
    hide Tail, C.Do;
    StepKeepsInv(w, d, ClientResumes);
    assert w.client.wait == Flush ==> |Step(w, ClientResumes).toServer| == |w.toServer| + |w.client.hs.sent| - w.client.hs.flushed;
  }

  // The client, unless it is done or stuck, has a step that gets both closer
  // to the end.
  lemma ClientGetsOn(w: World, d: Deal) returns (v: Event)
    requires Inv(w, d) && w.client.state != C.Done && !ClientStuck(w)
    ensures HonestEvent(v, d) && Inv(Step(w, v), d) && Measure(Step(w, v), d) < Measure(w, d)
  {
    if w.client.wait == Go {
      v := ClientRuns(Smooth(d));
      ClientRunsOn(w, d);
    } else if w.client.wait == ReadMessage {
      v := ClientReceives;
      ClientReadsOn(w, d);
    } else if w.client.wait == ReadCcs {
      v := ClientReceives;
      ClientPassesOn(w, d);
    } else {
      v := ClientResumes;
      ClientQueuesOn(w, d);
    }
  }

  lemma ServerTurnIsLighter(s: S.Server, d: Deal)
    requires ServerTurn(s, d, Smooth(d)) && s.state != S.Done && s.wait == Go
    requires var s' := S.Do(s, Smooth(d)); s.hs.flushed <= |s.hs.sent| && s'.hs.flushed <= |s'.hs.sent|
    ensures var s' := S.Do(s, Smooth(d));
      Weight(ServerAhead(s'.state, d.Resumed()), s'.wait, s'.hs) < Weight(ServerAhead(s.state, d.Resumed()), s.wait, s.hs)
  {
    hide S.Do, ServerAhead, Weight, Advanced, ServerTurn;
    ServerAdvances(s, d);
    var s' := S.Do(s, Smooth(d));
    AdvancedIsLighter(ServerAhead(s.state, d.Resumed()), s.hs, ServerAhead(s'.state, d.Resumed()), s'.wait, s'.hs);
  }

  lemma ServerIsReady(w: World, d: Deal)
    requires Inv(w, d)
    ensures w.server.hs.flushed <= |w.server.hs.sent|
    ensures w.server.wait == Go ==> ServerTurn(w.server, d, Smooth(d))
  {
    hide Tail;
    HeadFits(w, d);
  }

  lemma ServerRunsOn(w: World, d: Deal)
    requires Inv(w, d) && w.server.state != S.Done && w.server.wait == Go
    ensures Inv(Step(w, ServerRuns(Smooth(d))), d)
    ensures Measure(Step(w, ServerRuns(Smooth(d))), d) < Measure(w, d)
  {
    hide Inv, S.Do, ServerAhead, ClientAhead, Weight, ServerTurn;
    StepKeepsInv(w, d, ServerRuns(Smooth(d)));
    ServerIsReady(w, d);
    ServerIsReady(Step(w, ServerRuns(Smooth(d))), d);
    ServerTurnIsLighter(w.server, d);
  }

  lemma ServerReadsOn(w: World, d: Deal)
    requires Inv(w, d) && w.server.wait == ReadMessage && w.toServer != []
    ensures Inv(Step(w, ServerReceives), d) && Measure(Step(w, ServerReceives), d) < Measure(w, d)
  {
    StepKeepsInv(w, d, ServerReceives);
    ServerMessageArrives(w, d);
  }

  lemma ServerPassesOn(w: World, d: Deal)
    requires Inv(w, d) && w.server.wait == ReadCcs && w.toServer != []
    ensures Inv(Step(w, ServerReceives), d) && Measure(Step(w, ServerReceives), d) < Measure(w, d)
  {
    StepKeepsInv(w, d, ServerReceives);
    ServerCcsKeepsInv(w, d);
    CcsSteps(w);
  }

  lemma ServerQueuesOn(w: World, d: Deal)
    requires Inv(w, d) && w.server.wait in {Flush, Paused, EarlyReturn}
    ensures Inv(Step(w, ServerResumes), d) && Measure(Step(w, ServerResumes), d) < Measure(w, d)
  {
    hide Tail, S.Do;
    StepKeepsInv(w, d, ServerResumes);
    assert w.server.wait == Flush ==> |Step(w, ServerResumes).toClient| == |w.toClient| + |w.server.hs.sent| - w.server.hs.flushed;
  }

  // The server, unless it is done or stuck, has a step that gets both closer
  // to the end.
  lemma ServerGetsOn(w: World, d: Deal) returns (v: Event)
    requires Inv(w, d) && w.server.state != S.Done && !ServerStuck(w)
    ensures HonestEvent(v, d) && Inv(Step(w, v), d) && Measure(Step(w, v), d) < Measure(w, d)
  {
    if w.server.wait == Go {
      v := ServerRuns(Smooth(d));
      ServerRunsOn(w, d);
    } else if w.server.wait == ReadMessage {
      v := ServerReceives;
      ServerReadsOn(w, d);
    } else if w.server.wait == ReadCcs {
      v := ServerReceives;
      ServerPassesOn(w, d);
    } else {
      v := ServerResumes;
      ServerQueuesOn(w, d);
    }
  }

  // A stuck side needs an entry of its peer; one that is done needs nothing.
  lemma ClientNeeds(c: C.Client, d: Deal)
    requires ClientAt(c, d) && HeadIsNext(c.hs, ServerSide, ClientTail(c, d))
    ensures Receiving(c.wait) ==>
      ClientTail(c, d) != [] && ClientTail(c, d)[0].from == ServerSide && !HasMessage(c.hs) && c.hs.flushed == |c.hs.sent|
    ensures c.state == C.Done ==> ClientTail(c, d) == [] && !HasMessage(c.hs) && c.hs.flushed == |c.hs.sent|
  {
    if c.wait == ReadMessage {
      ClientAwaits(c, d);
      MessageAhead(ClientStage(c.state, c.wait, d.Resumed()), d, c.hs.transcript);
    } else if c.wait == ReadCcs {
      ClientHoldsNothing(c, d);
      ClientPassesCcs(c, d);
    }
  }

  lemma ServerNeeds(s: S.Server, d: Deal)
    requires ServerAt(s, d) && HeadIsNext(s.hs, ClientSide, ServerTail(s, d))
    ensures Receiving(s.wait) ==>
      ServerTail(s, d) != [] && ServerTail(s, d)[0].from == ClientSide && !HasMessage(s.hs) && s.hs.flushed == |s.hs.sent|
    ensures s.state == S.Done ==> ServerTail(s, d) == [] && !HasMessage(s.hs) && s.hs.flushed == |s.hs.sent|
  {
    if s.wait == ReadMessage {
      ServerAwaits(s, d);
      MessageAhead(ServerStage(s.state, s.wait, d.Resumed()), d, s.hs.transcript);
    } else if s.wait == ReadCcs {
      ServerHoldsNothing(s, d);
      ServerPassesCcs(s, d);
    }
  }

  lemma Standoff(fromServer: seq<Record>, fromClient: seq<Record>, client: seq<Entry>, server: seq<Entry>)
    requires InStep(fromServer, fromClient, client, server)
    ensures fromServer == [] && fromClient == [] ==> client == server
    ensures fromServer == [] && server == [] ==> client == []
    ensures fromClient == [] && client == [] ==> server == []
  {
    assert Sends(ServerSide, []) == [] && Sends(ClientSide, []) == [];
    assert [] + client == client && [] + server == server;
  }

  // One of the two can always go on.
  lemma NotBothStuck(w: World, d: Deal)
    requires Inv(w, d)
    requires w.client.state == C.Done || ClientStuck(w)
    requires w.server.state == S.Done || ServerStuck(w)
    ensures w.client.state == C.Done && w.server.state == S.Done
  {
    HeadFits(w, d);
    ClientNeeds(w.client, d);
    ServerNeeds(w.server, d);
    var s, c := Between(w.client.hs, w.toClient, w.server.hs), Between(w.server.hs, w.toServer, w.client.hs);
    Standoff(s, c, ClientTail(w.client, d), ServerTail(w.server, d));
    assert ClientStuck(w) ==> s == [];
    assert ServerStuck(w) ==> c == [];
  }

  lemma SomeoneGetsOn(w: World, d: Deal) returns (v: Event)
    requires Inv(w, d) && (w.client.state != C.Done || w.server.state != S.Done)
    ensures HonestEvent(v, d) && Inv(Step(w, v), d) && Measure(Step(w, v), d) < Measure(w, d)
  {
    if w.client.state != C.Done && !ClientStuck(w) {
      v := ClientGetsOn(w, d);
    } else if w.server.state != S.Done && !ServerStuck(w) {
      v := ServerGetsOn(w, d);
    } else {
      NotBothStuck(w, d);
    }
  }

  // What is left after a run.
  function Left(d: Deal, events: seq<Event>): nat {
    Measure(Execute(d, events), d)
  }

  predicate BothDone(d: Deal, events: seq<Event>) {
    var w := Execute(d, events);
    w.client.state == C.Done && w.server.state == S.Done
  }

  lemma ExecuteSnoc(d: Deal, events: seq<Event>, v: Event)
    ensures Execute(d, events + [v]) == Step(Execute(d, events), v)
  {
    assert (events + [v])[..|events|] == events;
  }

  lemma RunIsInv(d: Deal, events: seq<Event>)
    requires HonestRun(d, events)
    ensures Inv(Execute(d, events), d)
  {
    RunIsGood(d, events);
  }

  lemma HonestSnoc(d: Deal, events: seq<Event>, v: Event)
    requires HonestRun(d, events) && HonestEvent(v, d)
    ensures HonestRun(d, events + [v])
  {}

  // Whatever happened so far, unless both are done, some step of one of them
  // that needs nothing from outside gets them closer to the end.
  lemma NoDeadlock(d: Deal, events: seq<Event>) returns (v: Event)
    requires HonestRun(d, events) && !BothDone(d, events)
    ensures HonestRun(d, events + [v]) && Left(d, events + [v]) < Left(d, events)
  {
    RunIsInv(d, events);
    v := SomeoneGetsOn(Execute(d, events), d);
    ExecuteSnoc(d, events, v);
    HonestSnoc(d, events, v);
  }

  // If every run that is not done can be brought closer to the end by one
  // more step, it can be brought to the end.
  lemma {:induction false} Descend(honest: seq<Event> -> bool, done: seq<Event> -> bool, left: seq<Event> -> nat,
                                   events: seq<Event>, n: nat) returns (more: seq<Event>)
    requires honest(events) && n >= left(events)
    requires forall es :: honest(es) && !done(es) ==> exists v :: honest(es + [v]) && left(es + [v]) < left(es)
    ensures |more| <= n && honest(events + more) && done(events + more)
    decreases n
  {
    if done(events) {
      more := [];
      assert events + [] == events;
    } else {
      var v :| honest(events + [v]) && left(events + [v]) < left(events);
      var rest := Descend(honest, done, left, events + [v], n - 1);
      more := [v] + rest;
      assert events + [v] + rest == events + more;
    }
  }

  // So from anywhere the peers can finish, within as many steps as the measure
  // says, and when they do they agree.
  lemma PeersFinish(d: Deal, events: seq<Event>) returns (more: seq<Event>)
    requires HonestRun(d, events)
    ensures |more| <= Left(d, events) && HonestRun(d, events + more)
    ensures BothDone(d, events + more) && Agreed(Execute(d, events + more), d)
  {
    var honest, done, left := es => HonestRun(d, es), es => BothDone(d, es), es => Left(d, es);
    forall es | honest(es) && !done(es) ensures exists v :: honest(es + [v]) && left(es + [v]) < left(es) {
      var v := NoDeadlock(d, es);
      assert honest(es + [v]) && left(es + [v]) < left(es);
    }
    more := Descend(honest, done, left, events, left(events));
    DoneMeansAgreed(d, events + more);
  }
}
