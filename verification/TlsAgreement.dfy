// What two honest peers achieve, in whatever order their steps come and
// however often a callback asks to be called again.

module TlsAgreement {
  import opened TlsTypes
  import opened TlsScript
  import opened TlsMoves
  import opened TlsClientScript
  import opened TlsServerScript
  import opened TlsPeers
  import opened TlsSafety
  import C = TlsClient
  import S = TlsServer

  // ------------------------------------------------------------------
  // Transcripts and records

  function Only(side: Side, es: seq<Entry>): seq<Entry> {
    if es == [] then [] else (if es[0].from == side then [es[0]] else []) + Only(side, es[1..])
  }

  lemma {:induction false} OnlyAppend(side: Side, a: seq<Entry>, b: seq<Entry>)
    ensures Only(side, a + b) == Only(side, a) + Only(side, b)
  {
    if a == [] {
      assert a + b == b;
    } else {
      assert (a + b)[1..] == a[1..] + b;
      OnlyAppend(side, a[1..], b);
      Regroup(if a[0].from == side then [a[0]] else [], Only(side, a[1..]), Only(side, b));
    }
  }

  lemma {:induction false} OnlySends(side: Side, rs: seq<Record>)
    ensures Only(side, Sends(side, rs)) == Sends(side, rs)
    decreases |rs|
  {
    if rs != [] {
      assert Sends(side, rs)[1..] == Sends(side, rs[1..]);
      OnlySends(side, rs[1..]);
    }
  }

  // Everything of the script is behind a side or ahead of it: the messages in
  // its transcript, and the records it sends in what it sent.
  ghost predicate Accounted(side: Side, h: Hs, tail: seq<Entry>, script: seq<Entry>) {
    && h.transcript + MessagesIn(tail) == MessagesIn(script)
    && Sends(side, h.sent) + Only(side, tail) == Only(side, script)
  }

  lemma MoveAccounts(side: Side, peer: Side, h: Hs, tail: seq<Entry>, h': Hs, tail': seq<Entry>, script: seq<Entry>)
    requires side != peer && Moved(side, peer, h, tail, h', tail') && Accounted(side, h, tail, script)
    ensures Accounted(side, h', tail', script)
  {
    if SentOne(side, h, tail, h', tail') {
      SentAccounts(side, h, tail, h', tail', script);
    } else if HasMessage(h) && tail == [Plain(peer, h.buffer[0].epoch, h.buffer[0].msg)] + tail' {
      ReadAccounts(side, h, Plain(peer, h.buffer[0].epoch, h.buffer[0].msg), tail', script);
    }
  }

  lemma ReadAccounts(side: Side, h: Hs, e: Entry, rest: seq<Entry>, script: seq<Entry>)
    requires e.from != side && Accounted(side, h, [e] + rest, script)
    ensures h.transcript + MessagesOf(e.record.content) + MessagesIn(rest) == MessagesIn(script)
    ensures Sends(side, h.sent) + Only(side, rest) == Only(side, script)
  {
    assert ([e] + rest)[1..] == rest;
    assert [] + Only(side, rest) == Only(side, rest);
  }

  lemma SentAccounts(side: Side, h: Hs, tail: seq<Entry>, h': Hs, tail': seq<Entry>, script: seq<Entry>)
    requires SentOne(side, h, tail, h', tail') && Accounted(side, h, tail, script)
    ensures Accounted(side, h', tail', script)
  {
    var more := Sends(side, h'.sent[|h.sent|..]);
    MessagesAppend(more, tail');
    OnlyAppend(side, more, tail');
    OnlySends(side, h'.sent[|h.sent|..]);
    SendsPrefix(side, h.sent, h'.sent);
    Regroup(h.transcript, MessagesIn(more), MessagesIn(tail'));
    Regroup(Sends(side, h.sent), more, Only(side, tail'));
  }

  lemma SendsPrefix(side: Side, a: seq<Record>, b: seq<Record>)
    requires a <= b
    ensures Sends(side, b) == Sends(side, a) + Sends(side, b[|a|..])
  {}

  lemma Regroup<T>(a: seq<T>, b: seq<T>, c: seq<T>)
    ensures a + b + c == a + (b + c)
  {}

  // ------------------------------------------------------------------
  // Runs

  ghost predicate ClientGood(c: C.Client, d: Deal) {
    Accounted(ClientSide, c.hs, ClientTail(c, d), Script(d)) && ClientOk(c)
  }

  ghost predicate ServerGood(s: S.Server, d: Deal) {
    Accounted(ServerSide, s.hs, ServerTail(s, d), Script(d)) && ServerOk(s)
  }

  ghost predicate Good(w: World, d: Deal) {
    Inv(w, d) && ClientGood(w.client, d) && ServerGood(w.server, d)
  }

  lemma ClientRunAccounts(w: World, d: Deal, e: Choice)
    requires Good(w, d) && Honest(e, d) && w.client.wait == Go
    ensures ClientGood(C.Do(w.client, e), d)
  {
    HeadFits(w, d);
    ClientKeepsToScript(w.client, d, e);
    var c' := C.Do(w.client, e);
    MoveAccounts(ClientSide, ServerSide, w.client.hs, ClientTail(w.client, d), c'.hs, ClientTail(c', d), Script(d));
    ClientDoKeepsOk(w.client, e);
  }

  lemma ServerRunAccounts(w: World, d: Deal, e: Choice)
    requires Good(w, d) && Honest(e, d) && w.server.wait == Go
    ensures ServerGood(S.Do(w.server, e), d)
  {
    HeadFits(w, d);
    ServerKeepsToScript(w.server, d, e);
    var s' := S.Do(w.server, e);
    MoveAccounts(ServerSide, ClientSide, w.server.hs, ServerTail(w.server, d), s'.hs, ServerTail(s', d), Script(d));
    ServerDoKeepsOk(w.server, e);
  }

  // A ChangeCipherSpec of the peer carries no message.
  lemma CcsAccounts(side: Side, peer: Side, h: Hs, rest: seq<Entry>, script: seq<Entry>)
    requires side != peer && Accounted(side, h, [Entry(peer, Record(0, Ccs))] + rest, script)
    ensures Accounted(side, h, rest, script)
  {
    ReadAccounts(side, h, Entry(peer, Record(0, Ccs)), rest, script);
    assert h.transcript + [] == h.transcript;
  }

  lemma ClientHoldsAccounts(c: C.Client, d: Deal, r: Record)
    requires ClientAt(c, d) && ClientGood(c, d) && c.wait == ReadMessage && r.content.Messages? && r.epoch == c.hs.readEpoch
    ensures ClientGood(c.(wait := Go, hs := c.hs.(buffer := c.hs.buffer + Hold(r.content.msgs, r.epoch))), d)
  {
    ClientHolds(c, d, c.hs.buffer + Hold(r.content.msgs, r.epoch));
  }

  lemma ServerHoldsAccounts(s: S.Server, d: Deal, r: Record)
    requires ServerAt(s, d) && ServerGood(s, d) && s.wait == ReadMessage && r.content.Messages? && r.epoch == s.hs.readEpoch
    ensures ServerGood(s.(wait := Go, hs := s.hs.(buffer := s.hs.buffer + Hold(r.content.msgs, r.epoch))), d)
  {
    ServerHolds(s, d, s.hs.buffer + Hold(r.content.msgs, r.epoch));
  }

  lemma ClientCcsAccounts(w: World, d: Deal)
    requires Good(w, d) && w.client.wait == ReadCcs && w.toClient != []
    ensures ClientGood(w.client.(wait := Go), d)
  {
    var c := w.client;
    HeadFits(w, d);
    ClientHoldsNothing(c, d);
    ClientPassesCcs(c, d);
    CcsAccounts(ClientSide, ServerSide, c.hs, ClientTail(c.(wait := Go), d), Script(d));
  }

  lemma ServerCcsAccounts(w: World, d: Deal)
    requires Good(w, d) && w.server.wait == ReadCcs && w.toServer != []
    ensures ServerGood(w.server.(wait := Go), d)
  {
    var s := w.server;
    HeadFits(w, d);
    ServerHoldsNothing(s, d);
    ServerPassesCcs(s, d);
    CcsAccounts(ServerSide, ClientSide, s.hs, ServerTail(s.(wait := Go), d), Script(d));
  }

  lemma ClientReceiveAccounts(w: World, d: Deal)
    requires Good(w, d)
    ensures ClientGood(Step(w, ClientReceives).client, d)
  {
    hide Tail, C.Do, Only, MessagesIn;
    if w.toClient != [] && w.client.wait == ReadMessage {
      ClientMessageArrives(w, d);
      ClientHoldsAccounts(w.client, d, w.toClient[0]);
    } else if w.toClient != [] && w.client.wait == ReadCcs {
      ClientCcsAccounts(w, d);
      ClientCcsKeepsInv(w, d);
      CcsSteps(w);
    }
  }

  lemma ServerReceiveAccounts(w: World, d: Deal)
    requires Good(w, d)
    ensures ServerGood(Step(w, ServerReceives).server, d)
  {
    hide Tail, S.Do, Only, MessagesIn;
    if w.toServer != [] && w.server.wait == ReadMessage {
      ServerMessageArrives(w, d);
      ServerHoldsAccounts(w.server, d, w.toServer[0]);
    } else if w.toServer != [] && w.server.wait == ReadCcs {
      ServerCcsAccounts(w, d);
      ServerCcsKeepsInv(w, d);
      CcsSteps(w);
    }
  }

  lemma ClientResumeAccounts(c: C.Client, d: Deal)
    requires ClientAt(c, d) && ClientGood(c, d)
    ensures ClientGood(C.Step(c, C.Resume), d)
  {
    hide Tail, C.Do, Only, MessagesIn;
    ClientResumed(c, d);
  }

  lemma ServerResumeAccounts(s: S.Server, d: Deal)
    requires ServerAt(s, d) && ServerGood(s, d)
    ensures ServerGood(S.Step(s, S.Resume), d)
  {
    hide Tail, S.Do, Only, MessagesIn;
    ServerResumed(s, d);
  }

  lemma StepKeepsClient(w: World, d: Deal, v: Event)
    requires Good(w, d) && HonestEvent(v, d)
    ensures ClientGood(Step(w, v).client, d)
  {
    match v
    case ClientRuns(e) => if w.client.wait == Go { ClientRunAccounts(w, d, e); }
    case ClientResumes => ClientResumeAccounts(w.client, d);
    case ClientReceives => ClientReceiveAccounts(w, d);
    case _ => assert Step(w, v).client == w.client;
  }

  lemma StepKeepsServer(w: World, d: Deal, v: Event)
    requires Good(w, d) && HonestEvent(v, d)
    ensures ServerGood(Step(w, v).server, d)
  {
    match v
    case ServerRuns(e) => if w.server.wait == Go { ServerRunAccounts(w, d, e); }
    case ServerResumes => ServerResumeAccounts(w.server, d);
    case ServerReceives => ServerReceiveAccounts(w, d);
    case _ => assert Step(w, v).server == w.server;
  }

  lemma StepKeepsGood(w: World, d: Deal, v: Event)
    requires Good(w, d) && HonestEvent(v, d)
    ensures Good(Step(w, v), d)
  {
    StepKeepsInv(w, d, v);
    StepKeepsClient(w, d, v);
    StepKeepsServer(w, d, v);
  }

  lemma StartIsGood(d: Deal)
    requires d.Possible()
    ensures Good(Start(d), d)
  {
    hide Tail;
    assert BareLog([]) == [];
    assert Sends(ClientSide, []) == [] && Sends(ServerSide, []) == [];
    assert Between(FRESH, [], FRESH) == [];
    assert [] + Script(d) == Script(d);
  }

  function Execute(d: Deal, events: seq<Event>): World {
    if events == [] then Start(d) else Step(Execute(d, events[..|events| - 1]), events[|events| - 1])
  }

  // The steps of two honest peers.
  ghost predicate HonestRun(d: Deal, events: seq<Event>) {
    d.Possible() && forall v :: v in events ==> HonestEvent(v, d)
  }

  lemma {:induction false} RunIsGood(d: Deal, events: seq<Event>)
    requires HonestRun(d, events)
    ensures Good(Execute(d, events), d)
  {
    if events == [] {
      StartIsGood(d);
    } else {
      RunIsGood(d, events[..|events| - 1]);
      StepKeepsGood(Execute(d, events[..|events| - 1]), d, events[|events| - 1]);
    }
  }

  // ------------------------------------------------------------------
  // The Finished messages

  predicate IsFinished(m: Message, from: Side) {
    m.body.Verify? && m.body.from == from
  }

  function FinishedCount(ms: seq<Message>, from: Side): nat {
    if ms == [] then 0 else (if IsFinished(ms[0], from) then 1 else 0) + FinishedCount(ms[1..], from)
  }

  lemma {:induction false} CountAppend(a: seq<Message>, b: seq<Message>, from: Side)
    ensures FinishedCount(a + b, from) == FinishedCount(a, from) + FinishedCount(b, from)
  {
    if a == [] {
      assert a + b == b;
    } else {
      assert (a + b)[1..] == a[1..] + b;
      CountAppend(a[1..], b, from);
    }
  }

  function FinishStage(from: Side): Stage {
    if from == ClientSide then FinishC else FinishS
  }

  // How many Finished of a side are still to come.
  function Ahead(stage: Stage, resumed: bool, from: Side): nat {
    if Rank(stage, resumed) >= Rank(FinishStage(from), resumed) then 1 else 0
  }

  lemma DueCounts(stage: Stage, d: Deal, t: seq<Message>, from: Side)
    requires Due(stage, d, t).Present?
    ensures FinishedCount(MessagesOf(Due(stage, d, t).entry.record.content), from) == if stage == FinishStage(from) then 1 else 0
  {
    var content := Due(stage, d, t).entry.record.content;
    if content.Messages? {
      assert content.msgs == [content.msgs[0]];
      CountOne(content.msgs[0], from);
    }
  }

  lemma CountOne(m: Message, from: Side)
    ensures FinishedCount([m], from) == if IsFinished(m, from) then 1 else 0
  {
    assert [m][1..] == [];
  }

  // Resumption skips the stages from the certificate to the proof.
  predicate OnPath(stage: Stage, resumed: bool) {
    resumed ==> Rank(stage, resumed) < Rank(KeyC, resumed) - 1 || Rank(stage, resumed) > Rank(CertS, resumed)
  }

  lemma NextIsAhead(stage: Stage, resumed: bool, from: Side)
    requires stage != End && OnPath(stage, resumed)
    ensures OnPath(Next(stage, resumed), resumed)
    ensures Ahead(stage, resumed, from) == Ahead(Next(stage, resumed), resumed, from) + (if stage == FinishStage(from) then 1 else 0)
  {}

  // The count of a tail is that of what is due and of the tail behind it.
  lemma TailCount(stage: Stage, d: Deal, t: seq<Message>, from: Side) returns (t': seq<Message>)
    requires stage != End
    ensures FinishedCount(MessagesIn(Tail(stage, d, t)), from)
      == FinishedCount(MessagesIn(Tail(Next(stage, d.Resumed()), d, t')), from) + (if stage == FinishStage(from) then 1 else 0)
  {
    match Due(stage, d, t)
    case Absent => t' := t;
    case Present(e) =>
      t' := t + MessagesOf(e.record.content);
      var rest := Tail(Next(stage, d.Resumed()), d, t');
      assert ([e] + rest)[1..] == rest;
      CountAppend(MessagesOf(e.record.content), MessagesIn(rest), from);
      DueCounts(stage, d, t, from);
  }

  // Each side's Finished is in the script just once.
  lemma {:induction false} OneFinished(stage: Stage, d: Deal, t: seq<Message>, from: Side)
    requires OnPath(stage, d.Resumed())
    ensures FinishedCount(MessagesIn(Tail(stage, d, t)), from) == Ahead(stage, d.Resumed(), from)
    decreases Rank(stage, d.Resumed())
  {
    if stage != End {
      var next := Next(stage, d.Resumed());
      NextIsLower(stage, d.Resumed());
      NextIsAhead(stage, d.Resumed(), from);
      var t' := TailCount(stage, d, t, from);
      OneFinished(next, d, t', from);
    }
  }

  // Two Finished of one side that cover parts of the same transcript cover the
  // same part.
  lemma SameCover(from: Side, a: seq<Message>, b: seq<Message>, all: seq<Message>)
    requires Covered(from, a) <= all && Covered(from, b) <= all && FinishedCount(all, from) == 1
    ensures a == b
  {
    assert a == Covered(from, a)[..|a|] == all[..|a|] && b == Covered(from, b)[..|b|] == all[..|b|];
    if |a| < |b| {
      TwoFinished(from, a, b, all);
    } else if |b| < |a| {
      TwoFinished(from, b, a, all);
    }
  }

  lemma CoveredFirst(from: Side, a: seq<Message>, all: seq<Message>)
    requires Covered(from, a) <= all
    ensures |a| < |all| && all[..|a|] == a && all[|a|] == Message(Finished, Verify(from, a))
  {
    assert all[|a|] == Covered(from, a)[|a|];
    assert all[..|a|] == Covered(from, a)[..|a|];
  }

  lemma Around<T>(s: seq<T>, i: nat, j: nat)
    requires i < j < |s|
    ensures s == s[..i] + ([s[i]] + (s[i + 1..j] + ([s[j]] + s[j + 1..])))
  {}

  lemma TwoFinished(from: Side, a: seq<Message>, b: seq<Message>, all: seq<Message>)
    requires Covered(from, a) <= all && Covered(from, b) <= all && |a| < |b|
    ensures FinishedCount(all, from) >= 2
  {
    hide Covered, FinishedCount;
    var m, n := Message(Finished, Verify(from, a)), Message(Finished, Verify(from, b));
    CoveredFirst(from, a, all);
    CoveredFirst(from, b, all);
    var mid, end := all[|a| + 1..|b|], all[|b| + 1..];
    Around(all, |a|, |b|);
    CountAppend(a, [m] + (mid + ([n] + end)), from);
    CountAppend([m], mid + ([n] + end), from);
    CountAppend(mid, [n] + end, from);
    CountAppend([n], end, from);
    CountOne(m, from);
    CountOne(n, from);
  }

  // ------------------------------------------------------------------
  // The results

  // No side ever rejects a message.
  lemma NothingIsRejected(d: Deal, events: seq<Event>)
    requires HonestRun(d, events)
    ensures var w := Execute(d, events); w.client.wait != Failed && w.server.wait != Failed
  {
    RunIsGood(d, events);
  }

  // Both have the same transcript, each record of the script was sent once and
  // in order, none is left over, and each Finished was verified over just the
  // transcript it was computed over.
  ghost predicate Agreed(w: World, d: Deal) {
    && w.client.hs.transcript == w.server.hs.transcript == MessagesIn(Script(d))
    && Sends(ClientSide, w.client.hs.sent) == Only(ClientSide, Script(d))
    && Sends(ServerSide, w.server.hs.sent) == Only(ServerSide, Script(d))
    && w.toClient == [] && w.toServer == []
    && SameFinished(w.client.hs.log, w.server.hs.log)
  }

  ghost predicate SameFinished(client: seq<Mark>, server: seq<Mark>) {
    forall m, m' :: m in client && m' in server ==>
      && (m.PeerFinished? && m'.OwnFinished? ==> m.over == m'.over)
      && (m.OwnFinished? && m'.PeerFinished? ==> m.over == m'.over)
  }

  lemma DoneMeansAgreed(d: Deal, events: seq<Event>)
    requires HonestRun(d, events)
    ensures var w := Execute(d, events);
      w.client.state == C.Done && w.server.state == S.Done ==> Agreed(w, d)
  {
    var w := Execute(d, events);
    RunIsGood(d, events);
    if w.client.state == C.Done && w.server.state == S.Done {
      GoodIsAgreed(w, d);
    }
  }

  lemma GoodIsAgreed(w: World, d: Deal)
    requires Good(w, d) && w.client.state == C.Done && w.server.state == S.Done
    ensures Agreed(w, d)
  {
    ClientDoneIsWhole(w.client, d);
    ServerDoneIsWhole(w.server, d);
    DoneIsEmpty(w, d);
    FinishedAgree(w.client.hs.log, w.server.hs.log, MessagesIn(Script(d)), d);
  }

  lemma FinishedAgree(client: seq<Mark>, server: seq<Mark>, t: seq<Message>, d: Deal)
    requires t == MessagesIn(Script(d))
    requires forall m :: m in client ==> CoveredBy(ClientSide, m) <= t
    requires forall m :: m in server ==> CoveredBy(ServerSide, m) <= t
    ensures SameFinished(client, server)
  {
    OneFinished(HelloC, d, [], ClientSide);
    OneFinished(HelloC, d, [], ServerSide);
    forall m, m' | m in client && m' in server
      ensures m.PeerFinished? && m'.OwnFinished? ==> m.over == m'.over
      ensures m.OwnFinished? && m'.PeerFinished? ==> m.over == m'.over
    {
      if m.PeerFinished? && m'.OwnFinished? {
        SameCover(ServerSide, m.over, m'.over, t);
      } else if m.OwnFinished? && m'.PeerFinished? {
        SameCover(ClientSide, m.over, m'.over, t);
      }
    }
  }

  lemma ClientDoneIsWhole(c: C.Client, d: Deal)
    requires ClientGood(c, d) && c.state == C.Done
    ensures ClientTail(c, d) == [] && c.hs.transcript == MessagesIn(Script(d)) && FinishedCover(ClientSide, c.hs)
    ensures Sends(ClientSide, c.hs.sent) == Only(ClientSide, Script(d))
  {
    assert ClientTail(c, d) == [];
    assert c.hs.transcript + [] == c.hs.transcript && Sends(ClientSide, c.hs.sent) + [] == Sends(ClientSide, c.hs.sent);
  }

  lemma ServerDoneIsWhole(s: S.Server, d: Deal)
    requires ServerGood(s, d) && s.state == S.Done
    ensures ServerTail(s, d) == [] && s.hs.transcript == MessagesIn(Script(d)) && FinishedCover(ServerSide, s.hs)
    ensures Sends(ServerSide, s.hs.sent) == Only(ServerSide, Script(d))
  {
    assert ServerTail(s, d) == [];
    assert s.hs.transcript + [] == s.hs.transcript && Sends(ServerSide, s.hs.sent) + [] == Sends(ServerSide, s.hs.sent);
  }

  lemma DoneIsEmpty(w: World, d: Deal)
    requires Inv(w, d) && ClientTail(w.client, d) == [] && ServerTail(w.server, d) == []
    ensures w.toClient == [] && w.toServer == []
  {
    var s, c := Between(w.client.hs, w.toClient, w.server.hs), Between(w.server.hs, w.toServer, w.client.hs);
    assert |Sends(ServerSide, s)| == |s| && |Sends(ClientSide, c)| == |c|;
  }
}
