// Two honest peers joined by two reliable ordered queues of records.

module TlsPeers {
  import opened TlsTypes
  import opened TlsScript
  import opened TlsMoves
  import opened TlsClientScript
  import opened TlsServerScript
  import C = TlsClient
  import S = TlsServer

  datatype World = World(client: C.Client, server: S.Server, toServer: seq<Record>, toClient: seq<Record>)

  datatype Event =
    | ClientRuns(e: Choice)
    | ClientResumes
    | ClientReceives
    | ServerRuns(e: Choice)
    | ServerResumes
    | ServerReceives

  function Start(d: Deal): World {
    World(C.Start(d.hasCertificate), S.Start(d.config), [], [])
  }

  function Pending(h: Hs): seq<Record> {
    if h.flushed <= |h.sent| then h.sent[h.flushed..] else []
  }

  predicate Receiving(wait: Wait) {
    wait == ReadMessage || wait == ReadCcs
  }

  // Flushing moves what is pending into the queue; receiving takes one record
  // from it.
  function Step(w: World, v: Event): World {
    match v
    case ClientRuns(e) => w.(client := C.Step(w.client, C.Run(e)))
    case ServerRuns(e) => w.(server := S.Step(w.server, S.Run(e)))
    case ClientResumes =>
      w.(client := C.Step(w.client, C.Resume),
         toServer := if w.client.wait == Flush then w.toServer + Pending(w.client.hs) else w.toServer)
    case ServerResumes =>
      w.(server := S.Step(w.server, S.Resume),
         toClient := if w.server.wait == Flush then w.toClient + Pending(w.server.hs) else w.toClient)
    case ClientReceives =>
      if !Receiving(w.client.wait) || w.toClient == [] then w
      else w.(client := C.Step(w.client, C.Arrive(w.toClient[0])), toClient := w.toClient[1..])
    case ServerReceives =>
      if !Receiving(w.server.wait) || w.toServer == [] then w
      else w.(server := S.Step(w.server, S.Arrive(w.toServer[0])), toServer := w.toServer[1..])
  }

  // ------------------------------------------------------------------
  // What is between the peers

  // What one side sent and the other did not read yet.
  function Between(reader: Hs, queue: seq<Record>, writer: Hs): seq<Record> {
    HeldRecords(reader.buffer) + queue + Pending(writer)
  }

  // Both are at the same place of the script but for what is between them, and
  // that was sent by one of them only.
  ghost predicate InStep(fromServer: seq<Record>, fromClient: seq<Record>, client: seq<Entry>, server: seq<Entry>) {
    || (fromClient == [] && client == Sends(ServerSide, fromServer) + server)
    || (fromServer == [] && server == Sends(ClientSide, fromClient) + client)
  }

  ghost predicate Inv(w: World, d: Deal) {
    && d.Possible() && ClientAt(w.client, d) && ServerAt(w.server, d)
    && InStep(Between(w.client.hs, w.toClient, w.server.hs), Between(w.server.hs, w.toServer, w.client.hs),
              ClientTail(w.client, d), ServerTail(w.server, d))
  }

  lemma HeadFits(w: World, d: Deal)
    requires Inv(w, d)
    ensures HeadIsNext(w.client.hs, ServerSide, ClientTail(w.client, d))
    ensures HeadIsNext(w.server.hs, ClientSide, ServerTail(w.server, d))
  {
    var s, c := Between(w.client.hs, w.toClient, w.server.hs), Between(w.server.hs, w.toServer, w.client.hs);
    if HasMessage(w.client.hs) {
      assert s[0] == Record(w.client.hs.buffer[0].epoch, Messages([w.client.hs.buffer[0].msg]));
      assert Sends(ServerSide, s)[0] == Entry(ServerSide, s[0]);
    }
    if HasMessage(w.server.hs) {
      assert c[0] == Record(w.server.hs.buffer[0].epoch, Messages([w.server.hs.buffer[0].msg]));
      assert Sends(ClientSide, c)[0] == Entry(ClientSide, c[0]);
    }
  }

  // A turn of the side whose tail is mine, which may read from its own buffer
  // or send.
  lemma MoveInStep(side: Side, peer: Side, h: Hs, mine: seq<Entry>, h': Hs, mine': seq<Entry>,
                   toMe: seq<Record>, fromMe: seq<Record>, theirs: seq<Entry>, toMe': seq<Record>, fromMe': seq<Record>)
    requires side != peer && Moved(side, peer, h, mine, h', mine')
    requires (fromMe == [] && mine == Sends(peer, toMe) + theirs) || (toMe == [] && theirs == Sends(side, fromMe) + mine)
    requires |HeldRecords(h.buffer)| <= |toMe| && toMe[..|h.buffer|] == HeldRecords(h.buffer)
    requires |h'.buffer| <= |h.buffer| && toMe' == toMe[|h.buffer| - |h'.buffer|..]
    requires |h.sent| <= |h'.sent| && fromMe' == fromMe + h'.sent[|h.sent|..]
    ensures (fromMe' == [] && mine' == Sends(peer, toMe') + theirs) || (toMe' == [] && theirs == Sends(side, fromMe') + mine')
  {
    var more := h'.sent[|h.sent|..];
    if h'.buffer == h.buffer && more == [] {
      assert Sends(side, more) + mine' == mine' && fromMe' == fromMe && toMe' == toMe;
    } else if HasMessage(h) && h'.buffer == h.buffer[1..] {
      assert Sends(peer, toMe) == [Entry(peer, toMe[0])] + Sends(peer, toMe');
      assert mine[1..] == mine' && (Sends(peer, toMe) + theirs)[1..] == Sends(peer, toMe') + theirs;
      assert fromMe' == fromMe;
    } else {
      assert toMe' == toMe && mine[0].from == side;
      if toMe != [] {
        assert false;
      }
      assert Sends(peer, toMe) + theirs == theirs;
      assert Sends(side, fromMe') == Sends(side, fromMe) + Sends(side, more);
      assert Sends(side, fromMe) + mine == Sends(side, fromMe') + mine';
    }
  }

  // What a turn does to what is between the peers.
  lemma TurnBetween(h: Hs, h': Hs, other: Hs, toMe: seq<Record>, fromMe: seq<Record>)
    requires h'.flushed == h.flushed <= |h.sent| && h.sent <= h'.sent && other.flushed <= |other.sent|
    requires h'.buffer == h.buffer || (HasMessage(h) && h'.buffer == h.buffer[1..])
    ensures |h'.buffer| <= |h.buffer|
    ensures Between(h, toMe, other)[..|h.buffer|] == HeldRecords(h.buffer)
    ensures Between(h', toMe, other) == Between(h, toMe, other)[|h.buffer| - |h'.buffer|..]
    ensures Between(other, fromMe, h') == Between(other, fromMe, h) + h'.sent[|h.sent|..]
  {
    assert HeldRecords(h'.buffer) == HeldRecords(h.buffer)[|h.buffer| - |h'.buffer|..];
    assert Pending(h') == Pending(h) + h'.sent[|h.sent|..];
  }

  lemma TurnInStep(side: Side, peer: Side, h: Hs, mine: seq<Entry>, h': Hs, mine': seq<Entry>,
                   other: Hs, theirs: seq<Entry>, toMe: seq<Record>, fromMe: seq<Record>)
    requires side != peer && Moved(side, peer, h, mine, h', mine')
    requires h.flushed <= |h.sent| && other.flushed <= |other.sent|
    requires
      || (Between(other, fromMe, h) == [] && mine == Sends(peer, Between(h, toMe, other)) + theirs)
      || (Between(h, toMe, other) == [] && theirs == Sends(side, Between(other, fromMe, h)) + mine)
    ensures h.sent <= h'.sent
    ensures
      || (Between(other, fromMe, h') == [] && mine' == Sends(peer, Between(h', toMe, other)) + theirs)
      || (Between(h', toMe, other) == [] && theirs == Sends(side, Between(other, fromMe, h')) + mine')
  {
    TurnBetween(h, h', other, toMe, fromMe);
    MoveInStep(side, peer, h, mine, h', mine', Between(h, toMe, other), Between(other, fromMe, h), theirs,
               Between(h', toMe, other), Between(other, fromMe, h'));
  }

  lemma ClientTurnKeepsInv(w: World, d: Deal, c': C.Client)
    requires Inv(w, d) && ClientTurned(w.client, d, c') && ClientAt(c', d)
    ensures Inv(w.(client := c'), d)
  {
    TurnInStep(ClientSide, ServerSide, w.client.hs, ClientTail(w.client, d), c'.hs, ClientTail(c', d),
               w.server.hs, ServerTail(w.server, d), w.toClient, w.toServer);
  }

  lemma ServerTurnKeepsInv(w: World, d: Deal, s': S.Server)
    requires Inv(w, d) && ServerTurned(w.server, d, s') && ServerAt(s', d)
    ensures Inv(w.(server := s'), d)
  {
    TurnInStep(ServerSide, ClientSide, w.server.hs, ServerTail(w.server, d), s'.hs, ServerTail(s', d),
               w.client.hs, ClientTail(w.client, d), w.toServer, w.toClient);
  }

  lemma RunKeepsInv(w: World, d: Deal, e: Choice)
    requires Inv(w, d) && Honest(e, d)
    ensures w.client.wait == Go ==> Inv(w.(client := C.Do(w.client, e)), d)
    ensures w.server.wait == Go ==> Inv(w.(server := S.Do(w.server, e)), d)
  {
    HeadFits(w, d);
    if w.client.wait == Go {
      ClientKeepsToScript(w.client, d, e);
      ClientTurnKeepsInv(w, d, C.Do(w.client, e));
    }
    if w.server.wait == Go {
      ServerKeepsToScript(w.server, d, e);
      ServerTurnKeepsInv(w, d, S.Do(w.server, e));
    }
  }

  // ------------------------------------------------------------------
  // Receiving

  // The next entry is a message of that side in that epoch.
  ghost predicate IsMessageIn(tail: seq<Entry>, from: Side, epoch: nat) {
    tail != [] && tail[0].from == from && tail[0].record.epoch == epoch
    && tail[0].record.content.Messages? && |tail[0].record.content.msgs| == 1
  }

  // Stages from which on the next entry is a message, its sender and epoch.
  predicate Speaks(stage: Stage, d: Deal) {
    match stage
    case ProofC => d.Requested() && d.hasCertificate
    case TicketS => d.config.flags.ticket
    case ChangeC | ChangeS | End => false
    case _ => true
  }

  function Speaker(stage: Stage): Side {
    match stage
    case HelloC | CertC | KeyC | ProofC | ProtoC | IdC | FinishC => ClientSide
    case _ => ServerSide
  }

  function SpeaksIn(stage: Stage): nat {
    match stage
    case ProtoC | IdC | FinishC | FinishS => 1
    case _ => 0
  }

  lemma {:induction false} MessageAhead(stage: Stage, d: Deal, t: seq<Message>)
    requires Speaks(stage, d)
    ensures IsMessageIn(Tail(stage, d, t), Speaker(stage), SpeaksIn(stage))
    decreases Rank(stage, d.Resumed())
  {
    if Due(stage, d, t).Absent? {
      NextIsLower(stage, d.Resumed());
      MessageAhead(Next(stage, d.Resumed()), d, t);
    }
  }

  lemma ClientAwaits(c: C.Client, d: Deal)
    requires ClientAt(c, d) && c.wait == ReadMessage
    ensures var stage := ClientStage(c.state, c.wait, d.Resumed());
      Speaks(stage, d) && Speaker(stage) == ServerSide && SpeaksIn(stage) == c.hs.readEpoch
  {}

  lemma ServerAwaits(s: S.Server, d: Deal)
    requires ServerAt(s, d) && s.wait == ReadMessage
    ensures var stage := ServerStage(s.state, s.wait, d.Resumed());
      Speaks(stage, d) && Speaker(stage) == ClientSide && SpeaksIn(stage) == s.hs.readEpoch
  {}

  // The record at the head of the queue is the next entry of the script.
  lemma ClientQueueHead(w: World, d: Deal)
    requires Inv(w, d) && w.toClient != [] && !HasMessage(w.client.hs)
    ensures var tail := ClientTail(w.client, d);
      tail != [] && tail[0] == Entry(ServerSide, w.toClient[0])
  {
    var s := Between(w.client.hs, w.toClient, w.server.hs);
    assert s[0] == w.toClient[0];
    assert Sends(ServerSide, s)[0] == Entry(ServerSide, s[0]);
  }

  lemma ServerQueueHead(w: World, d: Deal)
    requires Inv(w, d) && w.toServer != [] && !HasMessage(w.server.hs)
    ensures var tail := ServerTail(w.server, d);
      tail != [] && tail[0] == Entry(ClientSide, w.toServer[0])
  {
    var c := Between(w.server.hs, w.toServer, w.client.hs);
    assert c[0] == w.toServer[0];
    assert Sends(ClientSide, c)[0] == Entry(ClientSide, c[0]);
  }

  // A record of one message goes from the queue into the buffer.
  lemma HeldIsBetween(h: Hs, r: Record, rest: seq<Record>, other: Hs)
    requires !HasMessage(h) && r.content.Messages? && |r.content.msgs| == 1 && other.flushed <= |other.sent|
    ensures Between(h.(buffer := h.buffer + Hold(r.content.msgs, r.epoch)), rest, other) == Between(h, [r] + rest, other)
  {
    var held := h.buffer + Hold(r.content.msgs, r.epoch);
    assert held == [Held(r.content.msgs[0], r.epoch)];
    assert r.content.msgs == [r.content.msgs[0]];
    assert HeldRecords(held) == [r] && HeldRecords(h.buffer) == [];
  }

  // What the queue's head does to the client that waits for a message.
  lemma ClientMessageArrives(w: World, d: Deal)
    requires Inv(w, d) && w.client.wait == ReadMessage && w.toClient != []
    ensures var c, r := w.client, w.toClient[0];
      && r.content.Messages? && |r.content.msgs| == 1 && r.epoch == c.hs.readEpoch && !HasMessage(c.hs)
      && Step(w, ClientReceives) == w.(
          client := c.(wait := Go, hs := c.hs.(buffer := c.hs.buffer + Hold(r.content.msgs, r.epoch))), toClient := w.toClient[1..])
  {
    hide Tail, C.Do;
    var c := w.client;
    ClientQueueHead(w, d);
    ClientAwaits(c, d);
    MessageAhead(ClientStage(c.state, c.wait, d.Resumed()), d, c.hs.transcript);
  }

  lemma ServerMessageArrives(w: World, d: Deal)
    requires Inv(w, d) && w.server.wait == ReadMessage && w.toServer != []
    ensures var s, r := w.server, w.toServer[0];
      && r.content.Messages? && |r.content.msgs| == 1 && r.epoch == s.hs.readEpoch && !HasMessage(s.hs)
      && Step(w, ServerReceives) == w.(
          server := s.(wait := Go, hs := s.hs.(buffer := s.hs.buffer + Hold(r.content.msgs, r.epoch))), toServer := w.toServer[1..])
  {
    hide Tail, S.Do;
    var s := w.server;
    ServerQueueHead(w, d);
    ServerAwaits(s, d);
    MessageAhead(ServerStage(s.state, s.wait, d.Resumed()), d, s.hs.transcript);
  }

  // The client holds a message it waited for; all else is as before.
  lemma ClientHolds(c: C.Client, d: Deal, buffer: seq<Held>)
    requires ClientAt(c, d) && c.wait == ReadMessage
    ensures var c' := c.(wait := Go, hs := c.hs.(buffer := buffer));
      ClientAt(c', d) && ClientTail(c', d) == ClientTail(c, d)
  {}

  lemma ServerHolds(s: S.Server, d: Deal, buffer: seq<Held>)
    requires ServerAt(s, d) && s.wait == ReadMessage
    ensures var s' := s.(wait := Go, hs := s.hs.(buffer := buffer));
      ServerAt(s', d) && ServerTail(s', d) == ServerTail(s, d)
  {}

  lemma SentIsFlushed(w: World, d: Deal)
    requires Inv(w, d)
    ensures w.client.hs.flushed <= |w.client.hs.sent| && w.server.hs.flushed <= |w.server.hs.sent|
  {}

  lemma PendingIsBetween(reader: Hs, queue: seq<Record>, writer: Hs, writer': Hs)
    requires Pending(writer) == Pending(writer')
    ensures Between(reader, queue, writer) == Between(reader, queue, writer')
  {}

  // A side at the same place, with the same records between it and its peer.
  lemma ClientSwap(w: World, d: Deal, c': C.Client, toClient: seq<Record>, toServer: seq<Record>)
    requires Inv(w, d) && ClientAt(c', d) && ClientTail(c', d) == ClientTail(w.client, d)
    requires Between(c'.hs, toClient, w.server.hs) == Between(w.client.hs, w.toClient, w.server.hs)
    requires Between(w.server.hs, toServer, c'.hs) == Between(w.server.hs, w.toServer, w.client.hs)
    ensures Inv(World(c', w.server, toServer, toClient), d)
  {}

  lemma ServerSwap(w: World, d: Deal, s': S.Server, toClient: seq<Record>, toServer: seq<Record>)
    requires Inv(w, d) && ServerAt(s', d) && ServerTail(s', d) == ServerTail(w.server, d)
    requires Between(w.client.hs, toClient, s'.hs) == Between(w.client.hs, w.toClient, w.server.hs)
    requires Between(s'.hs, toServer, w.client.hs) == Between(w.server.hs, w.toServer, w.client.hs)
    ensures Inv(World(w.client, s', toServer, toClient), d)
  {}

  lemma ClientMessageKeepsInv(w: World, d: Deal)
    requires Inv(w, d) && w.client.wait == ReadMessage && w.toClient != []
    ensures Inv(Step(w, ClientReceives), d)
  {
    hide ClientTail, ServerTail, Between, Sends, InStep, ClientAt, ServerAt, HeldRecords, Deal.Possible;
    var c, r, rest := w.client, w.toClient[0], w.toClient[1..];
    ClientMessageArrives(w, d);
    SentIsFlushed(w, d);
    var buffer := c.hs.buffer + Hold(r.content.msgs, r.epoch);
    ClientHolds(c, d, buffer);
    HeldIsBetween(c.hs, r, rest, w.server.hs);
    assert [r] + rest == w.toClient;
    var c' := c.(wait := Go, hs := c.hs.(buffer := buffer));
    PendingIsBetween(w.server.hs, w.toServer, c.hs, c'.hs);
    ClientSwap(w, d, c', rest, w.toServer);
    assert Step(w, ClientReceives) == World(c', w.server, w.toServer, rest);
  }

  lemma ServerMessageKeepsInv(w: World, d: Deal)
    requires Inv(w, d) && w.server.wait == ReadMessage && w.toServer != []
    ensures Inv(Step(w, ServerReceives), d)
  {
    hide ClientTail, ServerTail, Between, Sends, InStep, ClientAt, ServerAt, HeldRecords, Deal.Possible;
    var s, r, rest := w.server, w.toServer[0], w.toServer[1..];
    ServerMessageArrives(w, d);
    SentIsFlushed(w, d);
    var buffer := s.hs.buffer + Hold(r.content.msgs, r.epoch);
    ServerHolds(s, d, buffer);
    HeldIsBetween(s.hs, r, rest, w.client.hs);
    assert [r] + rest == w.toServer;
    var s' := s.(wait := Go, hs := s.hs.(buffer := buffer));
    PendingIsBetween(w.client.hs, w.toClient, s.hs, s'.hs);
    ServerSwap(w, d, s', w.toClient, rest);
    assert Step(w, ServerReceives) == World(w.client, s', rest, w.toClient);
  }

  // A ChangeCipherSpec leaves the queue without going through the buffer.
  lemma CcsIsGone(h: Hs, r: Record, rest: seq<Record>, other: Hs, side: Side, mine: seq<Entry>, theirs: seq<Entry>)
    requires !HasMessage(h) && other.flushed <= |other.sent|
    requires [Entry(side, r)] + mine == Sends(side, Between(h, [r] + rest, other)) + theirs
    ensures mine == Sends(side, Between(h, rest, other)) + theirs
  {
    var all := Between(h, [r] + rest, other);
    assert all == [r] + Between(h, rest, other);
    assert Sends(side, all) == [Entry(side, r)] + Sends(side, Between(h, rest, other));
    assert ([Entry(side, r)] + mine)[1..] == mine;
    assert (Sends(side, all) + theirs)[1..] == Sends(side, Between(h, rest, other)) + theirs;
  }

  // Past the ChangeCipherSpec.
  lemma ClientPassesCcs(c: C.Client, d: Deal)
    requires ClientAt(c, d) && c.wait == ReadCcs && !HasMessage(c.hs)
    ensures ClientAt(c.(wait := Go), d) && c.hs.readEpoch == 0
    ensures ClientTail(c, d) == [Entry(ServerSide, Record(0, Ccs))] + ClientTail(c.(wait := Go), d)
  {
    assert c.hs.transcript + [] == c.hs.transcript;
  }

  lemma ServerPassesCcs(s: S.Server, d: Deal)
    requires ServerAt(s, d) && s.wait == ReadCcs && !HasMessage(s.hs)
    ensures ServerAt(s.(wait := Go), d) && s.hs.readEpoch == 0
    ensures ServerTail(s, d) == [Entry(ClientSide, Record(0, Ccs))] + ServerTail(s.(wait := Go), d)
  {
    assert s.hs.transcript + [] == s.hs.transcript;
  }

  // While it waits for a ChangeCipherSpec, no message is held.
  lemma ClientHoldsNothing(c: C.Client, d: Deal)
    requires ClientAt(c, d) && c.wait == ReadCcs && HeadIsNext(c.hs, ServerSide, ClientTail(c, d))
    ensures !HasMessage(c.hs)
  {}

  lemma ServerHoldsNothing(s: S.Server, d: Deal)
    requires ServerAt(s, d) && s.wait == ReadCcs && HeadIsNext(s.hs, ClientSide, ServerTail(s, d))
    ensures !HasMessage(s.hs)
  {}

  lemma ClientCcsKeepsInv(w: World, d: Deal)
    requires Inv(w, d) && w.client.wait == ReadCcs && w.toClient != []
    ensures w.toClient[0] == Record(w.client.hs.readEpoch, Ccs)
    ensures Inv(w.(client := w.client.(wait := Go), toClient := w.toClient[1..]), d)
  {
    hide ServerTail, ClientTail, Sends;
    var c, r, rest := w.client, w.toClient[0], w.toClient[1..];
    HeadFits(w, d);
    ClientHoldsNothing(c, d);
    ClientQueueHead(w, d);
    ClientPassesCcs(c, d);
    assert [r] + rest == w.toClient;
    assert Between(c.hs, w.toClient, w.server.hs)[0] == r;
    CcsIsGone(c.hs, r, rest, w.server.hs, ServerSide, ClientTail(c.(wait := Go), d), ServerTail(w.server, d));
  }

  lemma ServerCcsKeepsInv(w: World, d: Deal)
    requires Inv(w, d) && w.server.wait == ReadCcs && w.toServer != []
    ensures w.toServer[0] == Record(w.server.hs.readEpoch, Ccs)
    ensures Inv(w.(server := w.server.(wait := Go), toServer := w.toServer[1..]), d)
  {
    hide ServerTail, ClientTail, Sends;
    var s, r, rest := w.server, w.toServer[0], w.toServer[1..];
    HeadFits(w, d);
    ServerHoldsNothing(s, d);
    ServerQueueHead(w, d);
    ServerPassesCcs(s, d);
    assert [r] + rest == w.toServer;
    assert Between(s.hs, w.toServer, w.client.hs)[0] == r;
    CcsIsGone(s.hs, r, rest, w.client.hs, ClientSide, ServerTail(s.(wait := Go), d), ClientTail(w.client, d));
  }

  // Flushing moves records along; nothing is lost between the peers.
  lemma FlushedIsBetween(reader: Hs, queue: seq<Record>, writer: Hs)
    requires writer.flushed <= |writer.sent|
    ensures Between(reader, queue + Pending(writer), writer.(flushed := |writer.sent|)) == Between(reader, queue, writer)
  {
    assert HeldRecords(reader.buffer) + (queue + Pending(writer)) + [] == HeldRecords(reader.buffer) + queue + Pending(writer);
  }

  lemma ClientResumed(c: C.Client, d: Deal)
    requires ClientAt(c, d)
    ensures var c' := C.Step(c, C.Resume);
      ClientAt(c', d) && ClientTail(c', d) == ClientTail(c, d) && c'.hs.buffer == c.hs.buffer
      && c'.hs == c.hs.(flushed := if c.wait == Flush then |c.hs.sent| else c.hs.flushed)
  {
    hide Tail, C.Do;
  }

  lemma ServerResumed(s: S.Server, d: Deal)
    requires ServerAt(s, d)
    ensures var s' := S.Step(s, S.Resume);
      ServerAt(s', d) && ServerTail(s', d) == ServerTail(s, d) && s'.hs.buffer == s.hs.buffer
      && s'.hs == s.hs.(flushed := if s.wait == Flush then |s.hs.sent| else s.hs.flushed)
  {
    hide Tail, S.Do;
  }

  lemma ClientResumeKeepsInv(w: World, d: Deal)
    requires Inv(w, d)
    ensures Inv(Step(w, ClientResumes), d)
  {
    ClientResumed(w.client, d);
    FlushedIsBetween(w.server.hs, w.toServer, w.client.hs);
    var w' := Step(w, ClientResumes);
    ClientSwap(w, d, w'.client, w'.toClient, w'.toServer);
  }

  lemma ServerResumeKeepsInv(w: World, d: Deal)
    requires Inv(w, d)
    ensures Inv(Step(w, ServerResumes), d)
  {
    ServerResumed(w.server, d);
    FlushedIsBetween(w.client.hs, w.toClient, w.server.hs);
    var w' := Step(w, ServerResumes);
    ServerSwap(w, d, w'.server, w'.toClient, w'.toServer);
  }

  ghost predicate HonestEvent(v: Event, d: Deal) {
    v.ClientRuns? || v.ServerRuns? ==> Honest(v.e, d)
  }

  lemma CcsSteps(w: World)
    ensures w.client.wait == ReadCcs && w.toClient != [] && w.toClient[0] == Record(w.client.hs.readEpoch, Ccs) ==>
      Step(w, ClientReceives) == w.(client := w.client.(wait := Go), toClient := w.toClient[1..])
    ensures w.server.wait == ReadCcs && w.toServer != [] && w.toServer[0] == Record(w.server.hs.readEpoch, Ccs) ==>
      Step(w, ServerReceives) == w.(server := w.server.(wait := Go), toServer := w.toServer[1..])
  {}

  lemma ClientReceiveKeepsInv(w: World, d: Deal)
    requires Inv(w, d)
    ensures Inv(Step(w, ClientReceives), d)
  {
    hide Inv;
    if w.toClient != [] && w.client.wait == ReadMessage {
      ClientMessageKeepsInv(w, d);
    } else if w.toClient != [] && w.client.wait == ReadCcs {
      ClientCcsKeepsInv(w, d);
      CcsSteps(w);
    }
  }

  lemma ServerReceiveKeepsInv(w: World, d: Deal)
    requires Inv(w, d)
    ensures Inv(Step(w, ServerReceives), d)
  {
    hide Inv;
    if w.toServer != [] && w.server.wait == ReadMessage {
      ServerMessageKeepsInv(w, d);
    } else if w.toServer != [] && w.server.wait == ReadCcs {
      ServerCcsKeepsInv(w, d);
      CcsSteps(w);
    }
  }

  lemma StepKeepsInv(w: World, d: Deal, v: Event)
    requires Inv(w, d) && HonestEvent(v, d)
    ensures Inv(Step(w, v), d)
  {
    match v
    case ClientRuns(e) => RunKeepsInv(w, d, e);
    case ServerRuns(e) => RunKeepsInv(w, d, e);
    case ClientResumes => ClientResumeKeepsInv(w, d);
    case ServerResumes => ServerResumeKeepsInv(w, d);
    case ClientReceives => ClientReceiveKeepsInv(w, d);
    case ServerReceives => ServerReceiveKeepsInv(w, d);
  }
}
