// The messages of one handshake between two honest peers, in the one order
// both follow (section 7.3 of RFC 5246), and the place of each state in it.

module TlsScript {
  import opened TlsTypes
  import C = TlsClient
  import S = TlsServer

  // What the peers settled on: the server's choices, whether the client has a
  // certificate, and the contents of the opaque bodies.
  datatype Deal = Deal(config: S.Config, hasCertificate: bool, blob: Kind -> nat) {
    predicate Resumed() {
      config.flags.resumed
    }

    predicate Requested() {
      config.wantsCertificate && !config.flags.resumed && config.flags.certAuth
    }

    predicate Parameters() {
      config.flags.ecdhe || (!config.flags.certAuth && config.pskHint)
    }

    // No TLS 1.3, and no certificate is insisted on that the client lacks.
    predicate Possible() {
      !config.flags.tls13 && (Requested() && config.mustHaveCertificate ==> hasCertificate)
    }
  }

  function Dealt(d: Deal, kind: Kind): Message {
    Message(kind, Blob(d.blob(kind)))
  }

  // The places of the script, by what comes there if it comes at all; C and S
  // tell the sender.
  datatype Stage =
    | HelloC | HelloS | CertS | StatusS | KeyS | RequestS | DoneS | CertC | KeyC | ProofC
    | ChangeC | ProtoC | IdC | FinishC | TicketS | ChangeS | FinishS | End

  function Next(stage: Stage, resumed: bool): Stage {
    match stage
    case HelloC => HelloS
    case HelloS => if resumed then TicketS else CertS
    case CertS => StatusS
    case StatusS => KeyS
    case KeyS => RequestS
    case RequestS => DoneS
    case DoneS => CertC
    case CertC => KeyC
    case KeyC => ProofC
    case ProofC => ChangeC
    case ChangeC => ProtoC
    case ProtoC => IdC
    case IdC => FinishC
    case FinishC => if resumed then End else TicketS
    case TicketS => ChangeS
    case ChangeS => FinishS
    case FinishS => if resumed then ChangeC else End
    case End => End
  }

  // How much is still to come.
  function Rank(stage: Stage, resumed: bool): nat {
    match stage
    case HelloC => 17
    case HelloS => 16
    case CertS => 15
    case StatusS => 14
    case KeyS => 13
    case RequestS => 12
    case DoneS => 11
    case CertC => 10
    case KeyC => 9
    case ProofC => 8
    case ChangeC => if resumed then 4 else 7
    case ProtoC => if resumed then 3 else 6
    case IdC => if resumed then 2 else 5
    case FinishC => if resumed then 1 else 4
    case TicketS => if resumed then 7 else 3
    case ChangeS => if resumed then 6 else 2
    case FinishS => if resumed then 5 else 1
    case End => 0
  }

  lemma NextIsLower(stage: Stage, resumed: bool)
    requires stage != End
    ensures Rank(Next(stage, resumed), resumed) < Rank(stage, resumed)
  {}

  datatype Entry = Entry(from: Side, record: Record)

  function Plain(from: Side, epoch: nat, m: Message): Entry {
    Entry(from, Record(epoch, Messages([m])))
  }

  datatype Optional = Absent | Present(entry: Entry)

  function When(c: bool, e: Entry): Optional {
    if c then Present(e) else Absent
  }

  // What comes at a stage, after the messages t.
  function Due(stage: Stage, d: Deal, t: seq<Message>): Optional {
    var f := d.config.flags;
    match stage
    case HelloC => Present(Plain(ClientSide, 0, Dealt(d, ClientHello)))
    case HelloS => Present(Plain(ServerSide, 0, Message(ServerHello, Hello(f))))
    case CertS => When(f.certAuth, Plain(ServerSide, 0, Message(Certificate, Chain(true))))
    case StatusS => When(f.certAuth && f.status, Plain(ServerSide, 0, Dealt(d, CertificateStatus)))
    case KeyS => When(d.Parameters(), Plain(ServerSide, 0, Dealt(d, ServerKeyExchange)))
    case RequestS => When(d.Requested(), Plain(ServerSide, 0, Dealt(d, CertificateRequest)))
    case DoneS => Present(Plain(ServerSide, 0, Message(ServerHelloDone, Blob(0))))
    case CertC => When(d.Requested(), Plain(ClientSide, 0, Message(Certificate, Chain(d.hasCertificate))))
    case KeyC => Present(Plain(ClientSide, 0, Dealt(d, ClientKeyExchange)))
    case ProofC => When(d.Requested() && d.hasCertificate, Plain(ClientSide, 0, Dealt(d, CertificateVerify)))
    case ChangeC => Present(Entry(ClientSide, Record(0, Ccs)))
    case ProtoC => When(f.npn, Plain(ClientSide, 1, Dealt(d, NextProto)))
    case IdC => When(f.channelId, Plain(ClientSide, 1, Dealt(d, ChannelId)))
    case FinishC => Present(Plain(ClientSide, 1, Message(Finished, Verify(ClientSide, t))))
    case TicketS => When(f.ticket, Plain(ServerSide, 0, Dealt(d, NewSessionTicket)))
    case ChangeS => Present(Entry(ServerSide, Record(0, Ccs)))
    case FinishS => Present(Plain(ServerSide, 1, Message(Finished, Verify(ServerSide, t))))
    case End => Absent
  }

  function MessagesOf(c: Content): seq<Message> {
    if c.Ccs? then [] else c.msgs
  }

  // The script from a stage on, after the messages t.
  function Tail(stage: Stage, d: Deal, t: seq<Message>): seq<Entry>
    decreases Rank(stage, d.Resumed())
  {
    if stage == End then []
    else
      var next := Next(stage, d.Resumed());
      NextIsLower(stage, d.Resumed());
      match Due(stage, d, t)
      case Absent => Tail(next, d, t)
      case Present(e) => [e] + Tail(next, d, t + MessagesOf(e.record.content))
  }

  // The messages of some entries, in order.
  function MessagesIn(es: seq<Entry>): seq<Message> {
    if es == [] then [] else MessagesOf(es[0].record.content) + MessagesIn(es[1..])
  }

  lemma {:induction false} MessagesAppend(a: seq<Entry>, b: seq<Entry>)
    ensures MessagesIn(a + b) == MessagesIn(a) + MessagesIn(b)
  {
    if a == [] {
      assert a + b == b;
    } else {
      assert (a + b)[1..] == a[1..] + b;
      MessagesAppend(a[1..], b);
    }
  }

  function Script(d: Deal): seq<Entry> {
    Tail(HelloC, d, [])
  }

  // ------------------------------------------------------------------
  // The place of a state

  // A ChangeCipherSpec is behind the machine once it stops waiting for it.
  function ClientStage(state: C.State, wait: Wait, resumed: bool): Stage {
    match state
    case StartConnect => HelloC
    case EnterEarlyData | ReadServerHello => HelloS
    case ReadServerCertificate => CertS
    case ReadCertificateStatus => StatusS
    case VerifyServerCertificate | ReadServerKeyExchange => KeyS
    case ReadCertificateRequest => RequestS
    case ReadServerHelloDone => DoneS
    case SendClientCertificate => CertC
    case SendClientKeyExchange => KeyC
    case SendClientCertificateVerify => ProofC
    case SendClientFinished => ChangeC
    case FinishFlight => if resumed then End else TicketS
    case ReadSessionTicket => TicketS
    case ProcessChangeCipherSpec => if wait == ReadCcs then ChangeS else FinishS
    case ReadServerFinished => FinishS
    case FinishClientHandshake | Done | Tls13 => End
  }

  function ServerStage(state: S.State, wait: Wait, resumed: bool): Stage {
    match state
    case StartAccept | ReadClientHello | SelectCertificate | SelectParameters => HelloC
    case SendServerHello => HelloS
    case SendServerCertificate => CertS
    case SendServerKeyExchange => KeyS
    case SendServerHelloDone => RequestS
    case ReadClientCertificate => CertC
    case VerifyClientCertificate | ReadClientKeyExchange => KeyC
    case ReadClientCertificateVerify => ProofC
    case ReadChangeCipherSpec => ChangeC
    case ProcessChangeCipherSpec => if wait == ReadCcs then ChangeC else ProtoC
    case ReadNextProto => ProtoC
    case ReadChannelId => IdC
    case ReadClientFinished => FinishC
    case SendServerFinished => TicketS
    case FinishServerHandshake | Done | Tls13 => End
  }

  function ClientTail(c: C.Client, d: Deal): seq<Entry> {
    Tail(ClientStage(c.state, c.wait, d.Resumed()), d, c.hs.transcript)
  }

  function ServerTail(s: S.Server, d: Deal): seq<Entry> {
    Tail(ServerStage(s.state, s.wait, d.Resumed()), d, s.hs.transcript)
  }
}
