// The server as the object that runs: the state functions of
// handshake_server.cc, ssl_server_handshake and the driver ssl_run_handshake.

module TlsServerEndpoint {
  import opened TlsTypes
  import opened TlsHandshake
  import opened TlsSafety
  import TlsStory
  import S = TlsServer

  // The state functions one after another, as long as none waits.
  function Loop(s: S.Server, choices: seq<Choice>): S.Server
    decreases |choices|
  {
    if choices == [] || s.state == S.Done || s.wait != Go then s else Loop(S.Do(s, choices[0]), choices[1..])
  }

  // One turn of ssl_run_handshake.
  function Turn(s: S.Server, i: Input): S.Server {
    match i
    case Resolved(choices) => Loop(S.Step(s, S.Resume), choices)
    case FromPeer(r, choices) => Loop(S.Step(s, S.Arrive(r)), choices)
  }

  // The events of the loop, one per state function run.
  function Runs(s: S.Server, choices: seq<Choice>): seq<S.Event>
    decreases |choices|
  {
    if choices == [] || s.state == S.Done || s.wait != Go then []
    else [S.Run(choices[0])] + Runs(S.Do(s, choices[0]), choices[1..])
  }

  // The events of one turn of the driver, after those before.
  function History(before: seq<S.Event>, s: S.Server, i: Input): seq<S.Event> {
    match i
    case Resolved(choices) => before + [S.Resume] + Runs(S.Step(s, S.Resume), choices)
    case FromPeer(r, choices) => before + [S.Arrive(r)] + Runs(S.Step(s, S.Arrive(r)), choices)
  }

  lemma {:induction false} ExecuteAppend(s: S.Server, a: seq<S.Event>, b: seq<S.Event>)
    ensures S.Execute(s, a + b) == S.Execute(S.Execute(s, a), b)
    decreases |b|
  {
    if b == [] {
      assert a + b == a;
    } else {
      assert (a + b)[..|a + b| - 1] == a + b[..|b| - 1];
      ExecuteAppend(s, a, b[..|b| - 1]);
    }
  }

  // The loop is a run of the state machine, so whatever holds of all runs
  // holds of it.
  lemma {:induction false} LoopIsRun(s: S.Server, choices: seq<Choice>)
    ensures Loop(s, choices) == S.Execute(s, Runs(s, choices))
    decreases |choices|
  {
    if !(choices == [] || s.state == S.Done || s.wait != Go) {
      var next, rest := S.Do(s, choices[0]), Runs(S.Do(s, choices[0]), choices[1..]);
      LoopIsRun(next, choices[1..]);
      ExecuteAppend(s, [S.Run(choices[0])], rest);
      assert [S.Run(choices[0])][..0] == [];
    }
  }

  class Endpoint {
    var state: S.State
    var wait: Wait
    const hs: Handshake
    const config: S.Config
    var peerCertificate: bool
    ghost var history: seq<S.Event> // all that happened since the start

    // The machine once a state function returned w.
    ghost function Returned(w: Wait): S.Server
      reads this, hs
    {
      S.Server(state, w, hs.View(), config, peerCertificate)
    }

    ghost function View(): S.Server
      reads this, hs
    {
      Returned(wait)
    }

    // The machine is where its history takes it.
    ghost predicate Valid()
      reads this, hs
    {
      View() == S.Execute(S.Start(config), history)
    }

    constructor (config: S.Config)
      ensures Valid() && fresh(hs) && history == [] && this.config == config
    {
      state, wait, peerCertificate, this.config, history := S.StartAccept, Go, false, config, [];
      hs := new Handshake();
    }

    // Consumes a message of the given kind.
    method Expect(e: Choice, kind: Kind, next: S.State) returns (w: Wait)
      modifies this`state, hs
      ensures Returned(w) == S.Expect(old(View()), e, kind, next)
    {
      hide S.Do, S.Execute;
      ghost var before := hs.View();
      w := hs.Accept(kind, e.ok);
      assert hs.View() == if w == Go then Consume(before) else before;
      if w == Go {
        state := next;
      }
    }

    method DoReadClientHello(e: Choice) returns (w: Wait)
      modifies this`state
      ensures Returned(w) == S.DoReadClientHello(old(View()), e)
    {
      if hs.buffer == [] {
        return ReadMessage;
      }
      if hs.buffer[0].msg.kind != ClientHello {
        return Failed;
      }
      if e.retry {
        return Paused;
      }
      if !e.ok {
        return Failed;
      }
      state := S.SelectCertificate;
      w := Go;
    }

    method DoSelectCertificate(e: Choice) returns (w: Wait)
      modifies this`state
      ensures Returned(w) == S.DoSelectCertificate(old(View()), e)
    {
      if hs.buffer == [] {
        return ReadMessage;
      }
      if e.retry {
        return Paused;
      }
      if !e.ok {
        return Failed;
      }
      state := if config.flags.tls13 then S.Tls13 else S.SelectParameters;
      w := Go;
    }

    method DoSelectParameters(e: Choice) returns (w: Wait)
      modifies this`state, hs
      ensures Returned(w) == S.DoSelectParameters(old(View()), e)
    {
      if hs.buffer == [] {
        return ReadMessage;
      }
      if e.retry {
        return Paused;
      }
      if !e.ok {
        return Failed;
      }
      hs.flags := config.flags;
      hs.certRequest := config.wantsCertificate;
      if hs.flags.resumed || !hs.flags.certAuth {
        hs.certRequest := false;
      }
      hs.HashMessage();
      hs.NextMessage();
      state := S.SendServerHello;
      w := Go;
    }

    method DoSendServerHello(e: Choice) returns (w: Wait)
      modifies this`state, hs
      ensures Returned(w) == S.DoSendServerHello(old(View()), e)
    {
      if !e.ok {
        return Failed;
      }
      hs.AddMessage(Message(ServerHello, Hello(hs.flags)));
      state := if hs.flags.resumed then S.SendServerFinished else S.SendServerCertificate;
      w := Go;
    }

    method DoSendServerCertificate(e: Choice) returns (w: Wait)
      modifies this`state, hs
      ensures Returned(w) == S.DoSendServerCertificate(old(View()), e)
    {
      if !e.ok {
        return Failed;
      }
      if hs.flags.certAuth {
        hs.AddMessage(Message(Certificate, Chain(true)));
        if hs.flags.status {
          hs.AddMessage(Opaque(e, CertificateStatus));
        }
      }
      state := S.SendServerKeyExchange;
      w := Go;
    }

    method DoSendServerKeyExchange(e: Choice) returns (w: Wait)
      modifies this`state, hs
      ensures Returned(w) == S.DoSendServerKeyExchange(old(View()), e)
    {
      if hs.flags.ecdhe || (!hs.flags.certAuth && config.pskHint) {
        if hs.flags.certAuth && e.retry {
          return Paused;
        }
        if !e.ok {
          return Failed;
        }
        hs.AddMessage(Opaque(e, ServerKeyExchange));
      }
      state := S.SendServerHelloDone;
      w := Go;
    }

    method DoSendServerHelloDone(e: Choice) returns (w: Wait)
      modifies this`state, hs
      ensures Returned(w) == S.DoSendServerHelloDone(old(View()), e)
    {
      if !e.ok {
        return Failed;
      }
      if hs.certRequest {
        hs.AddMessage(Opaque(e, CertificateRequest));
      }
      hs.AddMessage(Message(ServerHelloDone, Blob(0)));
      state := S.ReadClientCertificate;
      w := Flush;
    }

    method DoReadClientCertificate(e: Choice) returns (w: Wait)
      modifies this`state, this`peerCertificate, hs
      ensures Returned(w) == S.DoReadClientCertificate(old(View()), e)
    {
      if !hs.certRequest {
        state := S.VerifyClientCertificate;
        return Go;
      }
      if hs.buffer == [] {
        return ReadMessage;
      }
      var m := hs.buffer[0].msg;
      if m.kind != Certificate || !m.body.Chain? || !e.ok {
        return Failed;
      }
      if !m.body.present && config.mustHaveCertificate {
        return Failed;
      }
      peerCertificate := m.body.present;
      hs.HashMessage();
      hs.NextMessage();
      state := S.VerifyClientCertificate;
      w := Go;
    }

    method DoVerifyClientCertificate(e: Choice) returns (w: Wait)
      modifies this`state, hs
      ensures Returned(w) == S.DoVerifyClientCertificate(old(View()), e)
    {
      if peerCertificate {
        if e.verdict == VerifyInvalid {
          return Failed;
        }
        if e.verdict == VerifyRetry {
          return Paused;
        }
        hs.Log(PeerVerified);
      }
      state := S.ReadClientKeyExchange;
      w := Go;
    }

    method DoReadClientKeyExchange(e: Choice) returns (w: Wait)
      modifies this`state, hs
      ensures Returned(w) == S.DoReadClientKeyExchange(old(View()), e)
    {
      if hs.buffer != [] && hs.buffer[0].msg.kind == ClientKeyExchange && e.retry {
        return Paused;
      }
      w := Expect(e, ClientKeyExchange, S.ReadClientCertificateVerify);
    }

    method DoReadClientCertificateVerify(e: Choice) returns (w: Wait)
      requires state == S.ReadClientCertificateVerify
      modifies this`state, hs
      ensures Returned(w) == S.DoReadClientCertificateVerify(old(View()), e)
    {
      if !peerCertificate {
        state := S.ReadChangeCipherSpec;
        return Go;
      }
      w := Expect(e, CertificateVerify, S.ReadChangeCipherSpec);
      if w == Go {
        hs.Log(SignatureVerified);
      }
    }

    method DoProcessChangeCipherSpec(e: Choice) returns (w: Wait)
      modifies this`state, hs
      ensures Returned(w) == S.DoProcessChangeCipherSpec(old(View()), e)
    {
      var changed := hs.ChangeRead(e.ok);
      if !changed {
        return Failed;
      }
      state := S.ReadNextProto;
      w := Go;
    }

    method DoReadNextProto(e: Choice) returns (w: Wait)
      modifies this`state, hs
      ensures Returned(w) == S.DoReadNextProto(old(View()), e)
    {
      if !hs.flags.npn {
        state := S.ReadChannelId;
        return Go;
      }
      w := Expect(e, NextProto, S.ReadChannelId);
    }

    method DoReadChannelId(e: Choice) returns (w: Wait)
      modifies this`state, hs
      ensures Returned(w) == S.DoReadChannelId(old(View()), e)
    {
      if !hs.flags.channelId {
        state := S.ReadClientFinished;
        return Go;
      }
      w := Expect(e, ChannelId, S.ReadClientFinished);
    }

    method DoReadClientFinished(e: Choice) returns (w: Wait)
      modifies this`state, hs
      ensures Returned(w) == S.DoReadClientFinished(old(View()), e)
    {
      w := hs.GetFinished(ClientSide, e.ok);
      if w == Go {
        state := if hs.flags.resumed then S.FinishServerHandshake else S.SendServerFinished;
      }
    }

    method DoSendServerFinished(e: Choice) returns (w: Wait)
      modifies this`state, hs
      ensures Returned(w) == S.DoSendServerFinished(old(View()), e)
    {
      if !e.ok {
        return Failed;
      }
      if hs.flags.ticket {
        hs.AddMessage(Opaque(e, NewSessionTicket));
      }
      hs.ChangeWrite();
      hs.PutFinished(ServerSide);
      state := if hs.flags.resumed then S.ReadChangeCipherSpec else S.FinishServerHandshake;
      w := Flush;
    }

    method DoFinishServerHandshake(e: Choice) returns (w: Wait)
      modifies this`state
      ensures Returned(w) == S.DoFinishServerHandshake(old(View()), e)
    {
      if !e.ok {
        return Failed;
      }
      state := S.Done;
      w := Go;
    }

    // The switch of ssl_server_handshake. TLS 1.3 is not part of this model.
    method Dispatch(e: Choice) returns (w: Wait)
      requires wait == Go
      modifies this`state, this`peerCertificate, hs
      ensures Returned(w) == S.Do(old(View()), e)
    {
      match state
      case StartAccept =>
        state := S.ReadClientHello;
        w := Go;
      case ReadClientHello => w := DoReadClientHello(e);
      case SelectCertificate => w := DoSelectCertificate(e);
      case SelectParameters => w := DoSelectParameters(e);
      case SendServerHello => w := DoSendServerHello(e);
      case SendServerCertificate => w := DoSendServerCertificate(e);
      case SendServerKeyExchange => w := DoSendServerKeyExchange(e);
      case SendServerHelloDone => w := DoSendServerHelloDone(e);
      case ReadClientCertificate => w := DoReadClientCertificate(e);
      case VerifyClientCertificate => w := DoVerifyClientCertificate(e);
      case ReadClientKeyExchange => w := DoReadClientKeyExchange(e);
      case ReadClientCertificateVerify => w := DoReadClientCertificateVerify(e);
      case ReadChangeCipherSpec =>
        state := S.ProcessChangeCipherSpec;
        w := ReadCcs;
      case ProcessChangeCipherSpec => w := DoProcessChangeCipherSpec(e);
      case ReadNextProto => w := DoReadNextProto(e);
      case ReadChannelId => w := DoReadChannelId(e);
      case ReadClientFinished => w := DoReadClientFinished(e);
      case SendServerFinished => w := DoSendServerFinished(e);
      case FinishServerHandshake => w := DoFinishServerHandshake(e);
      case Tls13 => w := Go;
      case Done => w := Go;
    }

    // ssl_server_handshake
    method Run(choices: seq<Choice>)
      requires Valid()
      modifies this, hs
      ensures Valid() && history == old(history) + Runs(old(View()), choices)
      ensures View() == Loop(old(View()), choices)
    {
      hide S.Do;
      var i := 0;
      while i < |choices| && state != S.Done && wait == Go
        invariant i <= |choices| && Loop(old(View()), choices) == Loop(View(), choices[i..])
        invariant history == old(history)
      {
        assert choices[i..][1..] == choices[i + 1..];
        wait := Dispatch(choices[i]);
        i := i + 1;
      }
      LoopIsRun(old(View()), choices);
      ExecuteAppend(S.Start(config), history, Runs(old(View()), choices));
      history := history + Runs(old(View()), choices);
    }

    // One turn of ssl_run_handshake.
    method RunHandshake(input: Input)
      requires Valid()
      modifies this, hs
      ensures Valid() && History(old(history), old(View()), input) == history
      ensures View() == Turn(old(View()), input)
    {
      hide S.Do, Loop, Runs;
      match input
      case Resolved(choices) =>
        wait := hs.Resolve(wait);
        Record(S.Resume, old(View()));
        Run(choices);
      case FromPeer(r, choices) =>
        if wait == ReadMessage || wait == ReadCcs {
          wait := hs.OpenRecord(wait, r);
        }
        Record(S.Arrive(r), old(View()));
        Run(choices);
    }

    // The machine took a step.
    ghost method Record(v: S.Event, before: S.Server)
      requires before == S.Execute(S.Start(config), history) && View() == S.Step(before, v)
      modifies this`history
      ensures Valid() && history == old(history) + [v]
    {
      hide S.Step;
      assert (history + [v])[..|history|] == history;
      history := history + [v];
    }

    // Whatever came from the peer and however the driver was called: an
    // endpoint that is done did all that TlsSafety.ServerDoneIsSafe asks for.
    lemma DoneIsSafe()
      requires Valid() && state == S.Done
      ensures BareLog(hs.log) == (
        if hs.flags.resumed then WROTE + READ
        else (if peerCertificate then [PeerVerified, SignatureVerified] else []) + READ + WROTE)
      ensures hs.readEpoch == hs.writeEpoch == 1 && FinishedCover(ServerSide, hs.View())
    {
      hide S.Execute;
      ServerDoneIsSafe(config, history);
    }

    // And one that insists on a client certificate has a client with one.
    lemma DoneAsInsisted()
      requires Valid() && state == S.Done
      requires !config.flags.resumed && config.flags.certAuth && config.wantsCertificate && config.mustHaveCertificate
      ensures peerCertificate && PeerVerified in hs.log && SignatureVerified in hs.log
    {
      hide S.Execute;
      TlsStory.ServerInsists(config, history);
    }
  }
}
