// The client as the object that runs: the state functions of
// handshake_client.cc, ssl_client_handshake and the driver ssl_run_handshake.

module TlsClientEndpoint {
  import opened TlsTypes
  import opened TlsHandshake
  import opened TlsSafety
  import C = TlsClient

  // The state functions one after another, as long as none waits.
  function Loop(c: C.Client, choices: seq<Choice>): C.Client
    decreases |choices|
  {
    if choices == [] || c.state == C.Done || c.wait != Go then c else Loop(C.Do(c, choices[0]), choices[1..])
  }

  // One turn of ssl_run_handshake.
  function Turn(c: C.Client, i: Input): C.Client {
    match i
    case Resolved(choices) => Loop(C.Step(c, C.Resume), choices)
    case FromPeer(r, choices) => Loop(C.Step(c, C.Arrive(r)), choices)
  }

  // The events of the loop, one per state function run.
  function Runs(c: C.Client, choices: seq<Choice>): seq<C.Event>
    decreases |choices|
  {
    if choices == [] || c.state == C.Done || c.wait != Go then []
    else [C.Run(choices[0])] + Runs(C.Do(c, choices[0]), choices[1..])
  }

  // The events of one turn of the driver, after those before.
  function History(before: seq<C.Event>, c: C.Client, i: Input): seq<C.Event> {
    match i
    case Resolved(choices) => before + [C.Resume] + Runs(C.Step(c, C.Resume), choices)
    case FromPeer(r, choices) => before + [C.Arrive(r)] + Runs(C.Step(c, C.Arrive(r)), choices)
  }

  lemma {:induction false} ExecuteAppend(c: C.Client, a: seq<C.Event>, b: seq<C.Event>)
    ensures C.Execute(c, a + b) == C.Execute(C.Execute(c, a), b)
    decreases |b|
  {
    if b == [] {
      assert a + b == a;
    } else {
      assert (a + b)[..|a + b| - 1] == a + b[..|b| - 1];
      ExecuteAppend(c, a, b[..|b| - 1]);
    }
  }

  // The loop is a run of the state machine, so whatever holds of all runs
  // holds of it.
  lemma {:induction false} LoopIsRun(c: C.Client, choices: seq<Choice>)
    ensures Loop(c, choices) == C.Execute(c, Runs(c, choices))
    decreases |choices|
  {
    if !(choices == [] || c.state == C.Done || c.wait != Go) {
      var next, rest := C.Do(c, choices[0]), Runs(C.Do(c, choices[0]), choices[1..]);
      LoopIsRun(next, choices[1..]);
      ExecuteAppend(c, [C.Run(choices[0])], rest);
      assert [C.Run(choices[0])][..0] == [];
    }
  }

  class Endpoint {
    var state: C.State
    var wait: Wait
    const hs: Handshake
    const hasCertificate: bool
    ghost var history: seq<C.Event> // all that happened since the start

    // The machine once a state function returned w.
    ghost function Returned(w: Wait): C.Client
      reads this, hs
    {
      C.Client(state, w, hs.View(), hasCertificate)
    }

    ghost function View(): C.Client
      reads this, hs
    {
      Returned(wait)
    }

    // The machine is where its history takes it.
    ghost predicate Valid()
      reads this, hs
    {
      View() == C.Execute(C.Start(hasCertificate), history)
    }

    constructor (hasCertificate: bool)
      ensures Valid() && fresh(hs) && history == [] && this.hasCertificate == hasCertificate
    {
      state, wait, this.hasCertificate, history := C.StartConnect, Go, hasCertificate, [];
      hs := new Handshake();
    }

    // Consumes a message of the given kind.
    method Expect(e: Choice, kind: Kind, next: C.State, after: Wait) returns (w: Wait)
      modifies this`state, hs
      ensures Returned(w) == C.Expect(old(View()), e, kind, next, after)
    {
      hide C.Do, C.Execute;
      ghost var before := hs.View();
      w := hs.Accept(kind, e.ok);
      assert hs.View() == if w == Go then Consume(before) else before;
      if w == Go {
        state := next;
        w := after;
      }
    }

    method DoStartConnect(e: Choice) returns (w: Wait)
      modifies this`state, hs
      ensures Returned(w) == C.DoStartConnect(old(View()), e)
    {
      if !e.ok {
        return Failed;
      }
      hs.AddMessage(Opaque(e, ClientHello));
      state := C.EnterEarlyData;
      w := Flush;
    }

    method DoReadServerHello(e: Choice) returns (w: Wait)
      modifies this`state, hs
      ensures Returned(w) == C.DoReadServerHello(old(View()), e)
    {
      if hs.buffer == [] {
        return ReadMessage;
      }
      var m := hs.buffer[0].msg;
      if m.kind != ServerHello || !m.body.Hello? || !e.ok {
        return Failed;
      }
      if m.body.flags.tls13 {
        state := C.Tls13;
        return Go;
      }
      hs.flags := m.body.flags;
      hs.HashMessage();
      hs.NextMessage();
      if hs.flags.resumed {
        state := C.ReadSessionTicket;
      } else {
        state := C.ReadServerCertificate;
      }
      w := Go;
    }

    method DoReadServerCertificate(e: Choice) returns (w: Wait)
      modifies this`state, hs
      ensures Returned(w) == C.DoReadServerCertificate(old(View()), e)
    {
      if !hs.flags.certAuth {
        state := C.ReadCertificateStatus;
        return Go;
      }
      if hs.buffer != [] && hs.buffer[0].msg.body != Chain(true) {
        return Failed;
      }
      w := Expect(e, Certificate, C.ReadCertificateStatus, Go);
    }

    method DoReadCertificateStatus(e: Choice) returns (w: Wait)
      modifies this`state, hs
      ensures Returned(w) == C.DoReadCertificateStatus(old(View()), e)
    {
      if !hs.flags.status || (hs.buffer != [] && hs.buffer[0].msg.kind != CertificateStatus) {
        state := C.VerifyServerCertificate;
        return Go;
      }
      w := Expect(e, CertificateStatus, C.VerifyServerCertificate, Go);
    }

    method DoVerifyServerCertificate(e: Choice) returns (w: Wait)
      modifies this`state, hs
      ensures Returned(w) == C.DoVerifyServerCertificate(old(View()), e)
    {
      if !hs.flags.certAuth {
        state := C.ReadServerKeyExchange;
        return Go;
      }
      match e.verdict
      case VerifyInvalid =>
        w := Failed;
      case VerifyRetry =>
        w := Paused;
      case VerifyOk =>
        hs.Log(PeerVerified);
        state := C.ReadServerKeyExchange;
        w := Go;
    }

    method DoReadServerKeyExchange(e: Choice) returns (w: Wait)
      modifies this`state, hs
      ensures Returned(w) == C.DoReadServerKeyExchange(old(View()), e)
    {
      if hs.buffer != [] && hs.buffer[0].msg.kind != ServerKeyExchange {
        if hs.flags.ecdhe {
          return Failed;
        }
        state := C.ReadCertificateRequest;
        return Go;
      }
      if hs.buffer != [] && hs.flags.certAuth && !hs.flags.ecdhe {
        return Failed;
      }
      w := Expect(e, ServerKeyExchange, C.ReadCertificateRequest, Go);
    }

    method DoReadCertificateRequest(e: Choice) returns (w: Wait)
      requires state == C.ReadCertificateRequest
      modifies this`state, hs
      ensures Returned(w) == C.DoReadCertificateRequest(old(View()), e)
    {
      if !hs.flags.certAuth || (hs.buffer != [] && hs.buffer[0].msg.kind == ServerHelloDone) {
        state := C.ReadServerHelloDone;
        return Go;
      }
      w := Expect(e, CertificateRequest, C.ReadServerHelloDone, Go);
      if w == Go {
        hs.certRequest := true;
      }
    }

    method DoSendClientCertificate(e: Choice) returns (w: Wait)
      modifies this`state, hs
      ensures Returned(w) == C.DoSendClientCertificate(old(View()), e)
    {
      if hs.certRequest {
        if e.retry {
          return Paused;
        }
        if !e.ok {
          return Failed;
        }
        hs.AddMessage(Message(Certificate, Chain(hasCertificate)));
      }
      state := C.SendClientKeyExchange;
      w := Go;
    }

    method DoSendClientKeyExchange(e: Choice) returns (w: Wait)
      modifies this`state, hs
      ensures Returned(w) == C.DoSendClientKeyExchange(old(View()), e)
    {
      if !e.ok {
        return Failed;
      }
      hs.AddMessage(Opaque(e, ClientKeyExchange));
      state := C.SendClientCertificateVerify;
      w := Go;
    }

    method DoSendClientCertificateVerify(e: Choice) returns (w: Wait)
      modifies this`state, hs
      ensures Returned(w) == C.DoSendClientCertificateVerify(old(View()), e)
    {
      if hs.certRequest && hasCertificate {
        if e.retry {
          return Paused;
        }
        if !e.ok {
          return Failed;
        }
        hs.AddMessage(Opaque(e, CertificateVerify));
      }
      state := C.SendClientFinished;
      w := Go;
    }

    method DoSendClientFinished(e: Choice) returns (w: Wait)
      modifies this`state, hs
      ensures Returned(w) == C.DoSendClientFinished(old(View()), e)
    {
      if hs.flags.channelId && e.retry {
        return Paused;
      }
      if !e.ok {
        return Failed;
      }
      hs.ChangeWrite();
      if hs.flags.npn {
        hs.AddMessage(Opaque(e, NextProto));
      }
      if hs.flags.channelId {
        hs.AddMessage(Opaque(e, ChannelId));
      }
      hs.PutFinished(ClientSide);
      state := C.FinishFlight;
      w := Flush;
    }

    method DoFinishFlight(e: Choice) returns (w: Wait)
      modifies this`state, hs
      ensures Returned(w) == C.DoFinishFlight(old(View()), e)
    {
      if hs.flags.resumed {
        state := C.FinishClientHandshake;
        return Go;
      }
      if !e.ok {
        return Failed;
      }
      state := C.ReadSessionTicket;
      w := if hs.flags.ecdhe && e.falseStart then EarlyReturn else Go;
    }

    method DoReadSessionTicket(e: Choice) returns (w: Wait)
      modifies this`state, hs
      ensures Returned(w) == C.DoReadSessionTicket(old(View()), e)
    {
      if !hs.flags.ticket {
        state := C.ProcessChangeCipherSpec;
        return ReadCcs;
      }
      w := Expect(e, NewSessionTicket, C.ProcessChangeCipherSpec, ReadCcs);
    }

    method DoProcessChangeCipherSpec(e: Choice) returns (w: Wait)
      modifies this`state, hs
      ensures Returned(w) == C.DoProcessChangeCipherSpec(old(View()), e)
    {
      var changed := hs.ChangeRead(e.ok);
      if !changed {
        return Failed;
      }
      state := C.ReadServerFinished;
      w := Go;
    }

    method DoReadServerFinished(e: Choice) returns (w: Wait)
      modifies this`state, hs
      ensures Returned(w) == C.DoReadServerFinished(old(View()), e)
    {
      w := hs.GetFinished(ServerSide, e.ok);
      if w == Go {
        state := if hs.flags.resumed then C.SendClientFinished else C.FinishClientHandshake;
      }
    }

    method DoFinishClientHandshake(e: Choice) returns (w: Wait)
      modifies this`state, hs
      ensures Returned(w) == C.DoFinishClientHandshake(old(View()), e)
    {
      if !e.ok {
        return Failed;
      }
      state := C.Done;
      w := Go;
    }

    // The switch of ssl_client_handshake. TLS 1.3 is not part of this model.
    method Dispatch(e: Choice) returns (w: Wait)
      requires wait == Go
      modifies this`state, hs
      ensures Returned(w) == C.Do(old(View()), e)
    {
      match state
      case StartConnect => w := DoStartConnect(e);
      case EnterEarlyData =>
        state := C.ReadServerHello;
        w := Go;
      case ReadServerHello => w := DoReadServerHello(e);
      case ReadServerCertificate => w := DoReadServerCertificate(e);
      case ReadCertificateStatus => w := DoReadCertificateStatus(e);
      case VerifyServerCertificate => w := DoVerifyServerCertificate(e);
      case ReadServerKeyExchange => w := DoReadServerKeyExchange(e);
      case ReadCertificateRequest => w := DoReadCertificateRequest(e);
      case ReadServerHelloDone => w := Expect(e, ServerHelloDone, C.SendClientCertificate, Go);
      case SendClientCertificate => w := DoSendClientCertificate(e);
      case SendClientKeyExchange => w := DoSendClientKeyExchange(e);
      case SendClientCertificateVerify => w := DoSendClientCertificateVerify(e);
      case SendClientFinished => w := DoSendClientFinished(e);
      case FinishFlight => w := DoFinishFlight(e);
      case ReadSessionTicket => w := DoReadSessionTicket(e);
      case ProcessChangeCipherSpec => w := DoProcessChangeCipherSpec(e);
      case ReadServerFinished => w := DoReadServerFinished(e);
      case FinishClientHandshake => w := DoFinishClientHandshake(e);
      case Tls13 => w := Go;
      case Done => w := Go;
    }

    // ssl_client_handshake
    method Run(choices: seq<Choice>)
      requires Valid()
      modifies this, hs
      ensures Valid() && history == old(history) + Runs(old(View()), choices)
      ensures View() == Loop(old(View()), choices)
    {
      hide C.Do;
      var i := 0;
      while i < |choices| && state != C.Done && wait == Go
        invariant i <= |choices| && Loop(old(View()), choices) == Loop(View(), choices[i..])
        invariant history == old(history)
      {
        assert choices[i..][1..] == choices[i + 1..];
        wait := Dispatch(choices[i]);
        i := i + 1;
      }
      LoopIsRun(old(View()), choices);
      ExecuteAppend(C.Start(hasCertificate), history, Runs(old(View()), choices));
      history := history + Runs(old(View()), choices);
    }

    // One turn of ssl_run_handshake.
    method RunHandshake(input: Input)
      requires Valid()
      modifies this, hs
      ensures Valid() && History(old(history), old(View()), input) == history
      ensures View() == Turn(old(View()), input)
    {
      hide C.Do, Loop, Runs;
      match input
      case Resolved(choices) =>
        wait := hs.Resolve(wait);
        Record(C.Resume, old(View()));
        Run(choices);
      case FromPeer(r, choices) =>
        if wait == ReadMessage || wait == ReadCcs {
          wait := hs.OpenRecord(wait, r);
        }
        Record(C.Arrive(r), old(View()));
        Run(choices);
    }

    // The machine took a step.
    ghost method Record(v: C.Event, before: C.Client)
      requires before == C.Execute(C.Start(hasCertificate), history) && View() == C.Step(before, v)
      modifies this`history
      ensures Valid() && history == old(history) + [v]
    {
      hide C.Step;
      assert (history + [v])[..|history|] == history;
      history := history + [v];
    }

    // Whatever came from the peer and however the driver was called: an
    // endpoint that is done did all that TlsSafety.ClientDoneIsSafe asks for.
    lemma DoneIsSafe()
      requires Valid() && state == C.Done
      ensures BareLog(hs.log) == (
        if hs.flags.resumed then READ + WROTE
        else (if hs.flags.certAuth then [PeerVerified] else []) + WROTE + READ)
      ensures hs.readEpoch == hs.writeEpoch == 1 && FinishedCover(ClientSide, hs.View())
    {
      hide C.Execute;
      ClientDoneIsSafe(hasCertificate, history);
    }
  }
}
