// SSL_HANDSHAKE as an object: what the state functions of both sides update in
// place (handshake.cc, and the message methods of s3_both.cc behind it).

module TlsHandshake {
  import opened TlsTypes

  // One turn of the driver: what the machine waits for is there, or a record
  // arrives, and then state functions run with these choices.
  datatype Input = Resolved(choices: seq<Choice>) | FromPeer(r: Record, choices: seq<Choice>)

  class Handshake {
    var flags: Flags
    var certRequest: bool
    var buffer: seq<Held>
    var transcript: seq<Message>
    var sent: seq<Record>
    var flushed: nat
    var readEpoch: nat
    var writeEpoch: nat
    var log: seq<Mark>

    ghost function View(): Hs
      reads this
    {
      Hs(flags, certRequest, buffer, transcript, sent, flushed, readEpoch, writeEpoch, log)
    }

    constructor ()
      ensures View() == FRESH
    {
      flags, certRequest, buffer, transcript, sent, flushed := NO_FLAGS, false, [], [], [], 0;
      readEpoch, writeEpoch, log := 0, 0, [];
    }

    // ssl_add_message_cbb
    method AddMessage(m: Message)
      modifies this`sent, this`transcript
      ensures View() == Add(old(View()), m)
    {
      sent := sent + [Record(writeEpoch, Messages([m]))];
      transcript := transcript + [m];
    }

    // add_change_cipher_spec and tls1_change_cipher_state
    method ChangeWrite()
      modifies this`sent, this`writeEpoch, this`log
      ensures View() == ChangeWriteCipher(old(View()))
    {
      sent := sent + [Record(writeEpoch, Ccs)];
      writeEpoch := writeEpoch + 1;
      log := log + [WriteCipher];
    }

    // tls1_change_cipher_state, which refuses leftover messages.
    method ChangeRead(ok: bool) returns (done: bool)
      modifies this`readEpoch, this`log
      ensures done == (old(buffer) == [] && ok)
      ensures View() == if done then ChangeReadCipher(old(View())) else old(View())
    {
      if buffer != [] || !ok {
        return false;
      }
      readEpoch := readEpoch + 1;
      log := log + [ReadCipher];
      done := true;
    }

    // ssl_hash_message
    method HashMessage()
      requires buffer != []
      modifies this`transcript
      ensures View() == old(View()).(transcript := old(transcript) + [buffer[0].msg])
    {
      transcript := transcript + [buffer[0].msg];
    }

    // next_message
    method NextMessage()
      requires buffer != []
      modifies this`buffer
      ensures View() == old(View()).(buffer := old(buffer)[1..])
    {
      buffer := buffer[1..];
    }

    // A message of one kind is due: hashed and consumed if all that is opaque
    // about it is in order.
    method Accept(kind: Kind, ok: bool) returns (wait: Wait)
      modifies this`buffer, this`transcript
      ensures wait == if old(buffer) == [] then ReadMessage else if old(buffer)[0].msg.kind == kind && ok then Go else Failed
      ensures View() == if wait == Go then Consume(old(View())) else old(View())
    {
      if buffer == [] {
        return ReadMessage;
      }
      if buffer[0].msg.kind != kind || !ok {
        return Failed;
      }
      HashMessage();
      NextMessage();
      wait := Go;
    }

    method Log(mark: Mark)
      modifies this`log
      ensures View() == old(View()).(log := old(log) + [mark])
    {
      log := log + [mark];
    }

    // ssl_get_finished: the verify data of the peer is that of the transcript
    // before its Finished.
    method GetFinished(from: Side, ok: bool) returns (wait: Wait)
      modifies this`buffer, this`transcript, this`log
      ensures wait == if old(buffer) == [] then ReadMessage
                      else if FinishedOk(old(View()), from) && ok then Go else Failed
      ensures View() == if wait == Go then ConsumeFinished(old(View())) else old(View())
    {
      if buffer == [] {
        return ReadMessage;
      }
      var held, over := buffer[0], transcript;
      if held.msg.kind != Finished || held.msg.body != Verify(from, over) || !ok {
        return Failed;
      }
      HashMessage();
      Log(PeerFinished(held.epoch, over));
      NextMessage();
      wait := Go;
    }

    // ssl_send_finished
    method PutFinished(side: Side)
      modifies this`sent, this`transcript, this`log
      ensures View() == SendFinished(old(View()), side)
    {
      var over := transcript;
      Log(OwnFinished(writeEpoch, over));
      AddMessage(Message(Finished, Verify(side, over)));
    }

    // The waits that ssl_run_handshake resolves on its own.
    method Resolve(wait: Wait) returns (resolved: Wait)
      modifies this`flushed
      ensures View() == if wait == Flush then old(View()).(flushed := |sent|) else old(View())
      ensures resolved == if wait in {Flush, Paused, EarlyReturn} then Go else wait
    {
      if wait == Flush {
        flushed := |sent|;
        resolved := Go;
      } else if wait == Paused || wait == EarlyReturn {
        resolved := Go;
      } else {
        resolved := wait;
      }
    }

    // ssl_open_handshake and ssl_open_change_cipher_spec
    method OpenRecord(wait: Wait, r: Record) returns (next: Wait)
      modifies this`buffer
      ensures Opened(next, View()) == Open(old(View()), wait, r)
    {
      if r.epoch != readEpoch {
        return Failed;
      }
      match r.content
      case Ccs =>
        next := if wait == ReadCcs then Go else Failed;
      case Messages(msgs) =>
        if wait == ReadCcs {
          return Failed;
        }
        buffer := buffer + Hold(msgs, r.epoch);
        next := Go;
    }
  }
}
