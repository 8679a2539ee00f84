# Verified models of the handshake transport, the codec and the counters under ToDoo/Pods

The app links BoringSSL (by way of gRPC) and nanopb. This project models, in
Dafny 4.11, four of their components and proves what they are for:

* **The DTLS handshake transport** (`ssl/d1_both.cc`, `ssl/dtls_record.cc`,
  `ssl/dtls_method.cc`; sections 4.1.2.6, 4.2.3 and 4.2.6 of RFC 6347).
  `DtlsReplay`, `DtlsRecord`, `DtlsFragment`, `DtlsReassembly` and `DtlsReader`
  are the receiving half, down to bits and buffers updated in place;
  `DtlsWriter` and `DtlsSender` the sending half. `DtlsFlight` proves what
  sending a flight achieves, `DtlsEndToEnd` joins both halves by a network that
  loses, repeats, delays and reorders datagrams and brings forgeries, and
  `DtlsDelivery` and `DtlsArrival` show when messages get through. `DtlsOpening`
  is about forgeries, errors and key changes in these runs, `DtlsNonces` about
  record numbers. `DtlsRuns` builds runs:
  `DtlsWrap` shows with them that the bound of the main theorem is exact,
  `DtlsGap` and `DtlsLossRuns` what is behind two limits below, and
  `DtlsLastFlight` delivers a datagram with records of two epochs. `DtlsLoss`
  says when calls of `send_flight` lose pieces and when they cannot fail.
  `Words64` has the operations on 64-bit words.
* **The nanopb codec** (`pb_encode.c`, `pb_decode.c`, `pb_common.c`; the
  encoding of Protocol Buffers). `PbMessage` has descriptors and messages as
  trees. `PbEncoding` and `PbDecoding` say what the two directions compute;
  `PbEncoder`, `PbDecoder`, `PbIter` and `PbRequired` are the streams, loops,
  iterator and bitmap that compute it. The laws of the codec are in `PbWire`,
  `PbVarint32` and `PbExact` (numbers and data, digit by digit), `PbRoundTrip`,
  `PbFidelity` (what survives, what takes no bytes, what is an error),
  `PbPresence` (which fields are present), `PbRepeats` and `PbMerge` (fields that
  occur again), `PbUnknown` (fields the reader lacks) and `PbInBounds`.
* **The TLS 1.0 to 1.2 handshake** (`handshake_client.cc`,
  `handshake_server.cc`, `handshake.cc`; sections 7.3 and 7.4.9 of RFC 5246).
  `TlsClient` and `TlsServer` are the state machines as functions;
  `TlsHandshake`, `TlsClientEndpoint` and `TlsServerEndpoint` are the objects
  that run, proved against them. `TlsSafety`, `TlsStory` (which messages there
  were) and `TlsDiscipline` (what no step does) are about one machine against
  any peer. `TlsScript`, `TlsMoves`, `TlsClientScript`, `TlsServerScript`,
  `TlsPeers`, `TlsAgreement` and `TlsProgress` are about two honest peers.
  `TlsCipher` and `TlsPremaster` are the cipher choice and the branch-free
  choice of the premaster secret.
* **Reference counts** (`crypto/refcount_c11.c` against
  `crypto/refcount_lock.c`): `RefCount`, with the threads as interleaved steps.

`dafny verify dfyconfig.toml` checks everything.

## How to read it

Code that changes state is a class or a method with loops, proved to leave
exactly the state that a function of the same step gives (the `do_*` methods of
the endpoints: the function of that name in `TlsClient` or `TlsServer`, where
the branches are described and their properties proved); theorems are about
those functions and about runs, which are sequences of events. In DTLS, records
and fragments are byte sequences; the AEAD is a pair of functions of which the
theorems assume only that opening undoes sealing and that the output is longer
than the input by at most the stated overhead. The network may also bring any
bytes, as long as nothing in them opens to what the sender did not seal. In
TLS, messages are kinds with opaque bodies, a Finished is the transcript it was
computed over, and a `Choice` says how everything opaque turns out in one step.
In nanopb, a structure is a sequence of slots, one per field of the descriptor.

Some properties hold only up to a limit, which is stated and proved:

* Delivery in order ends with the 16-bit message counter: fewer than 65536
  messages always arrive in order, and for every larger number there is a run
  in which they do not (`DtlsWrap.OrderIffNoWrap`).
* A fragment whose number is exactly `read_seq + 7` passes the first window
  check and fails the second, so that it is an error where one before and one
  after it are not (`DtlsEndToEnd.HonestFragmentErrors`). The runs that show it
  (`DtlsGap.GapIsReached`) rely on a freedom of the model: the sender starts
  flights without an answer. A handshake awaits the answer to each flight, and
  in every run that does so the gap is not met (`DtlsGap.WaitingIsWelcome`).
* A flight is covered without gaps over any refused writes, but not over seal
  errors behind a sealed record: `DtlsLoss.LosesExactly` says exactly when a
  call leaves its cursor behind pieces it never wrote, no later call makes up
  for it (`DtlsLoss.CallsTileUnlessLost`),
  `DtlsLossRuns.LargeMessageIsSkipped` is a run in which that happens, and
  within the bounds of `DtlsLoss.CallSucceeds` it does not.
* With the last group of the preference list left open, which the comment in
  `ssl/internal.h` rules out, the cipher choice can miss acceptable ciphers
  (`TlsCipher.ChooseCipher` says exactly when).

## Model

| member | source | states |
|---|---|---|
| `DtlsEndToEnd.DeliveredIsPrefix` | `ToDoo/Pods/BoringSSL-GRPC/ssl/d1_both.cc:408-424` | End to end: in every run, over a network that drops, repeats, delays and reorders datagrams and brings any others that no key authenticates, with any flushes, retransmissions, MTUs and key changes, what `dtls1_get_message` delivered is a prefix of what was passed to `dtls1_add_message`, each message once, in order, and `raw` is the single-fragment form the sender hashed; for fewer than 65536 messages |
| `DtlsWrap.OrderIffNoWrap` | `ToDoo/Pods/BoringSSL-GRPC/ssl/d1_both.cc:426-438` | The bound is exact: all runs with n messages keep the order if and only if n < 65536 |
| `DtlsWrap.WrapBreaksOrder` | `ToDoo/Pods/BoringSSL-GRPC/ssl/d1_both.cc:555-594` | For every n from 65536 on, a run of n messages in which the first message is delivered a second time: message and record counters of the sender have wrapped |
| `DtlsWrap.CounterWraps` | `ToDoo/Pods/BoringSSL-GRPC/ssl/dtls_record.cc:294-351` | Using the last record number fails, and leaves the counter at 0 |
| `DtlsEndToEnd.PeekIsStable` | `ToDoo/Pods/BoringSSL-GRPC/ssl/d1_both.cc:408-424` | Until it is consumed, `dtls1_get_message` gives the same message again, whatever arrives in between |
| `DtlsEndToEnd.RunKeepsInv` | `ToDoo/Pods/BoringSSL-GRPC/ssl/d1_both.cc:297-406` | Every run keeps the joint invariant: all bytes on the wire are sealed fragments of messages sent, every slot of the ring holds genuine bytes of its message, and delivered messages match those sent |
| `DtlsEndToEnd.StepKeepsInv` | `ToDoo/Pods/BoringSSL-GRPC/ssl/d1_both.cc:297-438` | The same for one step of sender, network or receiver |
| `DtlsEndToEnd.FlightIsGenuine` | `ToDoo/Pods/BoringSSL-GRPC/ssl/d1_both.cc:782-827` | Whatever the cursor, MTU and refused writes, `send_flight` puts only sealed fragments of the queued messages on the wire, under the keys of their epoch |
| `DtlsEndToEnd.OpenUndoesSeal` | `ToDoo/Pods/BoringSSL-GRPC/ssl/dtls_record.cc:177-272` | A sealed record, behind any number of records in its datagram, is dropped, fatal because of its length, or opened to what was sealed, with its own epoch and number |
| `DtlsEndToEnd.OpenIsGenuine` | `ToDoo/Pods/BoringSSL-GRPC/ssl/dtls_record.cc:177-272` | What the record layer lets through of authentic bytes is genuine |
| `DtlsEndToEnd.SealedIsAuthentic` | `ToDoo/Pods/BoringSSL-GRPC/ssl/dtls_record.cc:177-272` | Every datagram of sealed records is authentic: whatever of it opens is what was sealed |
| `DtlsOpening.ForgeryLeavesNoTrace` | `ToDoo/Pods/BoringSSL-GRPC/ssl/dtls_record.cc:237-248` | In every run, at any time: a datagram none of whose records opens under the key of its epoch leaves ring, window, flags and everything else as they were, and is used up by as many calls as it has bytes |
| `DtlsOpening.ForgeryIsDropped` | `ToDoo/Pods/BoringSSL-GRPC/ssl/dtls_record.cc:237-248` | One call on such a datagram gives Discarded, and takes something off it |
| `DtlsOpening.OpenErrorsExactly` | `ToDoo/Pods/BoringSSL-GRPC/ssl/d1_both.cc:297-406` | In every run, whatever the network brings: opening a record is an error if and only if its plaintext is too long, it is a ChangeCipherSpec under keys, or its fragment is of a message over the limit or out of turn |
| `DtlsOpening.OtherRecordsOpen` | `ToDoo/Pods/BoringSSL-GRPC/ssl/d1_both.cc:305-347` | Alerts are handed out, application data is dropped under keys and an error without, other types are errors, and none changes more than the window |
| `DtlsOpening.CcsIsTakenOnce` | `ToDoo/Pods/BoringSSL-GRPC/ssl/d1_both.cc:475-491` | A ChangeCipherSpec is taken exactly if one is pending or the record is one, and each only once |
| `DtlsOpening.KeyChangeLeavesNothing` | `ToDoo/Pods/BoringSSL-GRPC/ssl/dtls_method.cc:81-95` | In every run: the read keys change if and only if no ChangeCipherSpec is pending and the ring holds nothing but the complete message in hand, so that nothing of the old epoch is taken in the new one; the new window discards nothing |
| `DtlsNonces.NoNonceTwice` | `ToDoo/Pods/BoringSSL-GRPC/ssl/dtls_record.cc:294-351` | In every run with fewer records and events than an epoch has numbers, no two records were ever sealed with the same epoch and number, also in packets that were refused, retransmitted or failed |
| `DtlsNonces.NetworkIsSealed` | `ToDoo/Pods/BoringSSL-GRPC/ssl/d1_both.cc:782-827` | All that ever was on the wire is among those records |
| `DtlsNonces.CallDraws` | `ToDoo/Pods/BoringSSL-GRPC/ssl/d1_both.cc:782-827` | What one call of `send_flight` seals has numbers of its own, and at most one number is lost |
| `DtlsEndToEnd.HonestFragmentErrors` | `ToDoo/Pods/BoringSSL-GRPC/ssl/d1_both.cc:365-397` | Among honest peers a fragment is an error if and only if its message is over the length limit or, in epoch 1, not the next one, or, in other epochs, its number is exactly `read_seq + 7`: the first window check lets it through and the second rejects it |
| `DtlsGap.WaitingIsWelcome` | `ToDoo/Pods/BoringSSL-GRPC/ssl/d1_both.cc:365-397` | In every run of a sender that starts a flight only when the messages of the one before are consumed, it is at most seven messages ahead, and no fragment of it is an error for its number, but for epoch 1, which takes only the next one |
| `DtlsGap.GapIsReached` | `ToDoo/Pods/BoringSSL-GRPC/ssl/d1_both.cc:380-390` | Runs of an honest sender that does not wait: of its messages the receiver at number 0 takes those below 7, rejects 7 and ignores those above |
| `DtlsArrival.FlightGetsThrough` | `ToDoo/Pods/BoringSSL-GRPC/ssl/d1_both.cc:408-424` | Delivery in runs: of a flight sent to its end, if each record that carries a piece of a message comes at some time, in its epoch and neither old nor seen by the window, `dtls1_get_message` returns that message once it is next. The records of a datagram are opened at any times, with messages consumed and the epoch changed in between |
| `DtlsLastFlight.LastFlightGetsThrough` | `ToDoo/Pods/BoringSSL-GRPC/ssl/d1_both.cc:739-780` | A run for every last flight that fits one packet (a message and a ChangeCipherSpec of epoch 0 and a message of epoch 1): the packet arrives once, the hypotheses of the theorem above hold for both messages, and both are delivered |
| `DtlsLastFlight.FlightIsOnePacket` | `ToDoo/Pods/BoringSSL-GRPC/ssl/d1_both.cc:739-780` | `seal_next_packet` packs such a flight across the epochs, each record under the keys and numbers of its epoch |
| `DtlsArrival.BufferAt` | `ToDoo/Pods/BoringSSL-GRPC/ssl/dtls_record.cc:177-272` | While no other datagram comes in, the reader works through the records of one in order, whatever becomes of each and whatever happens in between |
| `DtlsArrival.MessageGetsThrough` | `ToDoo/Pods/BoringSSL-GRPC/ssl/d1_both.cc:408-424` | The next message is delivered once each of its bytes was received at some time |
| `DtlsArrival.StepKeepsHas` | `ToDoo/Pods/BoringSSL-GRPC/ssl/d1_both.cc:352-438` | No event takes away what was received of a message that is not yet consumed |
| `DtlsArrival.RecordIsTaken` | `ToDoo/Pods/BoringSSL-GRPC/ssl/dtls_record.cc:177-272` | A fresh record at hand is opened, by either call that opens records, and its fragment is in the ring |
| `DtlsEndToEnd.CompleteIsExpected` | `ToDoo/Pods/BoringSSL-GRPC/ssl/d1_both.cc:408-424` | A complete current slot holds the message sent under that number, byte for byte as hashed |
| `DtlsDelivery.CoverageCompletes` | `ToDoo/Pods/BoringSSL-GRPC/ssl/d1_both.cc:352-403` | Fragments that cover a message complete it, in any order, with any overlaps and among any other genuine fragments of the window |
| `DtlsDelivery.RecordIsAll` | `ToDoo/Pods/BoringSSL-GRPC/ssl/d1_both.cc:352-403` | Several fragments in one record do what they do one by one |
| `DtlsDelivery.OneOfMany` | `ToDoo/Pods/BoringSSL-GRPC/ssl/d1_both.cc:352-403` | A record is processed fragment by fragment, up to the first error |
| `DtlsDelivery.FlightArrives` | `ToDoo/Pods/BoringSSL-GRPC/ssl/d1_both.cc:782-827` | Once a flight was sent to its end, over any calls of `send_flight`, arrival of every fragment of a message once, in any order, completes it at the receiver |
| `DtlsFlight.DatagramsFitMtu` | `ToDoo/Pods/BoringSSL-GRPC/ssl/d1_both.cc:782-827` | No datagram of `send_flight` is longer than the MTU, at whatever cursor and with whatever refused writes |
| `DtlsFlight.PacketFits` | `ToDoo/Pods/BoringSSL-GRPC/ssl/d1_both.cc:739-780` | The records sealed into one packet take at most the room it has |
| `DtlsFlight.SendFlightTiles` | `ToDoo/Pods/BoringSSL-GRPC/ssl/d1_both.cc:782-827` | What `BIO_write` accepted in one call is a gapless tiling of the flight from the cursor before the call to the cursor after it, also when a refused packet rolled the cursor back |
| `DtlsFlight.SendAllTiles` | `ToDoo/Pods/BoringSSL-GRPC/ssl/d1_both.cc:782-845` | The same over any sequence of calls at any MTUs |
| `DtlsFlight.FlightCovered` | `ToDoo/Pods/BoringSSL-GRPC/ssl/d1_both.cc:644-827` | A flight sent to its end put every byte of every message on the wire exactly once, and each fragment starts where the previous one of its message ended |
| `DtlsLoss.LosesExactly` | `ToDoo/Pods/BoringSSL-GRPC/ssl/d1_both.cc:797-815` | A call of `send_flight` leaves its cursor behind pieces it never wrote if and only if, in a packet it reached, a turn behind a sealed record meets the guard of a failing branch; the guards are decided from keys, flight, cursor, MTU and refusals alone |
| `DtlsLoss.CallsTileUnlessLost` | `ToDoo/Pods/BoringSSL-GRPC/ssl/d1_both.cc:782-845` | Over any calls, failed ones included, what was accepted tiles the flight up to the last cursor if and only if no call lost a piece |
| `DtlsLoss.CallsLoseExactly` | `ToDoo/Pods/BoringSSL-GRPC/ssl/d1_both.cc:782-845` | What one call loses no later one makes up for: the last cursor stays whole messages ahead of what was accepted |
| `DtlsLoss.CoveredUnlessLost` | `ToDoo/Pods/BoringSSL-GRPC/ssl/d1_both.cc:782-845` | A message the cursor has passed without a loss was put on the wire exactly once, byte for byte, although calls may have failed |
| `DtlsLoss.GuardsDecide` | `ToDoo/Pods/BoringSSL-GRPC/ssl/d1_both.cc:644-734` | The guards are exact: a turn fails if and only if the epoch is unknown, the message or offset does not fit, the record number is the last one, or the ciphertext is too long for its length field or for the room; otherwise it stops or seals, by the room alone |
| `DtlsLoss.PacketFails` | `ToDoo/Pods/BoringSSL-GRPC/ssl/d1_both.cc:739-780` | `seal_next_packet` fails behind a sealed record if and only if such a guard holds there |
| `DtlsLoss.PacketSealed` | `ToDoo/Pods/BoringSSL-GRPC/ssl/d1_both.cc:739-780` | A packet can be sent if and only if its first turn neither fails nor lacks room and no turn behind it fails |
| `DtlsLoss.OnlyLimitsFail` | `ToDoo/Pods/BoringSSL-GRPC/ssl/dtls_record.cc:294-351` | For whole messages of a known epoch under a correct AEAD only two guards are left: the last record number and a ciphertext of 2^16 bytes or more |
| `DtlsLoss.CallSucceeds` | `ToDoo/Pods/BoringSSL-GRPC/ssl/d1_both.cc:782-827` | With a record number for each byte left, and an MTU that has room for one byte of each message and not for a ciphertext of 2^16 bytes (or no message that long), a call never fails, whatever is refused; if nothing is refused it sends the flight to its end |
| `DtlsLoss.CallsSucceed` | `ToDoo/Pods/BoringSSL-GRPC/ssl/d1_both.cc:782-845` | The same for any number of calls at any such MTUs |
| `DtlsLoss.FlightGetsCovered` | `ToDoo/Pods/BoringSSL-GRPC/ssl/d1_both.cc:782-845` | So within these bounds every byte of every message is written exactly once, as soon as one call is not refused |
| `DtlsLossRuns.GuardsInRuns` | `ToDoo/Pods/BoringSSL-GRPC/ssl/d1_both.cc:555-594` | In every run, from a message of known epoch on, only those two guards can fail |
| `DtlsLossRuns.LargeMessageIsSkipped` | `ToDoo/Pods/BoringSSL-GRPC/ssl/d1_both.cc:797-804` | A run that loses a piece: a message of 2^16 bytes with its header, at an MTU that would take it, behind another one. Nothing is written, and the cursor has passed the first message |
| `DtlsFlight.RawIsWhole` | `ToDoo/Pods/BoringSSL-GRPC/ssl/d1_both.cc:663-690` | What `dtls1_finish_message` makes is accepted by `seal_next_message` as a whole message, with its number, type and body |
| `DtlsFlight.NextPieceIsSlice` | `ToDoo/Pods/BoringSSL-GRPC/ssl/d1_both.cc:644-734` | The piece chosen for the next record is the part of the message at the cursor, with a header that says so; it is empty only for an empty message |
| `DtlsFlight.PieceFills` | `ToDoo/Pods/BoringSSL-GRPC/ssl/d1_both.cc:693-700` | A piece that does not end its message fills the room, and there is no room exactly if not one byte fits |
| `DtlsWriter.BuildIsSingleFragment` | `ToDoo/Pods/BoringSSL-GRPC/ssl/d1_both.cc:511-537` | `dtls1_init_message` and `dtls1_finish_message`, which copy the length over the missing one, give the message as a single fragment, and fail exactly from 2^24 bytes on |
| `DtlsWriter.SealRecord` | `ToDoo/Pods/BoringSSL-GRPC/ssl/dtls_record.cc:294-351` | A sealed record fits the room given and uses exactly one record number; a failure uses at most one |
| `DtlsWriter.NextPiece` | `ToDoo/Pods/BoringSSL-GRPC/ssl/d1_both.cc:644-716` | The piece starts at the cursor and is empty only if it ends the message |
| `DtlsSender.Sender.Add` | `ToDoo/Pods/BoringSSL-GRPC/ssl/d1_both.cc:555-594` | `add_outgoing` in place: a completed flight is cleared first, a full flight or an oversized message refused, the 16-bit message number advanced unless it is a ChangeCipherSpec |
| `DtlsSender.Sender.ChangeWriteState` | `ToDoo/Pods/BoringSSL-GRPC/ssl/dtls_method.cc:97-107` | The current write context becomes the previous one; the epoch grows by one and the record number restarts |
| `DtlsSender.Sender.SealNextMessage` | `ToDoo/Pods/BoringSSL-GRPC/ssl/d1_both.cc:644-734` | `seal_next_message` in place: the record sealed, the record number used and the cursor moved are those of the specification, for every outcome |
| `DtlsSender.Sender.SealTurn` | `ToDoo/Pods/BoringSSL-GRPC/ssl/d1_both.cc:744-769` | One turn of the loop of `seal_next_packet` leaves the same packet to be sealed |
| `DtlsSender.Sender.SealNextPacket` | `ToDoo/Pods/BoringSSL-GRPC/ssl/d1_both.cc:739-780` | The loop seals exactly the packet of the specification, up to a full packet, a seal error or the end of the flight |
| `DtlsSender.Sender.Send` | `ToDoo/Pods/BoringSSL-GRPC/ssl/d1_both.cc:782-827` | `send_flight` terminates and writes exactly the packets of the specification; a refused packet restores the cursor, but not the record numbers |
| `DtlsSender.Sender.Flush` | `ToDoo/Pods/BoringSSL-GRPC/ssl/d1_both.cc:829-834` | `dtls1_flush_flight` marks the flight complete and sends it from the cursor |
| `DtlsSender.Sender.Retransmit` | `ToDoo/Pods/BoringSSL-GRPC/ssl/d1_both.cc:836-845` | `dtls1_retransmit_outgoing_messages` sends the flight from its beginning |
| `DtlsFragment.ParseInvertsWrite` | `ToDoo/Pods/BoringSSL-GRPC/ssl/d1_both.cc:459-473` | Parsing a written fragment gives its header, its body and whatever followed |
| `DtlsFragment.LookupFindsItsOwn` | `ToDoo/Pods/BoringSSL-GRPC/ssl/d1_both.cc:265-283` | Ring invariant at work: the slot looked up never holds another message, so `assert(frag->seq == msg_hdr->seq)` cannot fail |
| `DtlsFragment.FragmentErrorsExactly` | `ToDoo/Pods/BoringSSL-GRPC/ssl/d1_both.cc:365-397` | The fragments of any peer that are errors: ill-fitting, too long, out of turn in epoch 1, at `read_seq + 7`, or other in type or length than what was received of their message |
| `DtlsFragment.ProcessFragmentKeepsRing` | `ToDoo/Pods/BoringSSL-GRPC/ssl/d1_both.cc:352-403` | Any fragment, well-formed or not, keeps the ring invariant: slot i holds a number that is i modulo 7 and within the window |
| `DtlsFragment.ProcessRecordKeepsRing` | `ToDoo/Pods/BoringSSL-GRPC/ssl/d1_both.cc:350-403` | So does any record of any fragments |
| `DtlsFragment.NextMessageKeepsRing` | `ToDoo/Pods/BoringSSL-GRPC/ssl/d1_both.cc:426-438` | Consuming keeps the ring invariant, also across the wrap of the 16-bit counter, where the ring is empty |
| `DtlsFragment.CompleteIsFrozen` | `ToDoo/Pods/BoringSSL-GRPC/ssl/d1_both.cc:393-396` | A completed message is not written again, whatever arrives |
| `DtlsReassembly.BitRangeBits` | `ToDoo/Pods/BoringSSL-GRPC/ssl/d1_both.cc:203-205` | `bit_range(start, end)` has exactly the bits from start up to end |
| `DtlsReassembly.CompleteIffAllMarked` | `ToDoo/Pods/BoringSSL-GRPC/ssl/d1_both.cc:238-247` | Comparing whole bytes and the last partial byte decides whether every position is marked |
| `DtlsReassembly.SetRange` | `ToDoo/Pods/BoringSSL-GRPC/ssl/d1_both.cc:226-236` | The three steps of marking set exactly the bits of [start, end), in place |
| `DtlsReassembly.Mark` | `ToDoo/Pods/BoringSSL-GRPC/ssl/d1_both.cc:211-251` | Marking adds exactly [start, end) to the positions received and reports completeness exactly when all are |
| `DtlsReassembly.HmFragment.constructor` | `ToDoo/Pods/BoringSSL-GRPC/ssl/d1_both.cc:152-199` | A fresh message has its header written as a single fragment and no position received; an empty one has no bitmask |
| `DtlsReassembly.HmFragment.Receive` | `ToDoo/Pods/BoringSSL-GRPC/ssl/d1_both.cc:399-402` | Copying a body and marking it adds its bytes at its positions; the bitmask is freed exactly when the message is complete |
| `DtlsReassembly.HmFragment.MaskTellsCompleteness` | `ToDoo/Pods/BoringSSL-GRPC/ssl/d1_both.cc:255-259` | The bitmask is gone if and only if every position was received, and then the buffer is the single-fragment serialisation |
| `DtlsReader.Reader.constructor` | `ToDoo/Pods/BoringSSL-GRPC/ssl/internal.h:2433-2475` | A fresh receiver: number 0, an empty ring, an empty window |
| `DtlsReader.Reader.GetIncomingMessage` | `ToDoo/Pods/BoringSSL-GRPC/ssl/d1_both.cc:265-295` | In place: null exactly for a number out of the window or a header that contradicts the slot; otherwise the slot of that number, made if need be |
| `DtlsReader.Reader.ProcessOne` | `ToDoo/Pods/BoringSSL-GRPC/ssl/d1_both.cc:352-403` | One turn of the fragment loop changes the ring as specified and nothing else |
| `DtlsReader.Reader.ProcessFragments` | `ToDoo/Pods/BoringSSL-GRPC/ssl/d1_both.cc:350-405` | The loop over a record |
| `DtlsReader.Reader.OpenNext` | `ToDoo/Pods/BoringSSL-GRPC/ssl/dtls_record.cc:177-272` | `dtls_open_record` in place: drop, fail or accept as specified, recording the number only after authentication |
| `DtlsReader.Reader.OpenHandshakeRecord` | `ToDoo/Pods/BoringSSL-GRPC/ssl/d1_both.cc:297-406` | `dtls1_open_handshake` in place, for all record types |
| `DtlsReader.Reader.IsCurrentMessageComplete` | `ToDoo/Pods/BoringSSL-GRPC/ssl/d1_both.cc:255-259` | The null test of the bitmask decides completeness of the current message |
| `DtlsReader.Reader.TryGetMessage` | `ToDoo/Pods/BoringSSL-GRPC/ssl/d1_both.cc:408-424` | The current message if complete, as raw single-fragment bytes, without consuming it |
| `DtlsReader.Reader.DropMessage` | `ToDoo/Pods/BoringSSL-GRPC/ssl/d1_both.cc:426-438` | The slot is freed and the 16-bit number advanced |
| `DtlsReader.Reader.HasUnprocessed` | `ToDoo/Pods/BoringSSL-GRPC/ssl/d1_both.cc:440-457` | True exactly if a ChangeCipherSpec is pending or a slot other than that of the message in hand is occupied |
| `DtlsReader.Reader.ChangeReadState` | `ToDoo/Pods/BoringSSL-GRPC/ssl/dtls_method.cc:81-95` | Refused with leftover data; otherwise the epoch grows by one and the window is emptied |
| `DtlsReader.Reader.OpenChangeCipherSpecRecord` | `ToDoo/Pods/BoringSSL-GRPC/ssl/d1_both.cc:475-490` | Opens a record unless a ChangeCipherSpec is pending, and consumes that flag |
| `DtlsReplay.DiscardIsExact` | `ToDoo/Pods/BoringSSL-GRPC/ssl/dtls_record.cc:138-150` | The window discards a number if and only if it was recorded or is 64 or more behind the maximum |
| `DtlsReplay.RecordRepresents` | `ToDoo/Pods/BoringSSL-GRPC/ssl/dtls_record.cc:152-175` | Recording a number adds it to the set the bitmap stands for, sliding the window if it is a new maximum |
| `DtlsReplay.ShiftMovesBits` | `ToDoo/Pods/BoringSSL-GRPC/ssl/dtls_record.cc:160-169` | Shifting the 64-bit word by n moves bit k - n to bit k and clears the bits below n |
| `DtlsReplay.OrAddsBit` | `ToDoo/Pods/BoringSSL-GRPC/ssl/dtls_record.cc:171-174` | Setting a bit of the word changes that bit only |
| `DtlsReplay.Bitmap.BitsMeanRecorded` | `ToDoo/Pods/BoringSSL-GRPC/ssl/dtls_record.cc:138-175` | Bit k of the word is set if and only if the number k below the maximum was recorded |
| `DtlsReplay.Bitmap.TestDiscard` | `ToDoo/Pods/BoringSSL-GRPC/ssl/dtls_record.cc:138-150` | The mask test on the word discards what the window discards |
| `DtlsReplay.Bitmap.Insert` | `ToDoo/Pods/BoringSSL-GRPC/ssl/dtls_record.cc:152-175` | Shift and mask on the word record the number in the window |
| `DtlsReplay.Bitmap.Reset` | `ToDoo/Pods/BoringSSL-GRPC/ssl/dtls_method.cc:81-95` | The window of a new epoch is empty |
| `DtlsRecord.ToU64` | `ToDoo/Pods/BoringSSL-GRPC/ssl/dtls_record.cc:128-136` | The loop reads the eight bytes as a big-endian number |
| `DtlsRecord.ParseInvertsRecord` | `ToDoo/Pods/BoringSSL-GRPC/ssl/dtls_record.cc:190-205` | Parsing a sealed record gives its fields and what follows in the datagram, unless the body is too long |
| `DtlsRecord.NoReplay` | `ToDoo/Pods/BoringSSL-GRPC/ssl/dtls_record.cc:225-259` | Over all runs of arbitrary packets and epoch changes, before the 16-bit epoch wraps, no (epoch, number) pair is accepted twice |
| `DtlsRecord.FreshIsAccepted` | `ToDoo/Pods/BoringSSL-GRPC/ssl/dtls_record.cc:177-272` | After any run, a parsed record is accepted if and only if version and epoch are right, it authenticates, it is not too long, it was not accepted before and is less than 64 behind the maximum |
| `DtlsRecord.FailsExactly` | `ToDoo/Pods/BoringSSL-GRPC/ssl/dtls_record.cc:177-272` | After any run: only a fresh record that authenticates and has more than 16384 bytes is fatal; any other that is not accepted is dropped without a trace, and with it all of the datagram if the header is malformed or of another version |
| `DtlsRecord.VersionsTaken` | `ToDoo/Pods/BoringSSL-GRPC/ssl/dtls_record.cc:205-221` | Without keys any version of DTLS, under keys the negotiated one |
| `PbRoundTrip.DecodeUndoesEncode` | `ToDoo/Pods/nanopb/pb_decode.c:1051-1063` | Round trip: for every well-formed descriptor tree and message of encoded size below 2^32, `pb_decode` of `pb_encode` succeeds, consumes all, and gives the message, absent fields and zero members at their defaults |
| `PbRoundTrip.FieldsRoundTrip` | `ToDoo/Pods/nanopb/pb_decode.c:919-997` | The loop merges what `pb_encode` wrote for the fields from i on into any structure with room for it, to the end, and sees every required one |
| `PbRoundTrip.ValueRoundTrip` | `ToDoo/Pods/nanopb/pb_decode.c:1289-1508` | Every decoder undoes its encoder, at every nesting depth, whatever follows; nested messages are merged into what is there |
| `PbRoundTrip.NumberRoundTrip` | `ToDoo/Pods/nanopb/pb_decode.c:1289-1372` | Signed, unsigned and zigzag numbers of every integer size |
| `PbRoundTrip.DataRoundTrip` | `ToDoo/Pods/nanopb/pb_decode.c:1391-1461` | Bytes, NUL-terminated strings and fixed-length bytes within their bounds |
| `PbRoundTrip.PackedRoundTrip` | `ToDoo/Pods/nanopb/pb_decode.c:419-448` | The packed loop appends the items one by one to what the array holds, and ends at the end of the substream |
| `PbRoundTrip.UnpackedRoundTrip` | `ToDoo/Pods/nanopb/pb_decode.c:449-459` | Items written one tag each are appended in order to what the array holds |
| `PbRoundTrip.FieldRoundTrip` | `ToDoo/Pods/nanopb/pb_encode.c:307-392` | One field of any rule: required, optional, singular, repeated or member of a union |
| `PbRoundTrip.MessageRoundTrip` | `ToDoo/Pods/nanopb/pb_decode.c:901-1049` | The same for `pb_decode_noinit` into any structure with room |
| `PbFidelity.FieldsSurvive` | `ToDoo/Pods/nanopb/pb_decode.c:1051-1063` | The round trip in terms of the two messages alone: presence, contents, numbers of items and members of unions survive at every depth; a proto3 field that is 0 or empty comes back as it is initialised |
| `PbFidelity.SingularSurvives` | `ToDoo/Pods/nanopb/pb_encode.c:284-302` | A proto3 field initialised to 0 or nothing survives with every value |
| `PbFidelity.TakesNoBytes` | `ToDoo/Pods/nanopb/pb_encode.c:215-303` | A field takes no bytes if and only if it is a proto3 number that is 0, data that is empty or a submessage whose fields all take none, an absent optional field, an empty array or an unset member |
| `PbFidelity.EncodesExactly` | `ToDoo/Pods/nanopb/pb_encode.c:494-516` | `pb_encode` fails exactly if data or an array that is written is too long for its field, at any depth |
| `PbPresence.DecodedPresence` | `ToDoo/Pods/nanopb/pb_decode.c:812-882` | After `pb_decode` of any input: an optional field has a value exactly if its tag occurred, a union has the member that occurred last, the first 64 required fields occurred, and what did not occur is empty or as the descriptor initialises it |
| `PbPresence.LoopFollows` | `ToDoo/Pods/nanopb/pb_decode.c:919-997` | The same for the loop, from any structure |
| `PbPresence.DecodesExactly` | `ToDoo/Pods/nanopb/pb_decode.c:1006-1049` | Decoding succeeds if and only if the loop does and the tags of the first 64 required fields occurred |
| `PbRepeats.EncodingsMerge` | `ToDoo/Pods/nanopb/pb_decode.c:901-1049` | Two encodings in a row decode to the second message merged into the first: scalars replaced, arrays appended, nested messages merged, members of a union displaced |
| `PbRepeats.OccurrencesMerge` | `ToDoo/Pods/nanopb/pb_decode.c:1463-1485` | For any contents: two occurrences of a submessage are one occurrence with the contents of both |
| `PbRepeats.ChunksAppend` | `ToDoo/Pods/nanopb/pb_decode.c:419-448` | For any contents: two chunks of packed items are one |
| `PbRepeats.NumbersComeUnpacked` | `ToDoo/Pods/nanopb/pb_decode.c:449-459` | A numeric array takes items one by one as well |
| `PbRepeats.FullArrayFails` | `ToDoo/Pods/nanopb/pb_decode.c:419-459` | A full array takes nothing more than an empty chunk |
| `PbRepeats.LastScalarWins` | `ToDoo/Pods/nanopb/pb_decode.c:401-418` | A scalar replaces whatever there was |
| `PbRepeats.UnionStartsAnew` | `ToDoo/Pods/nanopb/pb_decode.c:461-471` | A member of a union starts from its defaults, whatever the union held |
| `PbRepeats.ZeroTagStops` | `ToDoo/Pods/nanopb/pb_decode.c:293-314` | A zero tag ends a message, whatever follows |
| `PbRepeats.ZeroTagWithType` | `ToDoo/Pods/nanopb/pb_decode.c:933-962` | With a wire type it is skipped, but an error in a message without fields |
| `PbUnknown.OldReadersRead` | `ToDoo/Pods/nanopb/pb_decode.c:933-962` | A reader whose descriptor lacks any of the fields reads the message without them |
| `PbUnknown.ValueIsSkipped` | `ToDoo/Pods/nanopb/pb_decode.c:316-326` | Skipping by the wire type a value is written with takes exactly the value |
| `PbUnknown.FieldsAreUnknown` | `ToDoo/Pods/nanopb/pb_decode.c:316-326` | With a tag outside the descriptor, a varint, eight bytes, a length and as many bytes, and four bytes, under wire types 0, 1, 2 and 5, are whole unknown fields |
| `PbUnknown.WireTypes` | `ToDoo/Pods/nanopb/pb_encode.c:641-672` | The wire type of each kind |
| `PbUnknown.OtherTypesFail` | `ToDoo/Pods/nanopb/pb_decode.c:316-326` | Other wire types are errors |
| `PbExact.NumberIsExact` | `ToDoo/Pods/nanopb/pb_decode.c:1289-1372` | A number is read as n if and only if the varint stands for n (for signed fields of up to 32 bits, modulo 2^32) and n fits the field |
| `PbExact.NarrowIsRead` | `ToDoo/Pods/nanopb/pb_decode.c:1296-1305` | A negative number that was written in 32 bits is read back |
| `PbExact.DataIsExact` | `ToDoo/Pods/nanopb/pb_decode.c:1391-1508` | Data is taken if and only if it fits the field; a string ends at its first NUL, and empty fixed-length bytes are zeros |
| `PbExact.FixedDigits` | `ToDoo/Pods/nanopb/pb_encode.c:607-633` | Fixed-width numbers are little-endian |
| `PbExact.VarintDigits` | `ToDoo/Pods/nanopb/pb_encode.c:574-594` | A varint has groups of seven bits, lowest first, no more than needed, all but the last marked |
| `PbExact.ZigZagIs` | `ToDoo/Pods/nanopb/pb_encode.c:596-605` | Zigzag alternates between the signs |
| `PbInBounds.MessageInBounds` | `ToDoo/Pods/nanopb/pb_decode.c:901-1049` | Whatever the input, decoding into a well-formed structure keeps it well-formed: counts, lengths and number ranges stay within the bounds of the descriptor |
| `PbInBounds.DecodedReencodes` | `ToDoo/Pods/nanopb/pb_encode.c:494-516` | Whatever was decoded from any input encodes again, and decodes to the same message |
| `PbMerge.LoopMerges` | `ToDoo/Pods/nanopb/pb_decode.c:919-997` | Merge law: if a decodes to its end, decoding a ++ b is decoding b into the result of a |
| `PbMerge.MessagesMerge` | `ToDoo/Pods/nanopb/pb_decode.c:901-1049` | The same for `pb_decode_noinit`; the required fields are those seen in either part |
| `PbMerge.UnknownFieldsAreInvisible` | `ToDoo/Pods/nanopb/pb_decode.c:919-962` | Any number of fields with unknown non-zero tags, in whatever form the decoder reads and skips them, at any field boundaries, change nothing |
| `PbMerge.NoInitIgnoresUnknown` | `ToDoo/Pods/nanopb/pb_decode.c:901-1049` | The same for `pb_decode_noinit` with its required-field check |
| `PbMerge.FieldIsLocal` | `ToDoo/Pods/nanopb/pb_decode.c:401-475` | What a field decodes to does not depend on what follows it |
| `PbMerge.SkipIsLocal` | `ToDoo/Pods/nanopb/pb_decode.c:316-326` | Nor does what is skipped |
| `PbEncoder.EncodeToBuffer` | `ToDoo/Pods/nanopb/pb_encode.c:533-542` | Two passes agree: a message encodes into a buffer of capacity c if and only if `pb_get_encoded_size` succeeds with at most c, and then fills just that many bytes |
| `PbEncoder.GetEncodedSize` | `ToDoo/Pods/nanopb/pb_encode.c:533-542` | The sizing stream counts exactly the bytes of the encoding |
| `PbEncoder.EncodeSubmessage` | `ToDoo/Pods/nanopb/pb_encode.c:682-730` | Length and body of a nested message; "submsg size changed" is unreachable |
| `PbEncoder.EncodeWindow` | `ToDoo/Pods/nanopb/pb_encode.c:709-729` | The second pass, into a window of the announced size, cannot fail and fills it exactly |
| `PbEncoder.OStream.Write` | `ToDoo/Pods/nanopb/pb_encode.c:101-119` | `pb_write` in place: all or nothing, never beyond the limit, bytes before the position spared |
| `PbEncoder.OStream.Copy` | `ToDoo/Pods/nanopb/pb_encode.c:72-82` | `buf_write` appends at the position |
| `PbEncoder.EncodeVarint` | `ToDoo/Pods/nanopb/pb_encode.c:574-594` | Writes exactly the base-128 varint of the value |
| `PbEncoder.FillVarint` | `ToDoo/Pods/nanopb/pb_encode.c:576-591` | The loop fills at most ten bytes with the varint |
| `PbEncoder.EncodeItem` | `ToDoo/Pods/nanopb/pb_encode.c:734-868` | The entries of the encoder table |
| `PbEncoder.EncodeString` | `ToDoo/Pods/nanopb/pb_encode.c:674-680` | Length and bytes |
| `PbEncoder.EncodeTag` | `ToDoo/Pods/nanopb/pb_encode.c:635-639` | Tag and wire type as one varint |
| `PbEncoder.EncodeTaggedItem` | `ToDoo/Pods/nanopb/pb_encode.c:641-672` | The wire type of the kind, and the item |
| `PbEncoder.EncodeArrayField` | `ToDoo/Pods/nanopb/pb_encode.c:126-211` | `encode_array` writes the specified array, packed where the kind allows it, or nothing at all if there are too many items |
| `PbEncoder.PackedSize` | `ToDoo/Pods/nanopb/pb_encode.c:145-165` | The size of a packed array, computed or counted, is that of its items |
| `PbEncoder.FixedItems` | `ToDoo/Pods/nanopb/pb_encode.c:146-153` | For fixed-size kinds 4 or 8 times the count is that size |
| `PbEncoder.EncodePacked` | `ToDoo/Pods/nanopb/pb_encode.c:167-180` | Length and items; on a sizing stream only their number |
| `PbEncoder.CheckDefault` | `ToDoo/Pods/nanopb/pb_encode.c:215-303` | The recursive proto3 test is true exactly for a zero slot |
| `PbEncoder.EncodeField` | `ToDoo/Pods/nanopb/pb_encode.c:307-392` | `encode_basic_field` writes what the rule of the field asks for |
| `PbEncoder.PbEncode` | `ToDoo/Pods/nanopb/pb_encode.c:494-516` | `pb_encode` appends the encoding of the message if it exists and fits, and otherwise fails |
| `PbDecoder.IStream.Read` | `ToDoo/Pods/nanopb/pb_decode.c:100-132` | All or nothing, never beyond the end |
| `PbDecoder.IStream.ReadByte` | `ToDoo/Pods/nanopb/pb_decode.c:136-152` | One byte, if there is one |
| `PbDecoder.DecodeVarint` | `ToDoo/Pods/nanopb/pb_decode.c:250-270` | The loop reads what the specification of varints reads, modulo 2^64 |
| `PbDecoder.DecodeVarint32Eof` | `ToDoo/Pods/nanopb/pb_decode.c:182-242` | The loop, with its checks of the bytes above bit 32, reads what the specification reads; eof is set exactly at the end of the stream |
| `PbDecoder.DecodeVarint32` | `ToDoo/Pods/nanopb/pb_decode.c:244-247` | The same without eof |
| `PbDecoder.SkipVarintField` | `ToDoo/Pods/nanopb/pb_decode.c:273-282` | Skips up to the first byte without continuation bit |
| `PbDecoder.Skip` | `ToDoo/Pods/nanopb/pb_decode.c:316-326` | Skips one field by wire type, and rejects unknown wire types |
| `PbDecoder.MakeSubstream` | `ToDoo/Pods/nanopb/pb_decode.c:367-380` | The substream is exactly the prefixed bytes; the parent is short of them |
| `PbDecoder.CloseSubstream` | `ToDoo/Pods/nanopb/pb_decode.c:382-395` | The parent continues behind the substream |
| `PbDecoder.DecodeTag` | `ToDoo/Pods/nanopb/pb_decode.c:293-314` | Tag and wire type; the end of the stream and a zero end the message |
| `PbDecoder.DecodeItem` | `ToDoo/Pods/nanopb/pb_decode.c:1289-1508` | The entries of the decoder table |
| `PbDecoder.DecodeNumber` | `ToDoo/Pods/nanopb/pb_decode.c:1289-1372` | Numbers that do not fit the integer size are rejected |
| `PbDecoder.DecodeFixed` | `ToDoo/Pods/nanopb/pb_decode.c:1254-1286` | Little-endian fixed numbers |
| `PbDecoder.DecodeData` | `ToDoo/Pods/nanopb/pb_decode.c:1391-1461` | Bytes, strings and fixed-length bytes, within their bounds |
| `PbDecoder.DecodeSubmessage` | `ToDoo/Pods/nanopb/pb_decode.c:1463-1485` | A nested message is merged into the structure, or into fresh defaults for array entries |
| `PbDecoder.DecodePackedItems` | `ToDoo/Pods/nanopb/pb_decode.c:431-440` | The packed loop: stops at the end, at a malformed item or when the array is full |
| `PbDecoder.DecodePackedArray` | `ToDoo/Pods/nanopb/pb_decode.c:419-448` | A packed array that does not end with the substream is an error |
| `PbDecoder.DecodeStaticField` | `ToDoo/Pods/nanopb/pb_decode.c:401-475` | One field by its rule; setting a member of a union drops the others |
| `PbDecoder.DecodeFound` | `ToDoo/Pods/nanopb/pb_decode.c:933-996` | One turn behind the tag: find, mark as seen, decode; or skip |
| `PbDecoder.DecodeFields` | `ToDoo/Pods/nanopb/pb_decode.c:919-997` | The loop decodes what the specification decodes, for every input |
| `PbDecoder.DecodeMessage` | `ToDoo/Pods/nanopb/pb_decode.c:901-1049` | `pb_decode_noinit` succeeds exactly if the loop does and each of the first 64 required fields occurred |
| `PbDecoder.SetToDefaults` | `ToDoo/Pods/nanopb/pb_decode.c:812-895` | All slots at their defaults |
| `PbDecoder.PbDecode` | `ToDoo/Pods/nanopb/pb_decode.c:1051-1063` | Defaults, then decoding |
| `PbRequired.MarkField` | `ToDoo/Pods/nanopb/pb_decode.c:988-993` | The bitmap stays the set of required fields seen |
| `PbRequired.MarksMeanSeen` | `ToDoo/Pods/nanopb/pb_decode.c:1006-1046` | All bits below min(count, 64) are set if and only if each of the first 64 required fields was seen |
| `PbRequired.CountRequired` | `ToDoo/Pods/nanopb/pb_decode.c:1012-1022` | The number of required fields, from any position of the iterator |
| `PbRequired.AllSeen` | `ToDoo/Pods/nanopb/pb_decode.c:1029-1045` | The tests of whole words and of the remaining bits together mean: all bits below the count |
| `PbIter.FieldIter.Begin` | `ToDoo/Pods/nanopb/pb_common.c:8-18` | At the first field |
| `PbIter.FieldIter.Next` | `ToDoo/Pods/nanopb/pb_common.c:20-76` | One further, or back to the first at the end; the number of required fields passed is a function of the position |
| `PbIter.FieldIter.Find` | `ToDoo/Pods/nanopb/pb_common.c:78-95` | Succeeds from any position if and only if the tag exists, and otherwise comes back to where it was |
| `PbDecoding.FoundIsField` | `ToDoo/Pods/nanopb/pb_common.c:78-95` | With distinct tags the field found is the one of that tag |
| `PbWire.VarintRoundTrip` | `ToDoo/Pods/nanopb/pb_decode.c:250-270` | Reading a written varint gives every 64-bit value back |
| `PbWire.VarintFits` | `ToDoo/Pods/nanopb/pb_encode.c:574-594` | A 64-bit varint has at most ten bytes |
| `PbWire.ZigZagRoundTrip` | `ToDoo/Pods/nanopb/pb_encode.c:596-605` | Unzigzag undoes zigzag on every int64 |
| `PbWire.ZigZagOnto` | `ToDoo/Pods/nanopb/pb_decode.c:1240-1252` | and zigzag undoes unzigzag on every uint64 |
| `PbWire.FixedRoundTrip` | `ToDoo/Pods/nanopb/pb_decode.c:1254-1286` | Fixed numbers survive, at any length |
| `PbVarint32.Varint32Exact` | `ToDoo/Pods/nanopb/pb_decode.c:182-242` | For every 64-bit value, exactly what the 32-bit reader makes of its varint |
| `PbVarint32.Varint32Cases` | `ToDoo/Pods/nanopb/pb_decode.c:182-242` | Below 2^32 the value; from 2^64 - 2^31 on the value modulo 2^32; from 2^32 up to 2^63 an error |
| `TlsAgreement.NothingIsRejected` | `ToDoo/Pods/BoringSSL-GRPC/ssl/handshake_client.cc:1707-1789` | Two honest peers with the same negotiated flags: under every interleaving and any retries, neither ever rejects a message |
| `TlsAgreement.DoneMeansAgreed` | `ToDoo/Pods/BoringSSL-GRPC/ssl/handshake.cc:380-476` | When both are done they have the same transcript, each record of the script was sent once and in order, none is left over, and each Finished was checked against the transcript it was computed over |
| `TlsAgreement.OneFinished` | `ToDoo/Pods/BoringSSL-GRPC/ssl/handshake.cc:431-476` | The script has exactly one Finished of each side |
| `TlsAgreement.RunIsGood` | `ToDoo/Pods/BoringSSL-GRPC/ssl/handshake_server.cc:1539-1621` | Every run keeps the joint invariant of both machines, both queues and both transcripts |
| `TlsProgress.NoDeadlock` | `ToDoo/Pods/BoringSSL-GRPC/ssl/handshake.cc:491-628` | Whatever happened so far, unless both are done, some step of one of them brings them closer to the end |
| `TlsProgress.PeersFinish` | `ToDoo/Pods/BoringSSL-GRPC/ssl/handshake.cc:491-628` | So from any reachable state the peers can finish, in at most as many steps as the measure says, and then they agree |
| `TlsSafety.ClientDoneIsSafe` | `ToDoo/Pods/BoringSSL-GRPC/ssl/handshake_client.cc:871-889` | Against an arbitrary peer: a client that is done sent exactly one Finished, after the write-cipher change, and verified exactly one, in the epoch of the read-cipher change and against its transcript; in a full handshake with a certificate cipher `ssl_verify_peer_cert` had returned ok |
| `TlsSafety.ServerDoneIsSafe` | `ToDoo/Pods/BoringSSL-GRPC/ssl/handshake_server.cc:1439-1537` | The same for a server; and a client that sent a certificate had it verified and proved possession of the key |
| `TlsStory.ServerInsists` | `ToDoo/Pods/BoringSSL-GRPC/ssl/handshake_server.cc:1022-1027` | Against any peer: a server that insists on a client certificate is done, in a full handshake with a certificate cipher, only with a client whose certificate was verified and who proved to have the key |
| `TlsStory.ClientDoneStory` | `ToDoo/Pods/BoringSSL-GRPC/ssl/handshake_client.cc:1707-1789` | Against any peer: the transcript of a client that is done is a flow of section 7.3 of RFC 5246, with a CertificateStatus at most if it was announced and the messages that were negotiated |
| `TlsStory.ServerDoneStory` | `ToDoo/Pods/BoringSSL-GRPC/ssl/handshake_server.cc:1539-1621` | The same for a server: its configuration settles the flow, but for whether the client has a certificate |
| `TlsStory.KeyExchangeIsRead` | `ToDoo/Pods/BoringSSL-GRPC/ssl/handshake_client.cc:891-915` | With a certificate cipher a ServerKeyExchange was read if and only if the cipher is ECDHE |
| `TlsStory.OptionsMayBeMissing` | `ToDoo/Pods/BoringSSL-GRPC/ssl/handshake_client.cc:821-842` | An announced CertificateStatus and the hint of a PSK cipher may be missing, and what is at hand is left to the next state |
| `TlsDiscipline.ClientIsDisciplined` | `ToDoo/Pods/BoringSSL-GRPC/ssl/handshake_client.cc:1707-1789` | No step of the client reads, sends or changes anything when something opaque went wrong, waits for a message while one is at hand, loses anything by pausing, or takes a message without hashing it |
| `TlsDiscipline.ServerIsDisciplined` | `ToDoo/Pods/BoringSSL-GRPC/ssl/handshake_server.cc:1539-1621` | The same for the server |
| `TlsDiscipline.OpenIsStrict` | `ToDoo/Pods/BoringSSL-GRPC/ssl/handshake.cc:491-560` | A record is taken exactly in its epoch, and a ChangeCipherSpec exactly when one is awaited; anything else is fatal |
| `TlsDiscipline.VerifiedMeansOk` | `ToDoo/Pods/BoringSSL-GRPC/ssl/handshake_client.cc:871-889` | A client that holds the certificate for verified was told so by the verification, in its state |
| `TlsDiscipline.ProvedMeansOk` | `ToDoo/Pods/BoringSSL-GRPC/ssl/handshake_server.cc:1042-1056` | The same for a server, and the proof of possession is a CertificateVerify in which all was in order |
| `TlsSafety.EarlyReturnIsSafe` | `ToDoo/Pods/BoringSSL-GRPC/ssl/handshake_client.cc:1514-1564` | A client returns early for False Start exactly in a full handshake with an ECDHE cipher where the other conditions hold; against any peer, by then it has verified what the cipher asks for, flushed its Finished and read nothing under the new cipher |
| `TlsSafety.ClientStepKeepsOk` | `ToDoo/Pods/BoringSSL-GRPC/ssl/handshake_client.cc:1707-1789` | The history of a client is always the one its state stands for |
| `TlsSafety.ServerStepKeepsOk` | `ToDoo/Pods/BoringSSL-GRPC/ssl/handshake_server.cc:1539-1621` | The same for a server |
| `TlsClientScript.ClientKeepsToScript` | `ToDoo/Pods/BoringSSL-GRPC/ssl/handshake_client.cc:385-1705` | One turn of an honest client rejects nothing and reads or sends exactly what is next in the script |
| `TlsServerScript.ServerKeepsToScript` | `ToDoo/Pods/BoringSSL-GRPC/ssl/handshake_server.cc:426-1537` | The same for a server |
| `TlsPeers.StepKeepsInv` | `ToDoo/Pods/BoringSSL-GRPC/ssl/handshake.cc:491-628` | Both peers stay at the same place of the script but for what is between them, and that was sent by one of them only |
| `TlsClientEndpoint.LoopIsRun` | `ToDoo/Pods/BoringSSL-GRPC/ssl/handshake_client.cc:1707-1789` | The loop over the state functions is a run of the state machine, so what holds of all runs holds of it |
| `TlsClientEndpoint.Endpoint.DoneIsSafe` | `ToDoo/Pods/BoringSSL-GRPC/ssl/handshake_client.cc:1674-1705` | Whatever came from the peer and however the driver was called, a client object that is done sent one Finished after the write-cipher change, verified one after the read-cipher change against its transcript, and in a full handshake with a certificate cipher had the certificate verified |
| `TlsClientEndpoint.Endpoint.Run` | `ToDoo/Pods/BoringSSL-GRPC/ssl/handshake_client.cc:1707-1789` | `ssl_client_handshake`, in place: the object stays where the history of its state functions takes it |
| `TlsClientEndpoint.Endpoint.RunHandshake` | `ToDoo/Pods/BoringSSL-GRPC/ssl/handshake.cc:491-628` | One turn of the driver, in place: the wait resolved or the record taken, and the state functions run, join the history |
| `TlsServerEndpoint.LoopIsRun` | `ToDoo/Pods/BoringSSL-GRPC/ssl/handshake_server.cc:1539-1621` | The server loop is a run of its state machine |
| `TlsServerEndpoint.Endpoint.DoneIsSafe` | `ToDoo/Pods/BoringSSL-GRPC/ssl/handshake_server.cc:1511-1537` | The same for a server object; and a client certificate was verified with its proof of possession |
| `TlsServerEndpoint.Endpoint.DoneAsInsisted` | `ToDoo/Pods/BoringSSL-GRPC/ssl/handshake_server.cc:1022-1027` | The object, once done, did as it insists |
| `TlsServerEndpoint.Endpoint.Run` | `ToDoo/Pods/BoringSSL-GRPC/ssl/handshake_server.cc:1539-1621` | `ssl_server_handshake`, in place: the object stays where the history of its state functions takes it |
| `TlsServerEndpoint.Endpoint.RunHandshake` | `ToDoo/Pods/BoringSSL-GRPC/ssl/handshake.cc:491-628` | One turn of the driver, in place: the wait resolved or the record taken, and the state functions run, join the history |
| `TlsHandshake.Handshake.AddMessage` | `ToDoo/Pods/BoringSSL-GRPC/ssl/handshake.cc:176-184` | Queued under the current write cipher and hashed |
| `TlsHandshake.Handshake.HashMessage` | `ToDoo/Pods/BoringSSL-GRPC/ssl/handshake.cc:215-222` | The message in hand joins the transcript |
| `TlsHandshake.Handshake.Accept` | `ToDoo/Pods/BoringSSL-GRPC/ssl/handshake.cc:165-174` | A message of the right kind is hashed and consumed, any other is an error, none is a wait |
| `TlsHandshake.Handshake.GetFinished` | `ToDoo/Pods/BoringSSL-GRPC/ssl/handshake.cc:380-429` | The verify data must be that of the transcript before the Finished |
| `TlsHandshake.Handshake.PutFinished` | `ToDoo/Pods/BoringSSL-GRPC/ssl/handshake.cc:431-476` | Finished over the transcript so far, which it then joins |
| `TlsHandshake.Handshake.Resolve` | `ToDoo/Pods/BoringSSL-GRPC/ssl/handshake.cc:493-616` | Flushing sends all that is pending; other waits of the application end |
| `TlsHandshake.Handshake.OpenRecord` | `ToDoo/Pods/BoringSSL-GRPC/ssl/handshake.cc:508-541` | A record of another epoch or kind than awaited is an error |
| `TlsHandshake.Handshake.ChangeWrite` | `ToDoo/Pods/BoringSSL-GRPC/ssl/handshake_client.cc:1471-1474` | ChangeCipherSpec goes out under the old cipher, all that follows under the new one |
| `TlsHandshake.Handshake.ChangeRead` | `ToDoo/Pods/BoringSSL-GRPC/ssl/handshake_client.cc:1649-1656` | Only with no message left over |
| `TlsCipher.ChooseCipher` | `ToDoo/Pods/BoringSSL-GRPC/ssl/handshake_server.cc:357-424` | The result is acceptable and best: no acceptable cipher is in an earlier group, or earlier in the other list within the group. There is none exactly if every acceptable cipher is in a group the list never closes |
| `TlsCipher.ClosedListHidesNothing` | `ToDoo/Pods/BoringSSL-GRPC/ssl/internal.h:1860-1893` | With a clear last flag, or without flags, there is none exactly if no cipher is acceptable |
| `TlsCipher.OpenGroupHides` | `ToDoo/Pods/BoringSSL-GRPC/ssl/handshake_server.cc:357-424` | On any list that is one open group nothing is chosen, though every cipher of it be acceptable |
| `TlsPremaster.SelectPremaster` | `ToDoo/Pods/BoringSSL-GRPC/ssl/handshake_server.cc:1142-1178` | The output is the tail of the block if the block is 00 02, non-zero bytes, 00 and a tail that starts with the client version, and otherwise exactly the random bytes; a short block is an error |
| `TlsPremaster.CheckBlock` | `ToDoo/Pods/BoringSSL-GRPC/ssl/handshake_server.cc:1157-1171` | All checks combined give an all-ones mask exactly for a good block, and otherwise zero |
| `TlsPremaster.Msb` | `ToDoo/Pods/BoringSSL-GRPC/crypto/internal.h:242-246` | All ones exactly if the top bit is set |
| `TlsPremaster.IsZero` | `ToDoo/Pods/BoringSSL-GRPC/crypto/internal.h:302-316` | All ones exactly for zero |
| `TlsPremaster.Eq` | `ToDoo/Pods/BoringSSL-GRPC/crypto/internal.h:324-328` | All ones exactly for equal words |
| `TlsPremaster.IsZero8` | `ToDoo/Pods/BoringSSL-GRPC/crypto/internal.h:318-322` | The same for bytes |
| `TlsPremaster.Eq8` | `ToDoo/Pods/BoringSSL-GRPC/crypto/internal.h:330-346` | The same for bytes |
| `TlsPremaster.SelectWord` | `ToDoo/Pods/BoringSSL-GRPC/crypto/internal.h:348-355` | The first argument for an all-ones mask, the second for zero |
| `TlsPremaster.Select8` | `ToDoo/Pods/BoringSSL-GRPC/crypto/internal.h:357-362` | The same for bytes |
| `RefCount.CallsAreLinear` | `ToDoo/Pods/BoringSSL-GRPC/crypto/refcount_c11.c:37-65` | Linearisation: under every interleaving of any number of threads, with spurious failures, each completed call did to the count, with the same answer, what the locked counter does, in one step between its invocation and its return; no other step changed the count |
| `RefCount.NothingIsLost` | `ToDoo/Pods/BoringSSL-GRPC/crypto/refcount_c11.c:37-65` | Below saturation the count is the initial one plus increments minus decrements; once saturated it stays so |
| `RefCount.SaturatedForever` | `ToDoo/Pods/BoringSSL-GRPC/crypto/refcount_c11.c:41-58` | A saturated count never changes |
| `RefCount.AbortIsLinear` | `ToDoo/Pods/BoringSSL-GRPC/crypto/refcount_c11.c:53-55` | A decrement aborts only if the locked one would have, at an instant within the call |
| `RefCount.FailureIsProgress` | `ToDoo/Pods/BoringSSL-GRPC/crypto/refcount_c11.c:41-64` | A compare-and-swap fails other than spuriously only because some call completed meanwhile |
| `RefCount.LockedCount.Increment` | `ToDoo/Pods/BoringSSL-GRPC/crypto/refcount_lock.c:29-35` | The locked increment, which saturates |
| `RefCount.LockedCount.DecrementAndTestZero` | `ToDoo/Pods/BoringSSL-GRPC/crypto/refcount_lock.c:37-51` | The locked decrement: true exactly when it reaches zero, never for a saturated count, abort at zero |

## Left out

- Swift code of the app, cryptography (AEAD, hashes, RSA, signatures, key derivation, randomness), certificates, BIOs, callbacks, error queues and info callbacks: opaque functions, parameters or one failing outcome.
- Memory: allocation failures collapse into failure or do not occur; `DTLS_OUTGOING_MESSAGE` and queue entries are values.
- DTLS timers and MTU discovery: a retransmission may happen at any time, and every call of `send_flight` may use any MTU. `flight_has_reply`, alerts and the shutdown states only decide when such calls happen.
- Epoch wrap: key changes stop at the 16-bit epoch limit.
- Length limits of handshake messages: a parameter of the receiver, while `ssl_max_handshake_message_len` depends on the connection.
- DtlsReplay.Bitmap.Insert: the map is a 64-bit word, but a shift by n bits is n shifts by one, and the maximum is a number without a width.
- DtlsDelivery.FlightArrives: this is about the ring alone; network, record layer and window are in `DtlsArrival.FlightGetsThrough`.
- DtlsArrival.FlightGetsThrough: that the records that carry the message are fresh when they are opened is a condition on the run, as are plaintexts within the record limit.
- HelloVerifyRequest and the DTLS branches of the TLS state machines: the machines are composed over reliable ordered queues.
- TLS 1.3, SSL 3.0, renegotiation, handoff, early data and writes during False Start: the machines stop at `state_tls13`, and False Start is only an early return.
- TLS records: a record holds whole messages or a ChangeCipherSpec; splitting messages over records is the part of `s3_both.cc`, which is not part of this model.
- TlsHandshake.Handshake.GetFinished: MACs are symbolic, so a Finished matches exactly the transcript it was computed over; the copies kept for renegotiation are left out, and a failed check leaves the transcript as it was.
- TlsAgreement.NothingIsRejected: honest peers agree on the negotiated flags, as their hellos carry them whole; how extensions negotiate them is not modelled.
- TlsProgress.PeersFinish: the honest server always sends a CertificateStatus it announced, as `do_send_server_certificate` does; a client left without one is in `TlsStory.OptionsMayBeMissing`.
- TlsCipher.ChooseCipher: a client cipher list that does not parse is not part of it, and the test for version, key exchange and authentication is one predicate.
- TlsPremaster.CheckBlock: constant time is not modelled, only the result; `constant_time_lt` and `constant_time_ge` are not used there.
- nanopb without callbacks, extensions, pointer fields (`PB_ENABLE_MALLOC`) and fixed-count arrays: struct offsets and stale memory behind counts and terminators have no counterpart either.
- PbDecoder.DecodeSubmessage: nested structures are values that are written back as a whole; after a failure what was written before it is not described.
- PbEncoder.OStream.Write: sums of sizes are compared without wrapping, so an encoding beyond `size_t` is an error here where the C code would wrap around.
- pb_encode_delimited, pb_decode_delimited, the null-terminated variants and `pb_release`: wrappers and memory release.
- RefCount: the compare-and-swap and the load are single atomic steps in one total order, as `atomic_load` and `atomic_compare_exchange_weak` are by default.
- The rest of the two libraries: generated tables, CPU detection, threading shims, extensions, session caches.
