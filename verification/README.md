# A verified model of the SSM session library

The library opens an AWS Systems Manager session: it frames messages, delivers them reliably over a
websocket that may lose them, copies byte streams in and out, and multiplexes connections. This project
models those parts in Dafny and proves what they promise, over every input and every interleaving.
`dafny verify dfyconfig.toml` checks all of it.

| file | what it models |
|---|---|
| `Numbers.dfy`, `Names.dfy`, `Messages.dfy` | fixed-width integers, the padded message-type field, the message object and its frame |
| `Layout.dfy`, `Codec.dfy`, `Packets.dfy` | where each field stands, which frames are accepted, what the codec promises, and the part of a message the two loops look at |
| `SenderModel.dfy`, `Sender.dfy` | the sending loop: as a function of its events, and as the loop over the callers' message objects |
| `ReceiverModel.dfy`, `Receiver.dfy` | the receiving loop: as a function of arriving packets, and as the loop with its inner drain loop |
| `Protocol.dfy`, `ProtocolTheorems.dfy` | both ends and the link between them as one state machine, and what holds in every run |
| `Recovery.dfy`, `Window.dfy` | from which states everything can still be delivered, and runs that attain the joint window |
| `Handoff.dfy`, `CopyLoops.dfy`, `EndToEnd.dfy`, `Delivery.dfy`, `Endings.dfy` | the copy loops, their helper goroutines, and the byte stream from reader to writer |
| `Backpressure.dfy` | the two loops of one session and the bounded queues between them |
| `DialRendezvous.dfy` | who owns a multiplexed stream while `Dial` and the dial handler meet |
| `Version.dfy` | feature flags against agent versions |

## How the model is put together

*Sessions.* The sending loop and the receiving loop are classes whose fields are the variables of
`handleOutgoingMessages` and `handleIncomingMessages`, one method per select branch. Each method is proved
to have the effect of a function on the loop's state (`SenderModel`, `ReceiverModel`), and the theorems
about whole runs are about those functions. `Protocol` cuts the receiving loop into the steps between
which another goroutine can run; `StepsComputeAccept` and `StepsFollowRemaining` show that the steps
add up to the same function.

*The link.* `data` and `acks` hold what is under way. Anything in them may arrive any number of times, in
any order, or be lost at any moment; it is never altered. A failed socket write is a loss. An
acknowledgment is its number; the queues of acknowledgments on both sides are part of the link, so an
acknowledgment may also wait or be lost there.

*Assumptions.* The one-sided results assume nothing about the peer: the sender faces any acknowledgments,
the receiver any packets. The two-sided results assume:

- The far end runs the same two loops. In the repository this shows as a difference of names only: this
  side sends `input_stream_data` and its receiver handles `output_stream_data` (session.go:480). The
  model's packets carry no type name.
- Sequence numbers stay below 2^63 - 1.
- `int` has 64 bits, so that a uint32 length converts to it exactly.
- The clock does not run backwards.
- A message object in flight is not changed by its caller, and in the two-sided results not written again.
- A message that was itself read from a frame with a shorter header is not written; no constructor makes one.
- SHA-256 is any function to 32-byte digests.

*Where the code falls short of what one might expect,* the exact condition is proved:

- `UnmarshalBinary` adds the declared length in uint32. If header, length field and payload exceed that
  range, the payload slice has crossed bounds and the program fails at run time (`PanicsIffLengthWraps`).
- A message with a header of 112 bytes does not survive its own frame, because the writer always writes
  the payload type (`ShortHeaderRoundTripIff`).
- A date outside about 292 years of 1970 does not survive, because of the nanosecond product
  (`DateSurvivesIff`).
- `Stop` queues a terminate message that never gets a number and so carries number 0, and can take the place
  of the first message. The theorems over all runs name that one exception (`InOrderButForFirst`,
  `StreamButForFirst`). It is excluded exactly when the receiver has number 0 or has ended, or number 0 is
  that packet itself, at the moment the frame is written (`Protocol.Harmless`, `TerminateHarmlessIff`),
  which an acknowledged number 0 tells the sender (`AcknowledgedIsHarmless`).
- `Write` takes messages that can never arrive as stream data: a literal without a header length, another
  type name, a zero schema version or date, a payload too long for the frame. They are numbered and put in
  flight like any other, and after a minute the session gives up. Which messages these are is exact
  (`Packets.Carried`, `ArrivesIffCarried`), and every result on what can still arrive names them.
- A message object that is handed to `Write` again while it is in flight is given the new number too, so its
  older entry no longer holds what was sent; that is the only way to lose it (`HandleMessage`).
- The receiver acknowledges a packet before it delivers it. Once it has ended, a packet the sender has
  forgotten is never delivered exactly when the receiver was still keeping it or had it in hand
  (`ForgottenIsLostIff`), which are at most 51 packets (`FewAreLost`). For the same reason the two counters
  can be 61 apart, not 60, while the expected packet waits for the delivery channel (`JointWindow`,
  `JointWindowIsReached`).
- The two loops never hold each other up, but a local reader that stalls does hold up the acknowledgments of
  the other direction, and after a minute ends it (`GoesOnIff`, `StallEndsSender`).
- A sender that is only woken late may have no moment left at which it would resend a packet before its
  minute is over (`RecoverableIff`, `LateLossIsReached`).
- `Dial` gets its answer exactly when its helper goroutine has reached its select by the time the handler
  answers; a late helper leaves the call waiting for a context to end (`AnswerArrivesIff`), although the
  comment at handler/muxPortForward.go:227-230 says that the early start ensures it. A helper can
  still end exactly when its caller has not given up and is not still asking after the handler has stopped
  (`HelperCanEndIff`).

## Model

| member | source | states |
|---|---|---|
| EndToEnd.StreamButForFirst | handler/misc.go:32-119 | in every run of reader, copy loops, sessions, link and writer, whatever other messages are interleaved and whenever `Stop` is called, the bytes offered to the writer are a prefix of those the reader returned, but for the first message if `Stop`'s packet was delivered in its place; data that came with a reader error is written too |
| EndToEnd.StreamIsPrefix | handler/misc.go:32-119 | nothing is missing in a run in which `Stop`'s packet is written only where `Protocol.Harmless` holds |
| Delivery.WholeStreamCanArrive | handler/misc.go:32-119 | from every run in which both sessions run, wherever they are, what is in flight can be recovered, what is queued can arrive and the writer has not failed, a continuation offers the writer every byte written, and, unless the inward loop has ended, every byte the reader returned; the first message is excepted as above |
| Endings.ReaderErrorIsFinal | handler/misc.go:89-118 | in no continuation is a reader that has failed called again, or counts any byte as returned |
| Endings.WriterErrorIsFinal | handler/misc.go:47-71 | in no continuation is a writer that has failed offered anything |
| Endings.FailedWriteEndsLoop | handler/misc.go:63-70 | the outward loop ends on a verdict exactly when the write failed |
| ProtocolTheorems.InOrderButForFirst | session.go:305-316 | in every run over a lossy, repeating, reordering link, whenever `Stop` is called, the delivered packets are the first bodies accepted by `Write`, in order, each once, the k-th as number k; only the first place can be taken by `Stop`'s packet |
| ProtocolTheorems.ExactlyOnceInOrder | session.go:376-398 | without that exception in every run in which `Stop`'s packet is written only where `Protocol.Harmless` holds |
| ProtocolTheorems.FlagsDelivered | session.go:379-386 | in every run a delivered packet has the flags it was written with, but number 0 is a Syn unless it was written as a Fin, or is `Stop`'s packet |
| ProtocolTheorems.QueuesAreBounded | session.go:101-104 | in every run at most 20 messages wait to be sent and at most 20 to be read |
| Recovery.QueueFills | session.go:102 | 20 messages are taken before any is sent |
| ProtocolTheorems.ForgottenIsCovered | session.go:358-365 | in every run a number the sender has dropped from its map has been delivered, is kept by the receiver, or is in its hand |
| ProtocolTheorems.ExpectedIsStillHeld | session.go:483-496 | the number the receiver waits for is still with the sender, and is delivered on arrival even if the reorder map is full |
| ProtocolTheorems.JointWindow | session.go:35-36 | in every run the sender's and the receiver's counters are at most 60 apart at every loop head, 61 while the expected packet is in hand |
| Window.JointWindowIsReached | session.go:345-346 | both bounds are attained by runs from the start |
| ProtocolTheorems.ForgottenIsLostIff | session.go:483-514 | in every run, once the receiving session has ended, a number the sender has forgotten is delivered in no continuation exactly when the receiver keeps it or has it in hand |
| ProtocolTheorems.FewAreLost | session.go:489-514 | at most 50 packets, and the one in hand, are lost that way |
| ProtocolTheorems.AcknowledgedButNeverDelivered | session.go:483-514 | a run in which that happens |
| ProtocolTheorems.TerminateHarmlessIff | session.go:244-255 | wherever the two loops are, `Stop`'s unnumbered terminate frame leaves in-order delivery intact in every continuation exactly when the receiver has number 0 or has ended, or number 0 is that packet |
| Protocol.AcknowledgedIsHarmless | session.go:358-365 | the sender can tell: once number 0 has been acknowledged the terminate frame is harmless |
| Recovery.RecoverableIff | session.go:407-427 | wherever the two loops are, all numbers sent can still be delivered and acknowledged without `Stop` exactly when for each packet in flight a frame or an acknowledgment is under way, the receiver keeps it and has yet to acknowledge it again, or it can arrive and can be resent within its minute |
| Recovery.LateLossIsReached | session.go:412-427 | there is a run into a state in which that fails, with both sessions running |
| Recovery.RecoverableAfterTotalLossIff | session.go:412-427 | the same after everything under way is lost: only resending and what the receiver keeps count |
| Recovery.EverythingCanArriveIff | session.go:340-428 | everything written, queued bodies included, can still be sent and acknowledged exactly when besides each queued body can arrive, or its number is taken by `Stop`'s packet |
| Recovery.EverythingCanArrive | session.go:340-428 | what is then delivered are the bodies written, unless `Stop`'s packet has the first place |
| Recovery.ReachableIsLive | session.go:340-428 | every reachable state with both loops running, a receiver blocked on the delivery channel included, is one the recovery results speak about |
| SenderModel.TransmissionBound | session.go:38-39 | whatever acknowledgments and timers do, no number is handed to `writeMessage` more than 60 times, and at most 10 are in flight |
| SenderModel.TransmissionBoundIsReached | session.go:407-428 | there is a run in which a packet is sent 60 times |
| SenderModel.PassLeavesNothingIdle | session.go:409-428 | a resend pass that does not give up leaves nothing idle, keeps keys, packets and first-send times, and a second pass changes nothing |
| SenderModel.TickMeans | session.go:407-428 | a pass ends the loop exactly when a packet was first sent more than 60 s ago; otherwise each packet last written more than 1 s ago is written once more and has its last time moved, and no other is touched |
| SenderModel.StaysUntilAcknowledged | session.go:358-383 | in every run a pulled packet stays in flight under its number, with the time of its first send, until it is acknowledged |
| SenderModel.PullsAreThrottled | session.go:341-355 | between two messages that are pulled the throttle timer has fired |
| Sender.OutgoingLoop.HandleTick | session.go:407-428 | in any iteration order the pass gives up exactly when an entry is over a minute old, otherwise writes each idle entry once; the socket has been handed exactly the first frames of the numbers in `order`, one after the other |
| Sender.PassIsTick | session.go:407-428 | each pass of the loop is a step of the machine that the transmission bound is about, counting the numbers whose frames were handed to the socket |
| Sender.SameNumberSameFrame | session.go:421-426 | on the socket of a loop, whose every method keeps `Traces`, every frame of a number is byte for byte its first one |
| Sender.OutgoingLoop.HandleMessage | session.go:376-402 | a pulled message gets the next number, flag 1 if it is number 0 and not a Fin, and digest and length of its payload, in the object of its caller and nothing else there, is written once, and is kept by reference; the objects in flight still are what was first sent exactly when this one was not among them |
| Sender.OutgoingLoop.HandleAck | session.go:358-365 | an acknowledgment removes its number if it is in flight and changes nothing otherwise |
| Sender.OutgoingLoop.WriteMessage | session.go:547-560 | writing stores digest and length in the object, and writing again would give the same frame |
| Receiver.IncomingLoop.HandleOutput | session.go:480-535 | one data frame has the effect of `Accept`; a cancelled call has delivered a prefix, and has called `sendAcknowledgeMessage` for exactly one packet more than it delivered |
| Receiver.IncomingLoop.DrainBuffer | session.go:517-534 | the inner loop delivers, removes and calls `sendAcknowledgeMessage` for exactly what `Drain` says, or a prefix of it when cancelled |
| ReceiverModel.DrainTakes | session.go:517-534 | draining takes the unbroken run from the expected number on, stops at the first gap and keeps the rest |
| ReceiverModel.AcceptExpected | session.go:506-535 | the arrival of the expected number moves the receiver to the next gap and keeps exactly what lies beyond it |
| ReceiverModel.AcceptDelivers | session.go:506-535 | what is then delivered is numbered without gaps from the expected number, and is the arrival or a kept packet |
| ReceiverModel.AcceptAcks | session.go:483-519 | every packet delivered on an arrival is acknowledged then, in order |
| ReceiverModel.DeliversInOrder | session.go:482-535 | against any arrivals, delivered packets are numbered 0, 1, 2, ... and each has arrived |
| ReceiverModel.StateIsLeastGap | session.go:482-535 | with nothing dropped, the expected number is the least that has not arrived and the map holds exactly the arrived ones above it |
| ReceiverModel.Confluence | session.go:482-535 | arrivals in any order with any repetition leave the same state and delivery |
| ReceiverModel.TwoLoopsAgree | session.go:502-535 | over any arrivals the two paths have the same state and delivery at every loop head as the single map proposed in the comment of the source |
| ReceiverModel.StepsComputeAccept | session.go:482-535 | the interruptible steps of the loop have together the effect of `Accept`, acknowledgments included |
| Layout.WrittenLayout | messages/message.go:256-302 | byte by byte, the frame of any message that marshals: the padded type, the milliseconds and the number modulo 2^64, the halves of the identifier exchanged, the digest, payload type, length and payload |
| Layout.WrittenIff | messages/message.go:158-196 | which messages marshal: the two publication types, and those with header length, schema version, type, date and payload length in order |
| Layout.AcceptedIff | messages/message.go:200-252 | which byte strings are accepted, for header lengths 112 to 116: those that hold what they declare within a uint32 and, but for the two publication types, have schema version, type and digest in order |
| Layout.ObjectRead | messages/message.go:206-249 | what the object holds after an attempt to read a frame whose fixed part is there, whatever its outcome, field by field with the halves of the identifier exchanged |
| Layout.ShortIsLeftAlone | messages/message.go:200-218 | any other byte string is rejected and changes at most the header length |
| Layout.BytesOfWord | messages/message.go:266-296 | four-byte fields have their most significant byte first |
| Layout.BytesOfDoubleWord | messages/message.go:275-282 | so do eight-byte fields |
| Codec.RoundTripIff | messages/message.go:200-302 | a marshalled message comes back with every field, its date rounded down to the millisecond, exactly when its name, date and length can be carried |
| Codec.ShortHeaderRoundTripIff | messages/message.go:228-249 | a message with a shorter header comes back only with payload type 0 and no payload |
| Codec.FrameRoundTripIff | messages/message.go:200-302 | an accepted standard frame is reproduced byte for byte exactly when its type field is a canonical name and spaces, its date is in range, nothing follows the payload and the digest is the digest of the payload |
| Names.FieldSurvivesIff | messages/message.go:317-345 | a type field is written back as it was read exactly when it is a canonical name followed by spaces |
| Codec.PanicsIffLengthWraps | messages/message.go:236-249 | slicing fails exactly when the declared end exceeds uint32 |
| Codec.CrossingPanics | messages/message.go:244-249 | a frame of 120 bytes for which it does |
| Codec.AcceptedPayloadIsDeclared | messages/message.go:236-251 | acceptance means the payload is exactly the declared slice |
| Codec.DateSurvivesIff | messages/message.go:347-351 | a date survives, rounded down, exactly when its milliseconds lie within 9223372036854 of the epoch |
| Names.SurvivesIffCanonical | messages/message.go:317-345 | a type name comes back from its field exactly when it is canonical |
| Names.ParsedName | messages/message.go:342-345 | a type field is white space, the name read from it, white space, and NULs, as many as there are; the name has no outer white space |
| Names.SpaceIsPoint | messages/message.go:344 | what is trimmed in front is the UTF-8 encoding of a white-space code point |
| Names.PointIsSpace | messages/message.go:344 | and the encoding of every such code point is |
| Names.EndIsSpace | messages/message.go:344 | what is trimmed at the end is white space of the same length |
| Names.SpaceIsEnd | messages/message.go:344 | and every white space at the end is |
| Names.EitherPaddingParses | messages/message.go:342-345 | a canonical name parses back from its NUL-padded field too exactly when it is empty or does not end in NUL |
| Messages.AgentMessage.UnmarshalBinary | messages/message.go:200-252 | the method does to the object, on every path, what the function does that `Layout.AcceptedIff` and `Layout.ObjectRead` are about |
| Messages.AgentMessage.MarshalBinary | messages/message.go:256-302 | stores digest and length in the object, and returns the frame that `Layout.WrittenLayout` describes, or the validation error |
| Packets.ArrivesIffCarried | messages/message.go:158-302 | a message that is written and read comes out as stream data with the same number, flags, payload type and payload exactly when its header, schema version, date, type name and length are in order |
| Packets.TerminateMessage | messages/message.go:81-91 | the packet that `Stop` queues is that of the message its constructor makes |
| Packets.StreamMessage | messages/message.go:56-63 | the same for the messages of a copy loop, which are carried |
| CopyLoops.CopyReaderToSessionWriter | handler/misc.go:74-119 | each round reads into a buffer of its own, so at the end every queued payload still holds what was read for it, even if a Read outlasts the loop |
| CopyLoops.NothingLostOnReadError | handler/misc.go:107-117 | the payloads queued are a prefix of the bytes returned, and all of them when the reader's error ends the loop |
| CopyLoops.EndingMeans | handler/misc.go:107-117 | which error ends the loop, and how many payloads it has queued by then |
| CopyLoops.CopySessionReaderToWriter | handler/misc.go:47-71 | the bytes offered are those of the Output payloads taken, and the loop ends at the first failing write |
| Handoff.AtMostOneOutstanding | handler/misc.go:33-45 | at most one request or result is outstanding, a helper with a result never blocks, and a waiting loop waits for something on its way |
| Handoff.HelperWindsDown | handler/misc.go:75-87 | once the loop has returned the helper can always move on, except inside its current `Read` or `Write` |
| Handoff.HelperEnds | handler/misc.go:75-87 | after the loop returns at most three more moves happen, the last of which ends the helper |
| Backpressure.GoesOnIff | session.go:101-104 | as long as the sending loop runs, the receiving loop comes to its next frame without the local reader exactly when its deliveries fit into the delivery queue |
| Backpressure.AcknowledgmentComesThrough | session.go:358-365 | an acknowledgment that has been read reaches its packet, unless the receiving loop is blocked on the local reader |
| Backpressure.StallEndsSender | session.go:507-513 | while it is blocked there, a packet whose acknowledgment has not come past it stays in flight, and a resend pass after its minute ends the session |
| DialRendezvous.EachStreamHasOneOwner | handler/muxPortForward.go:194-258 | in every interleaving each opened stream is in exactly one place, and between exchanges it was returned by one `Dial` or closed by the handler |
| DialRendezvous.OwnerIsFinal | handler/muxPortForward.go:194-258 | a stream returned or closed stays so |
| DialRendezvous.AnswerArrivesIff | handler/muxPortForward.go:202-210 | a call whose contexts do not end gets its answer exactly when its helper is in its select when the handler answers |
| DialRendezvous.OpeningIsAnswered | handler/muxPortForward.go:201-203 | while a stream is being opened for a call whose helper listens and whose contexts last: if that fails the call can return the failure and nothing else, and if it succeeds that stream and nothing else |
| DialRendezvous.OnlyAnEndMakesItGiveUp | handler/muxPortForward.go:245-251 | a call does not give up while its contexts last |
| DialRendezvous.EitherEndLetsItGiveUp | handler/muxPortForward.go:245-249 | the end of either context lets it, while its request has not been taken |
| DialRendezvous.StopsOnlyAtTheEnd | handler/muxPortForward.go:195-198 | the handler stops only after its context has ended |
| DialRendezvous.LateHelperIsReached | handler/muxPortForward.go:224-258 | a run in which the helper is late: the stream is closed and the call keeps waiting |
| DialRendezvous.DialEndsWithItsContext | handler/muxPortForward.go:233-257 | once a context has ended a waiting call, and its helper, can end whatever else goes on |
| DialRendezvous.HelperCanEndIff | handler/muxPortForward.go:233-251 | some continuation ends a helper exactly when its caller has not given up and is not still asking after the handler has stopped |
| DialRendezvous.DoomedStays | handler/muxPortForward.go:233-251 | the others never end and never hold a stream |
| Version.SupportsVersion | version/version.go:12-48 | true exactly when the counts agree and the agent is equal throughout, or newer at the first component that differs |
| Version.AtoiIff | version/version.go:27-35 | a component is a number exactly when it is not empty, a lone sign, with a character that is no digit behind an optional sign, or beyond 64 bits, and then has that value |
| Version.AtoiItoa | version/version.go:27-35 | a number that is written out reads back as itself |
| Version.LeadingZero | version/version.go:27-35 | zeros in front do not change it |
| Version.MalformedIsRefused | version/version.go:27-35 | a malformed component on either side, with nothing before it that decides, refuses the agent |
| Version.CountsMustAgree | version/version.go:18-20 | versions with different numbers of components are not comparable |
| Version.FirstDifferenceDecides | version/version.go:37-43 | the first component that differs decides, whatever stands behind it |
| Version.SupportIsLexicographic | version/version.go:22-47 | on numeric versions it is the lexicographic order |
| Version.LexIsTotalOrder | version/version.go:22-47 | that order is total, antisymmetric and transitive |
| Version.JoinSplit | version/version.go:13-14 | splitting loses nothing and leaves no full stop in a component |
| Version.MonotoneIff | version/version.go:12-48 | a lower flag is supported by every agent string, malformed ones included, that supports a higher one, and only the order makes it so |
| Version.KeepAliveImpliesMux | handler/muxPortForward.go:27-28 | every agent that supports keep-alives supports multiplexing |

## Left out

- Websocket dialling, close codes and `openDataChannel` (session.go:216-235, 562-572): network I/O; the socket is the link.
- JSON encoding and decoding of acknowledgments, sizes and handshakes (messages/message.go:65-79, 104-155): library code; an acknowledgment carries its number exactly.
- `errgroup`, `sync.Once`, `Start`, `Stop` and `Wait` of a session: a loop is running or has ended; only the terminate frame that `Stop` queues is modelled.
- The handshake (handler/handshake.go) reads from the session before the copy loops start; the stream theorem is about sessions that only the outward copy loop reads.
- Terminal polling and standard streams (handler/stream.go, handler/termsize.go): they only add other messages, which the stream theorem allows.
- smux and `net.Pipe`: `OpenStream` gives a new stream or an error; closing the whole smux session when its context ends is not modelled.
- SHA-256 and UUID generation, logging, error texts, `String`, `NopHandler`, `DiscardHandler`.
- Unknown message types, pause and start of publication, and the close of the channel in the receiving loop: no effect on delivery, or the end of the loop.
- The select loops themselves: which branch is taken when is the free choice of the state machines.
- Slices that alias the receive buffer: `UnmarshalBinary` keeps values of its input's ranges, since each frame is read into a new buffer.
- Receiver.IncomingLoop.HandleOutput: keeps packets as values, where the source keeps references to messages that nothing changes afterwards.
- Receiver.IncomingLoop.HandleOutput: says which acknowledgments are asked for, not which are queued, because `sendAcknowledgeMessage` gives up when the context ends (session.go:588-593).
- Receiver.IncomingLoop.DrainBuffer: the same.
- Sender.OutgoingLoop.HandleMessage: requires that numbers have not run out of the int64 range.
- CopyLoops.CopyReaderToSessionWriter: the interleavings with its helper goroutine are left to `Handoff` and `EndToEnd`; here each read is a call.
- CopyLoops.CopySessionReaderToWriter: its helper goroutine and its context are left to `Handoff` and `EndToEnd`; here each write is a step of the loop.
