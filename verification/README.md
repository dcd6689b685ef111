# Verified model of the modem stack

This project models four pieces of Zephyr's modem stack in Dafny and proves what they promise.

- **CMUX** (`subsys/modem/modem_cmux.c`), the basic option of 3GPP TS 27.010: frame encoder, bounded transmit ring,
  octet decoder with resynchronisation, dispatch to channels, and the connection, channel and flow control state.
- **PPP** (`subsys/modem/modem_ppp.c`), HDLC-like framing after RFC 1662: the pull encoder that fills a small ring, the
  packet slots, the receiver, and the send work.
- **Chat** (`subsys/modem/modem_chat.c`): the in-place line parser and the script runner it drives.
- **UART backends** (`subsys/modem/backends/modem_backend_uart_isr.c`, `modem_backend_uart_async.c`): two swapped
  receive rings shared by an interrupt and a thread.

## How the model is built

Each piece has two layers. The lower one follows the source's form: classes whose fields and arrays are those of the
source's structures, with methods that update them in place (`ModemCmux`, `ModemPpp`, `ModemChat`, `UartBackend`, and
`RingBuf` for the kernel's byte ring). Every such method is proved to take the abstract state its fields stand for to
the state that a step function gives. The upper layer is those step functions on values, and over them the statements
about whole runs: every interleaving of calls, work items, timers, received octets and short or failing writes.

| Files | Content |
|---|---|
| `Errno.dfy`, `Sequences.dfy` | error numbers, facts about sequences |
| `Crc.dfy` | CRC-8 and FCS-16 bit by bit, error detection, good residue |
| `RingBuf.dfy` | the circular byte array with contiguous claims |
| `CmuxFrame.dfy`, `CmuxReceive.dfy`, `CmuxDecoder.dfy` | encoder, decoder, round trips, damage, resynchronisation, soundness |
| `CmuxLink.dfy`, `CmuxRuns.dfy`, `CmuxChannels.dfy` | handlers, run invariants, what reaches a channel |
| `CmuxWire.dfy`, `CmuxCommands.dfy` | frames octet by octet on the wire; requests, commands, flow control and results of calls |
| `CmuxEnds.dfy`, `CmuxBus.dfy`, `CmuxCalls.dfy` | the life of one end, fidelity from one end to another, from conditions on the calls alone |
| `CmuxDuplex.dfy`, `CmuxResync.dfy`, `CmuxStart.dfy` | both directions at once, what a resynchronisation costs, starts reached from initialisation |
| `ModemCmux.dfy` | the multiplexer over its buffers and objects |
| `PppFrame.dfy`, `PppWrap.dfy`, `PppReceive.dfy`, `PppDecoder.dfy`, `PppTransmit.dfy`, `PppLink.dfy` | framing, both state machines, what the receiver delivers of any octets, sender runs, end to end |
| `ModemPpp.dfy` | the PPP module over slots, ring and fields |
| `ChatParse.dfy`, `ChatLine.dfy`, `ChatLimits.dfy` | parser steps, one-line specification, their equality, exact limits of the buffers |
| `ChatScript.dfy`, `ChatSystem.dfy`, `ChatHazards.dfy` | script runner, parser and runner together, runs that reach the hazards |
| `ChatDialogue.dfy`, `ChatResults.dfy` | a whole script, from its call to its result; which result a callback is given |
| `ModemChat.dfy` | the chat module over its buffers and fields |
| `UartReceive.dfy`, `UartBackend.dfy` | the receive call split where the interrupt can run, and the rings |

Work items and timers are booleans for "pending", and each handler is one atomic step, except in the UART receive call,
whose steps interleave with the interrupt. A pipe takes any number of the octets offered, or none. An octet is `bv8`.
The codes, addresses, constants and check sequences of the wire, and the results of calls, are stated as literal values
in the statements named `...Octets`, `...Residue`, `...Result` and `...Exact`, so that encoder and decoder cannot agree
on others. Histories (octets accepted, delivered, drained; frames queued; results reported) are kept in the abstract
states only.

## What the proofs show about the code

- **Lengths of CMUX frames.** The second length octet is or-ed with 0x01 (`modem_cmux.c:178`), so a frame of 128 to
  255 octets arrives, one of 256 to 383 does not, and so on alternately. `FrameRoundTripExact` gives the exact
  condition, and channel fidelity asks it of the frames sent; chunks of at most 255 octets always meet it
  (`ShortChunksAreFaithful`).
- **Resynchronisation.** The three flags that ask the peer to resynchronise are written past the transmit ring
  (`modem_cmux.c:543-553`) into the stream of frames. Channel fidelity holds for runs in which the sending end's decoder
  asked for none; `ResynchronisationBreaksFidelity` shows that one octet received between frames costs the other
  direction the next frame exactly when it is not a flag. Two ends that hear only each other never ask for any
  (`NeitherResynchronises`), so between them both directions are faithful without that condition.
- **Receive overrun.** A frame longer than the receive buffer goes to the end-of-frame state without a check of its
  FCS (`modem_cmux.c:680-688`), and what was stored is dispatched with the length declared. Which frames these are can
  be read off the header: `Soundness`, `OverrunDispatched` and `OverrunExact`. `Payload` takes the octets that are both
  stored and declared; reading beyond the buffer is undefined in C.
- **FCS of frames other than UIH.** The pointer to the data is first set when a frame is dispatched
  (`modem_cmux.c:739`), so a frame with data that is not UIH and comes before any other is checked over a null pointer.
  The decoder has a state `Fault` for that; `FrameDispatchedExact` and `FaultReached` say when it is reached.
- **DLCI 62.** Its address octet with C/R 0 is the flag itself, so a decoder that is resynchronising cannot begin with
  such a frame, and can begin with every other (`FlagAddress`, `ResynchronisedExact`).
- **Command room.** Two command frames are said to be reserved (`modem_cmux.c:250-256`), but only admission of data is
  gated: an admitted data frame may use all the room there is (`CommandRoomExact`, `CommandAfterDataExact`).
- **PPP receiver.** It never checks the FCS it removes (`UncheckedDelivery`, `DamagedFrameDelivered`), and a flag behind
  an escape octet is taken as data (`EscapedFlagIsData`).
- **Chat buffers.** `include/zephyr/modem/chat.h:278` asks for longest line plus longest match; the line's own match,
  its terminator and the delimiter must fit beside the line (`MatchedLineExact`, `DocumentedSizeFails`). A catch-all
  needs two argument pointers while initialisation asks for one (`CatchAllExact`). When the argument array is full the
  next octet resets the parser, so a line needs a pointer more than its pieces (`ArgumentArrayExact`).
- **Chat hazards.** A timeout between a match and the end of its line makes the runner use a null script, and a send
  work that outlives its request makes it send beyond the next, shorter one. Both are reached from initialisation
  (`ChatHazards.dfy`), and `FaultExact` says exactly which steps fault.

## Model

| member | source | states |
|---|---|---|
| `CmuxBus.ChannelFidelity` | `subsys/modem/modem_cmux.c:139-268` | from every start between frames of two ends that have lived for any time since initialisation, for any interleaving of calls and timers at both ends, octets heard by the sending end, partial drains of the transmit ring and chunks of the bus, in which the sending end's decoder asks for no resynchronisation: what a channel delivered since (read or still in its ring) is a prefix of what its transmit calls accepted at the other end since, and all of it once ring and bus are empty |
| `CmuxCalls.ShortChunksAreFaithful` | `subsys/modem/modem_cmux.c:877-892` | the same for every run whose transmit calls carry at most 255 octets and no more than the peer's receive buffer holds |
| `CmuxCalls.OpenChannelIsFaithful` | `subsys/modem/modem_cmux.c:478-495` | the same from conditions on the run alone: the receiving channel is open at the start, its open and close timers do not fire, and its ring has room for as much as was accepted since; it then stays open and misses nothing |
| `CmuxDuplex.NeitherResynchronises` | `subsys/modem/modem_cmux.c:543-557` | two ends, each hearing only what the other put on its bus: over every run whose frames fit, neither decoder ever asks for a resynchronisation, and bus and ring hold exactly the frames queued |
| `CmuxDuplex.DuplexFidelity` | `subsys/modem/modem_cmux.c:139-268` | hence both directions are faithful, with no condition on resynchronisations |
| `CmuxDuplex.OpenChannelIsFaithfulBothWays` | `subsys/modem/modem_cmux.c:478-495` | the same from the calls alone: short transmit calls, and a channel open at both ends whose timers do not fire and whose rings have room; it stays open at both ends and both streams arrive |
| `CmuxDuplex.RunsForthAndBack` | `subsys/modem/modem_cmux.c:752-810` | a run of both ends over both buses is, in each direction, a run of a sender that hears arbitrary octets |
| `CmuxResync.ResynchronisationBreaksFidelity` | `subsys/modem/modem_cmux.c:543-557` | the condition is needed, and exactly when: from every start between frames, the sending end hears one octet, has up to 118 octets accepted whole and drains their frame, and its peer takes the whole bus; the open channel at the other end delivers them if and only if the octet was a flag |
| `CmuxStart.StartIsReachable` | `subsys/modem/modem_cmux.c:345-476` | such starts, in which the sender admits data and the receiver's channel is open with room, are reached from initialisation: both ends connect, drain, hear the answer, open the channel and hear that answer |
| `CmuxResync.LinkTakesDispatches` | `subsys/modem/modem_cmux.c:497-536` | whatever is heard, the link takes exactly the frames its decoder dispatches, each once and in order |
| `CmuxWire.FrameOctets` | `subsys/modem/modem_cmux.c:147-205` | a frame of less than 32768 octets is 0xF9, the DLCI shifted by two with the extension bit and C/R, the type with P/F, its length in one octet (2n + 1) or two, its data, a check octet and 0xF9 |
| `CmuxWire.FrameResidue` | `subsys/modem/modem_cmux.c:157-193` | from the register 0xFF, the octets checked and the check octet leave 0xCF: the header of a UIH frame, header and data of any other |
| `CmuxWire.WireResidue` | `subsys/modem/modem_cmux.c:157-193` | the same said of the octets on the wire alone |
| `CmuxWire.ConnectFrames` | `subsys/modem/modem_cmux.c:812-862` | SABM on DLCI 0 is F9 03 3F 01 1C F9, the close down command F9 03 EF 05 C3 01 F2 F9 |
| `Crc.GoodResidue8` | `subsys/modem/modem_cmux.c:157-193` | the complemented register appended leaves 0xCF from every register, the residue of section 5.2.1.6 of 3GPP TS 27.010 |
| `CmuxCommands.LinkRequests` | `subsys/modem/modem_cmux.c:812-862` | with twelve octets of room, connecting puts SABM on DLCI 0 behind the ring and disconnecting the close down command, with state and timer |
| `CmuxCommands.OpenRequest` | `subsys/modem/modem_cmux.c:928-948` | opening a channel puts SABM on its DLCI behind the ring, with a check octet that leaves the good residue |
| `CmuxCommands.CloseRequest` | `subsys/modem/modem_cmux.c:950-971` | closing it puts DISC there |
| `CmuxCommands.CommandRefused` | `subsys/modem/modem_cmux.c:212-232` | below twelve octets of room no command is sent and nothing changes |
| `CmuxCommands.TransmitResult` | `subsys/modem/modem_cmux.c:234-268` | a transmit call gives 0 without flow control and -12 below forty octets of room; otherwise as much as fits beside eight octets goes out as one UIH frame, joins what was accepted, and is the result when below 32768 |
| `CmuxCommands.ReceiveResult` | `subsys/modem/modem_cmux.c:894-906` | a receive call returns and removes the oldest octets, as many as asked for or there are |
| `CmuxCommands.DrainResult` | `subsys/modem/modem_cmux.c:775-810` | the transmit work is pending afterwards exactly when octets remain or the pipe took none |
| `CmuxCommands.CommandShape` | `subsys/modem/modem_cmux.c:79-118` | a command is valid exactly when it has two octets, both extension bits, and says how many octets follow |
| `CmuxCommands.FlowCommands` | `subsys/modem/modem_cmux.c:296-321` | on a live link 0x18 turns flow control off and 0x28 on, 0x38 leaves it, and each changes nothing else but the ring its answer goes into |
| `CmuxCommands.CloseDownCommand` | `subsys/modem/modem_cmux.c:323-343` | 0x30 disconnects the link, stops its timer and its data, and turns the event bits |
| `CmuxCommands.ConnectAnswer` | `subsys/modem/modem_cmux.c:345-367` | UA on DLCI 0 connects a connecting link, with flow control on, and leaves any other |
| `CmuxCommands.OthersIgnored` | `subsys/modem/modem_cmux.c:369-432` | every other frame on DLCI 0 changes nothing |
| `CmuxCommands.ChannelAnswer` | `subsys/modem/modem_cmux.c:450-476` | UA on a channel's DLCI opens an opening channel with its pipe, closes a closing one with its pipe, and leaves any other |
| `CmuxCommands.ChannelData` | `subsys/modem/modem_cmux.c:478-495` | data frames put the octets both stored and declared behind the ring of an open channel, as many as fit; nothing else of the channel changes |
| `CmuxCommands.FlowExact` | `subsys/modem/modem_cmux.c:301-367` | in every event flow control changes exactly by FCON or a connecting answer, and by FCOFF or a close down on a live link |
| `CmuxCommands.StoppedUntilReopened` | `subsys/modem/modem_cmux.c:234-321` | over every run after an FCOFF or close down without an FCON or connecting answer, transmit calls return 0, nothing is accepted from any channel and no data frame is queued |
| `CmuxCommands.ReopenedAccepts` | `subsys/modem/modem_cmux.c:301-310` | after an FCON the next call that has room is accepted whole |
| `CmuxStart.Closes` | `subsys/modem/modem_cmux.c:450-476` | from any state a channel that is closed, drained and answered is closed with its pipe and its timer stopped |
| `CmuxStart.Disconnects` | `subsys/modem/modem_cmux.c:323-343` | a link that sends the close down command and hears its answer is disconnected, without flow control, with its timer stopped |
| `CmuxDecoder.FlagsCostAFrame` | `subsys/modem/modem_cmux.c:543-640` | three flags in front of a synchronised decoder are taken for a header, and the next frame of up to 118 octets for its data |
| `CmuxBus.JoinedIsFaithful` | `subsys/modem/modem_cmux.c:478-536` | the same from the invariant of the run, for every channel whose data frames all found it open with room |
| `CmuxEnds.EveryLifeIsLiving` | `subsys/modem/modem_cmux.c:985-1023` | every end, whatever it did and heard since initialisation, keeps the link's invariant, has the decoder its octets make, and in each channel that missed nothing has delivered exactly the data of the frames dispatched for it |
| `CmuxEnds.HearsAllKeepsLiving` | `subsys/modem/modem_cmux.c:752-773` | a chunk through the receive handler keeps that, whichever frames it completes; histories only grow and nothing is drained |
| `CmuxBus.StepKeepsJoined` | `subsys/modem/modem_cmux.c:752-810` | every step of either end keeps both ends and the bus as they stand to the start |
| `CmuxChannels.NextMoves` | `subsys/modem/modem_cmux.c:301-412` | no event but a received frame delivers anything; queued and drained only grow, by frames no longer than the call's octets |
| `CmuxChannels.FrameReaches` | `subsys/modem/modem_cmux.c:434-448` | a frame reaches the channel with its address and changes no other; control frames change none |
| `CmuxChannels.OpenStaysOpen` | `subsys/modem/modem_cmux.c:450-476` | an open channel stays open through every event but its own open and close handlers |
| `CmuxReceive.FramesRoundTrip` | `subsys/modem/modem_cmux.c:538-750` | decoding the concatenated encodings of any list of frames, of whatever type and with whatever data, dispatches exactly those frames with no resynchronisation; only the first may meet the data pointer unset |
| `CmuxReceive.FrameDispatchedExact` | `subsys/modem/modem_cmux.c:692-745` | a frame of surviving length that fits is read back by a decoder between frames if and only if it is UIH, has no data, or some frame was dispatched before |
| `CmuxReceive.FaultReached` | `subsys/modem/modem_cmux.c:692-713` | every other such frame is checked over the null data pointer, and not dispatched |
| `CmuxReceive.FaultStays` | `subsys/modem/modem_cmux.c:692-713` | once the null pointer was used, nothing that follows is given a meaning |
| `CmuxReceive.FrameRoundTripExact` | `subsys/modem/modem_cmux.c:172-182` | a UIH frame that fits the peer's buffer comes back as itself if and only if its length is at most 127 or its length divided by 128 is odd |
| `CmuxReceive.LostFrame` | `subsys/modem/modem_cmux.c:172-182` | for the other lengths the receiver expects 128 octets too many, so the frame is not dispatched as sent |
| `CmuxFrame.LengthRoundTrip` | `subsys/modem/modem_cmux.c:630-665` | the length field read back is the length, or the length plus 128 when the forced low bit of the second octet was not already set |
| `CmuxFrame.HeaderRoundTrip` | `subsys/modem/modem_cmux.c:147-184` | address, C/R, P/F and type are read back from every header; the length exactly when it survives its field |
| `CmuxReceive.FeedConcat` | `subsys/modem/modem_cmux.c:752-773` | how the stream is cut into chunks does not matter to the decoder |
| `CmuxReceive.WireFed` | `subsys/modem/modem_cmux.c:692-745` | a frame on the wire, whoever wrote it, whose check does not meet the data pointer unset is dispatched when its check octet is right and dropped when it is wrong |
| `CmuxDecoder.Soundness` | `subsys/modem/modem_cmux.c:538-750` | on every octet stream the header stays within four octets and the data within the receive buffer, and a dispatched frame just ended on the wire; its header says whether it was checked: flag, header, data, right check octet and flag unless it is overlong, else flag, header, a buffer full of data and flag |
| `CmuxDecoder.OverrunDispatched` | `subsys/modem/modem_cmux.c:676-690` | a frame whose header declares more than the receive buffer holds, or zero in two octets, is dispatched unchecked once the buffer is full and a flag follows, with the length declared |
| `CmuxDecoder.OverrunExact` | `subsys/modem/modem_cmux.c:667-690` | a full buffer of data and a flag, with no check octet, are dispatched if and only if the header declared more than the buffer holds |
| `CmuxDecoder.AlterationDetected` | `subsys/modem/modem_cmux.c:692-713` | a UIH frame altered in its address octet, its P/F bit or its check octet is never dispatched, and every following frame is |
| `CmuxDecoder.WrongCheckCostsOneFrame` | `subsys/modem/modem_cmux.c:706-723` | a wrong check octet costs exactly one frame |
| `CmuxDecoder.MissingFlagCostsOneFrame` | `subsys/modem/modem_cmux.c:720-750` | a frame without its closing flag costs exactly itself, without a resynchronisation |
| `CmuxDecoder.ResyncExact` | `subsys/modem/modem_cmux.c:543-557` | the resynchronisation flags are asked for exactly when another octet than the flag is heard between frames |
| `CmuxDecoder.Recovery` | `subsys/modem/modem_cmux.c:543-588` | from garbage without three flags in a row, three flags bring the decoder back: the resynchronisation flags are sent once and exactly the following frames are dispatched |
| `CmuxDecoder.FlagAddress` | `subsys/modem/modem_cmux.c:581-604` | the one address octet that is the flag itself is that of DLCI 62 with C/R 0 |
| `CmuxDecoder.ResynchronisedExact` | `subsys/modem/modem_cmux.c:581-604` | behind the flags of a resynchronisation a frame is dispatched if and only if its address octet is not the flag |
| `CmuxDecoder.DispatchTakesOctets` | `subsys/modem/modem_cmux.c:538-750` | no frame is dispatched from fewer octets than its own |
| `Crc.Crc8DetectsOneOctet` | `subsys/modem/modem_cmux.c:157-194` | changing exactly one octet of a sequence of any length changes its check sequence (section 5.2.1.6 of 3GPP TS 27.010) |
| `CmuxRuns.EveryRunIsGood` | `subsys/modem/modem_cmux.c:985-1023` | over every run from initialisation: octets drained plus ring are whole frames; DISCONNECTED implies flow control off; exactly one event bit is set and agrees with the state; an OPEN channel's pipe is open, a CLOSED one's closed; frames queued carry exactly what each channel accepted |
| `CmuxRuns.NextKeepsGood` | `subsys/modem/modem_cmux.c:301-412` | each event, whatever is received, called, fired or taken by the bus, keeps that invariant |
| `CmuxRuns.TransmitKeepsWholeFrames` | `subsys/modem/modem_cmux.c:139-210` | a frame put in the transmit ring is never cut short there; when room is short its data is cut beforehand |
| `CmuxRuns.CommandAllOrNothing` | `subsys/modem/modem_cmux.c:212-232` | a command frame goes into the ring whole or not at all and carries nothing for any channel |
| `CmuxRuns.TransmitAccepts` | `subsys/modem/modem_cmux.c:234-268` | a transmit call accepts a prefix of its octets, which join that channel's stream and no other's; nothing is accepted while disconnected |
| `CmuxRuns.CommandRoomExact` | `subsys/modem/modem_cmux.c:248-262` | after an admitted data frame there is room for k command frames if and only if there was room for them and the whole data frame; admission reserves nothing |
| `CmuxRuns.CommandAfterDataExact` | `subsys/modem/modem_cmux.c:212-262` | the next command is refused if and only if the data frame left no room for it |
| `CmuxRuns.AcknowledgementDecodes` | `subsys/modem/modem_cmux.c:270-321` | on a live link an MSC, FCON or FCOFF command is answered by one frame that a peer reads back as the command with only the C/R bit of the command cleared |
| `ModemCmux.Cmux.constructor` | `subsys/modem/modem_cmux.c:985-1023` | initialisation gives a disconnected link with an empty ring and a decoder awaiting a flag |
| `ModemCmux.Cmux.AddDlci` | `subsys/modem/modem_cmux.c:1025-1058` | a channel joins the list behind those there are |
| `ModemCmux.Cmux.PutFrame` | `subsys/modem/modem_cmux.c:147-205` | the octets put in the ring one by one, with the check sequence run along, are the encoding of the frame |
| `ModemCmux.Cmux.TransmitFrame` | `subsys/modem/modem_cmux.c:139-210` | the ring gains the encoding of the frame cut to the space there is; the number of data octets is returned and the transmit work scheduled |
| `ModemCmux.Cmux.TransmitCommandFrame` | `subsys/modem/modem_cmux.c:212-232` | refused below 12 octets of space, else transmitted |
| `ModemCmux.Cmux.TransmitDataFrame` | `subsys/modem/modem_cmux.c:234-268` | 0 without flow control, -ENOMEM below 40 octets of space, else the accepted number as a 16-bit result |
| `ModemCmux.Cmux.OnControlFrameUih` | `subsys/modem/modem_cmux.c:369-412` | a valid command on a live link has its effect on state, flow control, event bits and ring; everything else has none |
| `ModemCmux.Cmux.OnControlFrameUa` | `subsys/modem/modem_cmux.c:345-367` | only a connecting link becomes connected |
| `ModemCmux.Cmux.FindDlci` | `subsys/modem/modem_cmux.c:434-448` | the first channel in the list with the address |
| `ModemCmux.Dlci.OnUa` | `subsys/modem/modem_cmux.c:450-476` | an opening channel opens and a closing one closes, with pipe and timer |
| `ModemCmux.Dlci.OnUih` | `subsys/modem/modem_cmux.c:478-495` | an open channel's ring gains the frame's octets, as many as fit; any other state ignores them |
| `ModemCmux.Cmux.OnFrame` | `subsys/modem/modem_cmux.c:497-536` | control frames go to the link, the others to their channel; no other object changes |
| `ModemCmux.Cmux.ProcessReceivedByte` | `subsys/modem/modem_cmux.c:538-750` | the fourteen-state octet handler over its two arrays takes decoder and link to the next abstract ones and asks for the resynchronisation flags exactly when they do |
| `ModemCmux.Cmux.ReceiveHandler` | `subsys/modem/modem_cmux.c:752-773` | a chunk is its octets one after the other, and the work is scheduled again unless the pipe gave nothing |
| `ModemCmux.Cmux.TransmitHandler` | `subsys/modem/modem_cmux.c:775-810` | what the pipe is given is the front of the ring and leaves it; the work is scheduled again while octets remain or the pipe took none |
| `ModemCmux.Cmux.ConnectHandler` | `subsys/modem/modem_cmux.c:812-831` | the link is connecting, a SABM request is queued if there is room, and the timer runs again |
| `ModemCmux.Cmux.DisconnectHandler` | `subsys/modem/modem_cmux.c:833-862` | the link is disconnecting, a CLD command is queued if there is room, and the timer runs again |
| `ModemCmux.Cmux.OpenHandler` | `subsys/modem/modem_cmux.c:928-948` | the channel is opening, with its SABM request and timer |
| `ModemCmux.Cmux.CloseHandler` | `subsys/modem/modem_cmux.c:950-971` | the channel is closing, with its DISC request and timer |
| `ModemCmux.Cmux.TransmitPipe` | `subsys/modem/modem_cmux.c:877-892` | a channel's transmit call: result and next link as specified |
| `ModemCmux.Cmux.ReceivePipe` | `subsys/modem/modem_cmux.c:894-906` | a channel's receive call returns the oldest octets of its ring and only moves them |
| `ModemCmux.Cmux.OpenPipe` | `subsys/modem/modem_cmux.c:864-875` | -EBUSY while the open timer is pending, else it is scheduled |
| `ModemCmux.Cmux.ClosePipe` | `subsys/modem/modem_cmux.c:908-919` | -EBUSY while the close timer is pending, else it is scheduled |
| `PppTransmit.TransmitStream` | `subsys/modem/modem_ppp.c:398-453` | over every run of sends and send handlers, whatever the pipe takes: octets taken, octets in the ring and octets not yet emitted are the complete frames of the packets taken, in order of acceptance; references are the packets held; while anything waits the send work is scheduled |
| `PppTransmit.HandlerDrains` | `subsys/modem/modem_ppp.c:408-452` | the send handler lowers the backlog by exactly what the pipe took and always has something to offer while there is a backlog |
| `PppTransmit.AllTrafficDrains` | `subsys/modem/modem_ppp.c:398-453` | once the pipe has taken the backlog, every accepted packet is on the wire and no reference is held |
| `PppTransmit.SendResult` | `subsys/modem/modem_ppp.c:501-534` | a send gives EPROTONOSUPPORT, ENODATA and ENOMEM in the order of the checks and then changes nothing, else the packet is queued, held and the work submitted |
| `PppTransmit.WorkExact` | `subsys/modem/modem_ppp.c:408-452` | after the send handler its work is pending exactly while something has not gone out |
| `PppTransmit.DiscardResult` | `subsys/modem/modem_ppp.c:561-594` | a release drops queue, frame under way, references and pending work, and leaves ring and wire |
| `PppWrap.WrapStep` | `subsys/modem/modem_ppp.c:87-255` | each emitted octet is the first of what was unsent, in every one of the sixteen states; the data state never reads an exhausted packet |
| `PppWrap.UnsentAtStart` | `subsys/modem/modem_ppp.c:92-111` | at the start of a frame what is unsent is its whole encoding (sections 3.1 and 4.2 of RFC 1662) |
| `PppFrame.EncodedSize` | `subsys/modem/modem_ppp.c:87-255` | no interior octet is a flag or below 0x20, and a payload of n octets makes a frame of n + 7 to 2n + 9 |
| `PppFrame.PayloadOctets` | `subsys/modem/modem_ppp.c:72-81` | an IPv4 packet is carried behind 00 21, an IPv6 packet behind 00 57, a packet that is PPP as it is |
| `PppFrame.StuffOctets` | `subsys/modem/modem_ppp.c:87-255` | exactly 0x7E, 0x7D and the octets below 0x20 are escaped, as 0x7D and the octet with the bit 0x20 flipped |
| `PppFrame.FrameOctets` | `subsys/modem/modem_ppp.c:87-255` | a frame is 7E FF 7D 23, the stuffed payload and two octets that leave the residue 0xF0B8 from 0xFFFF, and 7E |
| `PppWrap.FrameEmitted` | `subsys/modem/modem_ppp.c:87-255` | from the start of a frame the machine emits its whole encoding, which begins 7E FF 7D 23 7D 20 21 for IPv4 and 7E FF 7D 23 7D 20 57 for IPv6 |
| `PppFrame.FrameResidue` | `subsys/modem/modem_ppp.c:57-70` | the FCS-16 over everything an encoded frame carries is 0xF0B8 (appendix C.2 of RFC 1662) |
| `Crc.GoodResidue` | `subsys/modem/modem_ppp.c:57-70` | appending the complemented register, low octet first, leaves 0xF0B8 from every register |
| `Crc.Crc16Concat` | `subsys/modem/modem_ppp.c:62-65` | the check sequence carried from octet to octet is that of the whole |
| `PppReceive.CodecInverse` | `subsys/modem/modem_ppp.c:257-386` | with allocations that succeed, decoding the concatenated frames of any packets delivers exactly protocol and data of each, in order, without the FCS |
| `PppReceive.FrameResynchronises` | `subsys/modem/modem_ppp.c:257-386` | from every state of the receiver, one whole frame brings it between frames |
| `PppReceive.SelfSynchronisation` | `subsys/modem/modem_ppp.c:257-386` | hence from every state at most the first frame is lost and all later ones are delivered exactly |
| `PppReceive.FramesDelivered` | `subsys/modem/modem_ppp.c:291-385` | with allocations failing anywhere, only frames during which one failed can be missing; none is damaged |
| `PppReceive.UncheckedDelivery` | `subsys/modem/modem_ppp.c:317-332` | whatever two octets stand in place of the check sequence, the payload in front of them is delivered |
| `PppReceive.DamagedFrameDelivered` | `subsys/modem/modem_ppp.c:317-332` | a frame damaged in any one octet of payload or check sequence has lost the good residue and is delivered with the damage |
| `PppReceive.EscapedFlagIsData` | `subsys/modem/modem_ppp.c:353-385` | an escape octet and a flag are not an abort: they are the data octet 0x5E, and the frame goes on |
| `PppDecoder.Soundness` | `subsys/modem/modem_ppp.c:257-386` | on every octet stream and whatever is allocated: an octet delivers at most one packet, and then it is a flag that is not escaped behind 7E FF 7D 23 and octets that stand for the packet and two octets more |
| `PppDecoder.FramedIsDelivered` | `subsys/modem/modem_ppp.c:257-386` | from between frames, with allocations that succeed, every such frame is delivered, whatever the octets in it |
| `PppDecoder.UnstuffsStuffed` | `subsys/modem/modem_ppp.c:331-385` | reading stuffed octets back undoes the stuffing of every text |
| `PppDecoder.AllocationExact` | `subsys/modem/modem_ppp.c:290-385` | room is allocated behind the header and before the last octet of room is used; a failure costs the packet and nothing else |
| `Crc.Crc16DetectsOneOctet` | `subsys/modem/modem_ppp.c:62-70` | changing exactly one octet of a sequence of any length changes its FCS-16 |
| `PppLink.EndToEnd` | `subsys/modem/modem_ppp.c:87-472` | sender, pipe and receiver together: the receiver delivers a prefix of the accepted payloads, and all of them once the sender is drained |
| `ModemPpp.PutInRun` | `subsys/modem/modem_ppp.c:12-34` | filling the slot behind the newest keeps the occupied slots one circular run and appends to the queue |
| `ModemPpp.GetFromRun` | `subsys/modem/modem_ppp.c:36-55` | emptying the tail slot keeps the run and removes the oldest packet |
| `ModemPpp.Ppp.PutPacket` | `subsys/modem/modem_ppp.c:12-34` | the scan terminates, appends, and fails exactly when all slots are full |
| `ModemPpp.Ppp.GetPacket` | `subsys/modem/modem_ppp.c:36-55` | removes the oldest packet, or finds none exactly when the queue is empty |
| `ModemPpp.Ppp.Send` | `subsys/modem/modem_ppp.c:501-534` | the result and the queue after a send, in the order of the source's checks |
| `ModemPpp.Ppp.WrapByte` | `subsys/modem/modem_ppp.c:87-255` | the state switch over the frame fields emits the octet and reaches the state specified |
| `ModemPpp.Ppp.Fill` | `subsys/modem/modem_ppp.c:417-431` | the fill loop stops when the ring is full or the frame complete, and stores everything it emits |
| `ModemPpp.Ppp.SendHandler` | `subsys/modem/modem_ppp.c:398-453` | one send work, over slots, ring and fields, is one step of the abstract sender |
| `ModemPpp.Ppp.ReceiveByte` | `subsys/modem/modem_ppp.c:257-386` | the receive switch, with its allocations, is one step of the abstract receiver, and hands the network what that delivers |
| `ModemPpp.Ppp.ProcessHandler` | `subsys/modem/modem_ppp.c:455-472` | a chunk is its octets one after the other, and the work is submitted again unless the pipe gave nothing |
| `ModemPpp.Ppp.Release` | `subsys/modem/modem_ppp.c:561-594` | a release gives each packet held back exactly once, empties queue and current packet, and leaves the ring as it is |
| `ChatLine.LineHeard` | `subsys/modem/modem_chat.c:492-600` | a line and its delimiter, with filtered octets anywhere between, are dispatched exactly as the one-line specification says, and leave the parser between lines |
| `ChatLine.LinesHeard` | `subsys/modem/modem_chat.c:614-623` | lists of lines give lists of dispatches, each with the matches in force at its time |
| `ChatLimits.MatchedLineExact` | `subsys/modem/modem_chat.c:302-323` | a line with a match of k octets, in a buffer longer than line and delimiter, is dispatched as specified if and only if the buffer has k + 1 octets more |
| `ChatLimits.DocumentedSizeFails` | `subsys/modem/modem_chat.c:302-323` | in a buffer of exactly longest line plus longest match, a line that needs all of it is dispatched wrongly whenever its match is longer than the delimiter |
| `ChatLimits.CatchAllExact` | `subsys/modem/modem_chat.c:473-490` | a line without a match that fits is dispatched to its catch-all if and only if there are two argument pointers |
| `ChatLimits.ArgumentArrayExact` | `subsys/modem/modem_chat.c:492-600` | a line with a match that fits in the buffer is dispatched as specified if and only if the pieces behind the match are fewer than the argument pointers; beyond that the line is lost, even for an empty last piece |
| `ChatLine.RecogniseIsShortest` | `subsys/modem/modem_chat.c:340-366` | in the specification, the match is the shortest prefix recognised |
| `ChatLine.FindIsFirst` | `subsys/modem/modem_chat.c:340-366` | among matches of the same size responses come first, then aborts, then unsolicited ones, each in list order |
| `ChatLine.PiecesRejoin` | `subsys/modem/modem_chat.c:574-599` | the arguments contain no separator, and rejoined at the text's own separators they give back the text |
| `ChatParse.MatchesExact` | `subsys/modem/modem_chat.c:325-338` | without the wildcard flag a match is equality; with it each 0x3F stands for any one octet |
| `ChatLine.LineDispatchExact` | `subsys/modem/modem_chat.c:340-490` | the specification of one line in other words: the shortest prefix some match recognises, the first such match, the text behind it cut at separators; else the whole line as second argument of the first catch-all; else nothing |
| `ChatLine.ArgumentsExact` | `subsys/modem/modem_chat.c:553-599` | a separator at the end of the text adds no argument |
| `ChatScript.ScriptAccounting` | `subsys/modem/modem_chat.c:21-127` | over every run: RUNNING holds exactly while a script is active or its run work pending, never both; the step stays inside the script; accepted runs are results delivered plus the one running; a request in progress has sent exactly its beginning |
| `ChatScript.NextKeepsGood` | `subsys/modem/modem_chat.c:129-290` | a handler faults if and only if it is one of two hazards, which are conditions on the state before it, and otherwise keeps the accounting invariant |
| `ChatScript.RequestCompleted` | `subsys/modem/modem_chat.c:154-277` | over every run: when a send work finishes the current step's request, exactly request and delimiter have gone out |
| `ChatScript.PumpSendsRequest` | `subsys/modem/modem_chat.c:154-224` | however short the writes, at completion exactly request and delimiter have gone out |
| `ChatResults.ResultExact` | `subsys/modem/modem_chat.c:21-152` | every event that does not fault gives the callback exactly: Timeout when a script's time ran out, Abort for an abort call or an abort line, Success when the last step ends, nothing otherwise |
| `ChatResults.ResultsExact` | `subsys/modem/modem_chat.c:21-290` | over every run from initialisation the callbacks were given exactly the results its events bring about, in order |
| `ChatResults.StopReports` | `subsys/modem/modem_chat.c:21-51` | the result given is reported once; script, matches and timeout are cleared; a valid script the callback asks for is the next to run |
| `ChatResults.AbortLineEnds` | `subsys/modem/modem_chat.c:413-422` | an abort line heard octet by octet at any step gives Abort, once, and leaves no script and the parser between lines |
| `ChatResults.TimeoutEnds` | `subsys/modem/modem_chat.c:129-136` | a timeout at any step gives Timeout, once, and leaves no script |
| `ChatResults.AbortCallEnds` | `subsys/modem/modem_chat.c:138-152` | an abort call at any step gives Abort, once, and leaves no script |
| `ChatResults.OtherLineLeaves` | `subsys/modem/modem_chat.c:405-471` | a line of any other kind leaves step, sending and works as they were and reports nothing |
| `ChatResults.RunResult` | `subsys/modem/modem_chat.c:725-759` | a run call gives EPERM, EINVAL and EBUSY in the order of the checks and then changes nothing, else the script waits for the run work |
| `ChatResults.SendWorkExact` | `subsys/modem/modem_chat.c:242-277` | a send work without a script does nothing, and one not done yet is pending again |
| `ChatHazards.TimeoutInsideALine` | `subsys/modem/modem_chat.c:129-136` | the first hazard is real, octet by octet from initialisation, for every match, delimiter and buffer that work: a timeout between the match and the end of its line leaves no script to move on |
| `ChatHazards.StaleSend` | `subsys/modem/modem_chat.c:242-277` | the second hazard is real in the same way: an early response moves on to a step without a request while a request is going out |
| `ChatScript.HazardNeedsStop` | `subsys/modem/modem_chat.c:454-471` | a matched line ends without a script only if a script was stopped since the match |
| `ChatScript.HazardNeedsStaleSend` | `subsys/modem/modem_chat.c:154-190` | a send position lies beyond the request only when the script has moved on from the request it belongs to |
| `ChatSystem.LineDrivesScript` | `subsys/modem/modem_chat.c:405-600` | parser and script together: a line moves the script exactly as its dispatch says - the next step after a response, the end after an abort, nothing otherwise |
| `ChatDialogue.ScriptSucceeds` | `subsys/modem/modem_chat.c:21-277` | a script of any number of steps, called on an attached instance at rest, each request taken in any writes and each awaited response heard with filtered octets anywhere in it: it ends in success exactly once, and all that the pipe was given is the requests of the steps with their delimiters, in order |
| `ChatDialogue.StepDone` | `subsys/modem/modem_chat.c:63-95` | one step: exactly its request and delimiter go out, and its response, its completed request or its pause brings the script to the next step, or to its end |
| `ChatDialogue.WritesRun` | `subsys/modem/modem_chat.c:242-277` | however the pipe takes them, the writes that complete a request put its rest and the delimiter on the wire and nothing more |
| `ChatSystem.SystemAccounting` | `subsys/modem/modem_chat.c:21-127` | over every run of parser and script runner together the accounting holds, and the match the runner counts on is the parser's |
| `ChatSystem.FaultExact` | `subsys/modem/modem_chat.c:405-490` | over every run of parser and script runner, a step uses a null script, an octet beyond a request or a pointer beyond the argument array if and only if: the octet ends a line that matched a response or abort while no script is active, or an unmatched one bound for a catch-all with a single pointer; or the send position is beyond the current request |
| `ChatSystem.FaultNeedsHazard` | `subsys/modem/modem_chat.c:424-471` | the first and the last of these come about only when a script was stopped since the match, or has moved on from the request |
| `ChatSystem.ReportIsEnabled` | `subsys/modem/modem_chat.c:340-366` | the parser reports a response or abort only while such matches are set |
| `ModemChat.Chat.FindMatch` | `subsys/modem/modem_chat.c:340-366` | the loops over kinds and matches find what the specification finds for the octets received |
| `ModemChat.Chat.MatchMatchesReceived` | `subsys/modem/modem_chat.c:325-338` | true if and only if every octet of the match equals the one received or is a wildcard |
| `ModemChat.Chat.FindCatchAllMatch` | `subsys/modem/modem_chat.c:435-452` | the first empty match, by kind and then by position |
| `ModemChat.Chat.SaveMatch` | `subsys/modem/modem_chat.c:302-323` | the match is copied to the end of the buffer, terminated there and made the first argument; the line stays |
| `ModemChat.Chat.EndsWithDelimiter` | `subsys/modem/modem_chat.c:391-403` | true if and only if the octets received end with the whole delimiter |
| `ModemChat.Chat.DelimiterStarted` | `subsys/modem/modem_chat.c:380-389` | true if and only if the octet occurs in the delimiter |
| `ModemChat.Chat.IsSeparator` | `subsys/modem/modem_chat.c:368-378` | true if and only if the octet is one of the match's separators |
| `ModemChat.Chat.DiscardByte` | `subsys/modem/modem_chat.c:602-611` | true if and only if the octet is filtered out |
| `ModemChat.Chat.OnLine` | `subsys/modem/modem_chat.c:514-551` | a complete line is dropped, dispatched or given to a catch-all, the script moved, and the parser reset |
| `ModemChat.Chat.ProcessByte` | `subsys/modem/modem_chat.c:492-600` | the in-place parser over buffer and argument pointers takes one octet as specified, overruns included |
| `ModemChat.Chat.ProcessBytes` | `subsys/modem/modem_chat.c:614-623` | a chunk is its octets one after the other, for parser and script together |
| `ModemChat.Chat.ProcessHandler` | `subsys/modem/modem_chat.c:625-646` | the same for what the pipe gave, and the work is scheduled again unless that was nothing |
| `ModemChat.Chat.Attach` | `subsys/modem/modem_chat.c:714-723` | the parser starts afresh and scripts may run from then on |
| `ModemChat.Chat.ScriptRun` | `subsys/modem/modem_chat.c:725-759` | -EPERM without a pipe, -EINVAL for an invalid script, -EBUSY while one runs, else the run work is submitted |
| `ModemChat.Chat.ScriptStop` | `subsys/modem/modem_chat.c:21-51` | the callback is given exactly the result, its own run request is honoured, and script, matches and timeout are cleared |
| `ModemChat.Chat.ScriptTimeoutHandler` | `subsys/modem/modem_chat.c:129-136` | the callback of an active script is given Timeout |
| `ModemChat.Chat.ScriptAbortHandler` | `subsys/modem/modem_chat.c:138-152` | the callback of an active script is given Abort, and without one nothing happens |
| `ModemChat.Chat.ScriptNext` | `subsys/modem/modem_chat.c:63-95` | the next step sets its responses and starts its request; past the last one the script has succeeded |
| `ModemChat.Chat.ScriptSendHandler` | `subsys/modem/modem_chat.c:242-277` | the octets that go to the pipe are the next ones of request and then delimiter and join what was sent; a step without responses is left at once or after its pause |
| `UartReceive.OneFifo` | `subsys/modem/backends/modem_backend_uart_isr.c:147-178` | any interleaving of interrupts with the steps of receive calls: octets returned, octets in hand and both rings are the octets received and not discarded, in order of arrival |
| `UartReceive.CallsReturnPrefix` | `subsys/modem/backends/modem_backend_uart_async.c:210-237` | in runs whose arrivals all find room, what calls returned plus what is queued is what was queued plus what arrived |
| `UartReceive.ArrivalKeepsGood` | `subsys/modem/backends/modem_backend_uart_async.c:105-122` | an overrun discards exactly the used ring's own octets; nothing the consumer is reading is touched |
| `UartReceive.ArrivalExact` | `subsys/modem/backends/modem_backend_uart_isr.c:23-55` | an interrupt stores behind a ring that is not full and empties a full one first; a block that fits is stored behind it, and one that does not empties the ring and is dropped |
| `UartReceive.LossExact` | `subsys/modem/backends/modem_backend_uart_async.c:105-122` | octets are lost exactly when the ring was full, or the block longer than the space behind it |
| `UartReceive.UndisturbedCall` | `subsys/modem/backends/modem_backend_uart_isr.c:147-178` | without interrupts a call returns the least of what was asked for and the whole queue, from its front |
| `UartBackend.Backend.ReceiveReady` | `subsys/modem/backends/modem_backend_uart_isr.c:23-55` | the interrupt stores what fits the claimed space of the used ring, emptying a full ring first |
| `UartBackend.Backend.RxReady` | `subsys/modem/backends/modem_backend_uart_async.c:105-122` | a block goes in whole, or empties the used ring and is dropped |
| `UartBackend.Backend.Receive` | `subsys/modem/backends/modem_backend_uart_isr.c:147-178` | the call over the two rings returns the front of the queue and leaves the rest |
| `UartBackend.Backend.TransmitPut` | `subsys/modem/backends/modem_backend_uart_isr.c:125-145` | nothing is accepted above the limit, else as much as there is space for; accepted octets are the handed over ones plus the ring |
| `UartBackend.Backend.TransmitReady` | `subsys/modem/backends/modem_backend_uart_isr.c:57-81` | the octets handed over are the front of what was accepted and not yet sent, also before those just put were counted |

## Left out

- Real time: T1, T2, script and process timeouts are steps that may happen while pending.
- Mutexes, condition variables and the blocking calls `modem_cmux_connect` and `modem_cmux_disconnect`; handlers are atomic.
- The internals of `modem_pipe.c` beyond open, closed, and transmit and receive of part of the octets.
- `drivers/modem/modem_cellular.c`, the TTY backend, samples, logging, network interface glue: they would add flat tables and plumbing.
- The asynchronous UART's transmit path (`modem_backend_uart_async.c:164-208`) and its buffer hand-over; its receive path shares the model of the interrupt backend's.
- Release and re-attachment: `modem_cmux_attach` resets the transmit ring and `modem_chat_release` leaves the script timeout running; no claim crosses them. `modem_ppp_release` is modelled, with its ring left as it is, but runs of the sender start from initialisation.
- 16-bit counters: buffer sizes are below 65536 in the source, so positions are natural numbers here; the 16-bit length field and the signed 16-bit result of a data frame are modelled.
- Network packets are a sequence of octets; on the receiving side with the room left, and each octet is given what an allocation would grant at that moment, 0 for a failure.
- Error numbers have the values of Zephyr's `errno.h`, a file that is not part of this model.
- Logging of unknown frames reads the frame's first octets; it changes nothing and is not modelled.
- Packet references are counted in the abstract sender only; in the class, `Release` hands back what is still held.
- Match callbacks see the arguments but change nothing; only a script's result callback may ask for another script.
- A match is copied to the end of the chat buffer as by `memmove`; the source uses `memcpy`, which is undefined if the two overlap; they do not overlap for lines that fit.
- CmuxBus.ChannelFidelity: says nothing of a channel that missed a frame (`intact` is false), of frames whose lengths do not survive or do not fit the peer's buffer, and of runs in which the sending end's decoder asked for a resynchronisation. An end's channels are opened by answers it heard before the start, since this side never answers SABM.
- CmuxCalls.ShortChunksAreFaithful: the same, with its condition on lengths turned into one on the calls.
- CmuxCalls.OpenChannelIsFaithful: asks that the ring have room for everything accepted since the start, however much of it is read meanwhile.
- CmuxDuplex.NeitherResynchronises: for frames whose lengths survive and fit the peer's buffer, from starts with both rings empty and both decoders between frames.
- CmuxResync.ResynchronisationBreaksFidelity: for data of at most 118 octets; three flags take in the whole frame of these, while a longer one runs on into what the decoder makes of its rest.
- CmuxDecoder.AlterationDetected: leaves out alterations of type and length octets, which change what the check covers or how much is read.
- CmuxDecoder.Recovery: the first frame after the three flags must not have the flag for its address octet, and must not meet the data pointer unset.
- PppReceive.CodecInverse: is about undamaged frames; what becomes of damaged ones is stated by PppReceive.DamagedFrameDelivered.
- ChatLine.LineHeard: lines without delimiter, filter or zero octets, for which buffer and argument pointers suffice (`Acceptable`); overruns reset the parser as in the source but are given no further meaning.
- ModemChat.Chat.ProcessBytes: chunks in which no octet faults; after a fault the C program has no defined state to go on from.
- ChatLimits.MatchedLineExact: leaves out buffers no longer than line and delimiter, where the delimiter's last octet falls on the terminator of the match or beyond the buffer.
- ChatSystem.LineDrivesScript: for argument arrays of at least two pointers.
- ChatDialogue.ScriptSucceeds: is about runs of the script alone, in which no timeout, abort, other line or second call comes between; ChatScript.ScriptAccounting and ChatSystem.FaultExact are about those.
- UartReceive.OneFifo: a block longer than the ring is dropped like any other that does not fit.
