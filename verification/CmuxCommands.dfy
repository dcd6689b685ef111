/**
 What the link says and is told: the requests its handlers send, the result of a transmit call, and what a command does
 to flow control, over one step and over whole runs.
 */
module CmuxCommands {
  import opened Crc
  import opened Sequences
  import opened CmuxFrame
  import opened CmuxReceive
  import opened CmuxLink
  import opened CmuxRuns
  import opened CmuxChannels
  import opened CmuxWire

  // ----- Requests

  /** A command frame in a ring with room for it. */
  lemma CommandStored(l: Link, f: Frame)
    requires 12 <= l.capacity - |l.ring| && |f.data| <= 4
    ensures TransmitCommand(l, f) == l.(ring := l.ring + Encode(f), queued := l.queued + [f], transmitWork := true)
  {
    assert Truncated(l, f) == f;
  }

  /** Below twelve octets of space nothing is sent. */
  lemma CommandRefused(l: Link, f: Frame)
    requires l.capacity - |l.ring| < 12
    ensures TransmitCommand(l, f) == l
  {
  }

  /** Connecting sends SABM on DLCI 0, disconnecting the close down command, whenever there is room. */
  lemma LinkRequests(l: Link)
    requires 12 <= l.capacity - |l.ring|
    ensures ConnectHandler(l) ==
            l.(state := Connecting, connectWork := true, transmitWork := true,
               ring := l.ring + [0xF9, 0x03, 0x3F, 0x01, 0x1C, 0xF9],
               queued := l.queued + [Frame(0, true, true, 0x2F, [])])
    ensures DisconnectHandler(l) ==
            l.(state := Disconnecting, disconnectWork := true, transmitWork := true,
               ring := l.ring + [0xF9, 0x03, 0xEF, 0x05, 0xC3, 0x01, 0xF2, 0xF9],
               queued := l.queued + [Frame(0, true, false, 0xEF, [0xC3, 0x01])])
  {
    ConnectFrames();
    assert (0x03 | (COMMAND_CLD << 2)) as byte == 0xC3;
    CommandStored(l.(state := Connecting), Frame(0, true, true, 0x2F, []));
    CommandStored(l.(state := Disconnecting), Frame(0, true, false, 0xEF, [0xC3, 0x01]));
  }

  lemma RequestOctets(address: byte, kind: byte)
    requires kind & 0x10 == 0
    ensures AddressOctet(Request(address, kind)) == (address << 2) | 0x03
    ensures ControlOctet(Request(address, kind)) == kind + 0x10
  {
    AddressAndControl(Request(address, kind));
  }

  /** Opening a channel sends SABM on its own DLCI. */
  lemma OpenRequest(l: Link, i: nat)
    requires i < |l.channels| && 12 <= l.capacity - |l.ring|
    ensures var c, a := l.channels[i], (l.channels[i].address << 2) | 0x03;
            && OpenHandler(l, i) ==
               l.(channels := l.channels[i := c.(state := Opening, openWork := true)], transmitWork := true,
                  ring := l.ring + [0xF9, a, 0x3F, 0x01, EmptyCheck(a, 0x3F), 0xF9],
                  queued := l.queued + [Frame(c.address, true, true, 0x2F, [])])
            && Crc8(0xFF, [a, 0x3F, 0x01, EmptyCheck(a, 0x3F)]) == 0xCF
  {
    var address := l.channels[i].address;
    RequestOctets(address, 0x2F);
    EmptyFrame(Request(address, 0x2F), (address << 2) | 0x03, 0x3F);
    EmptyResidue((address << 2) | 0x03, 0x3F);
    CommandStored(l, Frame(address, true, true, 0x2F, []));
  }

  /** Closing it sends DISC. */
  lemma CloseRequest(l: Link, i: nat)
    requires i < |l.channels| && 12 <= l.capacity - |l.ring|
    ensures var c, a := l.channels[i], (l.channels[i].address << 2) | 0x03;
            && CloseHandler(l, i) ==
               l.(channels := l.channels[i := c.(state := Closing, closeWork := true)], transmitWork := true,
                  ring := l.ring + [0xF9, a, 0x53, 0x01, EmptyCheck(a, 0x53), 0xF9],
                  queued := l.queued + [Frame(c.address, true, true, 0x43, [])])
            && Crc8(0xFF, [a, 0x53, 0x01, EmptyCheck(a, 0x53)]) == 0xCF
  {
    var address := l.channels[i].address;
    RequestOctets(address, 0x43);
    EmptyFrame(Request(address, 0x43), (address << 2) | 0x03, 0x53);
    EmptyResidue((address << 2) | 0x03, 0x53);
    CommandStored(l, Frame(address, true, true, 0x43, []));
  }

  // ----- Transmit calls

  /**
   The result of a transmit call: nothing without flow control, -ENOMEM below forty octets of space, and otherwise as
   much as fits beside eight octets of framing, reported as a signed sixteen-bit number. Of more than 65535 octets only
   what is left in sixteen bits of their number counts.
   */
  lemma TransmitResult(l: Link, i: nat, data: seq<byte>)
    requires i < |l.channels|
    ensures var (l', ret) := PipeTransmit(l, i, data);
            var space, size := l.capacity - |l.ring|, |data| % 0x10000;
            && (!l.flow ==> ret == 0 && l' == l)
            && (l.flow && space < 40 ==> ret == -12 && l' == l)
            && (l.flow && 40 <= space ==>
                  var n := if size <= space - 8 then size else space - 8;
                  var c := l.channels[i];
                  && l' == l.(channels := l.channels[i := c.(accepted := c.accepted + data[..n])], transmitWork := true,
                              ring := l'.ring, queued := l.queued + [Frame(c.address, false, false, 0xEF, data[..n])])
                  && l'.ring == l.ring + Encode(Frame(c.address, false, false, 0xEF, data[..n]))
                  && ret == if n < 0x8000 then n else n - 0x10000)
  {
    if Admits(l) {
      var size := |data| % 0x10000;
      var n := if size <= Space(l) - 8 then size else Space(l) - 8;
      assert Truncated(l, DataFrame(l.channels[i].address, data)).data == data[..n];
    }
  }

  /** A receive call returns the oldest octets of the channel, as many as asked for or there are, and they leave it. */
  lemma ReceiveResult(c: Channel, n: nat)
    ensures var d, k := PipeReceive(c, n), if n < |c.ring| then n else |c.ring|;
            && PipeRead(c, n) == c.ring[..k] && d == c.(ring := c.ring[k..], read := c.read + c.ring[..k])
  {
  }

  /** The transmit work takes the front of the ring; it runs again while octets remain, or when the pipe took none. */
  lemma DrainResult(l: Link, n: nat)
    requires n <= |l.ring|
    ensures Drain(l, n) ==
            l.(ring := l.ring[n..], drained := l.drained + l.ring[..n], transmitWork := n == 0 || l.ring[n..] != [])
  {
  }

  // ----- Commands

  /** A valid command says of itself how many octets follow. */
  lemma CommandShape(x: Received)
    ensures IsCommand(x) <==>
            && 2 <= x.length && 2 <= |x.frame.data|
            && x.frame.data[0] & 0x01 == 0x01 && x.frame.data[1] as nat == 2 * (x.length - 2) + 1
  {
    if 2 <= |x.frame.data| {
      ValueAsNat(x.frame.data[1]);
      LowestBit(x.frame.data[0]);
    }
  }

  lemma LowestBit(b: byte)
    ensures b & 0x01 != 0 <==> b & 0x01 == 0x01
  {
  }

  /** On a link that is connected or disconnecting. */
  predicate Live(l: Link) { l.state == Connected || l.state == Disconnecting }

  /** A valid command for the link. */
  predicate Commands(l: Link, x: Received, command: byte) {
    Live(l) && x.frame.address == 0 && x.frame.kind == 0xEF && IsCommand(x) && x.frame.data[0] >> 2 == command
  }

  /** Nothing but flow control, and the ring that takes the answer, changed. */
  predicate Answered(l: Link, m: Link, flow: bool) {
    m == l.(flow := flow, ring := m.ring, queued := m.queued, transmitWork := m.transmitWork)
  }

  /** FCOFF stops the data of all channels, FCON lets it flow, MSC leaves it; each is answered and does nothing else. */
  lemma FlowCommands(l: Link, x: Received)
    requires RingsFit(l)
    ensures Commands(l, x, 0x18) ==> Answered(l, OnFrame(l, x), false)
    ensures Commands(l, x, 0x28) ==> Answered(l, OnFrame(l, x), true)
    ensures Commands(l, x, 0x38) ==> Answered(l, OnFrame(l, x), l.flow)
  {
    if Commands(l, x, 0x18) {
      AnswerTouchesTheRing(l.(flow := false), x);
    } else if Commands(l, x, 0x28) {
      AnswerTouchesTheRing(l.(flow := true), x);
    } else if Commands(l, x, 0x38) {
      AnswerTouchesTheRing(l, x);
    }
  }

  lemma AnswerTouchesTheRing(l: Link, x: Received)
    requires x.frame.data != []
    ensures var m := Acknowledge(l, x);
            m == l.(ring := m.ring, queued := m.queued, transmitWork := m.transmitWork)
  {
    CommandTouchesTheRing(l, Acknowledgement(x.frame));
  }

  /** The close down command disconnects. */
  lemma CloseDownCommand(l: Link, x: Received)
    requires RingsFit(l) && Commands(l, x, 0x30)
    ensures OnFrame(l, x) ==
            l.(state := Disconnected, flow := false, disconnectWork := false,
               connectedBit := false, disconnectedBit := true)
  {
  }

  /** UA on DLCI 0 connects a connecting link. */
  lemma ConnectAnswer(l: Link, x: Received)
    requires RingsFit(l) && x.frame.address == 0 && x.frame.kind == 0x63
    ensures OnFrame(l, x) ==
            if l.state == Connecting then
              l.(state := Connected, flow := true, connectWork := false,
                 connectedBit := true, disconnectedBit := false)
            else l
  {
  }

  /** Everything else on DLCI 0 changes nothing. */
  lemma OthersIgnored(l: Link, x: Received)
    requires RingsFit(l) && x.frame.address == 0 && x.frame.kind != 0x63
    requires !Commands(l, x, 0x18) && !Commands(l, x, 0x28) && !Commands(l, x, 0x30) && !Commands(l, x, 0x38)
    ensures OnFrame(l, x) == l
  {
  }

  // ----- Channels

  /** UA on a channel's DLCI opens an opening channel and closes a closing one; no other is changed by it. */
  lemma ChannelAnswer(l: Link, i: nat, x: Received)
    requires Good(l) && RingsFit(l) && i < |l.channels|
    requires x.frame.address == l.channels[i].address && x.frame.kind == 0x63
    ensures i < |OnFrame(l, x).channels|
    ensures var c, d := l.channels[i], OnFrame(l, x).channels[i];
            && (c.state == Opening ==> d == c.(state := Open, pipeOpen := true, openWork := false))
            && (c.state == Closing ==> d == c.(state := Closed, pipeOpen := false, closeWork := false))
            && (c.state != Opening && c.state != Closing ==> d == c)
  {
    FrameReaches(l, x, i);
  }

  /**
   A data frame's octets, those that are both stored and declared, go behind those in the ring of an open channel, as
   many as fit, and nowhere else.
   */
  lemma ChannelData(l: Link, i: nat, x: Received)
    requires Good(l) && RingsFit(l) && i < |l.channels|
    requires x.frame.address == l.channels[i].address && x.frame.kind != 0x63
    ensures i < |OnFrame(l, x).channels|
    ensures var c, d := l.channels[i], OnFrame(l, x).channels[i];
            var data := if x.length < |x.frame.data| then x.frame.data[..x.length] else x.frame.data;
            var space := c.capacity - |c.ring|;
            && d == c.(ring := d.ring, intact := d.intact)
            && (x.frame.kind == 0xEF && c.state == Open ==>
                  d.ring == c.ring + (if |data| <= space then data else data[..space]))
            && (x.frame.kind != 0xEF || c.state != Open ==> d.ring == c.ring)
            && (d.intact <==> c.intact && (x.frame.kind == 0xEF ==> c.state == Open && |data| <= space))
  {
    FrameReaches(l, x, i);
    assert x.frame.data[..|x.frame.data|] == x.frame.data;
  }

  // ----- Flow control over whole runs

  /** FCON on a live link, or the answer that connects the link. */
  predicate Reopens(l: Link, e: Event) {
    e.FrameReceived? &&
    (Commands(l, e.x, 0x28) || (l.state == Connecting && e.x.frame.address == 0 && e.x.frame.kind == 0x63))
  }

  /** FCOFF or the close down command on a live link. */
  predicate Stops(l: Link, e: Event) {
    e.FrameReceived? && (Commands(l, e.x, 0x18) || Commands(l, e.x, 0x30))
  }

  lemma FrameFlow(l: Link, x: Received)
    requires RingsFit(l) && FromReceiver(x)
    ensures OnFrame(l, x).flow ==
            if Reopens(l, FrameReceived(x)) then true else if Stops(l, FrameReceived(x)) then false else l.flow
  {
    if x.frame.address == 0 {
      if x.frame.kind == 0x63 {
        ConnectAnswer(l, x);
      } else if Commands(l, x, 0x30) {
        CloseDownCommand(l, x);
      } else if Commands(l, x, 0x18) || Commands(l, x, 0x28) || Commands(l, x, 0x38) {
        FlowCommands(l, x);
      } else {
        OthersIgnored(l, x);
      }
    }
  }

  lemma CommandKeepsFlow(l: Link, f: Frame)
    ensures TransmitCommand(l, f).flow == l.flow
  {
    CommandTouchesTheRing(l, f);
  }

  /** What makes flow control change, exactly. */
  lemma FlowExact(l: Link, e: Event)
    requires RingsFit(l) && Enabled(l, e)
    ensures Next(l, e).flow == if Reopens(l, e) then true else if Stops(l, e) then false else l.flow
  {
    match e
    case FrameReceived(x) => FrameFlow(l, x);
    case ConnectTimer => TimersKeepFlow(l);
    case DisconnectTimer => TimersKeepFlow(l);
    case OpenTimer(i) => CommandKeepsFlow(l, Request(l.channels[i].address, SABM));
    case CloseTimer(i) => CommandKeepsFlow(l, Request(l.channels[i].address, DISC));
    case _ =>
  }

  lemma TimersKeepFlow(l: Link)
    ensures ConnectHandler(l).flow == DisconnectHandler(l).flow == l.flow
  {
    CommandKeepsFlow(l.(state := Connecting), Request(0, SABM));
    CommandKeepsFlow(l.(state := Disconnecting), CLOSE_DOWN);
  }

  /** Frames that carry no data of a channel. */
  ghost predicate NoData(fs: seq<Frame>) {
    forall f <- fs :: f.kind == 0xEF ==> f.address == 0
  }

  /** Nothing was accepted from any channel, and no data frame queued. */
  ghost predicate Silenced(l: Link, l': Link) {
    && l.queued <= l'.queued && NoData(l'.queued[|l.queued|..]) && |l'.channels| == |l.channels|
    && forall i | 0 <= i < |l.channels| :: l'.channels[i].accepted == l.channels[i].accepted
  }

  lemma CommandSilent(l: Link, f: Frame)
    requires f.kind == 0xEF ==> f.address == 0
    ensures var m := TransmitCommand(l, f);
            m.channels == l.channels && l.queued <= m.queued && NoData(m.queued[|l.queued|..])
  {
    var m := TransmitCommand(l, f);
    CommandTouchesTheRing(l, f);
    assert m.queued[|l.queued|..] == [] || m.queued[|l.queued|..] == [Truncated(l, f)];
  }

  lemma SameSilenced(l: Link, l': Link)
    requires l'.queued == l.queued && |l'.channels| == |l.channels|
    requires forall i | 0 <= i < |l.channels| :: l'.channels[i].accepted == l.channels[i].accepted
    ensures Silenced(l, l')
  {
    assert l.queued[|l.queued|..] == [];
  }

  /** What is queued for a control frame is its answer, or nothing. */
  lemma ControlFrameQueues(l: Link, x: Received)
    requires RingsFit(l) && x.frame.address == 0
    ensures var m := OnFrame(l, x);
            m.queued == l.queued || m.queued == Acknowledge(l.(flow := m.flow), x).queued
  {
    FlowCommands(l, x);
    assert l.(flow := l.flow) == l;
  }

  lemma ControlFrameSilent(l: Link, x: Received)
    requires RingsFit(l) && x.frame.address == 0
    ensures Silenced(l, OnFrame(l, x))
  {
    var m := OnFrame(l, x);
    ControlFrameTouchesNoChannel(l, x);
    ControlFrameQueues(l, x);
    if m.queued == l.queued {
      SameSilenced(l, m);
    } else {
      CommandSilent(l.(flow := m.flow), Acknowledgement(x.frame));
    }
  }

  lemma ChannelAcceptsNothing(c: Channel, x: Received)
    requires |c.ring| <= c.capacity
    ensures OnChannelFrame(c, x).accepted == c.accepted
  {
  }

  lemma FrameSilent(l: Link, x: Received)
    requires Good(l) && RingsFit(l)
    ensures Silenced(l, OnFrame(l, x))
  {
    if x.frame.address == 0 {
      ControlFrameSilent(l, x);
    } else {
      ChannelCountKept(l, x);
      forall i | 0 <= i < |l.channels| ensures OnFrame(l, x).channels[i].accepted == l.channels[i].accepted {
        FrameReaches(l, x, i);
        ChannelAcceptsNothing(l.channels[i], x);
      }
      SameSilenced(l, OnFrame(l, x));
    }
  }

  lemma LinkTimersSilent(l: Link)
    ensures Silenced(l, ConnectHandler(l)) && Silenced(l, DisconnectHandler(l))
  {
    CommandSilent(l.(state := Connecting), Request(0, SABM));
    CommandSilent(l.(state := Disconnecting), CLOSE_DOWN);
  }

  lemma ChannelTimersSilent(l: Link, i: nat)
    requires i < |l.channels|
    ensures Silenced(l, OpenHandler(l, i)) && Silenced(l, CloseHandler(l, i))
  {
    CommandSilent(l, Request(l.channels[i].address, SABM));
    CommandSilent(l, Request(l.channels[i].address, DISC));
  }

  lemma ChannelSet(l: Link, i: nat, d: Channel)
    requires i < |l.channels| && d.accepted == l.channels[i].accepted
    ensures Silenced(l, l.(channels := l.channels[i := d]))
  {
    SameSilenced(l, l.(channels := l.channels[i := d]));
  }

  lemma CallSilent(l: Link, e: Event)
    requires RingsFit(l) && Enabled(l, e) && !l.flow && !e.FrameReceived?
    requires !e.ConnectTimer? && !e.DisconnectTimer? && !e.OpenTimer? && !e.CloseTimer?
    ensures Silenced(l, Next(l, e)) && (e.Transmit? ==> PipeTransmit(l, e.i, e.data) == (l, 0))
  {
    match e
    case PipeOpen(i) => ChannelSet(l, i, l.channels[i].(openWork := true));
    case PipeClose(i) => ChannelSet(l, i, l.channels[i].(closeWork := true));
    case Receive(i, n) => ChannelSet(l, i, PipeReceive(l.channels[i], n));
    case ConnectAsync => SameSilenced(l, Next(l, e));
    case DisconnectAsync => SameSilenced(l, Next(l, e));
    case Transmit(_, _) => SameSilenced(l, l);
    case DrainRing(n) => SameSilenced(l, Drain(l, n));
    case _ =>
  }

  lemma NextSilent(l: Link, e: Event)
    requires Good(l) && RingsFit(l) && Enabled(l, e) && !l.flow
    ensures Silenced(l, Next(l, e)) && (e.Transmit? ==> PipeTransmit(l, e.i, e.data) == (l, 0))
  {
    match e
    case FrameReceived(x) => FrameSilent(l, x);
    case ConnectTimer => LinkTimersSilent(l);
    case DisconnectTimer => LinkTimersSilent(l);
    case OpenTimer(i) => ChannelTimersSilent(l, i);
    case CloseTimer(i) => ChannelTimersSilent(l, i);
    case _ => CallSilent(l, e);
  }

  lemma SilencedTwice(l: Link, m: Link, n: Link)
    requires Silenced(l, m) && Silenced(m, n)
    ensures Silenced(l, n)
  {
    assert n.queued[|l.queued|..] == m.queued[|l.queued|..] + n.queued[|m.queued|..];
  }

  /** No event of a run reopens the flow. */
  ghost predicate NeverReopens(l: Link, es: seq<Event>)
    decreases |es|
  {
    es == [] || (RingsFit(l) && Enabled(l, es[0]) && !Reopens(l, es[0]) && NeverReopens(Next(l, es[0]), es[1..]))
  }

  lemma {:induction false} RunSilent(l: Link, es: seq<Event>, l': Link)
    requires Good(l) && Runs(l, es, l') && !l.flow && NeverReopens(l, es)
    ensures !l'.flow && Silenced(l, l')
    decreases |es|
  {
    if es == [] {
      SameSilenced(l, l);
    } else {
      FlowExact(l, es[0]);
      NextSilent(l, es[0]);
      NextKeepsGood(l, es[0]);
      RunSilent(Next(l, es[0]), es[1..], l');
      SilencedTwice(l, Next(l, es[0]), l');
    }
  }

  /**
   From an FCOFF or a close down on, until an FCON or the answer to a new connect request: every transmit call returns
   0, nothing is accepted from any channel, and no data frame is queued.
   */
  lemma StoppedUntilReopened(l: Link, x: Received, es: seq<Event>, l': Link, i: nat, data: seq<byte>)
    requires Good(l) && RingsFit(l) && FromReceiver(x) && Stops(l, FrameReceived(x)) && !Reopens(l, FrameReceived(x))
    requires Runs(OnFrame(l, x), es, l') && NeverReopens(OnFrame(l, x), es) && i < |l'.channels|
    ensures PipeTransmit(l', i, data) == (l', 0) && Silenced(l, l')
  {
    FrameFlow(l, x);
    FrameSilent(l, x);
    FrameKeepsGood(l, x);
    RunSilent(OnFrame(l, x), es, l');
    SilencedTwice(l, OnFrame(l, x), l');
  }

  /** An FCON lets the next call with room through. */
  lemma ReopenedAccepts(l: Link, x: Received, i: nat, data: seq<byte>)
    requires RingsFit(l) && FromReceiver(x) && Commands(l, x, 0x28) && i < |l.channels| && |data| < 0x8000
    requires 52 <= l.capacity - |l.ring| && |data| + 20 <= l.capacity - |l.ring|
    ensures i < |OnFrame(l, x).channels| && PipeTransmit(OnFrame(l, x), i, data).1 == |data|
  {
    var m := OnFrame(l, x);
    FlowCommands(l, x);
    AnswerRoom(l.(flow := true), x);
    TransmitResult(m, i, data);
  }

  lemma AnswerRoom(l: Link, x: Received)
    requires IsCommand(x) && FromReceiver(x) && |l.ring| + 12 <= l.capacity
    ensures |Acknowledge(l, x).ring| <= |l.ring| + 12
  {
    if x.length <= 4 {
      CommandStored(l, Acknowledgement(x.frame));
    }
  }
}
