/**
 Everything of the multiplexer above the octet level: admission to the transmit ring, the state of the link and
 of its channels, and what a received frame does to them.

 Each function is the effect of one handler. `queued`, `drained`, `accepted`, `read` and `intact` are histories:
 the frames ever put in the transmit ring, the octets ever taken out of it, and for each channel the octets its
 transmit calls accepted, those its receive calls returned, and whether every data frame for it was stored whole.
 */
module CmuxLink {
  import opened Crc
  import opened Errno
  import opened CmuxFrame
  import opened CmuxReceive

  const FRAME_SIZE_MAX: nat := 8
  const COMMAND_DATA_SIZE_MAX: nat := 4
  const COMMAND_FRAME_SIZE_MAX: nat := FRAME_SIZE_MAX + COMMAND_DATA_SIZE_MAX
  const DATA_FRAME_SIZE_MIN: nat := FRAME_SIZE_MAX + 8

  const COMMAND_FCOFF: byte := 0x18
  const COMMAND_FCON: byte := 0x28
  const COMMAND_CLD: byte := 0x30
  const COMMAND_MSC: byte := 0x38

  datatype LinkState = Disconnected | Connecting | Connected | Disconnecting
  datatype ChannelState = Closed | Opening | Open | Closing

  datatype Channel = Channel(address: byte, state: ChannelState, pipeOpen: bool, openWork: bool, closeWork: bool,
                             ring: seq<byte>, capacity: nat,
                             accepted: seq<byte>, read: seq<byte>, intact: bool)

  datatype Link = Link(state: LinkState, flow: bool, connectedBit: bool, disconnectedBit: bool,
                       connectWork: bool, disconnectWork: bool, transmitWork: bool,
                       ring: seq<byte>, capacity: nat, channels: seq<Channel>,
                       queued: seq<Frame>, drained: seq<byte>)

  function NewChannel(address: byte, capacity: nat): Channel {
    Channel(address, Closed, false, false, false, [], capacity, [], [], true)
  }

  function NewLink(capacity: nat): Link {
    Link(Disconnected, false, false, true, false, false, false, [], capacity, [], [], [])
  }

  // ----- Transmit ring

  function Space(l: Link): int { l.capacity - |l.ring| }

  /** A frame's data cut to the space there is. */
  function Cut(f: Frame, space: nat): (g: Frame)
    ensures |g.data| <= space
  {
    if space < |f.data| then f.(data := f.data[..space]) else f
  }

  function Truncated(l: Link, f: Frame): Frame
    requires FRAME_SIZE_MAX <= Space(l)
  {
    Cut(f, Space(l) - FRAME_SIZE_MAX)
  }

  function TransmitFrame(l: Link, f: Frame): Link
    requires FRAME_SIZE_MAX <= Space(l)
  {
    var g := Truncated(l, f);
    l.(ring := l.ring + Encode(g), queued := l.queued + [g], transmitWork := true)
  }

  function TransmitCommand(l: Link, f: Frame): Link {
    if Space(l) < COMMAND_FRAME_SIZE_MAX then l else TransmitFrame(l, f)
  }

  predicate Admits(l: Link) {
    l.flow && COMMAND_FRAME_SIZE_MAX * 2 + DATA_FRAME_SIZE_MIN <= Space(l)
  }

  /** The result goes through a signed 16-bit return type. */
  function Int16(n: nat): int {
    if n < 0x8000 then n else n - 0x10000
  }

  /** A channel's transmit call; the frame's length field has 16 bits. */
  function DataFrame(address: byte, data: seq<byte>): Frame {
    Frame(address, false, false, UIH, data[..|data| % 0x10000])
  }

  function PipeTransmit(l: Link, i: nat, data: seq<byte>): (Link, int)
    requires i < |l.channels|
  {
    var c := l.channels[i];
    if !l.flow then (l, 0)
    else if !Admits(l) then (l, -ENOMEM)
    else
      var sent := Truncated(l, DataFrame(c.address, data)).data;
      var l' := TransmitFrame(l, DataFrame(c.address, data));
      (l'.(channels := l.channels[i := c.(accepted := c.accepted + sent)]), Int16(|sent|))
  }

  /** The transmit handler: the pipe takes `n` octets from the front of the ring, or fails when `n` is 0. */
  function Drain(l: Link, n: nat): Link
    requires n <= |l.ring|
  {
    Taken(l, n).(transmitWork := n == 0 || n < |l.ring|)
  }

  function Taken(l: Link, n: nat): Link
    requires n <= |l.ring|
  {
    l.(ring := l.ring[n..], drained := l.drained + l.ring[..n])
  }

  // ----- Timers and requests

  function Request(address: byte, kind: byte): Frame { Frame(address, true, true, kind, []) }

  const CLOSE_DOWN := Frame(0, true, false, UIH, [0x03 | (COMMAND_CLD << 2), 0x01])

  function ConnectHandler(l: Link): Link {
    TransmitCommand(l.(state := Connecting), Request(0, SABM)).(connectWork := true)
  }

  function DisconnectHandler(l: Link): Link {
    TransmitCommand(l.(state := Disconnecting), CLOSE_DOWN).(disconnectWork := true)
  }

  /** A request goes out for a channel that becomes `c`. */
  function Requested(l: Link, i: nat, kind: byte, c: Channel): Link
    requires i < |l.channels|
  {
    TransmitCommand(l, Request(c.address, kind)).(channels := l.channels[i := c])
  }

  function OpenHandler(l: Link, i: nat): Link
    requires i < |l.channels|
  {
    Requested(l, i, SABM, l.channels[i].(state := Opening, openWork := true))
  }

  function CloseHandler(l: Link, i: nat): Link
    requires i < |l.channels|
  {
    Requested(l, i, DISC, l.channels[i].(state := Closing, closeWork := true))
  }

  function ScheduleOpen(l: Link, i: nat): Link
    requires i < |l.channels|
  {
    l.(channels := l.channels[i := l.channels[i].(openWork := true)])
  }

  function ScheduleClose(l: Link, i: nat): Link
    requires i < |l.channels|
  {
    l.(channels := l.channels[i := l.channels[i].(closeWork := true)])
  }

  // ----- Received frames

  /** A command header: both extension bits set, and the length in agreement. */
  predicate IsCommand(x: Received) {
    var d := x.frame.data;
    && 2 <= x.length && 2 <= |d|
    && d[0] & 0x01 != 0 && LastLengthOctet(d[1]) && FirstLength(d[1]) == x.length - 2
  }

  /** The received frame with the C/R bit of its command cleared. */
  function Acknowledgement(f: Frame): Frame
    requires f.data != []
  {
    f.(data := [f.data[0] & 0xFD] + f.data[1..])
  }

  function Acknowledge(l: Link, x: Received): Link
    requires x.frame.data != []
  {
    if COMMAND_DATA_SIZE_MAX < x.length then l else TransmitCommand(l, Acknowledgement(x.frame))
  }

  function OnControlUa(l: Link): Link {
    if l.state != Connecting then l
    else l.(state := Connected, flow := true, connectWork := false, connectedBit := true, disconnectedBit := false)
  }

  function OnCloseDown(l: Link): Link {
    l.(state := Disconnected, flow := false, disconnectWork := false, connectedBit := false, disconnectedBit := true)
  }

  function OnControlUih(l: Link, x: Received): Link {
    if (l.state != Connected && l.state != Disconnecting) || !IsCommand(x) then l
    else
      var command := x.frame.data[0] >> 2;
      if command == COMMAND_CLD then OnCloseDown(l)
      else if command == COMMAND_MSC then Acknowledge(l, x)
      else if command == COMMAND_FCON then Acknowledge(l.(flow := true), x)
      else if command == COMMAND_FCOFF then Acknowledge(l.(flow := false), x)
      else l
  }

  function OnControlFrame(l: Link, x: Received): Link {
    if x.frame.kind == UA then OnControlUa(l)
    else if x.frame.kind == UIH then OnControlUih(l, x)
    else l
  }

  /** The first channel with the address, or the number of channels when there is none. */
  function Find(cs: seq<Channel>, address: byte): (i: nat)
    ensures i <= |cs|
    ensures i < |cs| ==> cs[i].address == address
    ensures forall j | 0 <= j < i :: cs[j].address != address
  {
    if cs == [] || cs[0].address == address then 0 else Find(cs[1..], address) + 1
  }

  function OnChannelUa(c: Channel): Channel {
    match c.state
    case Opening => c.(state := Open, pipeOpen := true, openWork := false)
    case Closing => c.(state := Closed, pipeOpen := false, closeWork := false)
    case _ => c
  }

  /** The octets of a frame that are in the receive buffer and within the declared length. */
  function Payload(x: Received): seq<byte> {
    if x.length <= |x.frame.data| then x.frame.data[..x.length] else x.frame.data
  }

  function OnChannelUih(c: Channel, x: Received): Channel
    requires |c.ring| <= c.capacity
  {
    var d, space := Payload(x), c.capacity - |c.ring|;
    if c.state != Open then c.(intact := false)
    else if |d| <= space then c.(ring := c.ring + d)
    else c.(ring := c.ring + d[..space], intact := false)
  }

  function OnChannelFrame(c: Channel, x: Received): Channel
    requires |c.ring| <= c.capacity
  {
    if x.frame.kind == UA then OnChannelUa(c)
    else if x.frame.kind == UIH then OnChannelUih(c, x)
    else c
  }

  predicate RingsFit(l: Link) {
    |l.ring| <= l.capacity && forall c <- l.channels :: |c.ring| <= c.capacity
  }

  /** A frame reaches the first channel with its address, if there is one. */
  function Route(cs: seq<Channel>, x: Received): seq<Channel>
    requires forall c <- cs :: |c.ring| <= c.capacity
  {
    var i := Find(cs, x.frame.address);
    if i == |cs| then cs else cs[i := OnChannelFrame(cs[i], x)]
  }

  function OnFrame(l: Link, x: Received): Link
    requires RingsFit(l)
  {
    if x.frame.address == 0 then OnControlFrame(l, x) else l.(channels := Route(l.channels, x))
  }

  /** The receive handler takes one octet: a frame dispatched reaches the link at once. */
  function HearOctet(r: Receiver, l: Link, size: nat, b: byte): (Receiver, Link) {
    var action := CmuxReceive.Step(r.rx, size, b).1;
    (FeedByte(r, size, b), if action.Dispatch? && RingsFit(l) then OnFrame(l, action.received) else l)
  }

  function Hear(r: Receiver, l: Link, size: nat, bs: seq<byte>): (Receiver, Link)
    decreases |bs|
  {
    if bs == [] then (r, l)
    else
      var (r', l') := HearOctet(r, l, size, bs[0]);
      Hear(r', l', size, bs[1..])
  }

  /** What a channel's receive call returns: the oldest octets, as many as asked for or there are. */
  function PipeRead(c: Channel, n: nat): seq<byte> {
    if n < |c.ring| then c.ring[..n] else c.ring
  }

  function PipeReceive(c: Channel, n: nat): Channel {
    c.(ring := c.ring[|PipeRead(c, n)|..], read := c.read + PipeRead(c, n))
  }

  lemma CommandTouchesTheRing(l: Link, f: Frame)
    ensures var m := TransmitCommand(l, f);
            m == l.(ring := m.ring, queued := m.queued, transmitWork := m.transmitWork)
  {
  }

  lemma ControlFrameTouchesNoChannel(l: Link, x: Received)
    ensures OnControlFrame(l, x).drained == l.drained && OnControlFrame(l, x).channels == l.channels
  {
    if x.frame.kind == UIH && IsCommand(x) && x.length <= COMMAND_DATA_SIZE_MAX {
      var command := x.frame.data[0] >> 2;
      var m := l.(flow := command == COMMAND_FCON || (command == COMMAND_MSC && l.flow));
      CommandTouchesTheRing(m, Acknowledgement(x.frame));
      assert l.(flow := l.flow) == l;
    }
  }

  // ----- Runs

  datatype Event =
    | ConnectAsync | DisconnectAsync | ConnectTimer | DisconnectTimer
    | PipeOpen(i: nat) | PipeClose(i: nat) | OpenTimer(i: nat) | CloseTimer(i: nat)
    | FrameReceived(x: Received)
    | Transmit(i: nat, data: seq<byte>) | Receive(i: nat, n: nat) | DrainRing(n: nat)

  /** What the receiver dispatches: consistent lengths, unless a receive buffer of 126 octets or more ran full. */
  predicate FromReceiver(x: Received) {
    x.length == |x.frame.data| || x.length == 0 || 126 < x.length
  }

  /** Timers fire only when scheduled, calls are made on existing channels. */
  predicate Enabled(l: Link, e: Event) {
    match e
    case ConnectTimer => l.connectWork
    case DisconnectTimer => l.disconnectWork
    case PipeOpen(i) => i < |l.channels|
    case PipeClose(i) => i < |l.channels|
    case OpenTimer(i) => i < |l.channels| && l.channels[i].openWork
    case CloseTimer(i) => i < |l.channels| && l.channels[i].closeWork
    case Transmit(i, _) => i < |l.channels|
    case Receive(i, _) => i < |l.channels|
    case DrainRing(n) => l.transmitWork && n <= |l.ring|
    case FrameReceived(x) => FromReceiver(x)
    case _ => true
  }

  function Next(l: Link, e: Event): Link
    requires RingsFit(l) && Enabled(l, e)
  {
    match e
    case ConnectAsync => l.(connectWork := true)
    case DisconnectAsync => l.(disconnectWork := true)
    case ConnectTimer => ConnectHandler(l)
    case DisconnectTimer => DisconnectHandler(l)
    case PipeOpen(i) => ScheduleOpen(l, i)
    case PipeClose(i) => ScheduleClose(l, i)
    case OpenTimer(i) => OpenHandler(l, i)
    case CloseTimer(i) => CloseHandler(l, i)
    case FrameReceived(x) => OnFrame(l, x)
    case Transmit(i, data) => PipeTransmit(l, i, data).0
    case Receive(i, n) => l.(channels := l.channels[i := PipeReceive(l.channels[i], n)])
    case DrainRing(n) => Drain(l, n)
  }
}
