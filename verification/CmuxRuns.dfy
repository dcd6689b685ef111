/** What every run of a multiplexer endpoint keeps. */
module CmuxRuns {
  import opened Crc
  import opened Sequences
  import opened CmuxFrame
  import opened CmuxReceive
  import opened CmuxLink

  // ----- The invariant

  /** Everything taken out of the ring and everything still in it are whole frames, and a filled ring is scheduled. */
  ghost predicate WholeFrames(l: Link) {
    && |l.ring| <= l.capacity
    && l.drained + l.ring == Encodes(l.queued)
    && (l.ring != [] ==> l.transmitWork)
    && forall f <- l.queued :: Sendable(f)
  }

  predicate Sendable(f: Frame) {
    f.address < 64 && f.kind & 0x10 == 0 && (f.kind == UIH || f.data == [])
  }

  /** The link's state, its flow control and its event bits agree; an unfinished change has its timer running. */
  predicate LinkConsistent(l: Link) {
    && (l.state == Disconnected ==> !l.flow)
    && l.connectedBit != l.disconnectedBit
    && (l.state == Connected ==> l.connectedBit)
    && (l.state == Disconnected ==> l.disconnectedBit)
    && (l.state == Connecting ==> l.connectWork)
    && (l.state == Disconnecting ==> l.disconnectWork)
  }

  predicate ChannelConsistent(c: Channel) {
    && |c.ring| <= c.capacity && 0 < c.address < 64
    && (c.state == Open ==> c.pipeOpen) && (c.state == Closed ==> !c.pipeOpen)
    && (c.state == Opening ==> c.openWork) && (c.state == Closing ==> c.closeWork)
  }

  predicate Distinct(cs: seq<Channel>) {
    forall i, j | 0 <= i < j < |cs| :: cs[i].address != cs[j].address
  }

  /** The data octets of the frames for one address, in order. */
  function StreamOf(fs: seq<Frame>, address: byte): seq<byte> {
    if fs == [] then []
    else StreamOf(fs[..|fs| - 1], address) + DataFor(fs[|fs| - 1], address)
  }

  function DataFor(f: Frame, address: byte): seq<byte> {
    if f.kind == UIH && f.address == address then f.data else []
  }

  /** The frames queued for a channel carry exactly what its transmit calls accepted. */
  ghost predicate Accounted(l: Link) {
    forall c <- l.channels :: c.accepted == StreamOf(l.queued, c.address)
  }

  ghost predicate Good(l: Link) {
    && WholeFrames(l) && LinkConsistent(l)
    && (forall c <- l.channels :: ChannelConsistent(c)) && Distinct(l.channels)
    && Accounted(l)
  }

  // ----- Queueing a frame

  lemma StreamSnoc(fs: seq<Frame>, f: Frame, address: byte)
    ensures StreamOf(fs + [f], address) == StreamOf(fs, address) + DataFor(f, address)
  {
    assert (fs + [f])[..|fs|] == fs;
  }

  lemma TruncatedFits(l: Link, f: Frame)
    requires FRAME_SIZE_MAX <= Space(l)
    ensures |Encode(Truncated(l, f))| <= Space(l)
  {
  }

  lemma SendableSnoc(fs: seq<Frame>, g: Frame)
    requires Sendable(g) && forall f <- fs :: Sendable(f)
    ensures forall f <- fs + [g] :: Sendable(f)
  {
  }

  lemma AppendKeepsWholeFrames(l: Link, g: Frame)
    requires WholeFrames(l) && Sendable(g) && |Encode(g)| <= Space(l)
    ensures WholeFrames(l.(ring := l.ring + Encode(g), queued := l.queued + [g], transmitWork := true))
  {
    EncodesAppend(l.queued, g);
    Associative(l.drained, l.ring, Encode(g));
    SendableSnoc(l.queued, g);
  }

  /** A frame put in the ring is never cut short there. */
  lemma TransmitKeepsWholeFrames(l: Link, f: Frame)
    requires WholeFrames(l) && FRAME_SIZE_MAX <= Space(l) && Sendable(f)
    ensures var l' := TransmitFrame(l, f);
            && WholeFrames(l') && l'.queued == l.queued + [Truncated(l, f)]
            && |l'.ring| == |l.ring| + |Encode(Truncated(l, f))| <= l.capacity
  {
    var g := Truncated(l, f);
    TruncatedFits(l, f);
    AppendKeepsWholeFrames(l, g);
  }

  /** A command frame goes in whole or not at all, and carries nothing for a channel. */
  lemma CommandAllOrNothing(l: Link, f: Frame)
    requires WholeFrames(l) && Sendable(f) && |f.data| <= COMMAND_DATA_SIZE_MAX
    requires f.kind == UIH ==> f.address == 0
    ensures var l' := TransmitCommand(l, f);
            && WholeFrames(l') && (l' == l || l'.queued == l.queued + [f])
            && l' == l.(ring := l'.ring, queued := l'.queued, transmitWork := l'.transmitWork)
            && forall a: byte | a != 0 :: StreamOf(l'.queued, a) == StreamOf(l.queued, a)
  {
    if COMMAND_FRAME_SIZE_MAX <= Space(l) {
      TransmitKeepsWholeFrames(l, f);
      assert Truncated(l, f) == f;
      forall a: byte | a != 0 ensures StreamOf(l.queued + [f], a) == StreamOf(l.queued, a) {
        StreamSnoc(l.queued, f, a);
      }
    }
  }

  /** What a step does that sends at most one command and changes the link's own flags. */
  ghost predicate SendsAtMostACommand(l: Link, l': Link) {
    && WholeFrames(l') && l'.channels == l.channels
    && forall a: byte | a != 0 :: StreamOf(l'.queued, a) == StreamOf(l.queued, a)
  }

  lemma CommandStep(l: Link, m: Link, f: Frame)
    requires WholeFrames(l) && m == l.(state := m.state, flow := m.flow)
    requires Sendable(f) && |f.data| <= COMMAND_DATA_SIZE_MAX && (f.kind == UIH ==> f.address == 0)
    ensures SendsAtMostACommand(l, TransmitCommand(m, f))
    ensures LinkConsistent(m) ==> LinkConsistent(TransmitCommand(m, f))
  {
    CommandAllOrNothing(m, f);
  }

  lemma StillGood(l: Link, l': Link)
    requires Good(l) && SendsAtMostACommand(l, l') && LinkConsistent(l')
    ensures Good(l')
  {
  }

  // ----- Each event

  lemma ConnectKeepsGood(l: Link)
    requires Good(l)
    ensures Good(ConnectHandler(l))
  {
    CommandStep(l, l.(state := Connecting), Request(0, SABM));
    StillGood(l, ConnectHandler(l));
  }

  lemma DisconnectKeepsGood(l: Link)
    requires Good(l)
    ensures Good(DisconnectHandler(l))
  {
    CommandStep(l, l.(state := Disconnecting), CLOSE_DOWN);
    StillGood(l, DisconnectHandler(l));
  }

  lemma ChannelChanged(l: Link, l': Link, i: nat, c: Channel)
    requires Good(l) && i < |l.channels| && SendsAtMostACommand(l, l'.(channels := l.channels))
    requires LinkConsistent(l') && l'.channels == l.channels[i := c]
    requires ChannelConsistent(c) && c.address == l.channels[i].address && c.accepted == l.channels[i].accepted
    ensures Good(l')
  {
    forall d <- l'.channels ensures ChannelConsistent(d) && d.accepted == StreamOf(l'.queued, d.address) {
      assert d == c || d in l.channels;
      assert l.channels[i] in l.channels;
    }
  }

  lemma RequestKeepsGood(l: Link, i: nat, kind: byte, c: Channel)
    requires Good(l) && i < |l.channels| && kind in {SABM, DISC}
    requires ChannelConsistent(c) && c.address == l.channels[i].address && c.accepted == l.channels[i].accepted
    ensures Good(TransmitCommand(l, Request(c.address, kind)).(channels := l.channels[i := c]))
  {
    assert SABM & 0x10 == 0 && DISC & 0x10 == 0;
    var m := TransmitCommand(l, Request(c.address, kind));
    CommandStep(l, l, Request(c.address, kind));
    assert m.(channels := l.channels[i := c]).(channels := l.channels) == m;
    ChannelChanged(l, m.(channels := l.channels[i := c]), i, c);
  }

  lemma ChannelTimersKeepGood(l: Link, i: nat)
    requires Good(l) && i < |l.channels|
    ensures Good(OpenHandler(l, i)) && Good(CloseHandler(l, i))
  {
    var c := l.channels[i];
    assert c in l.channels;
    RequestKeepsGood(l, i, SABM, c.(state := Opening, openWork := true));
    RequestKeepsGood(l, i, DISC, c.(state := Closing, closeWork := true));
  }

  lemma AcknowledgeKeepsGood(l: Link, flow: bool, x: Received)
    requires Good(l) && FromReceiver(x) && x.frame.address == 0 && x.frame.kind == UIH && IsCommand(x)
    requires l.state != Disconnected
    ensures Good(Acknowledge(l.(flow := flow), x))
  {
    var m := l.(flow := flow);
    assert LinkConsistent(m);
    if COMMAND_DATA_SIZE_MAX < x.length {
      StillGood(l, m);
    } else {
      var a := Acknowledgement(x.frame);
      assert UIH & 0x10 == 0;
      CommandStep(l, m, a);
      StillGood(l, TransmitCommand(m, a));
    }
  }

  lemma CommandKeepsGood(l: Link, x: Received)
    requires Good(l) && FromReceiver(x) && x.frame.address == 0 && x.frame.kind == UIH
    ensures Good(OnControlUih(l, x))
  {
    if IsCommand(x) && (l.state == Connected || l.state == Disconnecting) {
      var command := x.frame.data[0] >> 2;
      if command == COMMAND_CLD {
        StillGood(l, OnCloseDown(l));
      } else {
        AcknowledgeKeepsGood(l, command == COMMAND_FCON || (command == COMMAND_MSC && l.flow), x);
        assert l.(flow := l.flow) == l;
      }
    }
  }

  lemma ControlFrameKeepsGood(l: Link, x: Received)
    requires Good(l) && FromReceiver(x) && x.frame.address == 0
    ensures Good(OnControlFrame(l, x))
  {
    if x.frame.kind == UIH {
      CommandKeepsGood(l, x);
    } else {
      StillGood(l, OnControlUa(l));
    }
  }

  lemma ChannelFrameConsistent(c: Channel, x: Received)
    requires ChannelConsistent(c)
    ensures var c' := OnChannelFrame(c, x);
            ChannelConsistent(c') && c'.address == c.address && c'.accepted == c.accepted && c'.read == c.read
  {
  }

  lemma FrameKeepsGood(l: Link, x: Received)
    requires Good(l) && FromReceiver(x)
    ensures Good(OnFrame(l, x))
  {
    if x.frame.address == 0 {
      ControlFrameKeepsGood(l, x);
    } else {
      var i := Find(l.channels, x.frame.address);
      if i < |l.channels| {
        var c := l.channels[i];
        assert c in l.channels;
        ChannelFrameConsistent(c, x);
        var c' := OnChannelFrame(c, x);
        ChannelChanged(l, l.(channels := l.channels[i := c']), i, c');
      }
    }
  }

  /**
   The octets a transmit call accepts are a prefix of what it was given, they join the channel's own stream and no
   other channel's, and nothing at all is accepted while the link is disconnected.
   */
  lemma TransmitAccepts(l: Link, i: nat, data: seq<byte>) returns (n: nat)
    requires Good(l) && i < |l.channels|
    ensures var (l', ret) := PipeTransmit(l, i, data);
            var c := l.channels[i];
            && n <= |data| && l'.channels == l.channels[i := c.(accepted := c.accepted + data[..n])]
            && (Admits(l) ==> ret == Int16(n)) && (!Admits(l) ==> n == 0 && l' == l && ret <= 0)
            && (0 < n ==> l.state != Disconnected)
            && forall a: byte :: StreamOf(l'.queued, a) ==
                                 StreamOf(l.queued, a) + if a == c.address then data[..n] else []
  {
    var c := l.channels[i];
    if Admits(l) {
      var g := Truncated(l, DataFrame(c.address, data));
      n := |g.data|;
      assert g.data == data[..n];
      forall a: byte ensures StreamOf(l.queued + [g], a) == StreamOf(l.queued, a) + DataFor(g, a) {
        StreamSnoc(l.queued, g, a);
      }
    } else {
      n := 0;
      assert c.accepted + data[..0] == c.accepted;
    }
  }

  /** Octets that a data frame takes in the ring, when it is not cut. */
  function DataFrameSize(data: seq<byte>): nat {
    |data| + if |data| <= 127 then 6 else 7
  }

  /**
   Admission asks for the room of two command frames beside the smallest data frame, and keeps none of it: after an
   admitted call there is room for `k` command frames exactly when there was room for them and the whole data frame.
   */
  lemma CommandRoomExact(l: Link, i: nat, data: seq<byte>, k: nat)
    requires Admits(l) && |l.ring| <= l.capacity && i < |l.channels| && |data| < 0x10000 && 0 < k
    ensures k * COMMAND_FRAME_SIZE_MAX <= Space(PipeTransmit(l, i, data).0) <==>
            DataFrameSize(data) + k * COMMAND_FRAME_SIZE_MAX <= Space(l)
  {
    var f := DataFrame(l.channels[i].address, data);
    assert f.data == data;
    if Space(l) - FRAME_SIZE_MAX < |data| {
      assert Space(PipeTransmit(l, i, data).0) < COMMAND_FRAME_SIZE_MAX;
    } else {
      assert |Encode(Truncated(l, f))| == DataFrameSize(data);
    }
  }

  /** The next command is refused, whatever it is, exactly when the data frame left no room for it. */
  lemma CommandAfterDataExact(l: Link, i: nat, data: seq<byte>, f: Frame)
    requires Admits(l) && |l.ring| <= l.capacity && i < |l.channels| && |data| < 0x10000
    ensures var l' := PipeTransmit(l, i, data).0;
            TransmitCommand(l', f) == l' <==> Space(l) < DataFrameSize(data) + COMMAND_FRAME_SIZE_MAX
  {
    var l' := PipeTransmit(l, i, data).0;
    CommandRoomExact(l, i, data, 1);
    if COMMAND_FRAME_SIZE_MAX <= Space(l') {
      assert |TransmitCommand(l', f).queued| == |l'.queued| + 1;
    }
  }

  lemma ChannelAfterTransmit(l: Link, i: nat, data: seq<byte>, j: nat)
    requires Good(l) && i < |l.channels| && j < |l.channels|
    ensures var l' := PipeTransmit(l, i, data).0;
            var d := l'.channels[j];
            |l'.channels| == |l.channels| && d == l.channels[j].(accepted := d.accepted)
            && ChannelConsistent(d) && d.accepted == StreamOf(l'.queued, d.address)
  {
    var n := TransmitAccepts(l, i, data);
    assert l.channels[j] in l.channels;
    assert l.channels[j].accepted == StreamOf(l.queued, l.channels[j].address);
  }

  lemma TransmitKeepsChannels(l: Link, i: nat, data: seq<byte>)
    requires Good(l) && i < |l.channels|
    ensures var l' := PipeTransmit(l, i, data).0;
            (forall c <- l'.channels :: ChannelConsistent(c)) && Distinct(l'.channels) && Accounted(l')
  {
    var l' := PipeTransmit(l, i, data).0;
    forall j | 0 <= j < |l.channels|
      ensures |l'.channels| == |l.channels| && l'.channels[j].address == l.channels[j].address
      ensures ChannelConsistent(l'.channels[j])
      ensures l'.channels[j].accepted == StreamOf(l'.queued, l'.channels[j].address)
    {
      ChannelAfterTransmit(l, i, data, j);
    }
    assert |l'.channels| == |l.channels| by {
      ChannelAfterTransmit(l, i, data, i);
    }
  }

  lemma TransmitKeepsGood(l: Link, i: nat, data: seq<byte>)
    requires Good(l) && i < |l.channels|
    ensures Good(PipeTransmit(l, i, data).0)
  {
    var c := l.channels[i];
    assert c in l.channels;
    TransmitKeepsChannels(l, i, data);
    if Admits(l) {
      assert UIH & 0x10 == 0;
      TransmitKeepsWholeFrames(l, DataFrame(c.address, data));
    }
  }

  lemma DrainKeepsGood(l: Link, n: nat)
    requires Good(l) && n <= |l.ring|
    ensures Good(Drain(l, n))
  {
    assert l.drained + l.ring[..n] + l.ring[n..] == l.drained + l.ring;
  }

  lemma NextKeepsGood(l: Link, e: Event)
    requires Good(l) && RingsFit(l) && Enabled(l, e)
    ensures Good(Next(l, e))
  {
    match e
    case ConnectAsync =>
    case DisconnectAsync =>
    case ConnectTimer => ConnectKeepsGood(l);
    case DisconnectTimer => DisconnectKeepsGood(l);
    case PipeOpen(i) =>
      assert l.channels[i] in l.channels;
      ChannelChanged(l, Next(l, e), i, l.channels[i].(openWork := true));
    case PipeClose(i) =>
      assert l.channels[i] in l.channels;
      ChannelChanged(l, Next(l, e), i, l.channels[i].(closeWork := true));
    case OpenTimer(i) => ChannelTimersKeepGood(l, i);
    case CloseTimer(i) => ChannelTimersKeepGood(l, i);
    case FrameReceived(x) => FrameKeepsGood(l, x);
    case Transmit(i, data) => TransmitKeepsGood(l, i, data);
    case Receive(i, n) =>
      assert l.channels[i] in l.channels;
      ChannelChanged(l, Next(l, e), i, PipeReceive(l.channels[i], n));
    case DrainRing(n) => DrainKeepsGood(l, n);
  }

  // ----- Whole runs

  ghost predicate Runs(l: Link, es: seq<Event>, l': Link)
    decreases |es|
  {
    if es == [] then l' == l
    else RingsFit(l) && Enabled(l, es[0]) && Runs(Next(l, es[0]), es[1..], l')
  }

  lemma {:induction false} RunKeepsGood(l: Link, es: seq<Event>, l': Link)
    requires Good(l) && Runs(l, es, l')
    ensures Good(l')
    decreases |es|
  {
    if es != [] {
      NextKeepsGood(l, es[0]);
      RunKeepsGood(Next(l, es[0]), es[1..], l');
    }
  }

  /** A freshly initialised multiplexer whose channels have distinct addresses from 1 to 63. */
  predicate Fresh(l: Link) {
    && l == NewLink(l.capacity).(channels := l.channels)
    && (forall c <- l.channels :: c == NewChannel(c.address, c.capacity) && 0 < c.address < 64)
    && Distinct(l.channels)
  }

  /** Every run from initialisation keeps the invariant, whatever is received, called, fired or accepted by the bus. */
  lemma EveryRunIsGood(l: Link, es: seq<Event>, l': Link)
    requires Fresh(l) && Runs(l, es, l')
    ensures Good(l')
  {
    assert Encodes([]) == [] && StreamOf([], 0) == [];
    forall c <- l.channels ensures c.accepted == StreamOf(l.queued, c.address) {
    }
    RunKeepsGood(l, es, l');
  }

  // ----- Acknowledgements

  predicate Acknowledged(x: Received) {
    IsCommand(x) && x.frame.data[0] >> 2 in {COMMAND_MSC, COMMAND_FCON, COMMAND_FCOFF}
  }

  lemma AcknowledgementQueued(l: Link, flow: bool, x: Received)
    requires |l.ring| <= l.capacity && x.frame.data != []
    requires x.length == |x.frame.data| <= COMMAND_DATA_SIZE_MAX && COMMAND_FRAME_SIZE_MAX <= Space(l)
    ensures var a := Acknowledgement(x.frame);
            var m := Acknowledge(l.(flow := flow), x);
            m.queued == l.queued + [a] && m.ring == l.ring + Encode(a)
  {
    assert Truncated(l.(flow := flow), Acknowledgement(x.frame)) == Acknowledgement(x.frame);
  }

  /**
   On a live link with room for it, a command is answered with one frame, which any peer reads back as the command
   itself with its C/R bit cleared.
   */
  lemma AcknowledgementDecodes(l: Link, x: Received, r: Receiver, size: nat)
    requires Good(l) && x.frame.address == 0 && x.frame.kind == UIH
    requires x.length == |x.frame.data| <= COMMAND_DATA_SIZE_MAX
    requires l.state == Connected || l.state == Disconnecting
    requires Acknowledged(x) && COMMAND_FRAME_SIZE_MAX <= Space(l)
    requires r.rx.state == Sof && COMMAND_DATA_SIZE_MAX <= size
    ensures var a := x.frame.(data := [x.frame.data[0] & 0xFD] + x.frame.data[1..]);
            && OnFrame(l, x).queued == l.queued + [a]
            && OnFrame(l, x).ring == l.ring + Encode(a)
            && Feed(r, size, Encode(a)).frames == r.frames + [Received(a, x.length)]
            && a.data[0] >> 2 == x.frame.data[0] >> 2 && !CrOf(a.data[0])
  {
    AcknowledgementReadBack(x.frame, r, size);
    var command := x.frame.data[0] >> 2;
    AcknowledgementQueued(l, command == COMMAND_FCON || (command == COMMAND_MSC && l.flow), x);
    assert l.(flow := l.flow) == l;
  }

  lemma AcknowledgementReadBack(f: Frame, r: Receiver, size: nat)
    requires f.address == 0 && f.kind == UIH && 0 < |f.data| <= COMMAND_DATA_SIZE_MAX <= size
    requires r.rx.state == Sof
    ensures var a := Acknowledgement(f);
            && Feed(r, size, Encode(a)).frames == r.frames + [Received(a, |f.data|)]
            && a.data[0] >> 2 == f.data[0] >> 2 && !CrOf(a.data[0])
  {
    assert UIH & 0x10 == 0;
    FrameRoundTrip(r, size, Acknowledgement(f));
    ClearedBit(f.data[0]);
  }

  lemma ClearedBit(b: byte)
    ensures (b & 0xFD) >> 2 == b >> 2 && (b & 0xFD) & 0x02 == 0
  {
  }
}
