/** What reaches a channel: the frames dispatched, the channel they are for, and the octets it delivers. */
module CmuxChannels {
  import opened Crc
  import opened Sequences
  import opened CmuxFrame
  import opened CmuxReceive
  import opened CmuxLink
  import opened CmuxRuns

  // ----- What was delivered

  function PayloadFor(x: Received, address: byte): seq<byte> {
    if x.frame.kind == UIH && x.frame.address == address then Payload(x) else []
  }

  function ReceivedStream(xs: seq<Received>, address: byte): seq<byte> {
    if xs == [] then []
    else ReceivedStream(xs[..|xs| - 1], address) + PayloadFor(xs[|xs| - 1], address)
  }

  lemma ReceivedSnoc(xs: seq<Received>, x: Received, address: byte)
    ensures ReceivedStream(xs + [x], address) == ReceivedStream(xs, address) + PayloadFor(x, address)
  {
    assert (xs + [x])[..|xs|] == xs;
  }

  function Delivered(c: Channel): seq<byte> { c.read + c.ring }

  ghost predicate ChannelsDeliver(l: Link, xs: seq<Received>) {
    forall c <- l.channels :: c.intact ==> Delivered(c) == ReceivedStream(xs, c.address)
  }

  // ----- Frames and channels

  lemma GoodFits(l: Link)
    requires Good(l)
    ensures RingsFit(l)
  {
  }

  // ----- What events do to histories and channels

  ghost predicate Short(fs: seq<Frame>, limit: nat) {
    forall f <- fs :: |f.data| <= limit
  }

  /** A channel keeps its address and capacity, has read no less, and stays deprived of what it missed. */
  predicate ChannelGrows(c: Channel, d: Channel) {
    && d.address == c.address && d.capacity == c.capacity && (d.intact ==> c.intact) && |c.read| <= |d.read|
  }

  /** Histories only grow, by frames of no more than `limit` octets. */
  ghost predicate Grows(l: Link, l': Link, limit: nat) {
    && l.queued <= l'.queued && Short(l'.queued[|l.queued|..], limit)
    && l.drained <= l'.drained && |l'.channels| == |l.channels|
    && forall i | 0 <= i < |l.channels| :: ChannelGrows(l.channels[i], l'.channels[i])
  }

  /** A channel keeps what it delivered, and misses nothing. */
  predicate ChannelMoves(c: Channel, d: Channel) {
    ChannelGrows(c, d) && d.intact == c.intact && Delivered(d) == Delivered(c)
  }

  /** An event that delivers nothing. */
  ghost predicate Moves(l: Link, l': Link, limit: nat) {
    Grows(l, l', limit) && forall i | 0 <= i < |l.channels| :: ChannelMoves(l.channels[i], l'.channels[i])
  }

  lemma RingMoves(l: Link, l': Link, limit: nat)
    requires l'.channels == l.channels && l'.drained == l.drained
    requires l.queued <= l'.queued && Short(l'.queued[|l.queued|..], limit)
    ensures Moves(l, l', limit)
  {
  }

  lemma OneChannelMoves(l: Link, l': Link, i: nat, d: Channel, limit: nat)
    requires i < |l.channels| && l'.channels == l.channels[i := d] && ChannelMoves(l.channels[i], d)
    requires l'.drained == l.drained && l.queued <= l'.queued && Short(l'.queued[|l.queued|..], limit)
    ensures Moves(l, l', limit)
  {
  }

  /** A command changes the ring, what was queued, and the transmit work. */
  lemma CommandQueues(l: Link, f: Frame, limit: nat)
    requires |f.data| <= limit
    ensures var m := TransmitCommand(l, f);
            && m == l.(ring := m.ring, queued := m.queued, transmitWork := m.transmitWork)
            && l.queued <= m.queued && Short(m.queued[|l.queued|..], limit)
  {
    var m := TransmitCommand(l, f);
    assert m.queued[|l.queued|..] == [] || m.queued[|l.queued|..] == [Truncated(l, f)];
  }

  lemma ConnectMoves(l: Link, limit: nat)
    ensures Moves(l, ConnectHandler(l), limit)
  {
    CommandQueues(l.(state := Connecting), Request(0, SABM), limit);
    RingMoves(l, ConnectHandler(l), limit);
  }

  lemma DisconnectMoves(l: Link, limit: nat)
    requires COMMAND_DATA_SIZE_MAX <= limit
    ensures Moves(l, DisconnectHandler(l), limit)
  {
    CommandQueues(l.(state := Disconnecting), CLOSE_DOWN, limit);
    RingMoves(l, DisconnectHandler(l), limit);
  }

  lemma RequestMoves(l: Link, i: nat, kind: byte, d: Channel, limit: nat)
    requires i < |l.channels| && ChannelMoves(l.channels[i], d)
    ensures Moves(l, Requested(l, i, kind, d), limit)
  {
    CommandQueues(l, Request(d.address, kind), limit);
    OneChannelMoves(l, Requested(l, i, kind, d), i, d, limit);
  }

  lemma SetMoves(l: Link, i: nat, d: Channel, limit: nat)
    requires i < |l.channels| && ChannelMoves(l.channels[i], d)
    ensures Moves(l, l.(channels := l.channels[i := d]), limit)
  {
    assert l.queued[|l.queued|..] == [];
    OneChannelMoves(l, l.(channels := l.channels[i := d]), i, d, limit);
  }

  lemma TransmitMoves(l: Link, i: nat, data: seq<byte>, limit: nat)
    requires i < |l.channels| && |data| <= limit
    ensures Moves(l, PipeTransmit(l, i, data).0, limit)
  {
    var l' := PipeTransmit(l, i, data).0;
    if Admits(l) {
      assert l'.queued[|l.queued|..] == [Truncated(l, DataFrame(l.channels[i].address, data))];
      OneChannelMoves(l, l', i, l'.channels[i], limit);
    } else {
      assert l.queued[|l.queued|..] == [];
      RingMoves(l, l', limit);
    }
  }

  lemma ReadMoves(c: Channel, n: nat)
    ensures ChannelMoves(c, PipeReceive(c, n))
  {
    var k := |PipeRead(c, n)|;
    assert c.ring == c.ring[..k] + c.ring[k..];
    Associative(c.read, c.ring[..k], c.ring[k..]);
  }

  lemma SameMoves(l: Link, l': Link, limit: nat)
    requires l'.channels == l.channels && l.drained <= l'.drained && l'.queued == l.queued
    ensures Moves(l, l', limit)
  {
    assert l.queued[|l.queued|..] == [];
  }

  lemma NextMoves(l: Link, e: Event, limit: nat)
    requires RingsFit(l) && Enabled(l, e) && !e.FrameReceived?
    requires COMMAND_DATA_SIZE_MAX <= limit && (e.Transmit? ==> |e.data| <= limit)
    ensures Moves(l, Next(l, e), limit)
  {
    match e
    case ConnectAsync => SameMoves(l, Next(l, e), limit);
    case DisconnectAsync => SameMoves(l, Next(l, e), limit);
    case ConnectTimer => ConnectMoves(l, limit);
    case DisconnectTimer => DisconnectMoves(l, limit);
    case PipeOpen(i) => SetMoves(l, i, l.channels[i].(openWork := true), limit);
    case PipeClose(i) => SetMoves(l, i, l.channels[i].(closeWork := true), limit);
    case OpenTimer(i) => RequestMoves(l, i, SABM, l.channels[i].(state := Opening, openWork := true), limit);
    case CloseTimer(i) => RequestMoves(l, i, DISC, l.channels[i].(state := Closing, closeWork := true), limit);
    case Transmit(i, data) => TransmitMoves(l, i, data, limit);
    case Receive(i, n) =>
      ReadMoves(l.channels[i], n);
      SetMoves(l, i, PipeReceive(l.channels[i], n), limit);
    case DrainRing(n) => SameMoves(l, Drain(l, n), limit);
    case FrameReceived(_) =>
  }

  lemma {:induction false} GrowsTwice(l: Link, m: Link, n: Link, limit: nat)
    requires Grows(l, m, limit) && Grows(m, n, limit)
    ensures Grows(l, n, limit)
  {
    assert n.queued[|l.queued|..] == m.queued[|l.queued|..] + n.queued[|m.queued|..];
    forall i | 0 <= i < |l.channels| ensures ChannelGrows(l.channels[i], n.channels[i]) {
      assert ChannelGrows(l.channels[i], m.channels[i]) && ChannelGrows(m.channels[i], n.channels[i]);
    }
  }

  /** Only received frames deliver anything. */
  lemma MovesDeliverNothing(l: Link, l': Link, xs: seq<Received>, limit: nat)
    requires Moves(l, l', limit) && ChannelsDeliver(l, xs)
    ensures ChannelsDeliver(l', xs)
  {
    forall c <- l'.channels ensures c.intact ==> Delivered(c) == ReceivedStream(xs, c.address) {
      var j :| 0 <= j < |l'.channels| && l'.channels[j] == c;
      assert ChannelMoves(l.channels[j], c) && l.channels[j] in l.channels;
    }
  }

  lemma ChannelUihDelivers(c: Channel, x: Received)
    requires |c.ring| <= c.capacity
    ensures var c' := OnChannelUih(c, x);
            c'.address == c.address &&
            (c'.intact ==> c.intact && Delivered(c') == Delivered(c) + Payload(x))
  {
    if c.state == Open && |Payload(x)| <= c.capacity - |c.ring| {
      Associative(c.read, c.ring, Payload(x));
    }
  }

  lemma ChannelFrameDelivers(c: Channel, x: Received)
    requires |c.ring| <= c.capacity && x.frame.address == c.address
    ensures var c' := OnChannelFrame(c, x);
            c'.address == c.address &&
            (c'.intact ==> c.intact && Delivered(c') == Delivered(c) + PayloadFor(x, c.address))
  {
    ChannelUihDelivers(c, x);
    assert Delivered(c) + [] == Delivered(c);
  }

  lemma ChannelCountKept(l: Link, x: Received)
    requires RingsFit(l)
    ensures |OnFrame(l, x).channels| == |l.channels|
  {
    ControlFrameTouchesNoChannel(l, x);
  }

  /** A frame reaches the channel with its address and no other. */
  lemma FrameReaches(l: Link, x: Received, j: nat)
    requires Good(l) && RingsFit(l) && j < |l.channels|
    ensures j < |OnFrame(l, x).channels| && |l.channels[j].ring| <= l.channels[j].capacity
    ensures OnFrame(l, x).channels[j] ==
            if x.frame.address == l.channels[j].address then OnChannelFrame(l.channels[j], x) else l.channels[j]
  {
    assert l.channels[j] in l.channels;
    if x.frame.address == 0 {
      ControlFrameTouchesNoChannel(l, x);
    } else if x.frame.address == l.channels[j].address {
      assert j == Find(l.channels, x.frame.address);
    }
  }

  lemma FrameDelivers(l: Link, x: Received, xs: seq<Received>)
    requires Good(l) && RingsFit(l) && ChannelsDeliver(l, xs)
    ensures ChannelsDeliver(OnFrame(l, x), xs + [x])
  {
    var l' := OnFrame(l, x);
    ChannelCountKept(l, x);
    forall c <- l'.channels ensures c.intact ==> Delivered(c) == ReceivedStream(xs + [x], c.address) {
      var j :| 0 <= j < |l'.channels| && l'.channels[j] == c;
      FrameReaches(l, x, j);
      assert l.channels[j] in l.channels;
      ChannelAfterFrame(l.channels[j], c, x, xs);
    }
  }

  lemma ChannelAfterFrame(d: Channel, c: Channel, x: Received, xs: seq<Received>)
    requires |d.ring| <= d.capacity
    requires d.intact ==> Delivered(d) == ReceivedStream(xs, d.address)
    requires c == if x.frame.address == d.address then OnChannelFrame(d, x) else d
    ensures c.intact ==> Delivered(c) == ReceivedStream(xs + [x], c.address)
  {
    ReceivedSnoc(xs, x, d.address);
    if x.frame.address == d.address {
      ChannelFrameDelivers(d, x);
    } else {
      assert ReceivedStream(xs, d.address) + [] == ReceivedStream(xs, d.address);
    }
  }

  /** The receive handler takes one octet. */
  lemma OctetDelivers(r: Receiver, l: Link, size: nat, b: byte)
    requires Good(l) && ChannelsDeliver(l, r.frames)
    requires var action := CmuxReceive.Step(r.rx, size, b).1; action.Dispatch? ==> FromReceiver(action.received)
    ensures var (r', l') := HearOctet(r, l, size, b);
            Good(l') && ChannelsDeliver(l', r'.frames)
  {
    GoodFits(l);
    var action := CmuxReceive.Step(r.rx, size, b).1;
    if action.Dispatch? {
      FrameKeepsGood(l, action.received);
      FrameDelivers(l, action.received, r.frames);
    }
  }

  lemma {:induction false} ReceivedConcat(xs: seq<Received>, ys: seq<Received>, address: byte)
    ensures ReceivedStream(xs + ys, address) == ReceivedStream(xs, address) + ReceivedStream(ys, address)
    decreases |ys|
  {
    if ys == [] {
      assert xs + ys == xs;
    } else {
      var n := |ys| - 1;
      ReceivedConcat(xs, ys[..n], address);
      assert xs + ys == xs + ys[..n] + [ys[n]];
      ReceivedSnoc(xs + ys[..n], ys[n], address);
      Associative(ReceivedStream(xs, address), ReceivedStream(ys[..n], address), PayloadFor(ys[n], address));
    }
  }

  lemma {:induction false} StreamConcat(fs: seq<Frame>, gs: seq<Frame>, address: byte)
    ensures StreamOf(fs + gs, address) == StreamOf(fs, address) + StreamOf(gs, address)
    decreases |gs|
  {
    if gs == [] {
      assert fs + gs == fs;
    } else {
      var n := |gs| - 1;
      StreamConcat(fs, gs[..n], address);
      assert fs + gs == fs + gs[..n] + [gs[n]];
      StreamSnoc(fs + gs[..n], gs[n], address);
      Associative(StreamOf(fs, address), StreamOf(gs[..n], address), DataFor(gs[n], address));
    }
  }

  // ----- From the bus to the channels

  lemma {:induction false} StreamOfWhole(fs: seq<Frame>, address: byte)
    ensures ReceivedStream(Whole(fs), address) == StreamOf(fs, address)
    decreases |fs|
  {
    if fs != [] {
      var n := |fs| - 1;
      StreamOfWhole(fs[..n], address);
      assert Whole(fs)[..n] == Whole(fs[..n]);
      assert fs[n].data[..|fs[n].data|] == fs[n].data;
    }
  }

  lemma {:induction false} StreamPrefix(fs: seq<Frame>, k: nat, address: byte)
    requires k <= |fs|
    ensures StreamOf(fs[..k], address) <= StreamOf(fs, address)
    decreases |fs|
  {
    if k == |fs| {
      assert fs[..k] == fs;
    } else {
      var p := fs[..|fs| - 1];
      StreamPrefix(p, k, address);
      assert p[..k] == fs[..k];
    }
  }

  /**
   What a peer that was between frames has decoded after any part of the stream is a prefix of the frames in it, and
   it asked for no resynchronisation.
   */
  lemma PartOfStream(start: Receiver, size: nat, fs: seq<Frame>, part: seq<byte>, rest: seq<byte>)
    requires start.rx.state == Sof && part + rest == Encodes(fs)
    requires forall f <- fs :: Decodable(f, size) && (f.kind == UIH || f.data == [])
    ensures var r := Feed(start, size, part);
            && start.frames <= r.frames <= start.frames + Whole(fs) && r.resyncs == start.resyncs
            && (rest == [] ==> r.frames == start.frames + Whole(fs))
  {
    FramesRoundTrip(start, size, fs);
    FeedConcat(start, size, part, rest);
    var r := Feed(start, size, part);
    FeedExtends(start, size, part);
    FeedExtends(r, size, rest);
    FeedCounts(start, size, part);
    FeedCounts(r, size, rest);
  }

  lemma {:induction false} FeedCounts(r: Receiver, size: nat, bs: seq<byte>)
    ensures r.resyncs <= Feed(r, size, bs).resyncs
    decreases |bs|
  {
    if bs != [] {
      FeedCounts(FeedByte(r, size, bs[0]), size, bs[1..]);
    }
  }

  /** The frames fit the peer: lengths the length field can carry, within its receive buffer. */
  predicate FitPeer(fs: seq<Frame>, size: nat) {
    forall f <- fs :: |f.data| < 0x8000 && LengthSurvives(|f.data|) && |f.data| <= size
  }

  lemma FramesToStream(fs: seq<Frame>, xs: seq<Received>, address: byte)
    requires xs <= Whole(fs)
    ensures ReceivedStream(xs, address) <= StreamOf(fs, address)
    ensures xs == Whole(fs) ==> ReceivedStream(xs, address) == StreamOf(fs, address)
  {
    var k := |xs|;
    assert xs == Whole(fs[..k]);
    StreamOfWhole(fs[..k], address);
    StreamPrefix(fs, k, address);
    assert k == |fs| ==> fs[..k] == fs;
  }

  lemma FramesDecodable(fs: seq<Frame>, size: nat)
    requires FitPeer(fs, size) && forall f <- fs :: Sendable(f)
    ensures forall f <- fs :: Decodable(f, size) && (f.kind == UIH || f.data == [])
  {
  }

  // ----- Received frames

  /** What handling a control frame does to ring, histories and channels. */
  ghost predicate Answers(l: Link, m: Link, limit: nat) {
    && m.channels == l.channels && m.drained == l.drained
    && l.queued <= m.queued && Short(m.queued[|l.queued|..], limit)
  }

  lemma NothingQueued(l: Link, m: Link, limit: nat)
    requires m.channels == l.channels && m.drained == l.drained && m.queued == l.queued
    ensures Answers(l, m, limit)
  {
    assert m.queued[|l.queued|..] == [];
  }

  lemma AcknowledgeGrows(l: Link, flow: bool, x: Received, limit: nat)
    requires FromReceiver(x) && COMMAND_DATA_SIZE_MAX <= limit && IsCommand(x)
    ensures Answers(l, Acknowledge(l.(flow := flow), x), limit)
  {
    if COMMAND_DATA_SIZE_MAX < x.length {
      NothingQueued(l, l.(flow := flow), limit);
    } else {
      CommandQueues(l.(flow := flow), Acknowledgement(x.frame), limit);
    }
  }

  lemma CommandGrows(l: Link, x: Received, limit: nat)
    requires FromReceiver(x) && COMMAND_DATA_SIZE_MAX <= limit
    ensures Answers(l, OnControlUih(l, x), limit)
  {
    var m := OnControlUih(l, x);
    if (l.state == Connected || l.state == Disconnecting) && IsCommand(x) {
      var command := x.frame.data[0] >> 2;
      if command in {COMMAND_MSC, COMMAND_FCON, COMMAND_FCOFF} {
        AcknowledgeGrows(l, command == COMMAND_FCON || (command == COMMAND_MSC && l.flow), x, limit);
        assert l.(flow := l.flow) == l;
      } else {
        NothingQueued(l, m, limit);
      }
    } else {
      NothingQueued(l, m, limit);
    }
  }

  lemma AnswerGrows(l: Link, x: Received, limit: nat)
    requires FromReceiver(x) && COMMAND_DATA_SIZE_MAX <= limit
    ensures Answers(l, OnControlFrame(l, x), limit)
  {
    if x.frame.kind == UIH {
      CommandGrows(l, x, limit);
    } else {
      NothingQueued(l, OnControlFrame(l, x), limit);
    }
  }

  lemma ChannelFrameGrows(c: Channel, x: Received)
    requires |c.ring| <= c.capacity
    ensures ChannelGrows(c, OnChannelFrame(c, x))
  {
  }

  lemma FrameGrows(l: Link, x: Received, limit: nat)
    requires Good(l) && RingsFit(l) && FromReceiver(x) && COMMAND_DATA_SIZE_MAX <= limit
    ensures Grows(l, OnFrame(l, x), limit)
  {
    var l' := OnFrame(l, x);
    ChannelCountKept(l, x);
    if x.frame.address == 0 {
      AnswerGrows(l, x, limit);
    } else {
      assert l.queued[|l.queued|..] == [];
    }
    forall i | 0 <= i < |l.channels| ensures ChannelGrows(l.channels[i], l'.channels[i]) {
      FrameReaches(l, x, i);
      ChannelFrameGrows(l.channels[i], x);
    }
  }

  // ----- Channels that are open

  lemma ConnectKeepsChannels(l: Link)
    ensures ConnectHandler(l).channels == l.channels && DisconnectHandler(l).channels == l.channels
  {
    CommandTouchesTheRing(l.(state := Connecting), Request(0, SABM));
    CommandTouchesTheRing(l.(state := Disconnecting), CLOSE_DOWN);
  }

  /** An open channel stays open through everything but its own open and close handlers. */
  lemma OpenStaysOpen(l: Link, e: Event, i: nat)
    requires RingsFit(l) && Enabled(l, e) && i < |l.channels| && l.channels[i].state == Open
    requires e != OpenTimer(i) && e != CloseTimer(i)
    ensures i < |Next(l, e).channels| && Next(l, e).channels[i].state == Open
  {
    match e
    case ConnectTimer => ConnectKeepsChannels(l);
    case DisconnectTimer => ConnectKeepsChannels(l);
    case FrameReceived(x) => FrameKeepsOpenState(l, x, i);
    case OpenTimer(j) => OthersKept(l, j, i);
    case CloseTimer(j) => OthersKept(l, j, i);
    case Transmit(j, data) => TransmitKeepsOpen(l, j, data, i);
    case _ =>
  }

  lemma OthersKept(l: Link, j: nat, i: nat)
    requires j < |l.channels| && i < |l.channels| && i != j
    ensures |OpenHandler(l, j).channels| == |CloseHandler(l, j).channels| == |l.channels|
    ensures OpenHandler(l, j).channels[i] == CloseHandler(l, j).channels[i] == l.channels[i]
  {
  }

  lemma TransmitKeepsOpen(l: Link, j: nat, data: seq<byte>, i: nat)
    requires j < |l.channels| && i < |l.channels|
    ensures var l' := PipeTransmit(l, j, data).0;
            |l'.channels| == |l.channels| && l'.channels[i].state == l.channels[i].state
  {
  }

  lemma FrameKeepsOpenState(l: Link, x: Received, i: nat)
    requires RingsFit(l) && i < |l.channels| && l.channels[i].state == Open
    ensures i < |OnFrame(l, x).channels| && OnFrame(l, x).channels[i].state == Open
  {
    ControlFrameTouchesNoChannel(l, x);
    ChannelCountKept(l, x);
    OpenIgnoresFrames(l.channels[i], x);
  }

  /** An open channel with room takes a frame for it whole. */
  lemma OpenTakesFrame(c: Channel, x: Received)
    requires c.state == Open && |c.ring| <= c.capacity
    requires x.frame.kind == UIH ==> |Payload(x)| <= c.capacity - |c.ring|
    ensures var d := OnChannelFrame(c, x);
            d.state == Open && d.intact == c.intact && d.address == c.address && d.capacity == c.capacity
  {
  }

  lemma FrameKeepsOpen(l: Link, x: Received, j: nat)
    requires Good(l) && RingsFit(l) && j < |l.channels| && l.channels[j].state == Open
    requires x.frame.address == l.channels[j].address && x.frame.kind == UIH ==>
               |Payload(x)| <= l.channels[j].capacity - |l.channels[j].ring|
    ensures j < |OnFrame(l, x).channels|
    ensures var c, d := l.channels[j], OnFrame(l, x).channels[j];
            d.state == Open && d.intact == c.intact && d.address == c.address && d.capacity == c.capacity
  {
    FrameReaches(l, x, j);
    if x.frame.address == l.channels[j].address {
      OpenTakesFrame(l.channels[j], x);
    }
  }

  lemma OpenIgnoresFrames(c: Channel, x: Received)
    requires c.state == Open
    ensures |c.ring| <= c.capacity ==> OnChannelFrame(c, x).state == Open
  {
  }
}
