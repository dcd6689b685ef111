/** The starts of the runs on a bus are reached: an end connects and opens a channel, as its peer answers. */
module CmuxStart {
  import opened Crc
  import opened Sequences
  import opened CmuxFrame
  import opened CmuxReceive
  import opened CmuxLink
  import opened CmuxRuns
  import opened CmuxChannels
  import opened CmuxEnds
  import opened CmuxBus
  import opened CmuxResync
  import opened CmuxCommands

  function Octets(bs: seq<byte>): seq<Act> {
    seq(|bs|, k requires 0 <= k < |bs| => Octet(bs[k]))
  }

  lemma {:induction false} LivesTwice(x: End, acts: seq<Act>, y: End, more: seq<Act>, z: End)
    requires Lives(x, acts, y) && Lives(y, more, z)
    ensures Lives(x, acts + more, z)
    decreases |acts|
  {
    if acts == [] {
      assert acts + more == more;
    } else {
      assert (acts + more)[0] == acts[0] && (acts + more)[1..] == acts[1..] + more;
      LivesTwice(Acts(x, acts[0]), acts[1..], y, more, z);
    }
  }

  lemma LivesOnce(x: End, e: Event)
    requires CanDo(x, e)
    ensures Lives(x, [Local(e)], Does(x, e))
  {
    assert [Local(e)][1..] == [];
  }

  lemma {:induction false} LivesHearing(x: End, bs: seq<byte>)
    ensures Lives(x, Octets(bs), HearsAll(x, bs))
    decreases |bs|
  {
    HeardInTurn(x, bs);
    if bs != [] {
      assert Octets(bs)[1..] == Octets(bs[1..]);
      LivesHearing(Hears(x, bs[0]), bs[1..]);
    }
  }

  /** A whole frame heard between frames reaches the link. */
  lemma FrameHeard(x: End, f: Frame)
    requires x.decoder.rx.state == Sof && Decodable(f, x.size) && (f.kind == UIH || f.data == []) && RingsFit(x.link)
    ensures var y := HearsAll(x, Encode(f));
            && y.decoder.rx.state == Sof && y.link == OnFrame(x.link, Received(f, |f.data|))
  {
    var xs := [Received(f, |f.data|)];
    FrameRoundTrip(x.decoder, x.size, f);
    LinkTakesDispatches(x, Encode(f));
    SinceAppended(x.decoder.frames, xs);
    assert xs[1..] == [];
  }

  /** The end drains its ring, and hears a frame. */
  lemma DrainsAndHears(x: End, f: Frame) returns (acts: seq<Act>, y: End)
    requires Living(x) && x.decoder.rx.state == Sof && x.link.transmitWork
    requires Decodable(f, x.size) && (f.kind == UIH || f.data == [])
    ensures Lives(x, acts, y) && y.decoder.rx.state == Sof && y.size == x.size
    ensures RingsFit(Drain(x.link, |x.link.ring|))
    ensures y.link == OnFrame(Drain(x.link, |x.link.ring|), Received(f, |f.data|))
  {
    var n := |x.link.ring|;
    GoodFits(x.link);
    LivesOnce(x, DrainRing(n));
    var x1 := Does(x, DrainRing(n));
    DoesKeepsLiving(x, DrainRing(n), COMMAND_DATA_SIZE_MAX);
    GoodFits(x1.link);
    FrameHeard(x1, f);
    LivesHearing(x1, Encode(f));
    y := HearsAll(x1, Encode(f));
    acts := [Local(DrainRing(n))] + Octets(Encode(f));
    LivesTwice(x, [Local(DrainRing(n))], x1, Octets(Encode(f)), y);
  }

  /** The end drains its ring, and hears an answer for an address. */
  lemma Answered(x: End, address: byte) returns (acts: seq<Act>, y: End)
    requires Living(x) && x.decoder.rx.state == Sof && x.link.transmitWork && address < 64
    ensures Lives(x, acts, y) && y.decoder.rx.state == Sof && y.size == x.size
    ensures RingsFit(Drain(x.link, |x.link.ring|))
    ensures y.link == OnFrame(Drain(x.link, |x.link.ring|), Received(Request(address, UA), 0))
  {
    assert UA & 0x10 == 0;
    acts, y := DrainsAndHears(x, Request(address, UA));
  }

  lemma DoesTwice(x: End, e: Event, e': Event)
    requires CanDo(x, e) && CanDo(Does(x, e), e')
    ensures Lives(x, [Local(e)] + [Local(e')], Does(Does(x, e), e'))
  {
    LivesOnce(x, e);
    LivesOnce(Does(x, e), e');
    LivesTwice(x, [Local(e)], Does(x, e), [Local(e')], Does(Does(x, e), e'));
  }

  /** From initialisation: connect, and hear the answer. */
  lemma Connects(l: Link, size: nat) returns (acts: seq<Act>, x: End)
    requires Fresh(l) && 126 <= size && COMMAND_FRAME_SIZE_MAX <= l.capacity
    ensures Lives(End(l, FRESH, [], size), acts, x) && x.size == size && x.decoder.rx.state == Sof
    ensures x.link.ring == [] && x.link.flow && x.link.capacity == l.capacity && x.link.channels == l.channels
  {
    var x0 := End(l, FRESH, [], size);
    BornLiving(l, size);
    GoodFits(l);
    DoesTwice(x0, ConnectAsync, ConnectTimer);
    var x1 := Does(Does(x0, ConnectAsync), ConnectTimer);
    var first := [Local(ConnectAsync)] + [Local(ConnectTimer)];
    EveryLifeIsLiving(l, size, first, x1);
    var more;
    more, x := Answered(x1, 0);
    acts := first + more;
    LivesTwice(x0, first, x1, more, x);
  }

  /** A request for a channel in an empty ring, and the ring drained. */
  lemma RequestDrained(l: Link, i: nat)
    requires l.ring == [] && COMMAND_FRAME_SIZE_MAX <= l.capacity && i < |l.channels|
    ensures var c, m := l.channels[i], OpenHandler(ScheduleOpen(l, i), i);
            && m.transmitWork && Drain(m, |m.ring|).ring == []
            && m.flow == l.flow && m.capacity == l.capacity
            && m.channels == l.channels[i := c.(state := Opening, openWork := true)]
  {
  }

  /** The answer for an address opens the channel. */
  lemma AnswerOpens(l: Link, i: nat)
    requires Good(l) && RingsFit(l) && i < |l.channels| && l.channels[i].state == Opening
    ensures var c, m := l.channels[i], OnFrame(l, Received(Request(l.channels[i].address, UA), 0));
            && m.ring == l.ring && m.flow == l.flow && m.capacity == l.capacity && |m.channels| == |l.channels|
            && m.channels[i] == c.(state := Open, pipeOpen := true, openWork := false)
  {
    var x := Received(Request(l.channels[i].address, UA), 0);
    assert l.channels[i] in l.channels;
    FrameReaches(l, x, i);
    ChannelCountKept(l, x);
  }

  lemma Requests(x: End, i: nat)
    requires Living(x) && i < |x.link.channels|
    ensures CanDo(x, PipeOpen(i)) && CanDo(Does(x, PipeOpen(i)), OpenTimer(i))
    ensures var x1 := x.(link := OpenHandler(ScheduleOpen(x.link, i), i));
            x1 == Does(Does(x, PipeOpen(i)), OpenTimer(i)) && Living(x1)
  {
    GoodFits(x.link);
    DoesKeepsLiving(x, PipeOpen(i), COMMAND_DATA_SIZE_MAX);
    GoodFits(Does(x, PipeOpen(i)).link);
    DoesKeepsLiving(Does(x, PipeOpen(i)), OpenTimer(i), COMMAND_DATA_SIZE_MAX);
  }

  /** Open a channel, and hear the answer. */
  lemma Opens(x: End, i: nat) returns (acts: seq<Act>, y: End)
    requires Living(x) && x.decoder.rx.state == Sof && x.link.ring == [] && i < |x.link.channels|
    requires COMMAND_FRAME_SIZE_MAX <= x.link.capacity
    ensures Lives(x, acts, y) && y.size == x.size && y.decoder.rx.state == Sof
    ensures y.link.ring == [] && y.link.flow == x.link.flow && y.link.capacity == x.link.capacity
    ensures |y.link.channels| == |x.link.channels|
    ensures y.link.channels[i] == x.link.channels[i].(state := Open, pipeOpen := true, openWork := false)
  {
    var address := x.link.channels[i].address;
    assert x.link.channels[i] in x.link.channels;
    Requests(x, i);
    DoesTwice(x, PipeOpen(i), OpenTimer(i));
    RequestDrained(x.link, i);
    var x1 := x.(link := OpenHandler(ScheduleOpen(x.link, i), i));
    var first, more := [Local(PipeOpen(i))] + [Local(OpenTimer(i))], [];
    more, y := Answered(x1, address);
    acts := first + more;
    LivesTwice(x, first, x1, more, y);
    DrainKeepsGood(x1.link, |x1.link.ring|);
    AnswerOpens(Drain(x1.link, |x1.link.ring|), i);
  }

  /** A request to close a channel in an empty ring, and the ring drained. */
  lemma CloseDrained(l: Link, i: nat)
    requires l.ring == [] && COMMAND_FRAME_SIZE_MAX <= l.capacity && i < |l.channels|
    ensures var c, m := l.channels[i], CloseHandler(ScheduleClose(l, i), i);
            && m.transmitWork && Drain(m, |m.ring|).ring == []
            && m.state == l.state && m.flow == l.flow && m.capacity == l.capacity
            && m.channels == l.channels[i := c.(state := Closing, closeWork := true)]
  {
  }

  lemma ClosingRequests(x: End, i: nat)
    requires Living(x) && i < |x.link.channels|
    ensures CanDo(x, PipeClose(i)) && CanDo(Does(x, PipeClose(i)), CloseTimer(i))
    ensures var x1 := x.(link := CloseHandler(ScheduleClose(x.link, i), i));
            x1 == Does(Does(x, PipeClose(i)), CloseTimer(i)) && Living(x1)
  {
    GoodFits(x.link);
    DoesKeepsLiving(x, PipeClose(i), COMMAND_DATA_SIZE_MAX);
    GoodFits(Does(x, PipeClose(i)).link);
    DoesKeepsLiving(Does(x, PipeClose(i)), CloseTimer(i), COMMAND_DATA_SIZE_MAX);
  }

  /** Close a channel, and hear the answer: the channel is closed, whatever state it was in, and its pipe with it. */
  lemma Closes(x: End, i: nat) returns (acts: seq<Act>, y: End)
    requires Living(x) && x.decoder.rx.state == Sof && x.link.ring == [] && i < |x.link.channels|
    requires COMMAND_FRAME_SIZE_MAX <= x.link.capacity
    ensures Lives(x, acts, y) && y.size == x.size && y.decoder.rx.state == Sof
    ensures y.link.ring == [] && y.link.flow == x.link.flow && |y.link.channels| == |x.link.channels|
    ensures y.link.channels[i] == x.link.channels[i].(state := Closed, pipeOpen := false, closeWork := false)
  {
    var address := x.link.channels[i].address;
    assert x.link.channels[i] in x.link.channels;
    ClosingRequests(x, i);
    var x1 := x.(link := CloseHandler(ScheduleClose(x.link, i), i));
    var first, more := [Local(PipeClose(i))] + [Local(CloseTimer(i))], [];
    DoesTwice(x, PipeClose(i), CloseTimer(i));
    CloseDrained(x.link, i);
    more, y := Answered(x1, address);
    acts := first + more;
    LivesTwice(x, first, x1, more, y);
    DrainKeepsGood(x1.link, |x1.link.ring|);
    AnswerCloses(Drain(x1.link, |x1.link.ring|), i);
  }

  lemma AnswerCloses(l: Link, i: nat)
    requires Good(l) && RingsFit(l) && i < |l.channels| && l.channels[i].state == Closing
    ensures var c, m := l.channels[i], OnFrame(l, Received(Request(l.channels[i].address, UA), 0));
            && m.ring == l.ring && m.flow == l.flow && m.capacity == l.capacity && |m.channels| == |l.channels|
            && m.channels[i] == c.(state := Closed, pipeOpen := false, closeWork := false)
  {
    var x := Received(Request(l.channels[i].address, UA), 0);
    assert l.channels[i] in l.channels;
    ChannelAnswer(l, i, x);
    ChannelCountKept(l, x);
  }

  /** What the peer answers to the close down command. */
  const CLOSED_DOWN := Frame(0, true, false, 0xEF, [0xC1, 0x01])

  lemma ClosedDownHeard(l: Link)
    requires RingsFit(l) && l.state == Disconnecting
    ensures OnFrame(l, Received(CLOSED_DOWN, 2)) ==
            l.(state := Disconnected, flow := false, disconnectWork := false,
               connectedBit := false, disconnectedBit := true)
  {
    var x := Received(CLOSED_DOWN, 2);
    assert (0xC1 as byte) >> 2 == 0x30 && (0xC1 as byte) & 0x01 == 0x01;
    ValueIsOne();
    CommandShape(x);
    CloseDownCommand(l, x);
  }

  lemma ValueIsOne()
    ensures (0x01 as byte) as nat == 1
  {
  }

  lemma DisconnectDrained(l: Link)
    requires l.ring == [] && COMMAND_FRAME_SIZE_MAX <= l.capacity
    ensures var m := DisconnectHandler(l.(disconnectWork := true));
            && m.transmitWork && Drain(m, |m.ring|).ring == [] && m.channels == l.channels
            && m.state == Disconnecting && m.disconnectWork
            && m.ring == [0xF9, 0x03, 0xEF, 0x05, 0xC3, 0x01, 0xF2, 0xF9]
  {
    LinkRequests(l.(disconnectWork := true));
    var close: seq<byte> := [0xF9, 0x03, 0xEF, 0x05, 0xC3, 0x01, 0xF2, 0xF9];
    assert l.ring + close == close;
  }

  /** Disconnect, and hear the answer: the link is down, its timer stopped, and no data flows. */
  lemma Disconnects(x: End) returns (acts: seq<Act>, y: End)
    requires Living(x) && x.decoder.rx.state == Sof && x.link.ring == [] && COMMAND_FRAME_SIZE_MAX <= x.link.capacity
    ensures Lives(x, acts, y) && y.size == x.size && y.decoder.rx.state == Sof
    ensures y.link.state == Disconnected && !y.link.flow && !y.link.disconnectWork
    ensures y.link.disconnectedBit && !y.link.connectedBit && y.link.ring == [] && y.link.channels == x.link.channels
  {
    GoodFits(x.link);
    DoesKeepsLiving(x, DisconnectAsync, COMMAND_DATA_SIZE_MAX);
    GoodFits(Does(x, DisconnectAsync).link);
    DoesKeepsLiving(Does(x, DisconnectAsync), DisconnectTimer, COMMAND_DATA_SIZE_MAX);
    DoesTwice(x, DisconnectAsync, DisconnectTimer);
    var x1 := Does(Does(x, DisconnectAsync), DisconnectTimer);
    DisconnectDrained(x.link);
    var first, more := [Local(DisconnectAsync)] + [Local(DisconnectTimer)], [];
    assert CLOSED_DOWN.kind & 0x10 == 0;
    more, y := DrainsAndHears(x1, CLOSED_DOWN);
    acts := first + more;
    LivesTwice(x, first, x1, more, y);
    ClosedDownHeard(Drain(x1.link, |x1.link.ring|));
  }

  /** From initialisation: an end that is connected, idle and between frames, with one channel open. */
  lemma OpenedByItsPeer(l: Link, size: nat, i: nat) returns (acts: seq<Act>, x: End)
    requires Fresh(l) && 126 <= size && COMMAND_FRAME_SIZE_MAX <= l.capacity && i < |l.channels|
    ensures Lives(End(l, FRESH, [], size), acts, x) && Living(x) && x.size == size && x.decoder.rx.state == Sof
    ensures x.link.ring == [] && x.link.flow && x.link.capacity == l.capacity && |x.link.channels| == |l.channels|
    ensures x.link.channels[i] == l.channels[i].(state := Open, pipeOpen := true, openWork := false)
  {
    var first, more, x1 := [], [], End(l, FRESH, [], size);
    first, x1 := Connects(l, size);
    EveryLifeIsLiving(l, size, first, x1);
    more, x := Opens(x1, i);
    acts := first + more;
    LivesTwice(End(l, FRESH, [], size), first, x1, more, x);
    EveryLifeIsLiving(l, size, acts, x);
  }

  /**
   Two ends that each connected and opened a channel of the same address, from initialisation, start a run on a bus, in
   either direction or in both, in which the sending end can send `data` whole and the receiving end has room for it.
   */
  lemma StartIsReachable(l: Link, size: nat, i: nat, m: Link, size': nat, j: nat, data: seq<byte>)
    returns (acts: seq<Act>, acts': seq<Act>, s: System)
    requires Fresh(l) && Fresh(m) && 126 <= size && 126 <= size' && i < |l.channels| && j < |m.channels|
    requires l.channels[i].address == m.channels[j].address && |data| <= m.channels[j].capacity
    requires COMMAND_FRAME_SIZE_MAX * 2 + DATA_FRAME_SIZE_MIN <= l.capacity && COMMAND_FRAME_SIZE_MAX <= m.capacity
    requires |data| + FRAME_SIZE_MAX <= l.capacity && |data| < 0x8000
    ensures Lives(End(l, FRESH, [], size), acts, s.a) && Lives(End(m, FRESH, [], size'), acts', s.b)
    ensures Start(s) && Start(System(s.b, [], 0, s.a)) && CanSend(s, i, data) && Receptive(s, i, j, data)
  {
    var a, b := End(l, FRESH, [], size), End(m, FRESH, [], size');
    acts, a := OpenedByItsPeer(l, size, i);
    acts', b := OpenedByItsPeer(m, size', j);
    s := System(a, [], 0, b);
    assert l.channels[i] in l.channels && m.channels[j] in m.channels;
  }
}
