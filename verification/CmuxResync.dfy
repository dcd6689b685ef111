/**
 What a resynchronisation of the sending end does to the other direction: an octet that is not the flag, heard between
 frames, costs the peer the next frame. The starts of these runs are reached from initialisation.
 */
module CmuxResync {
  import opened Crc
  import opened Sequences
  import opened CmuxFrame
  import opened CmuxReceive
  import opened CmuxLink
  import opened CmuxRuns
  import opened CmuxChannels
  import opened CmuxEnds
  import opened CmuxBus
  import opened CmuxCalls
  import CmuxDecoder

  // ----- What a link takes of what is heard

  function OnFrames(l: Link, xs: seq<Received>): Link
    decreases |xs|
  {
    if xs == [] then l else OnFrames(if RingsFit(l) then OnFrame(l, xs[0]) else l, xs[1..])
  }

  /** The link takes the frames that its decoder dispatches, each once and in order, and nothing else. */
  lemma {:induction false} LinkTakesDispatches(x: End, bs: seq<byte>)
    ensures var y := HearsAll(x, bs);
            && y.decoder == Feed(x.decoder, x.size, bs) && x.decoder.frames <= y.decoder.frames
            && y.link == OnFrames(x.link, Since(x.decoder.frames, y.decoder.frames))
    decreases |bs|
  {
    HeardInTurn(x, bs);
    FeedExtends(x.decoder, x.size, bs);
    if bs != [] {
      var x1, y := Hears(x, bs[0]), HearsAll(x, bs);
      LinkTakesDispatches(x1, bs[1..]);
      var xs, xs1 := Since(x.decoder.frames, y.decoder.frames), Since(x1.decoder.frames, y.decoder.frames);
      var action := CmuxReceive.Step(x.decoder.rx, x.size, bs[0]).1;
      if action.Dispatch? {
        assert xs == [action.received] + xs1;
        assert xs[1..] == xs1;
      }
    }
  }

  // ----- Four steps

  /** What a transmit call makes of a link with an empty ring and room. */
  lemma TransmittedWhole(l: Link, i: nat, data: seq<byte>)
    requires Good(l) && l.ring == [] && i < |l.channels|
    requires Admits(l) && |data| + FRAME_SIZE_MAX <= Space(l) && |data| < 0x8000
    ensures var f, l' := DataFrame(l.channels[i].address, data), PipeTransmit(l, i, data).0;
            && f.data == data && l'.ring == Encode(f) && l'.drained == l.drained && l'.transmitWork && RingsFit(l')
            && |l'.channels| == |l.channels| && l'.channels[i].accepted == l.channels[i].accepted + data
  {
    var f := DataFrame(l.channels[i].address, data);
    assert f.data == data && Truncated(l, f) == f;
    assert [] + Encode(f) == Encode(f);
    TransmitKeepsGood(l, i, data);
    GoodFits(PipeTransmit(l, i, data).0);
  }

  /** A transmit call puts its frame in the ring and nothing on the bus. */
  lemma FrameQueued(s: System, i: nat, data: seq<byte>)
    requires Living(s.a) && s.a.link.ring == [] && i < |s.a.link.channels|
    requires Admits(s.a.link) && |data| + FRAME_SIZE_MAX <= Space(s.a.link) && |data| < 0x8000
    ensures Possible(s, AtSender(Transmit(i, data)))
    ensures After(s, AtSender(Transmit(i, data))) == s.(a := s.a.(link := PipeTransmit(s.a.link, i, data).0))
  {
    GoodFits(s.a.link);
    TransmittedWhole(s.a.link, i, data);
    assert Drained(s.a, Transmit(i, data)) == [];
    assert s.bus + [] == s.bus;
  }

  /** A complete drain puts the ring on the bus. */
  lemma RingDrained(s: System)
    requires RingsFit(s.a.link) && s.a.link.transmitWork
    ensures var n := |s.a.link.ring|;
            && Possible(s, AtSender(DrainRing(n)))
            && After(s, AtSender(DrainRing(n))) ==
               s.(a := s.a.(link := Drain(s.a.link, n)), bus := s.bus + s.a.link.ring)
  {
    assert s.a.link.ring[..|s.a.link.ring|] == s.a.link.ring;
    SinceAppended(s.a.link.drained, s.a.link.ring);
  }

  /** One octet heard between frames: the flag is silent, any other makes the end write three flags. */
  lemma OctetHeard(s: System, b: byte)
    requires s.a.decoder.rx.state == Sof && s.bus == []
    ensures var s' := After(s, SenderHears(b, 3));
            && s' == s.(a := s'.a, bus := if b == FLAG then [] else FLAGS)
            && s'.a == s.a.(decoder := s'.a.decoder, heard := s.a.heard + [b])
            && s'.a.decoder.resyncs == s.a.decoder.resyncs + if b == FLAG then 0 else 1
  {
    assert [] + FLAGS[..3] == FLAGS;
  }

  lemma AllDelivered(s: System)
    requires s.consumed == 0
    ensures After(s, Deliver(|s.bus|)) == s.(b := HearsAll(s.b, s.bus), consumed := |s.bus|)
  {
    assert Chunk(s, |s.bus|) == s.bus;
  }

  function FourSteps(b: byte, i: nat, data: seq<byte>, f: Frame): seq<Step> {
    [SenderHears(b, 3), AtSender(Transmit(i, data)), AtSender(DrainRing(|Encode(f)|)),
     Deliver(|Encode(f)| + if b == FLAG then 0 else 3)]
  }

  lemma RunOfFour(s: System, s1: System, s2: System, s3: System, s': System, ts: seq<Step>)
    requires |ts| == 4 && Possible(s, ts[0]) && After(s, ts[0]) == s1 && Possible(s1, ts[1]) && After(s1, ts[1]) == s2
    requires Possible(s2, ts[2]) && After(s2, ts[2]) == s3 && Possible(s3, ts[3]) && After(s3, ts[3]) == s'
    ensures SystemRuns(s, ts, s')
  {
    assert ts[3..][1..] == [] && SystemRuns(s3, ts[3..], s');
    assert ts[2..][1..] == ts[3..] && SystemRuns(s2, ts[2..], s');
    assert ts[1..][1..] == ts[2..] && SystemRuns(s1, ts[1..], s');
  }

  function FrameFor(s: System, i: nat, data: seq<byte>): Frame
    requires i < |s.a.link.channels|
  {
    DataFrame(s.a.link.channels[i].address, data)
  }

  /** The sending end can send this much whole. */
  predicate CanSend(s: System, i: nat, data: seq<byte>) {
    && s.a.decoder.rx.state == Sof && i < |s.a.link.channels|
    && Admits(s.a.link) && |data| + FRAME_SIZE_MAX <= Space(s.a.link) && |data| < 0x8000
  }

  /** A transmit call and a complete drain put one frame on the bus. */
  lemma FrameSent(s: System, i: nat, data: seq<byte>) returns (s1: System, s2: System)
    requires Living(s.a) && s.a.link.ring == [] && i < |s.a.link.channels|
    requires Admits(s.a.link) && |data| + FRAME_SIZE_MAX <= Space(s.a.link) && |data| < 0x8000
    ensures Possible(s, AtSender(Transmit(i, data))) && s1 == After(s, AtSender(Transmit(i, data)))
    ensures var f := FrameFor(s, i, data);
            && Possible(s1, AtSender(DrainRing(|Encode(f)|))) && s2 == After(s1, AtSender(DrainRing(|Encode(f)|)))
            && s2 == s.(a := s2.a, bus := s.bus + Encode(f))
    ensures s2.a.link.ring == [] && s2.a.decoder == s.a.decoder && |s2.a.link.channels| == |s.a.link.channels|
    ensures s2.a.link.channels[i].accepted == s.a.link.channels[i].accepted + data
  {
    FrameQueued(s, i, data);
    TransmittedWhole(s.a.link, i, data);
    s1 := s.(a := s.a.(link := PipeTransmit(s.a.link, i, data).0));
    RingDrained(s1);
    s2 := s1.(a := s1.a.(link := Drain(s1.a.link, |s1.a.link.ring|)), bus := s1.bus + s1.a.link.ring);
  }

  /** The sending end hears one octet, sends one frame and drains it, and the peer takes everything. */
  lemma FourStepsRun(s0: System, b: byte, i: nat, data: seq<byte>) returns (s: System)
    requires Start(s0) && CanSend(s0, i, data)
    ensures SystemRuns(s0, FourSteps(b, i, data, FrameFor(s0, i, data)), s)
    ensures s.a.link.ring == [] && s.consumed == |s.bus| && s.b == HearsAll(s0.b, s.bus)
    ensures s.bus == (if b == FLAG then [] else FLAGS) + Encode(FrameFor(s0, i, data))
    ensures i < |s.a.link.channels| && NewlyAccepted(s0.a, s.a, i) == data
    ensures s.a.decoder.resyncs == s0.a.decoder.resyncs + (if b == FLAG then 0 else 1)
  {
    OctetHeard(s0, b);
    var s1 := After(s0, SenderHears(b, 3));
    HearsKeepsLiving(s0.a, b, COMMAND_DATA_SIZE_MAX);
    var s2, s3 := FrameSent(s1, i, data);
    AllDelivered(s3);
    s := s3.(b := HearsAll(s3.b, s3.bus), consumed := |s3.bus|);
    var ts := FourSteps(b, i, data, FrameFor(s0, i, data));
    assert ts[3] == Deliver(|s3.bus|);
    RunOfFour(s0, s1, s2, s3, s, ts);
    SinceAppended(s0.a.link.channels[i].accepted, data);
  }

  lemma FlagsDeliverNothing(b0: End, f: Frame)
    requires b0.decoder.rx.state == Sof && 126 <= b0.size && |f.data| <= 118
    ensures HearsAll(b0, FLAGS + Encode(f)).link == b0.link
  {
    CmuxDecoder.FlagsCostAFrame(b0.decoder, b0.size, f);
    LinkTakesDispatches(b0, FLAGS + Encode(f));
  }

  lemma WholeData(address: byte, data: seq<byte>)
    requires |data| < 0x8000
    ensures DataFrame(address, data).data == data
  {
  }

  lemma LostIsUnfaithful(s0: System, s: System, i: nat, j: nat, f: Frame)
    requires s0.b.decoder.rx.state == Sof && 126 <= s0.b.size && |f.data| <= 118
    requires s.b == HearsAll(s0.b, FLAGS + Encode(f)) && s.a.link.ring == [] && s.consumed == |s.bus|
    requires Paired(s0, i, j) && i < |s.a.link.channels| && NewlyAccepted(s0.a, s.a, i) != []
    ensures j < |s.b.link.channels| && !Faithful(s, NewlyAccepted(s0.a, s.a, i), NewlyDelivered(s0.b, s.b, j))
  {
    FlagsDeliverNothing(s0.b, f);
  }

  lemma FourStepsShort(b: byte, i: nat, data: seq<byte>, f: Frame, j: nat, limit: nat)
    requires |data| <= limit
    ensures ShortCalls(FourSteps(b, i, data, f), limit) && LeftOpen(FourSteps(b, i, data, f), j)
  {
  }

  /** The receiving end has the channel open, having missed nothing, with room for the octets. */
  predicate Receptive(s: System, i: nat, j: nat, data: seq<byte>) {
    && Paired(s, i, j) && s.b.link.channels[j].state == Open && s.b.link.channels[j].intact
    && |s.b.link.channels[j].ring| + |data| <= s.b.link.channels[j].capacity
  }

  /**
   The condition of fidelity is needed: from every start whose ends are between frames, the sending end hears one
   octet, accepts a call's octets whole and drains the frame, and its peer takes everything on the bus. The channel at
   the other end, open and with room, delivers what was accepted exactly when the octet was a flag.
   */
  lemma ResynchronisationBreaksFidelity(s0: System, b: byte, i: nat, j: nat, data: seq<byte>) returns (s: System)
    requires Start(s0) && CanSend(s0, i, data) && Receptive(s0, i, j, data) && 0 < |data| <= 118
    ensures SystemRuns(s0, FourSteps(b, i, data, FrameFor(s0, i, data)), s)
    ensures s.a.link.ring == [] && s.consumed == |s.bus| && Paired(s, i, j) && NewlyAccepted(s0.a, s.a, i) == data
    ensures Faithful(s, NewlyAccepted(s0.a, s.a, i), NewlyDelivered(s0.b, s.b, j)) <==> b == FLAG
  {
    var f := FrameFor(s0, i, data);
    s := FourStepsRun(s0, b, i, data);
    var ts := FourSteps(b, i, data, f);
    FourStepsShort(b, i, data, f, j, ShortFor(s0.b));
    RunIsJoined(s0, ts, s, Largest(ts));
    StillPaired(s0, s, i, j, Largest(ts));
    if b == FLAG {
      OpenChannelIsFaithful(s0, ts, s, i, j);
    } else {
      WholeData(f.address, data);
      LostIsUnfaithful(s0, s, i, j, f);
    }
  }
}
