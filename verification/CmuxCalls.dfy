/** Fidelity from conditions on the calls alone. */
module CmuxCalls {
  import opened Crc
  import opened Sequences
  import opened CmuxFrame
  import opened CmuxReceive
  import opened CmuxLink
  import opened CmuxRuns
  import opened CmuxChannels
  import opened CmuxEnds
  import opened CmuxBus

  // ----- Short calls

  function ShortFor(x: End): nat { if x.size < 255 then x.size else 255 }

  lemma ShortFramesFit(a0: End, a: End, size: nat, limit: nat)
    requires Further(a0, a, limit) && limit <= size && limit <= 255
    ensures FitPeer(NewFrames(a0, a), size)
  {
    forall f <- NewFrames(a0, a) ensures |f.data| <= limit && LengthSurvives(|f.data|) {
      ShortLengthsSurvive(|f.data|);
    }
  }

  lemma {:induction false} ShortLargest(ts: seq<Step>, limit: nat)
    requires ShortCalls(ts, limit) && COMMAND_DATA_SIZE_MAX <= limit
    ensures Largest(ts) <= limit
    decreases |ts|
  {
    if ts != [] {
      assert ts[0] in ts;
      assert forall u <- ts[1..] :: u in ts;
      ShortLargest(ts[1..], limit);
    }
  }

  lemma ShortRunsFit(s0: System, ts: seq<Step>, s: System)
    requires Start(s0) && SystemRuns(s0, ts, s) && ShortCalls(ts, ShortFor(s0.b))
    ensures Joined(s0, s, ShortFor(s0.b)) && FitPeer(NewFrames(s0.a, s.a), s.b.size)
  {
    ShortLargest(ts, ShortFor(s0.b));
    RunIsJoined(s0, ts, s, ShortFor(s0.b));
    ShortFramesFit(s0.a, s.a, s.b.size, ShortFor(s0.b));
  }

  /** Transmit calls of at most 255 octets, within the peer's receive buffer, make all frames fit the peer. */
  lemma ShortChunksAreFaithful(s0: System, ts: seq<Step>, s: System, i: nat, j: nat)
    requires Start(s0) && SystemRuns(s0, ts, s) && s.a.decoder.resyncs == s0.a.decoder.resyncs
    requires ShortCalls(ts, ShortFor(s0.b)) && Paired(s0, i, j)
    ensures Paired(s, i, j)
    ensures s.b.link.channels[j].intact ==>
              && Faithful(s, NewlyAccepted(s0.a, s.a, i), NewlyDelivered(s0.b, s.b, j))
              && s.b.decoder.resyncs == s0.b.decoder.resyncs
  {
    ShortRunsFit(s0, ts, s);
    ChannelFidelity(s0, ts, s, i, j);
  }

  // ----- Channels that stay open

  /** The channel's own open and close timers do not fire. */
  predicate LeftOpen(ts: seq<Step>, j: nat) {
    forall t <- ts :: t != AtReceiver(OpenTimer(j)) && t != AtReceiver(CloseTimer(j))
  }

  /** An open channel that has come from `c0` and missed nothing. */
  predicate Intact(l: Link, j: nat, c0: Channel) {
    j < |l.channels| && l.channels[j].state == Open && l.channels[j].intact && ChannelGrows(c0, l.channels[j])
  }

  /** The channel has room for all that the frames carry for it. */
  predicate HasRoom(c0: Channel, fs: seq<Frame>) {
    |c0.ring| + |StreamOf(fs, c0.address)| <= c0.capacity
  }

  /** What the channel still holds, of what it held at `b0` and what came since, leaves room for the next frame. */
  lemma PayloadFits(b0: End, b: End, j: nat, x: Received, fs: seq<Frame>)
    requires Living(b0) && Living(b) && j < |b0.link.channels| && Intact(b.link, j, b0.link.channels[j])
    requires b0.decoder.frames <= b.decoder.frames && Since(b0.decoder.frames, b.decoder.frames) + [x] <= Whole(fs)
    requires HasRoom(b0.link.channels[j], fs)
    requires x.frame.kind == UIH && x.frame.address == b0.link.channels[j].address
    ensures |b.link.channels[j].ring| + |Payload(x)| <= b.link.channels[j].capacity
  {
    var c0, c, xs := b0.link.channels[j], b.link.channels[j], Since(b0.decoder.frames, b.decoder.frames);
    assert c0 in b0.link.channels && c in b.link.channels;
    SinceMonotone(b0.decoder.frames, b0.decoder.frames, b.decoder.frames);
    ReceivedConcat(b0.decoder.frames, xs, c0.address);
    FramesToStream(fs, xs + [x], c0.address);
    ReceivedSnoc(xs, x, c0.address);
  }

  lemma DispatchKeepsIntact(b0: End, b: End, j: nat, x: Received, fs: seq<Frame>)
    requires Living(b0) && Living(b) && j < |b0.link.channels| && Intact(b.link, j, b0.link.channels[j])
    requires b0.decoder.frames <= b.decoder.frames && Since(b0.decoder.frames, b.decoder.frames) + [x] <= Whole(fs)
    requires HasRoom(b0.link.channels[j], fs) && FromReceiver(x) && RingsFit(b.link)
    ensures Intact(OnFrame(b.link, x), j, b0.link.channels[j])
  {
    if x.frame.kind == UIH && x.frame.address == b0.link.channels[j].address {
      PayloadFits(b0, b, j, x, fs);
    }
    FrameKeepsOpen(b.link, x, j);
    FrameGrows(b.link, x, COMMAND_DATA_SIZE_MAX);
    assert ChannelGrows(b.link.channels[j], OnFrame(b.link, x).channels[j]);
  }

  /** The octets `stream` are part of the encoding of `fs`, which the channel has room for. */
  ghost predicate Holds(b0: End, j: nat, fs: seq<Frame>, stream: seq<byte>, rest: seq<byte>) {
    && Living(b0) && b0.decoder.rx.state == Sof && j < |b0.link.channels| && HasRoom(b0.link.channels[j], fs)
    && stream + rest == Encodes(fs)
    && forall f <- fs :: Decodable(f, b0.size) && (f.kind == UIH || f.data == [])
  }

  lemma NextDispatch(r0: Receiver, r: Receiver, size: nat, stream: seq<byte>, b: byte, fs: seq<Frame>, rest: seq<byte>)
    requires r0.rx.state == Sof && r == Feed(r0, size, stream) && stream + [b] + rest == Encodes(fs)
    requires forall f <- fs :: Decodable(f, size) && (f.kind == UIH || f.data == [])
    ensures var action := CmuxReceive.Step(r.rx, size, b).1;
            r0.frames <= r.frames
            && (action.Dispatch? ==> Since(r0.frames, r.frames) + [action.received] <= Whole(fs))
  {
    PartOfStream(r0, size, fs, stream + [b], rest);
    FeedExtends(r0, size, stream);
    FeedConcat(r0, size, stream, [b]);
    FeedOne(r, size, b);
    var action := CmuxReceive.Step(r.rx, size, b).1;
    if action.Dispatch? {
      SinceMonotone(r0.frames, r0.frames, r.frames);
      Associative(r0.frames, Since(r0.frames, r.frames), [action.received]);
      SinceAppended(r0.frames, Since(r0.frames, r.frames) + [action.received]);
      SinceMonotone(r0.frames, r.frames + [action.received], r0.frames + Whole(fs));
      SinceAppended(r0.frames, Whole(fs));
    }
  }

  lemma OctetKeepsIntact(b0: End, x: End, j: nat, stream: seq<byte>, b: byte, fs: seq<Frame>, rest: seq<byte>,
                         limit: nat)
    requires Takes(b0, x, stream, limit) && COMMAND_DATA_SIZE_MAX <= limit
    requires Holds(b0, j, fs, stream + [b], rest) && Intact(x.link, j, b0.link.channels[j])
    ensures Intact(Hears(x, b).link, j, b0.link.channels[j])
  {
    GoodFits(x.link);
    NextDispatch(b0.decoder, x.decoder, b0.size, stream, b, fs, rest);
    HeardMore(x.size, x.heard, b);
    var action := CmuxReceive.Step(x.decoder.rx, x.size, b).1;
    if action.Dispatch? {
      DispatchKeepsIntact(b0, x, j, action.received, fs);
    }
  }

  lemma HeadHeld(b0: End, j: nat, fs: seq<Frame>, stream: seq<byte>, bs: seq<byte>, rest: seq<byte>)
    requires Holds(b0, j, fs, stream + bs, rest) && bs != []
    ensures Holds(b0, j, fs, stream + [bs[0]], bs[1..] + rest)
    ensures Holds(b0, j, fs, stream + [bs[0]] + bs[1..], rest)
  {
    HeadMoves(stream, bs);
    Associative(stream + [bs[0]], bs[1..], rest);
  }

  lemma OctetTaken(b0: End, x: End, stream: seq<byte>, b: byte, limit: nat)
    requires Takes(b0, x, stream, limit) && COMMAND_DATA_SIZE_MAX <= limit
    ensures Takes(b0, Hears(x, b), stream + [b], limit)
  {
    ReceiverListens(b0, x, stream, [b], limit);
    HeardInTurn(x, [b]);
  }

  lemma {:induction false} ChunkKeepsIntact(b0: End, x: End, j: nat, stream: seq<byte>, bs: seq<byte>, fs: seq<Frame>,
                                            rest: seq<byte>, limit: nat)
    requires Takes(b0, x, stream, limit) && COMMAND_DATA_SIZE_MAX <= limit
    requires Holds(b0, j, fs, stream + bs, rest) && Intact(x.link, j, b0.link.channels[j])
    ensures Intact(HearsAll(x, bs).link, j, b0.link.channels[j])
    decreases |bs|
  {
    if bs != [] {
      HeardInTurn(x, bs);
      HeadHeld(b0, j, fs, stream, bs, rest);
      OctetKeepsIntact(b0, x, j, stream, bs[0], fs, bs[1..] + rest, limit);
      OctetTaken(b0, x, stream, bs[0], limit);
      ChunkKeepsIntact(b0, Hears(x, bs[0]), j, stream + [bs[0]], bs[1..], fs, rest, limit);
    }
  }

  lemma ChunkAndRest(s: System, n: nat)
    requires s.consumed + n <= |s.bus|
    ensures s.bus[..s.consumed] + Chunk(s, n) + (s.bus[s.consumed + n..] + s.a.link.ring) == s.bus + s.a.link.ring
  {
    ChunkTaken(s, n);
    assert s.bus[..s.consumed + n] + s.bus[s.consumed + n..] == s.bus;
    Associative(s.bus[..s.consumed + n], s.bus[s.consumed + n..], s.a.link.ring);
  }

  /** What a run needs of its start and of the frames it has queued. */
  ghost predicate Roomy(s0: System, s: System, j: nat) {
    && Start(s0) && s.a.decoder.resyncs == s0.a.decoder.resyncs && FitPeer(NewFrames(s0.a, s.a), s0.b.size)
    && j < |s0.b.link.channels| && HasRoom(s0.b.link.channels[j], NewFrames(s0.a, s.a))
  }

  lemma ChunkHeld(s0: System, s: System, n: nat, j: nat, limit: nat)
    requires Joined(s0, s, limit) && s.consumed + n <= |s.bus| && Roomy(s0, s, j)
    ensures Holds(s0.b, j, NewFrames(s0.a, s.a), s.bus[..s.consumed] + Chunk(s, n),
                  s.bus[s.consumed + n..] + s.a.link.ring)
  {
    ChunkAndRest(s, n);
    BusAndRing(s0.a, s.a, s.bus, limit);
    NewFramesDecodable(s0.a, s.a, s0.b.size);
  }

  lemma DeliverKeepsIntact(s0: System, s: System, n: nat, j: nat, limit: nat)
    requires Joined(s0, s, limit) && COMMAND_DATA_SIZE_MAX <= limit && s.consumed + n <= |s.bus|
    requires Roomy(s0, s, j) && Intact(s.b.link, j, s0.b.link.channels[j])
    ensures Intact(HearsAll(s.b, Chunk(s, n)).link, j, s0.b.link.channels[j])
  {
    ChunkHeld(s0, s, n, j, limit);
    ChunkKeepsIntact(s0.b, s.b, j, s.bus[..s.consumed], Chunk(s, n), NewFrames(s0.a, s.a),
                     s.bus[s.consumed + n..] + s.a.link.ring, limit);
  }

  lemma EventKeepsIntact(x: End, e: Event, j: nat, c0: Channel)
    requires Living(x) && CanDo(x, e) && Intact(x.link, j, c0) && e != OpenTimer(j) && e != CloseTimer(j)
    ensures Intact(Does(x, e).link, j, c0)
  {
    var limit := if e.Transmit? then |e.data| + COMMAND_DATA_SIZE_MAX else COMMAND_DATA_SIZE_MAX;
    OpenStaysOpen(x.link, e, j);
    NextMoves(x.link, e, limit);
    assert ChannelMoves(x.link.channels[j], Does(x, e).link.channels[j]);
  }

  lemma StepKeepsIntact(s0: System, s: System, t: Step, j: nat, limit: nat)
    requires Joined(s0, s, limit) && COMMAND_DATA_SIZE_MAX <= limit && Possible(s, t)
    requires Roomy(s0, s, j) && Intact(s.b.link, j, s0.b.link.channels[j])
    requires t != AtReceiver(OpenTimer(j)) && t != AtReceiver(CloseTimer(j))
    ensures Intact(After(s, t).b.link, j, s0.b.link.channels[j])
  {
    match t
    case AtReceiver(e) => EventKeepsIntact(s.b, e, j, s0.b.link.channels[j]);
    case Deliver(n) => DeliverKeepsIntact(s0, s, n, j, limit);
    case _ =>
  }

  lemma FramesGrow(a0: End, a: End, a': End, limit: nat)
    requires Further(a0, a, limit) && Further(a, a', limit)
    ensures NewFrames(a0, a) <= NewFrames(a0, a')
  {
    SinceMonotone(a0.link.queued, a.link.queued, a'.link.queued);
  }

  lemma FewerFit(fs: seq<Frame>, fs': seq<Frame>, size: nat)
    requires fs <= fs' && FitPeer(fs', size)
    ensures FitPeer(fs, size)
  {
    forall f <- fs ensures f in fs' {
    }
  }

  lemma FewerCarryLess(fs: seq<Frame>, fs': seq<Frame>, address: byte)
    requires fs <= fs'
    ensures |StreamOf(fs, address)| <= |StreamOf(fs', address)|
  {
    assert fs == fs'[..|fs|];
    StreamPrefix(fs', |fs|, address);
  }

  lemma EarlierRoomy(s0: System, s: System, s': System, j: nat, limit: nat)
    requires Joined(s0, s, limit) && Further(s.a, s'.a, limit) && Roomy(s0, s', j)
    ensures Roomy(s0, s, j)
  {
    var fs, fs' := NewFrames(s0.a, s.a), NewFrames(s0.a, s'.a);
    FramesGrow(s0.a, s.a, s'.a, limit);
    FewerFit(fs, fs', s0.b.size);
    FewerCarryLess(fs, fs', s0.b.link.channels[j].address);
  }

  lemma {:induction false} RunKeepsIntact(s0: System, s: System, ts: seq<Step>, s': System, j: nat, limit: nat)
    requires Joined(s0, s, limit) && SystemRuns(s, ts, s') && ShortCalls(ts, limit) && COMMAND_DATA_SIZE_MAX <= limit
    requires LeftOpen(ts, j) && Roomy(s0, s', j) && Intact(s.b.link, j, s0.b.link.channels[j])
    ensures Intact(s'.b.link, j, s0.b.link.channels[j])
    decreases |ts|
  {
    if ts != [] {
      RunKeepsJoined(s0, s, ts, s', limit);
      EarlierRoomy(s0, s, s', j, limit);
      assert ts[0] in ts;
      StepKeepsIntact(s0, s, ts[0], j, limit);
      StepKeepsJoined(s0, s, ts[0], limit);
      assert forall u <- ts[1..] :: u in ts;
      RunKeepsIntact(s0, After(s, ts[0]), ts[1..], s', j, limit);
    }
  }

  /** The receiving channel is open, has missed nothing, and has room for what was newly accepted for it. */
  predicate Ready(s0: System, s: System, i: nat, j: nat) {
    && Paired(s0, i, j) && i < |s.a.link.channels|
    && s0.b.link.channels[j].state == Open && s0.b.link.channels[j].intact
    && |s0.b.link.channels[j].ring| + |NewlyAccepted(s0.a, s.a, i)| <= s0.b.link.channels[j].capacity
  }

  /**
   The same from conditions on the calls alone: transmit calls of at most 255 octets within the peer's receive buffer,
   and a receiving channel that is open at the start, whose open and close timers do not fire, and whose ring has room
   for as much as was accepted for it.
   */
  lemma OpenChannelIsFaithful(s0: System, ts: seq<Step>, s: System, i: nat, j: nat)
    requires Start(s0) && SystemRuns(s0, ts, s) && s.a.decoder.resyncs == s0.a.decoder.resyncs
    requires ShortCalls(ts, ShortFor(s0.b)) && LeftOpen(ts, j) && Ready(s0, s, i, j)
    ensures Paired(s, i, j) && s.b.decoder.resyncs == s0.b.decoder.resyncs
    ensures s.b.link.channels[j].state == Open && s.b.link.channels[j].intact
    ensures Faithful(s, NewlyAccepted(s0.a, s.a, i), NewlyDelivered(s0.b, s.b, j))
  {
    var limit := ShortFor(s0.b);
    ShortRunsFit(s0, ts, s);
    StartJoined(s0, limit);
    AcceptedIsStream(s0.a, s.a, i, limit);
    RunKeepsIntact(s0, s0, ts, s, j, limit);
    ChannelFidelity(s0, ts, s, i, j);
  }
}
