/**
 Two multiplexers on a bus: what a data channel of the receiving one delivers is what the transmit calls on the same
 channel of the sending one accepted. The bus carries what the sender's transmit work drains, and in between the flags
 that the sender's own decoder writes past the transmit ring when it has to resynchronise.
 */
module CmuxBus {
  import opened Crc
  import opened Sequences
  import opened CmuxFrame
  import opened CmuxReceive
  import opened CmuxLink
  import opened CmuxRuns
  import opened CmuxChannels
  import opened CmuxEnds
  import CmuxDecoder

  /** The sending end, the octets put on the bus since it was joined, how many of them were taken, the receiving end. */
  datatype System = System(a: End, bus: seq<byte>, consumed: nat, b: End)

  /** `taken` is how many of the three resynchronisation flags the pipe takes, when they are written. */
  datatype Step =
    | AtSender(e: Event)
    | SenderHears(octet: byte, taken: nat)
    | AtReceiver(e: Event)
    | Deliver(n: nat)

  const FLAGS: seq<byte> := [FLAG, FLAG, FLAG]

  predicate Possible(s: System, t: Step) {
    match t
    case AtSender(e) => CanDo(s.a, e)
    case SenderHears(_, taken) => taken <= 3
    case AtReceiver(e) => CanDo(s.b, e)
    case Deliver(n) => s.consumed + n <= |s.bus|
  }

  /** What an end's own event puts on its outgoing bus: the octets newly drained. */
  function Drained(x: End, e: Event): seq<byte>
    requires CanDo(x, e)
  {
    Since(x.link.drained, Next(x.link, e).drained)
  }

  /** What hearing an octet puts on it: the flags that the pipe takes, when the decoder asks for them. */
  function Flags(x: End, octet: byte, taken: nat): seq<byte>
    requires taken <= 3
  {
    if Hears(x, octet).decoder.resyncs != x.decoder.resyncs then FLAGS[..taken] else []
  }

  /** The next octets of the bus. */
  function Chunk(s: System, n: nat): seq<byte>
    requires s.consumed + n <= |s.bus|
  {
    s.bus[s.consumed..s.consumed + n]
  }

  function After(s: System, t: Step): System
    requires Possible(s, t)
  {
    match t
    case AtSender(e) => s.(a := Does(s.a, e), bus := s.bus + Drained(s.a, e))
    case SenderHears(octet, taken) => s.(a := Hears(s.a, octet), bus := s.bus + Flags(s.a, octet, taken))
    case AtReceiver(e) => s.(b := Does(s.b, e))
    case Deliver(n) => s.(b := HearsAll(s.b, Chunk(s, n)), consumed := s.consumed + n)
  }

  ghost predicate SystemRuns(s: System, ts: seq<Step>, s': System)
    decreases |ts|
  {
    if ts == [] then s' == s
    else Possible(s, ts[0]) && SystemRuns(After(s, ts[0]), ts[1..], s')
  }

  /**
   The bus is joined by two ends that have lived on their own, or together, for any time: whatever was sent before has
   left the ring, and the receiving decoder is between frames.
   */
  ghost predicate Start(s: System) {
    && Living(s.a) && Living(s.b) && s.a.link.ring == [] && s.b.decoder.rx.state == Sof
    && s.bus == [] && s.consumed == 0
  }

  // ----- What every run keeps

  /** A sending end has come from `a0`, and put `bus` on its bus. */
  ghost predicate Sends(a0: End, a: End, bus: seq<byte>, limit: nat) {
    && Living(a) && Further(a0, a, limit)
    && (a.decoder.resyncs == a0.decoder.resyncs ==> a.link.drained == a0.link.drained + bus)
  }

  /** A receiving end has come from `b0`, and taken `stream` from its bus. */
  ghost predicate Takes(b0: End, b: End, stream: seq<byte>, limit: nat) {
    Living(b) && Further(b0, b, limit) && b.decoder == Feed(b0.decoder, b0.size, stream)
  }

  /** How both ends and the bus stand to the start `s0`. */
  ghost predicate Joined(s0: System, s: System, limit: nat) {
    && Sends(s0.a, s.a, s.bus, limit)
    && s.consumed <= |s.bus| && Takes(s0.b, s.b, s.bus[..s.consumed], limit)
  }

  lemma StartJoined(s: System, limit: nat)
    requires Start(s)
    ensures Joined(s, s, limit)
  {
    NotFurther(s.a, limit);
    NotFurther(s.b, limit);
    assert s.a.link.drained + [] == s.a.link.drained;
  }

  predicate ShortCall(e: Event, limit: nat) {
    e.Transmit? ==> |e.data| <= limit
  }

  predicate Within(t: Step, limit: nat) {
    match t
    case AtSender(e) => ShortCall(e, limit)
    case AtReceiver(e) => ShortCall(e, limit)
    case _ => true
  }

  lemma SenderDoes(a0: End, a: End, bus: seq<byte>, e: Event, limit: nat)
    requires Sends(a0, a, bus, limit) && CanDo(a, e) && ShortCall(e, limit) && COMMAND_DATA_SIZE_MAX <= limit
    ensures Sends(a0, Does(a, e), bus + Drained(a, e), limit) && Further(a, Does(a, e), limit)
  {
    var a' := Does(a, e);
    DoesKeepsLiving(a, e, limit);
    FurtherTwice(a0, a, a', limit);
    SinceMonotone(a.link.drained, a.link.drained, a'.link.drained);
    Associative(a0.link.drained, bus, Drained(a, e));
  }

  lemma SenderListens(a0: End, a: End, bus: seq<byte>, octet: byte, taken: nat, limit: nat)
    requires Sends(a0, a, bus, limit) && taken <= 3 && COMMAND_DATA_SIZE_MAX <= limit
    ensures Sends(a0, Hears(a, octet), bus + Flags(a, octet, taken), limit) && Further(a, Hears(a, octet), limit)
  {
    HearsKeepsLiving(a, octet, limit);
    FurtherTwice(a0, a, Hears(a, octet), limit);
    assert bus + [] == bus;
  }

  lemma ReceiverDoes(b0: End, b: End, stream: seq<byte>, e: Event, limit: nat)
    requires Takes(b0, b, stream, limit) && CanDo(b, e) && ShortCall(e, limit) && COMMAND_DATA_SIZE_MAX <= limit
    ensures Takes(b0, Does(b, e), stream, limit)
  {
    DoesKeepsLiving(b, e, limit);
    FurtherTwice(b0, b, Does(b, e), limit);
  }

  lemma ReceiverListens(b0: End, b: End, stream: seq<byte>, chunk: seq<byte>, limit: nat)
    requires Takes(b0, b, stream, limit) && COMMAND_DATA_SIZE_MAX <= limit
    ensures Takes(b0, HearsAll(b, chunk), stream + chunk, limit)
  {
    HearsAllKeepsLiving(b, chunk, limit);
    FurtherTwice(b0, b, HearsAll(b, chunk), limit);
    FeedConcat(b0.decoder, b0.size, stream, chunk);
  }

  lemma BusGrows(bus: seq<byte>, more: seq<byte>, k: nat)
    requires k <= |bus|
    ensures (bus + more)[..k] == bus[..k]
  {
  }

  lemma ChunkTaken(s: System, n: nat)
    requires s.consumed + n <= |s.bus|
    ensures s.bus[..s.consumed] + Chunk(s, n) == s.bus[..s.consumed + n]
  {
  }

  lemma SenderStep(s0: System, s: System, t: Step, limit: nat)
    requires Joined(s0, s, limit) && Possible(s, t) && Within(t, limit) && COMMAND_DATA_SIZE_MAX <= limit
    requires t.AtSender? || t.SenderHears?
    ensures Joined(s0, After(s, t), limit) && Further(s.a, After(s, t).a, limit)
  {
    match t
    case AtSender(e) =>
      SenderDoes(s0.a, s.a, s.bus, e, limit);
      BusGrows(s.bus, Drained(s.a, e), s.consumed);
    case SenderHears(octet, taken) =>
      SenderListens(s0.a, s.a, s.bus, octet, taken, limit);
      BusGrows(s.bus, Flags(s.a, octet, taken), s.consumed);
  }

  lemma StepKeepsJoined(s0: System, s: System, t: Step, limit: nat)
    requires Joined(s0, s, limit) && Possible(s, t) && Within(t, limit) && COMMAND_DATA_SIZE_MAX <= limit
    ensures Joined(s0, After(s, t), limit) && Further(s.a, After(s, t).a, limit)
  {
    match t
    case AtSender(e) => SenderStep(s0, s, t, limit);
    case SenderHears(octet, taken) => SenderStep(s0, s, t, limit);
    case AtReceiver(e) =>
      ReceiverDoes(s0.b, s.b, s.bus[..s.consumed], e, limit);
      NotFurther(s.a, limit);
    case Deliver(n) =>
      ReceiverListens(s0.b, s.b, s.bus[..s.consumed], Chunk(s, n), limit);
      ChunkTaken(s, n);
      NotFurther(s.a, limit);
  }

  predicate ShortCalls(ts: seq<Step>, limit: nat) {
    forall t <- ts :: Within(t, limit)
  }

  lemma {:induction false} RunKeepsJoined(s0: System, s: System, ts: seq<Step>, s': System, limit: nat)
    requires Joined(s0, s, limit) && SystemRuns(s, ts, s') && ShortCalls(ts, limit) && COMMAND_DATA_SIZE_MAX <= limit
    ensures Joined(s0, s', limit) && Further(s.a, s'.a, limit)
    decreases |ts|
  {
    if ts == [] {
      NotFurther(s.a, limit);
    } else {
      assert ts[0] in ts;
      StepKeepsJoined(s0, s, ts[0], limit);
      assert forall u <- ts[1..] :: u in ts;
      RunKeepsJoined(s0, After(s, ts[0]), ts[1..], s', limit);
      FurtherTwice(s.a, After(s, ts[0]).a, s'.a, limit);
    }
  }

  /** Every run has calls of some largest size. */
  function Largest(ts: seq<Step>): nat {
    if ts == [] then COMMAND_DATA_SIZE_MAX
    else
      var rest := Largest(ts[1..]);
      match ts[0]
      case AtSender(Transmit(_, data)) => if rest < |data| then |data| else rest
      case AtReceiver(Transmit(_, data)) => if rest < |data| then |data| else rest
      case _ => rest
  }

  lemma {:induction false} LargestBounds(ts: seq<Step>, limit: nat)
    requires Largest(ts) <= limit
    ensures ShortCalls(ts, limit) && COMMAND_DATA_SIZE_MAX <= Largest(ts)
    decreases |ts|
  {
    if ts != [] {
      LargestBounds(ts[1..], limit);
      forall t <- ts ensures Within(t, limit) {
        assert t == ts[0] || t in ts[1..];
      }
    }
  }

  // ----- Fidelity

  /** The frames an end queued since `a0`. */
  function NewFrames(a0: End, a: End): seq<Frame> { Since(a0.link.queued, a.link.queued) }

  /** Without flags, bus and ring hold exactly the frames queued since the start. */
  lemma BusAndRing(a0: End, a: End, bus: seq<byte>, limit: nat)
    requires Living(a0) && a0.link.ring == [] && Sends(a0, a, bus, limit) && a.decoder.resyncs == a0.decoder.resyncs
    ensures bus + a.link.ring == Encodes(NewFrames(a0, a))
  {
    var before, fs := a0.link.drained, NewFrames(a0, a);
    assert before + [] == before;
    SinceMonotone(a0.link.queued, a0.link.queued, a.link.queued);
    EncodesConcat(a0.link.queued, fs);
    Associative(before, bus, a.link.ring);
    SameFront(before, bus + a.link.ring, Encodes(fs));
  }

  lemma NewFramesDecodable(a0: End, a: End, size: nat)
    requires Living(a) && a0.link.queued <= a.link.queued && FitPeer(NewFrames(a0, a), size)
    ensures forall f <- NewFrames(a0, a) :: Decodable(f, size) && (f.kind == UIH || f.data == [])
  {
    forall f <- NewFrames(a0, a) ensures f in a.link.queued {
    }
    FramesDecodable(NewFrames(a0, a), size);
  }

  lemma DecodedPart(start: Receiver, size: nat, fs: seq<Frame>, bus: seq<byte>, k: nat, ring: seq<byte>)
    requires start.rx.state == Sof && bus + ring == Encodes(fs) && k <= |bus|
    requires forall f <- fs :: Decodable(f, size) && (f.kind == UIH || f.data == [])
    ensures var r := Feed(start, size, bus[..k]);
            && start.frames <= r.frames <= start.frames + Whole(fs) && r.resyncs == start.resyncs
            && (ring == [] && k == |bus| ==> r.frames == start.frames + Whole(fs))
  {
    Associative(bus[..k], bus[k..], ring);
    assert bus[..k] + bus[k..] == bus;
    PartOfStream(start, size, fs, bus[..k], bus[k..] + ring);
  }

  /** What the receiving decoder has dispatched since is the beginning of those frames, without a resynchronisation. */
  lemma InboxIsPrefix(s0: System, s: System, limit: nat)
    requires Start(s0) && Joined(s0, s, limit) && s.a.decoder.resyncs == s0.a.decoder.resyncs
    requires FitPeer(NewFrames(s0.a, s.a), s.b.size)
    ensures var r0, r, fs := s0.b.decoder, s.b.decoder, NewFrames(s0.a, s.a);
            && r0.frames <= r.frames && Since(r0.frames, r.frames) <= Whole(fs) && r.resyncs == r0.resyncs
            && (s.a.link.ring == [] && s.consumed == |s.bus| ==> Since(r0.frames, r.frames) == Whole(fs))
  {
    var r0, fs := s0.b.decoder, NewFrames(s0.a, s.a);
    BusAndRing(s0.a, s.a, s.bus, limit);
    NewFramesDecodable(s0.a, s.a, s.b.size);
    DecodedPart(r0, s0.b.size, fs, s.bus, s.consumed, s.a.link.ring);
    SinceMonotone(r0.frames, s.b.decoder.frames, r0.frames + Whole(fs));
    SinceAppended(r0.frames, Whole(fs));
  }

  /** What a channel delivered of what was accepted for it: a prefix, and everything once ring and bus are empty. */
  predicate Faithful(s: System, accepted: seq<byte>, delivered: seq<byte>) {
    delivered <= accepted
    && (s.a.link.ring == [] && s.consumed == |s.bus| ==> delivered == accepted)
  }

  /** The octets accepted for channel `i` since `a0`. */
  function NewlyAccepted(a0: End, a: End, i: nat): seq<byte>
    requires i < |a0.link.channels| && i < |a.link.channels|
  {
    Since(a0.link.channels[i].accepted, a.link.channels[i].accepted)
  }

  /** The octets that channel `j` delivered since `b0`. */
  function NewlyDelivered(b0: End, b: End, j: nat): seq<byte>
    requires j < |b0.link.channels| && j < |b.link.channels|
  {
    Since(Delivered(b0.link.channels[j]), Delivered(b.link.channels[j]))
  }

  lemma AcceptedIsStream(a0: End, a: End, i: nat, limit: nat)
    requires Living(a0) && Living(a) && Further(a0, a, limit) && i < |a0.link.channels|
    ensures i < |a.link.channels| && a0.link.channels[i].accepted <= a.link.channels[i].accepted
    ensures NewlyAccepted(a0, a, i) == StreamOf(NewFrames(a0, a), a0.link.channels[i].address)
  {
    var c0, c, fs := a0.link.channels[i], a.link.channels[i], NewFrames(a0, a);
    assert c0 in a0.link.channels && c in a.link.channels && ChannelGrows(c0, c);
    SinceMonotone(a0.link.queued, a0.link.queued, a.link.queued);
    StreamConcat(a0.link.queued, fs, c0.address);
    SinceAppended(c0.accepted, StreamOf(fs, c0.address));
  }

  lemma DeliveredIsStream(b0: End, b: End, j: nat, limit: nat)
    requires Living(b0) && Living(b) && Further(b0, b, limit) && b0.decoder.frames <= b.decoder.frames
    requires j < |b0.link.channels| && j < |b.link.channels| && b.link.channels[j].intact
    ensures Delivered(b0.link.channels[j]) <= Delivered(b.link.channels[j])
    ensures NewlyDelivered(b0, b, j) ==
            ReceivedStream(Since(b0.decoder.frames, b.decoder.frames), b0.link.channels[j].address)
  {
    var c0, c, xs := b0.link.channels[j], b.link.channels[j], Since(b0.decoder.frames, b.decoder.frames);
    assert c0 in b0.link.channels && c in b.link.channels && ChannelGrows(c0, c);
    SinceMonotone(b0.decoder.frames, b0.decoder.frames, b.decoder.frames);
    ReceivedConcat(b0.decoder.frames, xs, c0.address);
    SinceAppended(Delivered(c0), ReceivedStream(xs, c0.address));
  }

  /** The two ends' channels of one address are on the bus together. */
  predicate Paired(s: System, i: nat, j: nat) {
    && i < |s.a.link.channels| && j < |s.b.link.channels|
    && s.a.link.channels[i].address == s.b.link.channels[j].address
  }

  lemma JoinedIsFaithful(s0: System, s: System, i: nat, j: nat, limit: nat)
    requires Start(s0) && Joined(s0, s, limit) && s.a.decoder.resyncs == s0.a.decoder.resyncs
    requires FitPeer(NewFrames(s0.a, s.a), s.b.size) && Paired(s0, i, j) && Paired(s, i, j)
    requires s.b.link.channels[j].intact
    ensures s0.a.link.channels[i].accepted <= s.a.link.channels[i].accepted
    ensures Delivered(s0.b.link.channels[j]) <= Delivered(s.b.link.channels[j])
    ensures Faithful(s, NewlyAccepted(s0.a, s.a, i), NewlyDelivered(s0.b, s.b, j))
    ensures s.b.decoder.resyncs == s0.b.decoder.resyncs
  {
    InboxIsPrefix(s0, s, limit);
    AcceptedIsStream(s0.a, s.a, i, limit);
    DeliveredIsStream(s0.b, s.b, j, limit);
    FramesToStream(NewFrames(s0.a, s.a), Since(s0.b.decoder.frames, s.b.decoder.frames),
                   s0.a.link.channels[i].address);
  }

  lemma StillPaired(s0: System, s: System, i: nat, j: nat, limit: nat)
    requires Joined(s0, s, limit) && Paired(s0, i, j)
    ensures Paired(s, i, j)
  {
    assert ChannelGrows(s0.a.link.channels[i], s.a.link.channels[i]);
    assert ChannelGrows(s0.b.link.channels[j], s.b.link.channels[j]);
  }

  /** The run as a whole: what it keeps, for the largest of its calls. */
  lemma RunIsJoined(s0: System, ts: seq<Step>, s: System, limit: nat)
    requires Start(s0) && SystemRuns(s0, ts, s) && Largest(ts) <= limit
    ensures Joined(s0, s, limit)
  {
    LargestBounds(ts, limit);
    StartJoined(s0, limit);
    RunKeepsJoined(s0, s0, ts, s, limit);
  }

  /**
   After any interleaving of calls and timers at both ends, octets heard by the sending end, partial drains of the
   transmit ring and chunks of the bus, in which the sending end's own decoder asked for no resynchronisation: what a
   channel delivered since the bus was joined is a prefix of what was accepted at the other end for the same address
   since then, and all of it once ring and bus are empty, provided that every data frame for it found it open with room.
   */
  lemma ChannelFidelity(s0: System, ts: seq<Step>, s: System, i: nat, j: nat)
    requires Start(s0) && SystemRuns(s0, ts, s) && s.a.decoder.resyncs == s0.a.decoder.resyncs
    requires FitPeer(NewFrames(s0.a, s.a), s.b.size) && Paired(s0, i, j)
    ensures Paired(s, i, j)
    ensures s.b.link.channels[j].intact ==>
              && s0.a.link.channels[i].accepted <= s.a.link.channels[i].accepted
              && Delivered(s0.b.link.channels[j]) <= Delivered(s.b.link.channels[j])
              && Faithful(s, NewlyAccepted(s0.a, s.a, i), NewlyDelivered(s0.b, s.b, j))
              && s.b.decoder.resyncs == s0.b.decoder.resyncs
  {
    var limit := Largest(ts);
    RunIsJoined(s0, ts, s, limit);
    StillPaired(s0, s, i, j, limit);
    if s.b.link.channels[j].intact {
      JoinedIsFaithful(s0, s, i, j, limit);
    }
  }
}
