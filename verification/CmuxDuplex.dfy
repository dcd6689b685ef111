/**
 Two multiplexers on two buses, each hearing only what the other put on its bus: neither decoder ever asks for a
 resynchronisation, and both directions are faithful.
 */
module CmuxDuplex {
  import opened Crc
  import opened Sequences
  import opened CmuxFrame
  import opened CmuxReceive
  import opened CmuxLink
  import opened CmuxRuns
  import opened CmuxChannels
  import opened CmuxEnds
  import opened CmuxBus
  import opened CmuxCalls

  /** `ab` and `ba` are the octets put on the two buses, `byB` and `byA` how many of them were heard. */
  datatype Duplex = Duplex(a: End, ab: seq<byte>, byB: nat, b: End, ba: seq<byte>, byA: nat)

  /** The buses are as asynchronous as the ends: an end hears one octet of the other's bus at any time. */
  datatype Move =
    | AtA(e: Event) | AtB(e: Event)
    | HeardByA(taken: nat) | HeardByB(taken: nat)

  /** The same with the ends changing places. */
  function Swapped(d: Duplex): Duplex { Duplex(d.b, d.ba, d.byA, d.a, d.ab, d.byB) }

  function SwappedMove(m: Move): Move {
    match m
    case AtA(e) => AtB(e)
    case AtB(e) => AtA(e)
    case HeardByA(taken) => HeardByB(taken)
    case HeardByB(taken) => HeardByA(taken)
  }

  predicate CanMove(d: Duplex, m: Move) {
    match m
    case AtA(e) => CanDo(d.a, e)
    case AtB(e) => CanDo(d.b, e)
    case HeardByA(taken) => d.byA < |d.ba| && taken <= 3
    case HeardByB(taken) => d.byB < |d.ab| && taken <= 3
  }

  function MovedA(d: Duplex, m: Move): Duplex
    requires CanMove(d, m) && (m.AtA? || m.HeardByA?)
  {
    match m
    case AtA(e) => d.(a := Does(d.a, e), ab := d.ab + Drained(d.a, e))
    case HeardByA(taken) =>
      var octet := d.ba[d.byA];
      d.(a := Hears(d.a, octet), ab := d.ab + Flags(d.a, octet, taken), byA := d.byA + 1)
  }

  function Moved(d: Duplex, m: Move): Duplex
    requires CanMove(d, m)
  {
    if m.AtA? || m.HeardByA? then MovedA(d, m) else Swapped(MovedA(Swapped(d), SwappedMove(m)))
  }

  ghost predicate DuplexRuns(d: Duplex, ms: seq<Move>, d': Duplex)
    decreases |ms|
  {
    if ms == [] then d' == d
    else CanMove(d, ms[0]) && DuplexRuns(Moved(d, ms[0]), ms[1..], d')
  }

  // ----- One direction

  /** The direction from `a` to `b`, for which what `a` hears is arbitrary. */
  function Forth(d: Duplex): System { System(d.a, d.ab, d.byB, d.b) }

  /** The direction from `b` to `a`. */
  function Back(d: Duplex): System { System(d.b, d.ba, d.byA, d.a) }

  function ForthStep(d: Duplex, m: Move): Step
    requires CanMove(d, m)
  {
    match m
    case AtA(e) => AtSender(e)
    case AtB(e) => AtReceiver(e)
    case HeardByA(taken) => SenderHears(d.ba[d.byA], taken)
    case HeardByB(_) => Deliver(1)
  }

  function BackStep(d: Duplex, m: Move): Step
    requires CanMove(d, m)
  {
    ForthStep(Swapped(d), SwappedMove(m))
  }

  lemma OneDelivered(x: End, bus: seq<byte>, k: nat)
    requires k < |bus|
    ensures HearsAll(x, bus[k..k + 1]) == Hears(x, bus[k])
  {
    assert bus[k..k + 1] == [bus[k]];
    HeardInTurn(x, [bus[k]]);
  }

  lemma MoveIsStep(d: Duplex, m: Move)
    requires CanMove(d, m)
    ensures Possible(Forth(d), ForthStep(d, m)) && Forth(Moved(d, m)) == After(Forth(d), ForthStep(d, m))
  {
    if m.HeardByB? {
      OneDelivered(d.b, d.ab, d.byB);
    }
  }

  lemma MoveIsBothSteps(d: Duplex, m: Move)
    requires CanMove(d, m)
    ensures Possible(Forth(d), ForthStep(d, m)) && Forth(Moved(d, m)) == After(Forth(d), ForthStep(d, m))
    ensures Possible(Back(d), BackStep(d, m)) && Back(Moved(d, m)) == After(Back(d), BackStep(d, m))
  {
    MoveIsStep(d, m);
    MoveIsStep(Swapped(d), SwappedMove(m));
  }

  function ForthSteps(d: Duplex, ms: seq<Move>): seq<Step>
    decreases |ms|
  {
    if ms == [] || !CanMove(d, ms[0]) then []
    else [ForthStep(d, ms[0])] + ForthSteps(Moved(d, ms[0]), ms[1..])
  }

  function BackSteps(d: Duplex, ms: seq<Move>): seq<Step>
    decreases |ms|
  {
    if ms == [] || !CanMove(d, ms[0]) then []
    else [BackStep(d, ms[0])] + BackSteps(Moved(d, ms[0]), ms[1..])
  }

  /** A run of both ends is a run of each direction. */
  lemma {:induction false} RunsForthAndBack(d: Duplex, ms: seq<Move>, d': Duplex)
    requires DuplexRuns(d, ms, d')
    ensures SystemRuns(Forth(d), ForthSteps(d, ms), Forth(d'))
    ensures SystemRuns(Back(d), BackSteps(d, ms), Back(d'))
    decreases |ms|
  {
    if ms != [] {
      MoveIsBothSteps(d, ms[0]);
      RunsForthAndBack(Moved(d, ms[0]), ms[1..], d');
      assert ForthSteps(d, ms)[1..] == ForthSteps(Moved(d, ms[0]), ms[1..]);
      assert BackSteps(d, ms)[1..] == BackSteps(Moved(d, ms[0]), ms[1..]);
    }
  }

  // ----- No end asks for a resynchronisation

  ghost predicate BothStart(d: Duplex) { Start(Forth(d)) && Start(Back(d)) }

  /** Both ends' frames since the start fit the other end. */
  predicate BothFit(d0: Duplex, d: Duplex) {
    FitPeer(NewFrames(d0.a, d.a), d0.b.size) && FitPeer(NewFrames(d0.b, d.b), d0.a.size)
  }

  ghost predicate Quiet(d0: Duplex, d: Duplex, limit: nat) {
    && Joined(Forth(d0), Forth(d), limit) && Joined(Back(d0), Back(d), limit)
    && d.a.decoder.resyncs == d0.a.decoder.resyncs && d.b.decoder.resyncs == d0.b.decoder.resyncs
  }

  predicate ShortMove(m: Move, limit: nat) {
    match m
    case AtA(e) => ShortCall(e, limit)
    case AtB(e) => ShortCall(e, limit)
    case _ => true
  }

  predicate ShortMoves(ms: seq<Move>, limit: nat) {
    forall m <- ms :: ShortMove(m, limit)
  }

  lemma MoveKeepsJoined(d0: Duplex, d: Duplex, m: Move, limit: nat)
    requires Joined(Forth(d0), Forth(d), limit) && Joined(Back(d0), Back(d), limit)
    requires CanMove(d, m) && ShortMove(m, limit) && COMMAND_DATA_SIZE_MAX <= limit
    ensures var d' := Moved(d, m);
            && Joined(Forth(d0), Forth(d'), limit) && Joined(Back(d0), Back(d'), limit)
            && Further(d.a, d'.a, limit) && Further(d.b, d'.b, limit)
  {
    MoveIsBothSteps(d, m);
    StepKeepsJoined(Forth(d0), Forth(d), ForthStep(d, m), limit);
    StepKeepsJoined(Back(d0), Back(d), BackStep(d, m), limit);
  }

  lemma {:induction false} MovesKeepJoined(d0: Duplex, d: Duplex, ms: seq<Move>, d': Duplex, limit: nat)
    requires Joined(Forth(d0), Forth(d), limit) && Joined(Back(d0), Back(d), limit)
    requires DuplexRuns(d, ms, d') && ShortMoves(ms, limit) && COMMAND_DATA_SIZE_MAX <= limit
    ensures Joined(Forth(d0), Forth(d'), limit) && Joined(Back(d0), Back(d'), limit)
    ensures Further(d.a, d'.a, limit) && Further(d.b, d'.b, limit)
    decreases |ms|
  {
    if ms == [] {
      NotFurther(d.a, limit);
      NotFurther(d.b, limit);
    } else {
      var d1 := Moved(d, ms[0]);
      assert ms[0] in ms;
      MoveKeepsJoined(d0, d, ms[0], limit);
      assert forall u <- ms[1..] :: u in ms;
      MovesKeepJoined(d0, d1, ms[1..], d', limit);
      FurtherTwice(d.a, d1.a, d'.a, limit);
      FurtherTwice(d.b, d1.b, d'.b, limit);
    }
  }

  lemma PeerStaysQuiet(s0: System, s: System, limit: nat)
    requires Start(s0) && Joined(s0, s, limit) && s.a.decoder.resyncs == s0.a.decoder.resyncs
    requires FitPeer(NewFrames(s0.a, s.a), s0.b.size)
    ensures s.b.decoder.resyncs == s0.b.decoder.resyncs
  {
    InboxIsPrefix(s0, s, limit);
  }

  lemma OnlyHearingChangesDecoders(d: Duplex, m: Move)
    requires CanMove(d, m)
    ensures !m.HeardByA? ==> Moved(d, m).a.decoder == d.a.decoder
    ensures !m.HeardByB? ==> Moved(d, m).b.decoder == d.b.decoder
  {
  }

  /** The octet an end hears is part of the frames that the other, quiet end has queued. */
  lemma MoveStaysQuiet(d0: Duplex, d: Duplex, m: Move, limit: nat)
    requires BothStart(d0) && Quiet(d0, d, limit) && CanMove(d, m) && ShortMove(m, limit)
    requires COMMAND_DATA_SIZE_MAX <= limit && BothFit(d0, Moved(d, m))
    ensures Quiet(d0, Moved(d, m), limit)
  {
    var d' := Moved(d, m);
    MoveKeepsJoined(d0, d, m, limit);
    OnlyHearingChangesDecoders(d, m);
    match m
    case HeardByA(_) => PeerStaysQuiet(Back(d0), Back(d'), limit);
    case HeardByB(_) => PeerStaysQuiet(Forth(d0), Forth(d'), limit);
    case _ =>
  }

  lemma EarlierFits(d0: Duplex, d: Duplex, d': Duplex, limit: nat)
    requires Joined(Forth(d0), Forth(d), limit) && Joined(Back(d0), Back(d), limit)
    requires Further(d.a, d'.a, limit) && Further(d.b, d'.b, limit) && BothFit(d0, d')
    ensures BothFit(d0, d)
  {
    FramesGrow(d0.a, d.a, d'.a, limit);
    FewerFit(NewFrames(d0.a, d.a), NewFrames(d0.a, d'.a), d0.b.size);
    FramesGrow(d0.b, d.b, d'.b, limit);
    FewerFit(NewFrames(d0.b, d.b), NewFrames(d0.b, d'.b), d0.a.size);
  }

  lemma {:induction false} RunStaysQuiet(d0: Duplex, d: Duplex, ms: seq<Move>, d': Duplex, limit: nat)
    requires BothStart(d0) && Quiet(d0, d, limit) && DuplexRuns(d, ms, d') && ShortMoves(ms, limit)
    requires COMMAND_DATA_SIZE_MAX <= limit && BothFit(d0, d')
    ensures Quiet(d0, d', limit)
    decreases |ms|
  {
    if ms != [] {
      var d1 := Moved(d, ms[0]);
      assert ms[0] in ms;
      MoveKeepsJoined(d0, d, ms[0], limit);
      assert forall u <- ms[1..] :: u in ms;
      MovesKeepJoined(d0, d1, ms[1..], d', limit);
      EarlierFits(d0, d1, d', limit);
      MoveStaysQuiet(d0, d, ms[0], limit);
      RunStaysQuiet(d0, d1, ms[1..], d', limit);
    }
  }

  lemma {:induction false} SomeLimit(ms: seq<Move>) returns (limit: nat)
    ensures ShortMoves(ms, limit) && COMMAND_DATA_SIZE_MAX <= limit
    decreases |ms|
  {
    if ms == [] {
      limit := COMMAND_DATA_SIZE_MAX;
    } else {
      limit := SomeLimit(ms[1..]);
      var m := ms[0];
      limit := if (m.AtA? || m.AtB?) && m.e.Transmit? then limit + |m.e.data| else limit;
      forall u <- ms ensures ShortMove(u, limit) {
        assert u == ms[0] || u in ms[1..];
      }
    }
  }

  /**
   Two ends, each of which hears only what the other put on its bus: whatever both call, drain and hear, in whatever
   order, neither asks for a resynchronisation, so that nothing but whole frames is ever on the buses.
   */
  lemma NeitherResynchronises(d0: Duplex, ms: seq<Move>, d: Duplex)
    requires BothStart(d0) && DuplexRuns(d0, ms, d) && BothFit(d0, d)
    ensures d.a.decoder.resyncs == d0.a.decoder.resyncs && d.b.decoder.resyncs == d0.b.decoder.resyncs
    ensures d.a.size == d0.a.size && d.b.size == d0.b.size
    ensures d.ab + d.a.link.ring == Encodes(NewFrames(d0.a, d.a))
    ensures d.ba + d.b.link.ring == Encodes(NewFrames(d0.b, d.b))
  {
    var limit := SomeLimit(ms);
    StartJoined(Forth(d0), limit);
    StartJoined(Back(d0), limit);
    RunStaysQuiet(d0, d0, ms, d, limit);
    BusAndRing(d0.a, d.a, d.ab, limit);
    BusAndRing(d0.b, d.b, d.ba, limit);
  }

  /** A channel that missed nothing delivered what the other end accepted, in one direction. */
  predicate FaithfulTo(s0: System, s: System, i: nat, j: nat)
    requires Paired(s0, i, j) && Paired(s, i, j)
  {
    s.b.link.channels[j].intact ==>
      && s0.a.link.channels[i].accepted <= s.a.link.channels[i].accepted
      && Delivered(s0.b.link.channels[j]) <= Delivered(s.b.link.channels[j])
      && Faithful(s, NewlyAccepted(s0.a, s.a, i), NewlyDelivered(s0.b, s.b, j))
  }

  lemma OneDirection(s0: System, ts: seq<Step>, s: System, i: nat, j: nat)
    requires Start(s0) && SystemRuns(s0, ts, s) && s.a.decoder.resyncs == s0.a.decoder.resyncs
    requires FitPeer(NewFrames(s0.a, s.a), s.b.size) && Paired(s0, i, j)
    ensures Paired(s, i, j) && FaithfulTo(s0, s, i, j)
  {
    ChannelFidelity(s0, ts, s, i, j);
  }

  /** Both directions are faithful, on no condition about resynchronisations. */
  lemma DuplexFidelity(d0: Duplex, ms: seq<Move>, d: Duplex, i: nat, j: nat)
    requires BothStart(d0) && DuplexRuns(d0, ms, d) && BothFit(d0, d) && Paired(Forth(d0), i, j)
    ensures Paired(Forth(d), i, j) && FaithfulTo(Forth(d0), Forth(d), i, j) && FaithfulTo(Back(d0), Back(d), j, i)
  {
    NeitherResynchronises(d0, ms, d);
    RunsForthAndBack(d0, ms, d);
    OneDirection(Forth(d0), ForthSteps(d0, ms), Forth(d), i, j);
    OneDirection(Back(d0), BackSteps(d0, ms), Back(d), j, i);
  }

  // ----- Conditions on the calls alone

  /** No open or close timer of the two channels fires. */
  predicate BothLeftOpen(ms: seq<Move>, i: nat, j: nat) {
    forall m <- ms ::
      && m != AtA(OpenTimer(i)) && m != AtA(CloseTimer(i))
      && m != AtB(OpenTimer(j)) && m != AtB(CloseTimer(j))
  }

  lemma {:induction false} StepsAreShort(d: Duplex, ms: seq<Move>, i: nat, j: nat, limit: nat)
    requires ShortMoves(ms, limit) && BothLeftOpen(ms, i, j)
    ensures ShortCalls(ForthSteps(d, ms), limit) && ShortCalls(BackSteps(d, ms), limit)
    ensures LeftOpen(ForthSteps(d, ms), j) && LeftOpen(BackSteps(d, ms), i)
    decreases |ms|
  {
    if ms != [] && CanMove(d, ms[0]) {
      assert ms[0] in ms;
      assert forall u <- ms[1..] :: u in ms;
      StepsAreShort(Moved(d, ms[0]), ms[1..], i, j, limit);
    }
  }

  function ShortForBoth(d: Duplex): nat {
    if ShortFor(d.a) < ShortFor(d.b) then ShortFor(d.a) else ShortFor(d.b)
  }

  lemma ShortMovesFit(d0: Duplex, ms: seq<Move>, d: Duplex)
    requires BothStart(d0) && DuplexRuns(d0, ms, d) && ShortMoves(ms, ShortForBoth(d0))
    ensures BothFit(d0, d)
  {
    var limit := ShortForBoth(d0);
    StartJoined(Forth(d0), limit);
    StartJoined(Back(d0), limit);
    MovesKeepJoined(d0, d0, ms, d, limit);
    ShortFramesFit(d0.a, d.a, d0.b.size, limit);
    ShortFramesFit(d0.b, d.b, d0.a.size, limit);
  }

  lemma ShorterCalls(ts: seq<Step>, limit: nat, more: nat)
    requires ShortCalls(ts, limit) && limit <= more
    ensures ShortCalls(ts, more)
  {
  }

  /**
   From conditions on the calls alone: short transmit calls at both ends, and a channel that is open at both, whose
   timers do not fire, and which has room at either for what the other accepted. Then it stays open at both, and
   delivers to both exactly what was accepted, in order, as far as ring and bus have carried it.
   */
  lemma OpenChannelIsFaithfulBothWays(d0: Duplex, ms: seq<Move>, d: Duplex, i: nat, j: nat)
    requires BothStart(d0) && DuplexRuns(d0, ms, d)
    requires ShortMoves(ms, ShortForBoth(d0)) && BothLeftOpen(ms, i, j)
    requires Ready(Forth(d0), Forth(d), i, j) && Ready(Back(d0), Back(d), j, i)
    ensures d.a.decoder.resyncs == d0.a.decoder.resyncs && d.b.decoder.resyncs == d0.b.decoder.resyncs
    ensures Paired(Forth(d), i, j) && d.a.link.channels[i].state == d.b.link.channels[j].state == Open
    ensures Faithful(Forth(d), NewlyAccepted(d0.a, d.a, i), NewlyDelivered(d0.b, d.b, j))
    ensures Faithful(Back(d), NewlyAccepted(d0.b, d.b, j), NewlyDelivered(d0.a, d.a, i))
  {
    ShortMovesFit(d0, ms, d);
    NeitherResynchronises(d0, ms, d);
    RunsForthAndBack(d0, ms, d);
    StepsAreShort(d0, ms, i, j, ShortForBoth(d0));
    ShorterCalls(ForthSteps(d0, ms), ShortForBoth(d0), ShortFor(d0.b));
    ShorterCalls(BackSteps(d0, ms), ShortForBoth(d0), ShortFor(d0.a));
    OpenChannelIsFaithful(Forth(d0), ForthSteps(d0, ms), Forth(d), i, j);
    OpenChannelIsFaithful(Back(d0), BackSteps(d0, ms), Back(d), j, i);
  }
}
