/**
 One end of a bus over its whole life: a link with its octet decoder, which has heard `heard` since initialisation with
 a receive buffer of `size`.
 */
module CmuxEnds {
  import opened Crc
  import opened Sequences
  import opened CmuxFrame
  import opened CmuxReceive
  import opened CmuxLink
  import opened CmuxRuns
  import opened CmuxChannels
  import CmuxDecoder

  datatype End = End(link: Link, decoder: Receiver, heard: seq<byte>, size: nat)

  const FRESH := Receiver(INITIAL, [], 0)

  function Does(x: End, e: Event): End
    requires RingsFit(x.link) && Enabled(x.link, e)
  {
    x.(link := Next(x.link, e))
  }

  function Hears(x: End, b: byte): End {
    var (decoder, link) := HearOctet(x.decoder, x.link, x.size, b);
    x.(link := link, decoder := decoder, heard := x.heard + [b])
  }

  function HearsAll(x: End, bs: seq<byte>): End {
    var (decoder, link) := Hear(x.decoder, x.link, x.size, bs);
    x.(link := link, decoder := decoder, heard := x.heard + bs)
  }

  lemma HeardInTurn(x: End, bs: seq<byte>)
    ensures HearsAll(x, bs) == if bs == [] then x else HearsAll(Hears(x, bs[0]), bs[1..])
  {
    HeadMoves(x.heard, bs);
  }

  /** What an end keeps from its initialisation on, whatever it does and hears. */
  ghost predicate Living(x: End) {
    && Good(x.link) && 126 <= x.size && x.decoder == Feed(FRESH, x.size, x.heard)
    && ChannelsDeliver(x.link, x.decoder.frames)
  }

  /** An end is living from its initialisation. */
  lemma BornLiving(l: Link, size: nat)
    requires Fresh(l) && 126 <= size
    ensures Living(End(l, FRESH, [], size))
  {
    assert Runs(l, [], l);
    EveryRunIsGood(l, [], l);
    forall c <- l.channels ensures Delivered(c) == ReceivedStream([], c.address) {
    }
  }

  /** Later in the same life: histories only grew, by frames of no more than `limit` octets. */
  ghost predicate Further(x: End, y: End, limit: nat) {
    Grows(x.link, y.link, limit) && x.decoder.resyncs <= y.decoder.resyncs && y.size == x.size
  }

  lemma NotFurther(x: End, limit: nat)
    ensures Further(x, x, limit)
  {
    SameMoves(x.link, x.link, limit);
  }

  lemma FurtherTwice(x: End, y: End, z: End, limit: nat)
    requires Further(x, y, limit) && Further(y, z, limit)
    ensures Further(x, z, limit)
  {
    GrowsTwice(x.link, y.link, z.link, limit);
  }

  lemma DoesKeepsLiving(x: End, e: Event, limit: nat)
    requires Living(x) && RingsFit(x.link) && Enabled(x.link, e) && !e.FrameReceived?
    requires COMMAND_DATA_SIZE_MAX <= limit && (e.Transmit? ==> |e.data| <= limit)
    ensures Living(Does(x, e)) && Further(x, Does(x, e), limit)
  {
    NextKeepsGood(x.link, e);
    NextMoves(x.link, e, limit);
    MovesDeliverNothing(x.link, Next(x.link, e), x.decoder.frames, limit);
  }

  lemma HeardMore(size: nat, before: seq<byte>, b: byte)
    requires 126 <= size
    ensures var r := Feed(FRESH, size, before);
            var action := CmuxReceive.Step(r.rx, size, b).1;
            Feed(FRESH, size, before + [b]) == FeedByte(r, size, b)
            && (action.Dispatch? ==> FromReceiver(action.received))
  {
    FeedConcat(FRESH, size, before, [b]);
    FeedOne(Feed(FRESH, size, before), size, b);
    CmuxDecoder.Soundness(size, before, b);
  }

  lemma HearsKeepsLiving(x: End, b: byte, limit: nat)
    requires Living(x) && COMMAND_DATA_SIZE_MAX <= limit
    ensures Living(Hears(x, b)) && Further(x, Hears(x, b), limit)
    ensures Hears(x, b).link.drained == x.link.drained
  {
    HeardMore(x.size, x.heard, b);
    OctetDelivers(x.decoder, x.link, x.size, b);
    GoodFits(x.link);
    var action := CmuxReceive.Step(x.decoder.rx, x.size, b).1;
    if action.Dispatch? {
      FrameGrows(x.link, action.received, limit);
      FrameDrainsNothing(x.link, action.received);
    } else {
      SameMoves(x.link, x.link, limit);
    }
  }

  lemma FrameDrainsNothing(l: Link, x: Received)
    requires RingsFit(l)
    ensures OnFrame(l, x).drained == l.drained
  {
    ControlFrameTouchesNoChannel(l, x);
  }

  lemma HeadMoves(stream: seq<byte>, bs: seq<byte>)
    ensures bs == [] ==> stream + bs == stream
    ensures bs != [] ==> stream + [bs[0]] + bs[1..] == stream + bs
  {
  }

  lemma {:induction false} HearsAllKeepsLiving(x: End, bs: seq<byte>, limit: nat)
    requires Living(x) && COMMAND_DATA_SIZE_MAX <= limit
    ensures var y := HearsAll(x, bs);
            && Living(y) && Further(x, y, limit) && y.link.drained == x.link.drained
            && y.decoder == Feed(x.decoder, x.size, bs) && y.heard == x.heard + bs
    decreases |bs|
  {
    HeadMoves(x.heard, bs);
    HeardInTurn(x, bs);
    if bs == [] {
      NotFurther(x, limit);
    } else {
      var x1 := Hears(x, bs[0]);
      HearsKeepsLiving(x, bs[0], limit);
      HearsAllKeepsLiving(x1, bs[1..], limit);
      FurtherTwice(x, x1, HearsAll(x, bs), limit);
    }
  }

  // ----- Lives

  /** One thing an end does by itself, or one octet it hears. */
  datatype Act = Local(e: Event) | Octet(b: byte)

  predicate CanDo(x: End, e: Event) {
    RingsFit(x.link) && Enabled(x.link, e) && !e.FrameReceived?
  }

  function Acts(x: End, act: Act): End
    requires act.Local? ==> CanDo(x, act.e)
  {
    match act
    case Local(e) => Does(x, e)
    case Octet(b) => Hears(x, b)
  }

  ghost predicate Lives(x: End, acts: seq<Act>, y: End)
    decreases |acts|
  {
    if acts == [] then y == x
    else (acts[0].Local? ==> CanDo(x, acts[0].e)) && Lives(Acts(x, acts[0]), acts[1..], y)
  }

  lemma {:induction false} LifeKeepsLiving(x: End, acts: seq<Act>, y: End)
    requires Living(x) && Lives(x, acts, y)
    ensures Living(y)
    decreases |acts|
  {
    if acts != [] {
      match acts[0] {
        case Local(e) => DoesKeepsLiving(x, e, if e.Transmit? then |e.data| + 4 else 4);
        case Octet(b) => HearsKeepsLiving(x, b, 4);
      }
      LifeKeepsLiving(Acts(x, acts[0]), acts[1..], y);
    }
  }

  /** Whatever an end did and heard since its initialisation, it is living. */
  lemma EveryLifeIsLiving(l: Link, size: nat, acts: seq<Act>, x: End)
    requires Fresh(l) && 126 <= size && Lives(End(l, FRESH, [], size), acts, x)
    ensures Living(x)
  {
    BornLiving(l, size);
    LifeKeepsLiving(End(l, FRESH, [], size), acts, x);
  }
}
