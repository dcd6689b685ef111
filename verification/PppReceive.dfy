/**
 The receiver: a six-state octet machine that writes into a packet buffer.

 Every octet comes with the room an allocation made at that moment would be given, 0 when it would fail.
 */
module PppReceive {
  import opened Crc
  import opened Sequences
  import opened PppFrame

  datatype RxState = HdrSof | HdrFf | Hdr7d | Hdr23 | Writing | Unescaping

  datatype RxPacket = NoPacket | RxPacket(data: seq<byte>, room: nat)

  datatype Rx = Rx(state: RxState, packet: RxPacket)

  const IDLE := Rx(HdrSof, NoPacket)

  /** A packet is held exactly while one is being written. */
  predicate Consistent(r: Rx) {
    r.packet.RxPacket? <==> r.state == Writing || r.state == Unescaping
  }

  function RemoveTail(data: seq<byte>): seq<byte> {
    if |data| < 2 then data else data[..|data| - 2]
  }

  function Write(p: RxPacket, b: byte): Rx
    requires p.RxPacket?
  {
    if p.room == 0 then IDLE else Rx(Writing, RxPacket(p.data + [b], p.room - 1))
  }

  function Grown(p: RxPacket, grant: nat): RxPacket
    requires p.RxPacket?
  {
    if p.room != 1 then p else if grant == 0 then NoPacket else p.(room := 1 + grant)
  }

  datatype Receiver = Receiver(rx: Rx, delivered: seq<seq<byte>>)

  function Step(r: Receiver, b: byte, grant: nat): (r': Receiver)
    requires Consistent(r.rx)
    ensures Consistent(r'.rx)
  {
    match r.rx.state
    case HdrSof => if b == FLAG then r.(rx := Rx(HdrFf, NoPacket)) else r
    case HdrFf =>
      if b == FLAG then r else r.(rx := Rx(if b == 0xFF then Hdr7d else HdrSof, NoPacket))
    case Hdr7d => r.(rx := Rx(if b == ESCAPE then Hdr23 else HdrSof, NoPacket))
    case Hdr23 => r.(rx := if b == 0x23 && grant != 0 then Rx(Writing, RxPacket([], grant)) else IDLE)
    case Writing =>
      if b == FLAG then Receiver(IDLE, r.delivered + [RemoveTail(r.rx.packet.data)])
      else
        var p := Grown(r.rx.packet, grant);
        if p.NoPacket? then r.(rx := IDLE)
        else if b == ESCAPE then r.(rx := Rx(Unescaping, p))
        else r.(rx := Write(p, b))
    case Unescaping => r.(rx := Write(r.rx.packet, b ^ 0x20))
  }

  function Feed(r: Receiver, bs: seq<byte>, grants: seq<nat>): (r': Receiver)
    requires Consistent(r.rx) && |bs| == |grants|
    ensures Consistent(r'.rx)
    decreases |bs|
  {
    if bs == [] then r else Feed(Step(r, bs[0], grants[0]), bs[1..], grants[1..])
  }

  /** Chunking does not matter. */
  lemma {:induction false} FeedConcat(r: Receiver, a: seq<byte>, b: seq<byte>, grants: seq<nat>)
    requires Consistent(r.rx) && |a| + |b| == |grants|
    ensures Feed(r, a + b, grants) == Feed(Feed(r, a, grants[..|a|]), b, grants[|a|..])
    decreases |a|
  {
    if a == [] {
      assert a + b == b && grants[0..] == grants;
    } else {
      assert (a + b)[0] == a[0] && (a + b)[1..] == a[1..] + b;
      assert grants[1..][..|a| - 1] == grants[..|a|][1..];
      assert grants[1..][|a| - 1..] == grants[|a|..];
      FeedConcat(Step(r, a[0], grants[0]), a[1..], b, grants[1..]);
    }
  }

  lemma FeedOne(r: Receiver, b: byte, grants: seq<nat>)
    requires Consistent(r.rx) && |grants| == 1
    ensures Feed(r, [b], grants) == Step(r, b, grants[0])
  {
    assert [b][1..] == [];
  }

  predicate Positive(grants: seq<nat>) { forall i | 0 <= i < |grants| :: 0 < grants[i] }

  /** Between frames. */
  predicate Ready(rx: Rx) { (rx.state == HdrSof || rx.state == HdrFf) && rx.packet == NoPacket }

  // ----- Inside a frame

  /** Stuffed octets are written unstuffed, or the packet is dropped because an allocation failed. */
  ghost predicate Wrote(r: Receiver, r': Receiver, d: seq<byte>, sure: bool)
    requires r.rx.packet.RxPacket?
  {
    && r'.delivered == r.delivered
    && if r'.rx.state == Writing
       then r'.rx.packet.RxPacket? && r'.rx.packet.data == r.rx.packet.data + d && (sure ==> 0 < r'.rx.packet.room)
       else r'.rx == IDLE && !sure
  }

  lemma OctetWritten(r: Receiver, b: byte, grants: seq<nat>)
    requires Consistent(r.rx) && r.rx.state == Writing && |grants| == |Escape(b)|
    ensures Wrote(r, Feed(r, Escape(b), grants), [b], 0 < r.rx.packet.room && Positive(grants))
  {
    if Special(b) {
      var r1 := Step(r, ESCAPE, grants[0]);
      assert Escape(b)[1..] == [b ^ 0x20];
      FeedOne(r1, b ^ 0x20, grants[1..]);
      assert (b ^ 0x20) ^ 0x20 == b;
      SpecialIsNoFlag(b);
    } else {
      FeedOne(r, b, grants);
    }
  }

  lemma SpecialIsNoFlag(b: byte)
    requires Special(b)
    ensures b ^ 0x20 != FLAG
  {
  }

  /** Outside a frame everything but a flag is skipped. */
  lemma {:induction false} Skipped(r: Receiver, s: seq<byte>, grants: seq<nat>)
    requires r.rx == IDLE && FLAG !in s && |grants| == |s|
    ensures Feed(r, s, grants) == r
    decreases |s|
  {
    if s != [] {
      assert s[0] in s && Step(r, s[0], grants[0]) == r;
      Skipped(r, s[1..], grants[1..]);
    }
  }

  lemma PositiveParts(grants: seq<nat>, k: nat)
    requires k <= |grants| && Positive(grants)
    ensures Positive(grants[..k]) && Positive(grants[k..])
  {
  }

  lemma StuffHasNoFlag(d: seq<byte>)
    ensures FLAG !in Stuff(d)
  {
    StuffInterior(d);
  }

  lemma {:induction false} StuffedWritten(r: Receiver, d: seq<byte>, grants: seq<nat>)
    requires Consistent(r.rx) && r.rx.state == Writing && |grants| == |Stuff(d)|
    ensures Wrote(r, Feed(r, Stuff(d), grants), d, 0 < r.rx.packet.room && Positive(grants))
    decreases |d|
  {
    if d == [] {
      assert r.rx.packet.data + d == r.rx.packet.data;
    } else {
      var k := |Escape(d[0])|;
      var first, rest := grants[..k], grants[k..];
      OctetWritten(r, d[0], first);
      FeedConcat(r, Escape(d[0]), Stuff(d[1..]), grants);
      var r1 := Feed(r, Escape(d[0]), first);
      if Positive(grants) {
        PositiveParts(grants, k);
      }
      if r1.rx.state == Writing {
        StuffedWritten(r1, d[1..], rest);
        assert r.rx.packet.data + [d[0]] + d[1..] == r.rx.packet.data + d;
      } else {
        StuffHasNoFlag(d[1..]);
        Skipped(r1, Stuff(d[1..]), rest);
      }
    }
  }

  // ----- Whole frames

  /** What the receiver makes of the octets behind the header of a frame. */
  function Trailer(p: Packet): seq<byte> {
    var fcs := Crc16(FCS_INIT, HEADER + Payload(p)) ^ 0xFFFF;
    Payload(p) + [Low(fcs), High(fcs)]
  }

  lemma EncodeParts(p: Packet)
    ensures Encode(p) == [FLAG, 0xFF, ESCAPE, 0x23] + Stuff(Trailer(p)) + [FLAG]
    ensures RemoveTail(Trailer(p)) == Payload(p)
    ensures FLAG !in Stuff(Content(p))
  {
    assert Content(p) == HEADER + Trailer(p);
    StuffConcat(HEADER, Trailer(p));
    HeaderStuffed();
    StuffHasNoFlag(Content(p));
    assert Trailer(p)[..|Payload(p)|] == Payload(p);
    assert [FLAG] + ([0xFF, ESCAPE, 0x23] + Stuff(Trailer(p))) + [FLAG] == Encode(p);
  }

  lemma HeaderFed(r: Receiver, grants: seq<nat>)
    requires Consistent(r.rx) && Ready(r.rx) && |grants| == 4
    ensures Feed(r, [FLAG, 0xFF, ESCAPE, 0x23], grants) ==
            r.(rx := if grants[3] == 0 then IDLE else Rx(Writing, RxPacket([], grants[3])))
  {
    var r1 := Step(r, FLAG, grants[0]);
    assert r1 == r.(rx := Rx(HdrFf, NoPacket));
    var r2 := Step(r1, 0xFF, grants[1]);
    assert r2 == r.(rx := Rx(Hdr7d, NoPacket));
    var r3 := Step(r2, ESCAPE, grants[2]);
    assert r3 == r.(rx := Rx(Hdr23, NoPacket));
    var s: seq<byte> := [FLAG, 0xFF, ESCAPE, 0x23];
    assert s[1..] == [0xFF, ESCAPE, 0x23] && s[1..][1..] == [ESCAPE, 0x23] && s[1..][1..][1..] == [0x23];
    assert grants[1..][1..][1..] == [grants[3]];
    FeedOne(r3, 0x23, [grants[3]]);
    assert Feed(r, s, grants) == Feed(r1, s[1..], grants[1..]);
    assert Feed(r1, s[1..], grants[1..]) == Feed(r2, s[1..][1..], grants[1..][1..]);
  }

  /** A frame with whatever content behind its header, its octets stuffed. */
  function Stuffed(d: seq<byte>): seq<byte> {
    [FLAG, 0xFF, ESCAPE, 0x23] + Stuff(d) + [FLAG]
  }

  /** From between frames, any content is delivered without its last two octets, or not at all. */
  lemma ContentDelivered(r: Receiver, d: seq<byte>, grants: seq<nat>)
    requires Consistent(r.rx) && Ready(r.rx) && |grants| == |Stuffed(d)|
    ensures var r' := Feed(r, Stuffed(d), grants);
            && Ready(r'.rx)
            && (r' == Receiver(IDLE, r.delivered + [RemoveTail(d)]) ||
                (r'.delivered == r.delivered && !Positive(grants)))
  {
    var header: seq<byte> := [FLAG, 0xFF, ESCAPE, 0x23];
    var body := Stuff(d);
    var n := 4 + |body|;
    FeedConcat(r, header + body, [FLAG], grants);
    FeedConcat(r, header, body, grants[..n]);
    HeaderFed(r, grants[..n][..4]);
    var r1 := Feed(r, header, grants[..n][..4]);
    var r2 := Feed(r1, body, grants[..n][4..]);
    FeedOne(r2, FLAG, grants[n..]);
    if Positive(grants) {
      PositiveParts(grants, n);
      PositiveParts(grants[..n], 4);
    }
    if r1.rx.state == Writing {
      StuffedWritten(r1, d, grants[..n][4..]);
      assert [] + d == d;
    } else {
      StuffHasNoFlag(d);
      Skipped(r1, body, grants[..n][4..]);
    }
  }

  /**
   From between frames, a frame is delivered exactly or not at all -- never damaged -- and it is delivered
   when every allocation succeeds.
   */
  lemma FrameDelivered(r: Receiver, p: Packet, grants: seq<nat>)
    requires Consistent(r.rx) && Ready(r.rx) && |grants| == |Encode(p)|
    ensures var r' := Feed(r, Encode(p), grants);
            && Ready(r'.rx)
            && (r' == Receiver(IDLE, r.delivered + [Payload(p)]) || (r'.delivered == r.delivered && !Positive(grants)))
  {
    EncodeParts(p);
    ContentDelivered(r, Trailer(p), grants);
  }

  // ----- What is not checked

  /** Whatever stands in place of the check sequence: the payload in front of it is delivered. */
  lemma UncheckedDelivery(r: Receiver, payload: seq<byte>, x: byte, y: byte, grants: seq<nat>)
    requires Consistent(r.rx) && Ready(r.rx) && Positive(grants) && |grants| == |Stuffed(payload + [x, y])|
    ensures Feed(r, Stuffed(payload + [x, y]), grants) == Receiver(IDLE, r.delivered + [payload])
  {
    ContentDelivered(r, payload + [x, y], grants);
    assert RemoveTail(payload + [x, y]) == payload;
  }

  /**
   A frame damaged in any one octet of its payload or check sequence no longer has the good residue, and is delivered
   all the same, with the damage.
   */
  lemma DamagedFrameDelivered(r: Receiver, p: Packet, k: nat, b: byte, grants: seq<nat>)
    requires Consistent(r.rx) && Ready(r.rx) && k < |Trailer(p)| && b != Trailer(p)[k]
    requires Positive(grants) && |grants| == |Stuffed(Trailer(p)[k := b])|
    ensures Crc16(0xFFFF, [0xFF, 0x03] + Trailer(p)[k := b]) != 0xF0B8
    ensures var payload := Payload(p);
            Feed(r, Stuffed(Trailer(p)[k := b]), grants) ==
            Receiver(IDLE, r.delivered + [if k < |payload| then payload[k := b] else payload])
  {
    DamageSpoilsResidue(p, k, b);
    ContentDelivered(r, Trailer(p)[k := b], grants);
    DamageBesideTail(p, k, b);
  }

  lemma DamageSpoilsResidue(p: Packet, k: nat, b: byte)
    requires k < |Trailer(p)| && b != Trailer(p)[k]
    ensures Crc16(0xFFFF, [0xFF, 0x03] + Trailer(p)[k := b]) != 0xF0B8
  {
    var d := Trailer(p);
    FrameResidue(p);
    assert HEADER + d == Content(p);
    assert HEADER + d[k := b] == (HEADER + d)[|HEADER| + k := b];
    Crc16DetectsOneOctet(FCS_INIT, HEADER + d, |HEADER| + k, b);
  }

  /** The check sequence is the tail that is removed, whatever it holds. */
  lemma DamageBesideTail(p: Packet, k: nat, b: byte)
    requires k < |Trailer(p)|
    ensures RemoveTail(Trailer(p)[k := b]) == if k < |Payload(p)| then Payload(p)[k := b] else Payload(p)
  {
  }

  lemma EscapedWritten(r: Receiver, b: byte, grants: seq<nat>)
    requires Consistent(r.rx) && r.rx.state == Writing && |grants| == 2
    ensures var r' := Feed(r, [ESCAPE, b], grants);
            0 < r.rx.packet.room && Positive(grants) ==>
              && r'.delivered == r.delivered && r'.rx.state == Writing
              && r'.rx.packet.data == r.rx.packet.data + [b ^ 0x20] && 0 < r'.rx.packet.room
  {
    var r1 := Step(r, ESCAPE, grants[0]);
    assert [ESCAPE, b][1..] == [b];
    FeedOne(r1, b, grants[1..]);
  }

  /**
   An escape octet in front of a flag does not abort the frame as section 4.3 of RFC 1662 has it: the flag is taken for
   the data octet 0x5E, and the frame goes on to the next flag.
   */
  lemma EscapedFlagIsData(r: Receiver, d: seq<byte>, e: seq<byte>, grants: seq<nat>)
    requires Consistent(r.rx) && Ready(r.rx) && Positive(grants)
    requires |grants| == 4 + |Stuff(d)| + 2 + |Stuff(e)| + 1
    ensures Feed(r, [FLAG, 0xFF, ESCAPE, 0x23] + Stuff(d) + [ESCAPE, FLAG] + Stuff(e) + [FLAG], grants) ==
            Receiver(IDLE, r.delivered + [RemoveTail(d + [0x5E] + e)])
  {
    var w0: seq<byte> := [FLAG, 0xFF, ESCAPE, 0x23];
    var w1 := w0 + Stuff(d);
    var w2 := w1 + [ESCAPE, FLAG];
    var w3 := w2 + Stuff(e);
    var g3 := grants[..|w3|];
    var g2 := g3[..|w2|];
    var g1 := g2[..|w1|];
    PositiveParts(grants, |w3|);
    PositiveParts(g3, |w2|);
    PositiveParts(g2, |w1|);
    PositiveParts(g1, 4);
    FeedConcat(r, w0, Stuff(d), g1);
    HeaderFed(r, g1[..4]);
    var r0 := Feed(r, w0, g1[..4]);
    StuffedWritten(r0, d, g1[4..]);
    FeedConcat(r, w1, [ESCAPE, FLAG], g2);
    var r1 := Feed(r, w1, g1);
    EscapedWritten(r1, FLAG, g2[|w1|..]);
    FeedConcat(r, w2, Stuff(e), g3);
    var r2 := Feed(r, w2, g2);
    StuffedWritten(r2, e, g3[|w2|..]);
    FeedConcat(r, w3, [FLAG], grants);
    FeedOne(Feed(r, w3, g3), FLAG, grants[|w3|..]);
    assert [] + d == d;
  }

  /** From any state whatever, one frame brings the receiver between frames. */
  lemma FrameResynchronises(r: Receiver, p: Packet, grants: seq<nat>)
    requires Consistent(r.rx) && |grants| == |Encode(p)|
    ensures Ready(Feed(r, Encode(p), grants).rx)
  {
    if Ready(r.rx) {
      FrameDelivered(r, p, grants);
    } else {
      var body := Stuff(Content(p));
      EncodeParts(p);
      FeedConcat(r, [FLAG] + body, [FLAG], grants);
      var most := grants[..1 + |body|];
      FeedConcat(r, [FLAG], body, most);
      FeedOne(r, FLAG, most[..1]);
      var r1 := Step(r, FLAG, most[0]);
      if r1.rx.state == Writing {
        StuffedWritten(r1, Content(p), most[1..]);
      } else {
        Skipped(r1, body, most[1..]);
      }
      FeedOne(Feed(r1, body, most[1..]), FLAG, grants[1 + |body|..]);
    }
  }

  // ----- Streams of frames

  function Payloads(ps: seq<Packet>): (r: seq<seq<byte>>)
    ensures |r| == |ps| && forall i | 0 <= i < |ps| :: r[i] == Payload(ps[i])
  {
    seq(|ps|, i requires 0 <= i < |ps| => Payload(ps[i]))
  }

  /** The payloads of the packets that were kept. */
  function Kept(ps: seq<Packet>, kept: seq<bool>): seq<seq<byte>>
    requires |ps| == |kept|
  {
    if ps == [] then []
    else (if kept[0] then [Payload(ps[0])] else []) + Kept(ps[1..], kept[1..])
  }

  /** One list of grants for each frame. */
  predicate Matching(ps: seq<Packet>, gs: seq<seq<nat>>) {
    |ps| == |gs| && forall i | 0 <= i < |ps| :: |gs[i]| == |Encode(ps[i])|
  }

  function Flatten(gs: seq<seq<nat>>): seq<nat> {
    if gs == [] then [] else gs[0] + Flatten(gs[1..])
  }

  lemma {:induction false} FlattenSize(ps: seq<Packet>, gs: seq<seq<nat>>)
    requires Matching(ps, gs)
    ensures |Flatten(gs)| == |Encodes(ps)|
    decreases |ps|
  {
    if ps != [] {
      FlattenSize(ps[1..], gs[1..]);
    }
  }

  /**
   Frames after a synchronised receiver: what is delivered is the payloads in order, with at most those frames
   missing during which an allocation failed. A lost frame never harms another.
   */
  lemma {:induction false} FramesDelivered(r: Receiver, ps: seq<Packet>, gs: seq<seq<nat>>) returns (kept: seq<bool>)
    requires Consistent(r.rx) && Ready(r.rx) && Matching(ps, gs)
    ensures |Flatten(gs)| == |Encodes(ps)| && |kept| == |ps|
    ensures var r' := Feed(r, Encodes(ps), Flatten(gs));
            Ready(r'.rx) && r'.delivered == r.delivered + Kept(ps, kept)
    ensures forall i | 0 <= i < |ps| && Positive(gs[i]) :: kept[i]
    decreases |ps|
  {
    FlattenSize(ps, gs);
    if ps == [] {
      kept := [];
      assert r.delivered + [] == r.delivered;
    } else {
      var w, rest := Encode(ps[0]), Flatten(gs[1..]);
      FrameDelivered(r, ps[0], gs[0]);
      FlattenSize(ps[1..], gs[1..]);
      assert Flatten(gs)[..|w|] == gs[0] && Flatten(gs)[|w|..] == rest;
      FeedConcat(r, w, Encodes(ps[1..]), Flatten(gs));
      var r1 := Feed(r, w, gs[0]);
      var later := FramesDelivered(r1, ps[1..], gs[1..]);
      var first := r1.delivered != r.delivered;
      kept := [first] + later;
      assert kept[1..] == later;
      KeptCons(r.delivered, r1.delivered, ps, first, later);
    }
  }

  lemma KeptCons(before: seq<seq<byte>>, after: seq<seq<byte>>, ps: seq<Packet>, first: bool, later: seq<bool>)
    requires ps != [] && |later| == |ps| - 1
    requires after == before + if first then [Payload(ps[0])] else []
    ensures after + Kept(ps[1..], later) == before + Kept(ps, [first] + later)
  {
    var kept := [first] + later;
    var head := if first then [Payload(ps[0])] else [];
    assert kept[1..] == later && kept[0] == first;
    assert Kept(ps, kept) == head + Kept(ps[1..], later);
    Associative(before, head, Kept(ps[1..], later));
  }

  lemma {:induction false} AllKept(ps: seq<Packet>, kept: seq<bool>)
    requires |ps| == |kept| && forall i | 0 <= i < |kept| :: kept[i]
    ensures Kept(ps, kept) == Payloads(ps)
    decreases |ps|
  {
    if ps != [] {
      AllKept(ps[1..], kept[1..]);
      assert Payloads(ps) == [Payload(ps[0])] + Payloads(ps[1..]);
    }
  }

  /** With room for everything, the decoder inverts the encoder on every list of packets. */
  lemma CodecInverse(r: Receiver, ps: seq<Packet>, gs: seq<seq<nat>>)
    requires Consistent(r.rx) && Ready(r.rx) && Matching(ps, gs) && forall g <- gs :: Positive(g)
    ensures |Flatten(gs)| == |Encodes(ps)|
    ensures var r' := Feed(r, Encodes(ps), Flatten(gs));
            Ready(r'.rx) && r'.delivered == r.delivered + Payloads(ps)
  {
    var kept := FramesDelivered(r, ps, gs);
    forall i | 0 <= i < |kept| ensures kept[i] {
      assert gs[i] in gs;
    }
    AllKept(ps, kept);
  }

  /** From any state at most the first frame is lost; every later frame arrives exactly. */
  lemma SelfSynchronisation(r: Receiver, p: Packet, grants: seq<nat>, ps: seq<Packet>, gs: seq<seq<nat>>)
    requires Consistent(r.rx) && |grants| == |Encode(p)| && Matching(ps, gs) && forall g <- gs :: Positive(g)
    ensures |Flatten(gs)| == |Encodes(ps)|
    ensures var first := Feed(r, Encode(p), grants);
            var all := Feed(r, Encode(p) + Encodes(ps), grants + Flatten(gs));
            Ready(first.rx) && Ready(all.rx) && all.delivered == first.delivered + Payloads(ps)
  {
    FlattenSize(ps, gs);
    var grants' := grants + Flatten(gs);
    assert grants'[..|grants|] == grants && grants'[|grants|..] == Flatten(gs);
    FeedConcat(r, Encode(p), Encodes(ps), grants');
    FrameResynchronises(r, p, grants);
    CodecInverse(Feed(r, Encode(p), grants), ps, gs);
  }
}
