/**
 What the PPP receiver delivers of any octets whatever: exactly the frames that stand on the wire between a header and
 the next flag that is not escaped.
 */
module PppDecoder {
  import opened Crc
  import opened Sequences
  import opened PppFrame
  import opened PppReceive

  // ----- Stuffed octets read back

  /** Does the text end within an escape? */
  predicate Escaping(s: seq<byte>) {
    s != [] && s[|s| - 1] == 0x7D && !Escaping(s[..|s| - 1])
  }

  /** The octets that stuffed ones stand for: an escape is left out, and the octet behind it has one bit flipped. */
  function Unstuffed(s: seq<byte>): seq<byte> {
    if s == [] then []
    else
      var p, b := s[..|s| - 1], s[|s| - 1];
      if Escaping(p) then Unstuffed(p) + [b ^ 0x20] else if b == 0x7D then Unstuffed(p) else Unstuffed(p) + [b]
  }

  /** No flag but behind an escape. */
  predicate Flagless(s: seq<byte>) {
    s == [] || (Flagless(s[..|s| - 1]) && (s[|s| - 1] == 0x7E ==> Escaping(s[..|s| - 1])))
  }

  lemma UnstuffedSnoc(s: seq<byte>, b: byte)
    ensures Escaping(s + [b]) <==> b == 0x7D && !Escaping(s)
    ensures Unstuffed(s + [b]) ==
            if Escaping(s) then Unstuffed(s) + [b ^ 0x20] else if b == 0x7D then Unstuffed(s) else Unstuffed(s) + [b]
    ensures Flagless(s + [b]) <==> Flagless(s) && (b == 0x7E ==> Escaping(s))
  {
    assert (s + [b])[..|s|] == s;
  }

  /** It undoes the stuffing of every text. */
  lemma {:induction false} UnstuffsStuffed(d: seq<byte>)
    ensures Unstuffed(Stuff(d)) == d && !Escaping(Stuff(d)) && Flagless(Stuff(d))
    decreases |d|
  {
    if d != [] {
      var p, b := d[..|d| - 1], d[|d| - 1];
      assert d == p + [b];
      UnstuffsStuffed(p);
      StuffOctets(p, b);
      if Special(b) {
        var e := Stuff(p) + [0x7D];
        UnstuffedSnoc(Stuff(p), 0x7D);
        UnstuffedSnoc(e, b ^ 0x20);
        assert Stuff(p) + [0x7D, b ^ 0x20] == e + [b ^ 0x20];
        assert (b ^ 0x20) ^ 0x20 == b;
      } else {
        UnstuffedSnoc(Stuff(p), b);
      }
    }
  }

  // ----- The octets heard so far

  ghost predicate EndsWith(w: seq<byte>, t: seq<byte>) {
    |t| <= |w| && w[|w| - |t|..] == t
  }

  const OPENING: seq<byte> := [0x7E, 0xFF, 0x7D, 0x23]

  /** A header, and these octets behind it, end what was heard. */
  ghost predicate Framed(w: seq<byte>, s: seq<byte>) {
    EndsWith(w, OPENING + s) && Flagless(s)
  }

  /** How much of a header ends what was heard. */
  ghost predicate Opens(state: RxState, w: seq<byte>) {
    match state
    case HdrSof => true
    case HdrFf => EndsWith(w, [0x7E])
    case Hdr7d => EndsWith(w, [0x7E, 0xFF])
    case Hdr23 => EndsWith(w, [0x7E, 0xFF, 0x7D])
    case _ => false
  }

  /** What the state of the receiver says of the octets heard. */
  ghost predicate Tracks(rx: Rx, w: seq<byte>) {
    match rx.state
    case Writing =>
      rx.packet.RxPacket? && exists s :: Framed(w, s) && !Escaping(s) && rx.packet.data == Unstuffed(s)
    case Unescaping =>
      rx.packet.RxPacket? && exists s :: Framed(w, s) && Escaping(s) && rx.packet.data == Unstuffed(s)
    case state => Opens(state, w)
  }

  lemma EndsWithSnoc(w: seq<byte>, t: seq<byte>, b: byte)
    requires EndsWith(w, t)
    ensures EndsWith(w + [b], t + [b])
  {
  }

  lemma EndsWithLast(w: seq<byte>, b: byte)
    ensures EndsWith(w + [b], [b])
  {
  }

  lemma FramedSnoc(w: seq<byte>, s: seq<byte>, b: byte)
    requires Framed(w, s) && (b == 0x7E ==> Escaping(s))
    ensures Framed(w + [b], s + [b])
  {
    EndsWithSnoc(w, OPENING + s, b);
    Associative(OPENING, s, [b]);
    UnstuffedSnoc(s, b);
  }

  lemma SkippingTracked(r: Receiver, w: seq<byte>, b: byte, grant: nat)
    requires Consistent(r.rx) && r.rx.state == HdrSof
    ensures Opens(Step(r, b, grant).rx.state, w + [b]) && Step(r, b, grant).delivered == r.delivered
  {
    EndsWithLast(w, b);
  }

  lemma FlagTracked(r: Receiver, w: seq<byte>, b: byte, grant: nat)
    requires Consistent(r.rx) && r.rx.state == HdrFf && EndsWith(w, [0x7E])
    ensures Opens(Step(r, b, grant).rx.state, w + [b]) && Step(r, b, grant).delivered == r.delivered
  {
    if b == 0xFF {
      EndsWithSnoc(w, [0x7E], 0xFF);
      assert [0x7E] + [0xFF] == [0x7E, 0xFF];
    } else {
      EndsWithLast(w, b);
    }
  }

  lemma AddressTracked(r: Receiver, w: seq<byte>, b: byte, grant: nat)
    requires Consistent(r.rx) && r.rx.state == Hdr7d && EndsWith(w, [0x7E, 0xFF])
    ensures Opens(Step(r, b, grant).rx.state, w + [b]) && Step(r, b, grant).delivered == r.delivered
  {
    if b == 0x7D {
      EndsWithSnoc(w, [0x7E, 0xFF], 0x7D);
      assert [0x7E, 0xFF] + [0x7D] == [0x7E, 0xFF, 0x7D];
    }
  }

  lemma OpeningHeard(w: seq<byte>)
    requires EndsWith(w, [0x7E, 0xFF, 0x7D])
    ensures Framed(w + [0x23], []) && Unstuffed([]) == [] && !Escaping([])
  {
    EndsWithSnoc(w, [0x7E, 0xFF, 0x7D], 0x23);
    assert [0x7E, 0xFF, 0x7D] + [0x23] == OPENING + [];
  }

  lemma OpeningTracked(r: Receiver, w: seq<byte>, b: byte, grant: nat)
    requires Consistent(r.rx) && Tracks(r.rx, w) && r.rx.state == Hdr23
    ensures Tracks(Step(r, b, grant).rx, w + [b]) && Step(r, b, grant).delivered == r.delivered
  {
    if b == 0x23 && grant != 0 {
      OpeningHeard(w);
    }
  }

  lemma Written(rx: Rx, w: seq<byte>, s: seq<byte>)
    requires rx.packet.RxPacket? && rx.packet.data == Unstuffed(s) && Framed(w, s)
    requires rx.state == if Escaping(s) then Unescaping else Writing
    ensures Tracks(rx, w)
  {
  }

  /** The octet is written, kept for the next, or the packet is given up. */
  lemma OctetTaken(r: Receiver, b: byte, grant: nat, s: seq<byte>)
    requires Consistent(r.rx) && r.rx.state == (if Escaping(s) then Unescaping else Writing)
    requires (b == 0x7E ==> Escaping(s)) && r.rx.packet.data == Unstuffed(s)
    ensures var r' := Step(r, b, grant);
            && r'.delivered == r.delivered
            && (r'.rx == IDLE || (r'.rx.packet.RxPacket? && r'.rx.packet.data == Unstuffed(s + [b])
                                  && r'.rx.state == if Escaping(s + [b]) then Unescaping else Writing))
  {
    UnstuffedSnoc(s, b);
  }

  lemma TextTracked(r: Receiver, w: seq<byte>, b: byte, grant: nat, s: seq<byte>)
    requires Consistent(r.rx) && r.rx.state == (if Escaping(s) then Unescaping else Writing)
    requires (b == 0x7E ==> Escaping(s)) && Framed(w, s) && r.rx.packet.data == Unstuffed(s)
    ensures Tracks(Step(r, b, grant).rx, w + [b]) && Step(r, b, grant).delivered == r.delivered
  {
    FramedSnoc(w, s, b);
    OctetTaken(r, b, grant, s);
    if Step(r, b, grant).rx != IDLE {
      Written(Step(r, b, grant).rx, w + [b], s + [b]);
    }
  }

  /** The octet that delivers a packet is a flag that is not escaped, behind a header and the packet's octets. */
  ghost predicate Delivers(w: seq<byte>, b: byte, packet: seq<byte>) {
    b == 0x7E &&
    exists s :: Framed(w, s) && !Escaping(s) &&
                packet == var d := Unstuffed(s); if |d| < 2 then d else d[..|d| - 2]
  }

  lemma StepTracked(r: Receiver, w: seq<byte>, b: byte, grant: nat)
    requires Consistent(r.rx) && Tracks(r.rx, w)
    ensures var r' := Step(r, b, grant);
            && Tracks(r'.rx, w + [b])
            && (r'.delivered == r.delivered ||
                (r'.delivered != [] && r'.delivered == r.delivered + [r'.delivered[|r'.delivered| - 1]]
                 && Delivers(w, b, r'.delivered[|r'.delivered| - 1])))
  {
    if r.rx.state == Writing {
      var s :| Framed(w, s) && !Escaping(s) && r.rx.packet.data == Unstuffed(s);
      if b != FLAG {
        TextTracked(r, w, b, grant, s);
      }
    } else if r.rx.state == Unescaping {
      var s :| Framed(w, s) && Escaping(s) && r.rx.packet.data == Unstuffed(s);
      TextTracked(r, w, b, grant, s);
    } else {
      HeaderTracked(r, w, b, grant);
    }
  }

  lemma HeaderTracked(r: Receiver, w: seq<byte>, b: byte, grant: nat)
    requires Consistent(r.rx) && Tracks(r.rx, w) && r.rx.state in {HdrSof, HdrFf, Hdr7d, Hdr23}
    ensures Tracks(Step(r, b, grant).rx, w + [b]) && Step(r, b, grant).delivered == r.delivered
  {
    match r.rx.state {
      case HdrFf => FlagTracked(r, w, b, grant);
      case Hdr7d => AddressTracked(r, w, b, grant);
      case Hdr23 => OpeningTracked(r, w, b, grant);
      case HdrSof => SkippingTracked(r, w, b, grant);
      case _ =>
    }
  }

  lemma {:induction false} StreamTracked(bs: seq<byte>, grants: seq<nat>)
    requires |grants| == |bs|
    ensures Tracks(Feed(Receiver(IDLE, []), bs, grants).rx, bs)
    decreases |bs|
  {
    if bs != [] {
      var n := |bs| - 1;
      StreamTracked(bs[..n], grants[..n]);
      assert bs == bs[..n] + [bs[n]];
      FeedConcat(Receiver(IDLE, []), bs[..n], [bs[n]], grants);
      var r := Feed(Receiver(IDLE, []), bs[..n], grants[..n]);
      FeedOne(r, bs[n], grants[n..]);
      StepTracked(r, bs[..n], bs[n], grants[n]);
    }
  }

  /**
   Whatever octets come, and whatever allocations are granted: an octet delivers nothing, or one packet, and then it is
   a flag that is not escaped, behind a header and stuffed octets that stand for the packet and two octets more.
   */
  lemma Soundness(bs: seq<byte>, b: byte, grants: seq<nat>, grant: nat)
    requires |grants| == |bs|
    ensures var r := Feed(Receiver(IDLE, []), bs, grants);
            var r' := Step(r, b, grant);
            r'.delivered == r.delivered ||
            (exists packet :: r'.delivered == r.delivered + [packet] && Delivers(bs, b, packet))
  {
    StreamTracked(bs, grants);
    StepTracked(Feed(Receiver(IDLE, []), bs, grants), bs, b, grant);
  }

  /**
   Where allocations are made: for the packet at the end of a header, and for more room before the last octet of room
   is used. One that fails costs the packet, and nothing else.
   */
  lemma AllocationExact(r: Receiver, b: byte, grant: nat)
    requires Consistent(r.rx)
    ensures r.rx.state == Hdr23 && b == 0x23 ==>
              Step(r, b, grant) == r.(rx := if grant == 0 then IDLE else Rx(Writing, RxPacket([], grant)))
    ensures r.rx.state == Writing && b != 0x7E ==>
              var p := r.rx.packet;
              var room := if p.room == 1 then 1 + grant else p.room;
              Step(r, b, grant) ==
              r.(rx := if (p.room == 0 && b != 0x7D) || (p.room == 1 && grant == 0) then IDLE
                       else if b == 0x7D then Rx(Unescaping, RxPacket(p.data, room))
                       else Rx(Writing, RxPacket(p.data + [b], room - 1)))
    ensures r.rx.state == Unescaping ==>
              var p := r.rx.packet;
              Step(r, b, grant) ==
              r.(rx := if p.room == 0 then IDLE else Rx(Writing, RxPacket(p.data + [b ^ 0x20], p.room - 1)))
  {
  }

  // ----- All of them are delivered

  /** The receiver is behind a header, with room, and has written what `s` stands for. */
  predicate Wrote(r0: Receiver, r: Receiver, s: seq<byte>)
    requires r0.rx.packet.RxPacket?
  {
    && r.delivered == r0.delivered && r.rx.packet.RxPacket?
    && r.rx.state == (if Escaping(s) then Unescaping else Writing) && 0 < r.rx.packet.room
    && r.rx.packet.data == r0.rx.packet.data + Unstuffed(s)
  }

  lemma OctetWritten(r0: Receiver, r: Receiver, s: seq<byte>, b: byte, grant: nat)
    requires r0.rx.packet.RxPacket? && Wrote(r0, r, s) && (Escaping(s) ==> 1 < r.rx.packet.room)
    requires (b == 0x7E ==> Escaping(s)) && 0 < grant
    ensures Consistent(r.rx)
    ensures var r' := Step(r, b, grant);
            Wrote(r0, r', s + [b]) && (Escaping(s + [b]) ==> 1 < r'.rx.packet.room)
  {
    UnstuffedSnoc(s, b);
    Associative(r0.rx.packet.data, Unstuffed(s), if Escaping(s) then [b ^ 0x20] else [b]);
  }

  /** Octets without a flag that is not escaped are written as what they stand for. */
  lemma {:induction false} TextWritten(r: Receiver, s: seq<byte>, grants: seq<nat>)
    requires Consistent(r.rx) && r.rx.state == Writing && 0 < r.rx.packet.room
    requires Flagless(s) && |grants| == |s| && Positive(grants)
    ensures var r' := Feed(r, s, grants);
            Wrote(r, r', s) && (Escaping(s) ==> 1 < r'.rx.packet.room)
    decreases |s|
  {
    if s == [] {
      assert r.rx.packet.data + [] == r.rx.packet.data;
    } else {
      var n := |s| - 1;
      assert s == s[..n] + [s[n]];
      PositiveParts(grants, n);
      TextWritten(r, s[..n], grants[..n]);
      FeedConcat(r, s[..n], [s[n]], grants);
      var r1 := Feed(r, s[..n], grants[..n]);
      FeedOne(r1, s[n], grants[n..]);
      OctetWritten(r, r1, s[..n], s[n], grants[n]);
    }
  }

  /**
   And from between frames, with room for everything, each such frame is delivered, whatever the octets in it: as what
   they stand for but the last two.
   */
  lemma FramedIsDelivered(r: Receiver, s: seq<byte>, grants: seq<nat>)
    requires Consistent(r.rx) && Ready(r.rx) && Flagless(s) && !Escaping(s)
    requires |grants| == |s| + 5 && Positive(grants)
    ensures var d := Unstuffed(s);
            Feed(r, [0x7E, 0xFF, 0x7D, 0x23] + s + [0x7E], grants) ==
            Receiver(IDLE, r.delivered + [if |d| < 2 then d else d[..|d| - 2]])
  {
    var n := 4 + |s|;
    PositiveParts(grants, n);
    FeedConcat(r, OPENING + s, [0x7E], grants);
    FrameOpened(r, s, grants[..n]);
    FeedOne(Feed(r, OPENING + s, grants[..n]), 0x7E, grants[n..]);
  }

  lemma FrameOpened(r: Receiver, s: seq<byte>, grants: seq<nat>)
    requires Consistent(r.rx) && Ready(r.rx) && Flagless(s) && !Escaping(s)
    requires |grants| == |s| + 4 && Positive(grants)
    ensures var r' := Feed(r, OPENING + s, grants);
            && r'.delivered == r.delivered && r'.rx.state == Writing && r'.rx.packet.data == Unstuffed(s)
  {
    PositiveParts(grants, 4);
    FeedConcat(r, OPENING, s, grants);
    HeaderFed(r, grants[..4]);
    TextWritten(Feed(r, OPENING, grants[..4]), s, grants[4..]);
    assert [] + Unstuffed(s) == Unstuffed(s);
  }
}
