/** Packets and their encoding in HDLC-like framing (sections 3.1 and 4.2 and appendix C.2 of RFC 1662). */
module PppFrame {
  import opened Crc
  import opened Sequences

  const FLAG: byte := 0x7E
  const ESCAPE: byte := 0x7D
  const FCS_INIT: bv16 := 0xFFFF

  const PROTOCOL_IP: bv16 := 0x0021
  const PROTOCOL_IPV6: bv16 := 0x0057

  datatype Family = Inet | Inet6 | Other

  /** A network packet; `ppp` says that its data already begins with the protocol field. */
  datatype Packet = Packet(family: Family, ppp: bool, data: seq<byte>)

  function Protocol(p: Packet): bv16 {
    match p.family
    case Inet => PROTOCOL_IP
    case Inet6 => PROTOCOL_IPV6
    case Other => 0
  }

  /** What the send function lets through. */
  predicate Valid(p: Packet) {
    && (p.ppp || p.family != Other)
    && 1 <= |p.data| && (p.ppp ==> 2 <= |p.data|)
  }

  /** Protocol field and data, the octets the frame carries. */
  function Payload(p: Packet): seq<byte> {
    if p.ppp then p.data else [High(Protocol(p)), Low(Protocol(p))] + p.data
  }

  predicate Special(b: byte) { b == FLAG || b == ESCAPE || b < 0x20 }

  function Escape(b: byte): (r: seq<byte>)
    ensures 1 <= |r| <= 2
  {
    if Special(b) then [ESCAPE, b ^ 0x20] else [b]
  }

  function Stuff(s: seq<byte>): seq<byte> {
    if s == [] then [] else Escape(s[0]) + Stuff(s[1..])
  }

  const HEADER: seq<byte> := [0xFF, 0x03]

  /** Address and control octets and payload, then the complemented check sequence, low octet first. */
  function Content(p: Packet): seq<byte> {
    var fcs := Crc16(FCS_INIT, HEADER + Payload(p)) ^ 0xFFFF;
    HEADER + Payload(p) + [Low(fcs), High(fcs)]
  }

  function Encode(p: Packet): seq<byte> {
    [FLAG] + Stuff(Content(p)) + [FLAG]
  }

  function Encodes(ps: seq<Packet>): seq<byte> {
    if ps == [] then [] else Encode(ps[0]) + Encodes(ps[1..])
  }

  lemma EncodesHead(ps: seq<Packet>, p: Packet)
    requires ps != []
    ensures Encodes(ps + [p]) == Encode(ps[0]) + Encodes(ps[1..] + [p])
  {
    assert (ps + [p])[1..] == ps[1..] + [p] && (ps + [p])[0] == ps[0];
  }

  lemma EncodesOne(p: Packet)
    ensures Encodes([p]) == Encode(p)
  {
    assert [p][1..] == [];
    assert Encode(p) + [] == Encode(p);
  }

  lemma {:induction false} EncodesAppend(ps: seq<Packet>, p: Packet)
    ensures Encodes(ps + [p]) == Encodes(ps) + Encode(p)
    decreases |ps|
  {
    if ps == [] {
      EncodesOne(p);
      assert [] + [p] == [p] && [] + Encode(p) == Encode(p);
    } else {
      EncodesHead(ps, p);
      EncodesAppend(ps[1..], p);
      Associative(Encode(ps[0]), Encodes(ps[1..]), Encode(p));
    }
  }

  lemma {:induction false} StuffConcat(s: seq<byte>, t: seq<byte>)
    ensures Stuff(s + t) == Stuff(s) + Stuff(t)
    decreases |s|
  {
    if s == [] {
      assert s + t == t;
    } else {
      assert (s + t)[0] == s[0] && (s + t)[1..] == s[1..] + t;
      StuffConcat(s[1..], t);
    }
  }

  lemma StuffOne(b: byte)
    ensures Stuff([b]) == Escape(b)
  {
    assert [b][1..] == [];
  }

  // ----- What a receiver may rely on

  /** Every octet between the flags is at least 0x20 and none is a flag. */
  predicate Interior(s: seq<byte>) {
    forall b <- s :: b != FLAG && 0x20 <= b
  }

  lemma EscapeInterior(b: byte)
    ensures Interior(Escape(b))
  {
    if Special(b) {
      assert b ^ 0x20 != FLAG && 0x20 <= b ^ 0x20;
    }
  }

  lemma {:induction false} StuffInterior(s: seq<byte>)
    ensures Interior(Stuff(s)) && |s| <= |Stuff(s)| <= 2 * |s|
    decreases |s|
  {
    if s != [] {
      EscapeInterior(s[0]);
      StuffInterior(s[1..]);
    }
  }

  lemma ContentSize(p: Packet, rest: seq<byte>)
    requires Content(p) == HEADER + rest
    ensures |rest| + 3 <= |Stuff(Content(p))| <= 2 * |rest| + 3
  {
    StuffConcat(HEADER, rest);
    HeaderStuffed();
    StuffInterior(rest);
  }

  lemma EncodedSize(p: Packet)
    ensures Interior(Encode(p)[1..|Encode(p)| - 1])
    ensures |Payload(p)| + 7 <= |Encode(p)| <= 2 * |Payload(p)| + 9
  {
    var fcs := Crc16(FCS_INIT, HEADER + Payload(p)) ^ 0xFFFF;
    ContentSize(p, Payload(p) + [Low(fcs), High(fcs)]);
    StuffInterior(Content(p));
    assert Encode(p)[1..|Encode(p)| - 1] == Stuff(Content(p));
  }

  lemma HeaderStuffed()
    ensures Stuff(HEADER) == [0xFF, ESCAPE, 0x23]
  {
    assert HEADER[1..] == [0x03];
    assert [0x03 as byte][1..] == [];
  }

  // ----- What a frame is on the wire

  /** The protocol field of IPv4 and IPv6, high octet first; a packet that is PPP already has its own. */
  lemma PayloadOctets(p: Packet)
    ensures !p.ppp && p.family == Inet ==> Payload(p) == [0x00, 0x21] + p.data
    ensures !p.ppp && p.family == Inet6 ==> Payload(p) == [0x00, 0x57] + p.data
    ensures p.ppp ==> Payload(p) == p.data
  {
    Halves();
  }

  lemma Halves()
    ensures High(0x0021) == 0x00 && Low(0x0021) == 0x21
    ensures High(0x0057) == 0x00 && Low(0x0057) == 0x57
  {
  }

  /** Flag, escape and control octets go out as an escape and the octet with one bit flipped, all others as they are. */
  lemma StuffOctets(s: seq<byte>, b: byte)
    ensures Stuff([]) == []
    ensures Stuff(s + [b]) == Stuff(s) + if b == 0x7E || b == 0x7D || b < 0x20 then [0x7D, b ^ 0x20] else [b]
  {
    StuffConcat(s, [b]);
    StuffOne(b);
  }

  /** The check sequence over everything a frame carries is the good residue. */
  lemma FrameResidue(p: Packet)
    ensures Crc16(0xFFFF, Content(p)) == 0xF0B8
  {
    var c := Crc16(FCS_INIT, HEADER + Payload(p));
    Crc16Concat(FCS_INIT, HEADER + Payload(p), [Low(c ^ 0xFFFF), High(c ^ 0xFFFF)]);
    GoodResidue(c);
  }

  /**
   A frame on the wire: flag, all-stations address, the escaped control octet, the payload and two octets behind it
   stuffed, flag; address, control, payload and the two octets together leave the good residue.
   */
  lemma FrameOctets(p: Packet) returns (low: byte, high: byte)
    ensures Encode(p) == [0x7E, 0xFF, 0x7D, 0x23] + Stuff(Payload(p) + [low, high]) + [0x7E]
    ensures Crc16(0xFFFF, [0xFF, 0x03] + Payload(p) + [low, high]) == 0xF0B8
  {
    low, high := CheckOctets(p);
    FrameResidue(p);
    FrameAround(p, Payload(p) + [low, high]);
  }

  lemma CheckOctets(p: Packet) returns (low: byte, high: byte)
    ensures Content(p) == HEADER + (Payload(p) + [low, high]) == [0xFF, 0x03] + Payload(p) + [low, high]
  {
    var fcs := Crc16(FCS_INIT, HEADER + Payload(p)) ^ 0xFFFF;
    low, high := Low(fcs), High(fcs);
    Associative(HEADER, Payload(p), [low, high]);
  }

  lemma FrameAround(p: Packet, rest: seq<byte>)
    requires Content(p) == HEADER + rest
    ensures Encode(p) == [0x7E, 0xFF, 0x7D, 0x23] + Stuff(rest) + [0x7E]
  {
    StuffConcat(HEADER, rest);
    HeaderStuffed();
    BetweenFlags(Stuff(rest));
  }

  lemma BetweenFlags(s: seq<byte>)
    ensures [FLAG] + ([0xFF, ESCAPE, 0x23] + s) + [FLAG] == [0x7E, 0xFF, 0x7D, 0x23] + s + [0x7E]
  {
  }

  lemma ProtocolStuffed(high: byte, low: byte, rest: seq<byte>)
    requires high == 0x00 && 0x20 <= low && low != 0x7D && low != 0x7E
    ensures Stuff([high, low] + rest) == [0x7D, 0x20, low] + Stuff(rest)
  {
    StuffOne(high);
    StuffOne(low);
    StuffConcat([high], [low]);
    StuffConcat([high] + [low], rest);
    assert [high] + [low] == [high, low];
    assert [0x7D, 0x20] + [low] == [0x7D, 0x20, low];
  }

  /** The first octets of an IP packet's frame. */
  lemma FrameBegins(p: Packet)
    requires !p.ppp && p.family != Other
    ensures [0x7E, 0xFF, 0x7D, 0x23, 0x7D, 0x20, if p.family == Inet then 0x21 else 0x57] <= Encode(p)
  {
    var low, high := FrameOctets(p);
    var protocol: byte := if p.family == Inet then 0x21 else 0x57;
    var rest := p.data + [low, high];
    PayloadOctets(p);
    assert Payload(p) + [low, high] == [0x00, protocol] + rest;
    ProtocolStuffed(0x00, protocol, rest);
    assert Encode(p)[..7] == [0x7E, 0xFF, 0x7D, 0x23] + [0x7D, 0x20, protocol];
  }
}
