/** What a frame is on the wire, octet by octet (sections 5.2.1 and 5.4 of 3GPP TS 27.010). */
module CmuxWire {
  import opened Crc
  import opened CmuxFrame

  function HeaderSize(n: nat): nat { if n <= 127 then 3 else 4 }

  lemma WireOctets(h: seq<byte>, data: seq<byte>, check: byte)
    requires h != []
    ensures var w := Wire(h, data, check);
            && |w| == |h| + |data| + 3 && w[0] == FLAG && w[|w| - 1] == FLAG && w[|w| - 2] == check
            && w[1..1 + |h|] == h && w[1 + |h|..|w| - 2] == data
  {
  }

  /** A UIH frame's check octet brings the register over its header to the good residue, any other's that over all. */
  lemma FrameResidue(f: Frame)
    ensures Crc8(0xFF, Header(f) + (if f.kind == 0xEF then [] else f.data) + [Encode(f)[|Encode(f)| - 2]]) == 0xCF
  {
    var covered := Header(f) + if f.kind == 0xEF then [] else f.data;
    assert Header(f) + [] == Header(f);
    var c := Crc8(0xFF, covered);
    WireOctets(Header(f), f.data, CheckOctet(f.kind, Header(f), f.data));
    ResidueBehind(covered, 0xFF - c);
  }

  /** The same over the octets of the wire. */
  lemma WireResidue(f: Frame)
    ensures var w, n := Encode(f), |f.data|;
            Crc8(0xFF, (if f.kind == 0xEF then w[1..1 + HeaderSize(n)] else w[1..|w| - 2]) + [w[|w| - 2]]) == 0xCF
  {
    var w := Encode(f);
    WireOctets(Header(f), f.data, CheckOctet(f.kind, Header(f), f.data));
    FrameResidue(f);
    assert Header(f) + [] == Header(f);
    assert w[1..|w| - 2] == w[1..1 + |Header(f)|] + w[1 + |Header(f)|..|w| - 2];
  }

  lemma AddressAndControl(f: Frame)
    requires f.kind & 0x10 == 0
    ensures AddressOctet(f) == (f.address << 2) | (if f.cr then 0x03 else 0x01)
    ensures ControlOctet(f) == if f.pf then f.kind + 0x10 else f.kind
  {
  }

  /** One length octet up to 127, and beyond that two, the second with its lowest bit set. */
  lemma LengthField(n: nat)
    requires n < 0x8000
    ensures var o := LengthOctets(n);
            && |o| == (if n <= 127 then 1 else 2) && o[0] as nat == (if n <= 127 then 2 * n + 1 else 2 * n % 256)
            && (127 < n ==> o[1] as nat == if n / 128 % 2 == 1 then n / 128 else n / 128 + 1)
  {
    var o := LengthOctets(n);
    LengthOctetValues(n);
    ValueAsNat(o[0]);
    if 127 < n {
      ValueAsNat(o[1]);
      TwoParts(n);
    }
  }

  /** A frame on the wire: flag, address, control, length, data, check octet, flag. */
  lemma FrameOctets(f: Frame)
    requires f.kind & 0x10 == 0 && |f.data| < 0x8000
    ensures var w, n := Encode(f), |f.data|;
            var k := HeaderSize(n);
            && |w| == n + k + 3 && w[0] == 0xF9 && w[|w| - 1] == 0xF9
            && w[1] == (f.address << 2) | (if f.cr then 0x03 else 0x01)
            && w[2] == (if f.pf then f.kind + 0x10 else f.kind)
            && w[3] as nat == (if n <= 127 then 2 * n + 1 else 2 * n % 256)
            && (127 < n ==> w[4] as nat == if n / 128 % 2 == 1 then n / 128 else n / 128 + 1)
            && w[1 + k..1 + k + n] == f.data
  {
    var h, w := Header(f), Encode(f);
    WireOctets(h, f.data, CheckOctet(f.kind, h, f.data));
    AddressAndControl(f);
    LengthField(|f.data|);
    assert w[1] == w[1..1 + |h|][0] && w[2] == w[1..1 + |h|][1] && w[3] == w[1..1 + |h|][2];
    assert 127 < |f.data| ==> w[4] == w[1..1 + |h|][3];
  }

  // ----- Frames without data, and the close down command

  lemma ThreeUpdates(a: byte, c: byte, n: byte)
    ensures Crc8(0xFF, [a, c, n]) == Update8(Update8(Update8(0xFF, a), c), n)
  {
    assert [a, c, n][1..] == [c, n] && [c, n][1..] == [n] && [n][1..] == [];
    var x, y := Update8(0xFF, a), Update8(Update8(0xFF, a), c);
    assert Crc8(0xFF, [a, c, n]) == Crc8(x, [c, n]) && Crc8(x, [c, n]) == Crc8(y, [n]);
  }

  lemma EmptyHeader(f: Frame, a: byte, c: byte)
    requires f.data == [] && AddressOctet(f) == a && ControlOctet(f) == c
    ensures Header(f) == [a, c, 0x01]
  {
    assert Octet(1) == 1;
    assert LengthOctets(0) == [Octet(1)];
    assert Header(f) == [a, c] + [0x01];
  }

  /** The check octet of a frame without data. */
  function EmptyCheck(a: byte, c: byte): byte {
    0xFF - Update8(Update8(Update8(0xFF, a), c), 0x01)
  }

  lemma EmptyCovered(kind: byte, a: byte, c: byte)
    ensures CheckOctet(kind, [a, c, 0x01], []) == EmptyCheck(a, c)
  {
    var h: seq<byte> := [a, c, 0x01];
    assert h + [] == h;
    ThreeUpdates(a, c, 0x01);
  }

  /** It brings the register to the good residue. */
  lemma EmptyResidue(a: byte, c: byte)
    ensures Crc8(0xFF, [a, c, 0x01, EmptyCheck(a, c)]) == 0xCF
  {
    var h: seq<byte> := [a, c, 0x01];
    ThreeUpdates(a, c, 0x01);
    ResidueBehind(h, EmptyCheck(a, c));
    assert h + [EmptyCheck(a, c)] == [a, c, 0x01, EmptyCheck(a, c)];
  }

  lemma ResidueBehind(h: seq<byte>, check: byte)
    requires check == 0xFF - Crc8(0xFF, h)
    ensures Crc8(0xFF, h + [check]) == 0xCF
  {
    Crc8Concat(0xFF, h, [check]);
    GoodResidue8(Crc8(0xFF, h));
  }

  /** A frame without data is six octets. */
  lemma EmptyFrame(f: Frame, a: byte, c: byte)
    requires f.data == [] && AddressOctet(f) == a && ControlOctet(f) == c
    ensures Encode(f) == [0xF9, a, c, 0x01, EmptyCheck(a, c), 0xF9]
  {
    EmptyHeader(f, a, c);
    EmptyCovered(f.kind, a, c);
    EncodedEmpty(f, [a, c, 0x01], EmptyCheck(a, c));
    EmptyWire(a, c, EmptyCheck(a, c));
  }

  lemma EncodedEmpty(f: Frame, h: seq<byte>, check: byte)
    requires Header(f) == h && f.data == [] && CheckOctet(f.kind, h, []) == check
    ensures Encode(f) == Wire(h, [], check)
  {
  }

  lemma EmptyWire(a: byte, c: byte, check: byte)
    ensures Wire([a, c, 0x01], [], check) == [0xF9, a, c, 0x01, check, 0xF9]
  {
  }

  lemma Updated(c: bv8, b: byte)
    ensures Update8(c, b) == Shift8(Shift8(Shift8(Shift8(Shift8(Shift8(Shift8(Shift8(c ^ b))))))))
  {
    Shifts8Unrolled(c ^ b);
  }

  /** SABM and DISC on DLCI 0 and the close down command, as the 3GPP TS 27.010 modem on the other side expects them. */
  lemma ConnectFrames()
    ensures Encode(Frame(0, true, true, 0x2F, [])) == [0xF9, 0x03, 0x3F, 0x01, 0x1C, 0xF9]
    ensures Encode(Frame(0, true, false, 0xEF, [0xC3, 0x01])) == [0xF9, 0x03, 0xEF, 0x05, 0xC3, 0x01, 0xF2, 0xF9]
  {
    ConnectFrame();
    CloseDownFrame();
  }

  lemma ConnectFrame()
    ensures Encode(Frame(0, true, true, 0x2F, [])) == [0xF9, 0x03, 0x3F, 0x01, 0x1C, 0xF9]
  {
    var f := Frame(0, true, true, 0x2F, []);
    AddressAndControl(f);
    EmptyFrame(f, 0x03, 0x3F);
    Updated(0xFF, 0x03);
    Updated(0xBD, 0x3F);
    Updated(0x03, 0x01);
  }

  lemma CloseDownFrame()
    ensures Encode(Frame(0, true, false, 0xEF, [0xC3, 0x01])) == [0xF9, 0x03, 0xEF, 0x05, 0xC3, 0x01, 0xF2, 0xF9]
  {
    var f := Frame(0, true, false, 0xEF, [0xC3, 0x01]);
    AddressAndControl(f);
    assert Octet(5) == 5;
    assert Header(f) == [0x03, 0xEF, 0x05];
    ThreeUpdates(0x03, 0xEF, 0x05);
    Updated(0xFF, 0x03);
    Updated(0xBD, 0xEF);
    Updated(0x8F, 0x05);
  }
}
