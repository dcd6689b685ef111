/** Frames of the basic option of 3GPP TS 27.010 (section 5.2.1) as the encoder writes them. */
module CmuxFrame {
  import opened Crc
  import opened Sequences

  const FLAG: byte := 0xF9
  const FCS_INIT: bv8 := 0xFF

  const SABM: byte := 0x2F
  const DISC: byte := 0x43
  const UA: byte := 0x63
  const UIH: byte := 0xEF

  datatype Frame = Frame(address: byte, cr: bool, pf: bool, kind: byte, data: seq<byte>)

  function AddressOctet(f: Frame): byte {
    0x01 | (if f.cr then 0x02 else 0x00) | (f.address << 2)
  }

  function ControlOctet(f: Frame): byte {
    f.kind | (if f.pf then 0x10 else 0x00)
  }

  /** Counting up in eight bits. */
  function Octet(n: nat): byte {
    if n == 0 then 0 else Octet(n - 1) + 1
  }

  /** Counting down to zero. */
  function Value(b: byte): nat
    decreases b
  {
    if b == 0 then 0 else Value(b - 1) + 1
  }

  /** The length field; the second octet carries an unconditional 0x01. */
  function LengthOctets(n: nat): (r: seq<byte>)
    ensures |r| == if n <= 127 then 1 else 2
  {
    if 127 < n then
      var high := (n / 128) % 256;
      [Octet(2 * n % 256), Octet(if high % 2 == 0 then high + 1 else high)]
    else
      [Octet(2 * n + 1)]
  }

  function Header(f: Frame): (h: seq<byte>)
    ensures |h| == if |f.data| <= 127 then 3 else 4
  {
    [AddressOctet(f), ControlOctet(f)] + LengthOctets(|f.data|)
  }

  /** UIH frames are checked over the header alone, every other type over header and data. */
  function CheckOctet(kind: byte, header: seq<byte>, data: seq<byte>): byte {
    0xFF - Crc8(FCS_INIT, if kind == UIH then header else header + data)
  }

  /** Flag, header, data, check octet, flag. */
  function Wire(header: seq<byte>, data: seq<byte>, check: byte): seq<byte> {
    [FLAG] + header + data + [check, FLAG]
  }

  function Encode(f: Frame): (w: seq<byte>)
    ensures |w| == |f.data| + if |f.data| <= 127 then 6 else 7
  {
    Wire(Header(f), f.data, CheckOctet(f.kind, Header(f), f.data))
  }

  function Encodes(fs: seq<Frame>): seq<byte> {
    if fs == [] then [] else Encode(fs[0]) + Encodes(fs[1..])
  }

  lemma {:induction false} EncodesConcat(fs: seq<Frame>, gs: seq<Frame>)
    ensures Encodes(fs + gs) == Encodes(fs) + Encodes(gs)
    decreases |fs|
  {
    if fs == [] {
      assert fs + gs == gs;
    } else {
      EncodesHead(fs, gs);
      EncodesConcat(fs[1..], gs);
      Associative(Encode(fs[0]), Encodes(fs[1..]), Encodes(gs));
    }
  }

  lemma EncodesHead(fs: seq<Frame>, gs: seq<Frame>)
    requires fs != []
    ensures Encodes(fs + gs) == Encode(fs[0]) + Encodes(fs[1..] + gs)
  {
    assert (fs + gs)[0] == fs[0] && (fs + gs)[1..] == fs[1..] + gs;
  }

  lemma EncodesAppend(fs: seq<Frame>, f: Frame)
    ensures Encodes(fs + [f]) == Encodes(fs) + Encode(f)
  {
    EncodesConcat(fs, [f]);
    assert [f][1..] == [];
    assert Encode(f) + [] == Encode(f);
  }

  // ----- Reading a header back

  function AddressOf(b: byte): byte { (b >> 2) & 0x3F }
  predicate CrOf(b: byte) { b & 0x02 != 0 }
  predicate PfOf(b: byte) { b & 0x10 != 0 }
  function KindOf(b: byte): byte { b & 0xEF }
  predicate LastLengthOctet(b: byte) { Value(b) % 2 == 1 }
  function FirstLength(b: byte): nat { Value(b) / 2 }
  /** The first part is below 128, so or-ing in the shifted octet adds it. */
  function FullLength(n: nat, b: byte): nat { n + 128 * Value(b) }

  /** Three octets, or four when the first length octet says that another follows. */
  predicate WholeHeader(h: seq<byte>) {
    (|h| == 3 && LastLengthOctet(h[2])) || (|h| == 4 && !LastLengthOctet(h[2]))
  }

  function LengthOf(h: seq<byte>): nat
    requires WholeHeader(h)
  {
    if |h| == 3 then FirstLength(h[2]) else FullLength(FirstLength(h[2]), h[3])
  }

  function FrameOf(h: seq<byte>, data: seq<byte>): Frame
    requires WholeHeader(h)
  {
    Frame(AddressOf(h[0]), CrOf(h[0]), PfOf(h[1]), KindOf(h[1]), data)
  }

  /** The lengths the encoder and the decoder agree on. */
  predicate LengthSurvives(n: nat) { n <= 127 || (n / 128) % 2 == 1 }

  lemma {:induction false} OctetValue(n: nat)
    requires n < 256
    ensures Value(Octet(n)) == n
  {
    OctetAsNat(n);
    ValueAsNat(Octet(n));
  }

  lemma {:induction false} OctetAsNat(n: nat)
    requires n < 256
    ensures Octet(n) as nat == n
  {
    if n > 0 {
      OctetAsNat(n - 1);
      Increment(Octet(n - 1));
    }
  }

  lemma {:induction false} ValueAsNat(b: byte)
    ensures Value(b) == b as nat
    decreases b
  {
    if b != 0 {
      ValueAsNat(b - 1);
      Increment(b - 1);
    }
  }

  lemma Increment(b: byte)
    requires b != 255
    ensures (b + 1) as nat == b as nat + 1
  {
  }

  lemma LengthOctetValues(n: nat)
    requires n < 0x8000
    ensures var o := LengthOctets(n);
            if n <= 127 then Value(o[0]) == 2 * n + 1
            else Value(o[0]) == 2 * (n % 128) && Value(o[1]) == if LengthSurvives(n) then n / 128 else n / 128 + 1
  {
    if n <= 127 {
      OctetValue(2 * n + 1);
    } else {
      TwoLengthValues(n);
    }
  }

  lemma TwoLengthValues(n: nat)
    requires 127 < n < 0x8000
    ensures var o := LengthOctets(n);
            Value(o[0]) == 2 * (n % 128) && Value(o[1]) == if LengthSurvives(n) then n / 128 else n / 128 + 1
  {
    TwoParts(n);
    var high := n / 128;
    OctetValue(2 * n % 256);
    OctetValue(if high % 2 == 0 then high + 1 else high);
  }

  lemma TwoParts(n: nat)
    ensures 2 * n % 256 == 2 * (n % 128) && n % 128 + 128 * (n / 128) == n
  {
  }

  /** The length field round-trips exactly for the lengths that survive. */
  lemma LengthRoundTrip(a: byte, c: byte, n: nat)
    requires n < 0x8000
    ensures WholeHeader([a, c] + LengthOctets(n))
    ensures LengthOf([a, c] + LengthOctets(n)) == if LengthSurvives(n) then n else n + 128
  {
    var o := LengthOctets(n);
    LengthOctetValues(n);
    if n <= 127 {
      OneLengthOctet(a, c, o[0], n);
      assert [a, c] + o == [a, c, o[0]];
    } else {
      TwoLengthOctets(a, c, o[0], o[1], n % 128);
      assert [a, c] + o == [a, c, o[0], o[1]];
      TwoParts(n);
    }
  }

  lemma OneLengthOctet(a: byte, c: byte, x: byte, n: nat)
    requires Value(x) == 2 * n + 1
    ensures WholeHeader([a, c, x]) && LengthOf([a, c, x]) == n
  {
  }

  lemma TwoLengthOctets(a: byte, c: byte, x: byte, y: byte, n: nat)
    requires Value(x) == 2 * n
    ensures WholeHeader([a, c, x, y]) && LengthOf([a, c, x, y]) == n + 128 * Value(y)
  {
  }

  /** What an endpoint may put in a frame for the address and type fields to be readable. */
  predicate Readable(f: Frame) {
    f.address < 64 && f.kind & 0x10 == 0 && |f.data| < 0x8000
  }

  lemma HeaderRoundTrip(f: Frame)
    requires Readable(f)
    ensures WholeHeader(Header(f)) && FrameOf(Header(f), f.data) == f
    ensures LengthOf(Header(f)) == |f.data| <==> LengthSurvives(|f.data|)
    ensures !LengthSurvives(|f.data|) ==> LengthOf(Header(f)) == |f.data| + 128 && |Header(f)| == 4
  {
    LengthRoundTrip(AddressOctet(f), ControlOctet(f), |f.data|);
  }

  lemma ShortLengthsSurvive(n: nat)
    requires n <= 255
    ensures LengthSurvives(n)
  {
  }
}
