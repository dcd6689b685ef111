/** The octet type and the two frame check sequences, computed bit by bit. */
module Crc {
  type byte = bv8

  const BITS: nat := 8

  // ----- CRC-8, reflected, polynomial 0xE0 (section 5.2.1.6 of 3GPP TS 27.010)

  function Shift8(c: bv8): bv8 {
    if c & 1 == 1 then (c >> 1) ^ 0xE0 else c >> 1
  }

  function Shifts8(c: bv8, k: nat): bv8
    decreases k
  {
    if k == 0 then c else Shifts8(Shift8(c), k - 1)
  }

  function Update8(c: bv8, b: byte): bv8 {
    Shifts8(c ^ b, BITS)
  }

  function Crc8(c: bv8, s: seq<byte>): bv8
    decreases |s|
  {
    if s == [] then c else Crc8(Update8(c, s[0]), s[1..])
  }

  lemma {:induction false} Crc8Concat(c: bv8, s: seq<byte>, t: seq<byte>)
    ensures Crc8(c, s + t) == Crc8(Crc8(c, s), t)
    decreases |s|
  {
    if s == [] {
      assert s + t == t;
    } else {
      assert (s + t)[0] == s[0] && (s + t)[1..] == s[1..] + t;
      Crc8Concat(Update8(c, s[0]), s[1..], t);
    }
  }

  lemma Shift8Injective(c: bv8, d: bv8)
    requires Shift8(c) == Shift8(d)
    ensures c == d
  {
  }

  lemma {:induction false} Shifts8Injective(c: bv8, d: bv8, k: nat)
    requires Shifts8(c, k) == Shifts8(d, k)
    ensures c == d
    decreases k
  {
    if k > 0 {
      Shifts8Injective(Shift8(c), Shift8(d), k - 1);
      Shift8Injective(c, d);
    }
  }

  lemma Update8Injective(c: bv8, b: byte, d: bv8, e: byte)
    requires Update8(c, b) == Update8(d, e)
    ensures c ^ b == d ^ e
  {
    Shifts8Injective(c ^ b, d ^ e, BITS);
  }

  lemma {:induction false} Crc8Injective(c: bv8, d: bv8, s: seq<byte>)
    requires Crc8(c, s) == Crc8(d, s)
    ensures c == d
    decreases |s|
  {
    if s != [] {
      Crc8Injective(Update8(c, s[0]), Update8(d, s[0]), s[1..]);
      Update8Injective(c, s[0], d, s[0]);
      assert c == (c ^ s[0]) ^ s[0];
    }
  }

  /** Changing exactly one octet of a sequence changes its check sequence. */
  lemma {:induction false} Crc8DetectsOneOctet(c: bv8, s: seq<byte>, k: nat, b: byte)
    requires k < |s| && b != s[k]
    ensures Crc8(c, s[k := b]) != Crc8(c, s)
    decreases k
  {
    var t := s[k := b];
    if k == 0 {
      assert t[1..] == s[1..];
      if Crc8(c, t) == Crc8(c, s) {
        Crc8Injective(Update8(c, b), Update8(c, s[0]), s[1..]);
        Update8Injective(c, b, c, s[0]);
      }
    } else {
      assert t[1..] == s[1..][k - 1 := b];
      Crc8DetectsOneOctet(Update8(c, s[0]), s[1..], k - 1, b);
    }
  }

  /** Eight shifts of the register, written out. */
  lemma Shifts8Unrolled(c: bv8)
    ensures Shifts8(c, BITS) == Shift8(Shift8(Shift8(Shift8(Shift8(Shift8(Shift8(Shift8(c))))))))
  {
    var c4 := Shift8(Shift8(Shift8(Shift8(c))));
    assert Shifts8(c, BITS) == Shifts8(c4, 4);
  }

  /** Appending the complemented register always leaves the good residue of the standard. */
  lemma GoodResidue8(c: bv8)
    ensures Crc8(c, [0xFF - c]) == 0xCF
  {
    assert c ^ (0xFF - c) == 0xFF;
    Shifts8Unrolled(0xFF);
    assert [0xFF - c][1..] == [];
  }

  // ----- FCS-16, reflected, polynomial 0x8408 (appendix C.2 of RFC 1662)

  function Shift16(c: bv16): bv16 {
    if c & 1 == 1 then (c >> 1) ^ 0x8408 else c >> 1
  }

  function Shifts16(c: bv16, k: nat): bv16
    decreases k
  {
    if k == 0 then c else Shifts16(Shift16(c), k - 1)
  }

  function Update16(c: bv16, b: byte): bv16 {
    Shifts16(c ^ (b as bv16), BITS)
  }

  function Crc16(c: bv16, s: seq<byte>): bv16
    decreases |s|
  {
    if s == [] then c else Crc16(Update16(c, s[0]), s[1..])
  }

  function Low(c: bv16): byte { (c & 0xFF) as byte }
  function High(c: bv16): byte { (c >> 8) as byte }

  lemma {:induction false} Crc16Concat(c: bv16, s: seq<byte>, t: seq<byte>)
    ensures Crc16(c, s + t) == Crc16(Crc16(c, s), t)
    decreases |s|
  {
    if s == [] {
      assert s + t == t;
    } else {
      assert (s + t)[0] == s[0] && (s + t)[1..] == s[1..] + t;
      Crc16Concat(Update16(c, s[0]), s[1..], t);
    }
  }

  lemma Shift16Injective(c: bv16, d: bv16)
    requires Shift16(c) == Shift16(d)
    ensures c == d
  {
  }

  lemma {:induction false} Shifts16Injective(c: bv16, d: bv16, k: nat)
    requires Shifts16(c, k) == Shifts16(d, k)
    ensures c == d
    decreases k
  {
    if k > 0 {
      Shifts16Injective(Shift16(c), Shift16(d), k - 1);
      Shift16Injective(c, d);
    }
  }

  lemma MixInjective(c: bv16, d: bv16, x: bv16)
    requires c ^ x == d ^ x
    ensures c == d
  {
    assert c == (c ^ x) ^ x && d == (d ^ x) ^ x;
  }

  lemma MixDifferent(c: bv16, b: byte, e: byte)
    requires b != e
    ensures c ^ (b as bv16) != c ^ (e as bv16)
  {
    assert (b as bv16) != (e as bv16);
    assert b as bv16 == c ^ (c ^ (b as bv16)) && e as bv16 == c ^ (c ^ (e as bv16));
  }

  lemma ShiftsOfMix(c: bv16, d: bv16, x: bv16, k: nat)
    requires Shifts16(c ^ x, k) == Shifts16(d ^ x, k)
    ensures c == d
  {
    Shifts16Injective(c ^ x, d ^ x, k);
    MixInjective(c, d, x);
  }

  lemma Update16Injective(c: bv16, d: bv16, b: byte)
    requires Update16(c, b) == Update16(d, b)
    ensures c == d
  {
    var x := b as bv16;
    assert Update16(c, b) == Shifts16(c ^ x, BITS) && Update16(d, b) == Shifts16(d ^ x, BITS);
    ShiftsOfMix(c, d, x, BITS);
  }

  lemma Update16Different(c: bv16, b: byte, e: byte)
    requires b != e
    ensures Update16(c, b) != Update16(c, e)
  {
    MixDifferent(c, b, e);
    if Update16(c, b) == Update16(c, e) {
      Shifts16Injective(c ^ (b as bv16), c ^ (e as bv16), BITS);
    }
  }

  lemma {:induction false} Crc16Injective(c: bv16, d: bv16, s: seq<byte>)
    requires Crc16(c, s) == Crc16(d, s)
    ensures c == d
    decreases |s|
  {
    if s != [] {
      Crc16Injective(Update16(c, s[0]), Update16(d, s[0]), s[1..]);
      Update16Injective(c, d, s[0]);
    }
  }

  /** Changing exactly one octet of a sequence changes this check sequence too. */
  lemma {:induction false} Crc16DetectsOneOctet(c: bv16, s: seq<byte>, k: nat, b: byte)
    requires k < |s| && b != s[k]
    ensures Crc16(c, s[k := b]) != Crc16(c, s)
    decreases k
  {
    var t := s[k := b];
    if k == 0 {
      assert t[1..] == s[1..];
      Update16Different(c, b, s[0]);
      if Crc16(c, t) == Crc16(c, s) {
        Crc16Injective(Update16(c, b), Update16(c, s[0]), s[1..]);
      }
    } else {
      assert t[1..] == s[1..][k - 1 := b];
      Crc16DetectsOneOctet(Update16(c, s[0]), s[1..], k - 1, b);
    }
  }

  /** Eight shifts of the register, written out. */
  lemma Shifts16Unrolled(c: bv16)
    ensures Shifts16(c, BITS) ==
            Shift16(Shift16(Shift16(Shift16(Shift16(Shift16(Shift16(Shift16(c))))))))
  {
    var c4 := Shift16(Shift16(Shift16(Shift16(c))));
    assert Shifts16(c, BITS) == Shifts16(c4, 4);
  }

  lemma LowHalf(c: bv16)
    ensures Update16(c, Low(c ^ 0xFFFF)) == (c >> 8) ^ 0x0F78
  {
    var lo := Low(c ^ 0xFFFF) as bv16;
    assert c ^ lo == (c & 0xFF00) | 0xFF;
    Shifts16Unrolled(c ^ lo);
  }

  lemma HighHalf(c: bv16)
    ensures Update16((c >> 8) ^ 0x0F78, High(c ^ 0xFFFF)) == 0xF0B8
  {
    var hi := High(c ^ 0xFFFF) as bv16;
    assert ((c >> 8) ^ 0x0F78) ^ hi == 0x0F87;
    LastShifts();
  }

  lemma LastShifts()
    ensures Shifts16(0x0F87, BITS) == 0xF0B8
  {
    Shifts16Unrolled(0x0F87);
  }

  /** Appending the complemented register, low octet first, always leaves the good residue. */
  lemma GoodResidue(c: bv16)
    ensures Crc16(c, [Low(c ^ 0xFFFF), High(c ^ 0xFFFF)]) == 0xF0B8
  {
    var lo, hi := Low(c ^ 0xFFFF), High(c ^ 0xFFFF);
    LowHalf(c);
    HighHalf(c);
    Crc16Two(c, lo, hi);
  }

  lemma Crc16Two(c: bv16, b: byte, d: byte)
    ensures Crc16(c, [b, d]) == Update16(Update16(c, b), d)
  {
    assert [b, d][1..] == [d];
    assert [d][1..] == [];
    assert Crc16(c, [b, d]) == Crc16(Update16(c, b), [d]);
  }
}
