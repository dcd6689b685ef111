/** The sixteen-state machine that emits a packet's frame one octet at a time, suspended anywhere. */
module PppWrap {
  import opened Crc
  import opened Sequences
  import opened PppFrame

  datatype TxState =
    | Idle | Sof | HdrFf | Hdr7d | Hdr23
    | ProtocolHigh | EscapingProtocolHigh | ProtocolLow | EscapingProtocolLow
    | Data | EscapingData
    | FcsLow | EscapingFcsLow | FcsHigh | EscapingFcsHigh
    | Eof

  /** `cursor` is the read position in the packet being sent. */
  datatype Tx = Tx(state: TxState, escaped: byte, protocol: bv16, fcs: bv16, cursor: nat)

  /** Emits the octet, or an escape with the octet to follow kept for the next state. */
  function Emit(t: Tx, b: byte, plain: TxState, escaping: TxState): (Tx, byte) {
    if Special(b) then (t.(state := escaping, escaped := b ^ 0x20), ESCAPE) else (t.(state := plain), b)
  }

  /** The next octet of the frame. Reading past the end of the packet is what the precondition excludes. */
  function WrapByte(t: Tx, p: Packet): (Tx, byte)
    requires t.state == Data ==> t.cursor < |p.data|
  {
    match t.state
    case Idle => (t, 0)
    case Sof => (t.(state := HdrFf), FLAG)
    case HdrFf => (t.(state := Hdr7d, cursor := 0, fcs := Update16(FCS_INIT, 0xFF)), 0xFF)
    case Hdr7d => (t.(state := Hdr23, fcs := Update16(t.fcs, 0x03)), ESCAPE)
    case Hdr23 =>
      (if p.ppp then t.(state := Data) else t.(state := ProtocolHigh, protocol := Protocol(p)), 0x23)
    case ProtocolHigh =>
      var b := High(t.protocol);
      Emit(t.(fcs := Update16(t.fcs, b)), b, ProtocolLow, EscapingProtocolHigh)
    case EscapingProtocolHigh => (t.(state := ProtocolLow), t.escaped)
    case ProtocolLow =>
      var b := Low(t.protocol);
      Emit(t.(fcs := Update16(t.fcs, b)), b, Data, EscapingProtocolLow)
    case EscapingProtocolLow => (t.(state := Data), t.escaped)
    case Data =>
      var b := p.data[t.cursor];
      var after := if t.cursor + 1 == |p.data| then FcsLow else Data;
      Emit(t.(fcs := Update16(t.fcs, b), cursor := t.cursor + 1), b, after, EscapingData)
    case EscapingData => (t.(state := if t.cursor == |p.data| then FcsLow else Data), t.escaped)
    case FcsLow =>
      var fcs := t.fcs ^ 0xFFFF;
      Emit(t.(fcs := fcs), Low(fcs), FcsHigh, EscapingFcsLow)
    case EscapingFcsLow => (t.(state := FcsHigh), t.escaped)
    case FcsHigh => Emit(t, High(t.fcs), Eof, EscapingFcsHigh)
    case EscapingFcsHigh => (t.(state := Eof), t.escaped)
    case Eof => (t.(state := Idle), FLAG)
  }

  // ----- What is still to be emitted

  function FcsRest(fcs: bv16): seq<byte> {
    Stuff([Low(fcs ^ 0xFFFF), High(fcs ^ 0xFFFF)]) + [FLAG]
  }

  /** Stuffed octets followed by the check sequence they lead to, and the closing flag. */
  function Rest(fcs: bv16, s: seq<byte>): seq<byte> {
    Stuff(s) + FcsRest(Crc16(fcs, s))
  }

  const HEADER_FCS: bv16 := Update16(Update16(FCS_INIT, 0xFF), 0x03)

  /** The states as positions in the frame. */
  predicate Positioned(t: Tx, p: Packet) {
    && Valid(p)
    && match t.state
       case Hdr7d => t.cursor == 0 && t.fcs == Update16(FCS_INIT, 0xFF)
       case Hdr23 => t.cursor == 0 && t.fcs == HEADER_FCS
       case ProtocolHigh => t.cursor == 0 && !p.ppp && t.protocol == Protocol(p)
       case EscapingProtocolHigh => t.cursor == 0 && !p.ppp && t.protocol == Protocol(p)
       case ProtocolLow => t.cursor == 0 && !p.ppp && t.protocol == Protocol(p)
       case EscapingProtocolLow => t.cursor == 0
       case Data => t.cursor < |p.data|
       case EscapingData => t.cursor <= |p.data|
       case _ => true
  }

  /** The octets of the frame that have not been emitted yet. */
  function Unsent(t: Tx, p: Packet): seq<byte>
    requires Positioned(t, p)
  {
    var high, low := High(t.protocol), Low(t.protocol);
    match t.state
    case Idle => []
    case Sof => [FLAG, 0xFF, ESCAPE, 0x23] + Rest(HEADER_FCS, Payload(p))
    case HdrFf => [0xFF, ESCAPE, 0x23] + Rest(HEADER_FCS, Payload(p))
    case Hdr7d => [ESCAPE, 0x23] + Rest(HEADER_FCS, Payload(p))
    case Hdr23 => [0x23] + Rest(HEADER_FCS, Payload(p))
    case ProtocolHigh => Rest(t.fcs, [high, low] + p.data)
    case EscapingProtocolHigh => [t.escaped] + Rest(t.fcs, [low] + p.data)
    case ProtocolLow => Rest(t.fcs, [low] + p.data)
    case EscapingProtocolLow => [t.escaped] + Rest(t.fcs, p.data)
    case Data => Rest(t.fcs, p.data[t.cursor..])
    case EscapingData => [t.escaped] + Rest(t.fcs, p.data[t.cursor..])
    case FcsLow => FcsRest(t.fcs)
    case EscapingFcsLow => [t.escaped] + (Stuff([High(t.fcs)]) + [FLAG])
    case FcsHigh => Stuff([High(t.fcs)]) + [FLAG]
    case EscapingFcsHigh => [t.escaped, FLAG]
    case Eof => [FLAG]
  }

  lemma HeaderCrc(s: seq<byte>)
    ensures Crc16(FCS_INIT, HEADER + s) == Crc16(HEADER_FCS, s)
  {
    Crc16Concat(FCS_INIT, HEADER, s);
    Crc16Two(FCS_INIT, 0xFF, 0x03);
  }

  lemma StuffContent(p: Packet, trailer: seq<byte>)
    requires Content(p) == HEADER + Payload(p) + trailer
    ensures Stuff(Content(p)) == [0xFF, ESCAPE, 0x23] + (Stuff(Payload(p)) + Stuff(trailer))
  {
    assert Content(p) == HEADER + (Payload(p) + trailer);
    StuffConcat(HEADER, Payload(p) + trailer);
    StuffConcat(Payload(p), trailer);
    HeaderStuffed();
  }

  lemma Regroup(s: seq<byte>, trailer: seq<byte>)
    ensures [FLAG] + ([0xFF, ESCAPE, 0x23] + (s + trailer)) + [FLAG] ==
            [FLAG, 0xFF, ESCAPE, 0x23] + (s + (trailer + [FLAG]))
  {
  }

  /** The machine starts with the whole frame of RFC 1662 ahead of it. */
  lemma UnsentAtStart(t: Tx, p: Packet)
    requires t.state == Sof && Valid(p)
    ensures Unsent(t, p) == Encode(p)
  {
    var fcs := Crc16(FCS_INIT, HEADER + Payload(p)) ^ 0xFFFF;
    HeaderCrc(Payload(p));
    StuffContent(p, [Low(fcs), High(fcs)]);
    Regroup(Stuff(Payload(p)), Stuff([Low(fcs), High(fcs)]));
  }

  // ----- One octet at a time

  lemma RestUnfold(fcs: bv16, s: seq<byte>)
    requires s != []
    ensures Rest(fcs, s) == Escape(s[0]) + Rest(Update16(fcs, s[0]), s[1..])
  {
    Associative(Escape(s[0]), Stuff(s[1..]), FcsRest(Crc16(fcs, s)));
  }

  lemma RestOfNothing(fcs: bv16)
    ensures Rest(fcs, []) == FcsRest(fcs)
  {
  }

  lemma EscapeThen(b: byte, r: seq<byte>)
    ensures Escape(b) + r == if Special(b) then [ESCAPE] + ([b ^ 0x20] + r) else [b] + r
  {
  }

  ghost predicate Advances(t: Tx, p: Packet)
    requires Positioned(t, p)
  {
    var (t', b) := WrapByte(t, p);
    Positioned(t', p) && Unsent(t, p) == [b] + Unsent(t', p)
  }

  lemma HeaderStep(t: Tx, p: Packet)
    requires Positioned(t, p) && t.state in {Sof, HdrFf, Hdr7d}
    ensures Advances(t, p)
  {
    var r := Rest(HEADER_FCS, Payload(p));
    if t.state == Sof {
      assert [FLAG, 0xFF, ESCAPE, 0x23] + r == [FLAG] + ([0xFF, ESCAPE, 0x23] + r);
    } else if t.state == HdrFf {
      assert [0xFF, ESCAPE, 0x23] + r == [0xFF] + ([ESCAPE, 0x23] + r);
    } else {
      assert [ESCAPE, 0x23] + r == [ESCAPE] + ([0x23] + r);
    }
  }

  lemma LastHeaderStep(t: Tx, p: Packet)
    requires Positioned(t, p) && t.state == Hdr23
    ensures Advances(t, p)
  {
    assert p.data[0..] == p.data;
  }

  lemma ProtocolHighStep(t: Tx, p: Packet)
    requires Positioned(t, p) && t.state == ProtocolHigh
    ensures Advances(t, p)
  {
    var high, low := High(t.protocol), Low(t.protocol);
    var s := [high, low] + p.data;
    RestUnfold(t.fcs, s);
    assert s[1..] == [low] + p.data;
    EscapeThen(high, Rest(Update16(t.fcs, high), [low] + p.data));
  }

  lemma ProtocolLowStep(t: Tx, p: Packet)
    requires Positioned(t, p) && t.state == ProtocolLow
    ensures Advances(t, p)
  {
    var low := Low(t.protocol);
    var s := [low] + p.data;
    RestUnfold(t.fcs, s);
    assert s[1..] == p.data && p.data[0..] == p.data;
    EscapeThen(low, Rest(Update16(t.fcs, low), p.data));
  }

  lemma DataStep(t: Tx, p: Packet)
    requires Positioned(t, p) && t.state == Data
    ensures Advances(t, p)
  {
    var s := p.data[t.cursor..];
    var fcs := Update16(t.fcs, s[0]);
    RestUnfold(t.fcs, s);
    assert s[1..] == p.data[t.cursor + 1..];
    EscapeThen(s[0], Rest(fcs, s[1..]));
    if Special(s[0]) {
      DataEscaped(t, p, fcs, p.data[t.cursor] ^ 0x20);
    } else {
      DataPlain(t, p, fcs);
    }
  }

  lemma DataPlain(t: Tx, p: Packet, fcs: bv16)
    requires Positioned(t, p) && t.state == Data && fcs == Update16(t.fcs, p.data[t.cursor])
    requires !Special(p.data[t.cursor])
    ensures var (t', b) := WrapByte(t, p);
            Positioned(t', p) && b == p.data[t.cursor] && Unsent(t', p) == Rest(fcs, p.data[t.cursor + 1..])
  {
    if t.cursor + 1 == |p.data| {
      LastDataPlain(t, p, fcs);
    } else {
      var t' := t.(state := Data, fcs := fcs, cursor := t.cursor + 1);
      assert WrapByte(t, p) == (t', p.data[t.cursor]);
    }
  }

  lemma LastDataPlain(t: Tx, p: Packet, fcs: bv16)
    requires Positioned(t, p) && t.state == Data && fcs == Update16(t.fcs, p.data[t.cursor])
    requires !Special(p.data[t.cursor]) && t.cursor + 1 == |p.data|
    ensures var (t', b) := WrapByte(t, p);
            Positioned(t', p) && b == p.data[t.cursor] && Unsent(t', p) == Rest(fcs, p.data[t.cursor + 1..])
  {
    var t' := t.(state := FcsLow, fcs := fcs, cursor := t.cursor + 1);
    assert WrapByte(t, p) == (t', p.data[t.cursor]);
    assert p.data[t.cursor + 1..] == [];
    RestOfNothing(fcs);
  }

  lemma EmitEscapes(t: Tx, b: byte, plain: TxState, escaping: TxState)
    requires Special(b)
    ensures Emit(t, b, plain, escaping) == (t.(state := escaping, escaped := b ^ 0x20), ESCAPE)
  {
  }

  lemma DataWrapped(t: Tx, p: Packet, fcs: bv16, b: byte, flipped: byte)
    requires t.state == Data && t.cursor < |p.data| && b == p.data[t.cursor] && fcs == Update16(t.fcs, b)
    requires Special(b) && flipped == b ^ 0x20
    ensures WrapByte(t, p) ==
            (t.(state := EscapingData, escaped := flipped, fcs := fcs, cursor := t.cursor + 1), ESCAPE)
  {
    var after := if t.cursor + 1 == |p.data| then FcsLow else Data;
    EmitEscapes(t.(fcs := fcs, cursor := t.cursor + 1), b, after, EscapingData);
  }

  /** The second half of an escaped octet of data is ahead. */
  lemma EscapingDataUnsent(t: Tx, t': Tx, p: Packet)
    requires Positioned(t, p) && t.state == Data
    requires t' == t.(state := EscapingData, escaped := t'.escaped, fcs := t'.fcs, cursor := t.cursor + 1)
    ensures Positioned(t', p) && Unsent(t', p) == [t'.escaped] + Rest(t'.fcs, p.data[t.cursor + 1..])
  {
  }

  lemma DataEscaped(t: Tx, p: Packet, fcs: bv16, flipped: byte)
    requires Positioned(t, p) && t.state == Data && fcs == Update16(t.fcs, p.data[t.cursor])
    requires Special(p.data[t.cursor]) && flipped == p.data[t.cursor] ^ 0x20
    ensures var (t', b) := WrapByte(t, p);
            Positioned(t', p) && b == ESCAPE && Unsent(t', p) == [flipped] + Rest(fcs, p.data[t.cursor + 1..])
  {
    DataWrapped(t, p, fcs, p.data[t.cursor], flipped);
    EscapingDataUnsent(t, WrapByte(t, p).0, p);
  }

  lemma EscapingStep(t: Tx, p: Packet)
    requires Positioned(t, p)
    requires t.state in {EscapingProtocolHigh, EscapingProtocolLow, EscapingData}
    ensures Advances(t, p)
  {
    if t.state == EscapingProtocolLow {
      assert p.data[0..] == p.data;
    } else if t.state == EscapingData && t.cursor == |p.data| {
      assert p.data[t.cursor..] == [];
      RestOfNothing(t.fcs);
    }
  }

  lemma StuffTwo(b: byte, c: byte)
    ensures Stuff([b, c]) + [FLAG] == Escape(b) + (Stuff([c]) + [FLAG])
  {
    assert [b, c][1..] == [c];
    Associative(Escape(b), Stuff([c]), [FLAG]);
  }

  lemma CheckAhead(register: bv16, fcs: bv16)
    requires fcs == register ^ 0xFFFF
    ensures FcsRest(register) == Escape(Low(fcs)) + (Stuff([High(fcs)]) + [FLAG])
  {
    StuffTwo(Low(fcs), High(fcs));
  }

  lemma FcsLowAhead(t: Tx, p: Packet, fcs: bv16, low: byte, rest: seq<byte>)
    requires Positioned(t, p) && t.state == FcsLow && fcs == t.fcs ^ 0xFFFF && low == Low(fcs)
    requires rest == Stuff([High(fcs)]) + [FLAG]
    ensures Unsent(t, p) == if Special(low) then [ESCAPE] + ([low ^ 0x20] + rest) else [low] + rest
  {
    CheckAhead(t.fcs, fcs);
    EscapeThen(low, rest);
  }

  lemma FcsLowStep(t: Tx, p: Packet)
    requires Positioned(t, p) && t.state == FcsLow
    ensures Advances(t, p)
  {
    var fcs := t.fcs ^ 0xFFFF;
    var low := Low(fcs);
    FcsLowAhead(t, p, fcs, low, Stuff([High(fcs)]) + [FLAG]);
    if Special(low) {
      FcsLowEscaped(t, p, fcs, low ^ 0x20);
    } else {
      FcsLowPlain(t, p, fcs);
    }
  }

  lemma FcsLowPlain(t: Tx, p: Packet, fcs: bv16)
    requires Positioned(t, p) && t.state == FcsLow && fcs == t.fcs ^ 0xFFFF && !Special(Low(fcs))
    ensures var (t', b) := WrapByte(t, p);
            Positioned(t', p) && b == Low(fcs) && Unsent(t', p) == Stuff([High(fcs)]) + [FLAG]
  {
  }

  lemma FcsLowWrapped(t: Tx, p: Packet, fcs: bv16, flipped: byte)
    requires t.state == FcsLow && fcs == t.fcs ^ 0xFFFF && Special(Low(fcs)) && flipped == Low(fcs) ^ 0x20
    ensures WrapByte(t, p) == (t.(fcs := fcs, state := EscapingFcsLow, escaped := flipped), ESCAPE)
  {
    EmitEscapes(t.(fcs := fcs), Low(fcs), FcsHigh, EscapingFcsLow);
  }

  lemma FcsLowEscaped(t: Tx, p: Packet, fcs: bv16, flipped: byte)
    requires Positioned(t, p) && t.state == FcsLow && fcs == t.fcs ^ 0xFFFF
    requires Special(Low(fcs)) && flipped == Low(fcs) ^ 0x20
    ensures var (t', b) := WrapByte(t, p);
            Positioned(t', p) && b == ESCAPE && Unsent(t', p) == [flipped] + (Stuff([High(fcs)]) + [FLAG])
  {
    FcsLowWrapped(t, p, fcs, flipped);
    EscapingFcsLowUnsent(WrapByte(t, p).0, p);
  }

  lemma EscapingFcsLowUnsent(t: Tx, p: Packet)
    requires Valid(p) && t.state == EscapingFcsLow
    ensures Unsent(t, p) == [t.escaped] + (Stuff([High(t.fcs)]) + [FLAG])
  {
  }

  lemma FcsHighStep(t: Tx, p: Packet)
    requires Positioned(t, p) && t.state == FcsHigh
    ensures Advances(t, p)
  {
    StuffOne(High(t.fcs));
    EscapeThen(High(t.fcs), [FLAG]);
  }

  lemma EndStep(t: Tx, p: Packet)
    requires Positioned(t, p) && t.state in {EscapingFcsLow, EscapingFcsHigh, Eof}
    ensures Advances(t, p)
  {
  }

  /** Emitting removes exactly the first octet of what was unsent, and never reads an exhausted packet. */
  lemma WrapStep(t: Tx, p: Packet)
    requires Positioned(t, p) && t.state != Idle
    ensures var (t', b) := WrapByte(t, p);
            Positioned(t', p) && Unsent(t, p) == [b] + Unsent(t', p)
  {
    match t.state
    case ProtocolHigh => ProtocolHighStep(t, p);
    case ProtocolLow => ProtocolLowStep(t, p);
    case Data => DataStep(t, p);
    case Sof => HeaderStep(t, p);
    case HdrFf => HeaderStep(t, p);
    case Hdr7d => HeaderStep(t, p);
    case Hdr23 => LastHeaderStep(t, p);
    case EscapingProtocolHigh => EscapingStep(t, p);
    case EscapingProtocolLow => EscapingStep(t, p);
    case EscapingData => EscapingStep(t, p);
    case FcsLow => FcsLowStep(t, p);
    case FcsHigh => FcsHighStep(t, p);
    case _ => EndStep(t, p);
  }

  // ----- A whole frame

  /** The next octets the machine emits. */
  function Emitted(t: Tx, p: Packet, n: nat): seq<byte>
    requires Positioned(t, p) && n <= |Unsent(t, p)|
    decreases n
  {
    if n == 0 then []
    else
      WrapStep(t, p);
      var (t', b) := WrapByte(t, p);
      [b] + Emitted(t', p, n - 1)
  }

  lemma TakeHead(b: byte, rest: seq<byte>, n: nat)
    requires 0 < n <= |rest| + 1
    ensures ([b] + rest)[..n] == [b] + rest[..n - 1]
  {
  }

  /** They are the first of what was unsent. */
  lemma {:induction false} EmitsUnsent(t: Tx, p: Packet, n: nat)
    requires Positioned(t, p) && n <= |Unsent(t, p)|
    ensures Emitted(t, p, n) == Unsent(t, p)[..n]
    decreases n
  {
    if n > 0 {
      WrapStep(t, p);
      var (t', b) := WrapByte(t, p);
      EmitsUnsent(t', p, n - 1);
      TakeHead(b, Unsent(t', p), n);
    }
  }

  /** From the start of a frame the machine emits its encoding, which for an IP packet begins with these octets. */
  lemma FrameEmitted(t: Tx, p: Packet)
    requires t.state == Sof && Valid(p)
    ensures |Unsent(t, p)| == |Encode(p)| && Emitted(t, p, |Encode(p)|) == Encode(p)
    ensures !p.ppp && p.family == Inet ==> [0x7E, 0xFF, 0x7D, 0x23, 0x7D, 0x20, 0x21] <= Emitted(t, p, |Encode(p)|)
    ensures !p.ppp && p.family == Inet6 ==> [0x7E, 0xFF, 0x7D, 0x23, 0x7D, 0x20, 0x57] <= Emitted(t, p, |Encode(p)|)
  {
    UnsentAtStart(t, p);
    EmitsUnsent(t, p, |Encode(p)|);
    if !p.ppp && p.family != Other {
      FrameBegins(p);
    }
  }
}
