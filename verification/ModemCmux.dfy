/**
 The multiplexer over its buffers, rings and fields. `l` is the abstract link and `r` the abstract octet receiver that
 the fields stand for; every entry point takes them to the next ones.
 */
module ModemCmux {
  import opened Crc
  import opened Errno
  import opened RingBuf
  import opened CmuxFrame
  import opened CmuxReceive
  import opened CmuxLink

  /** A channel: its state, the state of its pipe, its timers and its receive ring. */
  class Dlci {
    const address: byte
    const ring: Ring
    var state: ChannelState
    var pipeOpen: bool
    var openWork: bool
    var closeWork: bool

    ghost predicate Realises(c: Channel)
      reads this, ring, ring.buf
    {
      && c.address == address && c.state == state && c.pipeOpen == pipeOpen
      && c.openWork == openWork && c.closeWork == closeWork
      && ring.Valid() && c.ring == ring.Contents() && c.capacity == ring.buf.Length
    }

    constructor (address: byte, receiveSize: nat)
      requires address < 64 && 126 <= receiveSize
      ensures Realises(NewChannel(address, receiveSize)) && fresh(ring) && fresh(ring.buf)
    {
      this.address := address;
      ring := new Ring(receiveSize);
      state, pipeOpen, openWork, closeWork := Closed, false, false, false;
    }

    method Change(state: ChannelState, openWork: bool, closeWork: bool, ghost c: Channel)
      requires Realises(c)
      modifies this
      ensures Realises(c.(state := state, openWork := openWork, closeWork := closeWork))
    {
      this.state := state;
      this.openWork, this.closeWork := openWork, closeWork;
    }

    method OnUa(ghost c: Channel)
      requires Realises(c)
      modifies this
      ensures Realises(OnChannelUa(c))
    {
      match state {
        case Opening => state, pipeOpen, openWork := Open, true, false;
        case Closing => state, pipeOpen, closeWork := Closed, false, false;
        case _ =>
      }
    }

    /** Stores the octets of a data frame; what does not fit is dropped. */
    method OnUih(x: Received, ghost c: Channel)
      requires Realises(c)
      modifies ring`len, ring.buf
      ensures |c.ring| <= c.capacity && Realises(OnChannelUih(c, x))
    {
      if state == Open {
        var d := Payload(x);
        var n := ring.Put(d);
        assert d[..|d|] == d;
      }
    }

    /** A channel's receive call. */
    method Receive(size: nat, ghost c: Channel) returns (data: seq<byte>)
      requires Realises(c)
      modifies ring
      ensures Realises(PipeReceive(c, size)) && data == PipeRead(c, size)
    {
      data := ring.Get(size);
    }
  }

  /** What the octet handler needs to stay inside the header and the receive buffer. */
  predicate Bounded(x: Rx, size: nat) {
    && |x.header| <= 4
    && (x.state == Control ==> |x.header| == 1) && (x.state == Length ==> |x.header| == 2)
    && (x.state == LengthCont ==> |x.header| == 3)
    && (x.state in {Control, Length, LengthCont, Data} ==> |x.data| < size)
  }

  ghost predicate Apart(d: Dlci, e: Dlci) {
    d != e && d.ring != e.ring && d.ring.buf != e.ring.buf
  }

  class Cmux {
    // link
    const transmitRing: Ring
    var dlcis: seq<Dlci>
    var state: LinkState
    var flowControlOn: bool
    var connectedBit: bool
    var disconnectedBit: bool
    var connectWork: bool
    var disconnectWork: bool
    var transmitWork: bool
    var receiveWork: bool
    // octet receiver
    const receiveBuf: array<byte>
    const frameHeader: array<byte>
    var receiveState: RxState
    var receiveBufLen: nat
    var frameHeaderLen: nat
    // received frame
    var address: byte
    var cr: bool
    var pf: bool
    var kind: byte
    var dataLen: nat
    var dataSet: bool

    ghost var parts: set<object> // the objects of the channels
    ghost var l: Link
    ghost var r: Receiver

    /** The link's own fields and its transmit ring; channels are left to `Carries`. */
    ghost predicate Wired(g: Link)
      reads this`state, this`flowControlOn, this`connectedBit, this`disconnectedBit
      reads this`connectWork, this`disconnectWork, this`transmitWork, transmitRing, transmitRing.buf
    {
      && (state, flowControlOn, connectedBit, disconnectedBit, connectWork, disconnectWork, transmitWork) ==
         (g.state, g.flow, g.connectedBit, g.disconnectedBit, g.connectWork, g.disconnectWork, g.transmitWork)
      && transmitRing.Valid() && g.ring == transmitRing.Contents() && g.capacity == transmitRing.buf.Length
    }

    ghost predicate Carries(cs: seq<Channel>)
      reads this`dlcis, this`parts, parts
    {
      && |dlcis| == |cs|
      && (forall d <- dlcis :: d in parts && d.ring in parts && d.ring.buf in parts)
      && (forall i | 0 <= i < |dlcis| :: dlcis[i].Realises(cs[i]))
      && (forall i, j | 0 <= i < j < |dlcis| :: Apart(dlcis[i], dlcis[j]))
    }

    ghost predicate Reading(x: Rx)
      reads this`receiveState, this`receiveBufLen, this`frameHeaderLen, this`address, this`cr, this`pf, this`kind
      reads this`dataLen, this`dataSet, receiveBuf, frameHeader
    {
      && frameHeaderLen <= frameHeader.Length == 5 && receiveBufLen <= receiveBuf.Length
      && x == Rx(receiveState, frameHeader[..frameHeaderLen], address, cr, pf, kind, dataLen,
                 receiveBuf[..receiveBufLen], dataSet)
      && Bounded(x, receiveBuf.Length)
    }

    /** No buffer is shared. */
    ghost predicate Separate()
      reads this`parts
    {
      && receiveBuf != frameHeader && receiveBuf != transmitRing.buf && frameHeader != transmitRing.buf
      && forall o <- parts ::
           o != this && o != transmitRing && o != transmitRing.buf && o != receiveBuf && o != frameHeader
    }

    ghost predicate Valid()
      reads this`l, this`r, this`dlcis, this`parts, this`state, this`flowControlOn, this`connectedBit
      reads this`disconnectedBit, this`connectWork, this`disconnectWork, this`transmitWork
      reads transmitRing, transmitRing.buf
      reads this`receiveState, this`receiveBufLen, this`frameHeaderLen, this`address, this`cr, this`pf, this`kind
      reads this`dataLen, this`dataSet, receiveBuf, frameHeader, parts
    {
      Separate() && Wired(l) && Carries(l.channels) && Reading(r.rx)
    }

    constructor (receiveSize: nat, transmitSize: nat)
      requires 126 <= receiveSize && 148 <= transmitSize
      ensures Valid() && l == NewLink(transmitSize) && r == Receiver(INITIAL, [], 0) && receiveBuf.Length == receiveSize
      ensures dlcis == []
    {
      transmitRing := new Ring(transmitSize);
      dlcis, parts := [], {};
      state, flowControlOn := Disconnected, false;
      connectedBit, disconnectedBit := false, true;
      connectWork, disconnectWork, transmitWork, receiveWork := false, false, false, false;
      receiveBuf := new byte[receiveSize];
      frameHeader := new byte[5];
      receiveState, receiveBufLen, frameHeaderLen := Sof, 0, 0;
      address, cr, pf, kind, dataLen, dataSet := 0, false, false, 0, 0, false;
      l, r := NewLink(transmitSize), Receiver(INITIAL, [], 0);
    }

    /** Registers a channel behind those there are. */
    method AddDlci(d: Dlci, ghost c: Channel)
      requires Valid() && d.Realises(c)
      requires d !in parts && d.ring !in parts && d.ring.buf !in parts
      requires d.ring != transmitRing && d.ring.buf !in {transmitRing.buf, receiveBuf, frameHeader}
      modifies this`dlcis, this`parts, this`l
      ensures Valid() && l == old(l).(channels := old(l).channels + [c])
    {
      Append(d, c, l.channels);
      l := l.(channels := l.channels + [c]);
    }

    method Append(d: Dlci, ghost c: Channel, ghost cs: seq<Channel>)
      requires Carries(cs) && d.Realises(c)
      requires d !in parts && d.ring !in parts && d.ring.buf !in parts
      modifies this`dlcis, this`parts
      ensures Carries(cs + [c]) && parts == old(parts) + {d, d.ring, d.ring.buf}
    {
      dlcis := dlcis + [d];
      parts := parts + {d, d.ring, d.ring.buf};
    }

    /** The fields have moved to the link `g`. */
    ghost method Settle(g: Link)
      requires Separate() && Wired(g) && Carries(g.channels) && Reading(r.rx)
      modifies this`l
      ensures Valid() && l == g
    {
      l := g;
    }

    ghost method SettleBoth(next: (Receiver, Link))
      requires Separate() && Wired(next.1) && Carries(next.1.channels) && Reading(next.0.rx)
      modifies this`r, this`l
      ensures Valid() && (r, l) == next
    {
      r, l := next.0, next.1;
    }

    // ----- Transmit ring

    /** One octet that counts for the check sequence. */
    method PutChecked(octet: byte, fcs: bv8, ghost front: seq<byte>, ghost part: seq<byte>) returns (fcs': bv8)
      requires transmitRing.Valid() && 0 < transmitRing.Space()
      requires transmitRing.Contents() == front + part && fcs == Crc8(FCS_INIT, part)
      modifies transmitRing`len, transmitRing.buf
      ensures transmitRing.Valid() && transmitRing.len == old(transmitRing.len) + 1
      ensures transmitRing.Contents() == front + (part + [octet]) && fcs' == Crc8(FCS_INIT, part + [octet])
    {
      Crc8Concat(FCS_INIT, part, [octet]);
      fcs' := Crc8(fcs, [octet]);
      transmitRing.PutByte(octet);
      assert front + part + [octet] == front + (part + [octet]);
    }

    /** The length field, in one octet or two. */
    method PutLength(n: nat, fcs: bv8, ghost front: seq<byte>, ghost part: seq<byte>) returns (fcs': bv8)
      requires transmitRing.Valid() && 2 <= transmitRing.Space()
      requires transmitRing.Contents() == front + part && fcs == Crc8(FCS_INIT, part)
      modifies transmitRing`len, transmitRing.buf
      ensures transmitRing.Valid()
      ensures transmitRing.Contents() == front + (part + LengthOctets(n))
      ensures fcs' == Crc8(FCS_INIT, part + LengthOctets(n))
    {
      if 127 < n {
        var low, high := Octet(2 * n % 256), n / 128 % 256;
        fcs' := PutChecked(low, fcs, front, part);
        var last := Octet(if high % 2 == 0 then high + 1 else high);
        fcs' := PutChecked(last, fcs', front, part + [low]);
        assert part + [low] + [last] == part + LengthOctets(n);
      } else {
        fcs' := PutChecked(Octet(2 * n + 1), fcs, front, part);
      }
    }

    /** Flag and header, with the check sequence run over the header octet by octet. */
    method PutHeader(f: Frame) returns (fcs: bv8)
      requires transmitRing.Valid() && 5 <= transmitRing.Space()
      modifies transmitRing`len, transmitRing.buf
      ensures transmitRing.Valid() && fcs == Crc8(FCS_INIT, Header(f))
      ensures transmitRing.Contents() == old(transmitRing.Contents()) + [FLAG] + Header(f)
    {
      ghost var front := transmitRing.Contents() + [FLAG];
      transmitRing.PutByte(FLAG);
      assert front + [] == front;
      fcs := PutChecked(AddressOctet(f), FCS_INIT, front, []);
      fcs := PutChecked(ControlOctet(f), fcs, front, [] + [AddressOctet(f)]);
      ghost var start := [] + [AddressOctet(f)] + [ControlOctet(f)];
      fcs := PutLength(|f.data|, fcs, front, start);
      assert start + LengthOctets(|f.data|) == Header(f);
    }

    /** Flag, header, data, check octet and flag of a frame there is room for. */
    method PutFrame(f: Frame)
      requires transmitRing.Valid() && |f.data| + FRAME_SIZE_MAX <= transmitRing.Space()
      modifies transmitRing`len, transmitRing.buf
      ensures transmitRing.Valid() && transmitRing.Contents() == old(transmitRing.Contents()) + Encode(f)
    {
      ghost var before := transmitRing.Contents();
      var fcs := PutHeader(f);
      fcs := 0xFF - if f.kind == UIH then fcs else Crc8(fcs, f.data);
      assert fcs == CheckOctet(f.kind, Header(f), f.data) by {
        Crc8Concat(FCS_INIT, Header(f), f.data);
      }
      var stored := transmitRing.Put(f.data);
      assert f.data[..stored] == f.data;
      transmitRing.PutByte(fcs);
      transmitRing.PutByte(FLAG);
      FrameAssembled(before, Header(f), f.data, fcs);
    }

    /** Writes one frame, cut to the space there is, and schedules the transmit work. */
    method TransmitFrame(f: Frame, ghost g: Link) returns (n: nat)
      requires Wired(g) && FRAME_SIZE_MAX <= Space(g)
      modifies transmitRing`len, transmitRing.buf, this`transmitWork
      ensures Wired(CmuxLink.TransmitFrame(g, f)) && n == |Truncated(g, f).data|
    {
      var cut := Cut(f, transmitRing.Space() - FRAME_SIZE_MAX);
      PutFrame(cut);
      transmitWork := true;
      n := |cut.data|;
    }

    method TransmitCommandFrame(f: Frame, ghost g: Link) returns (ok: bool)
      requires Wired(g)
      modifies transmitRing`len, transmitRing.buf, this`transmitWork
      ensures Wired(TransmitCommand(g, f)) && (ok <==> COMMAND_FRAME_SIZE_MAX <= Space(g))
    {
      ok := COMMAND_FRAME_SIZE_MAX <= transmitRing.Space();
      if ok {
        var n := TransmitFrame(f, g);
      }
    }

    /** A channel's data frame: refused without flow control or room, else cut to the room there is. */
    method TransmitDataFrame(f: Frame, ghost g: Link) returns (result: int)
      requires Wired(g)
      modifies transmitRing`len, transmitRing.buf, this`transmitWork
      ensures !g.flow ==> Wired(g) && result == 0
      ensures g.flow && !Admits(g) ==> Wired(g) && result == -ENOMEM
      ensures Admits(g) ==> Wired(CmuxLink.TransmitFrame(g, f)) && result == Int16(|Truncated(g, f).data|)
    {
      if !flowControlOn {
        return 0;
      }
      if transmitRing.Space() < COMMAND_FRAME_SIZE_MAX * 2 + DATA_FRAME_SIZE_MIN {
        return -ENOMEM;
      }
      var n := TransmitFrame(f, g);
      result := Int16(n);
    }

    // ----- Received frames

    function ReceivedFrame(): Received
      requires receiveBufLen <= receiveBuf.Length
      reads this`address, this`cr, this`pf, this`kind, this`dataLen, this`receiveBufLen, receiveBuf
    {
      Received(Frame(address, cr, pf, kind, receiveBuf[..receiveBufLen]), dataLen)
    }

    /** Sends the received command back with its C/R bit cleared, when it is short enough. */
    method AcknowledgeReceivedFrame(x: Received, ghost g: Link)
      requires Wired(g) && x.frame.data != []
      modifies transmitRing`len, transmitRing.buf, this`transmitWork
      ensures Wired(Acknowledge(g, x))
    {
      if x.length <= COMMAND_DATA_SIZE_MAX {
        var ok := TransmitCommandFrame(Acknowledgement(x.frame), g);
      }
    }

    method OnControlFrameUa(ghost g: Link)
      requires Wired(g)
      modifies this`state, this`flowControlOn, this`connectWork, this`connectedBit, this`disconnectedBit
      ensures Wired(OnControlUa(g))
    {
      if state == Connecting {
        state, flowControlOn, connectWork := Connected, true, false;
        disconnectedBit := false;
        connectedBit := true;
      }
    }

    method OnCloseDownCommand(ghost g: Link)
      requires Wired(g)
      modifies this`state, this`flowControlOn, this`disconnectWork, this`connectedBit, this`disconnectedBit
      ensures Wired(OnCloseDown(g))
    {
      state, flowControlOn, disconnectWork := Disconnected, false, false;
      connectedBit := false;
      disconnectedBit := true;
    }

    method OnControlFrameUih(x: Received, ghost g: Link)
      requires Wired(g)
      modifies this`state, this`flowControlOn, this`disconnectWork, this`connectedBit, this`disconnectedBit
      modifies transmitRing`len, transmitRing.buf, this`transmitWork
      ensures Wired(OnControlUih(g, x))
    {
      if (state != Connected && state != Disconnecting) || !IsCommand(x) {
        return;
      }
      var command := x.frame.data[0] >> 2;
      if command == COMMAND_CLD {
        OnCloseDownCommand(g);
      } else if command == COMMAND_MSC {
        AcknowledgeReceivedFrame(x, g);
      } else if command == COMMAND_FCON {
        flowControlOn := true;
        AcknowledgeReceivedFrame(x, g.(flow := true));
      } else if command == COMMAND_FCOFF {
        flowControlOn := false;
        AcknowledgeReceivedFrame(x, g.(flow := false));
      }
    }

    /** Walks the list of channels to the first with the address. */
    method FindDlci(address: byte, ghost cs: seq<Channel>) returns (i: nat)
      requires Carries(cs)
      ensures i == Find(cs, address)
    {
      i := 0;
      while i < |dlcis| && dlcis[i].address != address
        invariant i <= |cs| && Find(cs, address) == i + Find(cs[i..], address)
      {
        assert cs[i..][1..] == cs[i + 1..];
        i := i + 1;
      }
    }

    lemma RingsAreBounded(g: Link)
      requires Wired(g) && Carries(g.channels)
      ensures RingsFit(g)
    {
      forall c <- g.channels ensures |c.ring| <= c.capacity {
        var i :| 0 <= i < |g.channels| && g.channels[i] == c;
        assert dlcis[i].Realises(c);
      }
    }

    /** One channel changes and the others stay as they are. */
    method OnDlciFrame(i: nat, x: Received, ghost cs: seq<Channel>)
      requires Carries(cs) && i < |cs| && |cs[i].ring| <= cs[i].capacity
      modifies parts
      ensures Carries(cs[i := OnChannelFrame(cs[i], x)])
    {
      if x.frame.kind == UA {
        dlcis[i].OnUa(cs[i]);
      } else if x.frame.kind == UIH {
        dlcis[i].OnUih(x, cs[i]);
      }
    }

    method OnControlFrame(x: Received, ghost g: Link)
      requires Wired(g) && Carries(g.channels) && Separate()
      modifies this`state, this`flowControlOn, this`connectWork, this`disconnectWork, this`connectedBit,
               this`disconnectedBit, this`transmitWork, transmitRing`len, transmitRing.buf
      ensures Wired(CmuxLink.OnControlFrame(g, x)) && Carries(g.channels)
    {
      if x.frame.kind == UA {
        OnControlFrameUa(g);
      } else if x.frame.kind == UIH {
        OnControlFrameUih(x, g);
      }
    }

    method OnFrameForDlci(x: Received, ghost g: Link)
      requires Wired(g) && Carries(g.channels) && Separate() && forall c <- g.channels :: |c.ring| <= c.capacity
      modifies parts
      ensures Wired(g) && Carries(Route(g.channels, x))
    {
      var i := FindDlci(x.frame.address, g.channels);
      if i < |dlcis| {
        OnDlciFrame(i, x, g.channels);
      }
    }

    /** Hands the frame just received to the link or to its channel. */
    method OnFrame(x: Received, ghost g: Link)
      requires Wired(g) && Carries(g.channels) && Separate() && RingsFit(g)
      modifies this`state, this`flowControlOn, this`connectWork, this`disconnectWork, this`connectedBit,
               this`disconnectedBit, this`transmitWork, transmitRing`len, transmitRing.buf, parts
      ensures var g' := CmuxLink.OnFrame(g, x); Wired(g') && Carries(g'.channels)
    {
      if x.frame.address == 0 {
        ControlFrameTouchesNoChannel(g, x);
        OnControlFrame(x, g);
      } else {
        OnFrameForDlci(x, g);
      }
    }

    // ----- Octets

    /** Starts the header with the address octet. */
    method StartFrame(b: byte, ghost x: Rx)
      requires Reading(x) && frameHeader != receiveBuf && 0 < receiveBuf.Length
      modifies this`receiveState, this`receiveBufLen, this`frameHeaderLen, this`cr, this`address, frameHeader
      ensures Reading(BeginFrame(x, b))
    {
      receiveBufLen := 0;
      frameHeader[0] := b;
      frameHeaderLen := 1;
      cr, address := CrOf(b), AddressOf(b);
      receiveState := Control;
    }

    method StoreHeader(b: byte, ghost x: Rx)
      requires Reading(x) && frameHeader != receiveBuf && x.state in {Control, Length, LengthCont}
      modifies this`frameHeaderLen, frameHeader
      ensures frameHeaderLen == old(frameHeaderLen) + 1
      ensures frameHeader[..frameHeaderLen] == x.header + [b] && receiveBuf[..receiveBufLen] == x.data
    {
      frameHeader[frameHeaderLen] := b;
      frameHeaderLen := frameHeaderLen + 1;
    }

    method ControlField(b: byte, ghost x: Rx)
      requires Reading(x) && frameHeader != receiveBuf && x.state == Control
      modifies this`receiveState, this`frameHeaderLen, this`pf, this`kind, frameHeader
      ensures Reading(Step(x, receiveBuf.Length, b).0)
    {
      StoreHeader(b, x);
      pf, kind := PfOf(b), KindOf(b);
      receiveState := Length;
    }

    method LengthField(b: byte, ghost x: Rx)
      requires Reading(x) && frameHeader != receiveBuf && x.state == Length
      modifies this`receiveState, this`frameHeaderLen, this`dataLen, frameHeader
      ensures Reading(Step(x, receiveBuf.Length, b).0)
    {
      StoreHeader(b, x);
      dataLen := FirstLength(b);
      receiveState := if !LastLengthOctet(b) then LengthCont else if dataLen == 0 then Fcs else Data;
    }

    method LengthContinued(b: byte, ghost x: Rx)
      requires Reading(x) && frameHeader != receiveBuf && x.state == LengthCont
      modifies this`receiveState, this`frameHeaderLen, this`dataLen, frameHeader
      ensures Reading(Step(x, receiveBuf.Length, b).0)
    {
      StoreHeader(b, x);
      dataLen := FullLength(dataLen, b);
      receiveState := Data;
    }

    method DataOctet(b: byte, ghost x: Rx)
      requires Reading(x) && frameHeader != receiveBuf && x.state == Data
      modifies this`receiveState, this`receiveBufLen, receiveBuf
      ensures Reading(Step(x, receiveBuf.Length, b).0)
    {
      receiveBuf[receiveBufLen] := b;
      receiveBufLen := receiveBufLen + 1;
      assert receiveBuf[..receiveBufLen] == x.data + [b];
      if dataLen == receiveBufLen {
        receiveState := Fcs;
      } else if receiveBufLen == receiveBuf.Length {
        receiveState := Eof;
      }
    }

    method CheckSequence(b: byte, ghost x: Rx)
      requires Reading(x) && x.state == Fcs
      modifies this`receiveState
      ensures Reading(Step(x, receiveBuf.Length, b).0)
    {
      var fcs := ReceivedCheck(x);
      Judge(b == fcs, x);
    }

    /** The check sequence of a frame other than UIH runs over a data pointer that may not have been set yet. */
    method Judge(agrees: bool, ghost x: Rx)
      requires Reading(x) && x.state == Fcs
      modifies this`receiveState
      ensures Reading(Checked(x, agrees))
    {
      receiveState := if kind != UIH && 0 < dataLen && !dataSet then Fault else if agrees then Eof else Drop;
    }

    /** The check octet the frame read so far should have; the header alone counts for UIH. */
    method ReceivedCheck(ghost x: Rx) returns (fcs: byte)
      requires Reading(x)
      ensures fcs == CheckOctet(x.kind, x.header, x.data)
    {
      var register := Crc8(FCS_INIT, frameHeader[..frameHeaderLen]);
      if kind != UIH {
        Crc8Concat(FCS_INIT, x.header, x.data);
        register := Crc8(register, receiveBuf[..receiveBufLen]);
      }
      fcs := 0xFF - register;
    }

    /** Looking for the flags of a resynchronisation. */
    method AwaitFlags(b: byte, ghost x: Rx)
      requires Reading(x) && frameHeader != receiveBuf && 0 < receiveBuf.Length
      requires x.state in {Resync0, Resync1, Resync2, Resync3}
      modifies this`receiveState, this`receiveBufLen, this`frameHeaderLen, this`address, this`cr, frameHeader
      ensures Reading(Step(x, receiveBuf.Length, b).0)
    {
      if receiveState == Resync3 {
        if b != FLAG {
          StartFrame(b, x);
        }
      } else if b != FLAG {
        receiveState := Resync0;
      } else {
        receiveState := match receiveState case Resync0 => Resync1 case Resync1 => Resync2 case _ => Resync3;
      }
    }

    /** Between frames, or at the end of one that is given up. */
    method AwaitFrame(b: byte, ghost x: Rx) returns (resync: bool)
      requires Reading(x) && (x.state in {Sof, Drop} || (x.state == Eof && b != FLAG))
      modifies this`receiveState
      ensures Reading(Step(x, receiveBuf.Length, b).0)
      ensures resync <==> Step(x, receiveBuf.Length, b).1.SendResync?
    {
      resync := receiveState == Sof && b != FLAG;
      receiveState := if resync then Resync0 else if receiveState == Sof then Address else Sof;
    }

    /** Every octet but the closing flag of a frame. */
    method Advance(b: byte, ghost x: Rx) returns (resync: bool)
      requires Reading(x) && frameHeader != receiveBuf && 0 < receiveBuf.Length && !(x.state == Eof && b == FLAG)
      modifies this`receiveState, this`receiveBufLen, this`frameHeaderLen, this`address, this`cr, this`pf, this`kind
      modifies this`dataLen, receiveBuf, frameHeader
      ensures Reading(Step(x, receiveBuf.Length, b).0)
      ensures !Step(x, receiveBuf.Length, b).1.Dispatch? && (resync <==> Step(x, receiveBuf.Length, b).1.SendResync?)
    {
      resync := false;
      match receiveState {
        case Sof => resync := AwaitFrame(b, x);
        case Resync0 => AwaitFlags(b, x);
        case Resync1 => AwaitFlags(b, x);
        case Resync2 => AwaitFlags(b, x);
        case Resync3 => AwaitFlags(b, x);
        case Address => StartFrame(b, x);
        case Control => ControlField(b, x);
        case Length => LengthField(b, x);
        case LengthCont => LengthContinued(b, x);
        case Data => DataOctet(b, x);
        case Fcs => CheckSequence(b, x);
        case Drop => resync := AwaitFrame(b, x);
        case Eof => resync := AwaitFrame(b, x);
        case AddressCont =>
        case Fault =>
      }
    }

    /** The closing flag of a frame: dispatches it and waits for the next. */
    method CloseFrame(ghost x: Rx, ghost g: Link)
      requires Reading(x) && x.state == Eof && Wired(g) && Carries(g.channels) && Separate() && RingsFit(g)
      modifies this`receiveState, this`dataSet
      modifies this`state, this`flowControlOn, this`connectWork, this`disconnectWork, this`connectedBit,
               this`disconnectedBit, this`transmitWork, transmitRing`len, transmitRing.buf, parts
      ensures Reading(Step(x, receiveBuf.Length, FLAG).0)
      ensures var g' := CmuxLink.OnFrame(g, ReceivedOf(x)); Wired(g') && Carries(g'.channels)
    {
      Dispatch(ReceivedFrame(), x, g);
      AwaitNext(x);
    }

    /** Handling a frame leaves the octet receiver alone. */
    method Dispatch(received: Received, ghost x: Rx, ghost g: Link)
      requires Reading(x) && Wired(g) && Carries(g.channels) && Separate() && RingsFit(g)
      modifies this`state, this`flowControlOn, this`connectWork, this`disconnectWork, this`connectedBit,
               this`disconnectedBit, this`transmitWork, transmitRing`len, transmitRing.buf, parts
      ensures Reading(x)
      ensures var g' := CmuxLink.OnFrame(g, received); Wired(g') && Carries(g'.channels)
    {
      OnFrame(received, g);
    }

    method AwaitNext(ghost x: Rx)
      requires Reading(x) && x.state == Eof
      modifies this`receiveState, this`dataSet
      ensures Reading(Step(x, receiveBuf.Length, FLAG).0)
    {
      dataSet := true;
      receiveState := Sof;
    }

    /** Every octet but the closing flag leaves the link and the channels alone. */
    method Absorb(b: byte, ghost x: Rx, ghost g: Link) returns (resync: bool)
      requires Reading(x) && Separate() && 0 < receiveBuf.Length && !(x.state == Eof && b == FLAG)
      requires Wired(g) && Carries(g.channels)
      modifies this`receiveState, this`receiveBufLen, this`frameHeaderLen, this`address, this`cr, this`pf, this`kind
      modifies this`dataLen, receiveBuf, frameHeader
      ensures Reading(Step(x, receiveBuf.Length, b).0) && Wired(g) && Carries(g.channels)
      ensures !Step(x, receiveBuf.Length, b).1.Dispatch? && (resync <==> Step(x, receiveBuf.Length, b).1.SendResync?)
    {
      resync := AbsorbBesideLink(b, x, g);
    }

    method AbsorbBesideLink(b: byte, ghost x: Rx, ghost g: Link) returns (resync: bool)
      requires Reading(x) && Separate() && 0 < receiveBuf.Length && !(x.state == Eof && b == FLAG) && Wired(g)
      modifies this`receiveState, this`receiveBufLen, this`frameHeaderLen, this`address, this`cr, this`pf, this`kind
      modifies this`dataLen, receiveBuf, frameHeader
      ensures Reading(Step(x, receiveBuf.Length, b).0) && Wired(g)
      ensures !Step(x, receiveBuf.Length, b).1.Dispatch? && (resync <==> Step(x, receiveBuf.Length, b).1.SendResync?)
    {
      assert transmitRing as object != receiveBuf as object && transmitRing as object != frameHeader as object;
      resync := Advance(b, x);
    }

    method TakeOctet(b: byte, ghost rcv: Receiver, ghost g: Link) returns (resync: bool)
      requires Reading(rcv.rx) && Separate() && 0 < receiveBuf.Length && RingsFit(g) && Wired(g) && Carries(g.channels)
      modifies this`receiveState, this`receiveBufLen, this`frameHeaderLen, this`address, this`cr, this`pf, this`kind
      modifies this`dataLen, this`dataSet, receiveBuf, frameHeader
      modifies this`state, this`flowControlOn, this`connectWork, this`disconnectWork, this`connectedBit,
               this`disconnectedBit, this`transmitWork, transmitRing`len, transmitRing.buf, parts
      ensures var (rcv', g') := HearOctet(rcv, g, receiveBuf.Length, b);
              Reading(rcv'.rx) && Wired(g') && Carries(g'.channels)
      ensures resync <==> Step(rcv.rx, receiveBuf.Length, b).1.SendResync?
    {
      if receiveState == Eof && b == FLAG {
        resync := false;
        CloseFrame(rcv.rx, g);
      } else {
        resync := Absorb(b, rcv.rx, g);
      }
    }

    /** One received octet; `resync` asks for three flags to be written to the bus. */
    method ProcessReceivedByte(b: byte) returns (resync: bool)
      requires Valid() && 0 < receiveBuf.Length
      modifies this`receiveState, this`receiveBufLen, this`frameHeaderLen, this`address, this`cr, this`pf, this`kind
      modifies this`dataLen, this`dataSet, receiveBuf, frameHeader
      modifies this`state, this`flowControlOn, this`connectWork, this`disconnectWork, this`connectedBit,
               this`disconnectedBit, this`transmitWork, transmitRing`len, transmitRing.buf, parts
      modifies this`r, this`l
      ensures Valid() && (r, l) == HearOctet(old(r), old(l), receiveBuf.Length, b)
      ensures r.resyncs == old(r).resyncs + if resync then 1 else 0
    {
      RingsAreBounded(l);
      resync := TakeOctet(b, r, l);
      SettleBoth(HearOctet(r, l, receiveBuf.Length, b));
    }

    /** The next octet of a chunk of which the first `i` have been processed. */
    method ProcessNext(bs: seq<byte>, i: nat, ghost start: (Receiver, Link)) returns (resync: bool)
      requires Valid() && 0 < receiveBuf.Length && i < |bs|
      requires (r, l) == Hear(start.0, start.1, receiveBuf.Length, bs[..i])
      modifies this`receiveState, this`receiveBufLen, this`frameHeaderLen, this`address, this`cr, this`pf, this`kind
      modifies this`dataLen, this`dataSet, receiveBuf, frameHeader, this`r, this`l
      modifies this`state, this`flowControlOn, this`connectWork, this`disconnectWork, this`connectedBit,
               this`disconnectedBit, this`transmitWork, transmitRing`len, transmitRing.buf, parts
      ensures Valid() && (r, l) == Hear(start.0, start.1, receiveBuf.Length, bs[..i + 1])
      ensures r.resyncs == old(r).resyncs + if resync then 1 else 0
    {
      HearNext(start.0, start.1, receiveBuf.Length, bs, i);
      resync := ProcessReceivedByte(bs[i]);
    }

    /** The octets of a chunk, one after the other. */
    method ProcessChunk(bs: seq<byte>) returns (resyncs: nat)
      requires Valid() && 0 < receiveBuf.Length
      modifies this`receiveState, this`receiveBufLen, this`frameHeaderLen, this`address, this`cr, this`pf, this`kind
      modifies this`dataLen, this`dataSet, receiveBuf, frameHeader, this`r, this`l
      modifies this`state, this`flowControlOn, this`connectWork, this`disconnectWork, this`connectedBit,
               this`disconnectedBit, this`transmitWork, transmitRing`len, transmitRing.buf, parts
      ensures Valid() && (r, l) == Hear(old(r), old(l), receiveBuf.Length, bs) && r.resyncs == old(r).resyncs + resyncs
    {
      resyncs := 0;
      ghost var start := (r, l);
      for i := 0 to |bs|
        invariant Valid() && r.resyncs == start.0.resyncs + resyncs
        invariant (r, l) == Hear(start.0, start.1, receiveBuf.Length, bs[..i])
      {
        var resync := ProcessNext(bs, i, start);
        resyncs := if resync then resyncs + 1 else resyncs;
      }
      assert bs[..|bs|] == bs;
    }

    /**
     The receive work: what the pipe gave, at most sixteen octets at a time. It is scheduled again unless that was
     nothing.
     */
    method ReceiveHandler(bs: seq<byte>) returns (resyncs: nat)
      requires Valid() && 0 < receiveBuf.Length
      modifies this`receiveState, this`receiveBufLen, this`frameHeaderLen, this`address, this`cr, this`pf, this`kind
      modifies this`dataLen, this`dataSet, receiveBuf, frameHeader, this`r, this`l
      modifies this`state, this`flowControlOn, this`connectWork, this`disconnectWork, this`connectedBit,
               this`disconnectedBit, this`transmitWork, transmitRing`len, transmitRing.buf, parts
      modifies this`receiveWork
      ensures Valid() && (r, l) == Hear(old(r), old(l), receiveBuf.Length, bs) && r.resyncs == old(r).resyncs + resyncs
      ensures receiveWork == (bs != [])
    {
      resyncs := ProcessChunk(bs);
      receiveWork := |bs| >= 1;
    }

    /** The bus has something to receive. */
    method OnReceiveReady()
      modifies this`receiveWork
      ensures receiveWork
    {
      receiveWork := true;
    }

    // ----- Transmit work

    /** The transmit work: the pipe takes `out` from the ring's contiguous front, up to `accepts` octets or none. */
    method TransmitHandler(accepts: nat) returns (out: seq<byte>)
      requires Valid()
      modifies this`transmitWork, this`l, transmitRing
      ensures Valid() && |out| <= accepts && out <= old(l).ring && l == Drain(old(l), |out|)
      ensures 0 < accepts && old(l).ring != [] ==> out != []
    {
      out := Offer(accepts, l);
      l := Drain(l, |out|);
    }

    method Offer(accepts: nat, ghost g: Link) returns (out: seq<byte>)
      requires Wired(g)
      modifies this`transmitWork, transmitRing
      ensures |out| <= accepts && out <= g.ring && Wired(Drain(g, |out|))
      ensures 0 < accepts && g.ring != [] ==> out != []
    {
      out := TakeFront(accepts, g);
      transmitWork := |out| == 0 || transmitRing.len != 0;
    }

    /** Part of the contiguous front leaves the ring. */
    method TakeFront(accepts: nat, ghost g: Link) returns (out: seq<byte>)
      requires Wired(g)
      modifies transmitRing
      ensures |out| <= accepts && out <= g.ring && Wired(Taken(g, |out|))
      ensures 0 < accepts && g.ring != [] ==> out != []
    {
      var reserved := transmitRing.GetClaim();
      out := if accepts < |reserved| then reserved[..accepts] else reserved;
      transmitRing.GetFinish(|out|);
    }

    // ----- Timers and requests

    method ConnectHandler()
      requires Valid()
      modifies this`state, this`connectWork, this`transmitWork, this`l, transmitRing`len, transmitRing.buf
      ensures Valid() && l == CmuxLink.ConnectHandler(old(l))
    {
      ConnectBesideChannels(l);
      Settle(CmuxLink.ConnectHandler(l));
    }

    method ConnectBesideChannels(ghost g: Link)
      requires Wired(g) && Carries(g.channels) && Separate()
      modifies this`state, this`connectWork, this`transmitWork, transmitRing`len, transmitRing.buf
      ensures var g' := CmuxLink.ConnectHandler(g); Wired(g') && Carries(g'.channels)
    {
      HandlersTouchNoChannel(g);
      RequestConnection(g);
    }

    method RequestConnection(ghost g: Link)
      requires Wired(g)
      modifies this`state, this`connectWork, this`transmitWork, transmitRing`len, transmitRing.buf
      ensures Wired(CmuxLink.ConnectHandler(g))
    {
      state := Connecting;
      var ok := TransmitCommandFrame(Request(0, SABM), g.(state := Connecting));
      connectWork := true;
    }

    method DisconnectHandler()
      requires Valid()
      modifies this`state, this`disconnectWork, this`transmitWork, this`l, transmitRing`len, transmitRing.buf
      ensures Valid() && l == CmuxLink.DisconnectHandler(old(l))
    {
      DisconnectBesideChannels(l);
      Settle(CmuxLink.DisconnectHandler(l));
    }

    method DisconnectBesideChannels(ghost g: Link)
      requires Wired(g) && Carries(g.channels) && Separate()
      modifies this`state, this`disconnectWork, this`transmitWork, transmitRing`len, transmitRing.buf
      ensures var g' := CmuxLink.DisconnectHandler(g); Wired(g') && Carries(g'.channels)
    {
      HandlersTouchNoChannel(g);
      RequestCloseDown(g);
    }

    method RequestCloseDown(ghost g: Link)
      requires Wired(g)
      modifies this`state, this`disconnectWork, this`transmitWork, transmitRing`len, transmitRing.buf
      ensures Wired(CmuxLink.DisconnectHandler(g))
    {
      state := Disconnecting;
      var ok := TransmitCommandFrame(CLOSE_DOWN, g.(state := Disconnecting));
      disconnectWork := true;
    }

    method ConnectAsync() returns (result: int)
      requires Valid()
      modifies this`connectWork, this`l
      ensures Valid() && l == old(l).(connectWork := true) && result == if old(l).connectWork then -EBUSY else 0
    {
      result := if connectWork then -EBUSY else 0;
      connectWork := true;
      l := l.(connectWork := true);
    }

    method DisconnectAsync() returns (result: int)
      requires Valid()
      modifies this`disconnectWork, this`l
      ensures Valid() && l == old(l).(disconnectWork := true) && result == if old(l).disconnectWork then -EBUSY else 0
    {
      result := if disconnectWork then -EBUSY else 0;
      disconnectWork := true;
      l := l.(disconnectWork := true);
    }

    // ----- Channels

    /** A channel's own fields change; its ring and the other channels stay. */
    method SetChannel(i: nat, state: ChannelState, openWork: bool, closeWork: bool, ghost cs: seq<Channel>)
      requires Carries(cs) && i < |cs|
      modifies parts
      ensures Carries(cs[i := cs[i].(state := state, openWork := openWork, closeWork := closeWork)])
    {
      dlcis[i].Change(state, openWork, closeWork, cs[i]);
    }

    /** Sends a request on a channel that changes state and schedules its timer. */
    method RequestOnChannel(i: nat, kind: byte, state: ChannelState, openWork: bool, closeWork: bool, ghost g: Link)
      requires Wired(g) && Carries(g.channels) && Separate() && i < |g.channels|
      modifies parts, this`transmitWork, transmitRing`len, transmitRing.buf
      ensures var c := g.channels[i].(state := state, openWork := openWork, closeWork := closeWork);
              var g' := Requested(g, i, kind, c); Wired(g') && Carries(g'.channels)
    {
      ChangeState(i, state, openWork, closeWork, g);
      ghost var cs := g.channels[i := g.channels[i].(state := state, openWork := openWork, closeWork := closeWork)];
      assert dlcis[i].Realises(cs[i]);
      SendRequest(Request(dlcis[i].address, kind), g, cs);
    }

    method ChangeState(i: nat, state: ChannelState, openWork: bool, closeWork: bool, ghost g: Link)
      requires Wired(g) && Carries(g.channels) && Separate() && i < |g.channels|
      modifies parts
      ensures Wired(g)
      ensures Carries(g.channels[i := g.channels[i].(state := state, openWork := openWork, closeWork := closeWork)])
    {
      SetChannel(i, state, openWork, closeWork, g.channels);
    }

    method SendRequest(f: Frame, ghost g: Link, ghost cs: seq<Channel>)
      requires Wired(g) && Carries(cs) && Separate()
      modifies this`transmitWork, transmitRing`len, transmitRing.buf
      ensures Wired(TransmitCommand(g, f)) && Carries(cs)
    {
      var ok := TransmitCommandFrame(f, g);
    }

    method OpenHandler(i: nat)
      requires Valid() && i < |l.channels|
      modifies parts, this`transmitWork, transmitRing`len, transmitRing.buf, this`l
      ensures Valid() && l == CmuxLink.OpenHandler(old(l), i)
    {
      RequestOnChannel(i, SABM, Opening, true, dlcis[i].closeWork, l);
      Settle(CmuxLink.OpenHandler(l, i));
    }

    method CloseHandler(i: nat)
      requires Valid() && i < |l.channels|
      modifies parts, this`transmitWork, transmitRing`len, transmitRing.buf, this`l
      ensures Valid() && l == CmuxLink.CloseHandler(old(l), i)
    {
      RequestOnChannel(i, DISC, Closing, dlcis[i].openWork, true, l);
      Settle(CmuxLink.CloseHandler(l, i));
    }

    method OpenPipe(i: nat) returns (result: int)
      requires Valid() && i < |l.channels|
      modifies parts, this`l
      ensures Valid() && l == ScheduleOpen(old(l), i)
      ensures result == if old(l).channels[i].openWork then -EBUSY else 0
    {
      result := if dlcis[i].openWork then -EBUSY else 0;
      OpenWorkPending(i, l);
      Settle(ScheduleOpen(l, i));
    }

    method ClosePipe(i: nat) returns (result: int)
      requires Valid() && i < |l.channels|
      modifies parts, this`l
      ensures Valid() && l == ScheduleClose(old(l), i)
      ensures result == if old(l).channels[i].closeWork then -EBUSY else 0
    {
      result := if dlcis[i].closeWork then -EBUSY else 0;
      CloseWorkPending(i, l);
      Settle(ScheduleClose(l, i));
    }

    method OpenWorkPending(i: nat, ghost g: Link)
      requires Wired(g) && Carries(g.channels) && Separate() && i < |g.channels|
      modifies parts
      ensures Wired(ScheduleOpen(g, i)) && Carries(ScheduleOpen(g, i).channels)
    {
      assert dlcis[i].Realises(g.channels[i]);
      ChangeState(i, dlcis[i].state, true, dlcis[i].closeWork, g);
    }

    method CloseWorkPending(i: nat, ghost g: Link)
      requires Wired(g) && Carries(g.channels) && Separate() && i < |g.channels|
      modifies parts
      ensures Wired(ScheduleClose(g, i)) && Carries(ScheduleClose(g, i).channels)
    {
      assert dlcis[i].Realises(g.channels[i]);
      ChangeState(i, dlcis[i].state, dlcis[i].openWork, true, g);
    }

    /** A channel's transmit call. */
    method TransmitPipe(i: nat, data: seq<byte>) returns (result: int)
      requires Valid() && i < |l.channels|
      modifies this`transmitWork, transmitRing`len, transmitRing.buf, this`l
      ensures Valid() && (l, result) == PipeTransmit(old(l), i, data)
    {
      result := SendData(i, data, l);
      l := PipeTransmit(l, i, data).0;
    }

    method SendData(i: nat, data: seq<byte>, ghost g: Link) returns (result: int)
      requires Wired(g) && Carries(g.channels) && Separate() && i < |g.channels|
      modifies this`transmitWork, transmitRing`len, transmitRing.buf
      ensures var (g', result') := PipeTransmit(g, i, data); Wired(g') && Carries(g'.channels) && result == result'
    {
      assert dlcis[i].Realises(g.channels[i]);
      result := TransmitDataFrame(DataFrame(dlcis[i].address, data), g);
      HistoriesDoNotMatter(g.channels, PipeTransmit(g, i, data).0.channels);
    }

    lemma HistoriesDoNotMatter(cs: seq<Channel>, ds: seq<Channel>)
      requires Carries(cs) && |ds| == |cs|
      requires forall i | 0 <= i < |cs| :: ds[i] == cs[i].(accepted := ds[i].accepted)
      ensures Carries(ds)
    {
    }

    lemma OldestRead(c: Channel, n: nat)
      ensures PipeRead(c, n) <= c.ring && |PipeRead(c, n)| == if n < |c.ring| then n else |c.ring|
    {
    }

    /** A channel's receive call. */
    method ReceivePipe(i: nat, size: nat) returns (data: seq<byte>)
      requires Valid() && i < |l.channels|
      modifies parts, this`l
      ensures Valid() && data <= old(l).channels[i].ring
      ensures |data| == if size < |old(l).channels[i].ring| then size else |old(l).channels[i].ring|
      ensures l == old(l).(channels := old(l).channels[i := PipeReceive(old(l).channels[i], size)])
    {
      ghost var c := l.channels[i];
      OldestRead(c, size);
      data := ReadBesideLink(i, size, l);
      l := l.(channels := l.channels[i := PipeReceive(c, size)]);
    }

    method ReadBesideLink(i: nat, size: nat, ghost g: Link) returns (data: seq<byte>)
      requires Wired(g) && Carries(g.channels) && Separate() && i < |g.channels|
      modifies parts
      ensures Wired(g) && Carries(g.channels[i := PipeReceive(g.channels[i], size)])
      ensures data == PipeRead(g.channels[i], size)
    {
      data := ReadChannel(i, size, g.channels);
    }

    method ReadChannel(i: nat, size: nat, ghost cs: seq<Channel>) returns (data: seq<byte>)
      requires Carries(cs) && i < |cs|
      modifies parts
      ensures Carries(cs[i := PipeReceive(cs[i], size)]) && data == PipeRead(cs[i], size)
    {
      ghost var cs' := cs[i := PipeReceive(cs[i], size)];
      data := dlcis[i].Receive(size, cs[i]);
      forall j | 0 <= j < |dlcis| ensures dlcis[j].Realises(cs'[j]) {
        assert j < i ==> Apart(dlcis[j], dlcis[i]);
        assert i < j ==> Apart(dlcis[i], dlcis[j]);
      }
    }
  }

  lemma HearNext(r: Receiver, l: Link, size: nat, bs: seq<byte>, i: nat)
    requires i < |bs|
    ensures var (r', l') := Hear(r, l, size, bs[..i]);
            Hear(r, l, size, bs[..i + 1]) == HearOctet(r', l', size, bs[i])
  {
    assert bs[..i + 1] == bs[..i] + [bs[i]];
    HearSnoc(r, l, size, bs[..i], bs[i]);
  }

  lemma {:induction false} HearSnoc(r: Receiver, l: Link, size: nat, bs: seq<byte>, b: byte)
    ensures var (r', l') := Hear(r, l, size, bs);
            Hear(r, l, size, bs + [b]) == HearOctet(r', l', size, b)
    decreases |bs|
  {
    if bs == [] {
      assert bs + [b] == [b] && [b][1..] == [];
    } else {
      var (r', l') := HearOctet(r, l, size, bs[0]);
      assert (bs + [b])[0] == bs[0] && (bs + [b])[1..] == bs[1..] + [b];
      HearSnoc(r', l', size, bs[1..], b);
    }
  }

  lemma HandlersTouchNoChannel(l: Link)
    ensures CmuxLink.ConnectHandler(l).channels == l.channels && CmuxLink.DisconnectHandler(l).channels == l.channels
  {
    CommandTouchesTheRing(l.(state := Connecting), Request(0, SABM));
    CommandTouchesTheRing(l.(state := Disconnecting), CLOSE_DOWN);
  }

  lemma FrameAssembled(ring: seq<byte>, h: seq<byte>, data: seq<byte>, check: byte)
    ensures ring + [FLAG] + h + data + [check] + [FLAG] == ring + Wire(h, data, check)
  {
  }
}
