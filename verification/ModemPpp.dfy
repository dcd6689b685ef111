/** The PPP module over its ring, its packet slots and its state fields. */
module ModemPpp {
  import opened Crc
  import opened Errno
  import opened Sequences
  import opened RingBuf
  import opened PppFrame
  import R = PppReceive
  import W = PppWrap
  import T = PppTransmit

  /** An entry of the packet buffer: a null pointer or a packet. */
  datatype Slot = Free | Full(packet: Packet)

  /** The slot `i` places behind the tail. */
  function SlotAt(slots: seq<Slot>, tail: nat, i: nat): Slot
    requires tail < |slots| && i < |slots|
  {
    slots[Wrap(tail + i, |slots|)]
  }

  /** The occupied slots are a contiguous circular run from the tail. */
  predicate IsRun(slots: seq<Slot>, tail: nat, count: nat) {
    tail < |slots| && count <= |slots| &&
    forall i | 0 <= i < |slots| :: SlotAt(slots, tail, i).Full? <==> i < count
  }

  /** The packets of the run, oldest first. */
  function QueueOf(slots: seq<Slot>, tail: nat, count: nat): (q: seq<Packet>)
    requires IsRun(slots, tail, count)
    ensures |q| == count
  {
    seq(count, i requires 0 <= i < count => (assert SlotAt(slots, tail, i).Full?; SlotAt(slots, tail, i).packet))
  }

  lemma PutInRun(slots: seq<Slot>, tail: nat, count: nat, p: Packet)
    requires IsRun(slots, tail, count) && count < |slots|
    ensures var slots' := slots[Wrap(tail + count, |slots|) := Full(p)];
            IsRun(slots', tail, count + 1) && QueueOf(slots', tail, count + 1) == QueueOf(slots, tail, count) + [p]
  {
    var slots' := slots[Wrap(tail + count, |slots|) := Full(p)];
    forall i | 0 <= i < |slots|
      ensures SlotAt(slots', tail, i) == if i == count then Full(p) else SlotAt(slots, tail, i)
    {
    }
  }

  lemma GetFromRun(slots: seq<Slot>, tail: nat, count: nat)
    requires IsRun(slots, tail, count) && 0 < count
    ensures slots[tail].Full? && slots[tail].packet == QueueOf(slots, tail, count)[0]
    ensures var slots' := slots[tail := Free];
            var tail' := Wrap(tail + 1, |slots|);
            IsRun(slots', tail', count - 1) && QueueOf(slots', tail', count - 1) == QueueOf(slots, tail, count)[1..]
  {
    var n := |slots|;
    var slots', tail' := slots[tail := Free], Wrap(tail + 1, n);
    assert SlotAt(slots, tail, 0) == slots[tail];
    forall i | 0 <= i < n
      ensures SlotAt(slots', tail', i) == if i == n - 1 then Free else SlotAt(slots, tail, i + 1)
    {
    }
  }

  class Ppp {
    // packet queue
    const slots: array<Slot>
    var tail: nat
    // frame being sent
    var txPkt: T.Current
    var transmitState: W.TxState
    var escaped: byte
    var protocol: bv16
    var fcs: bv16
    var cursor: nat
    const transmitRing: Ring
    var sendWork: bool
    var attached: bool
    // frame being received
    var receiveState: R.RxState
    var rxPkt: R.RxPacket
    var processWork: bool

    ghost var count: nat
    ghost var s: T.Sender       // the abstract sender that the fields stand for
    ghost var r: R.Receiver     // the abstract receiver

    ghost predicate Valid()
      reads this`s, this`r, this`receiveState, this`rxPkt, this`tail, this`count, this`txPkt, this`transmitState
      reads this`escaped, this`protocol, this`fcs, this`cursor, this`sendWork, slots, transmitRing, transmitRing.buf
    {
      Realises(s) && T.Held(s) && Receives()
    }

    ghost predicate Receives()
      reads this`receiveState, this`rxPkt, this`r
    {
      r.rx == R.Rx(receiveState, rxPkt) && R.Consistent(r.rx)
    }

    /** Slots, ring and fields are those of a sender. */
    ghost predicate Realises(g: T.Sender)
      reads this`tail, this`count, this`txPkt, this`transmitState, this`escaped, this`protocol, this`fcs, this`cursor
      reads this`sendWork, slots, transmitRing, transmitRing.buf
    {
      && slots as object != transmitRing.buf as object && this as object != transmitRing as object
      && transmitRing.Valid() && g.ring == transmitRing.Contents() && g.capacity == transmitRing.buf.Length
      && IsRun(slots[..], tail, count) && g.queue == QueueOf(slots[..], tail, count) && g.slots == slots.Length
      && g.current == txPkt && g.tx == Machine() && g.sendWork == sendWork
    }

    function Machine(): W.Tx
      reads this`transmitState, this`escaped, this`protocol, this`fcs, this`cursor
    {
      W.Tx(transmitState, escaped, protocol, fcs, cursor)
    }

    constructor (bufSize: nat, slotCount: nat)
      requires 0 < bufSize && 0 < slotCount
      ensures Valid() && s == T.NewSender(slotCount, bufSize) && r == R.Receiver(R.IDLE, [])
      ensures !attached && fresh(slots) && fresh(transmitRing) && fresh(transmitRing.buf)
    {
      slots := new Slot[slotCount](_ => Free);
      tail, count := 0, 0;
      txPkt, transmitState := T.Nothing, W.Idle;
      escaped, protocol, fcs, cursor := 0, 0, 0, 0;
      transmitRing := new Ring(bufSize);
      sendWork, attached := false, false;
      receiveState, rxPkt, processWork := R.HdrSof, R.NoPacket, false;
      s, r := T.NewSender(slotCount, bufSize), R.Receiver(R.IDLE, []);
    }

    /** Scans from the tail for a free slot; finds the one behind the newest packet, or none. */
    method PutPacket(p: Packet) returns (ok: bool)
      requires IsRun(slots[..], tail, count)
      modifies slots, this`count
      ensures IsRun(slots[..], tail, count) && ok == (old(count) < slots.Length)
      ensures QueueOf(slots[..], tail, count) ==
              old(QueueOf(slots[..], tail, count)) + if ok then [p] else []
      ensures !ok ==> slots[..] == old(slots[..]) && count == old(count)
    {
      var next := tail;
      ghost var i := 0;
      ok := false;
      while true
        invariant 0 <= i < slots.Length && next == Wrap(tail + i, slots.Length) && i <= count
        invariant slots[..] == old(slots[..]) && count == old(count)
        decreases slots.Length - i
      {
        assert slots[next] == SlotAt(slots[..], tail, i);
        if slots[next].Free? {
          PutInRun(slots[..], tail, count, p);
          slots[next] := Full(p);
          count := count + 1;
          return true;
        }
        next := if next + 1 == slots.Length then 0 else next + 1;
        i := i + 1;
        if next == tail {
          return false;
        }
      }
    }

    /** Takes the oldest packet out of its slot. */
    method GetPacket() returns (slot: Slot)
      requires IsRun(slots[..], tail, count)
      modifies slots, this`tail, this`count
      ensures IsRun(slots[..], tail, count) && (slot.Full? <==> 0 < old(count))
      ensures slot.Full? ==> [slot.packet] + QueueOf(slots[..], tail, count) == old(QueueOf(slots[..], tail, count))
      ensures slot.Free? ==> slots[..] == old(slots[..]) && tail == old(tail) && count == old(count)
    {
      assert slots[tail] == SlotAt(slots[..], tail, 0);
      slot := slots[tail];
      if slot.Full? {
        GetFromRun(slots[..], tail, count);
        ghost var q := QueueOf(slots[..], tail, count);
        slots[tail] := Free;
        tail := if tail + 1 == slots.Length then 0 else tail + 1;
        count := count - 1;
        assert q == [q[0]] + q[1..];
      }
    }

    method Send(p: Packet) returns (result: int)
      requires Valid()
      modifies this`count, this`sendWork, this`s, slots
      ensures Valid()
      ensures if old(attached) then (s, result) == T.Send(old(s), p) else s == old(s) && result == -EPERM
    {
      if !attached {
        return -EPERM;
      }
      if !p.ppp && p.family == Other {
        return -EPROTONOSUPPORT;
      }
      if (|p.data| < 2 && p.ppp) || |p.data| < 1 {
        return -ENODATA;
      }
      var ok := PutPacket(p);
      if !ok {
        return -ENOMEM;
      }
      sendWork := true;
      T.EnqueueHeld(s, p);
      s := T.Enqueue(s, p);
      result := 0;
    }

    /** Loads the oldest packet, or null when there is none. */
    method TakePacket(ghost g: T.Sender)
      requires Realises(g)
      modifies slots, this`tail, this`count, this`txPkt
      ensures Realises(T.Take(g))
    {
      var slot := GetPacket();
      txPkt := if slot.Full? then T.Sending(slot.packet) else T.Nothing;
    }

    /** One octet of the current frame, by the state the frame machine is in. */
    method WrapByte(p: Packet) returns (b: byte)
      requires transmitState == W.Data ==> cursor < |p.data|
      modifies this`transmitState, this`escaped, this`protocol, this`fcs, this`cursor
      ensures (Machine(), b) == W.WrapByte(old(Machine()), p)
    {
      match transmitState {
        case Idle => b := 0;
        case Sof => b := WrapHeader(p);
        case HdrFf => b := WrapHeader(p);
        case Hdr7d => b := WrapHeader(p);
        case Hdr23 => b := WrapHeader(p);
        case ProtocolHigh => b := WrapProtocol(p);
        case ProtocolLow => b := WrapProtocol(p);
        case Data => b := WrapData(p);
        case FcsLow => b := WrapTrailer(p);
        case FcsHigh => b := WrapTrailer(p);
        case Eof => transmitState, b := W.Idle, FLAG;
        case _ => b := WrapEscaped(p);
      }
    }

    method WrapHeader(p: Packet) returns (b: byte)
      requires transmitState in {W.Sof, W.HdrFf, W.Hdr7d, W.Hdr23}
      modifies this`transmitState, this`protocol, this`fcs, this`cursor
      ensures (Machine(), b) == W.WrapByte(old(Machine()), p)
    {
      if transmitState == W.Sof {
        transmitState, b := W.HdrFf, FLAG;
      } else if transmitState == W.HdrFf {
        cursor, fcs := 0, Update16(FCS_INIT, 0xFF);
        transmitState, b := W.Hdr7d, 0xFF;
      } else if transmitState == W.Hdr7d {
        fcs := Update16(fcs, 0x03);
        transmitState, b := W.Hdr23, ESCAPE;
      } else if p.ppp {
        transmitState, b := W.Data, 0x23;
      } else {
        protocol, transmitState, b := Protocol(p), W.ProtocolHigh, 0x23;
      }
    }

    method WrapProtocol(p: Packet) returns (b: byte)
      requires transmitState in {W.ProtocolHigh, W.ProtocolLow}
      modifies this`transmitState, this`escaped, this`fcs
      ensures (Machine(), b) == W.WrapByte(old(Machine()), p)
    {
      if transmitState == W.ProtocolHigh {
        fcs := Update16(fcs, High(protocol));
        b := EmitByte(High(protocol), W.ProtocolLow, W.EscapingProtocolHigh);
      } else {
        fcs := Update16(fcs, Low(protocol));
        b := EmitByte(Low(protocol), W.Data, W.EscapingProtocolLow);
      }
    }

    method WrapData(p: Packet) returns (b: byte)
      requires transmitState == W.Data && cursor < |p.data|
      modifies this`transmitState, this`escaped, this`fcs, this`cursor
      ensures (Machine(), b) == W.WrapByte(old(Machine()), p)
    {
      var octet := p.data[cursor];
      cursor, fcs := cursor + 1, Update16(fcs, octet);
      b := EmitByte(octet, if cursor == |p.data| then W.FcsLow else W.Data, W.EscapingData);
    }

    method WrapTrailer(p: Packet) returns (b: byte)
      requires transmitState in {W.FcsLow, W.FcsHigh}
      modifies this`transmitState, this`escaped, this`fcs
      ensures (Machine(), b) == W.WrapByte(old(Machine()), p)
    {
      if transmitState == W.FcsLow {
        fcs := fcs ^ 0xFFFF;
        b := EmitByte(Low(fcs), W.FcsHigh, W.EscapingFcsLow);
      } else {
        b := EmitByte(High(fcs), W.Eof, W.EscapingFcsHigh);
      }
    }

    /** The second half of an octet that was escaped. */
    method WrapEscaped(p: Packet) returns (b: byte)
      requires transmitState in {W.EscapingProtocolHigh, W.EscapingProtocolLow, W.EscapingData,
                                 W.EscapingFcsLow, W.EscapingFcsHigh}
      modifies this`transmitState
      ensures (Machine(), b) == W.WrapByte(old(Machine()), p)
    {
      b := escaped;
      transmitState :=
        if transmitState == W.EscapingProtocolHigh then W.ProtocolLow
        else if transmitState == W.EscapingProtocolLow then W.Data
        else if transmitState == W.EscapingData then if cursor == |p.data| then W.FcsLow else W.Data
        else if transmitState == W.EscapingFcsLow then W.FcsHigh
        else W.Eof;
    }

    method EmitByte(octet: byte, plain: W.TxState, escaping: W.TxState) returns (b: byte)
      modifies this`transmitState, this`escaped
      ensures (Machine(), b) == W.Emit(old(Machine()), octet, plain, escaping)
    {
      if Special(octet) {
        escaped := octet ^ 0x20;
        transmitState, b := escaping, ESCAPE;
      } else {
        transmitState, b := plain, octet;
      }
    }

    /** The fill loop: emits until the ring is full or the frame is complete. */
    method Fill(p: Packet)
      requires transmitRing.Valid() && this as object != transmitRing as object
      requires W.Positioned(Machine(), p) && transmitState != W.Idle
      modifies this`transmitState, this`escaped, this`protocol, this`fcs, this`cursor,
               transmitRing`len, transmitRing.buf
      ensures transmitRing.Valid()
      ensures (Machine(), transmitRing.Contents()) ==
              T.Fill(old(Machine()), p, old(transmitRing.Contents()), transmitRing.buf.Length)
    {
      while 0 < transmitRing.Space()
        invariant transmitRing.Valid() && W.Positioned(Machine(), p) && transmitState != W.Idle
        invariant T.Fill(Machine(), p, transmitRing.Contents(), transmitRing.buf.Length) ==
                  T.Fill(old(Machine()), p, old(transmitRing.Contents()), transmitRing.buf.Length)
        decreases transmitRing.Space()
      {
        W.WrapStep(Machine(), p);
        var b := WrapByte(p);
        transmitRing.PutByte(b);
        if transmitState == W.Idle {
          return;
        }
      }
    }

    /** Starts or continues the frame of the packet loaded, and moves on when it is complete. */
    method FillRing(ghost g: T.Sender)
      requires Realises(g) && T.Held(g)
      modifies slots, transmitRing`len, transmitRing.buf, this`tail, this`count, this`txPkt, this`transmitState,
               this`escaped, this`protocol, this`fcs, this`cursor
      ensures Realises(T.FillRing(g))
    {
      if txPkt.Sending? {
        var p := txPkt.packet;
        T.StartKeepsPending(g);
        if transmitState == W.Idle {
          transmitState := W.Sof;
        }
        Fill(p);
        ghost var (t, ring) := T.Fill(T.Started(g.tx), p, g.ring, g.capacity);
        ghost var filled := g.(tx := t, ring := ring);
        if transmitState == W.Idle {
          TakePacket(filled.(references := filled.references - multiset{p}));
        }
      }
    }

    /**
     The send work. The pipe takes `out`, up to `accepts` octets of the contiguous part of the ring offered to it; none
     also stands for a failing pipe.
     */
    method SendHandler(accepts: nat) returns (out: seq<byte>)
      requires Valid()
      modifies slots, transmitRing, transmitRing.buf, this`tail, this`count, this`txPkt, this`transmitState,
               this`escaped, this`protocol, this`fcs, this`cursor, this`sendWork, this`s
      ensures Valid() && |out| <= accepts && out <= T.Prepare(old(s).(sendWork := false)).ring
      ensures s == T.SendHandler(old(s), |out|)
      ensures 0 < accepts && T.Prepare(old(s).(sendWork := false)).ring != [] ==> out != []
    {
      out := Handle(s, accepts);
      T.HandlerHeld(s, |out|);
      Settle(T.SendHandler(s, |out|));
    }

    /** The fields have moved to the sender `g`. */
    ghost method Settle(g: T.Sender)
      requires Realises(g) && T.Held(g) && Receives()
      modifies this`s
      ensures Valid() && s == g
    {
      s := g;
    }

    method Handle(ghost g: T.Sender, accepts: nat) returns (out: seq<byte>)
      requires Realises(g) && T.Held(g)
      modifies slots, transmitRing, transmitRing.buf, this`tail, this`count, this`txPkt, this`transmitState,
               this`escaped, this`protocol, this`fcs, this`cursor, this`sendWork
      ensures |out| <= accepts && out <= T.Prepare(g.(sendWork := false)).ring
      ensures Realises(T.SendHandler(g, |out|))
      ensures 0 < accepts && T.Prepare(g.(sendWork := false)).ring != [] ==> out != []
    {
      ghost var g' := g.(sendWork := false);
      sendWork := false;
      Load(g');
      out := Offer(accepts, T.Prepare(g'));
    }

    /** Takes a packet when none is under way, then fills the ring. */
    method Load(ghost g: T.Sender)
      requires Realises(g) && T.Held(g)
      modifies slots, transmitRing`len, transmitRing.buf, this`tail, this`count, this`txPkt, this`transmitState,
               this`escaped, this`protocol, this`fcs, this`cursor
      ensures Realises(T.Prepare(g))
    {
      T.TakeHeld(g);
      if txPkt.Nothing? {
        TakePacket(g);
        FillRing(T.Take(g));
      } else {
        FillRing(g);
      }
    }

    /** Offers the ring's contiguous front to the pipe and schedules the work again while anything is left. */
    method Offer(accepts: nat, ghost g: T.Sender) returns (out: seq<byte>)
      requires Realises(g) && !sendWork
      modifies transmitRing, this`sendWork
      ensures |out| <= accepts && out <= g.ring && Realises(T.Transmit(g, |out|))
      ensures 0 < accepts && g.ring != [] ==> out != []
    {
      var reserved := transmitRing.GetClaim();
      if |reserved| == 0 {
        return [];
      }
      out := if accepts < |reserved| then reserved[..accepts] else reserved;
      transmitRing.GetFinish(|out|);
      if transmitRing.len != 0 || txPkt.Sending? {
        sendWork := true;
      }
    }

    /**
     One octet received; `grant` is the room an allocation would be given, 0 when it would fail. A packet that it
     completes goes to the network.
     */
    method ReceiveByte(b: byte, grant: nat) returns (delivered: seq<seq<byte>>)
      requires Valid()
      modifies this`receiveState, this`rxPkt, this`r
      ensures Valid() && r == R.Step(old(r), b, grant) && r.delivered == old(r).delivered + delivered
    {
      ghost var before := r;
      delivered := [];
      assert r.delivered + delivered == r.delivered;
      match receiveState {
        case HdrSof =>
          if b == FLAG {
            receiveState := R.HdrFf;
          }
        case HdrFf =>
          if b != FLAG {
            receiveState := if b == 0xFF then R.Hdr7d else R.HdrSof;
          }
        case Hdr7d => receiveState := if b == ESCAPE then R.Hdr23 else R.HdrSof;
        case Hdr23 =>
          if b == 0x23 && grant != 0 {
            receiveState, rxPkt := R.Writing, R.RxPacket([], grant);
          } else {
            receiveState := R.HdrSof;
          }
        case Writing => delivered := TextByte(b, grant);
        case Unescaping => WriteByte(b ^ 0x20);
      }
      r := R.Step(before, b, grant);
    }

    /** An octet of a packet: the flag that ends it, or one to write, with more room allocated when it runs out. */
    method TextByte(b: byte, grant: nat) returns (delivered: seq<seq<byte>>)
      requires receiveState == R.Writing && rxPkt.RxPacket?
      modifies this`receiveState, this`rxPkt
      ensures R.Receiver(R.Rx(receiveState, rxPkt), delivered) ==
              R.Step(R.Receiver(R.Rx(R.Writing, old(rxPkt)), []), b, grant)
    {
      delivered := [];
      if b == FLAG {
        delivered := [R.RemoveTail(rxPkt.data)];
        receiveState, rxPkt := R.HdrSof, R.NoPacket;
      } else if rxPkt.room == 1 && grant == 0 {
        receiveState, rxPkt := R.HdrSof, R.NoPacket;
      } else {
        if rxPkt.room == 1 {
          rxPkt := rxPkt.(room := 1 + grant);
        }
        if b == ESCAPE {
          receiveState := R.Unescaping;
        } else {
          WriteByte(b);
        }
      }
    }

    /** Writes into the packet buffer, or drops the packet when it is full. */
    method WriteByte(b: byte)
      requires rxPkt.RxPacket?
      modifies this`receiveState, this`rxPkt
      ensures R.Rx(receiveState, rxPkt) == R.Write(old(rxPkt), b)
    {
      if rxPkt.room == 0 {
        receiveState, rxPkt := R.HdrSof, R.NoPacket;
      } else {
        receiveState, rxPkt := R.Writing, R.RxPacket(rxPkt.data + [b], rxPkt.room - 1);
      }
    }

    /**
     The process work: what the pipe gave, with the room an allocation would be given at each octet. It is submitted
     again unless that was nothing.
     */
    method ProcessHandler(bs: seq<byte>, grants: seq<nat>) returns (delivered: seq<seq<byte>>)
      requires Valid() && |bs| == |grants|
      modifies this`receiveState, this`rxPkt, this`r, this`processWork
      ensures Valid() && r == R.Feed(old(r), bs, grants) && processWork == (bs != [])
      ensures r.delivered == old(r).delivered + delivered
    {
      delivered := ProcessChunk(bs, grants);
      processWork := |bs| >= 1;
    }

    /** The pipe has something to receive. */
    method OnReceiveReady()
      modifies this`processWork
      ensures processWork
    {
      processWork := true;
    }

    /** The octets of a chunk, one after the other. */
    method ProcessChunk(bs: seq<byte>, grants: seq<nat>) returns (delivered: seq<seq<byte>>)
      requires Valid() && |bs| == |grants|
      modifies this`receiveState, this`rxPkt, this`r
      ensures Valid() && r == R.Feed(old(r), bs, grants) && r.delivered == old(r).delivered + delivered
    {
      var i := 0;
      delivered := [];
      while i < |bs|
        invariant 0 <= i <= |bs| && Valid() && r.delivered == old(r).delivered + delivered
        invariant R.Feed(r, bs[i..], grants[i..]) == R.Feed(old(r), bs, grants)
      {
        assert bs[i..][1..] == bs[i + 1..] && grants[i..][1..] == grants[i + 1..];
        var more := ReceiveByte(bs[i], grants[i]);
        Associative(old(r).delivered, delivered, more);
        delivered := delivered + more;
        i := i + 1;
      }
    }

    method Attach()
      requires Valid()
      modifies this`attached
      ensures Valid() && attached
    {
      attached := true;
    }

    /** Gives the packets held back, each once, and forgets what was under way; the ring is left as it is. */
    method Release() returns (released: multiset<Packet>)
      requires Valid()
      modifies slots, this`tail, this`count, this`txPkt, this`transmitState, this`sendWork, this`attached, this`s,
               this`receiveState, this`rxPkt, this`r, this`processWork
      ensures Valid() && !attached && (old(attached) ==> !processWork)
      ensures !old(attached) ==> s == old(s) && r == old(r) && released == multiset{}
      ensures old(attached) ==> s == T.Discarded(old(s)) && r == R.Receiver(R.IDLE, old(r).delivered)
      ensures old(attached) ==> released == T.CurrentReference(old(s).current) + multiset(old(s).queue)
    {
      released := multiset{};
      if attached {
        attached, processWork := false, false;
        released := ForgetAll();
      }
    }

    method ForgetAll() returns (released: multiset<Packet>)
      requires Valid()
      modifies slots, this`tail, this`count, this`txPkt, this`transmitState, this`sendWork, this`s,
               this`receiveState, this`rxPkt, this`r
      ensures Valid() && s == T.Discarded(old(s)) && r == R.Receiver(R.IDLE, old(r).delivered)
      ensures released == T.CurrentReference(old(s).current) + multiset(old(s).queue)
    {
      ResetReceiver();
      released := Discard(s);
      Settle(T.Discarded(s));
    }

    method ResetReceiver()
      modifies this`receiveState, this`rxPkt, this`r
      ensures Receives() && r == R.Receiver(R.IDLE, old(r).delivered)
    {
      receiveState, rxPkt := R.HdrSof, R.NoPacket;
      r := R.Receiver(R.IDLE, r.delivered);
    }

    /** Drops the send work, the packet being sent and the queue. */
    method Discard(ghost g: T.Sender) returns (released: multiset<Packet>)
      requires Realises(g)
      modifies slots, this`tail, this`count, this`txPkt, this`transmitState, this`sendWork
      ensures Realises(T.Discarded(g))
      ensures released == T.CurrentReference(g.current) + multiset(g.queue)
    {
      sendWork, transmitState := false, W.Idle;
      released := ReleaseCurrent();
      var queued := ReleaseQueue();
      released := released + queued;
    }

    method ReleaseCurrent() returns (released: multiset<Packet>)
      modifies this`txPkt
      ensures txPkt.Nothing? && released == T.CurrentReference(old(txPkt))
    {
      released := multiset{};
      if txPkt.Sending? {
        released := multiset{txPkt.packet};
        txPkt := T.Nothing;
      }
    }

    /** Takes packets out until there is none. */
    method ReleaseQueue() returns (released: multiset<Packet>)
      requires IsRun(slots[..], tail, count)
      modifies slots, this`tail, this`count
      ensures IsRun(slots[..], tail, count) && QueueOf(slots[..], tail, count) == []
      ensures released == multiset(old(QueueOf(slots[..], tail, count)))
    {
      released := multiset{};
      ghost var all := QueueOf(slots[..], tail, count);
      var slot := GetPacket();
      while slot.Full?
        invariant IsRun(slots[..], tail, count) && (slot.Free? ==> count == 0)
        invariant released + multiset(Pending(slot) + QueueOf(slots[..], tail, count)) == multiset(all)
        decreases count + if slot.Full? then 1 else 0
      {
        ghost var rest := QueueOf(slots[..], tail, count);
        ReleaseOne(released, slot.packet, rest);
        released := released + multiset{slot.packet};
        slot := GetPacket();
      }
    }
  }

  function Pending(slot: Slot): seq<Packet> {
    if slot.Full? then [slot.packet] else []
  }

  lemma ReleaseOne(m: multiset<Packet>, p: Packet, rest: seq<Packet>)
    ensures m + multiset{p} + multiset(rest) == m + multiset([p] + rest)
  {
  }
}
