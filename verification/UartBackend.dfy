/** The UART backends over their rings; `u` is the abstract receive state that the rings realise. */
module UartBackend {
  import opened Crc
  import opened RingBuf
  import opened UartReceive

  lemma TakenFromFront(sent: seq<byte>, s: seq<byte>, n: nat)
    requires n <= |s|
    ensures sent + s[..n] + s[n..] == sent + s
  {
    assert s == s[..n] + s[n..];
  }

  class Backend {
    const receive0: Ring
    const receive1: Ring
    const transmitRing: Ring
    const putLimit: nat

    var receiveUsed: nat
    var transmitLen: int

    ghost var u: Uart
    ghost var owed: nat           // octets put in the transmit ring but not yet counted
    ghost var written: seq<byte>  // octets ever accepted for transmission
    ghost var sent: seq<byte>     // octets ever handed to the UART

    ghost predicate Valid()
      reads this, receive0, receive0.buf, receive1, receive1.buf, transmitRing, transmitRing.buf
    {
      Realises(u) && Good(u)
    }

    /** The rings are those of the machine `v`, and everything written was sent or is in the transmit ring. */
    ghost predicate Realises(v: Uart)
      reads this`receiveUsed, this`transmitLen, this`owed, this`written, this`sent
      reads receive0, receive0.buf, receive1, receive1.buf, transmitRing, transmitRing.buf
    {
      && receive0 != receive1 && receive0 != transmitRing && receive1 != transmitRing
      && receive0.buf != receive1.buf && receive0.buf != transmitRing.buf && receive1.buf != transmitRing.buf
      && receive0.Valid() && receive1.Valid() && transmitRing.Valid()
      && receive0.buf.Length == receive1.buf.Length == v.capacity
      && receiveUsed < 2
      && v.used == Used().Contents() && v.unused == Unused().Contents()
      && transmitLen + owed == transmitRing.len
      && sent + transmitRing.Contents() == written
    }

    function Used(): Ring
      reads this`receiveUsed
    {
      if receiveUsed == 1 then receive1 else receive0
    }

    function Unused(): Ring
      reads this`receiveUsed
    {
      if receiveUsed == 1 then receive0 else receive1
    }

    constructor (receiveSize: nat, transmitSize: nat)
      requires 2 <= receiveSize && 0 < transmitSize
      ensures Valid() && u == NewUart(receiveSize / 2) && written == [] && sent == [] && owed == 0
      ensures transmitRing.buf.Length == transmitSize && putLimit == transmitSize - transmitSize / 4
    {
      receive0 := new Ring(receiveSize / 2);
      receive1 := new Ring(receiveSize / 2);
      transmitRing := new Ring(transmitSize);
      putLimit := transmitSize - transmitSize / 4;
      receiveUsed, transmitLen := 0, 0;
      u := NewUart(receiveSize / 2);
      owed, written, sent := 0, [], [];
    }

    /** The receive interrupt: reads the FIFO into the space claimed, emptying a full ring first. */
    method ReceiveReady(fifo: seq<byte>) returns (n: nat)
      requires Valid()
      modifies this`u, Used(), Used().buf
      ensures Valid() && n <= |fifo| && (fifo != [] ==> 0 < n)
      ensures Enabled(old(u), Interrupt(fifo[..n])) && |old(u).used| <= |old(u).stream|
      ensures u == Next(old(u), Interrupt(fifo[..n]))
      ensures u.used == (if |old(u).used| < old(u).capacity then old(u).used else []) + fifo[..n]
    {
      n := ReadFifo(fifo, u);
      ArrivalExact(u, Interrupt(fifo[..n]));
      NextKeepsGood(u, Interrupt(fifo[..n]));
      Settle(Next(u, Interrupt(fifo[..n])));
    }

    method ReadFifo(fifo: seq<byte>, ghost v: Uart) returns (n: nat)
      requires Realises(v) && 0 < v.capacity
      modifies Used(), Used().buf
      ensures n <= |fifo| && (fifo != [] ==> 0 < n)
      ensures Enabled(v, Interrupt(fifo[..n])) && Realises(v.(used := Arrived(v, Interrupt(fifo[..n]))))
    {
      var ring := Used();
      var size := ring.PutClaim();
      if size == 0 {
        ring.Reset();
        size := ring.PutClaim();
      }
      n := if |fifo| < size then |fifo| else size;
      var chunk := fifo[..n];
      var stored := ring.Put(chunk);
      assert chunk[..stored] == chunk;
    }

    /** The rings have moved to the machine `v`. */
    ghost method Settle(v: Uart)
      requires Realises(v) && Good(v)
      modifies this`u
      ensures Valid() && u == v
    {
      u := v;
    }

    /** The asynchronous receive event: stores a block, and empties the ring when it does not fit. */
    method RxReady(block: seq<byte>) returns (notify: bool)
      requires Valid()
      modifies this`u, Used(), Used().buf
      ensures Valid() && notify == (|old(u).used| + |block| <= old(u).capacity)
      ensures |old(u).used| <= |old(u).stream|
      ensures u == Next(old(u), UartReceive.Event.RxReady(block))
      ensures u.used == if |old(u).used| + |block| <= old(u).capacity then old(u).used + block else []
    {
      ArrivalExact(u, UartReceive.Event.RxReady(block));
      notify := StoreBlock(block, u);
      NextKeepsGood(u, UartReceive.Event.RxReady(block));
      Settle(Next(u, UartReceive.Event.RxReady(block)));
    }

    method StoreBlock(block: seq<byte>, ghost v: Uart) returns (notify: bool)
      requires Realises(v)
      modifies Used(), Used().buf
      ensures notify == !Overruns(v, UartReceive.Event.RxReady(block))
      ensures Realises(v.(used := Arrived(v, UartReceive.Event.RxReady(block))))
    {
      var received := Used().Put(block);
      notify := received == |block|;
      if notify {
        assert block[..received] == block;
      } else {
        Used().Reset();
      }
    }

    // ----- The receive call, step by step

    ghost method Begin(size: nat)
      requires Valid() && u.pc == Idle
      modifies this`u
      ensures Valid() && u == old(u).(pc := ReadUnused, size := size, out := [])
    {
      NextKeepsGood(u, Call(size));
      u := Next(u, Call(size));
    }

    method ReadUnusedRing(size: nat) returns (data: seq<byte>)
      requires Valid() && u.pc == ReadUnused && u.size == size
      modifies this`u, Unused()
      ensures Valid() && u == StepOf(old(u)) && data == u.out
    {
      NextKeepsGood(u, Step);
      data := Unused().Get(size);
      u := StepOf(u);
    }

    method UnusedIsEmpty() returns (empty: bool)
      requires Valid() && u.pc == TestEmpty
      modifies this`u
      ensures Valid() && u == StepOf(old(u)) && (empty <==> u.pc == Swap)
    {
      NextKeepsGood(u, Step);
      empty := Unused().len == 0;
      u := StepOf(u);
    }

    method SwapRings()
      requires Valid() && u.pc == Swap
      modifies this`u, this`receiveUsed
      ensures Valid() && u == StepOf(old(u))
    {
      NextKeepsGood(u, Step);
      receiveUsed := if receiveUsed == 1 then 0 else 1;
      u := StepOf(u);
    }

    method ReadPreviousRing(size: nat, soFar: seq<byte>) returns (data: seq<byte>)
      requires Valid() && u.pc == ReadPrevious && u.size == size && u.out == soFar
      modifies this`u, Unused()
      ensures Valid() && u == StepOf(old(u)) && data == u.out
    {
      NextKeepsGood(u, Step);
      var more := Unused().Get(size - |soFar|);
      data := soFar + more;
      u := StepOf(u);
    }

    /** The whole call when no interrupt comes in between: the front of the queue, as much as asked for. */
    method Receive(size: nat) returns (data: seq<byte>)
      requires Valid() && u.pc == Idle
      modifies this`u, this`receiveUsed, receive0, receive1
      ensures Valid() && u == Undisturbed(old(u), size)
      ensures |data| == if size < |Queue(old(u))| then size else |Queue(old(u))|
      ensures data == Queue(old(u))[..|data|]
      ensures Queue(u) == Queue(old(u))[|data|..]
    {
      UndisturbedCall(u, size);
      Begin(size);
      data := ReadUnusedRing(size);
      var empty := UnusedIsEmpty();
      if empty {
        SwapRings();
        data := ReadPreviousRing(size, data);
      }
    }

    // ----- Transmission, interrupt backend

    /** Accepts nothing above the limit; the limit test always sees the true fill level. */
    method TransmitPut(data: seq<byte>) returns (n: nat)
      requires Valid() && owed == 0
      modifies this`owed, this`written, transmitRing`len, transmitRing.buf
      ensures Valid() && n == owed <= |data|
      ensures transmitLen == |old(transmitRing.Contents())|
      ensures putLimit < |old(transmitRing.Contents())| ==> n == 0
      ensures putLimit >= |old(transmitRing.Contents())| ==>
                n == if |data| < old(transmitRing.Space()) then |data| else old(transmitRing.Space())
      ensures written == old(written) + data[..n]
      ensures transmitRing.Contents() == old(transmitRing.Contents()) + data[..n]
    {
      if putLimit < transmitLen {
        n := 0;
        assert written + data[..0] == written;
        assert transmitRing.Contents() + data[..0] == transmitRing.Contents();
        return;
      }
      ghost var before := transmitRing.Contents();
      n := transmitRing.Put(data);
      owed := n;
      written := written + data[..n];
      assert sent + (before + data[..n]) == sent + before + data[..n];
    }

    method TransmitCount(n: nat)
      requires Valid() && n == owed
      modifies this`owed, this`transmitLen
      ensures Valid() && owed == 0 && transmitLen == old(transmitLen) + n
    {
      transmitLen := transmitLen + n;
      owed := 0;
    }

    /** The transmit interrupt may run before the octets just put were counted; the UART takes up to `room` octets. */
    method TransmitReady(room: nat) returns (out: seq<byte>)
      requires Valid()
      modifies this`transmitLen, this`sent, transmitRing
      ensures Valid() && (0 < room && old(transmitRing.Contents()) != [] ==> out != [])
      ensures |out| <= room && out <= old(transmitRing.Contents())
      ensures sent == old(sent) + out && transmitRing.Contents() == old(transmitRing.Contents())[|out|..]
      ensures transmitLen == old(transmitLen) - |out|
    {
      var claimed := transmitRing.GetClaim();
      out := if room < |claimed| then claimed[..room] else claimed;
      ghost var before := transmitRing.Contents();
      transmitRing.GetFinish(|out|);
      transmitLen := transmitLen - |out|;
      sent := sent + out;
      TakenFromFront(old(sent), before, |out|);
      assert before[..|out|] == out;
    }
  }
}
