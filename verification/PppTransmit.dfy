/**
 The sending side of PPP over whole runs: the packet queue, the packet being sent and the transmit ring.

 `accepted`, `taken`, `wire` and `references` are histories: the packets the send function accepted, those taken out
 of the queue, the octets the pipe took, and the packet references held.
 */
module PppTransmit {
  import opened Crc
  import opened Errno
  import opened Sequences
  import opened PppFrame
  import opened PppWrap

  datatype Current = Nothing | Sending(packet: Packet)

  datatype Sender = Sender(queue: seq<Packet>, slots: nat, current: Current, tx: Tx,
                           ring: seq<byte>, capacity: nat, sendWork: bool,
                           accepted: seq<Packet>, taken: seq<Packet>, wire: seq<byte>,
                           references: multiset<Packet>)

  const TX_RESET := Tx(Idle, 0, 0, 0, 0)

  function NewSender(slots: nat, capacity: nat): Sender {
    Sender([], slots, Nothing, TX_RESET, [], capacity, false, [], [], [], multiset{})
  }

  /** The send function of an attached instance, with its result. */
  function Send(s: Sender, p: Packet): (Sender, int) {
    if !p.ppp && p.family == Other then (s, -EPROTONOSUPPORT)
    else if (|p.data| < 2 && p.ppp) || |p.data| < 1 then (s, -ENODATA)
    else if |s.queue| == s.slots then (s, -ENOMEM)
    else (Enqueue(s, p), 0)
  }

  /** A reference is taken, the packet queued and the work scheduled. */
  function Enqueue(s: Sender, p: Packet): Sender {
    s.(queue := s.queue + [p], sendWork := true, accepted := s.accepted + [p], references := s.references + multiset{p})
  }

  /** Takes the oldest packet, if any. */
  function Take(s: Sender): Sender {
    if s.queue == [] then s.(current := Nothing)
    else s.(current := Sending(s.queue[0]), queue := s.queue[1..], taken := s.taken + [s.queue[0]])
  }

  /** Emits into the ring until it is full or the frame is complete. */
  function Fill(t: Tx, p: Packet, ring: seq<byte>, capacity: nat): (Tx, seq<byte>)
    requires Positioned(t, p) && t.state != Idle
    decreases capacity - |ring|
  {
    if capacity <= |ring| then (t, ring)
    else
      WrapStep(t, p);
      var (t', b) := WrapByte(t, p);
      if t'.state == Idle then (t', ring + [b]) else Fill(t', p, ring + [b], capacity)
  }

  predicate AllValid(ps: seq<Packet>) { forall p <- ps :: Valid(p) }

  /** Queue and ring within bounds, and the frame machine at a position in the packet being sent. */
  predicate Held(s: Sender) {
    && AllValid(s.queue) && |s.queue| <= s.slots
    && |s.ring| <= s.capacity && 0 < s.capacity
    && match s.current
       case Nothing => s.tx.state == Idle
       case Sending(p) => Positioned(s.tx, p)
  }

  /** Entering the fill loop starts a frame when none is under way. */
  function Started(t: Tx): Tx {
    if t.state == Idle then t.(state := Sof) else t
  }

  /** The fill loop, with the packet released and the next one taken when its frame is complete. */
  function FillRing(s: Sender): Sender
    requires Held(s)
  {
    if s.current.Nothing? then s
    else
      var p := s.current.packet;
      var (t, ring) := Fill(Started(s.tx), p, s.ring, s.capacity);
      var s' := s.(tx := t, ring := ring);
      if t.state == Idle then Take(s'.(references := s'.references - multiset{p})) else s'
  }

  function Prepare(s: Sender): Sender
    requires Held(s)
  {
    TakeHeld(s);
    FillRing(if s.current.Nothing? then Take(s) else s)
  }

  lemma TakeHeld(s: Sender)
    requires Held(s)
    ensures s.tx.state == Idle ==> Held(Take(s))
  {
    if s.queue != [] {
      assert s.queue[0] in s.queue;
      forall p <- s.queue[1..] ensures Valid(p) {
        assert p in s.queue;
      }
    }
  }

  /** The pipe takes `n` octets from the front of the ring; 0 also stands for a failure. */
  function Transmit(s: Sender, n: nat): Sender
    requires n <= |s.ring|
  {
    if s.ring == [] then s
    else
      var s' := s.(ring := s.ring[n..], wire := s.wire + s.ring[..n]);
      s'.(sendWork := s'.ring != [] || s'.current.Sending?)
  }

  function SendHandler(s: Sender, n: nat): Sender
    requires Held(s) && n <= |Prepare(s.(sendWork := false)).ring|
  {
    Transmit(Prepare(s.(sendWork := false)), n)
  }

  /** What a release leaves: no packet, no pending work, and the ring as it is. */
  function Discarded(s: Sender): Sender {
    s.(queue := [], current := Nothing, tx := s.tx.(state := Idle), sendWork := false, references := multiset{})
  }

  // ----- The invariant

  /** What of the current frame has not reached the ring. */
  function Pending(s: Sender): seq<byte>
    requires Held(s)
  {
    match s.current
    case Nothing => []
    case Sending(p) => if s.tx.state == Idle then Encode(p) else Unsent(s.tx, p)
  }

  function CurrentReference(c: Current): multiset<Packet> {
    match c
    case Nothing => multiset{}
    case Sending(p) => multiset{p}
  }

  /**
   The octets the pipe took, those in the ring and those still to be emitted are the frames of the packets taken;
   the packets taken and those queued are the packets accepted; one reference is held for each packet not yet sent.
   */
  ghost predicate Good(s: Sender) {
    && Held(s)
    && s.taken + s.queue == s.accepted
    && s.wire + (s.ring + Pending(s)) == Encodes(s.taken)
    && s.references == multiset(s.queue) + CurrentReference(s.current)
  }

  /** No lost wakeup: while anything waits, the send work is scheduled. */
  predicate Awake(s: Sender) {
    s.queue != [] || s.current.Sending? || s.ring != [] ==> s.sendWork
  }

  lemma ValidSnoc(ps: seq<Packet>, p: Packet)
    requires AllValid(ps) && Valid(p)
    ensures AllValid(ps + [p])
  {
  }

  lemma EnqueueKeepsHeld(s: Sender, p: Packet)
    requires Held(s) && Valid(p) && |s.queue| < s.slots
    ensures Held(Enqueue(s, p)) && Pending(Enqueue(s, p)) == Pending(s)
  {
    ValidSnoc(s.queue, p);
  }

  lemma EnqueueKeepsGood(s: Sender, p: Packet)
    requires Good(s) && Valid(p) && |s.queue| < s.slots
    ensures Good(Enqueue(s, p))
  {
    EnqueueKeepsHeld(s, p);
    Associative(s.taken, s.queue, [p]);
    assert multiset(s.queue + [p]) == multiset(s.queue) + multiset{p};
  }

  lemma SendAccepts(s: Sender, p: Packet)
    requires |s.queue| <= s.slots
    ensures var (s', code) := Send(s, p);
            && (code == 0 <==> Valid(p) && |s.queue| < s.slots)
            && s' == if code == 0 then Enqueue(s, p) else s
  {
  }

  /** The results of a send, in the order of the checks; a refused packet changes nothing. */
  lemma SendResult(s: Sender, p: Packet)
    ensures var (s', code) := Send(s, p);
            && (!p.ppp && p.family == Other ==> code == -123)
            && ((p.ppp || p.family != Other) && |p.data| < (if p.ppp then 2 else 1) ==> code == -61)
            && (Valid(p) && |s.queue| == s.slots ==> code == -12)
            && (Valid(p) && |s.queue| != s.slots ==>
                  code == 0 && s' == s.(queue := s.queue + [p], accepted := s.accepted + [p], sendWork := true,
                                        references := s.references + multiset{p}))
            && (code != 0 ==> s' == s)
  {
  }

  lemma SendKeepsGood(s: Sender, p: Packet)
    requires Good(s) && Awake(s)
    ensures Good(Send(s, p).0) && Awake(Send(s, p).0)
    ensures Send(s, p).1 == 0 <==> Valid(p) && |s.queue| < s.slots
  {
    SendAccepts(s, p);
    if Send(s, p).1 == 0 {
      EnqueueKeepsGood(s, p);
    }
  }

  lemma {:induction false} FillEmits(t: Tx, p: Packet, ring: seq<byte>, capacity: nat)
    requires Positioned(t, p) && t.state != Idle && |ring| <= capacity
    ensures var (t', ring') := Fill(t, p, ring, capacity);
            && Positioned(t', p) && ring <= ring' && |ring'| <= capacity
            && ring' + Unsent(t', p) == ring + Unsent(t, p)
            && (|ring| < capacity ==> |ring| < |ring'|)
            && (t'.state != Idle ==> |ring'| == capacity)
    decreases capacity - |ring|
  {
    if |ring| < capacity {
      WrapStep(t, p);
      var (t', b) := WrapByte(t, p);
      Associative(ring, [b], Unsent(t', p));
      if t'.state != Idle {
        FillEmits(t', p, ring + [b], capacity);
      }
    }
  }

  /** Taking a packet adds its frame to what is still to go out. */
  lemma TakenToWire(wire: seq<byte>, ring: seq<byte>, taken: seq<Packet>, p: Packet)
    requires wire + (ring + []) == Encodes(taken)
    ensures wire + (ring + Encode(p)) == Encodes(taken + [p])
  {
    EncodesAppend(taken, p);
    assert ring + [] == ring;
    Associative(wire, ring, Encode(p));
  }

  lemma TakenFromQueue(taken: seq<Packet>, queue: seq<Packet>)
    requires queue != []
    ensures taken + [queue[0]] + queue[1..] == taken + queue
    ensures multiset(queue) == multiset(queue[1..]) + multiset{queue[0]}
  {
    assert queue == [queue[0]] + queue[1..];
  }

  lemma TakeKeepsGood(s: Sender)
    requires Good(s) && s.current.Nothing?
    ensures Good(Take(s)) && (Take(s).current.Nothing? ==> s.queue == [])
  {
    TakeHeld(s);
    if s.queue != [] {
      TakenToWire(s.wire, s.ring, s.taken, s.queue[0]);
      TakenFromQueue(s.taken, s.queue);
    }
  }

  /** What the fill loop and the packets it takes leave as it was. */
  predicate SameSender(s: Sender, s': Sender) {
    && s'.wire == s.wire && s'.accepted == s.accepted && s'.slots == s.slots
    && s'.capacity == s.capacity && s'.sendWork == s.sendWork
  }

  /** Something is in the ring unless nothing at all is left to send. */
  predicate Filled(s: Sender) {
    s.ring == [] || s.current.Nothing? ==> s.current.Nothing? && s.queue == []
  }

  lemma StartKeepsPending(s: Sender)
    requires Held(s) && s.current.Sending?
    ensures Positioned(Started(s.tx), s.current.packet)
    ensures Pending(s) == Unsent(Started(s.tx), s.current.packet)
  {
    if s.tx.state == Idle {
      UnsentAtStart(Started(s.tx), s.current.packet);
    }
  }

  lemma Released<T>(m: multiset<T>, x: T)
    ensures m + multiset{x} - multiset{x} == m
  {
  }

  lemma FrameDone(s: Sender, p: Packet)
    requires s.current == Sending(p) && s.tx.state == Idle && |s.ring| <= s.capacity
    requires AllValid(s.queue) && |s.queue| <= s.slots && 0 < s.capacity
    requires s.taken + s.queue == s.accepted && s.wire + s.ring == Encodes(s.taken)
    requires s.references == multiset(s.queue) + multiset{p}
    ensures var s' := Take(s.(references := s.references - multiset{p}));
            Good(s') && SameSender(s, s') && s'.ring == s.ring && (s'.current.Nothing? ==> s'.queue == [])
  {
    var s1 := s.(references := s.references - multiset{p}, current := Nothing);
    DoneIsGood(s, p);
    TakeKeepsGood(s1);
    assert Take(s1) == Take(s.(references := s.references - multiset{p}));
  }

  lemma DoneIsGood(s: Sender, p: Packet)
    requires s.current == Sending(p) && s.tx.state == Idle && |s.ring| <= s.capacity
    requires AllValid(s.queue) && |s.queue| <= s.slots && 0 < s.capacity
    requires s.taken + s.queue == s.accepted && s.wire + s.ring == Encodes(s.taken)
    requires s.references == multiset(s.queue) + multiset{p}
    ensures Good(s.(references := s.references - multiset{p}, current := Nothing))
  {
    Released(multiset(s.queue), p);
    assert s.ring + [] == s.ring;
  }

  lemma FillRingKeepsGood(s: Sender)
    requires Good(s) && (s.current.Nothing? ==> s.queue == [])
    ensures var s' := FillRing(s);
            Good(s') && SameSender(s, s') && Filled(s') && s.ring <= s'.ring
  {
    if s.current.Sending? {
      var p := s.current.packet;
      StartKeepsPending(s);
      FillEmits(Started(s.tx), p, s.ring, s.capacity);
      var (t', ring) := Fill(Started(s.tx), p, s.ring, s.capacity);
      var s1 := s.(tx := t', ring := ring);
      if t'.state == Idle {
        assert ring + [] == ring;
        FrameDone(s1, p);
      } else {
        assert Pending(s1) == Unsent(t', p);
      }
    }
  }

  lemma PrepareKeepsGood(s: Sender)
    requires Good(s)
    ensures var s' := Prepare(s);
            Good(s') && SameSender(s, s') && Filled(s')
  {
    if s.current.Nothing? {
      TakeKeepsGood(s);
      FillRingKeepsGood(Take(s));
    } else {
      FillRingKeepsGood(s);
    }
  }

  lemma TransmitKeepsGood(s: Sender, n: nat)
    requires Good(s) && n <= |s.ring|
    ensures Good(Transmit(s, n))
  {
    if s.ring != [] {
      var s' := Transmit(s, n);
      assert Pending(s') == Pending(s);
      assert s.ring == s.ring[..n] + s.ring[n..];
      Associative(s.ring[..n], s.ring[n..], Pending(s));
      Associative(s.wire, s.ring[..n], s.ring[n..] + Pending(s));
    }
  }

  lemma HandlerKeepsGood(s: Sender, n: nat)
    requires Good(s) && n <= |Prepare(s.(sendWork := false)).ring|
    ensures var s' := SendHandler(s, n);
            Good(s') && Awake(s') && s'.accepted == s.accepted && s'.slots == s.slots && s'.capacity == s.capacity
  {
    var s1 := s.(sendWork := false);
    assert Pending(s1) == Pending(s);
    PrepareKeepsGood(s1);
    TransmitKeepsGood(Prepare(s1), n);
  }

  // ----- The part of the invariant the operations themselves rely on

  lemma EnqueueHeld(s: Sender, p: Packet)
    requires Held(s) && Valid(p) && |s.queue| < s.slots
    ensures Held(Enqueue(s, p))
  {
    ValidSnoc(s.queue, p);
  }

  lemma FillRingHeld(s: Sender)
    requires Held(s)
    ensures Held(FillRing(s)) && FillRing(s).slots == s.slots && FillRing(s).capacity == s.capacity
  {
    if s.current.Sending? {
      var p := s.current.packet;
      StartKeepsPending(s);
      FillEmits(Started(s.tx), p, s.ring, s.capacity);
      var (t, ring) := Fill(Started(s.tx), p, s.ring, s.capacity);
      if t.state == Idle {
        TakeHeld(s.(tx := t, ring := ring, references := s.references - multiset{p}));
      }
    }
  }

  lemma HandlerHeld(s: Sender, n: nat)
    requires Held(s) && n <= |Prepare(s.(sendWork := false)).ring|
    ensures Held(SendHandler(s, n))
  {
    var s1 := s.(sendWork := false);
    TakeHeld(s1);
    FillRingHeld(if s1.current.Nothing? then Take(s1) else s1);
  }

  // ----- Whole runs

  datatype Event = SendCalled(p: Packet) | SendWork(n: nat)

  ghost predicate Enabled(s: Sender, e: Event) {
    match e
    case SendCalled(_) => true
    case SendWork(n) => s.sendWork && Held(s) && n <= |Prepare(s.(sendWork := false)).ring|
  }

  function Next(s: Sender, e: Event): Sender
    requires Enabled(s, e)
  {
    match e
    case SendCalled(p) => Send(s, p).0
    case SendWork(n) => SendHandler(s, n)
  }

  ghost predicate Runs(s: Sender, es: seq<Event>, s': Sender)
    decreases |es|
  {
    if es == [] then s' == s
    else Enabled(s, es[0]) && Runs(Next(s, es[0]), es[1..], s')
  }

  lemma {:induction false} RunKeepsGood(s: Sender, es: seq<Event>, s': Sender)
    requires Good(s) && Awake(s) && Runs(s, es, s')
    ensures Good(s') && Awake(s')
    decreases |es|
  {
    if es != [] {
      match es[0] {
        case SendCalled(p) => SendKeepsGood(s, p);
        case SendWork(n) => HandlerKeepsGood(s, n);
      }
      RunKeepsGood(Next(s, es[0]), es[1..], s');
    }
  }

  /**
   Over every run from initialisation, whatever the pipe takes or refuses: the octets on the wire, those in the ring
   and those still to be emitted are exactly the RFC 1662 frames of the packets taken, in the order of acceptance;
   every reference is accounted for; and the send work is scheduled while anything waits.
   */
  lemma TransmitStream(slots: nat, capacity: nat, es: seq<Event>, s: Sender)
    requires 0 < capacity && Runs(NewSender(slots, capacity), es, s)
    ensures Held(s)
    ensures s.wire + (s.ring + Pending(s)) == Encodes(s.taken)
    ensures s.taken + s.queue == s.accepted
    ensures s.references == multiset(s.queue) + CurrentReference(s.current)
    ensures s.queue != [] || s.current.Sending? || s.ring != [] ==> s.sendWork
  {
    var s0 := NewSender(slots, capacity);
    assert Encodes([]) == [];
    assert Good(s0);
    RunKeepsGood(s0, es, s);
  }

  // ----- Draining

  /** Octets that have to go out before everything accepted has been sent. */
  function Backlog(s: Sender): nat
    requires Held(s)
  {
    |s.ring| + |Pending(s)| + |Encodes(s.queue)|
  }

  lemma {:induction false} EncodesConcat(ps: seq<Packet>, qs: seq<Packet>)
    ensures Encodes(ps + qs) == Encodes(ps) + Encodes(qs)
    decreases |ps|
  {
    if ps == [] {
      assert ps + qs == qs;
    } else {
      assert (ps + qs)[0] == ps[0] && (ps + qs)[1..] == ps[1..] + qs;
      EncodesConcat(ps[1..], qs);
    }
  }

  lemma BacklogIsUnsent(s: Sender)
    requires Good(s)
    ensures |s.wire| + Backlog(s) == |Encodes(s.accepted)|
  {
    EncodesConcat(s.taken, s.queue);
  }

  /** The handler lowers the backlog by exactly what the pipe took, and always has something to offer it. */
  lemma HandlerDrains(s: Sender, n: nat)
    requires Good(s) && n <= |Prepare(s.(sendWork := false)).ring|
    ensures Held(SendHandler(s, n)) && Backlog(SendHandler(s, n)) == Backlog(s) - n
    ensures 0 < Backlog(s) ==> 0 < |Prepare(s.(sendWork := false)).ring|
  {
    var s1 := s.(sendWork := false);
    HandlerKeepsGood(s, n);
    BacklogIsUnsent(s);
    BacklogIsUnsent(SendHandler(s, n));
    assert Pending(s1) == Pending(s);
    PrepareKeepsGood(s1);
    var s2 := Prepare(s1);
    BacklogIsUnsent(s1);
    BacklogIsUnsent(s2);
    assert Encodes([]) == [];
  }

  lemma BacklogIsZero(s: Sender)
    requires Good(s) && s.queue == [] && s.current.Nothing? && s.ring == []
    ensures Backlog(s) == 0
  {
    assert Encodes([]) == [];
  }

  lemma WaitingIsBacklog(s: Sender)
    requires Good(s) && (s.current.Sending? || s.ring != [])
    ensures 0 < Backlog(s)
  {
    if s.current.Sending? {
      PendingNotEmpty(s);
    }
  }

  lemma PrepareSchedulesNothing(s: Sender)
    requires Held(s)
    ensures Prepare(s).sendWork == s.sendWork
  {
  }

  lemma TransmitWork(s: Sender, n: nat)
    requires n <= |s.ring| && !s.sendWork
    ensures var s' := Transmit(s, n);
            s'.sendWork ==> s'.ring != [] || s'.current.Sending?
  {
  }

  /** After the handler the send work is pending exactly while something has not gone out. */
  lemma WorkExact(s: Sender, n: nat)
    requires Good(s) && n <= |Prepare(s.(sendWork := false)).ring|
    ensures var s' := SendHandler(s, n);
            Held(s') && (s'.sendWork <==> 0 < Backlog(s'))
  {
    var s' := SendHandler(s, n);
    HandlerKeepsGood(s, n);
    PrepareSchedulesNothing(s.(sendWork := false));
    TransmitWork(Prepare(s.(sendWork := false)), n);
    if s'.sendWork {
      WaitingIsBacklog(s');
    } else {
      BacklogIsZero(s');
    }
  }

  /** A release drops all packets, the frame under way and the pending work; what is in the ring stays there. */
  lemma DiscardResult(s: Sender)
    requires Held(s)
    ensures var d := Discarded(s);
            && Held(d) && d.queue == [] && d.current == Nothing && d.tx.state == Idle && !d.sendWork
            && d.references == multiset{} && d.ring == s.ring && d.wire == s.wire && Pending(d) == []
  {
  }

  ghost predicate WorkRuns(s: Sender, ns: seq<nat>, s': Sender)
    decreases |ns|
  {
    if ns == [] then s' == s
    else Enabled(s, SendWork(ns[0])) && WorkRuns(SendHandler(s, ns[0]), ns[1..], s')
  }

  function Sum(ns: seq<nat>): nat {
    if ns == [] then 0 else ns[0] + Sum(ns[1..])
  }

  /** Once the pipe has taken as many octets as were outstanding, every accepted packet is on the wire. */
  lemma {:induction false} AllTrafficDrains(s: Sender, ns: seq<nat>, s': Sender)
    requires Good(s) && WorkRuns(s, ns, s') && Backlog(s) <= Sum(ns)
    ensures s'.wire == Encodes(s'.accepted) && s'.accepted == s.accepted && s'.references == multiset{}
    decreases |ns|
  {
    if ns == [] {
      Drained(s);
    } else {
      HandlerKeepsGood(s, ns[0]);
      HandlerDrains(s, ns[0]);
      AllTrafficDrains(SendHandler(s, ns[0]), ns[1..], s');
    }
  }

  lemma {:induction false} EncodesLonger(ps: seq<Packet>)
    ensures |ps| <= |Encodes(ps)|
    decreases |ps|
  {
    if ps != [] {
      EncodedSize(ps[0]);
      EncodesLonger(ps[1..]);
    }
  }

  lemma Drained(s: Sender)
    requires Good(s) && Backlog(s) == 0
    ensures s.wire == Encodes(s.accepted) && s.references == multiset{}
  {
    EncodesLonger(s.queue);
    assert s.taken + [] == s.taken;
    assert s.wire + ([] + []) == s.wire;
    assert s.current.Nothing? by {
      if s.current.Sending? {
        PendingNotEmpty(s);
      }
    }
  }

  lemma PendingNotEmpty(s: Sender)
    requires Held(s) && s.current.Sending?
    ensures Pending(s) != []
  {
    StartKeepsPending(s);
    WrapStep(Started(s.tx), s.current.packet);
  }
}
