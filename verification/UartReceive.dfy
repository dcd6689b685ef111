/**
 The double buffered UART receive path, shared by the interrupt and the asynchronous backend: an interrupt fills the
 used ring, the receive call empties the unused one and swaps them.

 The receive call is split at every point where the interrupt can run. `stream` is the history of the octets received
 and not discarded, `delivered` that of the octets returned by completed calls.
 */
module UartReceive {
  import opened Crc
  import opened Sequences

  /** Where the receive call is: not called, or about to take the step named. */
  datatype Pc = Idle | ReadUnused | TestEmpty | Swap | ReadPrevious

  datatype Uart = Uart(unused: seq<byte>, used: seq<byte>, capacity: nat,
                       pc: Pc, size: nat, out: seq<byte>,
                       stream: seq<byte>, delivered: seq<byte>)

  function NewUart(capacity: nat): Uart {
    Uart([], [], capacity, Idle, 0, [], [], [])
  }

  /** The one queue the two rings stand for. */
  function Queue(u: Uart): seq<byte> { u.unused + u.used }

  function Least(a: nat, b: nat): nat { if a < b then a else b }

  datatype Event =
    | Interrupt(data: seq<byte>)  // interrupt backend: the octets it reads into the space claimed
    | RxReady(data: seq<byte>)    // asynchronous backend: a block to store whole or not at all
    | Call(size: nat)
    | Step

  predicate Overruns(u: Uart, e: Event) {
    match e
    case Interrupt(_) => |u.used| == u.capacity
    case RxReady(d) => u.capacity - |u.used| < |d|
    case _ => false
  }

  predicate Enabled(u: Uart, e: Event) {
    match e
    case Interrupt(d) => |d| <= if Overruns(u, e) then u.capacity else u.capacity - |u.used|
    case RxReady(_) => true
    case Call(_) => u.pc == Idle
    case Step => u.pc != Idle
  }

  /** What an arrival leaves in the used ring: an overrun empties it; the asynchronous backend drops the block too. */
  function Arrived(u: Uart, e: Event): seq<byte>
    requires e.Interrupt? || e.RxReady?
  {
    var kept := if Overruns(u, e) then [] else u.used;
    if e.RxReady? && Overruns(u, e) then [] else kept + e.data
  }

  function Next(u: Uart, e: Event): Uart
    requires Enabled(u, e) && |u.used| <= |u.stream|
  {
    match e
    case Interrupt(_) => u.(used := Arrived(u, e), stream := u.stream[..|u.stream| - |u.used|] + Arrived(u, e))
    case RxReady(_) => u.(used := Arrived(u, e), stream := u.stream[..|u.stream| - |u.used|] + Arrived(u, e))
    case Call(size) => u.(pc := ReadUnused, size := size, out := [])
    case Step => StepOf(u)
  }

  function StepOf(u: Uart): Uart
    requires u.pc != Idle
  {
    match u.pc
    case ReadUnused =>
      var n := Least(u.size, |u.unused|);
      u.(out := u.unused[..n], unused := u.unused[n..], pc := TestEmpty)
    case TestEmpty => if u.unused != [] then Return(u) else u.(pc := Swap)
    case Swap => u.(unused := u.used, used := u.unused, pc := ReadPrevious)
    case ReadPrevious =>
      var n := Least(if |u.out| <= u.size then u.size - |u.out| else 0, |u.unused|);
      Return(u.(out := u.out + u.unused[..n], unused := u.unused[n..]))
  }

  /** The call returns; `out` stays to be looked at. */
  function Return(u: Uart): Uart {
    u.(pc := Idle, delivered := u.delivered + u.out)
  }

  /** Octets read by a call that has not returned. */
  function InHand(u: Uart): seq<byte> {
    if u.pc == Idle || u.pc == ReadUnused then [] else u.out
  }

  /** Nothing is lost, duplicated or reordered between the stream and the callers. */
  ghost predicate Good(u: Uart) {
    && |u.used| <= u.capacity && |u.unused| <= u.capacity
    && u.delivered + (InHand(u) + Queue(u)) == u.stream
    && (u.pc != Idle ==> |InHand(u)| <= u.size)
    && (u.pc == Swap ==> u.unused == [])
  }

  lemma Move(a: seq<byte>, b: seq<byte>, c: seq<byte>, n: nat)
    requires n <= |b|
    ensures (a + b[..n]) + (b[n..] + c) == a + (b + c) && b[..n] + (b[n..] + c) == b + c
  {
    assert b == b[..n] + b[n..];
  }

  /** An arrival keeps everything in front of the used ring; only the used ring's own octets can be discarded. */
  lemma ArrivalKeepsGood(u: Uart, e: Event)
    requires Good(u) && Enabled(u, e) && (e.Interrupt? || e.RxReady?)
    ensures |u.used| <= |u.stream| && Good(Next(u, e))
    ensures var u' := Next(u, e);
            && u' == u.(used := u'.used, stream := u'.stream)
            && (!Overruns(u, e) ==> u'.stream == u.stream + e.data && u'.used == u.used + e.data)
            && (Overruns(u, e) ==>
                  u'.stream == u.stream[..|u.stream| - |u.used|] + (if e.Interrupt? then e.data else []))
  {
    var front := u.delivered + (InHand(u) + u.unused);
    Associative(InHand(u), u.unused, u.used);
    Associative(u.delivered, InHand(u) + u.unused, u.used);
    assert u.stream == front + u.used;
    assert u.stream[..|u.stream| - |u.used|] == front;
    var u' := Next(u, e);
    Associative(InHand(u), u.unused, u'.used);
    Associative(u.delivered, InHand(u) + u.unused, u'.used);
    if !Overruns(u, e) {
      Associative(front, u.used, e.data);
    }
  }

  /** The octets of an arrival find room behind those in the used ring. */
  predicate Fits(u: Uart, e: Event) {
    match e
    case Interrupt(_) => |u.used| < u.capacity
    case RxReady(d) => |u.used| + |d| <= u.capacity
    case _ => true
  }

  /**
   What an arrival does. The interrupt backend empties a ring that is full and stores behind any other; the
   asynchronous one stores a block that fits, and empties the ring and drops the block when it does not.
   */
  lemma ArrivalExact(u: Uart, e: Event)
    requires Good(u) && Enabled(u, e) && (e.Interrupt? || e.RxReady?)
    ensures |u.used| <= |u.stream|
    ensures var u', front := Next(u, e), u.stream[..|u.stream| - |u.used|];
            && (e.Interrupt? && |u.used| < u.capacity ==> u'.used == u.used + e.data && u'.stream == u.stream + e.data)
            && (e.Interrupt? && |u.used| == u.capacity ==> u'.used == e.data && u'.stream == front + e.data)
            && (e.RxReady? && |u.used| + |e.data| <= u.capacity ==>
                  u'.used == u.used + e.data && u'.stream == u.stream + e.data)
            && (e.RxReady? && u.capacity < |u.used| + |e.data| ==> u'.used == [] && u'.stream == front)
  {
    ArrivalKeepsGood(u, e);
  }

  /** Octets are lost exactly when the ring was full, or the block longer than the space behind it. */
  lemma LossExact(u: Uart, e: Event)
    requires Good(u) && Enabled(u, e) && (e.Interrupt? || e.RxReady?) && 0 < u.capacity
    ensures |u.used| <= |u.stream|
    ensures Next(u, e).stream == u.stream + e.data <==>
            if e.Interrupt? then |u.used| != u.capacity else |u.used| + |e.data| <= u.capacity
  {
    ArrivalExact(u, e);
  }

  lemma ReadKeepsGood(u: Uart)
    requires Good(u) && u.pc == ReadUnused
    ensures Good(StepOf(u))
  {
    Move([], u.unused, u.used, Least(u.size, |u.unused|));
    assert [] + Queue(u) == Queue(u);
  }

  lemma PreviousKeepsGood(u: Uart)
    requires Good(u) && u.pc == ReadPrevious
    ensures Good(StepOf(u))
  {
    var n := Least(u.size - |u.out|, |u.unused|);
    Move(u.out, u.unused, u.used, n);
    Associative(u.delivered, u.out + u.unused[..n], u.unused[n..] + u.used);
    assert [] + (u.unused[n..] + u.used) == u.unused[n..] + u.used;
  }

  lemma NextKeepsGood(u: Uart, e: Event)
    requires Good(u) && Enabled(u, e)
    ensures |u.used| <= |u.stream| && Good(Next(u, e))
  {
    match e
    case Interrupt(_) => ArrivalKeepsGood(u, e);
    case RxReady(_) => ArrivalKeepsGood(u, e);
    case Call(_) =>
    case Step =>
      match u.pc {
        case ReadUnused => ReadKeepsGood(u);
        case TestEmpty =>
          Associative(u.delivered, u.out, Queue(u));
          assert [] + Queue(u) == Queue(u);
        case Swap => assert [] + u.used == u.used + [];
        case ReadPrevious => PreviousKeepsGood(u);
      }
  }

  // ----- Runs

  ghost predicate Runs(u: Uart, es: seq<Event>, u': Uart)
    decreases |es|
  {
    if es == [] then u' == u
    else Enabled(u, es[0]) && |u.used| <= |u.stream| && Runs(Next(u, es[0]), es[1..], u')
  }

  lemma {:induction false} RunKeepsGood(u: Uart, es: seq<Event>, u': Uart)
    requires Good(u) && Runs(u, es, u')
    ensures Good(u') && u.delivered <= u'.delivered
    decreases |es|
  {
    if es != [] {
      NextKeepsGood(u, es[0]);
      RunKeepsGood(Next(u, es[0]), es[1..], u');
    }
  }

  /** Any interleaving from initialisation: callers received, in arrival order, a prefix of what was not discarded. */
  lemma OneFifo(capacity: nat, es: seq<Event>, u: Uart)
    requires Runs(NewUart(capacity), es, u)
    ensures u.delivered + InHand(u) + Queue(u) == u.stream
  {
    RunKeepsGood(NewUart(capacity), es, u);
    Associative(u.delivered, InHand(u), Queue(u));
  }

  /** The octets that arrived in a run. */
  function Arrivals(es: seq<Event>): seq<byte> {
    if es == [] then []
    else (if es[0].Interrupt? || es[0].RxReady? then es[0].data else []) + Arrivals(es[1..])
  }

  /** Every arrival of the run finds room. */
  ghost predicate AllFit(u: Uart, es: seq<Event>)
    decreases |es|
  {
    es == [] ||
    (Enabled(u, es[0]) && |u.used| <= |u.stream| && Fits(u, es[0]) && AllFit(Next(u, es[0]), es[1..]))
  }

  lemma {:induction false} ArrivalsJoinTheStream(u: Uart, es: seq<Event>, u': Uart)
    requires Good(u) && Runs(u, es, u') && AllFit(u, es)
    ensures u'.stream == u.stream + Arrivals(es)
    decreases |es|
  {
    if es != [] {
      var e := es[0];
      NextKeepsGood(u, e);
      ArrivalsJoinTheStream(Next(u, e), es[1..], u');
      if e.Interrupt? || e.RxReady? {
        ArrivalExact(u, e);
        Associative(u.stream, e.data, Arrivals(es[1..]));
      } else {
        assert [] + Arrivals(es[1..]) == Arrivals(es[1..]);
      }
    }
  }

  /**
   Between any two moments at which no call is under way, whatever calls and interrupts came between and if all
   arrivals found room: what the calls returned and what is still queued is what was queued and what arrived, in order.
   */
  lemma CallsReturnPrefix(u: Uart, es: seq<Event>, u': Uart)
    requires Good(u) && u.pc == Idle && Runs(u, es, u') && u'.pc == Idle && AllFit(u, es)
    ensures u.delivered <= u'.delivered
    ensures u'.delivered[|u.delivered|..] + Queue(u') == Queue(u) + Arrivals(es)
  {
    RunKeepsGood(u, es, u');
    ArrivalsJoinTheStream(u, es, u');
    CutFront(u.delivered, Queue(u), Arrivals(es), u'.delivered, Queue(u'));
  }

  lemma CutFront(a: seq<byte>, b: seq<byte>, c: seq<byte>, d: seq<byte>, e: seq<byte>)
    requires a <= d && d + ([] + e) == a + ([] + b) + c
    ensures d[|a|..] + e == b + c
  {
    assert [] + e == e && [] + b == b;
    assert d == a + d[|a|..];
    Associative(a, d[|a|..], e);
    Associative(a, b, c);
    SameFront(a, d[|a|..] + e, b + c);
  }

  /** The five steps of one call with no interrupt between them. */
  function Undisturbed(u: Uart, size: nat): Uart
    requires u.pc == Idle
  {
    var u1 := StepOf(StepOf(u.(pc := ReadUnused, size := size, out := [])));
    if u1.pc == Idle then u1 else StepOf(StepOf(u1))
  }

  lemma StepKeepsGood(u: Uart)
    requires Good(u) && u.pc != Idle
    ensures Good(StepOf(u))
    ensures StepOf(u).pc == match u.pc
                            case ReadUnused => TestEmpty
                            case TestEmpty => if u.unused == [] then Swap else Idle
                            case Swap => ReadPrevious
                            case ReadPrevious => Idle
  {
    NextKeepsGood(u, Step);
  }

  lemma FirstHalf(u: Uart)
    requires Good(u) && u.pc == ReadUnused
    ensures var u' := StepOf(StepOf(u)); Good(u') && (u'.pc == Idle || u'.pc == Swap)
  {
    StepKeepsGood(u);
    StepKeepsGood(StepOf(u));
  }

  lemma SecondHalf(u: Uart)
    requires Good(u) && u.pc == Swap
    ensures var u' := StepOf(StepOf(u)); Good(u') && u'.pc == Idle
  {
    StepKeepsGood(u);
    StepKeepsGood(StepOf(u));
  }

  lemma UndisturbedIsGood(u: Uart, size: nat)
    requires Good(u) && u.pc == Idle
    ensures Good(Undisturbed(u, size)) && Undisturbed(u, size).pc == Idle
  {
    var u0 := u.(pc := ReadUnused, size := size, out := []);
    FirstHalf(u0);
    var u2 := StepOf(StepOf(u0));
    if u2.pc != Idle {
      SecondHalf(u2);
    }
  }

  /** The unused ring holds more than was asked for. */
  lemma CallWithin(u: Uart, size: nat)
    requires Good(u) && u.pc == Idle && size < |u.unused|
    ensures var u' := Undisturbed(u, size);
            u'.out == Queue(u)[..size] && Queue(u') == Queue(u)[size..] && u'.delivered == u.delivered + u'.out
  {
    TakeFront(u.unused, u.used, size);
  }

  lemma AcrossSteps(u: Uart, size: nat, k: nat)
    requires u.pc == Idle && |u.unused| <= size
    requires k == if size - |u.unused| < |u.used| then size - |u.unused| else |u.used|
    ensures Undisturbed(u, size) ==
            u.(size := size, out := u.unused + u.used[..k], unused := u.used[k..], used := [],
               delivered := u.delivered + (u.unused + u.used[..k]))
  {
    assert u.unused[..|u.unused|] == u.unused && u.unused[|u.unused|..] == [];
    var u2 := u.(pc := TestEmpty, size := size, out := u.unused, unused := []);
    assert StepOf(u.(pc := ReadUnused, size := size, out := [])) == u2;
    assert StepOf(StepOf(u2)) == u2.(pc := ReadPrevious, unused := u.used, used := []);
  }

  /** The call goes on to the other ring. */
  lemma CallAcross(u: Uart, size: nat)
    requires Good(u) && u.pc == Idle && |u.unused| <= size
    ensures var u' := Undisturbed(u, size);
            var n := if size < |Queue(u)| then size else |Queue(u)|;
            u'.out == Queue(u)[..n] && Queue(u') == Queue(u)[n..] && u'.delivered == u.delivered + u'.out
  {
    var k := if size - |u.unused| < |u.used| then size - |u.unused| else |u.used|;
    AcrossSteps(u, size, k);
    TakeAcross(u.unused, u.used, k);
    assert u.unused[..|u.unused|] == u.unused;
  }

  /** Without interrupts a call returns as much of the queue as asked for. */
  lemma UndisturbedCall(u: Uart, size: nat)
    requires Good(u) && u.pc == Idle
    ensures var u' := Undisturbed(u, size);
            var n := if size < |Queue(u)| then size else |Queue(u)|;
            && Good(u') && u'.pc == Idle && u'.out == Queue(u)[..n] && Queue(u') == Queue(u)[n..]
            && u'.delivered == u.delivered + u'.out
  {
    UndisturbedIsGood(u, size);
    if size < |u.unused| {
      CallWithin(u, size);
    } else {
      CallAcross(u, size);
    }
  }

  lemma TakeFront(a: seq<byte>, b: seq<byte>, n: nat)
    requires n <= |a|
    ensures (a + b)[..n] == a[..n] && (a + b)[n..] == a[n..] + b
  {
  }

  lemma TakeAcross(a: seq<byte>, b: seq<byte>, n: nat)
    requires n <= |b|
    ensures (a + b)[..|a| + n] == a[..|a|] + b[..n] && (a + b)[|a| + n..] == b[n..] + []
    ensures a[|a|..] == []
  {
  }
}
