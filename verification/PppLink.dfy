/** Both ends of a PPP link: what the receiver delivers of what the sender accepted. */
module PppLink {
  import opened Crc
  import opened PppFrame
  import opened PppReceive
  import T = PppTransmit

  lemma {:induction false} FeedExtends(r: Receiver, bs: seq<byte>, grants: seq<nat>)
    requires Consistent(r.rx) && |bs| == |grants|
    ensures r.delivered <= Feed(r, bs, grants).delivered
    decreases |bs|
  {
    if bs != [] {
      FeedExtends(Step(r, bs[0], grants[0]), bs[1..], grants[1..]);
    }
  }

  /** Any part of a stream of frames delivers a prefix of the payloads. */
  lemma PartOfStream(r: Receiver, ps: seq<Packet>, part: seq<byte>, rest: seq<byte>, gs: seq<seq<nat>>)
    requires Consistent(r.rx) && Ready(r.rx) && Matching(ps, gs) && forall g <- gs :: Positive(g)
    requires part + rest == Encodes(ps)
    ensures |Flatten(gs)| == |part| + |rest|
    ensures var delivered := Feed(r, part, Flatten(gs)[..|part|]).delivered;
            r.delivered <= delivered <= r.delivered + Payloads(ps) &&
            (rest == [] ==> delivered == r.delivered + Payloads(ps))
  {
    CodecInverse(r, ps, gs);
    var grants := Flatten(gs);
    FeedConcat(r, part, rest, grants);
    FeedExtends(r, part, grants[..|part|]);
    FeedExtends(Feed(r, part, grants[..|part|]), rest, grants[|part|..]);
  }

  lemma PayloadsConcat(ps: seq<Packet>, qs: seq<Packet>)
    ensures Payloads(ps + qs) == Payloads(ps) + Payloads(qs)
  {
  }

  lemma PrefixExtends<T>(d: seq<T>, a: seq<T>, b: seq<T>, c: seq<T>)
    requires d <= a + b
    ensures d <= a + (b + c)
  {
    assert a + (b + c) == a + b + c;
  }

  /**
   Run the sender in any way and feed what the pipe took to a receiver that is between frames and has room: it has
   delivered a prefix of the accepted packets' payloads, and all of them once the sender has nothing left to send.
   */
  lemma EndToEnd(slots: nat, capacity: nat, es: seq<T.Event>, s: T.Sender, r: Receiver, gs: seq<seq<nat>>)
    requires 0 < capacity && T.Runs(T.NewSender(slots, capacity), es, s)
    requires Consistent(r.rx) && Ready(r.rx) && Matching(s.taken, gs) && forall g <- gs :: Positive(g)
    ensures T.Held(s) && |s.wire| <= |Flatten(gs)|
    ensures var delivered := Feed(r, s.wire, Flatten(gs)[..|s.wire|]).delivered;
            r.delivered <= delivered <= r.delivered + Payloads(s.accepted) &&
            (T.Backlog(s) == 0 ==> delivered == r.delivered + Payloads(s.accepted))
  {
    T.TransmitStream(slots, capacity, es, s);
    PartOfStream(r, s.taken, s.wire, s.ring + T.Pending(s), gs);
    PayloadsConcat(s.taken, s.queue);
    var delivered := Feed(r, s.wire, Flatten(gs)[..|s.wire|]).delivered;
    PrefixExtends(delivered, r.delivered, Payloads(s.taken), Payloads(s.queue));
    if T.Backlog(s) == 0 {
      T.EncodesLonger(s.queue);
      assert s.taken == s.accepted;
    }
  }
}
