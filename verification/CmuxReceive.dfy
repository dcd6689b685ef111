/**
 The receiver of the multiplexer: one octet at a time, from flag to flag.

 `Step` is the transition the octet handler makes; `Feed` folds it over a stream and keeps
 the frames dispatched and the number of times the resynchronisation flags were sent.
 */
module CmuxReceive {
  import opened Crc
  import opened CmuxFrame

  datatype RxState =
    | Sof | Resync0 | Resync1 | Resync2 | Resync3
    | Address | AddressCont | Control | Length | LengthCont | Data | Fcs | Drop | Eof
    | Fault // undefined behaviour: the check sequence was taken over a null data pointer

  /**
   `header` and `data` are the octets stored in the frame header and in the receive buffer,
   `length` is the declared length and `dataSet` says that the frame's data pointer was ever set.
   */
  datatype Rx = Rx(state: RxState, header: seq<byte>, address: byte, cr: bool, pf: bool, kind: byte,
                   length: nat, data: seq<byte>, dataSet: bool)

  const INITIAL := Rx(Sof, [], 0, false, false, 0, 0, [], false)

  /** A dispatched frame: `frame.data` is what was stored, `length` what was declared. */
  datatype Received = Received(frame: Frame, length: nat)

  datatype Action = Nothing | SendResync | Dispatch(received: Received)

  function BeginFrame(s: Rx, b: byte): Rx {
    s.(state := Control, data := [], header := [b], cr := CrOf(b), address := AddressOf(b))
  }

  /** Other frames than UIH are checked over the frame's data pointer, set or not. */
  function Checked(s: Rx, agrees: bool): Rx {
    s.(state := if s.kind != UIH && s.length > 0 && !s.dataSet then Fault else if agrees then Eof else Drop)
  }

  function Step(s: Rx, size: nat, b: byte): (Rx, Action) {
    match s.state
    case Sof =>
      if b == FLAG then (s.(state := Address), Nothing) else (s.(state := Resync0), SendResync)
    case Resync0 =>
      (if b == FLAG then s.(state := Resync1) else s, Nothing)
    case Resync1 =>
      (s.(state := if b == FLAG then Resync2 else Resync0), Nothing)
    case Resync2 =>
      (s.(state := if b == FLAG then Resync3 else Resync0), Nothing)
    case Resync3 =>
      (if b == FLAG then s else BeginFrame(s, b), Nothing)
    case Address =>
      (BeginFrame(s, b), Nothing)
    case Control =>
      (s.(state := Length, header := s.header + [b], pf := PfOf(b), kind := KindOf(b)), Nothing)
    case Length =>
      var n := FirstLength(b);
      var next := if !LastLengthOctet(b) then LengthCont else if n == 0 then Fcs else Data;
      (s.(state := next, header := s.header + [b], length := n), Nothing)
    case LengthCont =>
      (s.(state := Data, header := s.header + [b], length := FullLength(s.length, b)), Nothing)
    case Data =>
      var data := s.data + [b];
      var next := if |data| == s.length then Fcs else if |data| == size then Eof else Data;
      (s.(state := next, data := data), Nothing)
    case Fcs =>
      (Checked(s, b == CheckOctet(s.kind, s.header, s.data)), Nothing)
    case Drop =>
      (s.(state := Sof), Nothing)
    case Eof =>
      if b != FLAG then (s.(state := Sof), Nothing)
      else (s.(state := Sof, dataSet := true), Dispatch(ReceivedOf(s)))
    case AddressCont => (s, Nothing)
    case Fault => (s, Nothing)
  }

  function ReceivedOf(s: Rx): Received {
    Received(Frame(s.address, s.cr, s.pf, s.kind, s.data), s.length)
  }

  datatype Receiver = Receiver(rx: Rx, frames: seq<Received>, resyncs: nat)

  function FeedByte(r: Receiver, size: nat, b: byte): Receiver {
    var (rx, action) := Step(r.rx, size, b);
    match action
    case Nothing => r.(rx := rx)
    case SendResync => r.(rx := rx, resyncs := r.resyncs + 1)
    case Dispatch(f) => r.(rx := rx, frames := r.frames + [f])
  }

  function Feed(r: Receiver, size: nat, bs: seq<byte>): Receiver
    decreases |bs|
  {
    if bs == [] then r else Feed(FeedByte(r, size, bs[0]), size, bs[1..])
  }

  /** Chunking does not matter. */
  lemma {:induction false} FeedConcat(r: Receiver, size: nat, a: seq<byte>, b: seq<byte>)
    ensures Feed(r, size, a + b) == Feed(Feed(r, size, a), size, b)
    decreases |a|
  {
    if a == [] {
      assert a + b == b;
    } else {
      assert (a + b)[0] == a[0] && (a + b)[1..] == a[1..] + b;
      FeedConcat(FeedByte(r, size, a[0]), size, a[1..], b);
    }
  }

  lemma {:induction false} FeedExtends(r: Receiver, size: nat, bs: seq<byte>)
    ensures r.frames <= Feed(r, size, bs).frames
    decreases |bs|
  {
    if bs != [] {
      FeedExtends(FeedByte(r, size, bs[0]), size, bs[1..]);
    }
  }

  lemma FeedOne(r: Receiver, size: nat, b: byte)
    ensures Feed(r, size, [b]) == FeedByte(r, size, b)
  {
    assert [b][1..] == [];
  }

  lemma FeedTwo(r: Receiver, size: nat, b: byte, c: byte)
    ensures Feed(r, size, [b, c]) == FeedByte(FeedByte(r, size, b), size, c)
  {
    assert [b, c] == [b] + [c];
    FeedConcat(r, size, [b], [c]);
    FeedOne(r, size, b);
    FeedOne(FeedByte(r, size, b), size, c);
  }

  // ----- One frame

  /** Where a frame may begin: behind a flag, or behind the flags of a resynchronisation. */
  predicate AtStart(rx: Rx, address: byte) {
    rx.state == Sof || (rx.state == Resync3 && address != FLAG)
  }

  /** The receiver after a flag and a whole header. */
  function Headed(rx: Rx, h: seq<byte>): Rx
    requires WholeHeader(h)
  {
    var f := FrameOf(h, []);
    Rx(if |h| == 3 && LengthOf(h) == 0 then Fcs else Data,
       h, f.address, f.cr, f.pf, f.kind, LengthOf(h), [], rx.dataSet)
  }

  lemma AddressFed(r: Receiver, size: nat, a: byte, c: byte)
    requires AtStart(r.rx, a)
    ensures Feed(r, size, [FLAG, a, c]) ==
            r.(rx := Rx(Length, [a, c], AddressOf(a), CrOf(a), PfOf(c), KindOf(c), r.rx.length, [], r.rx.dataSet))
  {
    var r1 := FeedByte(r, size, FLAG);
    var r2 := FeedByte(r1, size, a);
    assert [FLAG, a, c] == [FLAG, a] + [c];
    FeedConcat(r, size, [FLAG, a], [c]);
    assert r2 == r.(rx := BeginFrame(r.rx.(state := Address), a));
    FeedTwo(r, size, FLAG, a);
    FeedOne(r2, size, c);
    assert [a] + [c] == [a, c];
  }

  lemma HeaderFed(r: Receiver, size: nat, h: seq<byte>)
    requires WholeHeader(h) && AtStart(r.rx, h[0])
    ensures Feed(r, size, [FLAG] + h) == r.(rx := Headed(r.rx, h))
  {
    AddressFed(r, size, h[0], h[1]);
    FeedConcat(r, size, [FLAG, h[0], h[1]], h[2..]);
    LengthFed(Feed(r, size, [FLAG, h[0], h[1]]), size, h);
    assert [FLAG] + h == [FLAG, h[0], h[1]] + h[2..];
  }

  lemma LengthFed(r: Receiver, size: nat, h: seq<byte>)
    requires WholeHeader(h) && r.rx.state == Length && r.rx.header == h[..2]
    ensures Feed(r, size, h[2..]) ==
            r.(rx := r.rx.(state := if |h| == 3 && LengthOf(h) == 0 then Fcs else Data,
                           header := h, length := LengthOf(h)))
  {
    var r1 := FeedByte(r, size, h[2]);
    assert r1.rx.header == h[..3];
    if |h| == 3 {
      assert h[2..] == [h[2]];
      FeedOne(r, size, h[2]);
      assert h[..3] == h;
    } else {
      assert h[2..] == [h[2], h[3]];
      FeedTwo(r, size, h[2], h[3]);
      assert h[..3] + [h[3]] == h;
    }
  }

  /** Data octets inside the receive buffer, up to the declared length or under a declared length of zero. */
  lemma {:induction false} DataFed(r: Receiver, size: nat, d: seq<byte>)
    requires r.rx.state == Data && d != []
    requires |r.rx.data| + |d| <= size && (r.rx.length == 0 || |r.rx.data| + |d| <= r.rx.length)
    ensures Feed(r, size, d) == r.(rx := r.rx.(data := r.rx.data + d,
                                   state := if |r.rx.data| + |d| == r.rx.length then Fcs
                                            else if |r.rx.data| + |d| == size then Eof else Data))
    decreases |d|
  {
    var r' := FeedByte(r, size, d[0]);
    if d[1..] == [] {
      assert d == [d[0]];
    } else {
      DataFed(r', size, d[1..]);
      assert r'.rx.data + d[1..] == r.rx.data + d;
    }
  }

  lemma BodyFed(r: Receiver, size: nat, h: seq<byte>, data: seq<byte>)
    requires WholeHeader(h) && AtStart(r.rx, h[0])
    requires LengthOf(h) == |data| <= size && (|h| == 4 ==> data != [])
    ensures Feed(r, size, [FLAG] + h + data) == r.(rx := Headed(r.rx, h).(data := data, state := Fcs))
  {
    HeaderFed(r, size, h);
    FeedConcat(r, size, [FLAG] + h, data);
    if data == [] {
      assert [FLAG] + h + data == [FLAG] + h;
    } else {
      DataFed(r.(rx := Headed(r.rx, h)), size, data);
      assert [] + data == data;
    }
  }

  /** What the check octet and the closing flag make of a frame read so far. */
  lemma CloseFed(r: Receiver, size: nat, check: byte)
    requires r.rx.state == Fcs && (r.rx.kind == UIH || r.rx.length == 0 || r.rx.dataSet)
    ensures var r' := Feed(r, size, [check, FLAG]);
            var right := check == CheckOctet(r.rx.kind, r.rx.header, r.rx.data);
            r'.rx.state == Sof && r'.resyncs == r.resyncs && r'.rx.dataSet == (r.rx.dataSet || right) &&
            r'.frames == r.frames + if right then [ReceivedOf(r.rx)] else []
  {
    var right := check == CheckOctet(r.rx.kind, r.rx.header, r.rx.data);
    var r1 := r.(rx := r.rx.(state := if right then Eof else Drop));
    assert FeedByte(r, size, check) == r1;
    FeedTwo(r, size, check, FLAG);
    if right {
      assert FeedByte(r1, size, FLAG).frames == r.frames + [ReceivedOf(r.rx)];
    }
  }

  /** The frame's check does not run over a data pointer that was never set. */
  predicate Pointed(rx: Rx, f: Frame) {
    f.kind == UIH || f.data == [] || rx.dataSet
  }

  /**
   A frame as it stands on the wire, whatever wrote it, is dispatched when its check octet is right and
   dropped without a trace when it is wrong.
   */
  lemma WireFed(r: Receiver, size: nat, h: seq<byte>, data: seq<byte>, check: byte)
    requires WholeHeader(h) && AtStart(r.rx, h[0])
    requires LengthOf(h) == |data| <= size && (|h| == 4 ==> data != [])
    requires Pointed(r.rx, FrameOf(h, data))
    ensures var r' := Feed(r, size, Wire(h, data, check));
            var right := check == CheckOctet(KindOf(h[1]), h, data);
            r'.rx.state == Sof && r'.resyncs == r.resyncs && r'.rx.dataSet == (r.rx.dataSet || right) &&
            r'.frames == r.frames + if right then [Received(FrameOf(h, data), |data|)] else []
  {
    BodyFed(r, size, h, data);
    FeedConcat(r, size, [FLAG] + h + data, [check, FLAG]);
    CloseFed(Feed(r, size, [FLAG] + h + data), size, check);
  }

  // ----- Round trips

  /** What a peer with a receive buffer of `size` octets reads back. */
  predicate Decodable(f: Frame, size: nat) {
    Readable(f) && LengthSurvives(|f.data|) && |f.data| <= size
  }

  lemma FrameRoundTrip(r: Receiver, size: nat, f: Frame)
    requires AtStart(r.rx, AddressOctet(f)) && Decodable(f, size) && Pointed(r.rx, f)
    ensures var r' := Feed(r, size, Encode(f));
            && r'.rx.state == Sof && r'.rx.dataSet && r'.resyncs == r.resyncs
            && r'.frames == r.frames + [Received(f, |f.data|)]
  {
    HeaderRoundTrip(f);
    WireFed(r, size, Header(f), f.data, CheckOctet(f.kind, Header(f), f.data));
  }

  function Whole(fs: seq<Frame>): (r: seq<Received>)
    ensures |r| == |fs| && forall i | 0 <= i < |fs| :: r[i] == Received(fs[i], |fs[i].data|)
  {
    seq(|fs|, i requires 0 <= i < |fs| => Received(fs[i], |fs[i].data|))
  }

  lemma WholeCons(fs: seq<Frame>, rs: seq<Received>)
    requires fs != []
    ensures rs + Whole(fs) == rs + [Received(fs[0], |fs[0].data|)] + Whole(fs[1..])
  {
  }

  /**
   The decoder inverts the encoder on every list of frames, of whatever type and with whatever data, without a
   resynchronisation; only the first of them may meet the data pointer unset.
   */
  lemma {:induction false} FramesRoundTrip(r: Receiver, size: nat, fs: seq<Frame>)
    requires fs != [] ==> AtStart(r.rx, AddressOctet(fs[0])) && Pointed(r.rx, fs[0])
    requires forall f <- fs :: Decodable(f, size)
    ensures var r' := Feed(r, size, Encodes(fs));
            (fs != [] ==> r'.rx.state == Sof) && r'.resyncs == r.resyncs && r'.frames == r.frames + Whole(fs)
    decreases |fs|
  {
    if fs != [] {
      var f, rest := fs[0], fs[1..];
      FrameRoundTrip(r, size, f);
      FeedConcat(r, size, Encode(f), Encodes(rest));
      var r1 := Feed(r, size, Encode(f));
      FramesRoundTrip(r1, size, rest);
      WholeCons(fs, r.frames);
    }
  }

  /** Once the null pointer was used, nothing is received any more. */
  lemma {:induction false} FaultStays(r: Receiver, size: nat, bs: seq<byte>)
    requires r.rx.state == Fault
    ensures Feed(r, size, bs) == r
    decreases |bs|
  {
    if bs != [] {
      assert FeedByte(r, size, bs[0]) == r;
      FaultStays(r, size, bs[1..]);
    }
  }

  /** A frame with data other than UIH, sent before any frame was dispatched, is checked over the null pointer. */
  lemma FaultReached(r: Receiver, size: nat, f: Frame)
    requires AtStart(r.rx, AddressOctet(f)) && Decodable(f, size) && !Pointed(r.rx, f)
    ensures var r' := Feed(r, size, Encode(f));
            r'.rx.state == Fault && r'.frames == r.frames
  {
    var h, check := Header(f), CheckOctet(f.kind, Header(f), f.data);
    HeaderRoundTrip(f);
    BodyFed(r, size, h, f.data);
    FeedConcat(r, size, [FLAG] + h + f.data, [check, FLAG]);
    var r1 := Feed(r, size, [FLAG] + h + f.data);
    FeedTwo(r1, size, check, FLAG);
  }

  /** The frames a decoder between frames reads back are exactly those whose data pointer its check does not miss. */
  lemma FrameDispatchedExact(r: Receiver, size: nat, f: Frame)
    requires AtStart(r.rx, AddressOctet(f)) && Decodable(f, size)
    ensures Feed(r, size, Encode(f)).frames == r.frames + [Received(f, |f.data|)] <==>
            f.kind == UIH || f.data == [] || r.rx.dataSet
  {
    if Pointed(r.rx, f) {
      FrameRoundTrip(r, size, f);
    } else {
      FaultReached(r, size, f);
      assert |r.frames| != |r.frames + [Received(f, |f.data|)]|;
    }
  }

  /** One octet dispatches at most one frame, the one read so far. */
  lemma StepDispatches(r: Receiver, size: nat, b: byte)
    ensures var r' := FeedByte(r, size, b);
            r'.frames == r.frames || (r'.frames == r.frames + [ReceivedOf(r.rx)] && r'.rx.state == Sof)
  {
  }

  lemma TailFed(r: Receiver, size: nat, check: byte)
    requires r.rx.state == Data || r.rx.state == Eof
    requires |r.rx.data| + 2 < r.rx.length
    ensures var r' := Feed(r, size, [check, FLAG]);
            r'.frames == r.frames ||
            exists x: Received :: r'.frames == r.frames + [x] && x.length == r.rx.length
  {
    var r1 := FeedByte(r, size, check);
    assert r1.frames == r.frames || r1.rx.state == Sof;
    assert r1.rx.length == r.rx.length;
    FeedTwo(r, size, check, FLAG);
    StepDispatches(r, size, check);
    StepDispatches(r1, size, FLAG);
    if r1.rx.state == Sof {
      assert FeedByte(r1, size, FLAG).frames == r1.frames;
    }
  }

  /** A length that does not survive makes the receiver wait for 128 octets too many. */
  lemma LostFrame(r: Receiver, size: nat, f: Frame)
    requires r.rx.state == Sof && Readable(f) && f.kind == UIH && |f.data| <= size
    requires !LengthSurvives(|f.data|)
    ensures var r' := Feed(r, size, Encode(f));
            r'.frames == r.frames ||
            exists x: Received :: r'.frames == r.frames + [x] && x.length == |f.data| + 128
  {
    var h, check := Header(f), CheckOctet(f.kind, Header(f), f.data);
    HeaderRoundTrip(f);
    HeaderFed(r, size, h);
    var r1 := r.(rx := Headed(r.rx, h));
    FeedConcat(r, size, [FLAG] + h, f.data);
    DataFed(r1, size, f.data);
    FeedConcat(r, size, [FLAG] + h + f.data, [check, FLAG]);
    TailFed(Feed(r1, size, f.data), size, check);
  }

  /** A UIH frame that fits comes back as itself exactly when its length survives. */
  lemma FrameRoundTripExact(r: Receiver, size: nat, f: Frame)
    requires r.rx.state == Sof && Readable(f) && f.kind == UIH && |f.data| <= size
    ensures Feed(r, size, Encode(f)).frames == r.frames + [Received(f, |f.data|)] <==> LengthSurvives(|f.data|)
  {
    if LengthSurvives(|f.data|) {
      FrameRoundTrip(r, size, f);
    } else {
      LostFrame(r, size, f);
      assert Received(f, |f.data|) == (r.frames + [Received(f, |f.data|)])[|r.frames|];
    }
  }
}
