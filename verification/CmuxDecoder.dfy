/** What the receiver guarantees on damaged, truncated and arbitrary streams. */
module CmuxDecoder {
  import opened Crc
  import opened CmuxFrame
  import opened CmuxReceive

  // ----- Damaged frames

  lemma CheckSeesHeader(h: seq<byte>, data: seq<byte>, k: nat, b: byte)
    requires k < |h| && b != h[k]
    ensures CheckOctet(UIH, h[k := b], data) != CheckOctet(UIH, h, data)
  {
    Crc8DetectsOneOctet(FCS_INIT, h, k, b);
    Complement(Crc8(FCS_INIT, h[k := b]), Crc8(FCS_INIT, h));
  }

  lemma Complement(c: bv8, d: bv8)
    ensures 0xFF - c == 0xFF - d ==> c == d
  {
  }

  /** The one-octet alterations of a UIH frame that leave its type and its length field alone. */
  predicate Alters(f: Frame, k: nat, b: byte) {
    var e := Encode(f);
    k < |e| && b != e[k] && (k == 1 || (k == 2 && b == e[k] ^ 0x10) || k == |e| - 2)
  }

  lemma HeaderAltered(r: Receiver, size: nat, f: Frame, k: nat, b: byte)
    requires r.rx.state == Sof && f.kind == UIH && Decodable(f, size)
    requires k < 2 && b != Header(f)[k] && (k == 1 ==> b == Header(f)[k] ^ 0x10)
    ensures var h := Header(f);
            var r' := Feed(r, size, Wire(h[k := b], f.data, CheckOctet(UIH, h, f.data)));
            r'.rx.state == Sof && r'.resyncs == r.resyncs && r'.frames == r.frames && r'.rx.dataSet == r.rx.dataSet
  {
    var h := Header(f);
    HeaderRoundTrip(f);
    PfIsNotKind(h[1]);
    CheckSeesHeader(h, f.data, k, b);
    assert KindOf(h[k := b][1]) == UIH;
    assert LengthOf(h[k := b]) == LengthOf(h);
    WireFed(r, size, h[k := b], f.data, CheckOctet(UIH, h, f.data));
  }

  lemma OneFrameAltered(r: Receiver, size: nat, f: Frame, k: nat, b: byte)
    requires r.rx.state == Sof && f.kind == UIH && Decodable(f, size) && Alters(f, k, b)
    ensures var r' := Feed(r, size, Encode(f)[k := b]);
            r'.rx.state == Sof && r'.resyncs == r.resyncs && r'.frames == r.frames && r'.rx.dataSet == r.rx.dataSet
  {
    var h, check := Header(f), CheckOctet(UIH, Header(f), f.data);
    assert Encode(f) == Wire(h, f.data, check);
    WireUpdate(h, f.data, check, k, b);
    if k == |Encode(f)| - 2 {
      WrongCheckDropped(r, size, f, b);
    } else {
      HeaderAltered(r, size, f, k - 1, b);
    }
  }

  lemma WireUpdate(h: seq<byte>, data: seq<byte>, check: byte, k: nat, b: byte)
    requires |h| >= 2 && (1 <= k <= 2 || k == |Wire(h, data, check)| - 2)
    ensures var w := Wire(h, data, check);
            if k <= 2 then w[k] == h[k - 1] && w[k := b] == Wire(h[k - 1 := b], data, check)
            else w[k] == check && w[k := b] == Wire(h, data, b)
  {
  }

  /** A UIH frame altered in its address, its P/F bit or its check octet is dropped, and nothing after it suffers. */
  lemma AlterationDetected(r: Receiver, size: nat, f: Frame, k: nat, b: byte, fs: seq<Frame>)
    requires r.rx.state == Sof && f.kind == UIH && Decodable(f, size) && Alters(f, k, b)
    requires (forall g <- fs :: Decodable(g, size)) && (fs != [] ==> Pointed(r.rx, fs[0]))
    ensures var r' := Feed(r, size, Encode(f)[k := b] + Encodes(fs));
            r'.rx.state == Sof && r'.resyncs == r.resyncs && r'.frames == r.frames + Whole(fs)
  {
    OneFrameAltered(r, size, f, k, b);
    var w := Encode(f)[k := b];
    FeedConcat(r, size, w, Encodes(fs));
    FramesRoundTrip(Feed(r, size, w), size, fs);
  }

  lemma PfIsNotKind(b: byte)
    ensures KindOf(b ^ 0x10) == KindOf(b)
  {
  }

  /** A wrong check octet costs one frame. */
  lemma WrongCheckCostsOneFrame(r: Receiver, size: nat, f: Frame, check: byte, fs: seq<Frame>)
    requires r.rx.state == Sof && Decodable(f, size) && check != CheckOctet(f.kind, Header(f), f.data)
    requires Pointed(r.rx, f) && (forall g <- fs :: Decodable(g, size)) && (fs != [] ==> Pointed(r.rx, fs[0]))
    ensures var r' := Feed(r, size, Wire(Header(f), f.data, check) + Encodes(fs));
            r'.rx.state == Sof && r'.resyncs == r.resyncs && r'.frames == r.frames + Whole(fs)
  {
    var w := Wire(Header(f), f.data, check);
    WrongCheckDropped(r, size, f, check);
    FeedConcat(r, size, w, Encodes(fs));
    FramesRoundTrip(Feed(r, size, w), size, fs);
  }

  lemma WrongCheckDropped(r: Receiver, size: nat, f: Frame, check: byte)
    requires r.rx.state == Sof && Decodable(f, size) && check != CheckOctet(f.kind, Header(f), f.data)
    requires Pointed(r.rx, f)
    ensures var r' := Feed(r, size, Wire(Header(f), f.data, check));
            r'.rx.state == Sof && r'.resyncs == r.resyncs && r'.frames == r.frames && r'.rx.dataSet == r.rx.dataSet
  {
    HeaderRoundTrip(f);
    WireFed(r, size, Header(f), f.data, check);
  }

  // ----- Resynchronisation

  /** A frame that does not end with a flag is dropped without a trace, whatever its check octet. */
  lemma MissingFlagCostsOneFrame(r: Receiver, size: nat, h: seq<byte>, data: seq<byte>, check: byte, b: byte)
    requires WholeHeader(h) && AtStart(r.rx, h[0]) && b != FLAG
    requires LengthOf(h) == |data| <= size && (|h| == 4 ==> data != [])
    requires Pointed(r.rx, FrameOf(h, data))
    ensures var r' := Feed(r, size, [FLAG] + h + data + [check, b]);
            r'.rx.state == Sof && r'.frames == r.frames && r'.resyncs == r.resyncs && r'.rx.dataSet == r.rx.dataSet
  {
    BodyFed(r, size, h, data);
    FeedConcat(r, size, [FLAG] + h + data, [check, b]);
    NotClosed(Feed(r, size, [FLAG] + h + data), size, check, b);
  }

  lemma NotClosed(r: Receiver, size: nat, check: byte, b: byte)
    requires r.rx.state == Fcs && (r.rx.kind == UIH || r.rx.length == 0 || r.rx.dataSet) && b != FLAG
    ensures var r' := Feed(r, size, [check, b]);
            r'.rx.state == Sof && r'.frames == r.frames && r'.resyncs == r.resyncs && r'.rx.dataSet == r.rx.dataSet
  {
    var right := check == CheckOctet(r.rx.kind, r.rx.header, r.rx.data);
    assert FeedByte(r, size, check) == r.(rx := r.rx.(state := if right then Eof else Drop));
    FeedTwo(r, size, check, b);
  }

  /** The resynchronisation flags are asked for exactly when something else than a flag is heard between frames. */
  lemma ResyncExact(r: Receiver, size: nat, b: byte)
    ensures FeedByte(r, size, b).resyncs == r.resyncs + if r.rx.state == Sof && b != 0xF9 then 1 else 0
  {
  }

  predicate NoTripleFlag(g: seq<byte>) {
    forall i | 0 <= i < |g| - 2 :: g[i] != FLAG || g[i + 1] != FLAG || g[i + 2] != FLAG
  }

  /** The flags at the end of a stream. */
  function TrailingFlags(g: seq<byte>): nat {
    if g == [] || g[|g| - 1] != FLAG then 0 else TrailingFlags(g[..|g| - 1]) + 1
  }

  function Resyncing(n: nat): RxState {
    if n == 0 then Resync0 else if n == 1 then Resync1 else if n == 2 then Resync2 else Resync3
  }

  lemma TrailingBelowThree(g: seq<byte>)
    requires NoTripleFlag(g)
    ensures TrailingFlags(g) < 3
  {
    var n := |g|;
    if n >= 2 && g[n - 1] == FLAG {
      var g1 := g[..n - 1];
      if g1[n - 2] == FLAG {
        var g2 := g1[..n - 2];
        assert n >= 3 ==> g[n - 3] != FLAG && g2[n - 3] == g[n - 3];
        assert TrailingFlags(g2) == 0;
      }
      assert TrailingFlags(g1) <= 1;
    }
  }

  lemma ResyncStep(r: Receiver, size: nat, n: nat, b: byte)
    requires n < 3 && r.rx.state == Resyncing(n)
    ensures FeedByte(r, size, b) == r.(rx := r.rx.(state := Resyncing(if b == FLAG then n + 1 else 0)))
  {
  }

  lemma TrailingSnoc(p: seq<byte>, b: byte)
    requires NoTripleFlag(p + [b])
    ensures NoTripleFlag(p)
    ensures TrailingFlags(p + [b]) == if b == FLAG then TrailingFlags(p) + 1 else 0
  {
    var g := p + [b];
    assert g[..|p|] == p && g[|p|] == b;
    forall i | 0 <= i < |p| - 2 ensures p[i] != FLAG || p[i + 1] != FLAG || p[i + 2] != FLAG {
      assert g[i] == p[i] && g[i + 1] == p[i + 1] && g[i + 2] == p[i + 2];
    }
  }

  lemma {:induction false} GarbageFed(r: Receiver, size: nat, b: byte, g: seq<byte>)
    requires r.rx.state == Sof && b != FLAG && NoTripleFlag([b] + g)
    ensures Feed(r, size, [b] + g) ==
            r.(rx := r.rx.(state := Resyncing(TrailingFlags([b] + g))), resyncs := r.resyncs + 1)
    decreases |g|
  {
    if g == [] {
      assert [b] + g == [b];
      FeedOne(r, size, b);
    } else {
      var p, c := g[..|g| - 1], g[|g| - 1];
      assert [b] + g == ([b] + p) + [c];
      TrailingSnoc([b] + p, c);
      GarbageFed(r, size, b, p);
      FeedConcat(r, size, [b] + p, [c]);
      var n := TrailingFlags([b] + p);
      var r1 := r.(rx := r.rx.(state := Resyncing(n)), resyncs := r.resyncs + 1);
      FeedOne(r1, size, c);
      TrailingBelowThree([b] + p);
      ResyncStep(r1, size, n, c);
    }
  }

  lemma ThreeFlagsFed(r: Receiver, size: nat, n: nat)
    requires r.rx.state == Resyncing(n)
    ensures Feed(r, size, [FLAG, FLAG, FLAG]) == r.(rx := r.rx.(state := Resync3))
  {
    var r1 := FeedByte(r, size, FLAG);
    assert r1 == r.(rx := r.rx.(state := Resyncing(n + 1)));
    var r2 := FeedByte(r1, size, FLAG);
    assert r2 == r.(rx := r.rx.(state := Resyncing(n + 2)));
    assert [FLAG, FLAG, FLAG] == [FLAG, FLAG] + [FLAG];
    FeedConcat(r, size, [FLAG, FLAG], [FLAG]);
    FeedTwo(r, size, FLAG, FLAG);
    FeedOne(r2, size, FLAG);
  }

  /** Any garbage, then three flags, then frames: the flags are asked for once and every frame arrives. */
  lemma Recovery(r: Receiver, size: nat, g: seq<byte>, fs: seq<Frame>)
    requires r.rx.state == Sof && g != [] && g[0] != FLAG && NoTripleFlag(g)
    requires fs != [] ==> AddressOctet(fs[0]) != FLAG && Pointed(r.rx, fs[0])
    requires forall f <- fs :: Decodable(f, size)
    ensures var r' := Feed(r, size, g + [FLAG, FLAG, FLAG] + Encodes(fs));
            r'.resyncs == r.resyncs + 1 && r'.frames == r.frames + Whole(fs)
  {
    assert g == [g[0]] + g[1..];
    GarbageFed(r, size, g[0], g[1..]);
    var r1 := Feed(r, size, g);
    FeedConcat(r, size, g, [FLAG, FLAG, FLAG]);
    ThreeFlagsFed(r1, size, TrailingFlags(g));
    var r2 := Feed(r1, size, [FLAG, FLAG, FLAG]);
    FeedConcat(r, size, g + [FLAG, FLAG, FLAG], Encodes(fs));
    FramesRoundTrip(r2, size, fs);
  }

  // ----- How many octets a dispatch takes

  /** Header, data, check octet and flag of a dispatched record whose lengths agree. */
  function OctetsOf(x: Received): nat {
    |x.frame.data| + if |x.frame.data| <= 127 then 5 else 6
  }

  /** The receiver took at most the last `n` octets for the frame it is in. */
  predicate Paced(s: Rx, n: nat) {
    match s.state
    case Control => |s.header| == 1 && s.data == [] && 1 <= n
    case Length => |s.header| == 2 && s.data == [] && 2 <= n
    case LengthCont => |s.header| == 3 && s.data == [] && 3 <= n
    case Data => PacedBody(s, n)
    case Fcs => PacedBody(s, n)
    case Eof => PacedBody(s, n) && (|s.data| == s.length ==> |s.header| + |s.data| < n)
    case _ => true
  }

  predicate PacedBody(s: Rx, n: nat) {
    |s.header| + |s.data| <= n && 3 <= |s.header| && (|s.header| == 3 ==> s.length <= 127)
  }

  lemma PacedStep(s: Rx, size: nat, b: byte, n: nat)
    requires Paced(s, n)
    ensures var (s', action) := Step(s, size, b);
            && Paced(s', n + 1)
            && (action.Dispatch? && action.received.length == |action.received.frame.data| ==>
                  OctetsOf(action.received) <= n + 1)
  {
    if s.state == Length {
      ShortFirstLength(b);
    }
  }

  lemma ShortFirstLength(b: byte)
    ensures FirstLength(b) <= 127
  {
    ValueAsNat(b);
  }

  /** A receiver between frames dispatches no record in fewer octets than the record's own. */
  lemma {:induction false} DispatchTakesOctets(r: Receiver, size: nat, bs: seq<byte>, n: nat, k: nat)
    requires Paced(r.rx, n) && |r.frames| <= k < |Feed(r, size, bs).frames|
    ensures var x := Feed(r, size, bs).frames[k];
            x.length == |x.frame.data| ==> OctetsOf(x) <= n + |bs|
    decreases |bs|
  {
    if bs != [] {
      var r1 := FeedByte(r, size, bs[0]);
      PacedStep(r.rx, size, bs[0], n);
      if |r1.frames| <= k {
        DispatchTakesOctets(r1, size, bs[1..], n + 1, k);
      } else {
        FeedExtends(r1, size, bs[1..]);
      }
    }
  }

  // ----- The flags of a resynchronisation

  /** The excluded address: DLCI 62 with C/R 0, whose address octet is the flag itself. */
  lemma FlagAddress(f: Frame)
    requires f.address < 64
    ensures AddressOctet(f) == FLAG <==> f.address == 62 && !f.cr
  {
  }

  lemma EncodeIs(f: Frame)
    ensures |Encode(f)| == |f.data| + |Header(f)| + 3
    ensures Encode(f)[0] == FLAG && Encode(f)[1] == AddressOctet(f)
  {
  }

  lemma FlagsIgnored(r: Receiver, size: nat)
    requires r.rx.state == Resync3
    ensures Feed(r, size, [FLAG, FLAG]) == r
  {
    assert FeedByte(r, size, FLAG) == r;
    FeedTwo(r, size, FLAG, FLAG);
  }

  /**
   Behind the flags of a resynchronisation a frame is dispatched exactly when its address octet is not the flag: the
   decoder would take that for one flag more, begin one octet late, and have too few octets left.
   */
  lemma ResynchronisedExact(r: Receiver, size: nat, f: Frame)
    requires r.rx.state == Resync3 && Decodable(f, size) && Pointed(r.rx, f)
    ensures Feed(r, size, Encode(f)).frames == r.frames + [Received(f, |f.data|)] <==> AddressOctet(f) != FLAG
  {
    if AddressOctet(f) != FLAG {
      FrameRoundTrip(r, size, f);
    } else {
      var x := Received(f, |f.data|);
      EncodeIs(f);
      var rest := Encode(f)[2..];
      assert Encode(f) == [FLAG, FLAG] + rest;
      FeedConcat(r, size, [FLAG, FLAG], rest);
      FlagsIgnored(r, size);
      assert (r.frames + [x])[|r.frames|] == x;
      if Feed(r, size, Encode(f)).frames == r.frames + [x] {
        DispatchTakesOctets(r, size, rest, 0, |r.frames|);
        assert false;
      }
    }
  }

  /** Behind a flag, three more read as the header of a frame of 124 octets for DLCI 62. */
  const FLAG_HEADER: seq<byte> := [FLAG, FLAG, FLAG]

  lemma FlagHeader()
    ensures WholeHeader(FLAG_HEADER) && LengthOf(FLAG_HEADER) == 124
  {
    ValueAsNat(FLAG);
  }

  /**
   Three flags in front of a synchronised decoder cost it the next frame: they are taken for a header, and the frame
   for its data.
   */
  lemma FlagsCostAFrame(r: Receiver, size: nat, f: Frame)
    requires r.rx.state == Sof && 126 <= size && |f.data| <= 118
    ensures var r' := Feed(r, size, [FLAG, FLAG, FLAG] + Encode(f));
            r'.frames == r.frames && r'.rx.state == Data && r'.resyncs == r.resyncs
  {
    EncodeIs(f);
    FlagHeader();
    var body := Encode(f)[1..];
    assert [FLAG, FLAG, FLAG] + Encode(f) == [FLAG] + FLAG_HEADER + body;
    HeaderFed(r, size, FLAG_HEADER);
    FeedConcat(r, size, [FLAG] + FLAG_HEADER, body);
    DataFed(Feed(r, size, [FLAG] + FLAG_HEADER), size, body);
  }

  // ----- Receive overrun

  /** A frame that fills the receive buffer before its declared length is reached. */
  predicate Overlong(h: seq<byte>, size: nat)
    requires WholeHeader(h)
  {
    size < LengthOf(h) || (|h| == 4 && LengthOf(h) == 0)
  }

  /** Whatever follows in place of the check octet: the buffer's worth of data is dispatched as the whole frame. */
  lemma OverrunDispatched(r: Receiver, size: nat, h: seq<byte>, d: seq<byte>)
    requires WholeHeader(h) && AtStart(r.rx, h[0]) && 0 < size == |d| && Overlong(h, size)
    ensures var r' := Feed(r, size, [FLAG] + h + d + [FLAG]);
            && r'.rx.state == Sof && r'.resyncs == r.resyncs
            && r'.frames == r.frames + [Received(FrameOf(h, d), LengthOf(h))]
  {
    BufferFilled(r, size, h, d);
    FeedConcat(r, size, [FLAG] + h + d, [FLAG]);
    FeedOne(Feed(r, size, [FLAG] + h + d), size, FLAG);
  }

  lemma BufferFilled(r: Receiver, size: nat, h: seq<byte>, d: seq<byte>)
    requires WholeHeader(h) && AtStart(r.rx, h[0]) && 0 < size == |d|
    requires size <= LengthOf(h) || (|h| == 4 && LengthOf(h) == 0)
    ensures Feed(r, size, [FLAG] + h + d) ==
            r.(rx := Headed(r.rx, h).(data := d, state := if size == LengthOf(h) then Fcs else Eof))
  {
    HeaderFed(r, size, h);
    FeedConcat(r, size, [FLAG] + h, d);
    DataFed(r.(rx := Headed(r.rx, h)), size, d);
    assert [] + d == d;
  }

  /** A buffer full of data and a flag, without a check octet, are dispatched exactly when more was declared. */
  lemma OverrunExact(r: Receiver, size: nat, h: seq<byte>, d: seq<byte>)
    requires WholeHeader(h) && AtStart(r.rx, h[0]) && 0 < size == |d| <= LengthOf(h)
    ensures Feed(r, size, [FLAG] + h + d + [FLAG]).frames != r.frames <==> size < LengthOf(h)
  {
    if size < LengthOf(h) {
      OverrunDispatched(r, size, h, d);
    } else {
      BufferFilled(r, size, h, d);
      FeedConcat(r, size, [FLAG] + h + d, [FLAG]);
      FeedOne(Feed(r, size, [FLAG] + h + d), size, FLAG);
    }
  }

  // ----- Soundness on every stream

  ghost predicate EndsWith(w: seq<byte>, t: seq<byte>) {
    |t| <= |w| && w[|w| - |t|..] == t
  }

  predicate HeaderRead(s: Rx) {
    WholeHeader(s.header) && FrameOf(s.header, s.data) == ReceivedOf(s).frame && s.length == LengthOf(s.header)
  }

  /** How the receiver's state describes the end of the stream `w` it has consumed. */
  ghost predicate Tracks(s: Rx, size: nat, w: seq<byte>) {
    && |s.header| <= 4 && |s.data| <= size
    && match s.state
       case Address => EndsWith(w, [FLAG])
       case Resync3 => EndsWith(w, [FLAG])
       case Control =>
         |s.header| == 1 && s.data == [] && EndsWith(w, [FLAG] + s.header) &&
         s.address == AddressOf(s.header[0]) && s.cr == CrOf(s.header[0])
       case Length =>
         |s.header| == 2 && s.data == [] && EndsWith(w, [FLAG] + s.header) &&
         s.address == AddressOf(s.header[0]) && s.cr == CrOf(s.header[0]) &&
         s.pf == PfOf(s.header[1]) && s.kind == KindOf(s.header[1])
       case LengthCont =>
         |s.header| == 3 && s.data == [] && EndsWith(w, [FLAG] + s.header) &&
         s.address == AddressOf(s.header[0]) && s.cr == CrOf(s.header[0]) &&
         s.pf == PfOf(s.header[1]) && s.kind == KindOf(s.header[1]) &&
         !LastLengthOctet(s.header[2]) && s.length == FirstLength(s.header[2])
       case Data =>
         HeaderRead(s) && EndsWith(w, [FLAG] + s.header + s.data) && |s.data| < size &&
         (|s.data| < s.length || (s.length == 0 && |s.header| == 4))
       case Fcs =>
         HeaderRead(s) && EndsWith(w, [FLAG] + s.header + s.data) && |s.data| == s.length &&
         !Overlong(s.header, size)
       case Eof =>
         HeaderRead(s) &&
         if Overlong(s.header, size) then |s.data| == size && EndsWith(w, [FLAG] + s.header + s.data)
         else |s.data| == s.length &&
              EndsWith(w, [FLAG] + s.header + s.data + [CheckOctet(s.kind, s.header, s.data)])
       case _ => true
  }

  lemma EndsWithSnoc(w: seq<byte>, t: seq<byte>, b: byte)
    requires EndsWith(w, t)
    ensures EndsWith(w + [b], t + [b])
  {
    assert (w + [b])[|w| - |t|..] == w[|w| - |t|..] + [b];
  }

  lemma EndsWithLast(w: seq<byte>, b: byte)
    ensures EndsWith(w + [b], [b])
  {
  }

  lemma TrackHeader(s: Rx, size: nat, w: seq<byte>, b: byte)
    requires Tracks(s, size, w) && 0 < size
    requires s.state in {Address, Resync3, Control, Length, LengthCont}
    ensures Tracks(Step(s, size, b).0, size, w + [b])
  {
    EndsWithLast(w, b);
    var s' := Step(s, size, b).0;
    if s.state == Address || s.state == Resync3 {
      EndsWithSnoc(w, [FLAG], b);
      assert s'.state == Control ==> [FLAG] + s'.header == [FLAG] + [b];
    } else {
      EndsWithSnoc(w, [FLAG] + s.header, b);
      assert [FLAG] + s.header + [b] == [FLAG] + s'.header;
      assert [FLAG] + s'.header + [] == [FLAG] + s'.header;
    }
  }

  lemma TrackData(s: Rx, size: nat, w: seq<byte>, b: byte)
    requires Tracks(s, size, w) && s.state == Data
    ensures Tracks(Step(s, size, b).0, size, w + [b])
  {
    EndsWithSnoc(w, [FLAG] + s.header + s.data, b);
    assert [FLAG] + s.header + s.data + [b] == [FLAG] + s.header + (s.data + [b]);
  }

  lemma TrackCheck(s: Rx, size: nat, w: seq<byte>, b: byte)
    requires Tracks(s, size, w) && s.state == Fcs
    ensures Tracks(Step(s, size, b).0, size, w + [b])
  {
    EndsWithSnoc(w, [FLAG] + s.header + s.data, b);
    var s' := Step(s, size, b).0;
    assert s' == s.(state := s'.state);
    assert HeaderRead(s') == HeaderRead(s);
  }

  lemma TrackOther(s: Rx, size: nat, w: seq<byte>, b: byte)
    requires Tracks(s, size, w)
    requires s.state in {Sof, Resync0, Resync1, Resync2, AddressCont, Drop, Eof, Fault}
    ensures Tracks(Step(s, size, b).0, size, w + [b])
  {
    EndsWithLast(w, b);
    var s' := Step(s, size, b).0;
    assert s' == s.(state := s'.state, dataSet := s'.dataSet);
  }

  lemma TrackStep(s: Rx, size: nat, w: seq<byte>, b: byte)
    requires Tracks(s, size, w) && 0 < size
    ensures Tracks(Step(s, size, b).0, size, w + [b])
  {
    if s.state in {Address, Resync3, Control, Length, LengthCont} {
      TrackHeader(s, size, w, b);
    } else if s.state == Data {
      TrackData(s, size, w, b);
    } else if s.state == Fcs {
      TrackCheck(s, size, w, b);
    } else {
      TrackOther(s, size, w, b);
    }
  }

  lemma DispatchEnds(s: Rx, size: nat, w: seq<byte>)
    requires Tracks(s, size, w) && s.state == Eof
    ensures if Overlong(s.header, size) then EndsWith(w + [FLAG], [FLAG] + s.header + s.data + [FLAG])
            else EndsWith(w + [FLAG], Wire(s.header, s.data, CheckOctet(s.kind, s.header, s.data)))
  {
    var h, check := s.header, CheckOctet(s.kind, s.header, s.data);
    if Overlong(h, size) {
      EndsWithSnoc(w, [FLAG] + h + s.data, FLAG);
    } else {
      EndsWithSnoc(w, [FLAG] + h + s.data + [check], FLAG);
      assert [FLAG] + h + s.data + [check] + [FLAG] == Wire(h, s.data, check);
    }
  }

  lemma {:induction false} TrackStream(size: nat, bs: seq<byte>)
    requires 0 < size
    ensures Tracks(Feed(Receiver(INITIAL, [], 0), size, bs).rx, size, bs)
    decreases |bs|
  {
    if bs != [] {
      var n := |bs| - 1;
      TrackStream(size, bs[..n]);
      assert bs == bs[..n] + [bs[n]];
      var r := Feed(Receiver(INITIAL, [], 0), size, bs[..n]);
      FeedConcat(Receiver(INITIAL, [], 0), size, bs[..n], [bs[n]]);
      FeedOne(r, size, bs[n]);
      TrackStep(r.rx, size, bs[..n], bs[n]);
    }
  }

  /**
   On every stream whatever: the header buffer holds at most four octets and the receive buffer at most `size`, and a
   dispatched frame just ended on the wire. Its header says whether it was checked: unless it is overlong, flag,
   header, data, right check octet and flag; if it is, flag, header, a buffer full of data and flag.
   */
  lemma Soundness(size: nat, bs: seq<byte>, b: byte)
    requires 0 < size
    ensures var r := Feed(Receiver(INITIAL, [], 0), size, bs);
            var (rx, action) := Step(r.rx, size, b);
            && |rx.header| <= 4 && |rx.data| <= size
            && (action.Dispatch? ==>
                  var h, d := r.rx.header, r.rx.data;
                  && b == FLAG && WholeHeader(h) && action.received == Received(FrameOf(h, d), LengthOf(h))
                  && if Overlong(h, size) then |d| == size && EndsWith(bs + [b], [FLAG] + h + d + [FLAG])
                     else |d| == LengthOf(h) && EndsWith(bs + [b], Wire(h, d, CheckOctet(KindOf(h[1]), h, d))))
  {
    TrackStream(size, bs);
    var r := Feed(Receiver(INITIAL, [], 0), size, bs);
    TrackStep(r.rx, size, bs, b);
    if r.rx.state == Eof && b == FLAG {
      DispatchEnds(r.rx, size, bs);
    }
  }
}
