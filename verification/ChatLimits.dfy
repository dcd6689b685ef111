/** Where the limits of the buffer and of the argument array are exact, and what lies beyond them. */
module ChatLimits {
  import opened Crc
  import opened Sequences
  import opened ChatParse
  import opened ChatLine

  // ----- Two pointers for a catch-all

  lemma NotDispatched(a: seq<Dispatch>, b: seq<Dispatch>)
    requires b != []
    ensures a != a + b
  {
    assert |a + b| == |a| + |b|;
  }

  lemma UnknownOverflows(q: Parser, c: Config, t: Table, line: seq<byte>)
    requires Storable(c, t, |q.buf|, line) && Ending(q, t, line, c.delimiter) && 0 < |c.delimiter|
    requires ForCatchAll(t, line) && c.argvSize < 2
    ensures EndOfLine(q, c, t) == Overflow
  {
  }

  lemma CatchAllOverflows(l: Listener, c: Config, t: Table, line: seq<byte>)
    requires Configured(|l.parser.buf|, c, t) && Storable(c, t, |l.parser.buf|, line) && ForCatchAll(t, line)
    requires AtLineStart(l.parser) && c.filter == [] && c.argvSize == 1
    ensures Listen(l, c, t, line + c.delimiter).dispatched == l.dispatched
    ensures var l1 := Listen(l, c, t, line + c.delimiter[..|c.delimiter| - 1]);
            ProcessByte(l1.parser, c, t, c.delimiter[|c.delimiter| - 1]).1 == Overflow
  {
    var d := c.delimiter;
    var j := |d| - 1;
    DelimiterHeard(l, c, t, line, j);
    TakeSnoc(line, d, j);
    ListenSnoc(l, c, t, line + d[..j], d[j]);
    var l1 := Listen(l, c, t, line + d[..j]);
    LastStored(l1.parser, c, t, line);
    UnknownOverflows(Stored(l1.parser, d[j]), c, t, line);
    OverflowHeard(l1, c, t, d[j]);
    assert d[..j + 1] == d;
  }

  lemma OverflowHeard(l: Listener, c: Config, t: Table, b: byte)
    requires Configured(|l.parser.buf|, c, t) && l.parser.len <= |l.parser.buf| && c.filter == []
    requires ProcessByte(l.parser, c, t, b).1 == Overflow
    ensures Hear(l, c, t, b).dispatched == l.dispatched
  {
    assert l.dispatched + [] == l.dispatched;
  }

  /** A line without a match that fits is dispatched to its catch-all exactly when there are two argument pointers. */
  lemma CatchAllExact(l: Listener, c: Config, t: Table, line: seq<byte>, heard: seq<byte>)
    requires Configured(|l.parser.buf|, c, t) && Storable(c, t, |l.parser.buf|, line) && ForCatchAll(t, line)
    requires AtLineStart(l.parser) && Unfiltered(heard, c.filter) == line + c.delimiter
    ensures Listen(l, c, t, heard).dispatched == l.dispatched + Dispatched(LineDispatch(t, line)) <==> 2 <= c.argvSize
  {
    if 2 <= c.argvSize {
      LineHeard(l, c, t, line, heard);
    } else {
      ListenUnfiltered(l, c, t, heard);
      CatchAllOverflows(l, c.(filter := []), t, line);
      NotDispatched(l.dispatched, Dispatched(LineDispatch(t, line)));
    }
  }

  // ----- Room behind the line

  /** None of the first `n` octets is in `d`. */
  predicate Clear(buf: seq<byte>, n: nat, d: seq<byte>) {
    n <= |buf| && forall i | 0 <= i < n :: !IsIn(buf[i], d)
  }

  /** The parser behind a match of `k` octets; nothing is said of the strings its argument pointers lead to. */
  ghost predicate PassingBehind(p: Parser, s: seq<byte>, k: nat, f: Found) {
    && f.Found? && p.found == f && k <= |s| && |p.argv| == |Pieces(s[k..], f.match_.separators)|
    && p.argv[0] == At(|p.buf| - k - 1)
  }

  /** The parser has read `s` of a line. */
  ghost predicate Passing(p: Parser, t: Table, s: seq<byte>, d: seq<byte>) {
    && p.len == |s| && Clear(p.buf, p.len, d)
    && match Recognise(t, s)
       case Unrecognised => p.found == NotFound && p.argv == [] && p.buf[..p.len] == s
       case Recognised(k, kind, m) => PassingBehind(p, s, k, Found(kind, m))
  }

  lemma PassingHasRoom(p: Parser, c: Config, t: Table, line: seq<byte>, n: nat)
    requires Clean(c, t, line) && n <= |line| && Passing(p, t, line[..n], c.delimiter) && 0 < c.argvSize
    ensures |p.argv| < c.argvSize
  {
    var s := line[..n];
    var r := Recognise(t, s);
    if r.Recognised? {
      RecognisePrefix(t, line, n);
      assert line[r.size..][..n - r.size] == s[r.size..];
      PiecesGrow(line[r.size..], n - r.size, r.match_.separators);
    }
  }

  lemma ClearOf(buf: seq<byte>, buf': seq<byte>, n: nat, d: seq<byte>)
    requires Clear(buf, n, d) && n < |buf| == |buf'| && buf'[..n] == buf[..n] && !IsIn(buf'[n], d)
    ensures Clear(buf', n + 1, d)
  {
    forall i | 0 <= i < n ensures buf'[i] == buf[i] {
      assert buf'[..n][i] == buf[..n][i];
    }
  }

  lemma PieceCount(s: seq<byte>, b: byte, k: nat, separators: seq<byte>)
    requires k <= |s|
    ensures |Pieces((s + [b])[k..], separators)| ==
            |Pieces(s[k..], separators)| + if IsIn(b, separators) then 1 else 0
  {
    Cut(s, b, k);
    PiecesSnoc(s[k..], b, separators);
  }

  lemma BehindPassed(p: Parser, s: seq<byte>, b: byte, k: nat, f: Found)
    requires PassingBehind(p, s, k, f) && p.len < |p.buf|
    ensures PassingBehind(OnArgumentByte(Stored(p, b), b), s + [b], k, f)
  {
    ArgumentStored(p, b);
    PieceCount(s, b, k, f.match_.separators);
  }

  lemma ArgumentPassed(p: Parser, t: Table, s: seq<byte>, b: byte, d: seq<byte>)
    requires Passing(p, t, s, d) && Recognise(t, s).Recognised? && p.len < |p.buf| && !IsIn(b, d) && !IsIn(0, d)
    ensures Passing(OnArgumentByte(Stored(p, b), b), t, s + [b], d)
  {
    var r := Recognise(t, s);
    ArgumentStored(p, b);
    ClearOf(p.buf, OnArgumentByte(Stored(p, b), b).buf, p.len, d);
    RecogniseSnoc(t, s, b);
    BehindPassed(p, s, b, r.size, Found(r.kind, r.match_));
  }

  lemma MatchPassed(q: Parser, t: Table, s: seq<byte>, d: seq<byte>, f: Found)
    requires q.len == |s| < |q.buf| && Clear(q.buf, |s|, d) && !IsIn(0, d) && q.argv == []
    requires f.Found? && Recognise(t, s) == Recognised(|s|, f.kind, f.match_)
    ensures Passing(SaveMatch(q, f), t, s, d)
  {
    var r := SaveMatch(q, f);
    assert s[|s|..] == [];
    forall i | 0 <= i < |s| ensures !IsIn(r.buf[i], d) {
    }
  }

  lemma StoredClear(p: Parser, b: byte, d: seq<byte>)
    requires p.len < |p.buf| && Clear(p.buf, p.len, d) && !IsIn(b, d)
    ensures Clear(Stored(p, b).buf, p.len + 1, d)
  {
    assert Stored(p, b).buf[..p.len] == p.buf[..p.len];
    ClearOf(p.buf, Stored(p, b).buf, p.len, d);
  }

  lemma NothingPassed(q: Parser, t: Table, s: seq<byte>, d: seq<byte>)
    requires q.len == |s| && Clear(q.buf, |s|, d) && q.buf[..q.len] == s && q.argv == [] && q.found == NotFound
    requires Recognise(t, s).Unrecognised?
    ensures Passing(q, t, s, d)
  {
  }

  lemma FirstPassed(p: Parser, t: Table, s: seq<byte>, b: byte, d: seq<byte>)
    requires Passing(p, t, s, d) && Recognise(t, s).Unrecognised? && p.len < |p.buf| && ShortMatches(t, |p.buf|)
    requires !IsIn(b, d) && !IsIn(0, d)
    ensures Passing(OnTextByte(Stored(p, b), t, b), t, s + [b], d)
  {
    var q := Stored(p, b);
    RecogniseSnoc(t, s, b);
    OctetStored(p, s, b);
    StoredClear(p, b, d);
    var f := Find(t, s + [b]);
    if f.Found? {
      FindShort(t, s + [b], |p.buf|);
      MatchPassed(q, t, s + [b], d, f);
    } else {
      NothingPassed(q, t, s + [b], d);
    }
  }

  /** One octet of text, with a pointer left for it. */
  lemma OctetPassed(p: Parser, c: Config, t: Table, s: seq<byte>, b: byte)
    requires Configured(|p.buf|, c, t) && p.len < |p.buf| && |p.argv| < c.argvSize
    requires Passing(p, t, s, c.delimiter) && !IsIn(b, c.delimiter) && !IsIn(0, c.delimiter)
    ensures var (p', o) := ProcessByte(p, c, t, b);
            o == Silent && |p'.buf| == |p.buf| && Passing(p', t, s + [b], c.delimiter)
  {
    var d := c.delimiter;
    TextIsNoDelimiter(Stored(p, b), d);
    assert ProcessByte(p, c, t, b) == (OnTextByte(Stored(p, b), t, b), Silent);
    if Recognise(t, s).Recognised? {
      ArgumentPassed(p, t, s, b, d);
    } else {
      FirstPassed(p, t, s, b, d);
    }
  }

  lemma TextPassed(p: Parser, c: Config, t: Table, line: seq<byte>, n: nat)
    requires Configured(|p.buf|, c, t) && Clean(c, t, line) && n < |line| && p.len < |p.buf|
    requires Passing(p, t, line[..n], c.delimiter)
    ensures var (p', o) := ProcessByte(p, c, t, line[n]);
            o == Silent && |p'.buf| == |p.buf| && Passing(p', t, line[..n + 1], c.delimiter)
  {
    assert line[..n + 1] == line[..n] + [line[n]];
    assert !IsIn(line[n], c.delimiter) && !IsIn(0, c.delimiter);
    PassingHasRoom(p, c, t, line, n);
    OctetPassed(p, c, t, line[..n], line[n]);
  }

  lemma StartPasses(p: Parser, t: Table, d: seq<byte>)
    requires AtLineStart(p)
    ensures Passing(p, t, [], d)
  {
    assert p.buf[..0] == [];
  }

  lemma TextHeardOn(l: Listener, c: Config, t: Table, line: seq<byte>, n: nat)
    requires Configured(|l.parser.buf|, c, t) && Clean(c, t, line) && n < |line| < |l.parser.buf| && c.filter == []
    requires Passing(l.parser, t, line[..n], c.delimiter)
    ensures var l' := Hear(l, c, t, line[n]);
            l'.dispatched == l.dispatched && Passing(l'.parser, t, line[..n + 1], c.delimiter)
  {
    TextPassed(l.parser, c, t, line, n);
    HeardSilently(l, c, t, line[n]);
  }

  lemma {:induction false} TextPasses(l: Listener, c: Config, t: Table, line: seq<byte>, n: nat)
    requires Configured(|l.parser.buf|, c, t) && Clean(c, t, line) && n <= |line| < |l.parser.buf|
    requires AtLineStart(l.parser) && c.filter == []
    ensures var l' := Listen(l, c, t, line[..n]);
            l'.dispatched == l.dispatched && Passing(l'.parser, t, line[..n], c.delimiter)
    decreases n
  {
    if n == 0 {
      assert line[..0] == [];
      StartPasses(l.parser, t, c.delimiter);
    } else {
      TextPasses(l, c, t, line, n - 1);
      var l1 := Listen(l, c, t, line[..n - 1]);
      TakeSnoc([], line, n - 1);
      ListenSnoc(l, c, t, line[..n - 1], line[n - 1]);
      TextHeardOn(l1, c, t, line, n - 1);
    }
  }

  /** The whole line has been read, and `j` octets of the delimiter behind it. */
  ghost predicate Closing(p: Parser, t: Table, line: seq<byte>, d: seq<byte>, j: nat) {
    && j <= |d| && p.len == |line| + j <= |p.buf| && p.buf[|line|..p.len] == d[..j]
    && Passing(p.(len := |line|), t, line, d)
  }

  /** Writing behind the text leaves the parser as it was. */
  lemma PassingKept(p: Parser, p': Parser, t: Table, line: seq<byte>, d: seq<byte>)
    requires Passing(p, t, line, d) && p' == p.(buf := p'.buf) && |p'.buf| == |p.buf|
    requires p'.buf[..|line|] == p.buf[..|line|]
    ensures Passing(p', t, line, d)
  {
    forall i | 0 <= i < |line| ensures p'.buf[i] == p.buf[i] {
      assert p'.buf[..|line|][i] == p.buf[..|line|][i];
    }
  }

  lemma ClosingStored(p: Parser, c: Config, t: Table, line: seq<byte>, j: nat)
    requires Configured(|p.buf|, c, t) && Clean(c, t, line) && j < |c.delimiter| && p.len < |p.buf|
    requires Closing(p, t, line, c.delimiter, j)
    ensures var b := c.delimiter[j];
            && Closing(Stored(p, b), t, line, c.delimiter, j + 1)
            && ProcessByte(p, c, t, b) == TakeIn(Stored(p, b), c, t, b)
  {
    var d := c.delimiter;
    var q := Stored(p, d[j]);
    assert line[..|line|] == line;
    PassingHasRoom(p.(len := |line|), c, t, line, |line|);
    assert d[..j + 1] == d[..j] + [d[j]];
    assert q.buf[|line|..q.len] == p.buf[|line|..p.len] + [d[j]];
    assert q.buf[..|line|] == p.buf[..|line|];
    PassingKept(p.(len := |line|), q.(len := |line|), t, line, d);
  }

  lemma ClosingOctet(p: Parser, c: Config, t: Table, line: seq<byte>, j: nat)
    requires Configured(|p.buf|, c, t) && Clean(c, t, line) && j + 1 < |c.delimiter| && p.len < |p.buf|
    requires Closing(p, t, line, c.delimiter, j)
    ensures var (p', o) := ProcessByte(p, c, t, c.delimiter[j]);
            o == Silent && |p'.buf| == |p.buf| && Closing(p', t, line, c.delimiter, j + 1)
  {
    var d := c.delimiter;
    var q := Stored(p, d[j]);
    ClosingStored(p, c, t, line, j);
    assert IsIn(d[0], d) && IsIn(d[j], d);
    if |d| <= q.len {
      assert !IsIn(q.buf[q.len - |d|], d);
      if DelimiterComplete(q, d) {
        CompleteDelimiter(q, d);
      }
    }
  }

  lemma ClosingHeardOn(l: Listener, c: Config, t: Table, line: seq<byte>, j: nat)
    requires Configured(|l.parser.buf|, c, t) && Clean(c, t, line) && j + 1 < |c.delimiter| && c.filter == []
    requires l.parser.len < |l.parser.buf| && Closing(l.parser, t, line, c.delimiter, j)
    ensures var l' := Hear(l, c, t, c.delimiter[j]);
            l'.dispatched == l.dispatched && Closing(l'.parser, t, line, c.delimiter, j + 1)
  {
    ClosingOctet(l.parser, c, t, line, j);
    HeardSilently(l, c, t, c.delimiter[j]);
  }

  lemma TextCloses(p: Parser, t: Table, line: seq<byte>, d: seq<byte>)
    requires Passing(p, t, line, d)
    ensures Closing(p, t, line, d, 0)
  {
    assert p.(len := |line|) == p && d[..0] == [];
    assert p.buf[|line|..p.len] == [];
  }

  lemma {:induction false} DelimiterPasses(l: Listener, c: Config, t: Table, line: seq<byte>, j: nat)
    requires Configured(|l.parser.buf|, c, t) && Clean(c, t, line) && j < |c.delimiter|
    requires |line| + |c.delimiter| <= |l.parser.buf| && AtLineStart(l.parser) && c.filter == []
    ensures var l' := Listen(l, c, t, line + c.delimiter[..j]);
            l'.dispatched == l.dispatched && Closing(l'.parser, t, line, c.delimiter, j)
    decreases j
  {
    var d := c.delimiter;
    if j == 0 {
      TextPasses(l, c, t, line, |line|);
      assert d[..0] == [] && line + [] == line && line[..|line|] == line;
      TextCloses(Listen(l, c, t, line).parser, t, line, d);
    } else {
      DelimiterPasses(l, c, t, line, j - 1);
      var l1 := Listen(l, c, t, line + d[..j - 1]);
      TakeSnoc(line, d, j - 1);
      ListenSnoc(l, c, t, line + d[..j - 1], d[j - 1]);
      ClosingHeardOn(l1, c, t, line, j - 1);
    }
  }

  lemma {:induction false} CStringHas(buf: seq<byte>, o: nat, i: nat)
    requires i < |CString(buf, o)|
    ensures o + i < |buf| && CString(buf, o)[i] == buf[o + i]
    decreases i
  {
    if i > 0 {
      CStringHas(buf, o + 1, i - 1);
    }
  }

  /** A delimiter octet on the saved match, or the terminator in its place, is in no match taken from a line. */
  lemma MatchOverwritten(buf: seq<byte>, o: nat, line: seq<byte>, k: nat, i: nat, d: seq<byte>)
    requires o <= i < o + k && k <= |line| && i < |buf| && (IsIn(buf[i], d) || buf[i] == 0)
    requires NoZero(line) && forall j | 0 <= j < |line| :: !IsIn(line[j], d)
    ensures CString(buf, o) != line[..k]
  {
    assert line[..k][i - o] == line[i - o];
    if CString(buf, o) == line[..k] {
      CStringHas(buf, o, i - o);
    }
  }

  lemma FirstString(q: Parser, end: nat, o: nat)
    requires end < |q.buf| && q.argv != [] && q.argv[0] == At(o)
    ensures FinalStrings(q, end) != []
    ensures FinalStrings(q, end)[0] == CString(if q.argLen > 0 then q.buf[end := 0] else q.buf, o)
  {
  }

  lemma DelimiterLands(q: Parser, t: Table, line: seq<byte>, d: seq<byte>)
    requires d != [] && Closing(q, t, line, d, |d|)
    ensures q.buf[q.len - 1] == d[|d| - 1] && IsIn(q.buf[q.len - 1], d)
  {
    assert q.buf[|line|..q.len][|d| - 1] == d[..|d|][|d| - 1];
    assert d[|d| - 1] in d;
  }

  /** The first argument of a line whose delimiter ran into the saved match is not the match. */
  lemma FirstArgumentLost(q: Parser, c: Config, t: Table, line: seq<byte>, r: Recognition)
    requires Clean(c, t, line) && Closing(q, t, line, c.delimiter, |c.delimiter|) && 0 < |c.delimiter|
    requires r == Recognise(t, line) && r.Recognised?
    requires |line| + |c.delimiter| < |q.buf| < |line| + |c.delimiter| + r.size + 1
    ensures FinalStrings(q, |line|) != [] && FinalStrings(q, |line|)[0] != line[..r.size]
  {
    var i, o := q.len - 1, |q.buf| - r.size - 1;
    DelimiterLands(q, t, line, c.delimiter);
    FirstString(q, |line|, o);
    var buf := if q.argLen > 0 then q.buf[|line| := 0] else q.buf;
    MatchOverwritten(buf, o, line, r.size, i, c.delimiter);
  }

  lemma LineLost(q: Parser, c: Config, t: Table, line: seq<byte>, r: Recognition)
    requires Clean(c, t, line) && Closing(q, t, line, c.delimiter, |c.delimiter|) && 0 < |c.delimiter|
    requires r == Recognise(t, line) && r.Recognised?
    requires |line| + |c.delimiter| < |q.buf| < |line| + |c.delimiter| + r.size + 1
    ensures EndOfLine(q, c, t) != LineDispatch(t, line)
  {
    FirstArgumentLost(q, c, t, line, r);
    EndOfMatchedLine(q, c, t, |line|);
    LineDispatchIs(t, line, r);
    assert ([line[..r.size]] + Arguments(line[r.size..], r.match_.separators))[0] == line[..r.size];
  }

  lemma MatchLost(l: Listener, c: Config, t: Table, line: seq<byte>, k: nat)
    requires Configured(|l.parser.buf|, c, t) && Clean(c, t, line) && AtLineStart(l.parser) && c.filter == []
    requires Recognise(t, line).Recognised? && k == Recognise(t, line).size
    requires |line| + |c.delimiter| < |l.parser.buf| < |line| + |c.delimiter| + k + 1
    ensures Listen(l, c, t, line + c.delimiter).dispatched != l.dispatched + Dispatched(LineDispatch(t, line))
  {
    var d := c.delimiter;
    var j := |d| - 1;
    DelimiterPasses(l, c, t, line, j);
    TakeSnoc(line, d, j);
    ListenSnoc(l, c, t, line + d[..j], d[j]);
    var l1 := Listen(l, c, t, line + d[..j]);
    ClosingStored(l1.parser, c, t, line, j);
    var q := Stored(l1.parser, d[j]);
    assert d[..j + 1] == d && DelimiterComplete(q, d);
    LineLost(q, c, t, line, Recognise(t, line));
    DifferentDispatch(l.dispatched, EndOfLine(q, c, t), LineDispatch(t, line));
  }

  lemma DifferentDispatch(a: seq<Dispatch>, o: Outcome, o': Outcome)
    requires o'.Received? && o != o'
    ensures a + Dispatched(o) != a + Dispatched(o')
  {
    assert (a + Dispatched(o'))[|a|..] == [o'.d];
    assert (a + Dispatched(o))[|a|..] == Dispatched(o);
  }

  /**
   A line with a match of `k` octets, in a buffer that is longer than line and delimiter, is dispatched as specified
   exactly when the buffer has `k + 1` octets more: otherwise the delimiter runs into the match saved at its end.
   */
  lemma MatchedLineExact(l: Listener, c: Config, t: Table, line: seq<byte>, heard: seq<byte>, k: nat)
    requires Configured(|l.parser.buf|, c, t) && Clean(c, t, line) && AtLineStart(l.parser)
    requires Recognise(t, line).Recognised? && k == Recognise(t, line).size
    requires |line| + |c.delimiter| < |l.parser.buf| && Unfiltered(heard, c.filter) == line + c.delimiter
    ensures Listen(l, c, t, heard).dispatched == l.dispatched + Dispatched(LineDispatch(t, line)) <==>
            |line| + |c.delimiter| + k + 1 <= |l.parser.buf|
  {
    if |line| + |c.delimiter| + k + 1 <= |l.parser.buf| {
      LineHeard(l, c, t, line, heard);
    } else {
      ListenUnfiltered(l, c, t, heard);
      MatchLost(l, c.(filter := []), t, line, k);
    }
  }

  /**
   The size asked for where the buffer is configured, longest line plus longest match, is not enough: a line that
   needs all of it is dispatched wrongly whenever its match is longer than the delimiter.
   */
  lemma DocumentedSizeFails(l: Listener, c: Config, t: Table, line: seq<byte>, heard: seq<byte>, k: nat)
    requires Configured(|l.parser.buf|, c, t) && Clean(c, t, line) && AtLineStart(l.parser)
    requires Recognise(t, line).Recognised? && k == Recognise(t, line).size && |c.delimiter| < k
    requires |l.parser.buf| == |line| + k && Unfiltered(heard, c.filter) == line + c.delimiter
    ensures Listen(l, c, t, heard).dispatched != l.dispatched + Dispatched(LineDispatch(t, line))
  {
    MatchedLineExact(l, c, t, line, heard, k);
  }

  // ----- Room for the arguments

  lemma StepTakesFewArguments(p: Parser, c: Config, t: Table, b: byte)
    requires Configured(|p.buf|, c, t) && p.len <= |p.buf| && |p.argv| <= c.argvSize
    ensures var (p', o) := ProcessByte(p, c, t, b);
            |p'.argv| <= c.argvSize && (o.Received? ==> |o.d.args| <= c.argvSize)
  {
  }

  predicate FewArguments(ds: seq<Dispatch>, n: nat) {
    forall d <- ds :: |d.args| <= n
  }

  lemma HearTakesFewArguments(l: Listener, c: Config, t: Table, b: byte) returns (ds: seq<Dispatch>)
    requires Configured(|l.parser.buf|, c, t) && l.parser.len <= |l.parser.buf| && |l.parser.argv| <= c.argvSize
    ensures var l' := Hear(l, c, t, b);
            && |l'.parser.argv| <= c.argvSize && l'.dispatched == l.dispatched + ds && FewArguments(ds, c.argvSize)
  {
    StepTakesFewArguments(l.parser, c, t, b);
    ds := if IsIn(b, c.filter) then [] else Dispatched(ProcessByte(l.parser, c, t, b).1);
    assert l.dispatched + [] == l.dispatched;
  }

  lemma FewTwice(a: seq<Dispatch>, b: seq<Dispatch>, n: nat)
    requires FewArguments(a, n) && FewArguments(b, n)
    ensures FewArguments(a + b, n)
  {
  }

  /** No dispatch has more arguments than there are pointers. */
  lemma {:induction false} ListenTakesFewArguments(l: Listener, c: Config, t: Table, bs: seq<byte>)
    returns (ds: seq<Dispatch>)
    requires Configured(|l.parser.buf|, c, t) && l.parser.len <= |l.parser.buf| && |l.parser.argv| <= c.argvSize
    ensures Listen(l, c, t, bs).dispatched == l.dispatched + ds && FewArguments(ds, c.argvSize)
    decreases |bs|
  {
    if bs == [] {
      ds := [];
    } else {
      var first := HearTakesFewArguments(l, c, t, bs[0]);
      var rest := ListenTakesFewArguments(Hear(l, c, t, bs[0]), c, t, bs[1..]);
      ds := first + rest;
      Associative(l.dispatched, first, rest);
      FewTwice(first, rest, c.argvSize);
    }
  }

  lemma TooManyArguments(l: Listener, c: Config, t: Table, bs: seq<byte>, d: Dispatch)
    requires Configured(|l.parser.buf|, c, t) && AtLineStart(l.parser) && c.argvSize < |d.args|
    ensures Listen(l, c, t, bs).dispatched != l.dispatched + [d]
  {
    var ds := ListenTakesFewArguments(l, c, t, bs);
    assert (l.dispatched + ds)[|l.dispatched|..] == ds;
    assert (l.dispatched + [d])[|l.dispatched|..] == [d];
    assert d in [d];
  }

  lemma FewerPieces(s: seq<byte>, b: byte, separators: seq<byte>)
    requires var ps := Pieces(s + [b], separators); ps[|ps| - 1] == []
    ensures |Pieces(s, separators)| < |Pieces(s + [b], separators)|
  {
    PiecesSnoc(s, b, separators);
  }

  /** The arguments of a line whose last is empty take the last pointer with its last octet. */
  lemma LastPointerTaken(c: Config, t: Table, p: seq<byte>, b: byte, r: Recognition)
    requires Text(c, p) && r == Recognise(t, p + [b]) && r.Recognised?
    requires var ps := Pieces((p + [b])[r.size..], r.match_.separators); |ps| <= c.argvSize && ps[|ps| - 1] == []
    ensures Clean(c, t, p)
  {
    RecogniseSnoc(t, p, b);
    if Recognise(t, p).Recognised? {
      Cut(p, b, r.size);
      FewerPieces(p[r.size..], b, r.match_.separators);
    }
  }

  /** The last octet of a line may take the last pointer. */
  lemma LastTextPasses(l: Listener, c: Config, t: Table, p: seq<byte>, b: byte)
    requires Configured(|l.parser.buf|, c, t) && Clean(c, t, p) && |p| + 1 < |l.parser.buf|
    requires !IsIn(b, c.delimiter) && !IsIn(0, c.delimiter) && AtLineStart(l.parser) && c.filter == []
    ensures var l' := Listen(l, c, t, p + [b]);
            l'.dispatched == l.dispatched && Passing(l'.parser, t, p + [b], c.delimiter)
  {
    TextPasses(l, c, t, p, |p|);
    assert p[..|p|] == p;
    ListenSnoc(l, c, t, p, b);
    LastHeardOn(Listen(l, c, t, p), c, t, p, b);
  }

  lemma LastHeardOn(l: Listener, c: Config, t: Table, p: seq<byte>, b: byte)
    requires Configured(|l.parser.buf|, c, t) && Clean(c, t, p) && |p| + 1 < |l.parser.buf| && c.filter == []
    requires !IsIn(b, c.delimiter) && !IsIn(0, c.delimiter) && Passing(l.parser, t, p, c.delimiter)
    ensures var l' := Hear(l, c, t, b);
            l'.dispatched == l.dispatched && Passing(l'.parser, t, p + [b], c.delimiter)
  {
    assert p[..|p|] == p;
    PassingHasRoom(l.parser, c, t, p, |p|);
    OctetPassed(l.parser, c, t, p, b);
    HeardSilently(l, c, t, b);
  }

  /** The octets of a delimiter behind its first are taken in without effect. */
  lemma {:induction false} RestOfDelimiter(l: Listener, c: Config, t: Table, j: nat)
    requires Configured(|l.parser.buf|, c, t) && AtLineStart(l.parser) && c.filter == []
    requires 0 < j <= |c.delimiter| <= |l.parser.buf|
    ensures var l' := Listen(l, c, t, c.delimiter[1..j]);
            && l'.dispatched == l.dispatched
            && l'.parser.len == j - 1 && l'.parser.argv == [] && l'.parser.found == NotFound
    decreases j
  {
    var d := c.delimiter;
    if j == 1 {
      assert d[1..1] == [];
    } else {
      RestOfDelimiter(l, c, t, j - 1);
      assert d[1..j] == d[1..j - 1] + [d[j - 1]];
      ListenSnoc(l, c, t, d[1..j - 1], d[j - 1]);
      var l1 := Listen(l, c, t, d[1..j - 1]);
      assert IsIn(d[j - 1], d);
      HeardSilently(l1, c, t, d[j - 1]);
    }
  }

  lemma FullArrayResets(l: Listener, c: Config, t: Table)
    requires Configured(|l.parser.buf|, c, t) && l.parser.len < |l.parser.buf| && |l.parser.argv| == c.argvSize
    requires c.filter == [] && |c.delimiter| <= |l.parser.buf|
    ensures Listen(l, c, t, c.delimiter).dispatched == l.dispatched
  {
    var d := c.delimiter;
    assert d == [d[0]] + d[1..];
    HeardSilently(l, c, t, d[0]);
    RestOfDelimiter(Hear(l, c, t, d[0]), c, t, |d|);
    assert d[1..|d|] == d[1..];
  }

  lemma NoPointerForTheDelimiter(l: Listener, c: Config, t: Table, p: seq<byte>, b: byte, r: Recognition)
    requires Configured(|l.parser.buf|, c, t) && Text(c, p) && !IsIn(b, c.delimiter) && !IsIn(0, c.delimiter)
    requires r == Recognise(t, p + [b]) && r.Recognised?
    requires var ps := Pieces((p + [b])[r.size..], r.match_.separators); |ps| == c.argvSize && ps[|ps| - 1] == []
    requires |p| + 1 + |c.delimiter| <= |l.parser.buf| && AtLineStart(l.parser) && c.filter == []
    ensures Listen(l, c, t, p + [b] + c.delimiter).dispatched == l.dispatched
  {
    LastPointerTaken(c, t, p, b, r);
    LastTextPasses(l, c, t, p, b);
    ListenConcat(l, c, t, p + [b], c.delimiter);
    FullArrayResets(Listen(l, c, t, p + [b]), c, t);
  }

  lemma ArgumentsLost(l: Listener, c: Config, t: Table, line: seq<byte>, r: Recognition)
    requires Configured(|l.parser.buf|, c, t) && Text(c, line) && r == Recognise(t, line) && r.Recognised?
    requires c.argvSize <= |Pieces(line[r.size..], r.match_.separators)|
    requires |line| + |c.delimiter| <= |l.parser.buf| && AtLineStart(l.parser) && c.filter == []
    ensures Listen(l, c, t, line + c.delimiter).dispatched != l.dispatched + Dispatched(LineDispatch(t, line))
  {
    var ps := Pieces(line[r.size..], r.match_.separators);
    LineDispatchIs(t, line, r);
    if |ps| == c.argvSize && ps[|ps| - 1] == [] {
      var n := |line| - 1;
      assert line == line[..n] + [line[n]];
      assert !IsIn(line[n], c.delimiter) && !IsIn(0, c.delimiter);
      NoPointerForTheDelimiter(l, c, t, line[..n], line[n], r);
      NotDispatched(l.dispatched, Dispatched(LineDispatch(t, line)));
    } else {
      TooManyArguments(l, c, t, line + c.delimiter, LineDispatch(t, line).d);
    }
  }

  /**
   A line with a match that fits in the buffer is dispatched as specified exactly when its pieces behind the match
   are fewer than the argument pointers: the match takes one, and even an empty last piece needs one to spare.
   */
  lemma ArgumentArrayExact(l: Listener, c: Config, t: Table, line: seq<byte>, heard: seq<byte>, r: Recognition)
    requires Configured(|l.parser.buf|, c, t) && Text(c, line) && AtLineStart(l.parser)
    requires r == Recognise(t, line) && r.Recognised? && Needed(c, t, line) <= |l.parser.buf|
    requires Unfiltered(heard, c.filter) == line + c.delimiter
    ensures Listen(l, c, t, heard).dispatched == l.dispatched + Dispatched(LineDispatch(t, line)) <==>
            |Pieces(line[r.size..], r.match_.separators)| < c.argvSize
  {
    if |Pieces(line[r.size..], r.match_.separators)| < c.argvSize {
      LineHeard(l, c, t, line, heard);
    } else {
      ListenUnfiltered(l, c, t, heard);
      ArgumentsLost(l, c.(filter := []), t, line, r);
    }
  }
}
