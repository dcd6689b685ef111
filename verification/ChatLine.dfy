/** The specification of one line, and the proof that the in-place parser meets it. */
module ChatLine {
  import opened Crc
  import opened Sequences
  import opened ChatParse

  // ----- Specification

  datatype Recognition = Unrecognised | Recognised(size: nat, kind: nat, match_: Match)

  /** The shortest non-empty prefix that some match recognises. */
  function Recognise(t: Table, s: seq<byte>): (r: Recognition)
    ensures r.Recognised? ==> 0 < r.size <= |s| && Find(t, s[..r.size]) == Found(r.kind, r.match_)
    decreases |s|
  {
    if s == [] then Unrecognised
    else
      var n := |s| - 1;
      var r := Recognise(t, s[..n]);
      if r.Recognised? then
        assert s[..n][..r.size] == s[..r.size];
        r
      else
        assert s[..|s|] == s;
        match Find(t, s)
        case NotFound => Unrecognised
        case Found(kind, m) => Recognised(|s|, kind, m)
  }

  /** The text split at separators; there is always a last piece, perhaps empty. */
  function Pieces(s: seq<byte>, separators: seq<byte>): (r: seq<seq<byte>>)
    ensures r != []
    decreases |s|
  {
    if s == [] then [[]]
    else
      var n := |s| - 1;
      var ps := Pieces(s[..n], separators);
      if IsIn(s[n], separators) then ps + [[]]
      else ps[..|ps| - 1] + [ps[|ps| - 1] + [s[n]]]
  }

  /** A trailing empty piece is no argument. */
  function Arguments(s: seq<byte>, separators: seq<byte>): seq<seq<byte>> {
    var ps := Pieces(s, separators);
    if ps[|ps| - 1] == [] then ps[..|ps| - 1] else ps
  }

  /** What a line of text is dispatched as; an empty one not at all. */
  function LineDispatch(t: Table, s: seq<byte>): Outcome {
    if s == [] then Silent else
    match Recognise(t, s)
    case Recognised(k, kind, m) => Received(Dispatch(kind, m, [s[..k]] + Arguments(s[k..], m.separators)))
    case Unrecognised =>
      match Find(t, [])
      case NotFound => Silent
      case Found(kind, m) => Received(Dispatch(kind, m, [[], s]))
  }

  // ----- The specification in other words

  /** The prefix is the shortest one recognised, and the match the first of those that recognise it. */
  lemma {:induction false} RecogniseIsShortest(t: Table, s: seq<byte>)
    ensures var r := Recognise(t, s);
            var k := if r.Recognised? then r.size else |s| + 1;
            forall n | 0 < n < k && n <= |s| :: Find(t, s[..n]).NotFound?
    decreases |s|
  {
    if s != [] {
      var p := s[..|s| - 1];
      RecogniseIsShortest(t, p);
      forall n | 0 < n <= |p| ensures s[..n] == p[..n] {
      }
      assert s[..|s|] == s;
    }
  }

  /** The search goes by kind, then by position. */
  lemma {:induction false} FindIsFirst(t: Table, from: nat, s: seq<byte>)
    requires from <= 3
    ensures match FindFrom(t, from, s)
            case NotFound => forall k, i | from <= k < 3 && 0 <= i < |t[k]| :: !Matches(t[k][i], s)
            case Found(kind, m) =>
              from <= kind < 3 && (exists i | 0 <= i < |t[kind]| ::
                && t[kind][i] == m && Matches(m, s)
                && (forall j | 0 <= j < i :: !Matches(t[kind][j], s))
                && (forall k, j | from <= k < kind && 0 <= j < |t[k]| :: !Matches(t[k][j], s)))
    decreases 3 - from
  {
    if from < 3 {
      var i := FirstIn(t[from], s);
      if i == |t[from]| {
        FindIsFirst(t, from + 1, s);
      } else {
        assert t[from][i] == FindFrom(t, from, s).match_;
      }
    }
  }

  /** Pieces and the separators between them put together again. */
  function Rejoin(ps: seq<seq<byte>>, seps: seq<byte>): seq<byte>
    requires |ps| == |seps| + 1
    decreases |seps|
  {
    if seps == [] then ps[0]
    else Rejoin(ps[..|ps| - 1], seps[..|seps| - 1]) + [seps[|seps| - 1]] + ps[|ps| - 1]
  }

  /** The pieces hold no separator, and rejoined at the text's own separators they are the text. */
  lemma {:induction false} PiecesRejoin(s: seq<byte>, separators: seq<byte>) returns (seps: seq<byte>)
    ensures |Pieces(s, separators)| == |seps| + 1
    ensures Rejoin(Pieces(s, separators), seps) == s
    ensures forall b <- seps :: b in separators
    ensures forall p <- Pieces(s, separators), b <- p :: b !in separators
    decreases |s|
  {
    if s == [] {
      seps := [];
    } else {
      var n := |s| - 1;
      var before, after := Pieces(s[..n], separators), Pieces(s, separators);
      var earlier := PiecesRejoin(s[..n], separators);
      assert s == s[..n] + [s[n]];
      if IsIn(s[n], separators) {
        seps := earlier + [s[n]];
        assert after[..|after| - 1] == before && seps[..|seps| - 1] == earlier;
      } else {
        seps := earlier;
        RejoinGrown(before, seps, s[n]);
        forall p <- after, b <- p ensures b !in separators {
          if p !in before {
            assert p == before[|before| - 1] + [s[n]];
            assert before[|before| - 1] in before;
          }
        }
      }
    }
  }

  lemma RejoinGrown(ps: seq<seq<byte>>, seps: seq<byte>, b: byte)
    requires |ps| == |seps| + 1
    ensures Rejoin(ps[..|ps| - 1] + [ps[|ps| - 1] + [b]], seps) == Rejoin(ps, seps) + [b]
  {
    var qs := ps[..|ps| - 1] + [ps[|ps| - 1] + [b]];
    assert qs[..|qs| - 1] == ps[..|ps| - 1];
  }

  /** A separator at the end of the text adds no argument. */
  lemma ArgumentsExact(s: seq<byte>, separators: seq<byte>)
    ensures s == [] ==> Arguments(s, separators) == []
    ensures s != [] && s[|s| - 1] in separators ==> Arguments(s, separators) == Pieces(s[..|s| - 1], separators)
    ensures s != [] && s[|s| - 1] !in separators ==> Arguments(s, separators) == Pieces(s, separators)
  {
  }

  /**
   What a line is dispatched as: its shortest prefix that some match recognises, the first such match, and the text
   behind it cut at separators; without such a prefix the first empty match with the whole line, or nothing.
   */
  lemma LineDispatchExact(t: Table, line: seq<byte>, n: nat)
    requires 0 < n <= |line| && forall i | 0 < i < n :: Find(t, line[..i]).NotFound?
    ensures Find(t, line[..n]).Found? ==>
              var f := Find(t, line[..n]);
              LineDispatch(t, line) ==
              Received(Dispatch(f.kind, f.match_, [line[..n]] + Arguments(line[n..], f.match_.separators)))
    ensures n == |line| && Find(t, line).NotFound? && Find(t, []).Found? ==>
              LineDispatch(t, line) == Received(Dispatch(Find(t, []).kind, Find(t, []).match_, [[], line]))
    ensures n == |line| && Find(t, line).NotFound? && Find(t, []).NotFound? ==> LineDispatch(t, line) == Silent
  {
    RecognisedFirst(t, line, n);
  }

  lemma RecognisedFirst(t: Table, line: seq<byte>, n: nat)
    requires 0 < n <= |line| && forall i | 0 < i < n :: Find(t, line[..i]).NotFound?
    ensures Find(t, line[..n]).Found? ==>
              Recognise(t, line) == Recognised(n, Find(t, line[..n]).kind, Find(t, line[..n]).match_)
    ensures n == |line| && Find(t, line).NotFound? ==> Recognise(t, line).Unrecognised?
  {
    var r := Recognise(t, line);
    RecogniseIsShortest(t, line);
    assert line[..|line|] == line;
    if r.Recognised? {
      assert Find(t, line[..r.size]).Found? && n <= r.size;
    }
  }

  // ----- What the parser holds while it reads a line

  predicate NoZero(s: seq<byte>) { forall i | 0 <= i < |s| :: s[i] != 0 }

  /** The string `s` stands in the buffer where `a` points, its terminator below `end`. */
  predicate Holds(buf: seq<byte>, a: Arg, s: seq<byte>, end: nat) {
    match a
    case Empty => s == []
    case At(o) => 0 <= o && o + |s| < end <= |buf| && buf[o..o + |s|] == s && buf[o + |s|] == 0
  }

  lemma {:induction false} CStringIs(buf: seq<byte>, o: nat, s: seq<byte>)
    requires NoZero(s) && o + |s| < |buf| && buf[o..o + |s|] == s && buf[o + |s|] == 0
    ensures CString(buf, o) == s
    decreases |s|
  {
    if s != [] {
      assert buf[o] == s[0];
      assert buf[o + 1..o + 1 + |s[1..]|] == s[1..];
      CStringIs(buf, o + 1, s[1..]);
    }
  }

  lemma HeldString(buf: seq<byte>, a: Arg, s: seq<byte>, end: nat)
    requires Holds(buf, a, s, end) && NoZero(s)
    ensures StringOf(buf, a) == s
  {
    if a.At? {
      CStringIs(buf, a.offset, s);
    }
  }

  /** Writing at or above `end` leaves the strings below it alone. */
  lemma HoldsKept(buf: seq<byte>, buf': seq<byte>, a: Arg, s: seq<byte>, end: nat, end': nat)
    requires Holds(buf, a, s, end) && end <= end' <= |buf'| == |buf| && buf'[..end] == buf[..end]
    ensures Holds(buf', a, s, end')
  {
    if a.At? {
      assert buf'[a.offset..a.offset + |s|] == buf'[..end][a.offset..a.offset + |s|];
      assert buf[a.offset..a.offset + |s|] == buf[..end][a.offset..a.offset + |s|];
      assert buf'[a.offset + |s|] == buf'[..end][a.offset + |s|];
    }
  }

  /** The saved match: its string at the very end of the buffer. */
  predicate Saved(buf: seq<byte>, s: seq<byte>) {
    |s| < |buf| && buf[|buf| - |s| - 1..] == s + [0]
  }

  /** The arguments completed so far, and the beginning of the next in front of the read position. */
  ghost predicate Collected(p: Parser, ps: seq<seq<byte>>) {
    && ps != [] && |p.argv| == |ps| && p.len <= |p.buf|
    && (forall j | 0 <= j < |ps| - 1 :: Holds(p.buf, p.argv[j + 1], ps[j], p.len))
    && p.argLen == |ps[|ps| - 1]| <= p.len
    && p.buf[p.len - p.argLen..p.len] == ps[|ps| - 1]
  }

  /** Separators may have been overwritten with terminators, nothing else. */
  predicate TextOrZero(buf: seq<byte>, s: seq<byte>) {
    |s| <= |buf| && forall i | 0 <= i < |s| :: buf[i] == s[i] || buf[i] == 0
  }

  /** The parser behind a match of `k` octets, whatever table it is in. */
  ghost predicate Behind(p: Parser, s: seq<byte>, k: nat, f: Found) {
    && f.Found? && p.found == f && p.len == |s| && k <= |s| && TextOrZero(p.buf, s)
    && Collected(p, Pieces(s[k..], f.match_.separators))
    && p.argv[0] == At(|p.buf| - k - 1) && Saved(p.buf, s[..k])
  }

  /** The parser has read `s` of a line, none of it delimiter. */
  ghost predicate Reading(p: Parser, t: Table, s: seq<byte>) {
    match Recognise(t, s)
    case Unrecognised =>
      p.len == |s| && TextOrZero(p.buf, s) && p.found == NotFound && p.argv == [] && p.buf[..p.len] == s
    case Recognised(k, kind, m) => Behind(p, s, k, Found(kind, m))
  }

  /** The octets the buffer must have room for: the line, its delimiter, and the match with its terminator. */
  function Needed(c: Config, t: Table, line: seq<byte>): nat {
    |line| + |c.delimiter| + match Recognise(t, line) case Unrecognised => 0 case Recognised(k, _, _) => k + 1
  }

  lemma PiecesSnoc(s: seq<byte>, b: byte, separators: seq<byte>)
    ensures Pieces(s + [b], separators) ==
            var ps := Pieces(s, separators);
            if IsIn(b, separators) then ps + [[]] else ps[..|ps| - 1] + [ps[|ps| - 1] + [b]]
  {
    assert (s + [b])[..|s|] == s;
  }

  lemma RecogniseSnoc(t: Table, s: seq<byte>, b: byte)
    ensures Recognise(t, s + [b]) ==
            if Recognise(t, s).Recognised? then Recognise(t, s)
            else match Find(t, s + [b])
                 case NotFound => Unrecognised
                 case Found(kind, m) => Recognised(|s| + 1, kind, m)
  {
    assert (s + [b])[..|s|] == s;
  }

  // ----- One octet of text

  lemma ArgumentOctet(p: Parser, ps: seq<seq<byte>>, separators: seq<byte>, b: byte)
    requires Collected(p, ps) && p.len < |p.buf| && p.found.Found? && p.found.match_.separators == separators
    requires !IsIn(b, separators)
    ensures Collected(OnArgumentByte(Stored(p, b), b), ps[..|ps| - 1] + [ps[|ps| - 1] + [b]])
  {
    var q, last := Stored(p, b), ps[|ps| - 1];
    assert q.buf[..p.len] == p.buf[..p.len];
    forall j | 0 <= j < |ps| - 1 ensures Holds(q.buf, p.argv[j + 1], ps[j], q.len) {
      HoldsKept(p.buf, q.buf, p.argv[j + 1], ps[j], p.len, q.len);
    }
    assert q.buf[p.len - p.argLen..q.len] == p.buf[p.len - p.argLen..p.len] + [b];
  }

  lemma SeparatorOctet(p: Parser, ps: seq<seq<byte>>, separators: seq<byte>, b: byte)
    requires Collected(p, ps) && p.len < |p.buf| && p.found.Found? && p.found.match_.separators == separators
    requires IsIn(b, separators)
    ensures Collected(OnArgumentByte(Stored(p, b), b), ps + [[]])
  {
    var last := ps[|ps| - 1];
    var q := OnArgumentByte(Stored(p, b), b);
    assert q.buf[..p.len] == p.buf[..p.len];
    forall j | 0 <= j < |ps| ensures Holds(q.buf, q.argv[j + 1], (ps + [[]])[j], q.len) {
      if j < |ps| - 1 {
        HoldsKept(p.buf, q.buf, p.argv[j + 1], ps[j], p.len, q.len);
      } else if p.argLen > 0 {
        assert q.buf[p.len - p.argLen..p.len] == p.buf[p.len - p.argLen..p.len];
      }
    }
    assert q.buf[q.len..q.len] == [];
  }

  /** A line of text. */
  predicate Text(c: Config, line: seq<byte>) {
    NoZero(line) && NoZero(c.delimiter) && forall i | 0 <= i < |line| :: !IsIn(line[i], c.delimiter)
  }

  /** A line of text, with pointers enough for its arguments. */
  predicate Clean(c: Config, t: Table, line: seq<byte>) {
    Text(c, line)
    && match Recognise(t, line)
       case Unrecognised => true
       case Recognised(k, _, m) => |Pieces(line[k..], m.separators)| < c.argvSize
  }

  /** A line the buffer takes in. */
  predicate Storable(c: Config, t: Table, size: nat, line: seq<byte>) {
    Clean(c, t, line) && Needed(c, t, line) <= size
  }

  /** A line that would go to a catch-all. */
  predicate ForCatchAll(t: Table, line: seq<byte>) {
    line != [] && Recognise(t, line).Unrecognised? && Find(t, []).Found?
  }

  /** What must be true of a line for the parser to take it in and dispatch it; a catch-all needs two pointers. */
  predicate Acceptable(c: Config, t: Table, size: nat, line: seq<byte>) {
    Storable(c, t, size, line) && (ForCatchAll(t, line) ==> 2 <= c.argvSize)
  }

  lemma PrefixFits(c: Config, t: Table, size: nat, line: seq<byte>, n: nat)
    requires Storable(c, t, size, line) && n <= |line| && Recognise(t, line[..n]).Recognised?
    ensures |line| + |c.delimiter| + Recognise(t, line[..n]).size + 1 <= size
  {
    RecognisePrefix(t, line, n);
  }

  lemma {:induction false} PiecesGrow(s: seq<byte>, k: nat, separators: seq<byte>)
    requires k <= |s|
    ensures |Pieces(s[..k], separators)| <= |Pieces(s, separators)|
    decreases |s|
  {
    if k == |s| {
      assert s[..k] == s;
    } else {
      var p := s[..|s| - 1];
      assert p[..k] == s[..k];
      PiecesGrow(p, k, separators);
    }
  }

  lemma {:induction false} RecognisePrefix(t: Table, s: seq<byte>, k: nat)
    requires k <= |s| && Recognise(t, s[..k]).Recognised?
    ensures Recognise(t, s) == Recognise(t, s[..k])
    decreases |s|
  {
    if k == |s| {
      assert s[..k] == s;
    } else {
      var p := s[..|s| - 1];
      assert p[..k] == s[..k];
      RecognisePrefix(t, p, k);
    }
  }

  lemma ArgvHasRoom(p: Parser, c: Config, t: Table, line: seq<byte>, n: nat)
    requires Storable(c, t, |p.buf|, line) && n <= |line| && Reading(p, t, line[..n]) && 0 < c.argvSize
    ensures |p.argv| < c.argvSize
  {
    var s := line[..n];
    var r := Recognise(t, s);
    if r.Recognised? {
      RecognisePrefix(t, line, n);
      assert line[r.size..][..n - r.size] == s[r.size..];
      PiecesGrow(line[r.size..], n - r.size, r.match_.separators);
    }
  }

  /** A complete delimiter stands at the end, first octet to last. */
  lemma CompleteDelimiter(q: Parser, d: seq<byte>)
    requires 0 < |d| && 0 < q.len <= |q.buf| && DelimiterComplete(q, d)
    ensures q.buf[q.len - |d|] == d[0] && q.buf[q.len - 1] == d[|d| - 1] && IsIn(q.buf[q.len - 1], d)
  {
    var tail := q.buf[q.len - |d|..q.len];
    assert tail[0] == d[0] && tail[|d| - 1] == d[|d| - 1];
  }

  lemma TextIsNoDelimiter(q: Parser, d: seq<byte>)
    requires 0 < |d| && 0 < q.len <= |q.buf| && !IsIn(q.buf[q.len - 1], d)
    ensures !DelimiterComplete(q, d)
  {
    if DelimiterComplete(q, d) {
      CompleteDelimiter(q, d);
    }
  }

  lemma StillUnrecognised(p: Parser, t: Table, s: seq<byte>, b: byte)
    requires Reading(p, t, s) && Recognise(t, s).Unrecognised? && p.len < |p.buf|
    requires Find(t, s + [b]).NotFound?
    ensures Reading(Stored(p, b), t, s + [b])
  {
    var q := Stored(p, b);
    OctetStored(p, s, b);
    RecogniseSnoc(t, s, b);
    assert forall i | 0 <= i < q.len :: q.buf[i] == q.buf[..q.len][i];
  }

  lemma MatchSaved(q: Parser, f: Found, whole: seq<byte>)
    requires q.len == |whole| && 2 * q.len + 1 <= |q.buf| && q.buf[..q.len] == whole
    ensures var r := SaveMatch(q, f);
            |r.buf| == |q.buf| && r.buf[..q.len] == whole && Saved(r.buf, whole) && TextOrZero(r.buf, whole)
  {
    var r := SaveMatch(q, f);
    assert r.buf[..q.len] == q.buf[..q.len];
    assert r.buf[|r.buf| - q.len - 1..] == whole + [0];
    assert forall i | 0 <= i < q.len :: r.buf[i] == r.buf[..q.len][i];
  }

  lemma NewlyBehind(q: Parser, f: Found, whole: seq<byte>)
    requires f.Found? && q.len == |whole| && 2 * q.len + 1 <= |q.buf| && q.buf[..q.len] == whole && q.argv == []
    ensures Behind(SaveMatch(q, f), whole, |whole|, f)
  {
    MatchSaved(q, f, whole);
    MatchOnly(SaveMatch(q, f), whole, f);
  }

  lemma NewlyRecognised(p: Parser, t: Table, s: seq<byte>, b: byte, f: Found)
    requires Reading(p, t, s) && Recognise(t, s).Unrecognised?
    requires f == Find(t, s + [b]) && f.Found? && 2 * p.len + 3 <= |p.buf|
    ensures Reading(SaveMatch(Stored(p, b), f), t, s + [b])
  {
    OctetStored(p, s, b);
    NewlyBehind(Stored(p, b), f, s + [b]);
    RecogniseSnoc(t, s, b);
  }

  lemma OctetStored(p: Parser, s: seq<byte>, b: byte)
    requires p.len < |p.buf| && p.buf[..p.len] == s
    ensures Stored(p, b).buf[..p.len + 1] == s + [b]
  {
  }

  lemma MatchOnly(r: Parser, whole: seq<byte>, f: Found)
    requires r.len == |whole| <= |r.buf| && TextOrZero(r.buf, whole) && Saved(r.buf, whole)
    requires f.Found? && r.found == f && r.argv == [At(|r.buf| - |whole| - 1)] && r.argLen == 0
    ensures Behind(r, whole, |whole|, f)
  {
    assert whole[..|whole|] == whole && whole[|whole|..] == [];
    assert r.buf[r.len..r.len] == [];
  }

  lemma SavedKept(buf: seq<byte>, buf': seq<byte>, s: seq<byte>, i: nat)
    requires Saved(buf, s) && |buf'| == |buf| && i <= |buf| - |s| - 1 && buf'[i..] == buf[i..]
    ensures Saved(buf', s)
  {
    assert buf'[|buf| - |s| - 1..] == buf'[i..][|buf| - |s| - 1 - i..];
    assert buf[|buf| - |s| - 1..] == buf[i..][|buf| - |s| - 1 - i..];
  }

  lemma TextStored(p: Parser, q: Parser, s: seq<byte>, b: byte)
    requires p.len == |s| < |p.buf| && TextOrZero(p.buf, s) && p.found.Found?
    requires q == OnArgumentByte(Stored(p, b), b)
    ensures |q.buf| == |p.buf| && TextOrZero(q.buf, s + [b]) && q.buf[p.len + 1..] == p.buf[p.len + 1..]
  {
  }

  lemma CollectedWhole(p: Parser, s: seq<byte>, b: byte, k: nat, separators: seq<byte>)
    requires k <= |s| && Collected(p, Pieces(s[k..], separators)) && p.len < |p.buf|
    requires p.found.Found? && p.found.match_.separators == separators
    ensures var q := OnArgumentByte(Stored(p, b), b);
            q.argv != [] && q.argv[0] == p.argv[0] && Collected(q, Pieces((s + [b])[k..], separators))
  {
    CollectedOctet(p, Pieces(s[k..], separators), separators, b);
    Cut(s, b, k);
    PiecesSnoc(s[k..], b, separators);
  }

  /** What an octet behind a match changes: the octet behind the text, and perhaps one more pointer. */
  lemma ArgumentStored(p: Parser, b: byte)
    requires p.len < |p.buf| && p.found.Found? && p.argv != []
    ensures var q := OnArgumentByte(Stored(p, b), b);
            && q.len == p.len + 1 && |q.buf| == |p.buf| && q.found == p.found
            && q.buf[..p.len] == p.buf[..p.len] && (q.buf[p.len] == b || q.buf[p.len] == 0)
            && |q.argv| == |p.argv| + (if IsIn(b, p.found.match_.separators) then 1 else 0)
            && q.argv[0] == p.argv[0]
  {
  }

  lemma StillBehind(p: Parser, q: Parser, s: seq<byte>, k: nat, f: Found)
    requires f.Found? && q.found == f && q.len == |s| && k <= |s| && TextOrZero(q.buf, s)
    requires Collected(q, Pieces(s[k..], f.match_.separators)) && |q.buf| == |p.buf|
    requires p.argv != [] && p.argv[0] == At(|p.buf| - k - 1) && q.argv != [] && q.argv[0] == p.argv[0]
    requires Saved(q.buf, s[..k])
    ensures Behind(q, s, k, f)
  {
  }

  lemma BehindOctet(p: Parser, s: seq<byte>, b: byte, k: nat, f: Found)
    requires Behind(p, s, k, f) && p.len + k + 2 <= |p.buf|
    ensures Behind(OnArgumentByte(Stored(p, b), b), s + [b], k, f)
  {
    var q := OnArgumentByte(Stored(p, b), b);
    ArgumentStored(p, b);
    TextStored(p, q, s, b);
    SavedKept(p.buf, q.buf, s[..k], p.len + 1);
    CollectedWhole(p, s, b, k, f.match_.separators);
    Cut(s, b, k);
    StillBehind(p, q, s + [b], k, f);
  }

  lemma RecognisedOctet(p: Parser, t: Table, s: seq<byte>, b: byte)
    requires Reading(p, t, s) && Recognise(t, s).Recognised?
    requires p.len + Recognise(t, s).size + 2 <= |p.buf|
    ensures Reading(OnArgumentByte(Stored(p, b), b), t, s + [b])
  {
    var r := Recognise(t, s);
    RecogniseSnoc(t, s, b);
    BehindOctet(p, s, b, r.size, Found(r.kind, r.match_));
  }

  lemma Cut(s: seq<byte>, b: byte, k: nat)
    requires k <= |s|
    ensures (s + [b])[k..] == s[k..] + [b] && (s + [b])[..k] == s[..k]
  {
  }

  lemma CollectedOctet(p: Parser, ps: seq<seq<byte>>, separators: seq<byte>, b: byte)
    requires Collected(p, ps) && p.len < |p.buf| && p.found.Found? && p.found.match_.separators == separators
    ensures OnArgumentByte(Stored(p, b), b).argv != [] && OnArgumentByte(Stored(p, b), b).argv[0] == p.argv[0]
    ensures Collected(OnArgumentByte(Stored(p, b), b),
                      if IsIn(b, separators) then ps + [[]] else ps[..|ps| - 1] + [ps[|ps| - 1] + [b]])
  {
    if IsIn(b, separators) {
      SeparatorOctet(p, ps, separators, b);
    } else {
      ArgumentOctet(p, ps, separators, b);
    }
  }

  /** One octet of text keeps the parser reading. */
  lemma TextOctet(p: Parser, c: Config, t: Table, line: seq<byte>, n: nat)
    requires Configured(|p.buf|, c, t) && Storable(c, t, |p.buf|, line) && n < |line| && Reading(p, t, line[..n])
    ensures var (p', o) := ProcessByte(p, c, t, line[n]);
            Reading(p', t, line[..n + 1]) && |p'.buf| == |p.buf| && o == Silent
  {
    ArgvHasRoom(p, c, t, line, n);
    TextIsNoDelimiter(Stored(p, line[n]), c.delimiter);
    assert ProcessByte(p, c, t, line[n]) == (OnTextByte(Stored(p, line[n]), t, line[n]), Silent);
    TextRead(p, c, t, line, n);
  }

  lemma TextRead(p: Parser, c: Config, t: Table, line: seq<byte>, n: nat)
    requires Configured(|p.buf|, c, t) && Storable(c, t, |p.buf|, line) && n < |line| && Reading(p, t, line[..n])
    ensures p.len < |p.buf| && |OnTextByte(Stored(p, line[n]), t, line[n]).buf| == |p.buf|
    ensures Reading(OnTextByte(Stored(p, line[n]), t, line[n]), t, line[..n + 1])
  {
    if Recognise(t, line[..n]).Recognised? {
      LaterOctets(p, c, t, line, n);
    } else {
      FirstOctets(p, c, t, line, n);
    }
  }

  lemma LaterOctets(p: Parser, c: Config, t: Table, line: seq<byte>, n: nat)
    requires Configured(|p.buf|, c, t) && Storable(c, t, |p.buf|, line) && n < |line| && Reading(p, t, line[..n])
    requires Recognise(t, line[..n]).Recognised?
    ensures p.len < |p.buf| && Reading(OnArgumentByte(Stored(p, line[n]), line[n]), t, line[..n + 1])
  {
    PrefixFits(c, t, |p.buf|, line, n);
    TakeSnoc([], line, n);
    RecognisedOctet(p, t, line[..n], line[n]);
  }

  lemma FirstOctets(p: Parser, c: Config, t: Table, line: seq<byte>, n: nat)
    requires Configured(|p.buf|, c, t) && Storable(c, t, |p.buf|, line) && n < |line| && Reading(p, t, line[..n])
    requires Recognise(t, line[..n]).Unrecognised?
    ensures var q := Stored(p, line[n]);
            var f := Find(t, q.buf[..q.len]);
            if f.NotFound? then Reading(q, t, line[..n + 1])
            else q.len < |q.buf| && Reading(SaveMatch(q, f), t, line[..n + 1])
  {
    var s, b := line[..n], line[n];
    TakeSnoc([], line, n);
    OctetStored(p, s, b);
    var f := Find(t, s + [b]);
    if f.Found? {
      RecogniseSnoc(t, s, b);
      PrefixFits(c, t, |p.buf|, line, n + 1);
      NewlyRecognised(p, t, s, b, f);
    } else {
      StillUnrecognised(p, t, s, b);
    }
  }

  // ----- The end of the line

  /** The whole line has been read, and `e` of the delimiter behind it. */
  ghost predicate Ending(p: Parser, t: Table, line: seq<byte>, e: seq<byte>) {
    && p.len == |line| + |e| <= |p.buf| && p.buf[|line|..p.len] == e
    && Reading(p.(len := |line|), t, line)
  }

  /** Writing behind the text, in front of the saved match, leaves everything read in place. */
  lemma ReadingKept(p: Parser, p': Parser, t: Table, s: seq<byte>, i: nat)
    requires Reading(p, t, s) && p' == p.(buf := p'.buf) && |p'.buf| == |p.buf| && p.len <= i < |p.buf|
    requires forall j | 0 <= j < |p.buf| && j != i :: p'.buf[j] == p.buf[j]
    requires Recognise(t, s).Recognised? ==> i + 1 <= |p.buf| - Recognise(t, s).size - 1
    ensures Reading(p', t, s)
  {
    assert p'.buf[..p.len] == p.buf[..p.len];
    var r := Recognise(t, s);
    if r.Recognised? {
      var ps := Pieces(s[r.size..], r.match_.separators);
      assert p'.buf[i + 1..] == p.buf[i + 1..];
      SavedKept(p.buf, p'.buf, s[..r.size], i + 1);
      forall j | 0 <= j < |ps| - 1 ensures Holds(p'.buf, p'.argv[j + 1], ps[j], p'.len) {
        HoldsKept(p.buf, p'.buf, p.argv[j + 1], ps[j], p.len, p.len);
      }
      assert p'.buf[p.len - p.argLen..p.len] == p.buf[..p.len][p.len - p.argLen..];
      assert p.buf[p.len - p.argLen..p.len] == p.buf[..p.len][p.len - p.argLen..];
    }
  }

  lemma DelimiterStored(p: Parser, c: Config, t: Table, line: seq<byte>, j: nat)
    requires Storable(c, t, |p.buf|, line) && j < |c.delimiter| && Ending(p, t, line, c.delimiter[..j])
    ensures p.len < |p.buf| && Ending(Stored(p, c.delimiter[j]), t, line, c.delimiter[..j + 1])
  {
    var q := Stored(p, c.delimiter[j]);
    ReadingKept(p.(len := |line|), q.(len := |line|), t, line, p.len);
    assert q.buf[|line|..q.len] == p.buf[|line|..p.len] + [c.delimiter[j]];
    assert c.delimiter[..j + 1] == c.delimiter[..j] + [c.delimiter[j]];
  }

  lemma PartialDelimiter(q: Parser, c: Config, t: Table, line: seq<byte>, j: nat)
    requires Storable(c, t, |q.buf|, line) && j < |c.delimiter| && Ending(q, t, line, c.delimiter[..j])
    ensures !DelimiterComplete(q, c.delimiter)
  {
    var d := c.delimiter;
    if |d| <= q.len {
      var i := q.len - |d|;
      assert q.buf[i] == line[i] || q.buf[i] == 0;
      assert IsIn(d[0], d) && d[0] != 0;
      assert q.buf[i] != d[0];
      if DelimiterComplete(q, d) {
        CompleteDelimiter(q, d);
      }
    }
  }

  /** A delimiter octet that does not complete the delimiter changes nothing that was read. */
  lemma DelimiterOctet(p: Parser, c: Config, t: Table, line: seq<byte>, j: nat)
    requires Configured(|p.buf|, c, t) && Storable(c, t, |p.buf|, line)
    requires j + 1 < |c.delimiter| && Ending(p, t, line, c.delimiter[..j])
    ensures var (p', o) := ProcessByte(p, c, t, c.delimiter[j]);
            Ending(p', t, line, c.delimiter[..j + 1]) && |p'.buf| == |p.buf| && o == Silent
  {
    DelimiterStored(p, c, t, line, j);
    PartialDelimiter(Stored(p, c.delimiter[j]), c, t, line, j + 1);
    assert line[..|line|] == line;
    ArgvHasRoom(p.(len := |line|), c, t, line, |line|);
    assert IsIn(c.delimiter[j], c.delimiter);
  }

  lemma UnknownDispatched(q: Parser, c: Config, t: Table, line: seq<byte>)
    requires line != [] && Acceptable(c, t, |q.buf|, line) && Ending(q, t, line, c.delimiter) && 0 < |c.delimiter|
    requires Recognise(t, line).Unrecognised?
    ensures OnUnknown(q, c, t) == LineDispatch(t, line)
  {
    var buf := q.buf[|line| := 0];
    assert buf[0..|line|] == q.buf[..|line|] == line;
    CStringIs(buf, 0, line);
    assert Strings(buf, [Empty, At(0)]) == [[], line];
  }

  predicate AllNoZero(ps: seq<seq<byte>>) { forall j | 0 <= j < |ps| :: NoZero(ps[j]) }

  lemma {:induction false} PiecesNoZero(s: seq<byte>, separators: seq<byte>)
    requires NoZero(s)
    ensures AllNoZero(Pieces(s, separators))
    decreases |s|
  {
    if s != [] {
      var n := |s| - 1;
      PiecesNoZero(s[..n], separators);
      var ps := Pieces(s[..n], separators);
      assert NoZero(ps[|ps| - 1] + [s[n]]);
    }
  }

  /** The pointers lead to the strings collected, the first to the match. */
  lemma StringsHeld(buf: seq<byte>, argv: seq<Arg>, first: seq<byte>, rest: seq<seq<byte>>, end: nat)
    requires |argv| == |rest| + 1 && argv[0] == At(|buf| - |first| - 1) && Saved(buf, first) && NoZero(first)
    requires forall j | 0 <= j < |rest| :: Holds(buf, argv[j + 1], rest[j], end) && NoZero(rest[j])
    ensures Strings(buf, argv) == [first] + rest
  {
    FirstHeld(buf, first);
    forall i | 0 <= i < |argv| ensures Strings(buf, argv)[i] == ([first] + rest)[i] {
      if i > 0 {
        assert Holds(buf, argv[(i - 1) + 1], rest[i - 1], end) && NoZero(rest[i - 1]);
        HeldString(buf, argv[i], rest[i - 1], end);
      }
    }
  }

  lemma FirstHeld(buf: seq<byte>, first: seq<byte>)
    requires Saved(buf, first) && NoZero(first)
    ensures CString(buf, |buf| - |first| - 1) == first
  {
    var o := |buf| - |first| - 1;
    assert buf[o..o + |first|] == buf[o..][..|first|] && buf[o + |first|] == buf[o..][|first|];
    CStringIs(buf, o, first);
  }

  /** A whole line collected behind its match, in front of the saved match. */
  ghost predicate LineCollected(q: Parser, line: seq<byte>, ps: seq<seq<byte>>, k: nat) {
    && Collected(q, ps) && q.len == |line| && k <= |line| && |line| + k + 2 <= |q.buf|
    && q.argv[0] == At(|q.buf| - k - 1) && Saved(q.buf, line[..k])
    && NoZero(line[..k]) && AllNoZero(ps)
  }

  lemma TrailingArgument(q: Parser, line: seq<byte>, ps: seq<seq<byte>>, k: nat)
    requires LineCollected(q, line, ps, k) && 0 < q.argLen
    ensures Strings(q.buf[|line| := 0], q.argv + [At(|line| - q.argLen)]) == [line[..k]] + ps
  {
    var n, last := |line|, |ps| - 1;
    var buf, argv := q.buf[n := 0], q.argv + [At(n - q.argLen)];
    assert buf[..n] == q.buf[..n];
    SavedKept(q.buf, buf, line[..k], n + 1);
    assert buf[n - q.argLen..n] == q.buf[n - q.argLen..n];
    forall j | 0 <= j < |ps| ensures Holds(buf, argv[j + 1], ps[j], n + 1) && NoZero(ps[j]) {
      if j < last {
        HoldsKept(q.buf, buf, q.argv[j + 1], ps[j], n, n + 1);
      }
    }
    StringsHeld(buf, argv, line[..k], ps, n + 1);
  }

  lemma NoTrailingArgument(q: Parser, line: seq<byte>, ps: seq<seq<byte>>, k: nat)
    requires LineCollected(q, line, ps, k)
    ensures Strings(q.buf, q.argv) == [line[..k]] + ps[..|ps| - 1]
  {
    StringsHeld(q.buf, q.argv, line[..k], ps[..|ps| - 1], |line|);
  }

  lemma EndCollected(q: Parser, c: Config, t: Table, line: seq<byte>, r: Recognition)
    requires Acceptable(c, t, |q.buf|, line) && Ending(q, t, line, c.delimiter) && 0 < |c.delimiter|
    requires r.Recognised? && r == Recognise(t, line)
    ensures q.found == Found(r.kind, r.match_)
    ensures LineCollected(q.(len := |line|), line, Pieces(line[r.size..], r.match_.separators), r.size)
  {
    PiecesNoZero(line[r.size..], r.match_.separators);
  }

  /** The argument strings of a line that ends at `end`. */
  function FinalStrings(q: Parser, end: nat): seq<seq<byte>>
    requires end < |q.buf|
  {
    if q.argLen > 0 then Strings(q.buf[end := 0], q.argv + [At(end - q.argLen)]) else Strings(q.buf, q.argv)
  }

  lemma EndOfMatchedLine(q: Parser, c: Config, t: Table, end: nat)
    requires 0 < |c.delimiter| < q.len <= |q.buf| && end == q.len - |c.delimiter| && q.found.Found?
    ensures EndOfLine(q, c, t) == Received(Dispatch(q.found.kind, q.found.match_, FinalStrings(q, end)))
  {
  }

  lemma ArgumentStrings(q: Parser, line: seq<byte>, ps: seq<seq<byte>>, k: nat)
    requires LineCollected(q, line, ps, k) && |line| < |q.buf|
    ensures FinalStrings(q, |line|) == [line[..k]] + if ps[|ps| - 1] == [] then ps[..|ps| - 1] else ps
  {
    if q.argLen > 0 {
      TrailingArgument(q, line, ps, k);
    } else {
      NoTrailingArgument(q, line, ps, k);
    }
  }

  lemma LengthDoesNotMatter(q: Parser, end: nat)
    requires end < |q.buf|
    ensures FinalStrings(q.(len := end), end) == FinalStrings(q, end)
  {
  }

  lemma LineDispatchIs(t: Table, line: seq<byte>, r: Recognition)
    requires r.Recognised? && r == Recognise(t, line)
    ensures LineDispatch(t, line) ==
            Received(Dispatch(r.kind, r.match_, [line[..r.size]] + Arguments(line[r.size..], r.match_.separators)))
  {
  }

  lemma MatchedDispatch(q: Parser, c: Config, t: Table, line: seq<byte>, r: Recognition)
    requires r.Recognised? && r == Recognise(t, line) && q.found == Found(r.kind, r.match_)
    requires line != [] && 0 < |c.delimiter| && q.len == |line| + |c.delimiter| <= |q.buf|
    requires LineCollected(q.(len := |line|), line, Pieces(line[r.size..], r.match_.separators), r.size)
    ensures EndOfLine(q, c, t) == LineDispatch(t, line)
  {
    LineDispatchIs(t, line, r);
    EndOfMatchedLine(q, c, t, |line|);
    LengthDoesNotMatter(q, |line|);
    ArgumentStrings(q.(len := |line|), line, Pieces(line[r.size..], r.match_.separators), r.size);
  }

  lemma LineDispatched(q: Parser, c: Config, t: Table, line: seq<byte>)
    requires Acceptable(c, t, |q.buf|, line) && Ending(q, t, line, c.delimiter) && 0 < |c.delimiter|
    ensures EndOfLine(q, c, t) == LineDispatch(t, line)
  {
    var r := Recognise(t, line);
    if r.Recognised? {
      EndCollected(q, c, t, line, r);
      MatchedDispatch(q, c, t, line, r);
    } else if line != [] {
      UnknownDispatched(q, c, t, line);
    }
  }

  /** The last delimiter octet ends the line. */
  lemma LastStored(p: Parser, c: Config, t: Table, line: seq<byte>)
    requires Configured(|p.buf|, c, t) && Storable(c, t, |p.buf|, line)
    requires Ending(p, t, line, c.delimiter[..|c.delimiter| - 1])
    ensures p.len < |p.buf|
    ensures var q := Stored(p, c.delimiter[|c.delimiter| - 1]);
            && Ending(q, t, line, c.delimiter)
            && ProcessByte(p, c, t, c.delimiter[|c.delimiter| - 1]) == (Reset(Finished(q, c, t)), EndOfLine(q, c, t))
  {
    var d := c.delimiter;
    var j := |d| - 1;
    DelimiterStored(p, c, t, line, j);
    assert d[..j + 1] == d;
    assert DelimiterComplete(Stored(p, d[j]), d);
    assert line[..|line|] == line;
    ArgvHasRoom(p.(len := |line|), c, t, line, |line|);
  }

  /** It dispatches the line as specified and resets the parser. */
  lemma LastOctet(p: Parser, c: Config, t: Table, line: seq<byte>)
    requires Configured(|p.buf|, c, t) && Acceptable(c, t, |p.buf|, line)
    requires Ending(p, t, line, c.delimiter[..|c.delimiter| - 1])
    ensures var (p', o) := ProcessByte(p, c, t, c.delimiter[|c.delimiter| - 1]);
            && o == LineDispatch(t, line)
            && |p'.buf| == |p.buf| && p'.len == 0 && p'.argv == [] && p'.found == NotFound
  {
    LastStored(p, c, t, line);
    LineDispatched(Stored(p, c.delimiter[|c.delimiter| - 1]), c, t, line);
  }

  // ----- Whole streams

  datatype Listener = Listener(parser: Parser, dispatched: seq<Dispatch>)

  /** Folds the octets of a chunk, discarding those in the filter. */
  function Listen(l: Listener, c: Config, t: Table, bs: seq<byte>): (l': Listener)
    requires Configured(|l.parser.buf|, c, t) && l.parser.len <= |l.parser.buf|
    ensures |l'.parser.buf| == |l.parser.buf| && l'.parser.len <= |l'.parser.buf|
    decreases |bs|
  {
    if bs == [] then l else Listen(Hear(l, c, t, bs[0]), c, t, bs[1..])
  }

  function Hear(l: Listener, c: Config, t: Table, b: byte): (l': Listener)
    requires Configured(|l.parser.buf|, c, t) && l.parser.len <= |l.parser.buf|
    ensures |l'.parser.buf| == |l.parser.buf| && l'.parser.len <= |l'.parser.buf|
  {
    if IsIn(b, c.filter) then l
    else
      StepBounds(l.parser, c, t, b);
      var (p, o) := ProcessByte(l.parser, c, t, b);
      Listener(p, l.dispatched + Dispatched(o))
  }

  lemma StepBounds(p: Parser, c: Config, t: Table, b: byte)
    requires Configured(|p.buf|, c, t) && p.len <= |p.buf|
    ensures var p' := ProcessByte(p, c, t, b).0;
            |p'.buf| == |p.buf| && p'.len <= |p'.buf|
  {
  }

  function Unfiltered(bs: seq<byte>, filter: seq<byte>): seq<byte> {
    if bs == [] then []
    else (if IsIn(bs[0], filter) then [] else [bs[0]]) + Unfiltered(bs[1..], filter)
  }

  /** Between lines. */
  predicate AtLineStart(p: Parser) { p.len == 0 && p.argv == [] && p.found == NotFound }

  lemma {:induction false} ListenConcat(l: Listener, c: Config, t: Table, a: seq<byte>, b: seq<byte>)
    requires Configured(|l.parser.buf|, c, t) && l.parser.len <= |l.parser.buf|
    ensures Listen(l, c, t, a + b) == Listen(Listen(l, c, t, a), c, t, b)
    decreases |a|
  {
    if a == [] {
      assert a + b == b;
    } else {
      assert (a + b)[0] == a[0] && (a + b)[1..] == a[1..] + b;
      ListenConcat(Hear(l, c, t, a[0]), c, t, a[1..], b);
    }
  }

  lemma ListenSnoc(l: Listener, c: Config, t: Table, a: seq<byte>, b: byte)
    requires Configured(|l.parser.buf|, c, t) && l.parser.len <= |l.parser.buf|
    ensures Listen(l, c, t, a + [b]) == Hear(Listen(l, c, t, a), c, t, b)
  {
    ListenConcat(l, c, t, a, [b]);
    assert [b][1..] == [];
  }

  lemma {:induction false} ListenUnfiltered(l: Listener, c: Config, t: Table, bs: seq<byte>)
    requires Configured(|l.parser.buf|, c, t) && l.parser.len <= |l.parser.buf|
    ensures Listen(l, c, t, bs) == Listen(l, c.(filter := []), t, Unfiltered(bs, c.filter))
    decreases |bs|
  {
    if bs != [] {
      UnfilteredHead(bs, c.filter);
      if IsIn(bs[0], c.filter) {
        ListenUnfiltered(l, c, t, bs[1..]);
      } else {
        HearUnfiltered(l, c, t, bs[0]);
        ListenUnfiltered(Hear(l, c, t, bs[0]), c, t, bs[1..]);
      }
    }
  }

  lemma HearUnfiltered(l: Listener, c: Config, t: Table, b: byte)
    requires Configured(|l.parser.buf|, c, t) && l.parser.len <= |l.parser.buf| && !IsIn(b, c.filter)
    ensures Hear(l, c, t, b) == Hear(l, c.(filter := []), t, b)
  {
  }

  lemma UnfilteredHead(bs: seq<byte>, filter: seq<byte>)
    requires bs != []
    ensures var all, rest := Unfiltered(bs, filter), Unfiltered(bs[1..], filter);
            if IsIn(bs[0], filter) then all == rest else all != [] && all[0] == bs[0] && all[1..] == rest
  {
    assert [] + Unfiltered(bs[1..], filter) == Unfiltered(bs[1..], filter);
  }

  /** An octet that dispatches nothing. */
  lemma HeardSilently(l: Listener, c: Config, t: Table, b: byte)
    requires Configured(|l.parser.buf|, c, t) && l.parser.len <= |l.parser.buf| && c.filter == []
    requires ProcessByte(l.parser, c, t, b).1 == Silent
    ensures Hear(l, c, t, b) == Listener(ProcessByte(l.parser, c, t, b).0, l.dispatched)
  {
    assert l.dispatched + [] == l.dispatched;
  }

  lemma StartIsReading(p: Parser, t: Table)
    requires AtLineStart(p)
    ensures Reading(p, t, [])
  {
    assert p.buf[..0] == [];
  }

  lemma TextStep(l: Listener, c: Config, t: Table, line: seq<byte>, n: nat)
    requires Configured(|l.parser.buf|, c, t) && Storable(c, t, |l.parser.buf|, line) && n < |line|
    requires c.filter == [] && Reading(l.parser, t, line[..n])
    ensures var l' := Hear(l, c, t, line[n]);
            l'.dispatched == l.dispatched && Reading(l'.parser, t, line[..n + 1])
  {
    TextOctet(l.parser, c, t, line, n);
    HeardSilently(l, c, t, line[n]);
  }

  lemma TakeSnoc(a: seq<byte>, b: seq<byte>, n: nat)
    requires n < |b|
    ensures a + b[..n + 1] == a + b[..n] + [b[n]] && b[..n + 1] == b[..n] + [b[n]]
    ensures n + 1 == |b| ==> a + b == a + b[..n] + [b[n]]
  {
  }

  lemma {:induction false} TextHeard(l: Listener, c: Config, t: Table, line: seq<byte>, n: nat)
    requires Configured(|l.parser.buf|, c, t) && Storable(c, t, |l.parser.buf|, line) && n <= |line|
    requires AtLineStart(l.parser) && c.filter == []
    ensures var l' := Listen(l, c, t, line[..n]);
            l'.dispatched == l.dispatched && Reading(l'.parser, t, line[..n])
    decreases n
  {
    if n == 0 {
      assert line[..0] == [];
      StartIsReading(l.parser, t);
    } else {
      TextHeard(l, c, t, line, n - 1);
      var l1 := Listen(l, c, t, line[..n - 1]);
      TakeSnoc([], line, n - 1);
      ListenSnoc(l, c, t, line[..n - 1], line[n - 1]);
      TextStep(l1, c, t, line, n - 1);
    }
  }

  lemma TextIsEnding(p: Parser, t: Table, line: seq<byte>)
    requires Reading(p, t, line)
    ensures Ending(p, t, line, [])
  {
    assert p.buf[|line|..p.len] == [];
    assert p.(len := |line|) == p;
  }

  lemma DelimiterStep(l: Listener, c: Config, t: Table, line: seq<byte>, j: nat)
    requires Configured(|l.parser.buf|, c, t) && Storable(c, t, |l.parser.buf|, line) && j + 1 < |c.delimiter|
    requires c.filter == [] && Ending(l.parser, t, line, c.delimiter[..j])
    ensures var l' := Hear(l, c, t, c.delimiter[j]);
            l'.dispatched == l.dispatched && Ending(l'.parser, t, line, c.delimiter[..j + 1])
  {
    DelimiterOctet(l.parser, c, t, line, j);
    HeardSilently(l, c, t, c.delimiter[j]);
  }

  lemma LastStep(l: Listener, c: Config, t: Table, line: seq<byte>)
    requires Configured(|l.parser.buf|, c, t) && Acceptable(c, t, |l.parser.buf|, line)
    requires c.filter == [] && Ending(l.parser, t, line, c.delimiter[..|c.delimiter| - 1])
    ensures var l' := Hear(l, c, t, c.delimiter[|c.delimiter| - 1]);
            AtLineStart(l'.parser) && l'.dispatched == l.dispatched + Dispatched(LineDispatch(t, line))
  {
    LastOctet(l.parser, c, t, line);
  }

  lemma {:induction false} DelimiterHeard(l: Listener, c: Config, t: Table, line: seq<byte>, j: nat)
    requires Configured(|l.parser.buf|, c, t) && Storable(c, t, |l.parser.buf|, line) && j < |c.delimiter|
    requires AtLineStart(l.parser) && c.filter == []
    ensures var l' := Listen(l, c, t, line + c.delimiter[..j]);
            l'.dispatched == l.dispatched && Ending(l'.parser, t, line, c.delimiter[..j])
    decreases j
  {
    var d := c.delimiter;
    if j == 0 {
      TextHeard(l, c, t, line, |line|);
      assert d[..0] == [] && line + [] == line && line[..|line|] == line;
      TextIsEnding(Listen(l, c, t, line).parser, t, line);
    } else {
      DelimiterHeard(l, c, t, line, j - 1);
      var before := line + d[..j - 1];
      var l1 := Listen(l, c, t, before);
      TakeSnoc(line, d, j - 1);
      ListenSnoc(l, c, t, before, d[j - 1]);
      DelimiterStep(l1, c, t, line, j - 1);
    }
  }

  function Dispatched(o: Outcome): seq<Dispatch> {
    match o case Received(d) => [d] case _ => []
  }

  /**
   The parser equals its specification: a line and its delimiter, with any filtered octets anywhere between, are
   dispatched as specified and leave the parser between lines.
   */
  lemma LineHeard(l: Listener, c: Config, t: Table, line: seq<byte>, heard: seq<byte>)
    requires Configured(|l.parser.buf|, c, t) && Acceptable(c, t, |l.parser.buf|, line)
    requires AtLineStart(l.parser) && Unfiltered(heard, c.filter) == line + c.delimiter
    ensures var l' := Listen(l, c, t, heard);
            AtLineStart(l'.parser) && l'.dispatched == l.dispatched + Dispatched(LineDispatch(t, line))
  {
    ListenUnfiltered(l, c, t, heard);
    PlainLineHeard(l, c.(filter := []), t, line);
  }

  lemma PlainLineHeard(l: Listener, c: Config, t: Table, line: seq<byte>)
    requires Configured(|l.parser.buf|, c, t) && Acceptable(c, t, |l.parser.buf|, line)
    requires AtLineStart(l.parser) && c.filter == []
    ensures var l' := Listen(l, c, t, line + c.delimiter);
            AtLineStart(l'.parser) && l'.dispatched == l.dispatched + Dispatched(LineDispatch(t, line))
  {
    var d := c.delimiter;
    var j := |d| - 1;
    DelimiterHeard(l, c, t, line, j);
    TakeSnoc(line, d, j);
    ListenSnoc(l, c, t, line + d[..j], d[j]);
    LastStep(Listen(l, c, t, line + d[..j]), c, t, line);
  }

  /** Lines one after the other, each read with the matches in force at that time. */
  function ListenLines(l: Listener, c: Config, ts: seq<Table>, heard: seq<seq<byte>>): Listener
    requires |ts| == |heard| && l.parser.len <= |l.parser.buf|
    requires forall i | 0 <= i < |ts| :: Configured(|l.parser.buf|, c, ts[i])
    decreases |ts|
  {
    if ts == [] then l
    else ListenLines(Listen(l, c, ts[0], heard[0]), c, ts[1..], heard[1..])
  }

  function LinesDispatched(ts: seq<Table>, lines: seq<seq<byte>>): seq<Dispatch>
    requires |ts| == |lines|
  {
    if ts == [] then [] else Dispatched(LineDispatch(ts[0], lines[0])) + LinesDispatched(ts[1..], lines[1..])
  }

  /** Everything the parser needs of a list of lines, each heard with filtered octets anywhere between. */
  predicate AllAcceptable(size: nat, c: Config, ts: seq<Table>, lines: seq<seq<byte>>, heard: seq<seq<byte>>) {
    && |ts| == |lines| == |heard|
    && forall i | 0 <= i < |ts| ::
         && Configured(size, c, ts[i]) && Acceptable(c, ts[i], size, lines[i])
         && Unfiltered(heard[i], c.filter) == lines[i] + c.delimiter
  }

  /** Lists of lines give lists of dispatches. */
  lemma {:induction false} LinesHeard(l: Listener, c: Config, ts: seq<Table>, lines: seq<seq<byte>>,
                                      heard: seq<seq<byte>>)
    requires AtLineStart(l.parser) && AllAcceptable(|l.parser.buf|, c, ts, lines, heard)
    ensures var l' := ListenLines(l, c, ts, heard);
            AtLineStart(l'.parser) && l'.dispatched == l.dispatched + LinesDispatched(ts, lines)
    decreases |ts|
  {
    if ts == [] {
      assert l.dispatched + [] == l.dispatched;
    } else {
      LineHeard(l, c, ts[0], lines[0], heard[0]);
      var l1 := Listen(l, c, ts[0], heard[0]);
      LinesHeard(l1, c, ts[1..], lines[1..], heard[1..]);
      Associative(l.dispatched, Dispatched(LineDispatch(ts[0], lines[0])), LinesDispatched(ts[1..], lines[1..]));
    }
  }
}
