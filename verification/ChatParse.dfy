/**
 The line parser of the chat module: octets go into one buffer, in which the parser marks matches, separators and
 line ends in place; and the specification of one line that it meets.
 */
module ChatParse {
  import opened Crc

  const WILDCARD: byte := 0x3F

  datatype Match = Match(pattern: seq<byte>, separators: seq<byte>, wildcards: bool)

  /** Response, abort and unsolicited matches, in this order. */
  type Table = t: seq<seq<Match>> | |t| == 3 witness [[], [], []]

  const RESPONSE: nat := 0
  const ABORT: nat := 1

  /** An argument pointer: to the empty string, or into the receive buffer. */
  datatype Arg = Empty | At(offset: int)

  datatype Found = NotFound | Found(kind: nat, match_: Match)

  datatype Config = Config(delimiter: seq<byte>, filter: seq<byte>, argvSize: nat)

  /** `argv` holds the first argc pointers; `found` is the match recognised in the line so far. */
  datatype Parser = Parser(buf: seq<byte>, len: nat, argv: seq<Arg>, found: Found, argLen: nat)

  /** What a callback is given: the kind of match, the match, and the argument strings. */
  datatype Dispatch = Dispatch(kind: nat, match_: Match, args: seq<seq<byte>>)

  // ----- Matching

  predicate Matches(m: Match, s: seq<byte>) {
    |m.pattern| == |s| &&
    forall i | 0 <= i < |s| :: m.pattern[i] == s[i] || (m.wildcards && m.pattern[i] == WILDCARD)
  }

  /** Without the wildcard flag a match is the text itself; with it, each question mark stands for any one octet. */
  lemma MatchesExact(m: Match, s: seq<byte>)
    ensures !m.wildcards ==> (Matches(m, s) <==> m.pattern == s)
    ensures m.wildcards ==>
              (Matches(m, s) <==>
                 |m.pattern| == |s| && forall i | 0 <= i < |s| && m.pattern[i] != 0x3F :: m.pattern[i] == s[i])
  {
  }

  /** The index of the first match in a list that recognises `s`, or the length of the list. */
  function FirstIn(ms: seq<Match>, s: seq<byte>): (i: nat)
    ensures i <= |ms|
    ensures i < |ms| ==> Matches(ms[i], s)
    ensures forall j | 0 <= j < i :: !Matches(ms[j], s)
  {
    if ms == [] || Matches(ms[0], s) then 0 else FirstIn(ms[1..], s) + 1
  }

  function FindFrom(t: Table, kind: nat, s: seq<byte>): Found
    requires kind <= 3
    decreases 3 - kind
  {
    if kind == 3 then NotFound
    else
      var i := FirstIn(t[kind], s);
      if i < |t[kind]| then Found(kind, t[kind][i]) else FindFrom(t, kind + 1, s)
  }

  /** The search through responses, then aborts, then unsolicited matches. */
  function Find(t: Table, s: seq<byte>): Found {
    FindFrom(t, 0, s)
  }

  // ----- The parser

  predicate IsIn(b: byte, s: seq<byte>) { b in s }

  function Reset(p: Parser): Parser {
    p.(len := 0, argv := [], found := NotFound)
  }

  /** The string at an offset, up to a terminator. */
  function CString(buf: seq<byte>, offset: int): seq<byte>
    decreases |buf| - offset
  {
    if offset < 0 || |buf| <= offset || buf[offset] == 0 then []
    else [buf[offset]] + CString(buf, offset + 1)
  }

  function StringOf(buf: seq<byte>, a: Arg): seq<byte> {
    match a
    case Empty => []
    case At(o) => CString(buf, o)
  }

  function Strings(buf: seq<byte>, argv: seq<Arg>): (r: seq<seq<byte>>)
    ensures |r| == |argv|
  {
    seq(|argv|, i requires 0 <= i < |argv| => StringOf(buf, argv[i]))
  }

  /** The match so far, copied to the end of the buffer and terminated there. */
  function SaveMatch(p: Parser, f: Found): Parser
    requires p.len < |p.buf|
  {
    var start := |p.buf| - p.len - 1;
    Parser(p.buf[..start] + p.buf[..p.len] + [0], p.len, p.argv + [At(start)], f, 0)
  }

  function OnCommand(p: Parser): Dispatch
    requires p.found.Found?
  {
    Dispatch(p.found.kind, p.found.match_, Strings(p.buf, p.argv))
  }

  predicate DelimiterComplete(p: Parser, d: seq<byte>)
    requires p.len <= |p.buf|
  {
    |d| <= p.len && p.buf[p.len - |d|..p.len] == d
  }

  /** `Overflow` is undefined behaviour: a second argument pointer written behind an array of one. */
  datatype Outcome = Silent | Received(d: Dispatch) | Overflow

  /** The whole line as the second argument of a catch-all, terminated before its delimiter. */
  function UnknownLine(p: Parser, c: Config, f: Found): Parser
    requires |c.delimiter| <= p.len <= |p.buf| && 0 < |c.delimiter|
  {
    p.(found := f, argv := [Empty, At(0)], buf := p.buf[p.len - |c.delimiter| := 0])
  }

  /** A line without a match goes to the first catch-all, if there is one. */
  function OnUnknown(p: Parser, c: Config, t: Table): Outcome
    requires |c.delimiter| <= p.len <= |p.buf| && 0 < |c.delimiter|
  {
    var f := Find(t, []);
    if f.NotFound? then Silent
    else if c.argvSize < 2 then Overflow
    else Received(OnCommand(UnknownLine(p, c, f)))
  }

  function EndOfLine(p: Parser, c: Config, t: Table): Outcome
    requires |c.delimiter| <= p.len <= |p.buf| && 0 < |c.delimiter|
  {
    if p.len == |c.delimiter| then Silent
    else if p.found.NotFound? then OnUnknown(p, c, t)
    else Received(OnCommand(Final(p, c)))
  }

  /** The argument behind the last separator ends with the line. */
  function Final(p: Parser, c: Config): Parser
    requires |c.delimiter| <= p.len <= |p.buf| && 0 < |c.delimiter|
  {
    var end := p.len - |c.delimiter|;
    if p.argLen > 0 then p.(argv := p.argv + [At(end - p.argLen)], buf := p.buf[end := 0]) else p
  }

  /** An octet behind a match: part of an argument, or its end. */
  function OnArgumentByte(p: Parser, b: byte): Parser
    requires p.found.Found? && 0 < p.len <= |p.buf|
  {
    if !IsIn(b, p.found.match_.separators) then p.(argLen := p.argLen + 1)
    else if p.argLen == 0 then p.(argv := p.argv + [Empty])
    else p.(argv := p.argv + [At(p.len - p.argLen - 1)], buf := p.buf[p.len - 1 := 0], argLen := 0)
  }

  predicate ShortMatches(t: Table, size: nat) {
    forall kind, i | 0 <= kind < 3 && 0 <= i < |t[kind]| :: |t[kind][i].pattern| < size
  }

  /** What the parser is initialised with: matches shorter than the buffer, a delimiter, an argument array. */
  predicate Configured(size: nat, c: Config, t: Table) {
    0 < |c.delimiter| && 0 < c.argvSize && ShortMatches(t, size)
  }

  /** An octet of text: it may complete a match, or belong to the arguments behind one. */
  function OnTextByte(q: Parser, t: Table, b: byte): Parser
    requires 0 < q.len <= |q.buf| && ShortMatches(t, |q.buf|)
  {
    if q.found.Found? then OnArgumentByte(q, b)
    else
      var f := Find(t, q.buf[..q.len]);
      if f.NotFound? then q
      else
        FindShort(t, q.buf[..q.len], |q.buf|);
        SaveMatch(q, f)
  }

  function Stored(p: Parser, b: byte): Parser
    requires p.len < |p.buf|
  {
    p.(buf := p.buf[p.len := b], len := p.len + 1)
  }

  function ProcessByte(p: Parser, c: Config, t: Table, b: byte): (Parser, Outcome)
    requires Configured(|p.buf|, c, t) && p.len <= |p.buf|
  {
    if p.len == |p.buf| then (Reset(p), Silent)
    else if |p.argv| == c.argvSize then (Reset(p), Silent)
    else TakeIn(Stored(p, b), c, t, b)
  }

  /** The octet just stored: the end of a line, part of a delimiter, or text. */
  function TakeIn(q: Parser, c: Config, t: Table, b: byte): (Parser, Outcome)
    requires Configured(|q.buf|, c, t) && 0 < q.len <= |q.buf|
  {
    if DelimiterComplete(q, c.delimiter) then (Reset(Finished(q, c, t)), EndOfLine(q, c, t))
    else if IsIn(b, c.delimiter) then (q, Silent)
    else (OnTextByte(q, t, b), Silent)
  }

  /** The terminator written at the end of a line stays in the buffer. */
  function Finished(p: Parser, c: Config, t: Table): Parser
    requires |c.delimiter| <= p.len <= |p.buf| && 0 < |c.delimiter|
  {
    if p.len == |c.delimiter| then p
    else if p.found.NotFound? then if Find(t, []).NotFound? then p else Terminated(p, c)
    else if p.argLen > 0 then Terminated(p, c)
    else p
  }

  function Terminated(p: Parser, c: Config): Parser
    requires |c.delimiter| <= p.len <= |p.buf| && 0 < |c.delimiter|
  {
    p.(buf := p.buf[p.len - |c.delimiter| := 0])
  }

  lemma {:induction false} FindFromShort(t: Table, kind: nat, s: seq<byte>, size: nat)
    requires kind <= 3 && FindFrom(t, kind, s).Found?
    requires ShortMatches(t, size)
    ensures |s| < size
    decreases 3 - kind
  {
    if FirstIn(t[kind], s) == |t[kind]| {
      FindFromShort(t, kind + 1, s, size);
    }
  }

  lemma FindShort(t: Table, s: seq<byte>, size: nat)
    requires Find(t, s).Found?
    requires ShortMatches(t, size)
    ensures |s| < size
  {
    FindFromShort(t, 0, s, size);
  }
}
