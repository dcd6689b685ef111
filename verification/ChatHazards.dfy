/**
 The two hazards of a script are real: runs of parser and script runner from initialisation, for every response match,
 every delimiter and every buffer that has room for the line, that end in a fault.
 */
module ChatHazards {
  import opened Crc
  import opened ChatParse
  import opened ChatScript
  import opened ChatSystem
  import L = ChatLine

  /** The one match there is. */
  function Only(m: Match): Table { [[m], [], []] }

  /** A match that a line can meet, with buffer, arguments and filter that let the line through. */
  predicate Workable(size: nat, c: Config, m: Match) {
    && m.pattern != [] && c.delimiter != [] && 2 <= c.argvSize
    && L.NoZero(m.pattern) && L.NoZero(c.delimiter)
    && (forall i | 0 <= i < |m.pattern| :: !IsIn(m.pattern[i], c.delimiter))
    && 2 * |m.pattern| + |c.delimiter| + 1 <= size && c.filter == []
  }

  lemma {:induction false} NothingShorter(m: Match, s: seq<byte>)
    requires |s| < |m.pattern|
    ensures L.Recognise(Only(m), s).Unrecognised?
    decreases |s|
  {
    if s != [] {
      NothingShorter(m, s[..|s| - 1]);
      OnlyFinds(m, s);
    }
  }

  lemma OnlyFinds(m: Match, s: seq<byte>)
    ensures Find(Only(m), s) == if Matches(m, s) then Found(RESPONSE, m) else NotFound
  {
    assert [m][1..] == [];
    assert FindFrom(Only(m), 3, s) == NotFound;
    assert FirstIn([], s) == 0;
    assert FindFrom(Only(m), 2, s) == NotFound;
    assert FindFrom(Only(m), 1, s) == NotFound;
  }

  /** The pattern itself, as a line, is a response without arguments. */
  lemma PatternIsResponse(size: nat, c: Config, m: Match)
    requires Workable(size, c, m)
    ensures L.Recognise(Only(m), m.pattern) == L.Recognised(|m.pattern|, RESPONSE, m)
    ensures Configured(size, c, Only(m)) && L.Acceptable(c, Only(m), size, m.pattern)
    ensures L.LineDispatch(Only(m), m.pattern).Received? && L.LineDispatch(Only(m), m.pattern).d.kind == RESPONSE
  {
    var s := m.pattern;
    NothingShorter(m, s[..|s| - 1]);
    OnlyFinds(m, s);
    assert s[|s|..] == [];
  }

  /** Attached, asked to run a script of these steps, and started. */
  function Started(p: Parser, s: Script): System
    requires ValidScript(s)
  {
    var attached := IDLE.(attached := true);
    System(Reset(p), RunHandler(Accept(attached, s), None))
  }

  lemma StartRun(p: Parser, c: Config, s: Script)
    requires ValidScript(s)
    ensures SystemRuns(System(p, IDLE), c, [], [Attach, Other(RunCalled(s)), Other(RunWork(None))], Started(p, s))
  {
    var xs := [Attach, Other(RunCalled(s)), Other(RunWork(None))];
    var s0 := System(p, IDLE);
    var s1 := After(s0, c, [], xs[0]);
    var s2 := After(s1, c, [], xs[1]);
    assert s2.runner == Accept(IDLE.(attached := true), s);
    RunsSnoc(s0, c, [], [], s0, xs[0]);
    RunsSnoc(s0, c, [], [] + [xs[0]], s1, xs[1]);
    RunsSnoc(s0, c, [], [] + [xs[0]] + [xs[1]], s2, xs[2]);
    assert xs == [] + [xs[0]] + [xs[1]] + [xs[2]];
  }

  lemma PatternListened(l: L.Listener, c: Config, m: Match)
    requires L.AtLineStart(l.parser) && Workable(|l.parser.buf|, c, m)
    ensures Configured(|l.parser.buf|, c, Only(m))
    ensures var d := c.delimiter;
            var l' := L.Listen(l, c, Only(m), m.pattern + d[..|d| - 1]);
            l'.dispatched == l.dispatched && L.Ending(l'.parser, Only(m), m.pattern, d[..|d| - 1])
  {
    PatternIsResponse(|l.parser.buf|, c, m);
    L.DelimiterHeard(l, c, Only(m), m.pattern, |c.delimiter| - 1);
  }

  /** The pattern and its delimiter but for the last octet: the match is recognised, the script where it was. */
  lemma PatternHeard(p: Parser, c: Config, m: Match, s: System)
    requires L.AtLineStart(s.parser) && |s.parser.buf| == |p.buf| && Workable(|p.buf|, c, m)
    requires TableOf(s.runner, []) == Only(m) && !s.runner.fault && s.runner.recognised == None
    ensures var d := c.delimiter;
            var h := m.pattern + d[..|d| - 1];
            var s' := HearOctets(s, c, [], h, None);
            && SystemRuns(s, c, [], Octets(h, None), s') && SameScript(s.runner, s'.runner) && Ready(s', c, [])
            && |s'.parser.buf| == |p.buf| && L.Ending(s'.parser, Only(m), m.pattern, d[..|d| - 1])
  {
    var l := L.Listener(s.parser, []);
    PatternListened(l, c, m);
    QuietOctets(s, c, [], m.pattern + c.delimiter[..|c.delimiter| - 1], None, l);
  }

  /** A script of one step that awaits the match, and asks for nothing. */
  function Awaiting(m: Match): Script { Script([Chat([], [m], 0)], false, []) }

  lemma AwaitingStarted(p: Parser, m: Match)
    requires L.AtLineStart(p)
    ensures ValidScript(Awaiting(m))
    ensures var s := Started(p, Awaiting(m));
            && TableOf(s.runner, []) == Only(m) && L.AtLineStart(s.parser) && s.parser.buf == p.buf
            && !s.runner.fault && s.runner.recognised == None && s.runner.works.timeout && s.runner.active.script.Some?
  {
  }

  /** The last delimiter octet finds a response recognised and no script. */
  lemma LastOctetFaults(s: System, c: Config, m: Match)
    requires Ready(s, c, []) && Workable(|s.parser.buf|, c, m) && s.runner.active.script.None?
    requires L.Ending(s.parser, Only(m), m.pattern, c.delimiter[..|c.delimiter| - 1])
    ensures FaultyOctet(s, c, [], c.delimiter[|c.delimiter| - 1])
  {
    var d := c.delimiter;
    PatternIsResponse(|s.parser.buf|, c, m);
    L.LastStored(s.parser, c, Only(m), m.pattern);
    var q := Stored(s.parser, d[|d| - 1]);
    assert q.buf[q.len - |d|..q.len] == d;
    assert m.pattern[..|m.pattern|] == m.pattern;
    L.ArgvHasRoom(s.parser.(len := |m.pattern|), c, Only(m), m.pattern, |m.pattern|);
  }

  /** From a started script: the match is heard, and everything of its line but the last octet. */
  lemma MatchHeard(p: Parser, c: Config, m: Match, s: System, xs: seq<SystemEvent>, s3: System)
    requires SystemRuns(s, c, [], xs, s3)
    requires L.AtLineStart(s3.parser) && |s3.parser.buf| == |p.buf| && Workable(|p.buf|, c, m)
    requires TableOf(s3.runner, []) == Only(m) && !s3.runner.fault && s3.runner.recognised == None
    ensures var d := c.delimiter;
            var h := m.pattern + d[..|d| - 1];
            var s4 := HearOctets(s3, c, [], h, None);
            && SystemRuns(s, c, [], xs + Octets(h, None), s4) && SameScript(s3.runner, s4.runner) && Ready(s4, c, [])
            && |s4.parser.buf| == |p.buf| && L.Ending(s4.parser, Only(m), m.pattern, d[..|d| - 1])
  {
    var h := m.pattern + c.delimiter[..|c.delimiter| - 1];
    PatternHeard(p, c, m, s3);
    RunsThen(s, c, [], xs, s3, Octets(h, None), HearOctets(s3, c, [], h, None));
  }

  lemma TimedOut(s: System, c: Config, m: Match)
    requires Ready(s, c, []) && s.runner.works.timeout && s.runner.active.script.Some?
    requires ShortMatches(Only(m), |s.parser.buf|)
    ensures Possible(s, c, [], Other(TimeoutWork(None)))
    ensures var s' := After(s, c, [], Other(TimeoutWork(None)));
            s'.parser == s.parser && s'.runner.active.script.None? && Ready(s', c, [])
  {
  }

  /** The first hazard: the script's timeout between the match and the last octet of its line. */
  lemma TimeoutInsideALine(p: Parser, c: Config, m: Match) returns (xs: seq<SystemEvent>, s': System)
    requires L.AtLineStart(p) && Workable(|p.buf|, c, m)
    ensures Fresh(System(p, IDLE)) && SystemRuns(System(p, IDLE), c, [], xs, s') && s'.runner.fault
  {
    var s0, script, d := System(p, IDLE), Awaiting(m), c.delimiter;
    var h := m.pattern + d[..|d| - 1];
    AwaitingStarted(p, m);
    StartRun(p, c, script);
    xs := [Attach, Other(RunCalled(script)), Other(RunWork(None))];
    var s3 := Started(p, script);
    MatchHeard(p, c, m, s0, xs, s3);
    xs := xs + Octets(h, None);
    var s4 := HearOctets(s3, c, [], h, None);
    PatternIsResponse(|p.buf|, c, m);
    TimedOut(s4, c, m);
    RunsSnoc(s0, c, [], xs, s4, Other(TimeoutWork(None)));
    xs := xs + [Other(TimeoutWork(None))];
    var s5 := After(s4, c, [], Other(TimeoutWork(None)));
    LastOctetFaults(s5, c, m);
    var last := Octet(d[|d| - 1], None);
    FaultExact(s0, c, [], xs, s5, last);
    RunsSnoc(s0, c, [], xs, s5, last);
    xs := xs + [last];
    s' := After(s5, c, [], last);
  }

  /** A script whose first step has a request and whose second has none. */
  function TwoSteps(request: seq<byte>, m: Match): Script {
    Script([Chat(request, [m], 0), Chat([], [m], 0)], false, [])
  }

  lemma TwoStepsStarted(p: Parser, request: seq<byte>, m: Match)
    requires L.AtLineStart(p) && request != []
    ensures ValidScript(TwoSteps(request, m))
    ensures var s := Started(p, TwoSteps(request, m));
            && TableOf(s.runner, []) == Only(m) && L.AtLineStart(s.parser) && s.parser.buf == p.buf
            && !s.runner.fault && s.runner.recognised == None && s.runner.works.send
            && s.runner.active.script == Some(TwoSteps(request, m)) && s.runner.active.it == 0
            && s.runner.sending == Sending(0, 0, [])
  {
  }

  /** The pipe takes one octet of the request. */
  lemma OneOctetSent(s: System, c: Config, request: seq<byte>, m: Match)
    requires request != [] && c.delimiter != [] && !s.runner.fault && s.runner.works.send
    requires s.runner.active.script == Some(TwoSteps(request, m)) && s.runner.active.it == 0
    requires s.runner.sending == Sending(0, 0, [])
    ensures Possible(s, c, [], Other(SendWork(1, 0, None)))
    ensures var s' := After(s, c, [], Other(SendWork(1, 0, None)));
            && s' == s.(runner := s.runner.(works := s'.runner.works, sending := s'.runner.sending))
            && s'.runner.works.send && s'.runner.sending.requestPos == 1
  {
  }

  /** The response to the first step moves the script on to the second, with the send work still pending. */
  lemma SecondStep(r: Runner, request: seq<byte>, m: Match)
    requires r.active.script == Some(TwoSteps(request, m)) && r.active.it == 0
    requires r.works.send && r.sending.requestPos == 1 && !r.fault
    ensures var r' := OnMatched(r, RESPONSE, None);
            && r'.works.send && !r'.fault && AtStep(r') && Request(r') == [] && r'.sending.requestPos == 1
  {
  }

  /** The second hazard: an early response moves on to a step without a request while a request is going out. */
  lemma StaleSend(p: Parser, c: Config, m: Match, request: seq<byte>) returns (xs: seq<SystemEvent>, s': System)
    requires L.AtLineStart(p) && Workable(|p.buf|, c, m) && request != []
    ensures Fresh(System(p, IDLE)) && SystemRuns(System(p, IDLE), c, [], xs, s') && s'.runner.fault
  {
    var s0, script, d := System(p, IDLE), TwoSteps(request, m), c.delimiter;
    var h := m.pattern + d[..|d| - 1];
    TwoStepsStarted(p, request, m);
    StartRun(p, c, script);
    xs := [Attach, Other(RunCalled(script)), Other(RunWork(None))];
    var s3 := Started(p, script);
    OneOctetSent(s3, c, request, m);
    RunsSnoc(s0, c, [], xs, s3, Other(SendWork(1, 0, None)));
    xs := xs + [Other(SendWork(1, 0, None))];
    var s4 := After(s3, c, [], Other(SendWork(1, 0, None)));
    MatchHeard(p, c, m, s0, xs, s4);
    xs := xs + Octets(h, None);
    var ys;
    ys, s' := SendAfterResponse(s0, c, xs, HearOctets(s4, c, [], h, None), request, m);
    xs := xs + ys;
  }

  /** The last octet of the response's line, then the send work that is still pending. */
  lemma SendAfterResponse(s: System, c: Config, xs: seq<SystemEvent>, s5: System, request: seq<byte>, m: Match)
    returns (ys: seq<SystemEvent>, s': System)
    requires SystemRuns(s, c, [], xs, s5) && Ready(s5, c, []) && Workable(|s5.parser.buf|, c, m)
    requires L.Ending(s5.parser, Only(m), m.pattern, c.delimiter[..|c.delimiter| - 1])
    requires TableOf(s5.runner, []) == Only(m) && s5.runner.active.script == Some(TwoSteps(request, m))
    requires s5.runner.active.it == 0 && s5.runner.works.send && s5.runner.sending.requestPos == 1
    ensures SystemRuns(s, c, [], xs + ys, s') && s'.runner.fault
  {
    var last := Octet(c.delimiter[|c.delimiter| - 1], None);
    ResponseCompleted(s5, c, m);
    SecondStep(s5.runner.(recognised := None), request, m);
    RunsSnoc(s, c, [], xs, s5, last);
    var s6 := After(s5, c, [], last);
    var send := Other(SendWork(0, 0, None));
    RunsSnoc(s, c, [], xs + [last], s6, send);
    s' := After(s6, c, [], send);
    ys := [last, send];
    assert xs + ys == xs + [last] + [send];
  }

  lemma ResponseCompleted(s: System, c: Config, m: Match)
    requires Ready(s, c, []) && Workable(|s.parser.buf|, c, m) && TableOf(s.runner, []) == Only(m)
    requires L.Ending(s.parser, Only(m), m.pattern, c.delimiter[..|c.delimiter| - 1])
    ensures HearOctet(s, c, [], c.delimiter[|c.delimiter| - 1], None).runner ==
            OnMatched(s.runner.(recognised := None), RESPONSE, None)
  {
    PatternIsResponse(|s.parser.buf|, c, m);
    L.LastOctet(s.parser, c, Only(m), m.pattern);
    LastOctetMoves(s, c, [], c.delimiter[|c.delimiter| - 1], None);
  }
}
