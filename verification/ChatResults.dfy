/** Which result a script's callback is given: over one step, over whole runs, and from the octets of a line. */
module ChatResults {
  import opened Crc
  import opened Sequences
  import opened ChatParse
  import opened ChatScript
  import opened ChatSystem
  import opened ChatDialogue
  import L = ChatLine

  /** The last step of the script is under way. */
  predicate AtLastStep(r: Runner) {
    r.active.script.Some? && r.active.it + 1 == |r.active.script.value.chats|
  }

  /** The send work completes the request of a step that awaits no response and does not pause. */
  predicate SendsLast(r: Runner, delimiter: seq<byte>, n: nat, m: nat) {
    && AtLastStep(r) && r.sending.requestPos <= |Request(r)|
    && r.active.script.value.chats[r.active.it].responses == []
    && r.active.script.value.chats[r.active.it].timeout == 0
    && r.sending.requestPos + (if r.sending.requestPos < |Request(r)| then n else 0) == |Request(r)|
    && r.sending.delimiterPos + (if r.sending.delimiterPos < |delimiter| then m else 0) == |delimiter|
  }

  /** What a line of a kind does: a response ends the last step, an abort ends the script. */
  function LineResult(r: Runner, kind: nat): Option<Result> {
    if kind == 0 && AtLastStep(r) then Some(Success)
    else if kind == 1 && r.active.script.Some? then Some(Abort)
    else None
  }

  /** The result an event brings about. */
  function ResultOf(r: Runner, delimiter: seq<byte>, e: Event): Option<Result> {
    match e
    case TimeoutWork(_) => if r.active.script.Some? then Some(Timeout) else None
    case AbortWork(_) => if r.active.script.Some? then Some(Abort) else None
    case SendTimeoutWork(_) => if AtLastStep(r) then Some(Success) else None
    case SendWork(n, m, _) => if SendsLast(r, delimiter, n, m) then Some(Success) else None
    case MatchedLineEnd(_) => if r.recognised.Some? then LineResult(r, r.recognised.value) else None
    case CatchAllLineEnd(kind, _) => LineResult(r, kind)
    case _ => None
  }

  function ResultList(o: Option<Result>): seq<Result> {
    match o case None => [] case Some(x) => [x]
  }

  /**
   Stopping reports the result given, once, and leaves no script, no matches and no timeout of it; a valid script that
   the callback asks for is the next to run.
   */
  lemma StopReports(r: Runner, result: Result, again: Option<Script>)
    requires r.active.script.Some?
    ensures var r', asked := Stop(r, result, again), again.Some? && r.attached && ValidScript(again.value);
            && r'.log.results == r.log.results + [result] && r'.active.script == None
            && r'.active.responses == [] && r'.active.aborts == [] && !r'.works.timeout
            && r'.active.running == asked && r'.active.runWork == (if asked then again else r.active.runWork)
            && r'.log.accepted == r.log.accepted + if asked then 1 else 0
  {
  }

  /** Advancing reports success past the last step, and nothing before. */
  lemma AdvanceReports(r: Runner, again: Option<Script>)
    requires r.active.script.Some? && r.active.it < |r.active.script.value.chats|
    ensures Advance(r, false, again).log.results == r.log.results + if AtLastStep(r) then [Success] else []
  {
    assert r.log.results + [] == r.log.results;
  }

  lemma MatchedReports(r: Runner, kind: nat, again: Option<Script>)
    requires kind <= 1 ==> r.active.script.Some? && r.active.it < |r.active.script.value.chats|
    ensures OnMatched(r, kind, again).log.results == r.log.results + ResultList(LineResult(r, kind))
  {
    assert r.log.results + [] == r.log.results;
    if kind == 0 {
      AdvanceReports(r, again);
    }
  }

  lemma StartReports(r: Runner, again: Option<Script>)
    requires r.active.runWork.Some? && ValidScript(r.active.runWork.value)
    ensures RunHandler(r, again).log.results == r.log.results
  {
  }

  lemma PumpDone(s: Sending, request: seq<byte>, delimiter: seq<byte>, n: nat, m: nat)
    requires s.requestPos + n <= |request| && s.delimiterPos + m <= |delimiter|
    ensures Pump(s, request, delimiter, n, m).1 <==>
            && s.requestPos + (if s.requestPos < |request| then n else 0) == |request|
            && s.delimiterPos + (if s.delimiterPos < |delimiter| then m else 0) == |delimiter|
  {
  }

  lemma SendReports(r: Runner, delimiter: seq<byte>, n: nat, m: nat, again: Option<Script>)
    requires Good(r, delimiter) && Enabled(r, delimiter, SendWork(n, m, again)) && !Hazard(r, SendWork(n, m, again))
    ensures SendHandler(r, delimiter, n, m, again).log.results ==
            r.log.results + if SendsLast(r, delimiter, n, m) then [Success] else []
  {
    assert r.log.results + [] == r.log.results;
    if r.active.script.Some? {
      var (sending, done) := Pump(r.sending, Request(r), delimiter, n, m);
      PumpDone(r.sending, Request(r), delimiter, n, m);
      AdvanceReports(Woken(r).(sending := sending), again);
    }
  }

  /**
   Every event that does not fault reports exactly this: Timeout for a script whose time ran out, Abort for an abort
   call or an abort line, Success when the last step ends, and nothing otherwise.
   */
  lemma ResultExact(r: Runner, delimiter: seq<byte>, e: Event)
    requires Good(r, delimiter) && Enabled(r, delimiter, e) && !Hazard(r, e)
    ensures Next(r, delimiter, e).log.results == r.log.results + ResultList(ResultOf(r, delimiter, e))
  {
    assert r.log.results + [] == r.log.results;
    match e
    case RunWork(again) => StartReports(r, again);
    case SendWork(n, m, again) => SendReports(r, delimiter, n, m, again);
    case SendTimeoutWork(again) =>
      if r.active.script.Some? {
        AdvanceReports(r.(works := r.works.(sendTimeout := false)), again);
      }
    case MatchedLineEnd(again) => MatchedReports(r.(recognised := None), r.recognised.value, again);
    case CatchAllLineEnd(kind, again) => MatchedReports(r, kind, again);
    case _ =>
  }

  /** The results a run brings about. */
  function ResultsOf(r: Runner, delimiter: seq<byte>, es: seq<Event>): seq<Result>
    decreases |es|
  {
    if es == [] || !Enabled(r, delimiter, es[0]) then []
    else ResultList(ResultOf(r, delimiter, es[0])) + ResultsOf(Next(r, delimiter, es[0]), delimiter, es[1..])
  }

  lemma {:induction false} RunReports(r: Runner, delimiter: seq<byte>, es: seq<Event>, r': Runner)
    requires Good(r, delimiter) && Runs(r, delimiter, es, r') && !r'.fault
    ensures r'.log.results == r.log.results + ResultsOf(r, delimiter, es)
    decreases |es|
  {
    if es == [] {
      assert r.log.results + [] == r.log.results;
    } else {
      NextKeepsGood(r, delimiter, es[0]);
      if Hazard(r, es[0]) {
        FaultIsFinal(Next(r, delimiter, es[0]), delimiter, es[1..], r');
      }
      ResultExact(r, delimiter, es[0]);
      RunReports(Next(r, delimiter, es[0]), delimiter, es[1..], r');
      Associative(r.log.results, ResultList(ResultOf(r, delimiter, es[0])),
                  ResultsOf(Next(r, delimiter, es[0]), delimiter, es[1..]));
    }
  }

  /** Over every run from initialisation, the callbacks were given exactly the results that its events bring about. */
  lemma ResultsExact(delimiter: seq<byte>, es: seq<Event>, r: Runner)
    requires Runs(IDLE, delimiter, es, r) && !r.fault
    ensures r.log.results == ResultsOf(IDLE, delimiter, es)
  {
    RunReports(IDLE, delimiter, es, r);
    assert [] + ResultsOf(IDLE, delimiter, es) == ResultsOf(IDLE, delimiter, es);
  }

  /** A send work that finds no script does nothing; one that is not done yet is pending again. */
  lemma SendWorkExact(r: Runner, delimiter: seq<byte>, n: nat, m: nat, again: Option<Script>)
    requires Good(r, delimiter) && Enabled(r, delimiter, SendWork(n, m, again)) && !Hazard(r, SendWork(n, m, again))
    ensures var r' := SendHandler(r, delimiter, n, m, again);
            && (r.active.script.None? ==> r' == r.(works := r.works.(send := false)))
            && (r.active.script.Some? ==>
                  var (sending, done) := Pump(r.sending, Request(r), delimiter, n, m);
                  !done ==> r' == r.(sending := sending, works := r.works.(send := true)))
  {
  }

  // ----- The calls

  /** A script has steps, each of which sends or awaits something, and aborts if it names any list of them. */
  predicate Runnable(s: Script) {
    && s.chats != [] && !(s.abortsGiven && s.aborts == [])
    && forall chat <- s.chats :: !(chat.request == [] && chat.responses == [])
  }

  /** The results of a run call, in the order of the checks. */
  lemma RunResult(r: Runner, s: Script)
    ensures var (r', code) := Run(r, s);
            && (!r.attached ==> code == -1)
            && (r.attached && !Runnable(s) ==> code == -22)
            && (r.attached && Runnable(s) && r.active.running ==> code == -16)
            && (r.attached && Runnable(s) && !r.active.running ==> code == 0)
            && (code != 0 ==> r' == r)
            && (code == 0 ==> r'.active == r.active.(running := true, runWork := Some(s)) && r'.sending == r.sending
                              && r'.works == r.works)
  {
  }

  // ----- From the octets of a line

  /** A line that the parser takes in and that is an abort. */
  predicate Aborts(c: Config, t: Table, size: nat, line: seq<byte>, heard: seq<byte>) {
    && L.Acceptable(c, t, size, line) && HeardAs(c, line, heard)
    && L.LineDispatch(t, line).Received? && L.LineDispatch(t, line).d.kind == 1
  }

  lemma StoppedAtRest(s: System, c: Config, unsolicited: seq<Match>, script: Script, k: nat, result: Result, s': System)
    requires Waits(s, c, unsolicited, script, k)
    requires L.AtLineStart(s'.parser) && |s'.parser.buf| == |s.parser.buf| && s'.runner == Stop(s.runner, result, None)
    ensures AtRest(s', c, unsolicited) && s'.runner.log.results == s.runner.log.results + [result]
    ensures s'.runner.active.script == None && s'.runner.log.accepted == s.runner.log.accepted
  {
    NoMatchesFit(|s.parser.buf|, c, TableOf(s.runner, unsolicited), unsolicited);
    assert TableOf(s'.runner, unsolicited) == [[], [], unsolicited];
  }

  /**
   An abort line heard octet by octet, with filtered octets anywhere in it, while a script is at any of its steps: the
   callback is given Abort, once, and no script is left.
   */
  lemma AbortLineEnds(s: System, c: Config, unsolicited: seq<Match>, script: Script, k: nat, line: seq<byte>,
                      heard: seq<byte>) returns (s': System)
    requires Waits(s, c, unsolicited, script, k) && 2 <= c.argvSize
    requires Aborts(c, TableAt(script, k, unsolicited), |s.parser.buf|, line, heard)
    ensures SystemRuns(s, c, unsolicited, Octets(heard, None), s')
    ensures AtRest(s', c, unsolicited) && s'.runner.active.script == None
    ensures s'.runner.log.results == s.runner.log.results + [Abort]
  {
    var n, d := |heard| - 1, c.delimiter;
    assert heard == heard[..n] + [d[|d| - 1]];
    assert TableOf(s.runner, unsolicited) == TableAt(script, k, unsolicited);
    var calm := LineDrivesScript(s, c, unsolicited, line, heard[..n], None);
    s' := HearOctets(s, c, unsolicited, heard, None);
    StoppedAtRest(s.(runner := calm), c, unsolicited, script, k, Abort, s');
  }

  /** When a script's time runs out between lines, the callback is given Timeout, once, and no script is left. */
  lemma TimeoutEnds(s: System, c: Config, unsolicited: seq<Match>, script: Script, k: nat) returns (s': System)
    requires Waits(s, c, unsolicited, script, k) && s.runner.works.timeout
    ensures SystemRuns(s, c, unsolicited, [Other(TimeoutWork(None))], s')
    ensures AtRest(s', c, unsolicited) && s'.runner.active.script == None
    ensures s'.runner.log.results == s.runner.log.results + [Timeout]
  {
    var x := Other(TimeoutWork(None));
    s' := After(s, c, unsolicited, x);
    assert [x][1..] == [];
    var awake := s.runner.(works := s.runner.works.(timeout := false));
    StoppedAtRest(s.(runner := awake), c, unsolicited, script, k, Timeout, s');
  }

  /** An abort call while a script is at any of its steps: the callback is given Abort, once, and no script is left. */
  lemma AbortCallEnds(s: System, c: Config, unsolicited: seq<Match>, script: Script, k: nat) returns (s': System)
    requires Waits(s, c, unsolicited, script, k)
    ensures SystemRuns(s, c, unsolicited, [Other(AbortCalled)] + [Other(AbortWork(None))], s')
    ensures AtRest(s', c, unsolicited) && s'.runner.active.script == None
    ensures s'.runner.log.results == s.runner.log.results + [Abort]
  {
    var xs := [Other(AbortCalled)] + [Other(AbortWork(None))];
    var s1 := After(s, c, unsolicited, xs[0]);
    s' := After(s1, c, unsolicited, xs[1]);
    assert xs[1..] == [xs[1]] && [xs[1]][1..] == [];
    assert SystemRuns(s1, c, unsolicited, xs[1..], s');
    var awake := s.runner.(works := s.runner.works.(abort := false));
    StoppedAtRest(s.(runner := awake), c, unsolicited, script, k, Abort, s');
  }

  /** A line of any other kind leaves the script at its step, and reports nothing. */
  lemma OtherLineLeaves(s: System, c: Config, unsolicited: seq<Match>, script: Script, k: nat, line: seq<byte>,
                        heard: seq<byte>) returns (s': System)
    requires Waits(s, c, unsolicited, script, k) && 2 <= c.argvSize
    requires L.Acceptable(c, TableAt(script, k, unsolicited), |s.parser.buf|, line) && HeardAs(c, line, heard)
    requires var o := L.LineDispatch(TableAt(script, k, unsolicited), line); o.Received? ==> o.d.kind == 2
    ensures SystemRuns(s, c, unsolicited, Octets(heard, None), s')
    ensures Waits(s', c, unsolicited, script, k) && s'.runner.log.results == s.runner.log.results
    ensures s'.runner.sending == s.runner.sending && s'.runner.works == s.runner.works
  {
    var n, d := |heard| - 1, c.delimiter;
    assert heard == heard[..n] + [d[|d| - 1]];
    assert TableOf(s.runner, unsolicited) == TableAt(script, k, unsolicited);
    var calm := LineDrivesScript(s, c, unsolicited, line, heard[..n], None);
    s' := HearOctets(s, c, unsolicited, heard, None);
    assert TableOf(s'.runner, unsolicited) == TableAt(script, k, unsolicited);
  }
}
