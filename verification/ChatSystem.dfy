/**
 Parser and script runner together: the matches the parser looks for are those of the step the script is at, and what
 the parser reports is what moves the script on.
 */
module ChatSystem {
  import opened Crc
  import opened ChatParse
  import opened ChatScript
  import L = ChatLine

  datatype System = System(parser: Parser, runner: Runner)

  /** Responses of the current step, aborts of the script, and the matches given at initialisation. */
  function TableOf(r: Runner, unsolicited: seq<Match>): Table {
    [r.active.responses, r.active.aborts, unsolicited]
  }

  function KindOf(f: Found): Option<nat> {
    match f case NotFound => None case Found(kind, _) => Some(kind)
  }

  /** What the runner learns from an octet that took the parser from `p` to `q`. */
  function ReportOf(p: Parser, q: Parser, o: Outcome, again: Option<Script>): Option<Event> {
    match o
    case Received(d) => Some(if p.found.Found? then MatchedLineEnd(again) else CatchAllLineEnd(d.kind, again))
    case Silent =>
      if p.found == q.found then None
      else if q.found.Found? then Some(Recognised(q.found.kind))
      else Some(LineDropped)
    case Overflow => None
  }

  predicate Ready(s: System, c: Config, unsolicited: seq<Match>) {
    && Configured(|s.parser.buf|, c, TableOf(s.runner, unsolicited)) && s.parser.len <= |s.parser.buf|
    && s.runner.recognised == KindOf(s.parser.found) && !s.runner.fault
  }

  lemma {:induction false} FindFromIsIn(t: Table, kind: nat, x: seq<byte>)
    requires kind <= 3 && FindFrom(t, kind, x).Found?
    ensures var k := FindFrom(t, kind, x).kind; k < 3 && t[k] != []
    decreases 3 - kind
  {
    if FirstIn(t[kind], x) == |t[kind]| {
      FindFromIsIn(t, kind + 1, x);
    }
  }

  predicate Listed(t: Table, kind: nat) { kind < 3 && t[kind] != [] }

  lemma FindIsListed(t: Table, x: seq<byte>)
    ensures Find(t, x).Found? ==> Listed(t, Find(t, x).kind)
  {
    if Find(t, x).Found? {
      FindFromIsIn(t, 0, x);
    }
  }

  /** What an octet makes the parser find is in a list of its table. */
  lemma FoundIsListed(p: Parser, c: Config, t: Table, b: byte)
    requires Configured(|p.buf|, c, t) && p.len <= |p.buf|
    ensures var q := ProcessByte(p, c, t, b).0;
            q.found.Found? && q.found != p.found ==> Listed(t, q.found.kind)
  {
    if p.len < |p.buf| {
      FindIsListed(t, Stored(p, b).buf[..p.len + 1]);
    }
  }

  /** So is the catch-all a line is given to. */
  lemma DispatchIsListed(p: Parser, c: Config, t: Table, b: byte)
    requires Configured(|p.buf|, c, t) && p.len <= |p.buf| && p.found.NotFound?
    ensures var o := ProcessByte(p, c, t, b).1;
            o.Received? ==> Listed(t, o.d.kind)
  {
    FindIsListed(t, []);
  }

  lemma ListedCanMatch(r: Runner, unsolicited: seq<Match>, kind: nat)
    requires Listed(TableOf(r, unsolicited), kind)
    ensures CanMatch(r, kind)
  {
  }

  /** The parser reports only what the runner can take at that moment. */
  lemma ReportIsEnabled(s: System, c: Config, unsolicited: seq<Match>, b: byte, again: Option<Script>)
    requires Ready(s, c, unsolicited)
    ensures var (q, o) := ProcessByte(s.parser, c, TableOf(s.runner, unsolicited), b);
            var report := ReportOf(s.parser, q, o, again);
            report.Some? ==> Enabled(s.runner, c.delimiter, report.value)
  {
    var t := TableOf(s.runner, unsolicited);
    var (q, o) := ProcessByte(s.parser, c, t, b);
    var report := ReportOf(s.parser, q, o, again);
    FoundIsListed(s.parser, c, t, b);
    if report.Some? && report.value.CatchAllLineEnd? {
      DispatchIsListed(s.parser, c, t, b);
      ListedCanMatch(s.runner, unsolicited, o.d.kind);
    } else if report.Some? && report.value.Recognised? {
      ListedCanMatch(s.runner, unsolicited, q.found.kind);
    }
  }

  /** One octet: the parser takes it, and the runner what the parser reports. A faulted system stands still. */
  function HearOctet(s: System, c: Config, unsolicited: seq<Match>, b: byte, again: Option<Script>): System {
    if !Ready(s, c, unsolicited) || IsIn(b, c.filter) then s
    else
      var (q, o) := ProcessByte(s.parser, c, TableOf(s.runner, unsolicited), b);
      System(q, AfterReport(s, c, unsolicited, b, again))
  }

  function AfterReport(s: System, c: Config, unsolicited: seq<Match>, b: byte, again: Option<Script>): Runner
    requires Ready(s, c, unsolicited)
  {
    var (q, o) := ProcessByte(s.parser, c, TableOf(s.runner, unsolicited), b);
    ReportIsEnabled(s, c, unsolicited, b, again);
    match ReportOf(s.parser, q, o, again)
    case None => if o.Overflow? then s.runner.(fault := true) else s.runner
    case Some(e) => Next(s.runner, c.delimiter, e)
  }

  /** What a dispatched line does to the script: a response moves it on, an abort stops it, the rest leave it. */
  function Moved(r: Runner, o: Outcome, again: Option<Script>): Runner {
    match o
    case Silent => r
    case Received(d) => OnMatched(r, d.kind, again)
    case Overflow => r.(fault := true)
  }

  /** Nothing but what is remembered of the line has changed. */
  predicate SameScript(r: Runner, r': Runner) {
    r' == r.(recognised := r'.recognised, log := r.log.(stopped := r'.log.stopped)) &&
    (r'.log.stopped ==> r.log.stopped)
  }

  /** Only an octet that dispatches a line moves the script. */
  lemma OctetMoves(s: System, c: Config, unsolicited: seq<Match>, b: byte, again: Option<Script>)
    requires Ready(s, c, unsolicited)
    ensures var o := ProcessByte(s.parser, c, TableOf(s.runner, unsolicited), b).1;
            var r' := AfterReport(s, c, unsolicited, b, again);
            if o.Silent? then SameScript(s.runner, r') else r' == Moved(s.runner.(recognised := None), o, again)
  {
    ReportIsEnabled(s, c, unsolicited, b, again);
    assert s.parser.found.NotFound? ==> s.runner.(recognised := None) == s.runner;
  }

  // ----- Whole runs

  datatype SystemEvent = Attach | Octet(b: byte, again: Option<Script>) | Other(e: Event)

  /** The events that do not come from the parser. */
  predicate FromOutside(e: Event) {
    !e.AttachCalled? && !e.Recognised? && !e.LineDropped? && !e.MatchedLineEnd? && !e.CatchAllLineEnd?
  }

  predicate Possible(s: System, c: Config, unsolicited: seq<Match>, x: SystemEvent) {
    match x
    case Attach => !s.runner.fault
    case Octet(_, _) => Ready(s, c, unsolicited)
    case Other(e) => FromOutside(e) && Enabled(s.runner, c.delimiter, e)
  }

  function After(s: System, c: Config, unsolicited: seq<Match>, x: SystemEvent): System
    requires Possible(s, c, unsolicited, x)
  {
    match x
    case Attach => System(Reset(s.parser), Next(s.runner, c.delimiter, AttachCalled))
    case Octet(b, again) => HearOctet(s, c, unsolicited, b, again)
    case Other(e) => s.(runner := Next(s.runner, c.delimiter, e))
  }

  ghost predicate SystemRuns(s: System, c: Config, unsolicited: seq<Match>, xs: seq<SystemEvent>, s': System)
    decreases |xs|
  {
    if xs == [] then s' == s
    else Possible(s, c, unsolicited, xs[0]) && SystemRuns(After(s, c, unsolicited, xs[0]), c, unsolicited, xs[1..], s')
  }

  lemma AdvanceKeepsRecognised(r: Runner, initial: bool, result: Result, again: Option<Script>)
    ensures Stop(r, result, again).recognised == r.recognised
    ensures Advance(r, initial, again).recognised == r.recognised
  {
  }

  lemma RecognisedAfter(r: Runner, delimiter: seq<byte>, e: Event)
    requires Enabled(r, delimiter, e)
    ensures Next(r, delimiter, e).recognised ==
            match e
            case Recognised(kind) => Some(kind)
            case LineDropped => None
            case AttachCalled => None
            case MatchedLineEnd(_) => None
            case _ => r.recognised
  {
    match e
    case RunWork(again) => AdvanceKeepsRecognised(Load(r, r.active.runWork.value), true, Success, again);
    case SendWork(n, m, again) => SendKeepsRecognised(r, delimiter, n, m, again);
    case _ =>
  }

  lemma SendKeepsRecognised(r: Runner, delimiter: seq<byte>, n: nat, m: nat, again: Option<Script>)
    requires Takes(r, delimiter, n, m)
    ensures SendHandler(r, delimiter, n, m, again).recognised == r.recognised
  {
    if AtStep(r) && r.sending.requestPos <= |Request(r)| {
      var sending := Pump(r.sending, Request(r), delimiter, n, m).0;
      AdvanceKeepsRecognised(r.(works := r.works.(send := false), sending := sending), false, Success, again);
    }
  }

  lemma OctetKeepsRecognised(s: System, c: Config, unsolicited: seq<Match>, b: byte, again: Option<Script>)
    requires Ready(s, c, unsolicited)
    ensures var s' := HearOctet(s, c, unsolicited, b, again); s'.runner.recognised == KindOf(s'.parser.found)
  {
    var (q, o) := ProcessByte(s.parser, c, TableOf(s.runner, unsolicited), b);
    var report := ReportOf(s.parser, q, o, again);
    ReportIsEnabled(s, c, unsolicited, b, again);
    if report.Some? {
      RecognisedAfter(s.runner, c.delimiter, report.value);
    }
    LineEndResets(s.parser, c, TableOf(s.runner, unsolicited), b);
  }

  lemma LineEndResets(p: Parser, c: Config, t: Table, b: byte)
    requires Configured(|p.buf|, c, t) && p.len <= |p.buf|
    ensures ProcessByte(p, c, t, b).1.Received? ==> ProcessByte(p, c, t, b).0.found == NotFound
  {
  }

  /** Every run of the whole is a run of the script runner, with what the parser reported among its events. */
  lemma {:induction false} RunOfRunner(s: System, c: Config, unsolicited: seq<Match>, xs: seq<SystemEvent>, s': System)
    returns (es: seq<Event>)
    requires SystemRuns(s, c, unsolicited, xs, s') && s.runner.recognised == KindOf(s.parser.found)
    requires !s'.runner.fault
    ensures Runs(s.runner, c.delimiter, es, s'.runner) && s'.runner.recognised == KindOf(s'.parser.found)
    decreases |xs|
  {
    if xs == [] {
      return [];
    }
    var next := After(s, c, unsolicited, xs[0]);
    match xs[0] {
      case Attach =>
        var rest := RunOfRunner(next, c, unsolicited, xs[1..], s');
        es := [AttachCalled] + rest;
        RunsCons(s.runner, c.delimiter, AttachCalled, rest, s'.runner);
      case Octet(b, again) =>
        if next.runner.fault {
          FaultEnds(next, c, unsolicited, xs[1..], s');
        }
        OctetKeepsRecognised(s, c, unsolicited, b, again);
        var rest := RunOfRunner(next, c, unsolicited, xs[1..], s');
        es := OctetEvents(s, c, unsolicited, b, again, rest, s'.runner);
      case Other(e) =>
        RecognisedAfter(s.runner, c.delimiter, e);
        var rest := RunOfRunner(next, c, unsolicited, xs[1..], s');
        es := [e] + rest;
        RunsCons(s.runner, c.delimiter, e, rest, s'.runner);
    }
  }

  lemma FaultEnds(s: System, c: Config, unsolicited: seq<Match>, xs: seq<SystemEvent>, s': System)
    requires SystemRuns(s, c, unsolicited, xs, s') && s.runner.fault
    ensures s' == s
  {
  }

  lemma OctetEvents(s: System, c: Config, unsolicited: seq<Match>, b: byte, again: Option<Script>,
                    rest: seq<Event>, r': Runner) returns (es: seq<Event>)
    requires Ready(s, c, unsolicited)
    requires Runs(HearOctet(s, c, unsolicited, b, again).runner, c.delimiter, rest, r')
    requires !HearOctet(s, c, unsolicited, b, again).runner.fault
    ensures Runs(s.runner, c.delimiter, es, r')
  {
    es := rest;
    if !IsIn(b, c.filter) {
      var (q, o) := ProcessByte(s.parser, c, TableOf(s.runner, unsolicited), b);
      ReportIsEnabled(s, c, unsolicited, b, again);
      var report := ReportOf(s.parser, q, o, again);
      if report.Some? {
        es := [report.value] + rest;
        RunsCons(s.runner, c.delimiter, report.value, rest, r');
      }
    }
  }

  /** A fresh chat module: the parser between lines, no script. */
  predicate Fresh(s: System) {
    L.AtLineStart(s.parser) && s.runner == IDLE
  }

  /**
   Over every run of parser and script runner together that has not faulted: RUNNING is set exactly while a script is
   active or its run work pending, the step stays inside the script, accepted runs are results delivered plus the one
   running, and the match the runner believes recognised is the parser's.
   */
  lemma SystemAccounting(s: System, c: Config, unsolicited: seq<Match>, xs: seq<SystemEvent>, s': System)
    requires Fresh(s) && SystemRuns(s, c, unsolicited, xs, s') && !s'.runner.fault
    ensures var a := s'.runner.active;
            && a.running == (a.script.Some? || a.runWork.Some?) && !(a.script.Some? && a.runWork.Some?)
            && (a.script.Some? ==> a.it < |a.script.value.chats|)
            && s'.runner.log.accepted == |s'.runner.log.results| + (if a.running then 1 else 0)
    ensures s'.runner.recognised == KindOf(s'.parser.found)
  {
    var es := RunOfRunner(s, c, unsolicited, xs, s');
    ScriptAccounting(c.delimiter, es, s'.runner);
  }

  /** The octet that ends a line the system cannot handle: no script to move, or no second argument pointer. */
  predicate FaultyOctet(s: System, c: Config, unsolicited: seq<Match>, b: byte)
    requires Ready(s, c, unsolicited)
  {
    && !IsIn(b, c.filter) && s.parser.len < |s.parser.buf| && |s.parser.argv| != c.argvSize
    && DelimiterComplete(Stored(s.parser, b), c.delimiter) && |c.delimiter| <= s.parser.len
    && match s.parser.found
       case Found(kind, _) => kind in {RESPONSE, ABORT} && s.runner.active.script.None?
       case NotFound => c.argvSize < 2 && Find(TableOf(s.runner, unsolicited), []).Found?
  }

  /** The steps that use a null script, an octet beyond a request or a pointer beyond the argument array. */
  predicate Faulty(s: System, c: Config, unsolicited: seq<Match>, x: SystemEvent)
    requires Possible(s, c, unsolicited, x)
  {
    match x
    case Attach => false
    case Octet(b, _) => FaultyOctet(s, c, unsolicited, b)
    case Other(e) => e.SendWork? && AtStep(s.runner) && |Request(s.runner)| < s.runner.sending.requestPos
  }

  /** In every run from initialisation, a step faults if and only if the state before it makes it faulty. */
  lemma FaultExact(s: System, c: Config, unsolicited: seq<Match>, xs: seq<SystemEvent>, s': System, x: SystemEvent)
    requires Fresh(s) && SystemRuns(s, c, unsolicited, xs, s') && Possible(s', c, unsolicited, x)
    ensures After(s', c, unsolicited, x).runner.fault <==> Faulty(s', c, unsolicited, x)
  {
    var es := RunOfRunner(s, c, unsolicited, xs, s');
    RunKeepsGoodFromIdle(c.delimiter, es, s'.runner);
    match x {
      case Attach =>
      case Octet(b, again) => OctetFaultExact(s', c, unsolicited, b, again);
      case Other(e) => NextKeepsGood(s'.runner, c.delimiter, e);
    }
  }

  /**
   The faulty steps of a matched line and of a send work come about only when a script was stopped between the match
   of a line and its end, or when the script has moved on from the request of a send work.
   */
  lemma FaultNeedsHazard(s: System, c: Config, unsolicited: seq<Match>, xs: seq<SystemEvent>, s': System,
                         x: SystemEvent)
    requires Fresh(s) && SystemRuns(s, c, unsolicited, xs, s') && Possible(s', c, unsolicited, x)
    requires Faulty(s', c, unsolicited, x)
    ensures match x
            case Octet(_, _) => s'.parser.found.Found? ==> s'.runner.log.stopped
            case Other(e) => e.SendWork? && !s'.runner.log.ownRequest
            case Attach => false
  {
    var es := RunOfRunner(s, c, unsolicited, xs, s');
    RunKeepsGoodFromIdle(c.delimiter, es, s'.runner);
    match x {
      case Octet(b, again) =>
        if s'.parser.found.Found? {
          HazardNeedsStop(c.delimiter, es, s'.runner, again);
        }
      case Other(e) => OutsideFault(s'.runner, c.delimiter, es, e);
    }
  }

  lemma RunKeepsGoodFromIdle(delimiter: seq<byte>, es: seq<Event>, r: Runner)
    requires Runs(IDLE, delimiter, es, r) && !r.fault
    ensures Good(r, delimiter)
  {
    RunKeepsGood(IDLE, delimiter, es, r);
  }

  lemma OctetFaultExact(s: System, c: Config, unsolicited: seq<Match>, b: byte, again: Option<Script>)
    requires Ready(s, c, unsolicited) && Good(s.runner, c.delimiter)
    ensures HearOctet(s, c, unsolicited, b, again).runner.fault <==> FaultyOctet(s, c, unsolicited, b)
  {
    if !IsIn(b, c.filter) {
      var (q, o) := ProcessByte(s.parser, c, TableOf(s.runner, unsolicited), b);
      ReportIsEnabled(s, c, unsolicited, b, again);
      var report := ReportOf(s.parser, q, o, again);
      if report.Some? {
        NextKeepsGood(s.runner, c.delimiter, report.value);
      }
    }
  }

  lemma OutsideFault(r: Runner, delimiter: seq<byte>, es: seq<Event>, e: Event)
    requires Runs(IDLE, delimiter, es, r) && !r.fault && FromOutside(e) && Hazard(r, e)
    ensures e.SendWork? && !r.log.ownRequest
  {
    match e
    case SendWork(n, m, again) => HazardNeedsStaleSend(delimiter, es, r, n, m, again);
    case _ =>
  }

  /** Octets one after the other. */
  function Octets(bs: seq<byte>, again: Option<Script>): (xs: seq<SystemEvent>)
    ensures |xs| == |bs| && forall i | 0 <= i < |bs| :: xs[i] == Octet(bs[i], again)
  {
    seq(|bs|, i requires 0 <= i < |bs| => Octet(bs[i], again))
  }

  lemma {:induction false} RunsThen(s: System, c: Config, unsolicited: seq<Match>, xs: seq<SystemEvent>, s1: System,
                                    ys: seq<SystemEvent>, s2: System)
    requires SystemRuns(s, c, unsolicited, xs, s1) && SystemRuns(s1, c, unsolicited, ys, s2)
    ensures SystemRuns(s, c, unsolicited, xs + ys, s2)
    decreases |xs|
  {
    if xs == [] {
      assert xs + ys == ys;
    } else {
      assert (xs + ys)[0] == xs[0] && (xs + ys)[1..] == xs[1..] + ys;
      RunsThen(After(s, c, unsolicited, xs[0]), c, unsolicited, xs[1..], s1, ys, s2);
    }
  }

  lemma RunsSnoc(s: System, c: Config, unsolicited: seq<Match>, xs: seq<SystemEvent>, s1: System, x: SystemEvent)
    requires SystemRuns(s, c, unsolicited, xs, s1) && Possible(s1, c, unsolicited, x)
    ensures SystemRuns(s, c, unsolicited, xs + [x], After(s1, c, unsolicited, x))
  {
    assert [x][1..] == [];
    assert SystemRuns(s1, c, unsolicited, [x], After(s1, c, unsolicited, x));
    RunsThen(s, c, unsolicited, xs, s1, [x], After(s1, c, unsolicited, x));
  }

  // ----- One line

  function HearOctets(s: System, c: Config, unsolicited: seq<Match>, bs: seq<byte>, again: Option<Script>): System
    decreases |bs|
  {
    if bs == [] then s
    else HearOctets(HearOctet(s, c, unsolicited, bs[0], again), c, unsolicited, bs[1..], again)
  }

  /** An octet that dispatches nothing leaves the script where it is. */
  lemma QuietOctet(s: System, c: Config, unsolicited: seq<Match>, b: byte, again: Option<Script>, l: L.Listener)
    requires Ready(s, c, unsolicited) && l.parser == s.parser && 2 <= c.argvSize
    requires L.Hear(l, c, TableOf(s.runner, unsolicited), b).dispatched == l.dispatched
    ensures var s' := HearOctet(s, c, unsolicited, b, again);
            && s'.parser == L.Hear(l, c, TableOf(s.runner, unsolicited), b).parser
            && SameScript(s.runner, s'.runner) && Ready(s', c, unsolicited)
  {
    if !IsIn(b, c.filter) {
      var t := TableOf(s.runner, unsolicited);
      L.StepBounds(s.parser, c, t, b);
      OctetKeepsRecognised(s, c, unsolicited, b, again);
      OctetMoves(s, c, unsolicited, b, again);
      SilentlyHeard(l, c, t, b);
      ReadyKept(s, HearOctet(s, c, unsolicited, b, again), c, unsolicited);
    }
  }

  lemma SilentlyHeard(l: L.Listener, c: Config, t: Table, b: byte)
    requires Configured(|l.parser.buf|, c, t) && l.parser.len <= |l.parser.buf| && !IsIn(b, c.filter)
    requires L.Hear(l, c, t, b).dispatched == l.dispatched && 2 <= c.argvSize
    ensures ProcessByte(l.parser, c, t, b).1 == Silent && L.Hear(l, c, t, b).parser == ProcessByte(l.parser, c, t, b).0
  {
    var (q, o) := ProcessByte(l.parser, c, t, b);
    assert |l.dispatched + L.Dispatched(o)| == |l.dispatched|;
  }

  lemma ReadyKept(s: System, s': System, c: Config, unsolicited: seq<Match>)
    requires Ready(s, c, unsolicited) && SameScript(s.runner, s'.runner)
    requires |s'.parser.buf| == |s.parser.buf| && s'.parser.len <= |s'.parser.buf|
    requires s'.runner.recognised == KindOf(s'.parser.found)
    ensures Ready(s', c, unsolicited)
  {
  }

  lemma {:induction false} DispatchedGrows(l: L.Listener, c: Config, t: Table, bs: seq<byte>)
    requires Configured(|l.parser.buf|, c, t) && l.parser.len <= |l.parser.buf|
    ensures |l.dispatched| <= |L.Listen(l, c, t, bs).dispatched|
    ensures L.Listen(l, c, t, bs).dispatched == l.dispatched && bs != [] ==>
              L.Hear(l, c, t, bs[0]).dispatched == l.dispatched
    decreases |bs|
  {
    if bs != [] {
      DispatchedGrows(L.Hear(l, c, t, bs[0]), c, t, bs[1..]);
    }
  }

  lemma {:induction false} QuietOctets(s: System, c: Config, unsolicited: seq<Match>, bs: seq<byte>,
                                       again: Option<Script>, l: L.Listener)
    requires Ready(s, c, unsolicited) && l.parser == s.parser && 2 <= c.argvSize
    requires L.Listen(l, c, TableOf(s.runner, unsolicited), bs).dispatched == l.dispatched
    ensures var s' := HearOctets(s, c, unsolicited, bs, again);
            && s'.parser == L.Listen(l, c, TableOf(s.runner, unsolicited), bs).parser
            && SameScript(s.runner, s'.runner) && Ready(s', c, unsolicited)
            && SystemRuns(s, c, unsolicited, Octets(bs, again), s')
    decreases |bs|
  {
    if bs != [] {
      var t := TableOf(s.runner, unsolicited);
      DispatchedGrows(l, c, t, bs);
      QuietOctet(s, c, unsolicited, bs[0], again, l);
      var s1 := HearOctet(s, c, unsolicited, bs[0], again);
      assert TableOf(s1.runner, unsolicited) == t;
      QuietOctets(s1, c, unsolicited, bs[1..], again, L.Hear(l, c, t, bs[0]));
      assert Octets(bs, again)[1..] == Octets(bs[1..], again);
    }
  }

  lemma LastOctetMoves(s: System, c: Config, unsolicited: seq<Match>, b: byte, again: Option<Script>)
    requires Ready(s, c, unsolicited) && !IsIn(b, c.filter)
    requires L.AtLineStart(ProcessByte(s.parser, c, TableOf(s.runner, unsolicited), b).0)
    ensures HearOctet(s, c, unsolicited, b, again).runner ==
            Moved(s.runner.(recognised := None), ProcessByte(s.parser, c, TableOf(s.runner, unsolicited), b).1, again)
  {
    ReportIsEnabled(s, c, unsolicited, b, again);
    assert s.parser.found.NotFound? ==> s.runner.(recognised := None) == s.runner;
  }

  /** The text and all of its delimiter but the last octet, with filtered octets anywhere between. */
  lemma AllButLast(l: L.Listener, c: Config, t: Table, line: seq<byte>, h: seq<byte>)
    requires Configured(|l.parser.buf|, c, t) && L.Acceptable(c, t, |l.parser.buf|, line) && L.AtLineStart(l.parser)
    requires L.Unfiltered(h, c.filter) == line + c.delimiter[..|c.delimiter| - 1]
    ensures var l1 := L.Listen(l, c, t, h);
            var last := c.delimiter[|c.delimiter| - 1];
            l1.dispatched == l.dispatched
            && L.AtLineStart(ProcessByte(l1.parser, c, t, last).0)
            && ProcessByte(l1.parser, c, t, last).1 == L.LineDispatch(t, line)
  {
    var plain := c.(filter := []);
    var k := |c.delimiter| - 1;
    L.ListenUnfiltered(l, c, t, h);
    L.DelimiterHeard(l, plain, t, line, k);
    var l1 := L.Listen(l, c, t, h);
    L.LastOctet(l1.parser, plain, t, line);
    FilterDoesNotMatter(l1.parser, c, t, c.delimiter[k]);
  }

  lemma FilterDoesNotMatter(p: Parser, c: Config, t: Table, b: byte)
    requires Configured(|p.buf|, c, t) && p.len <= |p.buf|
    ensures ProcessByte(p, c.(filter := []), t, b) == ProcessByte(p, c, t, b)
  {
  }

  lemma OctetAfterRun(s: System, c: Config, unsolicited: seq<Match>, bs: seq<byte>, s1: System, b: byte,
                      again: Option<Script>)
    requires SystemRuns(s, c, unsolicited, Octets(bs, again), s1) && Ready(s1, c, unsolicited)
    ensures SystemRuns(s, c, unsolicited, Octets(bs + [b], again), HearOctet(s1, c, unsolicited, b, again))
  {
    RunsSnoc(s, c, unsolicited, Octets(bs, again), s1, Octet(b, again));
    assert Octets(bs + [b], again) == Octets(bs, again) + [Octet(b, again)];
  }

  /**
   A line heard from its start to its delimiter moves the script exactly as its dispatch says, however the octets of
   the filter are mixed into it: the next step after a response, the end of the script after an abort, nothing else.
   */
  lemma LineDrivesScript(s: System, c: Config, unsolicited: seq<Match>, line: seq<byte>, h: seq<byte>,
                         again: Option<Script>) returns (calm: Runner)
    requires Ready(s, c, unsolicited) && L.AtLineStart(s.parser) && 2 <= c.argvSize
    requires L.Acceptable(c, TableOf(s.runner, unsolicited), |s.parser.buf|, line)
    requires L.Unfiltered(h, c.filter) == line + c.delimiter[..|c.delimiter| - 1]
    requires !IsIn(c.delimiter[|c.delimiter| - 1], c.filter)
    ensures SameScript(s.runner, calm) && calm.recognised == None
    ensures var s' := HearOctets(s, c, unsolicited, h + [c.delimiter[|c.delimiter| - 1]], again);
            && L.AtLineStart(s'.parser) && |s'.parser.buf| == |s.parser.buf|
            && s'.runner == Moved(calm, L.LineDispatch(TableOf(s.runner, unsolicited), line), again)
            && SystemRuns(s, c, unsolicited, Octets(h + [c.delimiter[|c.delimiter| - 1]], again), s')
  {
    var t, last := TableOf(s.runner, unsolicited), c.delimiter[|c.delimiter| - 1];
    var l := L.Listener(s.parser, []);
    AllButLast(l, c, t, line, h);
    QuietOctets(s, c, unsolicited, h, again, l);
    var s1 := HearOctets(s, c, unsolicited, h, again);
    assert TableOf(s1.runner, unsolicited) == t;
    LastOctetMoves(s1, c, unsolicited, last, again);
    HearSnoc(s, c, unsolicited, h, last, again);
    calm := s1.runner.(recognised := None);
    OctetAfterRun(s, c, unsolicited, h, s1, last, again);
  }

  lemma {:induction false} HearSnoc(s: System, c: Config, unsolicited: seq<Match>, bs: seq<byte>, b: byte,
                                    again: Option<Script>)
    ensures HearOctets(s, c, unsolicited, bs + [b], again) ==
            HearOctet(HearOctets(s, c, unsolicited, bs, again), c, unsolicited, b, again)
    decreases |bs|
  {
    if bs == [] {
      assert [b][1..] == [];
      assert bs + [b] == [b];
    } else {
      assert (bs + [b])[0] == bs[0] && (bs + [b])[1..] == bs[1..] + [b];
      HearSnoc(HearOctet(s, c, unsolicited, bs[0], again), c, unsolicited, bs[1..], b, again);
    }
  }
}
