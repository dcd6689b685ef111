/**
 A script from its call to its result: each request goes out in any number of writes, each response comes in with
 filtered octets anywhere between, and the script ends in success with exactly its requests sent.
 */
module ChatDialogue {
  import opened Crc
  import opened Sequences
  import opened ChatParse
  import opened ChatScript
  import opened ChatSystem
  import L = ChatLine

  // ----- What goes out

  /** The octets that the pipe takes in an event. */
  function EventOut(r: Runner, delimiter: seq<byte>, x: SystemEvent): seq<byte> {
    match x
    case Other(SendWork(n, m, _)) =>
      if AtStep(r) && r.sending.requestPos + n <= |Request(r)| && r.sending.delimiterPos + m <= |delimiter| then
        Written(r.sending, Request(r), delimiter, n, m)
      else []
    case _ => []
  }

  function Written(s: Sending, request: seq<byte>, delimiter: seq<byte>, n: nat, m: nat): seq<byte>
    requires s.requestPos + n <= |request| && s.delimiterPos + m <= |delimiter|
  {
    Since(s.sent, Pump(s, request, delimiter, n, m).0.sent)
  }

  /** The octets that the pipe takes in a run. */
  function WireOut(s: System, c: Config, unsolicited: seq<Match>, xs: seq<SystemEvent>): seq<byte>
    decreases |xs|
  {
    if xs == [] || !Possible(s, c, unsolicited, xs[0]) then []
    else EventOut(s.runner, c.delimiter, xs[0]) + WireOut(After(s, c, unsolicited, xs[0]), c, unsolicited, xs[1..])
  }

  lemma {:induction false} WireConcat(s: System, c: Config, unsolicited: seq<Match>, xs: seq<SystemEvent>, s1: System,
                                      ys: seq<SystemEvent>)
    requires SystemRuns(s, c, unsolicited, xs, s1)
    ensures WireOut(s, c, unsolicited, xs + ys) == WireOut(s, c, unsolicited, xs) + WireOut(s1, c, unsolicited, ys)
    decreases |xs|
  {
    if xs == [] {
      assert xs + ys == ys;
    } else {
      var next := After(s, c, unsolicited, xs[0]);
      assert (xs + ys)[0] == xs[0] && (xs + ys)[1..] == xs[1..] + ys;
      WireConcat(next, c, unsolicited, xs[1..], s1, ys);
      Associative(EventOut(s.runner, c.delimiter, xs[0]), WireOut(next, c, unsolicited, xs[1..]),
                  WireOut(s1, c, unsolicited, ys));
    }
  }

  lemma {:induction false} OctetsWriteNothing(s: System, c: Config, unsolicited: seq<Match>, bs: seq<byte>)
    ensures WireOut(s, c, unsolicited, Octets(bs, None)) == []
    decreases |bs|
  {
    if bs != [] && Ready(s, c, unsolicited) {
      OctetsWriteNothing(HearOctet(s, c, unsolicited, bs[0], None), c, unsolicited, bs[1..]);
      assert Octets(bs, None)[1..] == Octets(bs[1..], None);
    }
  }

  // ----- Writes

  /** One run of the send work: how much the pipe takes of the request, and of the delimiter. */
  datatype Write = Write(n: nat, m: nat)

  predicate Offered(s: Sending, request: seq<byte>, delimiter: seq<byte>, w: Write) {
    s.requestPos + w.n <= |request| && s.delimiterPos + w.m <= |delimiter|
  }

  /** The writes together complete request and delimiter, the last of them. */
  predicate Completes(s: Sending, request: seq<byte>, delimiter: seq<byte>, ws: seq<Write>)
    decreases |ws|
  {
    ws != [] && Offered(s, request, delimiter, ws[0]) &&
    var (s', done) := Pump(s, request, delimiter, ws[0].n, ws[0].m);
    if done then |ws| == 1 else Completes(s', request, delimiter, ws[1..])
  }

  function SendWorks(ws: seq<Write>): seq<SystemEvent> {
    if ws == [] then [] else [Other(SendWork(ws[0].n, ws[0].m, None))] + SendWorks(ws[1..])
  }

  /** The runner with its request out. */
  function Completed(r: Runner, request: seq<byte>, delimiter: seq<byte>): Runner {
    r.(works := r.works.(send := false), sending := Sending(|request|, |delimiter|, request + delimiter))
  }

  lemma PumpWrites(s: Sending, request: seq<byte>, delimiter: seq<byte>, w: Write)
    requires Underway(s, request, delimiter) && Offered(s, request, delimiter, w)
    ensures var (s', done) := Pump(s, request, delimiter, w.n, w.m);
            && Underway(s', request, delimiter) && s.sent <= s'.sent
            && s'.sent == s.sent + Written(s, request, delimiter, w.n, w.m)
            && (done ==> s' == Sending(|request|, |delimiter|, request + delimiter))
  {
    PumpSendsRequest(s, request, delimiter, w.n, w.m);
    PumpExtends(s, request, delimiter, w);
    SinceMonotone(s.sent, s.sent, Pump(s, request, delimiter, w.n, w.m).0.sent);
  }

  lemma PumpExtends(s: Sending, request: seq<byte>, delimiter: seq<byte>, w: Write)
    requires Underway(s, request, delimiter) && Offered(s, request, delimiter, w)
    ensures var (s', done) := Pump(s, request, delimiter, w.n, w.m);
            && s.sent <= s'.sent && (done ==> s'.requestPos == |request| && s'.delimiterPos == |delimiter|)
  {
  }

  /** A request being sent, at a step whose send work is pending. */
  predicate SendsStep(r: Runner, script: Script, request: seq<byte>, delimiter: seq<byte>) {
    && !r.fault && r.works.send && r.active.script == Some(script) && AtStep(r) && Request(r) == request
    && Underway(r.sending, request, delimiter)
  }

  /** However the pipe takes them, the writes put the rest of request and delimiter on the wire, and nothing more. */
  lemma {:induction false} WritesRun(s: System, c: Config, unsolicited: seq<Match>, script: Script, request: seq<byte>,
                                     ws: seq<Write>)
    requires SendsStep(s.runner, script, request, c.delimiter)
    requires Completes(s.runner.sending, request, c.delimiter, ws)
    ensures AtStep(s.runner)
    ensures var s' := s.(runner := AfterPump(Completed(s.runner, request, c.delimiter), true, None));
            && SystemRuns(s, c, unsolicited, SendWorks(ws), s')
            && s.runner.sending.sent + WireOut(s, c, unsolicited, SendWorks(ws)) == request + c.delimiter
    decreases |ws|
  {
    var r, d, w := s.runner, c.delimiter, ws[0];
    var x, xs := Other(SendWork(w.n, w.m, None)), SendWorks(ws);
    PumpWrites(r.sending, request, d, w);
    var (sending, done) := Pump(r.sending, request, d, w.n, w.m);
    var next := After(s, c, unsolicited, x);
    assert xs[0] == x && xs[1..] == SendWorks(ws[1..]);
    assert next.runner == AfterPump(Woken(r).(sending := sending), done, None);
    if done {
      assert ws[1..] == [];
      assert WireOut(next, c, unsolicited, []) == [];
    } else {
      WritesRun(next, c, unsolicited, script, request, ws[1..]);
    }
    Associative(r.sending.sent, EventOut(r, d, x), WireOut(next, c, unsolicited, xs[1..]));
  }

  // ----- One step

  /** What answers a step: the writes of its send work, and a line, heard with filtered octets in it. */
  datatype Reply = Reply(ws: seq<Write>, line: seq<byte>, heard: seq<byte>)

  function TableAt(script: Script, k: nat, unsolicited: seq<Match>): Table
    requires k < |script.chats|
  {
    [script.chats[k].responses, script.aborts, unsolicited]
  }

  /** The line and its delimiter, whose last octet comes last. */
  predicate HeardAs(c: Config, line: seq<byte>, heard: seq<byte>) {
    var n, d := |heard| - 1, c.delimiter;
    && 0 <= n && d != [] && heard[n] == d[|d| - 1] && !IsIn(heard[n], c.filter)
    && L.Unfiltered(heard[..n], c.filter) == line + d[..|d| - 1]
  }

  /** A line that the parser takes in and that is a response. */
  predicate Responds(c: Config, t: Table, size: nat, line: seq<byte>, heard: seq<byte>) {
    && L.Acceptable(c, t, size, line) && HeardAs(c, line, heard)
    && L.LineDispatch(t, line).Received? && L.LineDispatch(t, line).d.kind == RESPONSE
  }

  predicate Answers(c: Config, unsolicited: seq<Match>, size: nat, script: Script, k: nat, reply: Reply)
    requires k < |script.chats|
  {
    var chat := script.chats[k];
    && (if chat.request == [] then reply.ws == []
        else Completes(Sending(0, 0, []), chat.request, c.delimiter, reply.ws))
    && (chat.responses != [] ==> Responds(c, TableAt(script, k, unsolicited), size, reply.line, reply.heard))
  }

  /** A step that awaits no response is over when its request is out, or after its pause. */
  function EndEvents(chat: Chat, heard: seq<byte>): seq<SystemEvent> {
    if chat.responses != [] then Octets(heard, None)
    else if chat.timeout == 0 then []
    else [Other(SendTimeoutWork(None))]
  }

  function StepEvents(chat: Chat, reply: Reply): seq<SystemEvent> {
    SendWorks(reply.ws) + EndEvents(chat, reply.heard)
  }

  function StepOut(chat: Chat, delimiter: seq<byte>): seq<byte> {
    if chat.request == [] then [] else chat.request + delimiter
  }

  predicate IsAt(a: Active, script: Script, k: nat) {
    k < |script.chats| && a == Active(true, Some(script), None, k, script.chats[k].responses, script.aborts)
  }

  /** The script is at a step and the parser between lines. */
  predicate Waits(s: System, c: Config, unsolicited: seq<Match>, script: Script, k: nat) {
    Ready(s, c, unsolicited) && L.AtLineStart(s.parser) && IsAt(s.runner.active, script, k)
  }

  predicate AtChat(s: System, c: Config, unsolicited: seq<Match>, script: Script, k: nat) {
    && Waits(s, c, unsolicited, script, k)
    && (script.chats[k].request != [] ==> s.runner.works.send && s.runner.sending == Sending(0, 0, []))
  }

  /** No script is running. */
  predicate AtRest(s: System, c: Config, unsolicited: seq<Match>) {
    && Ready(s, c, unsolicited) && L.AtLineStart(s.parser) && !s.runner.active.running
    && s.runner.active.responses == [] && s.runner.active.aborts == []
  }

  /** The script is at step `k`, or over when there is none; `results` were delivered. */
  predicate Reached(s: System, c: Config, unsolicited: seq<Match>, script: Script, k: nat, results: seq<Result>) {
    if k < |script.chats| then AtChat(s, c, unsolicited, script, k) && s.runner.log.results == results
    else AtRest(s, c, unsolicited) && s.runner.log.results == results + [Success]
  }

  /** Every step's matches are shorter than the buffer. */
  predicate FitsScript(size: nat, c: Config, unsolicited: seq<Match>, script: Script) {
    forall k | 0 <= k < |script.chats| :: Configured(size, c, TableAt(script, k, unsolicited))
  }

  lemma NoMatchesFit(size: nat, c: Config, t: Table, unsolicited: seq<Match>)
    requires Configured(size, c, t) && t[2] == unsolicited
    ensures Configured(size, c, [[], [], unsolicited])
  {
    var rest: Table := [[], [], unsolicited];
    forall kind, i | 0 <= kind < 3 && 0 <= i < |rest[kind]| ensures |rest[kind][i].pattern| < size {
      assert rest[kind][i] == t[2][i];
    }
  }

  lemma StepEntered(r: Runner, script: Script, k: nat)
    requires IsAt(r.active, script, k) && k + 1 < |script.chats|
    ensures var r' := Advance(r, false, None);
            && IsAt(r'.active, script, k + 1) && r'.fault == r.fault && r'.recognised == r.recognised
            && r'.log.results == r.log.results && r'.log.accepted == r.log.accepted
            && (script.chats[k + 1].request != [] ==> r'.works.send && r'.sending == Sending(0, 0, []))
  {
  }

  lemma ScriptOver(r: Runner, script: Script, k: nat)
    requires IsAt(r.active, script, k) && k + 1 == |script.chats|
    ensures var r' := Advance(r, false, None);
            && r'.active == Active(false, None, None, k + 1, [], []) && r'.fault == r.fault
            && r'.recognised == r.recognised && r'.log.results == r.log.results + [Success]
            && r'.log.accepted == r.log.accepted
  {
  }

  /** Moving on brings the script to the next step, or to its end. */
  lemma MovesOn(s: System, c: Config, unsolicited: seq<Match>, script: Script, k: nat, s': System)
    requires Waits(s, c, unsolicited, script, k) && FitsScript(|s.parser.buf|, c, unsolicited, script)
    requires L.AtLineStart(s'.parser) && |s'.parser.buf| == |s.parser.buf|
    requires s'.runner == Advance(s.runner, false, None)
    ensures Reached(s', c, unsolicited, script, k + 1, s.runner.log.results)
    ensures s'.runner.log.accepted == s.runner.log.accepted
  {
    if k + 1 < |script.chats| {
      StepEntered(s.runner, script, k);
      assert TableOf(s'.runner, unsolicited) == TableAt(script, k + 1, unsolicited);
    } else {
      ScriptOver(s.runner, script, k);
      NoMatchesFit(|s.parser.buf|, c, TableOf(s.runner, unsolicited), unsolicited);
      assert TableOf(s'.runner, unsolicited) == [[], [], unsolicited];
    }
  }

  /** A response moves the script on. */
  lemma LineEndsStep(s: System, c: Config, unsolicited: seq<Match>, script: Script, k: nat, line: seq<byte>,
                     heard: seq<byte>) returns (s': System)
    requires Waits(s, c, unsolicited, script, k) && FitsScript(|s.parser.buf|, c, unsolicited, script)
    requires 2 <= c.argvSize && Responds(c, TableAt(script, k, unsolicited), |s.parser.buf|, line, heard)
    ensures SystemRuns(s, c, unsolicited, Octets(heard, None), s')
    ensures Reached(s', c, unsolicited, script, k + 1, s.runner.log.results)
    ensures s'.runner.log.accepted == s.runner.log.accepted && |s'.parser.buf| == |s.parser.buf|
  {
    var n, d := |heard| - 1, c.delimiter;
    assert heard == heard[..n] + [d[|d| - 1]];
    assert TableOf(s.runner, unsolicited) == TableAt(script, k, unsolicited);
    var calm := LineDrivesScript(s, c, unsolicited, line, heard[..n], None);
    s' := HearOctets(s, c, unsolicited, heard, None);
    MovesOn(s.(runner := calm), c, unsolicited, script, k, s');
  }

  /** After its pause, a step without responses moves the script on. */
  lemma PauseEndsStep(s: System, c: Config, unsolicited: seq<Match>, script: Script, k: nat) returns (s': System)
    requires Waits(s, c, unsolicited, script, k) && FitsScript(|s.parser.buf|, c, unsolicited, script)
    requires s.runner.works.sendTimeout
    ensures SystemRuns(s, c, unsolicited, [Other(SendTimeoutWork(None))], s')
    ensures Reached(s', c, unsolicited, script, k + 1, s.runner.log.results)
    ensures s'.runner.log.accepted == s.runner.log.accepted && |s'.parser.buf| == |s.parser.buf|
  {
    var x := Other(SendTimeoutWork(None));
    s' := After(s, c, unsolicited, x);
    assert [x][1..] == [];
    var awake := s.runner.(works := s.runner.works.(sendTimeout := false));
    MovesOn(s.(runner := awake), c, unsolicited, script, k, s');
  }

  /** A run after a run. */
  lemma Joins(s: System, c: Config, unsolicited: seq<Match>, xs: seq<SystemEvent>, s1: System, ys: seq<SystemEvent>,
              s2: System)
    requires SystemRuns(s, c, unsolicited, xs, s1) && SystemRuns(s1, c, unsolicited, ys, s2)
    ensures SystemRuns(s, c, unsolicited, xs + ys, s2)
    ensures WireOut(s, c, unsolicited, xs + ys) == WireOut(s, c, unsolicited, xs) + WireOut(s1, c, unsolicited, ys)
  {
    RunsThen(s, c, unsolicited, xs, s1, ys, s2);
    WireConcat(s, c, unsolicited, xs, s1, ys);
  }

  lemma EndWritesNothing(s: System, c: Config, unsolicited: seq<Match>, chat: Chat, heard: seq<byte>)
    ensures WireOut(s, c, unsolicited, EndEvents(chat, heard)) == []
  {
    OctetsWriteNothing(s, c, unsolicited, heard);
  }

  /** A run in which `out` goes out, and which brings the running script to step `k`. */
  ghost predicate Goes(s: System, c: Config, unsolicited: seq<Match>, script: Script, xs: seq<SystemEvent>, s': System,
                       k: nat, out: seq<byte>) {
    && SystemRuns(s, c, unsolicited, xs, s') && WireOut(s, c, unsolicited, xs) == out
    && Reached(s', c, unsolicited, script, k, s.runner.log.results)
    && s'.runner.log.accepted == s.runner.log.accepted && |s'.parser.buf| == |s.parser.buf|
  }

  /** The request goes out, whole. */
  lemma RequestOut(s: System, c: Config, unsolicited: seq<Match>, script: Script, k: nat, ws: seq<Write>)
    requires AtChat(s, c, unsolicited, script, k)
    requires script.chats[k].request != [] && Completes(Sending(0, 0, []), script.chats[k].request, c.delimiter, ws)
    ensures AtStep(s.runner)
    ensures var chat := script.chats[k];
            var s1 := s.(runner := AfterPump(Completed(s.runner, chat.request, c.delimiter), true, None));
            && SystemRuns(s, c, unsolicited, SendWorks(ws), s1)
            && WireOut(s, c, unsolicited, SendWorks(ws)) == chat.request + c.delimiter
  {
    var out := WireOut(s, c, unsolicited, SendWorks(ws));
    assert script.chats[k].request[..0] + c.delimiter[..0] == [];
    WritesRun(s, c, unsolicited, script, script.chats[k].request, ws);
    assert [] + out == out;
  }

  /** What is left of the step once its request is out. */
  lemma EndsStep(s: System, c: Config, unsolicited: seq<Match>, script: Script, k: nat, reply: Reply)
    returns (s': System)
    requires Waits(s, c, unsolicited, script, k) && FitsScript(|s.parser.buf|, c, unsolicited, script)
    requires 2 <= c.argvSize && Answers(c, unsolicited, |s.parser.buf|, script, k, reply)
    ensures var chat := script.chats[k];
            var s1 := s.(runner := AfterPump(s.runner, true, None));
            && SystemRuns(s1, c, unsolicited, EndEvents(chat, reply.heard), s')
            && Reached(s', c, unsolicited, script, k + 1, s.runner.log.results)
            && s'.runner.log.accepted == s.runner.log.accepted && |s'.parser.buf| == |s.parser.buf|
  {
    var chat := script.chats[k];
    var s1 := s.(runner := AfterPump(s.runner, true, None));
    if chat.responses != [] {
      s' := LineEndsStep(s, c, unsolicited, script, k, reply.line, reply.heard);
    } else if chat.timeout == 0 {
      s' := s1;
      MovesOn(s, c, unsolicited, script, k, s1);
    } else {
      s' := PauseEndsStep(s1, c, unsolicited, script, k);
    }
  }

  /** One step: exactly its request and delimiter go out, and the script is at the next step, or over. */
  lemma StepDone(s: System, c: Config, unsolicited: seq<Match>, script: Script, k: nat, reply: Reply)
    returns (s': System)
    requires AtChat(s, c, unsolicited, script, k) && FitsScript(|s.parser.buf|, c, unsolicited, script)
    requires ValidScript(script) && 2 <= c.argvSize && Answers(c, unsolicited, |s.parser.buf|, script, k, reply)
    ensures var chat := script.chats[k];
            Goes(s, c, unsolicited, script, StepEvents(chat, reply), s', k + 1, StepOut(chat, c.delimiter))
  {
    var chat := script.chats[k];
    if chat.request == [] {
      s' := LineEndsStep(s, c, unsolicited, script, k, reply.line, reply.heard);
      OctetsWriteNothing(s, c, unsolicited, reply.heard);
      assert [] + Octets(reply.heard, None) == Octets(reply.heard, None);
    } else {
      RequestOut(s, c, unsolicited, script, k, reply.ws);
      var out := s.(runner := Completed(s.runner, chat.request, c.delimiter));
      var s1 := s.(runner := AfterPump(out.runner, true, None));
      s' := EndsStep(out, c, unsolicited, script, k, reply);
      Joins(s, c, unsolicited, SendWorks(reply.ws), s1, EndEvents(chat, reply.heard), s');
      EndWritesNothing(s1, c, unsolicited, chat, reply.heard);
    }
  }

  // ----- The whole script

  /** The steps from `k` on, each answered in turn. */
  function DialogueEvents(script: Script, k: nat, replies: seq<Reply>): seq<SystemEvent>
    requires k + |replies| == |script.chats|
    decreases |replies|
  {
    if replies == [] then []
    else StepEvents(script.chats[k], replies[0]) + DialogueEvents(script, k + 1, replies[1..])
  }

  function DialogueOut(chats: seq<Chat>, delimiter: seq<byte>): seq<byte> {
    if chats == [] then [] else StepOut(chats[0], delimiter) + DialogueOut(chats[1..], delimiter)
  }

  predicate AllAnswer(c: Config, unsolicited: seq<Match>, size: nat, script: Script, k: nat, replies: seq<Reply>)
    requires k + |replies| == |script.chats|
  {
    forall i | 0 <= i < |replies| :: Answers(c, unsolicited, size, script, k + i, replies[i])
  }

  /** Everything the rest of a script needs of the instance and of the answers. */
  predicate Answered(c: Config, unsolicited: seq<Match>, size: nat, script: Script, k: nat, replies: seq<Reply>) {
    && ValidScript(script) && FitsScript(size, c, unsolicited, script) && 2 <= c.argvSize
    && k + |replies| == |script.chats| && AllAnswer(c, unsolicited, size, script, k, replies)
  }

  lemma LaterAnswered(c: Config, unsolicited: seq<Match>, size: nat, script: Script, k: nat, replies: seq<Reply>)
    requires Answered(c, unsolicited, size, script, k, replies) && replies != []
    ensures Answers(c, unsolicited, size, script, k, replies[0])
    ensures Answered(c, unsolicited, size, script, k + 1, replies[1..])
  {
    assert Answers(c, unsolicited, size, script, k + 0, replies[0]);
    forall i | 0 <= i < |replies| - 1 ensures Answers(c, unsolicited, size, script, k + 1 + i, replies[1..][i]) {
      assert Answers(c, unsolicited, size, script, k + (i + 1), replies[i + 1]);
    }
  }

  lemma OutFrom(chats: seq<Chat>, k: nat, delimiter: seq<byte>)
    requires k < |chats|
    ensures DialogueOut(chats[k..], delimiter) == StepOut(chats[k], delimiter) + DialogueOut(chats[k + 1..], delimiter)
  {
    assert chats[k..][1..] == chats[k + 1..];
  }

  lemma DialogueJoins(s: System, c: Config, unsolicited: seq<Match>, script: Script, k: nat, replies: seq<Reply>,
                      s1: System, s2: System)
    requires k + |replies| == |script.chats| && replies != []
    requires Goes(s, c, unsolicited, script, StepEvents(script.chats[k], replies[0]), s1, k + 1,
                  StepOut(script.chats[k], c.delimiter))
    requires k + 1 < |script.chats| ==>
               Goes(s1, c, unsolicited, script, DialogueEvents(script, k + 1, replies[1..]), s2, |script.chats|,
                    DialogueOut(script.chats[k + 1..], c.delimiter))
    requires k + 1 == |script.chats| ==> s2 == s1
    ensures Goes(s, c, unsolicited, script, DialogueEvents(script, k, replies), s2, |script.chats|,
                 DialogueOut(script.chats[k..], c.delimiter))
  {
    Joins(s, c, unsolicited, StepEvents(script.chats[k], replies[0]), s1,
          DialogueEvents(script, k + 1, replies[1..]), s2);
    OutFrom(script.chats, k, c.delimiter);
  }

  lemma FirstStepDone(s: System, c: Config, unsolicited: seq<Match>, script: Script, k: nat, replies: seq<Reply>)
    returns (s1: System)
    requires Answered(c, unsolicited, |s.parser.buf|, script, k, replies) && AtChat(s, c, unsolicited, script, k)
    ensures replies != []
    ensures Goes(s, c, unsolicited, script, StepEvents(script.chats[k], replies[0]), s1, k + 1,
                 StepOut(script.chats[k], c.delimiter))
    ensures Answered(c, unsolicited, |s1.parser.buf|, script, k + 1, replies[1..])
    ensures k + 1 < |script.chats| ==> AtChat(s1, c, unsolicited, script, k + 1)
  {
    LaterAnswered(c, unsolicited, |s.parser.buf|, script, k, replies);
    s1 := StepDone(s, c, unsolicited, script, k, replies[0]);
  }

  lemma {:induction false} DialogueRuns(s: System, c: Config, unsolicited: seq<Match>, script: Script, k: nat,
                                        replies: seq<Reply>) returns (s': System)
    requires Answered(c, unsolicited, |s.parser.buf|, script, k, replies) && AtChat(s, c, unsolicited, script, k)
    ensures Goes(s, c, unsolicited, script, DialogueEvents(script, k, replies), s', |script.chats|,
                 DialogueOut(script.chats[k..], c.delimiter))
    decreases |replies|
  {
    var s1 := FirstStepDone(s, c, unsolicited, script, k, replies);
    s' := s1;
    if k + 1 < |script.chats| {
      s' := DialogueRuns(s1, c, unsolicited, script, k + 1, replies[1..]);
    }
    DialogueJoins(s, c, unsolicited, script, k, replies, s1, s');
  }

  function StartEvents(script: Script): seq<SystemEvent> {
    [Other(RunCalled(script))] + [Other(RunWork(None))]
  }

  /** The call is accepted, and the run work enters the first step. */
  lemma ScriptStarts(s: System, c: Config, unsolicited: seq<Match>, script: Script) returns (s': System)
    requires AtRest(s, c, unsolicited) && s.runner.attached && ValidScript(script)
    requires FitsScript(|s.parser.buf|, c, unsolicited, script)
    ensures SystemRuns(s, c, unsolicited, StartEvents(script), s')
    ensures WireOut(s, c, unsolicited, StartEvents(script)) == []
    ensures Reached(s', c, unsolicited, script, 0, s.runner.log.results) && |s'.parser.buf| == |s.parser.buf|
    ensures s'.runner.log.accepted == s.runner.log.accepted + 1 && s'.runner.works.timeout
  {
    var xs := StartEvents(script);
    var s1 := After(s, c, unsolicited, xs[0]);
    s' := After(s1, c, unsolicited, xs[1]);
    assert xs[1..] == [xs[1]] && [xs[1]][1..] == [];
    assert SystemRuns(s1, c, unsolicited, xs[1..], s');
    assert TableOf(s'.runner, unsolicited) == TableAt(script, 0, unsolicited);
    assert WireOut(s1, c, unsolicited, xs[1..]) == [];
  }

  /**
   A script called on an attached instance at rest, each of whose requests goes out in any writes and each of whose
   responses is heard, ends in success exactly once: all that the pipe was given is the requests of its steps with
   their delimiters, in order, the one accepted run has its one result, and the instance is at rest again.
   */
  lemma ScriptSucceeds(s: System, c: Config, unsolicited: seq<Match>, script: Script, replies: seq<Reply>)
    returns (s': System)
    requires AtRest(s, c, unsolicited) && s.runner.attached
    requires Answered(c, unsolicited, |s.parser.buf|, script, 0, replies)
    ensures var xs := StartEvents(script) + DialogueEvents(script, 0, replies);
            && SystemRuns(s, c, unsolicited, xs, s')
            && WireOut(s, c, unsolicited, xs) == DialogueOut(script.chats, c.delimiter)
    ensures AtRest(s', c, unsolicited) && s'.runner.log.results == s.runner.log.results + [Success]
    ensures s'.runner.log.accepted == s.runner.log.accepted + 1
  {
    var s1 := ScriptStarts(s, c, unsolicited, script);
    s' := DialogueRuns(s1, c, unsolicited, script, 0, replies);
    Joins(s, c, unsolicited, StartEvents(script), s1, DialogueEvents(script, 0, replies), s');
    assert script.chats[0..] == script.chats;
  }
}
