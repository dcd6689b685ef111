/**
 The script runner of the chat module. Every handler is one step; the pipe takes any number of octets offered, or
 fails; a script's callback may ask for the next script.

 `accepted`, `results`, `sent`, `ownRequest` and `stopped` are histories: how many runs were accepted, the results
 delivered, the octets transmitted since a request was last begun, whether that request is still the current step's,
 and whether a script was stopped since the parser recognised its match.
 */
module ChatScript {
  import opened Crc
  import opened Errno
  import opened ChatParse

  datatype Option<T> = None | Some(value: T)

  /** One step: an empty request sends nothing, no responses mean that none is awaited. */
  datatype Chat = Chat(request: seq<byte>, responses: seq<Match>, timeout: nat)

  datatype Script = Script(chats: seq<Chat>, abortsGiven: bool, aborts: seq<Match>)

  datatype Result = Success | Abort | Timeout

  /** How far request and delimiter have gone out, and the octets that did. */
  datatype Sending = Sending(requestPos: nat, delimiterPos: nat, sent: seq<byte>)

  /** The script under way or waiting to be started, the step it is at, and the matches it has set. */
  datatype Active = Active(running: bool, script: Option<Script>, runWork: Option<Script>, it: nat,
                           responses: seq<Match>, aborts: seq<Match>)

  /** The work items that are pending. */
  datatype Works = Works(send: bool, sendTimeout: bool, timeout: bool, abort: bool)

  datatype Log = Log(accepted: nat, results: seq<Result>, ownRequest: bool, stopped: bool)

  datatype Runner = Runner(attached: bool, active: Active, sending: Sending, works: Works, recognised: Option<nat>,
                           fault: bool, log: Log)

  const IDLE := Runner(false, Active(false, None, None, 0, [], []), Sending(0, 0, []),
                       Works(false, false, false, false), None, false, Log(0, [], false, false))

  predicate ValidScript(s: Script) {
    && s.chats != [] && (s.abortsGiven ==> s.aborts != [])
    && forall i | 0 <= i < |s.chats| :: s.chats[i].request != [] || s.chats[i].responses != []
  }

  /** The run call, with its result. */
  function Run(r: Runner, s: Script): (Runner, int) {
    if !r.attached then (r, -EPERM)
    else if !ValidScript(s) then (r, -EINVAL)
    else if r.active.running then (r, -EBUSY)
    else (Accept(r, s), 0)
  }

  function Accept(r: Runner, s: Script): Runner {
    r.(active := r.active.(running := true, runWork := Some(s)), log := r.log.(accepted := r.log.accepted + 1))
  }

  function Report(r: Runner, result: Result): Runner {
    r.(active := r.active.(running := false), log := r.log.(results := r.log.results + [result]))
  }

  /** The callback may ask for another script. */
  function Ask(r: Runner, again: Option<Script>): Runner {
    match again case None => r case Some(s) => Run(r, s).0
  }

  function Clear(r: Runner): Runner {
    r.(active := r.active.(script := None, responses := [], aborts := []),
       works := r.works.(timeout := false), log := r.log.(ownRequest := false, stopped := true))
  }

  /** Stopping delivers the result first; the script is cleared when the callback returns. */
  function Stop(r: Runner, result: Result, again: Option<Script>): Runner {
    if r.active.script.None? then r.(fault := true) else Clear(Ask(Report(r, result), again))
  }

  /** Moves to the first step or the next one. */
  function Advance(r: Runner, initial: bool, again: Option<Script>): Runner {
    if r.active.script.None? then r.(fault := true) else Enter(Entering(r, initial), again)
  }

  function Entering(r: Runner, initial: bool): Runner {
    r.(active := r.active.(it := if initial then 0 else r.active.it + 1), log := r.log.(ownRequest := false))
  }

  /** Past the last step is success. */
  function Enter(r: Runner, again: Option<Script>): Runner
    requires r.active.script.Some?
  {
    var chats := r.active.script.value.chats;
    if r.active.it == |chats| then Stop(r, Success, again)
    else if |chats| < r.active.it then r.(fault := true)
    else Begin(r, chats[r.active.it])
  }

  /** A step awaits its responses; its request, when there is one, starts going out. */
  function Begin(r: Runner, chat: Chat): Runner {
    var step := r.(active := r.active.(responses := chat.responses));
    if chat.request == [] then step
    else step.(sending := Sending(0, 0, []), works := step.works.(send := true), log := step.log.(ownRequest := true))
  }

  function Load(r: Runner, s: Script): Runner {
    r.(active := r.active.(runWork := None, script := Some(s), aborts := s.aborts))
  }

  function RunHandler(r: Runner, again: Option<Script>): Runner
    requires r.active.runWork.Some?
  {
    var started := Advance(Load(r, r.active.runWork.value), true, again);
    if started.active.script.Some? then started.(works := started.works.(timeout := true)) else started
  }

  function TimeoutHandler(r: Runner, again: Option<Script>): Runner {
    Stop(r.(works := r.works.(timeout := false)), Timeout, again)
  }

  function AbortHandler(r: Runner, again: Option<Script>): Runner {
    var awake := r.(works := r.works.(abort := false));
    if r.active.script.None? then awake else Stop(awake, Abort, again)
  }

  function SendTimeoutHandler(r: Runner, again: Option<Script>): Runner {
    var awake := r.(works := r.works.(sendTimeout := false));
    if r.active.script.None? then awake else Advance(awake, false, again)
  }

  // ----- Sending

  predicate AtStep(r: Runner) {
    r.active.script.Some? && r.active.it < |r.active.script.value.chats|
  }

  function Request(r: Runner): seq<byte>
    requires AtStep(r)
  {
    r.active.script.value.chats[r.active.it].request
  }

  /** One write of the request: the pipe takes `n` octets of those offered, 0 when it fails. */
  function SendRequest(s: Sending, request: seq<byte>, n: nat): (Sending, bool)
    requires s.requestPos + n <= |request|
  {
    if |request| == s.requestPos then (s, true)
    else
      var pos := s.requestPos + n;
      (s.(requestPos := pos, sent := s.sent + request[s.requestPos..pos]), pos == |request|)
  }

  function SendDelimiter(s: Sending, delimiter: seq<byte>, n: nat): (Sending, bool)
    requires s.delimiterPos + n <= |delimiter|
  {
    if |delimiter| == s.delimiterPos then (s, true)
    else
      var pos := s.delimiterPos + n;
      (s.(delimiterPos := pos, sent := s.sent + delimiter[s.delimiterPos..pos]), pos == |delimiter|)
  }

  /** Request, then delimiter; true when both are out. */
  function Pump(s: Sending, request: seq<byte>, delimiter: seq<byte>, n: nat, m: nat): (Sending, bool)
    requires s.requestPos + n <= |request| && s.delimiterPos + m <= |delimiter|
  {
    var (s1, requested) := SendRequest(s, request, n);
    if requested then SendDelimiter(s1, delimiter, m) else (s1, false)
  }

  /** The pipe takes no more than it is offered. */
  predicate Takes(r: Runner, delimiter: seq<byte>, n: nat, m: nat) {
    AtStep(r) && r.sending.requestPos <= |Request(r)| ==>
      r.sending.requestPos + n <= |Request(r)| && r.sending.delimiterPos + m <= |delimiter|
  }

  /** A position beyond the current request would be read past its end. */
  function SendHandler(r: Runner, delimiter: seq<byte>, n: nat, m: nat, again: Option<Script>): Runner
    requires Takes(r, delimiter, n, m)
  {
    if r.active.script.None? then Woken(r)
    else if |r.active.script.value.chats| <= r.active.it || |Request(r)| < r.sending.requestPos then
      Woken(r).(fault := true)
    else SendStep(Woken(r), delimiter, n, m, again)
  }

  /** The send work has begun to run. */
  function Woken(r: Runner): Runner { r.(works := r.works.(send := false)) }

  function SendStep(r: Runner, delimiter: seq<byte>, n: nat, m: nat, again: Option<Script>): Runner
    requires AtStep(r) && r.sending.requestPos + n <= |Request(r)| && r.sending.delimiterPos + m <= |delimiter|
  {
    var (sending, done) := Pump(r.sending, Request(r), delimiter, n, m);
    AfterPump(r.(sending := sending), done, again)
  }

  /** Unfinished sending is scheduled again; a step that awaits no response is over once sent, perhaps after a pause. */
  function AfterPump(r: Runner, done: bool, again: Option<Script>): Runner
    requires AtStep(r)
  {
    var chat := r.active.script.value.chats[r.active.it];
    if !done then r.(works := r.works.(send := true))
    else if chat.responses != [] then r
    else if chat.timeout == 0 then Advance(r, false, again)
    else r.(works := r.works.(sendTimeout := true))
  }

  // ----- What the parser reports

  /** The matches a line may be recognised by at this moment. */
  predicate CanMatch(r: Runner, kind: nat) {
    match kind
    case 0 => r.active.responses != []
    case 1 => r.active.aborts != []
    case _ => true
  }

  function OnMatched(r: Runner, kind: nat, again: Option<Script>): Runner {
    if kind == RESPONSE then Advance(r, false, again)
    else if kind == ABORT then Stop(r, Abort, again)
    else r
  }

  // ----- Runs

  datatype Event =
    | AttachCalled | RunCalled(s: Script) | AbortCalled
    | RunWork(again: Option<Script>) | TimeoutWork(again: Option<Script>) | AbortWork(again: Option<Script>)
    | SendWork(n: nat, m: nat, again: Option<Script>) | SendTimeoutWork(again: Option<Script>)
    | Recognised(kind: nat) | LineDropped
    | MatchedLineEnd(again: Option<Script>) | CatchAllLineEnd(kind: nat, again: Option<Script>)

  predicate Enabled(r: Runner, delimiter: seq<byte>, e: Event) {
    !r.fault &&
    match e
    case RunWork(_) => r.active.runWork.Some?
    case TimeoutWork(_) => r.works.timeout
    case AbortWork(_) => r.works.abort
    case SendTimeoutWork(_) => r.works.sendTimeout
    case SendWork(n, m, _) => r.works.send && Takes(r, delimiter, n, m)
    case Recognised(kind) => kind < 3 && CanMatch(r, kind)
    case MatchedLineEnd(_) => r.recognised.Some?
    case CatchAllLineEnd(kind, _) => kind < 3 && CanMatch(r, kind)
    case _ => true
  }

  function Next(r: Runner, delimiter: seq<byte>, e: Event): Runner
    requires Enabled(r, delimiter, e)
  {
    match e
    case AttachCalled => r.(attached := true, recognised := None)
    case RunCalled(s) => Run(r, s).0
    case AbortCalled => r.(works := r.works.(abort := true))
    case RunWork(again) => RunHandler(r, again)
    case TimeoutWork(again) => TimeoutHandler(r, again)
    case AbortWork(again) => AbortHandler(r, again)
    case SendWork(n, m, again) => SendHandler(r, delimiter, n, m, again)
    case SendTimeoutWork(again) => SendTimeoutHandler(r, again)
    case Recognised(kind) => r.(recognised := Some(kind), log := r.log.(stopped := false))
    case LineDropped => r.(recognised := None)
    case MatchedLineEnd(again) => OnMatched(r.(recognised := None), r.recognised.value, again)
    case CatchAllLineEnd(kind, again) => OnMatched(r, kind, again)
  }

  /** A run; it ends when a fault does. */
  ghost predicate Runs(r: Runner, delimiter: seq<byte>, es: seq<Event>, r': Runner)
    decreases |es|
  {
    if es == [] then r' == r
    else Enabled(r, delimiter, es[0]) && Runs(Next(r, delimiter, es[0]), delimiter, es[1..], r')
  }

  // ----- The invariant

  /** The script runs exactly from the accepted call to the delivered result. */
  predicate Accounted(r: Runner) {
    && r.active.running == (r.active.script.Some? || r.active.runWork.Some?)
    && !(r.active.script.Some? && r.active.runWork.Some?)
    && r.log.accepted == |r.log.results| + (if r.active.running then 1 else 0)
    && (r.active.runWork.Some? ==> ValidScript(r.active.runWork.value))
    && (r.active.script.Some? ==> ValidScript(r.active.script.value) && r.active.it < |r.active.script.value.chats|)
  }

  /** Response and abort matches and the script timeout exist only for an active script. */
  predicate Guarded(r: Runner) {
    && (r.active.responses != [] || r.active.aborts != [] || r.works.timeout ==> r.active.script.Some?)
    && (r.recognised in {Some(RESPONSE), Some(ABORT)} && !r.log.stopped ==> r.active.script.Some?)
  }

  /** What was sent is exactly the beginning of the request with its delimiter. */
  predicate Underway(s: Sending, request: seq<byte>, delimiter: seq<byte>) {
    && s.requestPos <= |request| && s.delimiterPos <= |delimiter|
    && (0 < s.delimiterPos ==> s.requestPos == |request|)
    && s.sent == request[..s.requestPos] + delimiter[..s.delimiterPos]
  }

  predicate SendsRequest(r: Runner, delimiter: seq<byte>) {
    && r.sending.delimiterPos <= |delimiter|
    && (r.log.ownRequest ==>
          AtStep(r) && Underway(r.sending, Request(r), delimiter))
  }

  predicate Good(r: Runner, delimiter: seq<byte>) {
    Accounted(r) && Guarded(r) && SendsRequest(r, delimiter)
  }

  lemma AskedAgain(r: Runner, s: Script)
    requires !r.active.running
    ensures var r' := Run(r, s).0;
            r' == if r.attached && ValidScript(s) then Accept(r, s) else r
  {
  }

  lemma StopKeepsGood(r: Runner, delimiter: seq<byte>, result: Result, again: Option<Script>)
    requires Good(r, delimiter) && r.active.script.Some?
    ensures Good(Stop(r, result, again), delimiter) && Stop(r, result, again).fault == r.fault
  {
    if again.Some? {
      AskedAgain(Report(r, result), again.value);
    }
  }

  /** A script that is being started or moved on; its runner need not be at a step of it yet. */
  predicate Moving(r: Runner, delimiter: seq<byte>) {
    && r.active.script.Some? && ValidScript(r.active.script.value) && r.active.running && r.active.runWork.None?
    && r.log.accepted == |r.log.results| + 1 && r.sending.delimiterPos <= |delimiter|
  }

  lemma StepBegun(r: Runner, delimiter: seq<byte>, initial: bool)
    requires Moving(r, delimiter)
    requires (if initial then 0 else r.active.it + 1) < |r.active.script.value.chats|
    ensures Good(Advance(r, initial, None), delimiter)
  {
    var r' := Advance(r, initial, None);
    if r'.log.ownRequest {
      assert Request(r')[..0] + delimiter[..0] == [];
    }
  }

  lemma ScriptFinished(r: Runner, delimiter: seq<byte>, again: Option<Script>)
    requires Moving(r, delimiter) && r.active.it + 1 == |r.active.script.value.chats|
    ensures Good(Advance(r, false, again), delimiter) && Advance(r, false, again).fault == r.fault
  {
    if again.Some? {
      AskedAgain(Report(Entering(r, false), Success), again.value);
    }
  }

  lemma AdvanceKeepsGood(r: Runner, delimiter: seq<byte>, initial: bool, again: Option<Script>)
    requires Moving(r, delimiter) && (initial || r.active.it < |r.active.script.value.chats|)
    ensures Good(Advance(r, initial, again), delimiter) && Advance(r, initial, again).fault == r.fault
  {
    if (if initial then 0 else r.active.it + 1) < |r.active.script.value.chats| {
      StepBegun(r, delimiter, initial);
      assert Advance(r, initial, again) == Advance(r, initial, None);
    } else {
      ScriptFinished(r, delimiter, again);
    }
  }

  lemma TakeMore(q: seq<byte>, d: seq<byte>, i: nat, n: nat)
    requires i + n <= |d|
    ensures q + d[..i] + d[i..i + n] == q + d[..i + n] && d[..i] + d[i..i + n] == d[..i + n]
    ensures q[..|q|] == q && d[..|d|] == d
  {
  }

  /** However little the pipe takes at a time, exactly the request and the delimiter have gone out at completion. */
  lemma PumpSendsRequest(s: Sending, request: seq<byte>, delimiter: seq<byte>, n: nat, m: nat)
    requires Underway(s, request, delimiter)
    requires s.requestPos + n <= |request| && s.delimiterPos + m <= |delimiter|
    ensures var (s', done) := Pump(s, request, delimiter, n, m);
            Underway(s', request, delimiter) && (done ==> s'.sent == request + delimiter)
  {
    RequestGoesOut(s, request, delimiter, n);
    var (s1, requested) := SendRequest(s, request, n);
    if requested {
      DelimiterGoesOut(s1, request, delimiter, m);
    }
  }

  lemma RequestGoesOut(s: Sending, request: seq<byte>, delimiter: seq<byte>, n: nat)
    requires Underway(s, request, delimiter) && s.requestPos + n <= |request|
    ensures var (s', done) := SendRequest(s, request, n);
            && Underway(s', request, delimiter) && s'.delimiterPos == s.delimiterPos
            && (done ==> s'.requestPos == |request|)
  {
    if s.requestPos < |request| {
      TakeMore([], request, s.requestPos, n);
      assert delimiter[..0] == [];
    }
  }

  lemma DelimiterGoesOut(s: Sending, request: seq<byte>, delimiter: seq<byte>, m: nat)
    requires Underway(s, request, delimiter) && s.requestPos == |request| && s.delimiterPos + m <= |delimiter|
    ensures var (s', done) := SendDelimiter(s, delimiter, m);
            Underway(s', request, delimiter) && (done ==> s'.sent == request + delimiter)
  {
    TakeMore(request, delimiter, s.delimiterPos, m);
    TakeMore([], request, 0, |request|);
  }

  lemma PumpBounds(s: Sending, request: seq<byte>, delimiter: seq<byte>, n: nat, m: nat)
    requires s.requestPos + n <= |request| && s.delimiterPos + m <= |delimiter|
    ensures Pump(s, request, delimiter, n, m).0.delimiterPos <= |delimiter|
  {
  }

  lemma PrefixOf(q: seq<byte>, i: nat, d: seq<byte>, j: nat)
    requires i <= |q| && j <= |d| && (0 < j ==> i == |q|)
    ensures q[..i] + d[..j] <= q + d
  {
    if j == 0 {
      assert q[..i] + d[..j] == q[..i];
    } else {
      assert q[..i] == q;
    }
  }

  lemma SentIsPrefix(r: Runner, delimiter: seq<byte>)
    requires SendsRequest(r, delimiter) && r.log.ownRequest
    ensures r.sending.sent <= Request(r) + delimiter
  {
    PrefixOf(Request(r), r.sending.requestPos, delimiter, r.sending.delimiterPos);
  }

  lemma SendingOn(r: Runner, delimiter: seq<byte>, sending: Sending, n: nat, m: nat)
    requires Good(r, delimiter) && r.active.script.Some? && r.sending.requestPos + n <= |Request(r)|
    requires r.sending.delimiterPos + m <= |delimiter| && sending == Pump(r.sending, Request(r), delimiter, n, m).0
    ensures Good(r.(sending := sending), delimiter)
  {
    PumpBounds(r.sending, Request(r), delimiter, n, m);
    if r.log.ownRequest {
      PumpSendsRequest(r.sending, Request(r), delimiter, n, m);
    }
  }

  lemma SchedulingKeepsGood(r: Runner, delimiter: seq<byte>, sendWork: bool, sendTimeoutWork: bool)
    requires Good(r, delimiter)
    ensures Good(r.(works := r.works.(send := sendWork, sendTimeout := sendTimeoutWork)), delimiter)
  {
  }

  lemma AfterPumpKeepsGood(r: Runner, delimiter: seq<byte>, done: bool, again: Option<Script>)
    requires Good(r, delimiter) && r.active.script.Some?
    ensures Good(AfterPump(r, done, again), delimiter) && AfterPump(r, done, again).fault == r.fault
  {
    SchedulingKeepsGood(r, delimiter, true, r.works.sendTimeout);
    SchedulingKeepsGood(r, delimiter, r.works.send, true);
    AdvanceKeepsGood(r, delimiter, false, again);
  }

  lemma SendKeepsGood(r: Runner, delimiter: seq<byte>, n: nat, m: nat, again: Option<Script>)
    requires Good(r, delimiter) && Enabled(r, delimiter, SendWork(n, m, again))
    ensures var r' := SendHandler(r, delimiter, n, m, again); !r'.fault ==> Good(r', delimiter)
    ensures SendHandler(r, delimiter, n, m, again).fault <==>
            r.active.script.Some? && |Request(r)| < r.sending.requestPos
    ensures SendHandler(r, delimiter, n, m, again).fault ==> !r.log.ownRequest
  {
    SchedulingKeepsGood(r, delimiter, false, r.works.sendTimeout);
    if r.active.script.Some? && r.sending.requestPos <= |Request(r)| {
      var awake := r.(works := r.works.(send := false));
      var (sending, done) := Pump(r.sending, Request(r), delimiter, n, m);
      SendingOn(awake, delimiter, sending, n, m);
      AfterPumpKeepsGood(awake.(sending := sending), delimiter, done, again);
    }
  }

  lemma MatchedKeepsGood(r: Runner, delimiter: seq<byte>, kind: nat, again: Option<Script>)
    requires Good(r, delimiter) && (kind in {RESPONSE, ABORT} ==> r.active.script.Some?)
    ensures Good(OnMatched(r, kind, again), delimiter) && OnMatched(r, kind, again).fault == r.fault
  {
    if kind == RESPONSE {
      AdvanceKeepsGood(r, delimiter, false, again);
    } else if kind == ABORT {
      StopKeepsGood(r, delimiter, Abort, again);
    }
  }

  /** The two ways to go wrong: a response or abort line ends without a script, or a send work outlives its request. */
  predicate Hazard(r: Runner, e: Event) {
    match e
    case MatchedLineEnd(_) => r.recognised in {Some(RESPONSE), Some(ABORT)} && r.active.script.None?
    case SendWork(_, _, _) => AtStep(r) && |Request(r)| < r.sending.requestPos
    case _ => false
  }

  lemma WorkKeepsGood(r: Runner, delimiter: seq<byte>, e: Event)
    requires Good(r, delimiter) && Enabled(r, delimiter, e)
    requires e.RunWork? || e.TimeoutWork? || e.AbortWork? || e.SendTimeoutWork?
    ensures Good(Next(r, delimiter, e), delimiter) && !Next(r, delimiter, e).fault
  {
    match e
    case RunWork(again) =>
      AdvanceKeepsGood(Load(r, r.active.runWork.value), delimiter, true, again);
    case TimeoutWork(again) => StopKeepsGood(r.(works := r.works.(timeout := false)), delimiter, Timeout, again);
    case AbortWork(again) =>
      if r.active.script.Some? {
        StopKeepsGood(r.(works := r.works.(abort := false)), delimiter, Abort, again);
      }
    case SendTimeoutWork(again) =>
      if r.active.script.Some? {
        AdvanceKeepsGood(r.(works := r.works.(sendTimeout := false)), delimiter, false, again);
      }
  }

  lemma CallKeepsGood(r: Runner, delimiter: seq<byte>, e: Event)
    requires Good(r, delimiter) && Enabled(r, delimiter, e)
    requires e.AttachCalled? || e.RunCalled? || e.AbortCalled? || e.Recognised? || e.LineDropped?
    ensures Good(Next(r, delimiter, e), delimiter) && !Next(r, delimiter, e).fault
  {
  }

  /** A step keeps the invariant, unless it is one of the two hazards, and then it faults. */
  lemma NextKeepsGood(r: Runner, delimiter: seq<byte>, e: Event)
    requires Good(r, delimiter) && Enabled(r, delimiter, e)
    ensures Next(r, delimiter, e).fault <==> Hazard(r, e)
    ensures !Hazard(r, e) ==> Good(Next(r, delimiter, e), delimiter)
  {
    match e
    case SendWork(n, m, again) => SendKeepsGood(r, delimiter, n, m, again);
    case MatchedLineEnd(again) =>
      if !Hazard(r, e) {
        MatchedKeepsGood(r.(recognised := None), delimiter, r.recognised.value, again);
      }
    case CatchAllLineEnd(kind, again) => MatchedKeepsGood(r, delimiter, kind, again);
    case RunWork(_) => WorkKeepsGood(r, delimiter, e);
    case TimeoutWork(_) => WorkKeepsGood(r, delimiter, e);
    case AbortWork(_) => WorkKeepsGood(r, delimiter, e);
    case SendTimeoutWork(_) => WorkKeepsGood(r, delimiter, e);
    case _ => CallKeepsGood(r, delimiter, e);
  }

  lemma {:induction false} RunKeepsGood(r: Runner, delimiter: seq<byte>, es: seq<Event>, r': Runner)
    requires Good(r, delimiter) && Runs(r, delimiter, es, r') && !r'.fault
    ensures Good(r', delimiter)
    decreases |es|
  {
    if es != [] {
      NextKeepsGood(r, delimiter, es[0]);
      if Hazard(r, es[0]) {
        FaultIsFinal(Next(r, delimiter, es[0]), delimiter, es[1..], r');
      }
      RunKeepsGood(Next(r, delimiter, es[0]), delimiter, es[1..], r');
    }
  }

  lemma FaultIsFinal(r: Runner, delimiter: seq<byte>, es: seq<Event>, r': Runner)
    requires Runs(r, delimiter, es, r') && r.fault
    ensures r' == r
  {
  }

  /**
   Over every run from initialisation that has not faulted: RUNNING is set exactly while a script is active or its run
   work is pending, never both; the step stays inside the script; accepted runs are results delivered plus the one
   running, also when a callback starts the next; and a request in progress has sent exactly its beginning.
   */
  lemma ScriptAccounting(delimiter: seq<byte>, es: seq<Event>, r: Runner)
    requires Runs(IDLE, delimiter, es, r) && !r.fault
    ensures r.active.running == (r.active.script.Some? || r.active.runWork.Some?)
    ensures !(r.active.script.Some? && r.active.runWork.Some?)
    ensures r.active.script.Some? ==> r.active.it < |r.active.script.value.chats|
    ensures r.log.accepted == |r.log.results| + (if r.active.running then 1 else 0)
    ensures r.log.ownRequest ==> r.active.script.Some? && r.sending.sent <= Request(r) + delimiter
  {
    RunKeepsGood(IDLE, delimiter, es, r);
    if r.log.ownRequest {
      SentIsPrefix(r, delimiter);
    }
  }

  /** A send work that finishes the current step's request has then sent exactly request and delimiter. */
  lemma RequestCompleted(delimiter: seq<byte>, es: seq<Event>, r: Runner, n: nat, m: nat, again: Option<Script>)
    requires Runs(IDLE, delimiter, es, r) && r.log.ownRequest && Enabled(r, delimiter, SendWork(n, m, again))
    ensures AtStep(r) && r.sending.requestPos + n <= |Request(r)| && r.sending.delimiterPos + m <= |delimiter|
    ensures var (sending, done) := Pump(r.sending, Request(r), delimiter, n, m);
            done ==> sending.sent == Request(r) + delimiter
  {
    RunKeepsGood(IDLE, delimiter, es, r);
    PumpSendsRequest(r.sending, Request(r), delimiter, n, m);
  }

  /** A line whose match was recognised ends without a script only if the script was stopped in between. */
  lemma HazardNeedsStop(delimiter: seq<byte>, es: seq<Event>, r: Runner, again: Option<Script>)
    requires Runs(IDLE, delimiter, es, r) && !r.fault && Hazard(r, MatchedLineEnd(again))
    ensures r.log.stopped
  {
    RunKeepsGood(IDLE, delimiter, es, r);
  }

  /** A send work finds a position beyond the request only when the script has moved on from the request it was for. */
  lemma HazardNeedsStaleSend(delimiter: seq<byte>, es: seq<Event>, r: Runner, n: nat, m: nat, again: Option<Script>)
    requires Runs(IDLE, delimiter, es, r) && !r.fault && Hazard(r, SendWork(n, m, again))
    ensures !r.log.ownRequest
  {
    RunKeepsGood(IDLE, delimiter, es, r);
  }

  lemma RunsCons(r: Runner, delimiter: seq<byte>, e: Event, es: seq<Event>, r': Runner)
    requires Enabled(r, delimiter, e) && Runs(Next(r, delimiter, e), delimiter, es, r')
    ensures Runs(r, delimiter, [e] + es, r')
  {
    assert ([e] + es)[1..] == es;
  }
}
