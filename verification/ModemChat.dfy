/**
 The chat module over its buffers and fields: the in-place line parser and the script runner. `p` and `r` are the
 abstract parser and the abstract runner that the fields stand for.
 */
module ModemChat {
  import opened Crc
  import opened Errno
  import opened ChatParse
  import opened ChatScript
  import opened ChatSystem

  class Chat {
    const config: Config
    const unsolicited: seq<Match>
    // line parser
    const receiveBuf: array<byte>
    const argv: array<Arg>
    var receiveBufLen: nat
    var argc: nat
    var parseMatch: Found
    var parseArgLen: nat
    // pipe and script runner
    var attached: bool
    var processWork: bool
    var running: bool
    var script: Option<Script>
    var runWork: Option<Script>
    var chatIt: nat
    var responses: seq<Match>
    var aborts: seq<Match>
    var requestPos: nat
    var delimiterPos: nat
    var sendWork: bool
    var sendTimeoutWork: bool
    var timeoutWork: bool
    var abortWork: bool
    var reported: seq<Result> // what the scripts' callbacks were given
    var fault: bool // a null script or an octet beyond a request was used

    /** The parser's fields are those of `g`. */
    ghost predicate Parses(g: Parser)
      reads this`receiveBufLen, this`argc, this`parseMatch, this`parseArgLen, receiveBuf, argv
    {
      && receiveBuf as object != argv as object
      && receiveBufLen <= receiveBuf.Length && argc <= argv.Length == config.argvSize
      && g == Parser(receiveBuf[..], receiveBufLen, argv[..argc], parseMatch, parseArgLen)
    }

    /** The runner's fields are those of `g`. */
    ghost predicate Scripted(g: Runner)
      reads this`attached, this`running, this`script, this`runWork, this`chatIt, this`responses, this`aborts
      reads this`requestPos, this`reported
      reads this`delimiterPos, this`sendWork, this`sendTimeoutWork, this`timeoutWork, this`abortWork, this`fault
    {
      && g.attached == attached && g.active == Active(running, script, runWork, chatIt, responses, aborts)
      && (g.sending.requestPos, g.sending.delimiterPos) == (requestPos, delimiterPos)
      && g.works == Works(sendWork, sendTimeoutWork, timeoutWork, abortWork) && g.fault == fault
      && g.log.results == reported
    }

    constructor (receiveSize: nat, argvSize: nat, delimiter: seq<byte>, filter: seq<byte>, unsolicited: seq<Match>)
      requires 0 < receiveSize && 0 < argvSize && delimiter != []
      ensures Scripted(IDLE) && fresh(receiveBuf) && fresh(argv) && receiveBuf.Length == receiveSize
      ensures config == Config(delimiter, filter, argvSize) && this.unsolicited == unsolicited
      ensures Parses(Parser(receiveBuf[..], 0, [], NotFound, 0))
    {
      config := Config(delimiter, filter, argvSize);
      this.unsolicited := unsolicited;
      receiveBuf := new byte[receiveSize];
      argv := new Arg[argvSize](_ => Empty);
      receiveBufLen, argc, parseMatch, parseArgLen := 0, 0, NotFound, 0;
      attached, processWork := false, false;
      running, script, runWork, chatIt := false, None, None, 0;
      responses, aborts, requestPos, delimiterPos := [], [], 0, 0;
      sendWork, sendTimeoutWork, timeoutWork, abortWork, fault := false, false, false, false, false;
      reported := [];
    }

    // ----- Script runner

    /** Without a pipe nothing runs; otherwise the steps are checked one by one, then the running bit is taken. */
    method ScriptRun(s: Script, ghost g: Runner) returns (result: int)
      requires Scripted(g)
      modifies this`running, this`runWork
      ensures var (g', result') := Run(g, s); Scripted(g') && result == result'
    {
      if !attached {
        return -EPERM;
      }
      if s.chats == [] || (s.abortsGiven && s.aborts == []) {
        return -EINVAL;
      }
      for i := 0 to |s.chats|
        invariant forall j | 0 <= j < i :: s.chats[j].request != [] || s.chats[j].responses != []
      {
        if s.chats[i].request == [] && s.chats[i].responses == [] {
          return -EINVAL;
        }
      }
      if running {
        return -EBUSY;
      }
      running, runWork := true, Some(s);
      result := 0;
    }

    /** The result goes to the callback first; the script is cleared when the callback returns. */
    method ScriptStop(result: Result, again: Option<Script>, ghost g: Runner)
      requires Scripted(g)
      modifies this`running, this`runWork, this`script, this`responses, this`aborts, this`timeoutWork, this`fault
      modifies this`reported
      ensures Scripted(Stop(g, result, again))
      ensures reported == old(reported) + if old(script).Some? then [result] else []
    {
      if script.None? {
        fault := true;
      } else {
        running := false;
        CallBack(result, again, g.(active := g.active.(running := false)));
        ScriptClear(Ask(Report(g, result), again));
      }
    }

    /** The callback is given the result, and may ask for the next script. */
    method CallBack(result: Result, again: Option<Script>, ghost g: Runner)
      requires Scripted(g) && !g.active.running
      modifies this`running, this`runWork, this`reported
      ensures Scripted(Ask(Report(g, result), again)) && reported == old(reported) + [result]
    {
      reported := reported + [result];
      if again.Some? {
        var _ := ScriptRun(again.value, Report(g, result));
      }
    }

    method ScriptClear(ghost g: Runner)
      requires Scripted(g)
      modifies this`script, this`responses, this`aborts, this`timeoutWork
      ensures Scripted(Clear(g))
    {
      script := None;
      responses, aborts, timeoutWork := [], [], false;
    }

    method ScriptSend()
      modifies this`requestPos, this`delimiterPos, this`sendWork
      ensures requestPos == 0 && delimiterPos == 0 && sendWork
    {
      requestPos, delimiterPos := 0, 0;
      sendWork := true;
    }

    method ScriptNext(initial: bool, again: Option<Script>, ghost g: Runner)
      requires Scripted(g)
      modifies this`running, this`runWork, this`script, this`responses, this`aborts, this`timeoutWork, this`fault
      modifies this`reported
      modifies this`chatIt, this`requestPos, this`delimiterPos, this`sendWork
      ensures Scripted(Advance(g, initial, again))
    {
      if script.None? {
        fault := true;
        return;
      }
      chatIt := if initial then 0 else chatIt + 1;
      ScriptEnter(again, Entering(g, initial));
    }

    method ScriptEnter(again: Option<Script>, ghost g: Runner)
      requires Scripted(g) && g.active.script.Some?
      modifies this`running, this`runWork, this`script, this`responses, this`aborts, this`timeoutWork, this`fault
      modifies this`reported
      modifies this`chatIt, this`requestPos, this`delimiterPos, this`sendWork
      ensures Scripted(Enter(g, again))
    {
      if chatIt == |script.value.chats| {
        ScriptStop(Success, again, g);
      } else if |script.value.chats| < chatIt {
        fault := true;
      } else {
        ScriptBegin(script.value.chats[chatIt], g);
      }
    }

    method ScriptBegin(chat: ChatScript.Chat, ghost g: Runner)
      requires Scripted(g)
      modifies this`responses, this`requestPos, this`delimiterPos, this`sendWork
      ensures Scripted(Begin(g, chat))
    {
      responses := chat.responses;
      if chat.request != [] {
        ScriptSend();
      }
    }

    method ScriptRunHandler(again: Option<Script>, ghost g: Runner)
      requires Scripted(g) && g.active.runWork.Some?
      modifies this`running, this`runWork, this`script, this`responses, this`aborts, this`timeoutWork, this`fault
      modifies this`reported
      modifies this`chatIt, this`requestPos, this`delimiterPos, this`sendWork
      ensures Scripted(RunHandler(g, again))
    {
      var s := runWork.value;
      runWork := None;
      script, aborts := Some(s), s.aborts;
      ScriptNext(true, again, Load(g, s));
      if script.Some? {
        timeoutWork := true;
      }
    }

    method ScriptTimeoutHandler(again: Option<Script>, ghost g: Runner)
      requires Scripted(g)
      modifies this`running, this`runWork, this`script, this`responses, this`aborts, this`timeoutWork, this`fault
      modifies this`reported
      ensures Scripted(TimeoutHandler(g, again))
      ensures reported == old(reported) + if old(script).Some? then [Timeout] else []
    {
      timeoutWork := false;
      ScriptStop(Timeout, again, g.(works := g.works.(timeout := false)));
    }

    method ScriptAbortHandler(again: Option<Script>, ghost g: Runner)
      requires Scripted(g)
      modifies this`running, this`runWork, this`script, this`responses, this`aborts, this`timeoutWork, this`fault
      modifies this`reported
      modifies this`abortWork
      ensures Scripted(AbortHandler(g, again))
      ensures reported == old(reported) + if old(script).Some? then [Abort] else []
    {
      abortWork := false;
      if script.Some? {
        ScriptStop(Abort, again, g.(works := g.works.(abort := false)));
      }
    }

    method ScriptSendTimeoutHandler(again: Option<Script>, ghost g: Runner)
      requires Scripted(g)
      modifies this`running, this`runWork, this`script, this`responses, this`aborts, this`timeoutWork, this`fault
      modifies this`reported
      modifies this`chatIt, this`requestPos, this`delimiterPos, this`sendWork, this`sendTimeoutWork
      ensures Scripted(SendTimeoutHandler(g, again))
    {
      sendTimeoutWork := false;
      if script.Some? {
        ScriptNext(false, again, g.(works := g.works.(sendTimeout := false)));
      }
    }

    /** Offers the rest of the request to a pipe that takes up to `accepts` octets, 0 when it fails. */
    method ScriptSendRequest(request: seq<byte>, accepts: nat, ghost s: Sending) returns (done: bool, out: seq<byte>)
      requires requestPos == s.requestPos <= |request|
      modifies this`requestPos
      ensures |out| <= accepts && s.requestPos + |out| <= |request|
      ensures 0 < accepts && s.requestPos < |request| ==> out != []
      ensures var (s', done') := SendRequest(s, request, |out|);
              done == done' && requestPos == s'.requestPos && s'.sent == s.sent + out
    {
      if |request| == requestPos {
        return true, [];
      }
      var remaining := |request| - requestPos;
      var n := if accepts < remaining then accepts else remaining;
      out := request[requestPos..requestPos + n];
      requestPos := requestPos + n;
      done := requestPos == |request|;
    }

    method ScriptSendDelimiter(accepts: nat, ghost s: Sending) returns (done: bool, out: seq<byte>)
      requires delimiterPos == s.delimiterPos <= |config.delimiter|
      modifies this`delimiterPos
      ensures |out| <= accepts && s.delimiterPos + |out| <= |config.delimiter|
      ensures 0 < accepts && s.delimiterPos < |config.delimiter| ==> out != []
      ensures var (s', done') := SendDelimiter(s, config.delimiter, |out|);
              done == done' && delimiterPos == s'.delimiterPos && s'.sent == s.sent + out
    {
      if |config.delimiter| == delimiterPos {
        return true, [];
      }
      var remaining := |config.delimiter| - delimiterPos;
      var m := if accepts < remaining then accepts else remaining;
      out := config.delimiter[delimiterPos..delimiterPos + m];
      delimiterPos := delimiterPos + m;
      done := delimiterPos == |config.delimiter|;
    }

    /** Request, then delimiter; `out` and `more` are the octets the pipe took of each. */
    method ScriptPump(request: seq<byte>, accepts: nat, acceptsToo: nat, ghost s: Sending)
      returns (done: bool, out: seq<byte>, more: seq<byte>)
      requires requestPos == s.requestPos <= |request| && delimiterPos == s.delimiterPos <= |config.delimiter|
      modifies this`requestPos, this`delimiterPos
      ensures SentBy(s, request, config.delimiter, out, more)
      ensures var (s', done') := Pump(s, request, config.delimiter, |out|, |more|);
              done == done' && requestPos == s'.requestPos && delimiterPos == s'.delimiterPos
    {
      more := [];
      done, out := ScriptSendRequest(request, accepts, s);
      if done {
        done, more := ScriptSendDelimiter(acceptsToo, SendRequest(s, request, |out|).0);
      }
    }

    /** The send work; `out` and `more` are the octets of request and delimiter that went to the pipe. */
    method ScriptSendHandler(accepts: nat, acceptsToo: nat, again: Option<Script>, ghost g: Runner)
      returns (out: seq<byte>, more: seq<byte>)
      requires Scripted(g) && g.sending.delimiterPos <= |config.delimiter|
      modifies this`running, this`runWork, this`script, this`responses, this`aborts, this`timeoutWork, this`fault
      modifies this`reported
      modifies this`chatIt, this`requestPos, this`delimiterPos, this`sendWork, this`sendTimeoutWork
      ensures Takes(g, config.delimiter, |out|, |more|)
      ensures Scripted(SendHandler(g, config.delimiter, |out|, |more|, again))
      ensures if Sends(g) then SentBy(g.sending, Request(g), config.delimiter, out, more) else out == more == []
    {
      if script.Some? && chatIt < |script.value.chats| && requestPos <= |script.value.chats[chatIt].request| {
        out, more := ScriptSendOn(accepts, acceptsToo, again, g);
      } else {
        out, more := [], [];
        ScriptSendNothing(again, g);
      }
    }

    method ScriptSendOn(accepts: nat, acceptsToo: nat, again: Option<Script>, ghost g: Runner)
      returns (out: seq<byte>, more: seq<byte>)
      requires Scripted(g) && Sends(g) && g.sending.delimiterPos <= |config.delimiter|
      modifies this`running, this`runWork, this`script, this`responses, this`aborts, this`timeoutWork, this`fault
      modifies this`reported
      modifies this`chatIt, this`requestPos, this`delimiterPos, this`sendWork, this`sendTimeoutWork
      ensures SentBy(g.sending, Request(g), config.delimiter, out, more)
      ensures Scripted(SendHandler(g, config.delimiter, |out|, |more|, again))
    {
      sendWork := false;
      out, more := ScriptSendStep(accepts, acceptsToo, again, Woken(g));
    }

    method ScriptSendNothing(again: Option<Script>, ghost g: Runner)
      requires Scripted(g) && !Sends(g)
      modifies this`sendWork, this`fault
      ensures Scripted(SendHandler(g, config.delimiter, 0, 0, again))
    {
      sendWork := false;
      fault := fault || script.Some?;
    }

    method ScriptSendStep(accepts: nat, acceptsToo: nat, again: Option<Script>, ghost g: Runner)
      returns (out: seq<byte>, more: seq<byte>)
      requires Scripted(g) && Sends(g) && g.sending.delimiterPos <= |config.delimiter|
      modifies this`running, this`runWork, this`script, this`responses, this`aborts, this`timeoutWork, this`fault
      modifies this`reported
      modifies this`chatIt, this`requestPos, this`delimiterPos, this`sendWork, this`sendTimeoutWork
      ensures SentBy(g.sending, Request(g), config.delimiter, out, more)
      ensures Scripted(SendStep(g, config.delimiter, |out|, |more|, again))
    {
      var chat := script.value.chats[chatIt];
      var done;
      done, out, more := ScriptPump(chat.request, accepts, acceptsToo, g.sending);
      ghost var sending := Pump(g.sending, chat.request, config.delimiter, |out|, |more|).0;
      ScriptAfterPump(chat, done, again, g.(sending := sending));
    }

    method ScriptAfterPump(chat: ChatScript.Chat, done: bool, again: Option<Script>, ghost g: Runner)
      requires Scripted(g) && AtStep(g) && chat == g.active.script.value.chats[g.active.it]
      modifies this`running, this`runWork, this`script, this`responses, this`aborts, this`timeoutWork, this`fault
      modifies this`reported
      modifies this`chatIt, this`requestPos, this`delimiterPos, this`sendWork, this`sendTimeoutWork
      ensures Scripted(AfterPump(g, done, again))
    {
      if !done {
        sendWork := true;
      } else if chat.responses == [] {
        if chat.timeout == 0 {
          ScriptNext(false, again, g);
        } else {
          sendTimeoutWork := true;
        }
      }
    }

    // ----- Line parser

    /** A pipe is attached: the parser starts afresh, and scripts may run from now on. */
    method Attach(ghost s: System)
      requires Stands(s) && !s.runner.fault
      modifies this`attached, this`receiveBufLen, this`argc, this`parseMatch
      ensures Stands(After(s, config, unsolicited, SystemEvent.Attach))
    {
      attached := true;
      ParseReset(s.parser);
    }

    function Matches(): Table
      reads this`responses, this`aborts
    {
      var matches: seq<seq<Match>> := [responses, aborts, unsolicited];
      matches
    }

    method ParseReset(ghost g: Parser)
      requires Parses(g)
      modifies this`receiveBufLen, this`argc, this`parseMatch
      ensures Parses(Reset(g))
    {
      receiveBufLen, argc, parseMatch := 0, 0, NotFound;
    }

    /** Compares a match of the right size with the octets received, one by one. */
    method MatchMatchesReceived(m: Match) returns (yes: bool)
      requires |m.pattern| == receiveBufLen <= receiveBuf.Length
      ensures yes <==> ChatParse.Matches(m, receiveBuf[..receiveBufLen])
    {
      for i := 0 to |m.pattern|
        invariant forall j | 0 <= j < i :: m.pattern[j] == receiveBuf[j] || (m.wildcards && m.pattern[j] == WILDCARD)
      {
        if m.pattern[i] != receiveBuf[i] && !(m.wildcards && m.pattern[i] == WILDCARD) {
          return false;
        }
      }
      yes := true;
    }

    /** The matches of one kind, in their order. */
    method FindMatchOfKind(ms: seq<Match>) returns (u: nat)
      requires receiveBufLen <= receiveBuf.Length
      ensures u == FirstIn(ms, receiveBuf[..receiveBufLen])
    {
      u := 0;
      while u < |ms|
        invariant u <= |ms|
        invariant FirstIn(ms, receiveBuf[..receiveBufLen]) == u + FirstIn(ms[u..], receiveBuf[..receiveBufLen])
      {
        if |ms[u].pattern| == receiveBufLen {
          var yes := MatchMatchesReceived(ms[u]);
          if yes {
            return;
          }
        }
        assert ms[u..][1..] == ms[u + 1..];
        u := u + 1;
      }
    }

    /** Responses, then aborts, then unsolicited matches. */
    method FindMatch() returns (found: Found)
      requires receiveBufLen <= receiveBuf.Length
      ensures found == Find(Matches(), receiveBuf[..receiveBufLen])
    {
      var matches := Matches();
      ghost var received := receiveBuf[..receiveBufLen];
      for i := 0 to 3
        invariant Find(matches, received) == FindFrom(matches, i, received)
      {
        var u := FindMatchOfKind(matches[i]);
        if u < |matches[i]| {
          return Found(i, matches[i][u]);
        }
      }
      found := NotFound;
    }

    method FindCatchAllMatch() returns (found: Found)
      ensures found == Find(Matches(), [])
    {
      var matches := Matches();
      for i := 0 to 3
        invariant Find(matches, []) == FindFrom(matches, i, [])
      {
        for u := 0 to |matches[i]|
          invariant FirstIn(matches[i], []) == u + FirstIn(matches[i][u..], [])
        {
          if matches[i][u].pattern == [] {
            return Found(i, matches[i][u]);
          }
          assert matches[i][u..][1..] == matches[i][u + 1..];
        }
      }
      found := NotFound;
    }

    /** Copies the match to the end of the buffer, terminates it there and makes it the first argument. */
    method SaveMatch(found: Found, ghost g: Parser)
      requires Parses(g) && g.len < |g.buf| && argc < argv.Length
      modifies receiveBuf, argv, this`argc, this`parseMatch, this`parseArgLen
      ensures Parses(ChatParse.SaveMatch(g, found))
    {
      var start := receiveBuf.Length - receiveBufLen - 1;
      CopyToEnd(start);
      argv[argc] := At(start);
      argc := argc + 1;
      parseMatch, parseArgLen := found, 0;
    }

    /** Copies the text read so far to the end of the buffer, where a terminator follows it. */
    method CopyToEnd(start: nat)
      requires start + receiveBufLen + 1 == receiveBuf.Length
      modifies receiveBuf
      ensures receiveBuf[..] == old(receiveBuf[..start] + receiveBuf[..receiveBufLen]) + [0]
    {
      forall i | 0 <= i < receiveBufLen {
        receiveBuf[start + i] := receiveBuf[i];
      }
      receiveBuf[receiveBuf.Length - 1] := 0;
    }

    method IsSeparator(b: byte) returns (yes: bool)
      requires parseMatch.Found?
      ensures yes <==> IsIn(b, parseMatch.match_.separators)
    {
      for i := 0 to |parseMatch.match_.separators|
        invariant b !in parseMatch.match_.separators[..i]
      {
        if parseMatch.match_.separators[i] == b {
          return true;
        }
      }
      yes := false;
    }

    /** Is the octet one of the delimiter's, wherever in it? */
    method DelimiterStarted(b: byte) returns (yes: bool)
      ensures yes <==> IsIn(b, config.delimiter)
    {
      for i := 0 to |config.delimiter|
        invariant b !in config.delimiter[..i]
      {
        if config.delimiter[i] == b {
          return true;
        }
      }
      yes := false;
    }

    /** Do the octets received end with the delimiter? */
    method EndsWithDelimiter(ghost g: Parser) returns (yes: bool)
      requires Parses(g)
      ensures yes <==> DelimiterComplete(g, config.delimiter)
    {
      if receiveBufLen < |config.delimiter| {
        return false;
      }
      var start := receiveBufLen - |config.delimiter|;
      for i := 0 to |config.delimiter|
        invariant forall j | 0 <= j < i :: receiveBuf[start + j] == config.delimiter[j]
      {
        if receiveBuf[start + i] != config.delimiter[i] {
          assert g.buf[start..receiveBufLen][i] != config.delimiter[i];
          return false;
        }
      }
      assert g.buf[start..receiveBufLen] == config.delimiter;
      yes := true;
    }

    /** An octet behind a match. */
    method ArgumentByte(b: byte, ghost g: Parser)
      requires Parses(g) && g.found.Found? && 0 < g.len && argc < argv.Length
      modifies receiveBuf, argv, this`argc, this`parseArgLen
      ensures Parses(OnArgumentByte(g, b))
    {
      var separator := IsSeparator(b);
      if !separator {
        parseArgLen := parseArgLen + 1;
        return;
      }
      if parseArgLen == 0 {
        argv[argc] := Empty;
      } else {
        argv[argc] := At(receiveBufLen - parseArgLen - 1);
        receiveBuf[receiveBufLen - 1] := 0;
      }
      argc := argc + 1;
      parseArgLen := 0;
    }

    method TextByte(b: byte, ghost g: Parser)
      requires Parses(g) && 0 < g.len && argc < argv.Length && ShortMatches(Matches(), receiveBuf.Length)
      modifies receiveBuf, argv, this`argc, this`parseArgLen, this`parseMatch
      ensures Parses(OnTextByte(g, Matches(), b))
    {
      if parseMatch.Found? {
        ArgumentByte(b, g);
        return;
      }
      var found := FindMatch();
      if found.Found? {
        assert g.buf[..g.len] == receiveBuf[..receiveBufLen];
        FindShort(Matches(), g.buf[..g.len], receiveBuf.Length);
        SaveMatch(found, g);
      }
    }

    // ----- Line ends

    /** Hands the arguments to the match's callback, then moves or stops the script. */
    method OnCommandReceived(again: Option<Script>, ghost q: Parser, ghost g: Runner) returns (d: Dispatch)
      requires Parses(q) && q.found.Found? && Scripted(g)
      modifies this`running, this`runWork, this`script, this`responses, this`aborts, this`timeoutWork, this`fault
      modifies this`reported
      modifies this`chatIt, this`requestPos, this`delimiterPos, this`sendWork
      ensures d == OnCommand(q) && Scripted(OnMatched(g, d.kind, again))
    {
      d := Dispatch(parseMatch.kind, parseMatch.match_, Strings(receiveBuf[..], argv[..argc]));
      if parseMatch.kind == RESPONSE {
        ScriptNext(false, again, g);
      } else if parseMatch.kind == ABORT {
        ScriptStop(Abort, again, g);
      }
    }

    method OnUnknownCommandReceived(again: Option<Script>, ghost q: Parser, ghost g: Runner) returns (o: Outcome)
      requires Parses(q) && q.found.NotFound? && Scripted(g) && 0 < |config.delimiter| < q.len && 0 < argv.Length
      modifies receiveBuf, argv, this`receiveBufLen, this`argc, this`parseArgLen, this`parseMatch
      modifies this`running, this`runWork, this`script, this`responses, this`aborts, this`timeoutWork, this`fault
      modifies this`reported
      modifies this`chatIt, this`requestPos, this`delimiterPos, this`sendWork
      ensures Parses(Reset(Finished(q, config, old(Matches()))))
      ensures o == OnUnknown(q, config, old(Matches())) && Scripted(Moved(g, o, again))
    {
      var found := FindCatchAllMatch();
      if found.NotFound? {
        ParseReset(q);
        return Silent;
      }
      if argv.Length < 2 {
        PointerBeyondArray(q);
        o := Overflow;
      } else {
        o := GiveToCatchAll(found, again, q, g);
      }
    }

    method GiveToCatchAll(found: Found, again: Option<Script>, ghost q: Parser, ghost g: Runner) returns (o: Outcome)
      requires Parses(q) && found.Found? && Scripted(g) && 0 < |config.delimiter| < q.len && 2 <= argv.Length
      modifies receiveBuf, argv, this`receiveBufLen, this`argc, this`parseArgLen, this`parseMatch
      modifies this`running, this`runWork, this`script, this`responses, this`aborts, this`timeoutWork, this`fault
      modifies this`reported
      modifies this`chatIt, this`requestPos, this`delimiterPos, this`sendWork
      ensures Parses(Reset(Terminated(q, config)))
      ensures o == Received(OnCommand(UnknownLine(q, config, found))) && Scripted(Moved(g, o, again))
    {
      ghost var q' := UnknownLine(q, config, found);
      TakeWholeLine(found, q);
      var d := OnCommandReceived(again, q', g);
      ParseReset(q');
      o := Received(d);
    }

    /** The line is terminated, and its pointer is stored where there is no room for it. */
    method PointerBeyondArray(ghost q: Parser)
      requires Parses(q) && 0 < |config.delimiter| <= q.len
      modifies receiveBuf, this`receiveBufLen, this`argc, this`parseMatch, this`fault
      ensures fault && Parses(Reset(Terminated(q, config)))
    {
      receiveBuf[receiveBufLen - |config.delimiter|] := 0;
      fault := true;
      ParseReset(Terminated(q, config));
    }

    /** Terminates the line before its delimiter and makes it the second argument, behind an empty one. */
    method TakeWholeLine(found: Found, ghost q: Parser)
      requires Parses(q) && 0 < |config.delimiter| <= q.len && 2 <= argv.Length
      modifies receiveBuf, argv, this`argc, this`parseMatch
      ensures Parses(UnknownLine(q, config, found))
    {
      receiveBuf[receiveBufLen - |config.delimiter|] := 0;
      argv[0], argv[1] := Empty, At(0);
      argc, parseMatch := 2, found;
      assert argv[..2] == [Empty, At(0)];
    }

    /** A line with a match: its trailing argument, when there is one, ends here. */
    method OnMatchedLine(again: Option<Script>, ghost q: Parser, ghost g: Runner) returns (o: Outcome)
      requires Parses(q) && q.found.Found? && Scripted(g) && 0 < |config.delimiter| < q.len && argc < argv.Length
      modifies receiveBuf, argv, this`receiveBufLen, this`argc, this`parseArgLen, this`parseMatch
      modifies this`running, this`runWork, this`script, this`responses, this`aborts, this`timeoutWork, this`fault
      modifies this`reported
      modifies this`chatIt, this`requestPos, this`delimiterPos, this`sendWork
      ensures Parses(Reset(Finished(q, config, old(Matches()))))
      ensures o == EndOfLine(q, config, old(Matches())) && Scripted(Moved(g, o, again))
    {
      EndArgument(q);
      var d := OnCommandReceived(again, Final(q, config), g);
      ParseReset(Final(q, config));
      o := Received(d);
    }

    method EndArgument(ghost q: Parser)
      requires Parses(q) && 0 < |config.delimiter| < q.len && argc < argv.Length
      modifies receiveBuf, argv, this`argc
      ensures Parses(Final(q, config))
    {
      if 0 < parseArgLen {
        var end := receiveBufLen - |config.delimiter|;
        argv[argc] := At(end - parseArgLen);
        receiveBuf[end] := 0;
        argc := argc + 1;
      }
    }

    /** A complete line: empty ones are dropped, the others dispatched; the parser starts afresh. */
    method OnLine(again: Option<Script>, ghost q: Parser, ghost g: Runner) returns (o: Outcome)
      requires Parses(q) && Scripted(g) && 0 < |config.delimiter| <= q.len && argc < argv.Length
      modifies receiveBuf, argv, this`receiveBufLen, this`argc, this`parseArgLen, this`parseMatch
      modifies this`running, this`runWork, this`script, this`responses, this`aborts, this`timeoutWork, this`fault
      modifies this`reported
      modifies this`chatIt, this`requestPos, this`delimiterPos, this`sendWork
      ensures Parses(Reset(Finished(q, config, old(Matches()))))
      ensures o == EndOfLine(q, config, old(Matches())) && Scripted(Moved(g, o, again))
    {
      if receiveBufLen == |config.delimiter| {
        ParseReset(q);
        o := Silent;
      } else if parseMatch.NotFound? {
        o := OnUnknownCommandReceived(again, q, g);
      } else {
        o := OnMatchedLine(again, q, g);
      }
    }

    /** A full buffer or argument array resets the parser. */
    lemma ProcessedBy(p: Parser, c: Config, t: Table, b: byte)
      requires Configured(|p.buf|, c, t) && p.len <= |p.buf|
      ensures p.len == |p.buf| || |p.argv| == c.argvSize ==> ChatParse.ProcessByte(p, c, t, b) == (Reset(p), Silent)
      ensures p.len < |p.buf| && |p.argv| != c.argvSize ==>
                ChatParse.ProcessByte(p, c, t, b) == TakeIn(Stored(p, b), c, t, b)
    {
    }

    /** One octet that is not filtered out. */
    method ProcessByte(b: byte, again: Option<Script>, ghost p: Parser, ghost g: Runner) returns (o: Outcome)
      requires Parses(p) && Scripted(g) && Configured(receiveBuf.Length, config, Matches())
      modifies receiveBuf, argv, this`receiveBufLen, this`argc, this`parseArgLen, this`parseMatch
      modifies this`running, this`runWork, this`script, this`responses, this`aborts, this`timeoutWork, this`fault
      modifies this`reported
      modifies this`chatIt, this`requestPos, this`delimiterPos, this`sendWork
      ensures Parses(ChatParse.ProcessByte(p, config, old(Matches()), b).0)
      ensures o == ChatParse.ProcessByte(p, config, old(Matches()), b).1 && Scripted(Moved(g, o, again))
    {
      ProcessedBy(p, config, Matches(), b);
      if receiveBufLen == receiveBuf.Length || argc == argv.Length {
        ParseReset(p);
        o := Silent;
      } else {
        o := StoreAndParse(b, again, p, g);
      }
    }

    method StoreAndParse(b: byte, again: Option<Script>, ghost p: Parser, ghost g: Runner) returns (o: Outcome)
      requires Parses(p) && Scripted(g) && Configured(receiveBuf.Length, config, Matches())
      requires p.len < |p.buf| && argc < argv.Length
      modifies receiveBuf, argv, this`receiveBufLen, this`argc, this`parseArgLen, this`parseMatch
      modifies this`running, this`runWork, this`script, this`responses, this`aborts, this`timeoutWork, this`fault
      modifies this`reported
      modifies this`chatIt, this`requestPos, this`delimiterPos, this`sendWork
      ensures Parses(TakeIn(Stored(p, b), config, old(Matches()), b).0)
      ensures o == TakeIn(Stored(p, b), config, old(Matches()), b).1 && Scripted(Moved(g, o, again))
    {
      Store(b, p);
      o := ParseByte(b, again, Stored(p, b), g);
    }

    method Store(b: byte, ghost p: Parser)
      requires Parses(p) && p.len < |p.buf|
      modifies receiveBuf, this`receiveBufLen
      ensures Parses(Stored(p, b))
    {
      receiveBuf[receiveBufLen] := b;
      receiveBufLen := receiveBufLen + 1;
    }

    method ParseByte(b: byte, again: Option<Script>, ghost q: Parser, ghost g: Runner) returns (o: Outcome)
      requires Parses(q) && Scripted(g) && Configured(receiveBuf.Length, config, Matches())
      requires 0 < q.len && argc < argv.Length
      modifies receiveBuf, argv, this`receiveBufLen, this`argc, this`parseArgLen, this`parseMatch
      modifies this`running, this`runWork, this`script, this`responses, this`aborts, this`timeoutWork, this`fault
      modifies this`reported
      modifies this`chatIt, this`requestPos, this`delimiterPos, this`sendWork
      ensures Parses(TakeIn(q, config, old(Matches()), b).0)
      ensures o == TakeIn(q, config, old(Matches()), b).1 && Scripted(Moved(g, o, again))
    {
      var complete := EndsWithDelimiter(q);
      if complete {
        o := OnLine(again, q, g);
        return;
      }
      o := Silent;
      DelimiterOrText(b, q);
    }

    method DelimiterOrText(b: byte, ghost q: Parser)
      requires Parses(q) && 0 < q.len && argc < argv.Length && ShortMatches(Matches(), receiveBuf.Length)
      modifies receiveBuf, argv, this`argc, this`parseArgLen, this`parseMatch
      ensures Parses(if IsIn(b, config.delimiter) then q else OnTextByte(q, Matches(), b))
    {
      var started := DelimiterStarted(b);
      if !started {
        TextByte(b, q);
      }
    }

    method DiscardByte(b: byte) returns (yes: bool)
      ensures yes <==> IsIn(b, config.filter)
    {
      for i := 0 to |config.filter|
        invariant b !in config.filter[..i]
      {
        if config.filter[i] == b {
          return true;
        }
      }
      yes := false;
    }

    // ----- Parser and script runner together

    ghost predicate Stands(s: System)
      reads this, receiveBuf, argv
    {
      Parses(s.parser) && Scripted(s.runner)
    }

    /** One octet of a chunk. */
    method TakeOctet(b: byte, again: Option<Script>, ghost s: System)
      requires Stands(s) && Ready(s, config, unsolicited)
      modifies receiveBuf, argv, this`receiveBufLen, this`argc, this`parseArgLen, this`parseMatch
      modifies this`running, this`runWork, this`script, this`responses, this`aborts, this`timeoutWork, this`fault
      modifies this`reported
      modifies this`chatIt, this`requestPos, this`delimiterPos, this`sendWork
      ensures Stands(HearOctet(s, config, unsolicited, b, again))
    {
      var discard := DiscardByte(b);
      if !discard {
        OctetMoves(s, config, unsolicited, b, again);
        var o := ProcessByte(b, again, s.parser, s.runner.(recognised := None));
      }
    }

    /** The process work: a chunk of octets, none of which faults. */
    method ProcessBytes(bs: seq<byte>, again: Option<Script>, ghost s: System)
      requires Stands(s)
      requires forall k | 0 <= k < |bs| ::
                 Ready(HearOctets(s, config, unsolicited, bs[..k], again), config, unsolicited)
      modifies receiveBuf, argv, this`receiveBufLen, this`argc, this`parseArgLen, this`parseMatch
      modifies this`running, this`runWork, this`script, this`responses, this`aborts, this`timeoutWork, this`fault
      modifies this`reported
      modifies this`chatIt, this`requestPos, this`delimiterPos, this`sendWork
      ensures Stands(HearOctets(s, config, unsolicited, bs, again))
    {
      assert bs[..0] == [];
      for i := 0 to |bs|
        invariant Stands(HearOctets(s, config, unsolicited, bs[..i], again))
      {
        assert bs[..i + 1] == bs[..i] + [bs[i]];
        HearSnoc(s, config, unsolicited, bs[..i], bs[i], again);
        TakeOctet(bs[i], again, HearOctets(s, config, unsolicited, bs[..i], again));
      }
      assert bs[..|bs|] == bs;
    }

    /** The process work: what the pipe gave; it is scheduled again unless that was nothing. */
    method ProcessHandler(bs: seq<byte>, again: Option<Script>, ghost s: System)
      requires Stands(s)
      requires forall k | 0 <= k < |bs| ::
                 Ready(HearOctets(s, config, unsolicited, bs[..k], again), config, unsolicited)
      modifies receiveBuf, argv, this`receiveBufLen, this`argc, this`parseArgLen, this`parseMatch
      modifies this`running, this`runWork, this`script, this`responses, this`aborts, this`timeoutWork, this`fault
      modifies this`reported
      modifies this`chatIt, this`requestPos, this`delimiterPos, this`sendWork
      modifies this`processWork
      ensures Stands(HearOctets(s, config, unsolicited, bs, again)) && processWork == (bs != [])
    {
      processWork := false;
      if |bs| < 1 {
        return;
      }
      ProcessBytes(bs, again, s);
      processWork := true;
    }

    /** The pipe has something to receive. */
    method OnReceiveReady()
      modifies this`processWork
      ensures processWork
    {
      processWork := true;
    }
  }

  /** A send work that has something to go on with. */
  predicate Sends(g: Runner) {
    AtStep(g) && g.sending.requestPos <= |Request(g)|
  }

  /** What went to the pipe are the next octets of request and delimiter, and joins what was sent before. */
  ghost predicate SentBy(s: Sending, request: seq<byte>, delimiter: seq<byte>, out: seq<byte>, more: seq<byte>) {
    && s.requestPos + |out| <= |request| && s.delimiterPos + |more| <= |delimiter|
    && Pump(s, request, delimiter, |out|, |more|).0.sent == s.sent + out + more
  }
}
