// The worker: each assignment runs on its own goroutine and pumps, all runs share
// one FIFO outbox, and a run's FD 3 events are folded into messages and two
// observers before its outcome is classified. One step per send or read. A char of a
// text is a byte.
module WorkerRun {
  import opened Options
  import U = Utf8

  datatype TaskState = Unspecified | Accepted | Running | Succeeded | Failed | Cancelled | Timeout | Captcha

  datatype Msg =
    | Update(task: nat, state: TaskState, error: string, errorClass: string)
    | LogLine(task: nat, level: string, message: string)
    | Item(task: nat, payload: string)
    | Artifact(task: nat, name: string, key: string)
    | Heartbeat(running: int, freeSlots: int)

  /** A line of FD 3: a parsed event, one the JSON decoder rejects, or one over the
      scanner's limit, which ends the scan. */
  datatype RawLine =
    | Log(level: string, message: string, traceback: string)
    | ItemEvent(payload: string)
    | Shot(name: string, key: string)
    | CaptchaEvent(message: string)
    | UnknownEvent
    | Malformed
    | TooLong

  /** captchaObs and errorObs. */
  datatype Obs = Obs(captcha: Option<string>, lastError: string)

  datatype Result = Result(state: TaskState, error: string, errorClass: string)

  const QUIET := Obs(None, "")

  // ---- one event ----------------------------------------------------------------

  function Upper(s: string): string {
    seq(|s|, i requires 0 <= i < |s| => if 'a' <= s[i] <= 'z' then s[i] - 'a' + 'A' else s[i])
  }

  function FullMessage(l: RawLine): string
    requires l.Log?
  {
    if l.traceback != "" then l.message + "\n" + l.traceback else l.message
  }

  function Emit(task: nat, l: RawLine): seq<Msg> {
    match l
    case Log(level, _, _) => [LogLine(task, level, FullMessage(l))]
    case ItemEvent(payload) => [Item(task, payload)]
    case Shot(name, key) => [Artifact(task, name, key)]
    case CaptchaEvent(m) => [LogLine(task, "INFO", "[captcha] " + m), Update(task, Captcha, m, "captcha")]
    case _ => []
  }

  function Observe(o: Obs, l: RawLine): Obs {
    match l
    case Log(level, _, _) => if Upper(level) == "ERROR" then o.(lastError := FullMessage(l)) else o
    case CaptchaEvent(m) => o.(captcha := Some(m))
    case _ => o
  }

  /** What the scanner hands on: everything before the first over-long line. */
  function Readable(lines: seq<RawLine>): seq<RawLine> {
    if lines == [] || lines[0].TooLong? then [] else [lines[0]] + Readable(lines[1..])
  }

  function Messages(task: nat, lines: seq<RawLine>): seq<Msg> {
    if lines == [] then [] else Messages(task, lines[..|lines| - 1]) + Emit(task, lines[|lines| - 1])
  }

  function Observed(lines: seq<RawLine>): Obs {
    if lines == [] then QUIET else Observe(Observed(lines[..|lines| - 1]), lines[|lines| - 1])
  }

  // ---- what a stream sends, kind by kind ------------------------------------------------

  /** What `pick` takes out of the elements, in order. */
  function Collect<A, T>(xs: seq<A>, pick: A -> Option<T>): seq<T> {
    if xs == [] then []
    else
      var last := pick(xs[|xs| - 1]);
      Collect(xs[..|xs| - 1], pick) + (if last.Some? then [last.value] else [])
  }

  lemma {:induction false} CollectConcat<A, T>(xs: seq<A>, ys: seq<A>, pick: A -> Option<T>)
    ensures Collect(xs + ys, pick) == Collect(xs, pick) + Collect(ys, pick)
  {
    if ys == [] {
      assert xs + ys == xs;
    } else {
      CollectConcat(xs, ys[..|ys| - 1], pick);
      assert (xs + ys)[..|xs + ys| - 1] == xs + ys[..|ys| - 1];
    }
  }

  function SentItem(m: Msg): Option<string> {
    if m.Item? then Some(m.payload) else None
  }

  function ScrapedItem(l: RawLine): Option<string> {
    if l.ItemEvent? then Some(l.payload) else None
  }

  function SentShot(m: Msg): Option<(string, string)> {
    if m.Artifact? then Some((m.name, m.key)) else None
  }

  function TakenShot(l: RawLine): Option<(string, string)> {
    if l.Shot? then Some((l.name, l.key)) else None
  }

  function SentLog(m: Msg): Option<(string, string)> {
    if m.LogLine? then Some((m.level, m.message)) else None
  }

  /** A logged line with its traceback, or the line a captcha is announced with. */
  function LoggedLine(l: RawLine): Option<(string, string)> {
    if l.Log? then Some((l.level, if l.traceback == "" then l.message else l.message + "\n" + l.traceback))
    else if l.CaptchaEvent? then Some(("INFO", "[captcha] " + l.message))
    else None
  }

  function SentNotice(m: Msg): Option<(TaskState, string, string)> {
    if m.Update? then Some((m.state, m.error, m.errorClass)) else None
  }

  function SeenCaptcha(l: RawLine): Option<(TaskState, string, string)> {
    if l.CaptchaEvent? then Some((Captcha, l.message, "captcha")) else None
  }

  function Picked<A, T>(x: A, pick: A -> Option<T>): seq<T> {
    if pick(x).Some? then [pick(x).value] else []
  }

  /** One line sends what `event` sees in it, as far as `sent` looks. */
  ghost predicate Carries<T(!new)>(sent: Msg -> Option<T>, event: RawLine -> Option<T>) {
    forall task: nat, l :: Collect(Emit(task, l), sent) == Picked(l, event)
  }

  lemma CollectFew<A, T>(x: A, y: A, pick: A -> Option<T>)
    ensures Collect([], pick) == [] && Collect([x], pick) == Picked(x, pick)
    ensures Collect([x, y], pick) == Picked(x, pick) + Picked(y, pick)
  {
    assert [x][..0] == [] && [x, y][..1] == [x];
  }

  lemma LineCarried<T>(task: nat, l: RawLine, sent: Msg -> Option<T>)
    ensures var out := Emit(task, l);
            Collect(out, sent) == if |out| == 2 then Picked(out[0], sent) + Picked(out[1], sent)
                                  else if |out| == 1 then Picked(out[0], sent) else []
  {
    var out := Emit(task, l);
    if out != [] {
      CollectFew(out[0], out[|out| - 1], sent);
      assert out == if |out| == 2 then [out[0], out[1]] else [out[0]];
    }
  }

  lemma EventsCarried()
    ensures Carries(SentItem, ScrapedItem) && Carries(SentShot, TakenShot)
    ensures Carries(SentLog, LoggedLine) && Carries(SentNotice, SeenCaptcha)
  {
    hide Collect;
    forall task: nat, l
      ensures Collect(Emit(task, l), SentItem) == Picked(l, ScrapedItem)
      ensures Collect(Emit(task, l), SentShot) == Picked(l, TakenShot)
      ensures Collect(Emit(task, l), SentLog) == Picked(l, LoggedLine)
      ensures Collect(Emit(task, l), SentNotice) == Picked(l, SeenCaptcha)
    {
      LineCarried(task, l, SentItem);
      LineCarried(task, l, SentShot);
      LineCarried(task, l, SentLog);
      LineCarried(task, l, SentNotice);
    }
  }

  lemma {:induction false} StreamCarries<T(!new)>(task: nat, lines: seq<RawLine>, sent: Msg -> Option<T>,
                                                  event: RawLine -> Option<T>)
    requires Carries(sent, event)
    ensures Collect(Messages(task, lines), sent) == Collect(lines, event)
  {
    if lines != [] {
      var n := |lines| - 1;
      StreamCarries(task, lines[..n], sent, event);
      CollectConcat(Messages(task, lines[..n]), Emit(task, lines[n]), sent);
    }
  }

  /** The messages `ms` carry every item, screenshot, log line and captcha of the lines, in
      order, and no other of any of these kinds. */
  ghost predicate Carried(ms: seq<Msg>, lines: seq<RawLine>) {
    && Collect(ms, SentItem) == Collect(lines, ScrapedItem)
    && Collect(ms, SentShot) == Collect(lines, TakenShot)
    && Collect(ms, SentLog) == Collect(lines, LoggedLine)
    && Collect(ms, SentNotice) == Collect(lines, SeenCaptcha)
  }

  /** Every event of a stream is sent, each kind in order and by the task. */
  lemma StreamIsSent(task: nat, lines: seq<RawLine>)
    ensures Carried(Messages(task, lines), lines)
    ensures forall m :: m in Messages(task, lines) ==> !m.Heartbeat? && m.task == task
    ensures forall i :: 0 <= i <= |lines| ==> Messages(task, lines[..i]) <= Messages(task, lines)
  {
    EventsCarried();
    StreamCarries(task, lines, SentItem, ScrapedItem);
    StreamCarries(task, lines, SentShot, TakenShot);
    StreamCarries(task, lines, SentLog, LoggedLine);
    StreamCarries(task, lines, SentNotice, SeenCaptcha);
    forall i | 0 <= i <= |lines|
      ensures Messages(task, lines[..i]) <= Messages(task, lines)
    {
      MessagesGrow(task, lines, i);
    }
    MessagesAreItsOwn(task, lines);
    hide Messages, Carries;
  }

  lemma {:induction false} MessagesGrow(task: nat, lines: seq<RawLine>, i: nat)
    requires i <= |lines|
    ensures Messages(task, lines[..i]) <= Messages(task, lines)
    decreases |lines|
  {
    if i == |lines| {
      assert lines[..i] == lines;
    } else {
      assert lines[..|lines| - 1][..i] == lines[..i];
      MessagesGrow(task, lines[..|lines| - 1], i);
    }
  }

  lemma {:induction false} MessagesAreItsOwn(task: nat, lines: seq<RawLine>)
    ensures forall m :: m in Messages(task, lines) ==> !m.Heartbeat? && m.task == task
  {
    if lines != [] {
      MessagesAreItsOwn(task, lines[..|lines| - 1]);
    }
  }

  class Outbox {
    var sent: seq<Msg>

    constructor ()
      ensures sent == []
    {
      sent := [];
    }

    method Send(m: Msg)
      modifies this
      ensures sent == old(sent) + [m]
    {
      sent := sent + [m];
    }
  }

  lemma {:induction false} ReadableSplit(lines: seq<RawLine>, i: nat)
    requires i < |lines| && forall j :: 0 <= j < i ==> !lines[j].TooLong?
    ensures Readable(lines[..i]) == lines[..i]
    ensures lines[i].TooLong? ==> Readable(lines) == lines[..i]
    ensures !lines[i].TooLong? ==> Readable(lines[..i + 1]) == lines[..i + 1]
  {
    if i > 0 {
      ReadableSplit(lines[1..], i - 1);
      assert lines[..i][1..] == lines[1..][..i - 1];
      assert lines[..i + 1][1..] == lines[1..][..i];
    } else {
      assert lines[..1][1..] == [];
    }
  }

  /** The switch of the pump loop, for one parsed line. */
  method Handle(task: nat, l: RawLine, before: Obs, outbox: Outbox) returns (obs: Obs)
    modifies outbox
    ensures outbox.sent == old(outbox.sent) + Emit(task, l)
    ensures obs == Observe(before, l)
  {
    obs := before;
    match l {
      case Log(level, message, traceback) =>
        var msg := message;
        if traceback != "" {
          msg := msg + "\n" + traceback;
        }
        if Upper(level) == "ERROR" {
          obs := obs.(lastError := msg);
        }
        outbox.Send(LogLine(task, level, msg));
      case ItemEvent(payload) =>
        outbox.Send(Item(task, payload));
      case Shot(name, key) =>
        outbox.Send(Artifact(task, name, key));
      case CaptchaEvent(message) =>
        obs := obs.(captcha := Some(message));
        outbox.Send(LogLine(task, "INFO", "[captcha] " + message));
        outbox.Send(Update(task, Captcha, message, "captcha"));
      case _ =>
    }
  }

  lemma PumpSnoc(task: nat, lines: seq<RawLine>, i: nat)
    requires i < |lines|
    ensures Messages(task, lines[..i + 1]) == Messages(task, lines[..i]) + Emit(task, lines[i])
    ensures Observed(lines[..i + 1]) == Observe(Observed(lines[..i]), lines[i])
  {
    assert lines[..i + 1][..i] == lines[..i];
  }

  lemma PumpStarts(task: nat)
    ensures Messages(task, []) == [] && Observed([]) == QUIET && Readable([]) == []
  {
  }

  /** The FD 3 pump on its own: the outbox and the observers after the whole stream. */
  method PumpEvents(task: nat, lines: seq<RawLine>, outbox: Outbox) returns (obs: Obs)
    modifies outbox
    ensures outbox.sent == old(outbox.sent) + Messages(task, Readable(lines))
    ensures obs == Observed(Readable(lines))
    ensures old(outbox.sent) <= outbox.sent && Carried(outbox.sent[|old(outbox.sent)|..], Readable(lines))
  {
    StreamIsSent(task, Readable(lines));
    hide Carried;
    hide Messages, Observed, Readable, Emit, Observe;
    PumpStarts(task);
    obs := QUIET;
    var i := 0;
    while i < |lines|
      invariant i <= |lines| && forall j :: 0 <= j < i ==> !lines[j].TooLong?
      invariant Readable(lines[..i]) == lines[..i]
      invariant outbox.sent == old(outbox.sent) + Messages(task, lines[..i])
      invariant obs == Observed(lines[..i])
    {
      ReadableSplit(lines, i);
      if lines[i].TooLong? {
        return;
      }
      PumpSnoc(task, lines, i);
      obs := Handle(task, lines[i], obs, outbox);
      i := i + 1;
    }
    assert lines[..|lines|] == lines;
  }

  // ---- the outcome ------------------------------------------------------------------

  const ERROR_LIMIT: nat := 8192

  function Classify(cancelled: bool, deadline: bool, waitErr: Option<string>, obs: Obs): Result {
    if cancelled then Result(Cancelled, "", "")
    else if deadline then Result(Timeout, "task timed out", "timeout")
    else if obs.captcha.Some? then Result(Captcha, obs.captcha.value, "captcha")
    else if waitErr.Some? then
      Result(Failed, U.Truncated(if obs.lastError == "" then waitErr.value else obs.lastError, ERROR_LIMIT), "exit")
    else Result(Succeeded, "", "")
  }

  /** The only class a finished process can be retried for is timeout or exit, and a run
      that saw a captcha is never an exit failure. */
  lemma ClassifyIsTerminal(cancelled: bool, deadline: bool, waitErr: Option<string>, obs: Obs)
    ensures var r := Classify(cancelled, deadline, waitErr, obs);
            && IsTerminal(r.state)
            && (r.state.Failed? || r.state.Timeout? ==> r.errorClass in {"timeout", "exit"})
            && (obs.captcha.Some? && !cancelled && !deadline ==> r == Result(Captcha, obs.captcha.value, "captcha"))
  {
  }

  /** Each outcome has one cause: a cancel wins over a deadline, which wins over a
      captcha, which wins over the exit status. An exit failure's error is valid text
      within the limit when the process's own texts are. */
  lemma ClassifyIff(cancelled: bool, deadline: bool, waitErr: Option<string>, obs: Obs)
    ensures var r := Classify(cancelled, deadline, waitErr, obs);
            && (r.state.Cancelled? <==> cancelled)
            && (r.state.Timeout? <==> deadline && !cancelled)
            && (r.state.Captcha? <==> obs.captcha.Some? && !deadline && !cancelled)
            && (r.state.Failed? <==> waitErr.Some? && obs.captcha.None? && !deadline && !cancelled)
            && (r.state.Succeeded? <==> waitErr.None? && obs.captcha.None? && !deadline && !cancelled)
            && (r.state.Failed? && U.ValidUtf8(waitErr.value) && U.ValidUtf8(obs.lastError) ==>
                  U.ValidUtf8(r.error) && |r.error| <= ERROR_LIMIT + 3)
  {
    if waitErr.Some? {
      var text := if obs.lastError == "" then waitErr.value else obs.lastError;
      if U.ValidUtf8(text) && |text| > ERROR_LIMIT {
        U.TruncationIsSafe(text, ERROR_LIMIT);
      }
    }
  }

  predicate IsError(l: RawLine) {
    l.Log? && Upper(l.level) == "ERROR"
  }

  /** After any stream the observers hold the last captcha message and the last error. */
  lemma {:induction false} ObserversHoldTheLast(lines: seq<RawLine>)
    ensures var o := Observed(lines);
            && (if o.captcha.None? then forall i :: 0 <= i < |lines| ==> !lines[i].CaptchaEvent?
                else exists i: nat :: IsLastCaptcha(lines, i) && o.captcha.value == lines[i].message)
            && (if forall i :: 0 <= i < |lines| ==> !IsError(lines[i]) then o.lastError == ""
                else exists i: nat :: IsLastError(lines, i) && o.lastError == FullMessage(lines[i]))
  {
    if lines != [] {
      var n := |lines| - 1;
      ObserversHoldTheLast(lines[..n]);
      LastCaptchaNext(lines);
      LastErrorNext(lines);
    }
  }

  ghost predicate IsLastCaptcha(lines: seq<RawLine>, i: nat) {
    i < |lines| && lines[i].CaptchaEvent? && forall j :: i < j < |lines| ==> !lines[j].CaptchaEvent?
  }

  ghost predicate IsLastError(lines: seq<RawLine>, i: nat) {
    i < |lines| && IsError(lines[i]) && forall j :: i < j < |lines| ==> !IsError(lines[j])
  }

  lemma LastCaptchaNext(lines: seq<RawLine>)
    requires lines != []
    ensures var init, last := lines[..|lines| - 1], lines[|lines| - 1];
            if last.CaptchaEvent? then IsLastCaptcha(lines, |lines| - 1)
            else forall i: nat :: IsLastCaptcha(init, i) ==> IsLastCaptcha(lines, i) && lines[i] == init[i]
  {
  }

  lemma LastErrorNext(lines: seq<RawLine>)
    requires lines != []
    ensures var init, last := lines[..|lines| - 1], lines[|lines| - 1];
            if IsError(last) then IsLastError(lines, |lines| - 1)
            else forall i: nat :: IsLastError(init, i) ==> IsLastError(lines, i) && lines[i] == init[i]
  {
  }

  /** The level ERROR in any case. */
  lemma IsErrorIff(l: RawLine)
    ensures IsError(l) <==> l.Log? && |l.level| == 5 && l.level[0] in {'E', 'e'} && l.level[1] in {'R', 'r'}
                            && l.level[2] in {'R', 'r'} && l.level[3] in {'O', 'o'} && l.level[4] in {'R', 'r'}
  {
    if l.Log? && |l.level| == 5 {
      assert Upper(l.level) == [Upper(l.level)[0], Upper(l.level)[1], Upper(l.level)[2], Upper(l.level)[3],
                                Upper(l.level)[4]];
    }
  }

  /** What an exit failure reports: the last error the process logged, with its traceback,
      or its exit error when it logged none or an empty one. */
  ghost predicate IsExitText(lines: seq<RawLine>, exit: string, text: string) {
    if forall i :: 0 <= i < |lines| ==> !IsError(lines[i]) then text == exit
    else
      exists i: nat :: IsLastError(lines, i)
                       && var l := lines[i];
                          var said := if l.traceback == "" then l.message else l.message + "\n" + l.traceback;
                          text == if said == "" then exit else said
  }

  /** The result by its cause: a cancel, else the deadline, else the last captcha notice of
      the readable stream, else the exit. */
  ghost predicate ByCause(script: seq<RawLine>, cancelled: bool, deadline: bool, waitErr: Option<string>, r: Result) {
    var lines := Readable(script);
    if cancelled then r == Result(Cancelled, "", "")
    else if deadline then r == Result(Timeout, "task timed out", "timeout")
    else if exists l :: l in lines && l.CaptchaEvent? then
      exists i: nat :: IsLastCaptcha(lines, i) && r == Result(Captcha, lines[i].message, "captcha")
    else if waitErr.Some? then
      && r.state == Failed && r.errorClass == "exit"
      && exists text :: IsExitText(lines, waitErr.value, text) && r.error == U.Truncated(text, ERROR_LIMIT)
    else r == Result(Succeeded, "", "")
  }

  lemma ResultByCause(script: seq<RawLine>, cancelled: bool, deadline: bool, waitErr: Option<string>)
    ensures ByCause(script, cancelled, deadline, waitErr,
                    Classify(cancelled, deadline, waitErr, Observed(Readable(script))))
  {
    var lines := Readable(script);
    var o := Observed(lines);
    ObserversHoldTheLast(lines);
    hide Readable, Observed, IsError;
    if waitErr.Some? && !cancelled && !deadline && o.captcha.None? {
      var text := if o.lastError == "" then waitErr.value else o.lastError;
      assert IsExitText(lines, waitErr.value, text);
    }
    assert o.captcha.None? <==> !exists l :: l in lines && l.CaptchaEvent?;
  }

  /** The readable lines are those before the first over-long one. */
  lemma {:induction false} ReadableIff(lines: seq<RawLine>)
    ensures var r := Readable(lines);
            && r <= lines && (forall i :: 0 <= i < |r| ==> !r[i].TooLong?)
            && (|r| < |lines| ==> lines[|r|].TooLong?)
  {
    if lines != [] && !lines[0].TooLong? {
      ReadableIff(lines[1..]);
      assert lines == [lines[0]] + lines[1..];
    }
  }

  predicate IsTerminal(s: TaskState) {
    s.Succeeded? || s.Failed? || s.Cancelled? || s.Timeout? || s.Captcha?
  }

  // ---- one run ------------------------------------------------------------------------

  /** How Run came to its result: before the process started, or by classifying. */
  datatype How = Early | Exited(cancelled: bool, deadline: bool, waitErr: Option<string>)

  datatype Phase =
    | Starting                        // startTask is about to report ACCEPTED
    | AcceptedSent
    | Preparing                       // the run's goroutine, before the process starts
    | Pumping
    | Finished(res: Result, how: How)
    | Reported(res: Result, how: How)

  /** `todo` is what the event pump still has to send for the line it read last. */
  datatype Run = Run(task: nat, phase: Phase, script: seq<RawLine>, pos: nat, obs: Obs, todo: seq<Msg>,
                     eventsOpen: bool, stdoutOpen: bool, stderrOpen: bool, emitted: seq<Msg>)

  datatype Action =
    | SendAccepted
    | SendRunning
    | DepsLog(level: string, message: string)
    | ReturnEarly(res: Result)         // prepare, deps, pipe or spawn failed; or the fake lifecycle
    | Spawn(script: seq<RawLine>)
    | Read
    | SendNext
    | UserLog(stderr: bool, message: string)
    | CloseUserLog(stderr: bool)
    | Exit(cancelled: bool, deadline: bool, waitErr: Option<string>)
    | Report

  predicate CanDo(r: Run, a: Action) {
    match a
    case SendAccepted => r.phase.Starting?
    case SendRunning => r.phase.AcceptedSent?
    case DepsLog(_, _) => r.phase.Preparing?
    case ReturnEarly(res) => r.phase.Preparing? && (res.state.Failed? || res.state.Cancelled? || res.state.Succeeded?)
    case Spawn(_) => r.phase.Preparing?
    case Read => r.phase.Pumping? && r.eventsOpen && r.todo == []
    case SendNext => r.phase.Pumping? && r.todo != []
    case UserLog(stderr, _) => r.phase.Pumping? && (if stderr then r.stderrOpen else r.stdoutOpen)
    case CloseUserLog(stderr) => r.phase.Pumping? && (if stderr then r.stderrOpen else r.stdoutOpen)
    case Exit(_, _, _) => r.phase.Pumping? && !r.eventsOpen && !r.stdoutOpen && !r.stderrOpen && r.todo == []
    case Report => r.phase.Finished?
  }

  function Sending(r: Run, m: Msg): Run {
    r.(emitted := r.emitted + [m])
  }

  function Do(r: Run, a: Action): Run
    requires CanDo(r, a)
  {
    match a
    case SendAccepted => Sending(r, Update(r.task, Accepted, "", "")).(phase := AcceptedSent)
    case SendRunning => Sending(r, Update(r.task, Running, "", "")).(phase := Preparing)
    case DepsLog(level, message) => Sending(r, LogLine(r.task, level, "[deps] " + message))
    case ReturnEarly(res) => r.(phase := Finished(res, Early))
    case Spawn(script) => r.(phase := Pumping, script := script, eventsOpen := true, stdoutOpen := true, stderrOpen := true)
    case Read =>
      if r.pos >= |r.script| || r.script[r.pos].TooLong? then r.(eventsOpen := false)
      else r.(pos := r.pos + 1, obs := Observe(r.obs, r.script[r.pos]), todo := Emit(r.task, r.script[r.pos]))
    case SendNext => Sending(r, r.todo[0]).(todo := r.todo[1..])
    case UserLog(stderr, message) => Sending(r, LogLine(r.task, if stderr then "ERROR" else "INFO", message))
    case CloseUserLog(stderr) => if stderr then r.(stderrOpen := false) else r.(stdoutOpen := false)
    case Exit(cancelled, deadline, waitErr) =>
      r.(phase := Finished(Classify(cancelled, deadline, waitErr, r.obs), Exited(cancelled, deadline, waitErr)))
    case Report =>
      var res := r.phase.res;
      Sending(r, Update(r.task, res.state, res.error, res.errorClass)).(phase := Reported(res, r.phase.how))
  }

  // ---- the grammar of a run ------------------------------------------------------------

  /** What a run may send between RUNNING and its final update. */
  predicate IsBody(task: nat, m: Msg) {
    match m
    case Update(t, state, _, errorClass) => t == task && state.Captcha? && errorClass == "captcha"
    case LogLine(t, _, _) => t == task
    case Item(t, _) => t == task
    case Artifact(t, _, _) => t == task
    case Heartbeat(_, _) => false
  }

  predicate AllBody(task: nat, ms: seq<Msg>) {
    forall m :: m in ms ==> IsBody(task, m)
  }

  function Head(task: nat): seq<Msg> {
    [Update(task, Accepted, "", ""), Update(task, Running, "", "")]
  }

  function Final(task: nat, res: Result): Msg {
    Update(task, res.state, res.error, res.errorClass)
  }

  /** What a run's messages look like by its phase: ACCEPTED, RUNNING, body, and once
      reported one terminal update, last. */
  ghost predicate Sentence(task: nat, phase: Phase, ms: seq<Msg>) {
    match phase
    case Starting => ms == []
    case AcceptedSent => ms == Head(task)[..1]
    case Reported(res, _) =>
      |ms| >= 3 && ms[..2] == Head(task) && AllBody(task, ms[2..|ms| - 1])
      && ms[|ms| - 1] == Final(task, res) && IsTerminal(res.state)
    case _ => |ms| >= 2 && ms[..2] == Head(task) && AllBody(task, ms[2..])
  }

  ghost predicate Grammar(r: Run) {
    Sentence(r.task, r.phase, r.emitted)
  }

  /** The message of the last interim captcha update. */
  function LastCaptcha(ms: seq<Msg>): Option<string> {
    if ms == [] then None
    else
      var m := ms[|ms| - 1];
      if m.Update? && m.state.Captcha? then Some(m.error) else LastCaptcha(ms[..|ms| - 1])
  }

  ghost predicate PumpInv(r: Run) {
    && AllBody(r.task, r.todo)
    && (r.todo != [] ==> r.phase.Pumping?)
    && (r.phase.Starting? || r.phase.AcceptedSent? || r.phase.Preparing? ==> r.pos == 0 && r.obs == QUIET)
    && (r.phase.Pumping? ==>
          && r.pos <= |r.script| && Readable(r.script[..r.pos]) == r.script[..r.pos]
          && r.obs == Observed(r.script[..r.pos])
          && LastCaptcha(r.emitted + r.todo) == r.obs.captcha
          && (!r.eventsOpen ==> r.script[..r.pos] == Readable(r.script)))
    && (r.phase.Preparing? ==> LastCaptcha(r.emitted) == None)
  }

  /** The final result is the classification of what the whole readable stream showed,
      and the interim captcha updates are those of that stream. */
  ghost predicate VerdictInv(r: Run) {
    match r.phase
    case Finished(res, how) => VerdictOf(r, res, how) && LastCaptcha(r.emitted) == CaptchaSeen(r, how)
    case Reported(res, how) =>
      r.emitted != [] && VerdictOf(r, res, how) && LastCaptcha(r.emitted[..|r.emitted| - 1]) == CaptchaSeen(r, how)
    case _ => true
  }

  function CaptchaSeen(r: Run, how: How): Option<string> {
    if how.Early? then None else Observed(Readable(r.script)).captcha
  }

  predicate VerdictOf(r: Run, res: Result, how: How) {
    && IsTerminal(res.state)
    && (how.Early? ==> !res.state.Captcha? && !res.state.Timeout?)
    && (how.Exited? ==> res == Classify(how.cancelled, how.deadline, how.waitErr, Observed(Readable(r.script))))
  }

  ghost predicate RunInv(r: Run) {
    Grammar(r) && PumpInv(r) && VerdictInv(r)
  }

  lemma LastCaptchaSnoc(ms: seq<Msg>, m: Msg)
    ensures LastCaptcha(ms + [m]) == if m.Update? && m.state.Captcha? then Some(m.error) else LastCaptcha(ms)
  {
    assert (ms + [m])[..|ms|] == ms;
  }

  lemma BodySent(r: Run, m: Msg)
    requires Grammar(r) && (r.phase.Preparing? || r.phase.Pumping?) && IsBody(r.task, m)
    ensures Grammar(Sending(r, m))
  {
    var sent := r.emitted + [m];
    assert sent[..2] == r.emitted[..2] && sent[2..] == r.emitted[2..] + [m];
  }

  lemma OpeningKept(r: Run, a: Action)
    requires Grammar(r) && CanDo(r, a) && (a.SendAccepted? || a.SendRunning?)
    ensures Grammar(Do(r, a))
  {
    hide Observe, Emit, Classify;
    if a.SendRunning? {
      assert Do(r, a).emitted == Head(r.task);
      assert Head(r.task)[..2] == Head(r.task) && Head(r.task)[2..] == [];
    }
  }

  lemma ReportKept(r: Run)
    requires Grammar(r) && r.phase.Finished? && IsTerminal(r.phase.res.state)
    ensures Grammar(Do(r, Report))
  {
    hide Observe, Emit, Classify, IsBody;
    var sent := r.emitted + [Final(r.task, r.phase.res)];
    assert sent[..2] == r.emitted[..2];
    assert sent[2..|sent| - 1] == r.emitted[2..];
  }

  predicate IsSilent(a: Action) {
    a.ReturnEarly? || a.Spawn? || a.Read? || a.CloseUserLog? || a.Exit?
  }

  lemma SilentKept(r: Run, a: Action)
    requires Grammar(r) && CanDo(r, a) && IsSilent(a)
    ensures Grammar(Do(r, a))
  {
    hide Observe, Emit, Classify, AllBody, Head;
  }

  lemma GrammarKept(r: Run, a: Action)
    requires RunInv(r) && CanDo(r, a)
    ensures Grammar(Do(r, a))
  {
    hide Observed, Readable, Observe, Emit, Classify, LastCaptcha, Grammar;
    match a
    case SendAccepted => OpeningKept(r, a);
    case SendRunning => OpeningKept(r, a);
    case DepsLog(level, message) => BodySent(r, LogLine(r.task, level, "[deps] " + message));
    case SendNext =>
      BodySent(r, r.todo[0]);
      SameGrammar(Sending(r, r.todo[0]), Do(r, a));
    case UserLog(stderr, message) => BodySent(r, LogLine(r.task, if stderr then "ERROR" else "INFO", message));
    case Report => ReportKept(r);
    case _ => SilentKept(r, a);
  }

  lemma SameGrammar(r: Run, r': Run)
    requires Grammar(r) && r'.task == r.task && r'.phase == r.phase && r'.emitted == r.emitted
    ensures Grammar(r')
  {
  }

  lemma EmitIsBody(task: nat, l: RawLine, ms: seq<Msg>)
    ensures AllBody(task, Emit(task, l))
    ensures LastCaptcha(ms + Emit(task, l)) == if l.CaptchaEvent? then Some(l.message) else LastCaptcha(ms)
  {
    var out := Emit(task, l);
    if l.CaptchaEvent? {
      LastCaptchaSnoc(ms + [out[0]], out[1]);
      assert ms + out == ms + [out[0]] + [out[1]];
    } else if out == [] {
      assert ms + out == ms;
    } else {
      assert out == [out[0]];
      LastCaptchaSnoc(ms, out[0]);
    }
  }

  lemma ReadKept(r: Run)
    requires PumpInv(r) && CanDo(r, Read)
    ensures PumpInv(Do(r, Read))
  {
    hide Observed, Readable, Emit, Observe, LastCaptcha;
    assert r.emitted + [] == r.emitted;
    if r.pos < |r.script| {
      var done := r.script[..r.pos];
      NoTooLong(done);
      assert forall j :: 0 <= j < r.pos ==> r.script[j] == done[j];
      ReadableSplit(r.script, r.pos);
      EmitIsBody(r.task, r.script[r.pos], r.emitted);
      PumpSnoc(r.task, r.script, r.pos);
      ObserveCaptcha(r.obs, r.script[r.pos]);
    } else {
      assert r.script[..r.pos] == r.script;
    }
  }

  lemma ObserveCaptcha(o: Obs, l: RawLine)
    ensures Observe(o, l).captcha == if l.CaptchaEvent? then Some(l.message) else o.captcha
  {
  }

  lemma {:induction false} NoTooLong(lines: seq<RawLine>)
    requires Readable(lines) == lines
    ensures forall j :: 0 <= j < |lines| ==> !lines[j].TooLong?
  {
    if lines != [] {
      assert Readable(lines)[1..] == Readable(lines[1..]);
      NoTooLong(lines[1..]);
      assert forall j :: 1 <= j < |lines| ==> lines[j] == lines[1..][j - 1];
    }
  }

  lemma {:induction false} PlainKeepsCaptcha(ms: seq<Msg>, m: Msg, todo: seq<Msg>)
    requires !(m.Update? && m.state.Captcha?)
    ensures LastCaptcha(ms + [m] + todo) == LastCaptcha(ms + todo)
  {
    if todo == [] {
      assert ms + [m] + todo == ms + [m] && ms + todo == ms;
      LastCaptchaSnoc(ms, m);
    } else {
      var n := |todo| - 1;
      PlainKeepsCaptcha(ms, m, todo[..n]);
      assert ms + [m] + todo == ms + [m] + todo[..n] + [todo[n]];
      assert ms + todo == ms + todo[..n] + [todo[n]];
      LastCaptchaSnoc(ms + [m] + todo[..n], todo[n]);
      LastCaptchaSnoc(ms + todo[..n], todo[n]);
    }
  }

  lemma NothingRead()
    ensures Readable([]) == [] && Observed([]) == QUIET
  {
  }

  lemma PumpKept(r: Run, a: Action)
    requires RunInv(r) && CanDo(r, a)
    ensures PumpInv(Do(r, a))
  {
    hide VerdictInv, Classify, Observe, Observed, Emit, Readable;
    match a {
      case Read => ReadKept(r);
      case SendRunning =>
        assert Do(r, a).emitted == Head(r.task);
        assert Head(r.task)[..1] == [Update(r.task, Accepted, "", "")];
        LastCaptchaSnoc(Head(r.task)[..1], Update(r.task, Running, "", ""));
        LastCaptchaSnoc([], Update(r.task, Accepted, "", ""));
      case DepsLog(level, message) => LastCaptchaSnoc(r.emitted, LogLine(r.task, level, "[deps] " + message));
      case Spawn(script) =>
        assert r.emitted + [] == r.emitted && script[..0] == [];
        NothingRead();
      case SendNext => assert r.emitted + [r.todo[0]] + r.todo[1..] == r.emitted + r.todo;
      case UserLog(stderr, message) =>
        PlainKeepsCaptcha(r.emitted, LogLine(r.task, if stderr then "ERROR" else "INFO", message), r.todo);
      case _ =>
    }
  }

  lemma VerdictKept(r: Run, a: Action)
    requires RunInv(r) && CanDo(r, a)
    ensures VerdictInv(Do(r, a))
  {
    hide Grammar, Observe, Observed, Emit, Readable, Classify;
    match a {
      case Exit(cancelled, deadline, waitErr) =>
        ClassifyIsTerminal(cancelled, deadline, waitErr, r.obs);
        assert r.emitted + [] == r.emitted;
      case Report =>
        var r' := Do(r, a);
        assert r'.emitted[..|r'.emitted| - 1] == r.emitted;
      case _ =>
    }
  }

  lemma RunStep(r: Run, a: Action)
    requires RunInv(r) && CanDo(r, a)
    ensures RunInv(Do(r, a))
  {
    GrammarKept(r, a);
    PumpKept(r, a);
    VerdictKept(r, a);
  }
}
