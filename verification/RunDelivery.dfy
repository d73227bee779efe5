// From the worker's outbox to the row: the read loop maps each delivered update to a
// status write, which may fail to persist.
module RunDelivery {
  import opened Options
  import opened WorkerRun
  import opened WorkerOutbox
  import U = Utf8
  import TT = TaskTable
  import RE = Reports
  import RP = RetryPolicy

  function MapState(s: TaskState): Option<TT.Status> {
    match s
    case Accepted => Some(TT.Running)
    case Running => Some(TT.Running)
    case Succeeded => Some(TT.Succeeded)
    case Failed => Some(TT.Failed)
    case Cancelled => Some(TT.Cancelled)
    case Timeout => Some(TT.Timeout)
    case Captcha => Some(TT.CaptchaBlocked)
    case Unspecified => None
  }

  /** The hub releases a slot exactly for the states the row ends in. */
  lemma TerminalStatesAgree(s: TaskState)
    ensures IsTerminal(s) <==> MapState(s).Some? && TT.IsTerminal(MapState(s).value)
    ensures MapState(s) != Some(TT.Queued)
  {
  }

  /** A delivered message, when, and whether its write was persisted. */
  datatype Receipt = Receipt(msg: Msg, persisted: bool, at: int)

  function WriteOf(r: Receipt, t: nat, worker: string): seq<TT.Write> {
    if r.persisted && r.msg.Update? && r.msg.task == t && MapState(r.msg.state).Some? then
      [TT.Write(MapState(r.msg.state).value, r.msg.error, r.msg.errorClass, worker, r.at)]
    else []
  }

  /** The status a row is in and the state it was reported in. */
  predicate SameOutcome(status: TT.Status, state: TaskState) {
    && (status == TT.Running <==> state == Accepted || state == Running)
    && (status == TT.Succeeded <==> state == Succeeded)
    && (status == TT.Failed <==> state == Failed)
    && (status == TT.Cancelled <==> state == Cancelled)
    && (status == TT.Timeout <==> state == Timeout)
    && (status == TT.CaptchaBlocked <==> state == Captcha)
    && status != TT.Queued
  }

  /** A message writes a row exactly when it is a persisted update of it with a known state,
      and the write has that state's status and the update's errors. */
  lemma WriteByState(r: Receipt, t: nat, worker: string)
    ensures var ws := WriteOf(r, t, worker);
            && |ws| <= 1
            && (ws != [] <==> r.persisted && r.msg.Update? && r.msg.task == t && r.msg.state != Unspecified)
            && (ws != [] ==>
                  && SameOutcome(ws[0].status, r.msg.state) && ws[0].error == r.msg.error
                  && ws[0].errorClass == r.msg.errorClass && ws[0].worker == worker && ws[0].at == r.at)
  {
  }

  /** The writes one task's row gets from the delivered messages. */
  function Writes(rs: seq<Receipt>, t: nat, worker: string): seq<TT.Write> {
    if rs == [] then [] else Writes(rs[..|rs| - 1], t, worker) + WriteOf(rs[|rs| - 1], t, worker)
  }

  function Delivered(rs: seq<Receipt>): (ms: seq<Msg>)
    ensures |ms| == |rs|
  {
    seq(|rs|, i requires 0 <= i < |rs| => rs[i].msg)
  }

  /** The messages about one task, in order. */
  function About(ms: seq<Msg>, t: nat): seq<Msg> {
    if ms == [] then []
    else About(ms[..|ms| - 1], t) + (if IsFrom(ms[|ms| - 1], t) then [ms[|ms| - 1]] else [])
  }

  function Untagged(ms: seq<Tagged>): (r: seq<Msg>)
    ensures |r| == |ms|
  {
    seq(|ms|, i requires 0 <= i < |ms| => ms[i].msg)
  }

  /** Of a task with one run, the messages about it are that run's. */
  lemma {:induction false} AboutIsProjection(s: WorkerOutbox.State, ms: seq<Tagged>, r: nat)
    requires ms <= s.sent && TagsOk(s) && r in s.runs
    requires forall q :: q in s.runs && s.runs[q].task == s.runs[r].task ==> q == r
    ensures About(Untagged(ms), s.runs[r].task) == Projection(ms, r)
  {
    if ms != [] {
      var init, last := ms[..|ms| - 1], ms[|ms| - 1];
      AboutIsProjection(s, init, r);
      assert Untagged(ms)[..|ms| - 1] == Untagged(init);
      assert last in ms && TagOk(s, last);
      assert IsFrom(last.msg, s.runs[r].task) <==> last.run == Some(r);
    }
  }

  /** The first two messages of a run write running, all later ones write terminal. */
  predicate Phased(ms: seq<Msg>) {
    forall i :: 0 <= i < |ms| && ms[i].Update? ==>
      (if i < 2 then MapState(ms[i].state) == Some(TT.Running) else IsTerminal(ms[i].state))
  }

  lemma SentenceIsPhased(task: nat, phase: Phase, ms: seq<Msg>)
    requires Sentence(task, phase, ms)
    ensures Phased(ms)
  {
    if |ms| >= 2 {
      assert ms[0] == ms[..2][0] && ms[1] == ms[..2][1];
      var body := if phase.Reported? then ms[2..|ms| - 1] else ms[2..];
      forall i | 2 <= i < |ms| && ms[i].Update?
        ensures IsTerminal(ms[i].state)
      {
        if i - 2 < |body| {
          assert body[i - 2] == ms[i] && IsBody(task, body[i - 2]);
        }
      }
    }
  }

  lemma {:induction false} AboutPrefix(ms: seq<Msg>, k: nat, t: nat)
    requires k <= |ms|
    ensures About(ms[..k], t) <= About(ms, t)
    decreases |ms| - k
  {
    if k == |ms| {
      assert ms[..k] == ms;
    } else {
      assert ms[..k + 1][..k] == ms[..k];
      AboutPrefix(ms, k + 1, t);
    }
  }

  /** The first `n` writes are running ones, the rest terminal. */
  ghost predicate SplitsAt(ws: seq<TT.Write>, n: nat) {
    && n <= |ws|
    && (forall i :: 0 <= i < n ==> ws[i].status.Running?)
    && (forall i :: n <= i < |ws| ==> TT.IsTerminal(ws[i].status))
  }

  /** Running writes come first, and terminal ones only from the third message on. */
  lemma {:induction false} RunningThenTerminal(rs: seq<Receipt>, t: nat, worker: string) returns (n: nat)
    requires Phased(About(Delivered(rs), t))
    ensures SplitsAt(Writes(rs, t, worker), n)
    ensures |About(Delivered(rs), t)| <= 2 ==> n == |Writes(rs, t, worker)|
  {
    if rs == [] {
      n := 0;
    } else {
      var before, r := rs[..|rs| - 1], rs[|rs| - 1];
      var ms, last := About(Delivered(rs), t), About(Delivered(before), t);
      assert Delivered(rs)[..|rs| - 1] == Delivered(before);
      assert ms == last + (if IsFrom(r.msg, t) then [r.msg] else []);
      assert Phased(last) by {
        forall i | 0 <= i < |last| ensures last[i] == ms[i] {}
      }
      n := RunningThenTerminal(before, t, worker);
      if WriteOf(r, t, worker) != [] {
        assert ms[|last|] == r.msg;
        if |last| < 2 {
          n := n + 1;
        }
      }
    }
  }

  /** Receipt `k` is the last about the task. */
  predicate IsLastAbout(rs: seq<Receipt>, t: nat, k: nat) {
    k < |rs| && IsFrom(rs[k].msg, t) && forall j :: k < j < |rs| ==> !IsFrom(rs[j].msg, t)
  }

  /** What comes after it, of other tasks, changes nothing for the task. */
  lemma {:induction false} TailIsElsewhere(rs: seq<Receipt>, t: nat, worker: string, k: nat)
    requires IsLastAbout(rs, t, k)
    ensures Writes(rs, t, worker) == Writes(rs[..k], t, worker) + WriteOf(rs[k], t, worker)
    ensures var ms := About(Delivered(rs), t); ms != [] && ms[|ms| - 1] == rs[k].msg
    decreases |rs|
  {
    var n := |rs| - 1;
    LastReceipt(rs, t, worker);
    if k < n {
      hide Writes, About, WriteOf, IsFrom;
      assert rs[..n][..k] == rs[..k] && rs[..n][k] == rs[k];
      TailIsElsewhere(rs[..n], t, worker, k);
    }
  }

  lemma LastReceipt(rs: seq<Receipt>, t: nat, worker: string)
    requires rs != []
    ensures var init, last := rs[..|rs| - 1], rs[|rs| - 1];
            && Writes(rs, t, worker) == Writes(init, t, worker) + WriteOf(last, t, worker)
            && (if IsFrom(last.msg, t) then About(Delivered(rs), t) == About(Delivered(init), t) + [last.msg]
                else About(Delivered(rs), t) == About(Delivered(init), t) && Writes(rs, t, worker) == Writes(init, t, worker))
  {
    assert Delivered(rs)[..|rs| - 1] == Delivered(rs[..|rs| - 1]);
  }

  /** A task the worker was assigned exactly once. */
  predicate AssignedOnce(s: WorkerOutbox.State, r: nat) {
    r in s.runs && forall q :: q in s.runs && s.runs[q].task == s.runs[r].task ==> q == r
  }

  /** Over one connection, for a task assigned once whose row nobody else writes: no
      running write follows a terminal one, and once all the run's messages have been
      delivered, others among and after them, and the last of them was persisted, the
      row is in the result's status. */
  lemma RowFollowsRun(steps: seq<Step>, r: nat, rs: seq<Receipt>, worker: string, ident: TT.Identity, k: nat)
    requires Valid(INIT, steps) && AssignedOnce(Runs(INIT, steps), r)
    requires Delivered(rs) <= Untagged(Runs(INIT, steps).sent)
    ensures var ws := Writes(rs, Runs(INIT, steps).runs[r].task, worker);
            && (forall i, j :: 0 <= i < j < |ws| && TT.IsTerminal(ws[i].status) ==> !ws[j].status.Running?)
    ensures var run := Runs(INIT, steps).runs[r];
            var t := run.task;
            run.phase.Reported? && |About(Delivered(rs), t)| == |run.emitted| && IsLastAbout(rs, t, k) && rs[k].persisted ==>
              var row := TT.Written(TT.Inserted(ident), Writes(rs, t, worker));
              && SameOutcome(row.status, run.phase.res.state) && TT.IsTerminal(row.status)
              && row.error == run.phase.res.error && row.errorClass == run.phase.res.errorClass
              && row.finishedAt == Some(rs[k].at)
              && (run.phase.how.Exited? ==>
                    var how := run.phase.how;
                    RowByCause(run.script, how.cancelled, how.deadline, how.waitErr, row))
  {
    var s := Runs(INIT, steps);
    var run, t := s.runs[r], s.runs[r].task;
    OwnMessages(steps, r);
    assert Untagged(s.sent)[..|rs|] == Delivered(rs);
    AboutPrefix(Untagged(s.sent), |rs|, t);
    AllRuns(INIT, steps);
    assert RunOf(s, r);
    hide Sentence, Writes, About, WriteOf, IsLastAbout, MapState, Final, SameOutcome, ByCause, RowByCause, RunInv;
    SentenceIsPhased(t, run.phase, run.emitted);
    var n := RunningThenTerminal(rs, t, worker);
    SplitIsMonotone(Writes(rs, t, worker), n);
    if run.phase.Reported? && |About(Delivered(rs), t)| == |run.emitted| && IsLastAbout(rs, t, k) && rs[k].persisted {
      assert About(Delivered(rs), t) == run.emitted;
      EndsInResult(run, rs, worker, ident, k);
      var row := TT.Written(TT.Inserted(ident), Writes(rs, t, worker));
      if run.phase.how.Exited? {
        RunByCause(run);
        ShowsByCause(run, row);
      }
    }
  }

  lemma RunByCause(run: Run)
    requires RunInv(run) && run.phase.Reported? && run.phase.how.Exited?
    ensures var how := run.phase.how;
            ByCause(run.script, how.cancelled, how.deadline, how.waitErr, run.phase.res)
  {
    ResultByCause(run.script, run.phase.how.cancelled, run.phase.how.deadline, run.phase.how.waitErr);
    hide Grammar, PumpInv, Classify, ByCause, Readable, Observed;
  }

  /** What the row of an exited run shows, by the run's cause: cancelled, timed out, blocked
      by the last captcha the readable stream tells of, failed with the last error it logged,
      or succeeded. */
  ghost predicate RowByCause(script: seq<RawLine>, cancelled: bool, deadline: bool, waitErr: Option<string>, row: TT.Row) {
    var lines := Readable(script);
    if cancelled then row.status == TT.Cancelled && row.errorClass == "" && row.error == ""
    else if deadline then row.status == TT.Timeout && row.errorClass == "timeout" && row.error == "task timed out"
    else if exists l :: l in lines && l.CaptchaEvent? then
      && row.status == TT.CaptchaBlocked && row.errorClass == "captcha"
      && exists i: nat :: IsLastCaptcha(lines, i) && row.error == lines[i].message
    else if waitErr.Some? then
      && row.status == TT.Failed && row.errorClass == "exit"
      && exists text :: IsExitText(lines, waitErr.value, text) && row.error == U.Truncated(text, ERROR_LIMIT)
    else row.status == TT.Succeeded && row.errorClass == "" && row.error == ""
  }

  lemma ShowsByCause(run: Run, row: TT.Row)
    requires run.phase.Reported? && run.phase.how.Exited?
    requires var how := run.phase.how;
             ByCause(run.script, how.cancelled, how.deadline, how.waitErr, run.phase.res)
    requires SameOutcome(row.status, run.phase.res.state)
    requires row.error == run.phase.res.error && row.errorClass == run.phase.res.errorClass
    ensures var how := run.phase.how;
            RowByCause(run.script, how.cancelled, how.deadline, how.waitErr, row)
  {
    hide Readable, IsLastCaptcha, IsExitText, U.Truncated;
  }

  lemma OwnMessages(steps: seq<Step>, r: nat)
    requires Valid(INIT, steps) && AssignedOnce(Runs(INIT, steps), r)
    ensures var s := Runs(INIT, steps);
            var run := s.runs[r];
            About(Untagged(s.sent), run.task) == run.emitted && Sentence(run.task, run.phase, run.emitted)
  {
    RunGrammar(steps, r);
    AllRuns(INIT, steps);
    hide Sentence, RunInv, Projection, About;
    var s := Runs(INIT, steps);
    assert RunOf(s, r) && TagsOk(s) && s.sent <= s.sent;
    AboutIsProjection(s, s.sent, r);
  }

  lemma SplitIsMonotone(ws: seq<TT.Write>, n: nat)
    requires SplitsAt(ws, n)
    ensures forall i, j :: 0 <= i < j < |ws| && TT.IsTerminal(ws[i].status) ==> !ws[j].status.Running?
  {
  }

  /** The last write about a finished run whose messages all arrived is its result. */
  lemma EndsInResult(run: Run, rs: seq<Receipt>, worker: string, ident: TT.Identity, k: nat)
    requires run.phase.Reported? && Sentence(run.task, run.phase, run.emitted)
    requires About(Delivered(rs), run.task) == run.emitted && IsLastAbout(rs, run.task, k) && rs[k].persisted
    ensures var row := TT.Written(TT.Inserted(ident), Writes(rs, run.task, worker));
            && SameOutcome(row.status, run.phase.res.state) && TT.IsTerminal(row.status)
            && row.error == run.phase.res.error && row.errorClass == run.phase.res.errorClass
            && row.finishedAt == Some(rs[k].at)
  {
    var t := run.task;
    WriteByState(rs[k], t, worker);
    TailIsElsewhere(rs, t, worker, k);
    assert rs[k].msg == Final(t, run.phase.res);
    hide Writes, About, Sentence, IsLastAbout;
    TerminalStatesAgree(run.phase.res.state);
    LastWriteShows(TT.Inserted(ident), Writes(rs[..k], t, worker), WriteOf(rs[k], t, worker)[0]);
  }

  lemma LastWriteShows(row: TT.Row, ws: seq<TT.Write>, w: TT.Write)
    ensures TT.Written(row, ws + [w]) == TT.Updated(TT.Written(row, ws), w)
  {
    assert (ws + [w])[..|ws|] == ws;
  }

  /** A run that saw a captcha, neither cancelled nor past its deadline, ends in exactly
      its last interim captcha notice, and none of its updates makes the service add a
      row, whatever the spider configs. */
  lemma CaptchaIsNeverRetried(steps: seq<Step>, n: nat, tb: TT.Table,
                              spiders: map<int, RE.Spider>, worker: string, at: int, db: RE.Db)
    requires Valid(INIT, steps) && n in Runs(INIT, steps).runs
    requires var r := Runs(INIT, steps).runs[n];
             && r.phase.Reported? && r.phase.how.Exited? && !r.phase.how.cancelled && !r.phase.how.deadline
             && exists l :: l in Readable(r.script) && l.CaptchaEvent?
    ensures var r := Runs(INIT, steps).runs[n];
            var mine := Projection(Runs(INIT, steps).sent, n);
            && mine != []
            && LastCaptcha(mine[..|mine| - 1]).Some?
            && r.phase.res == Result(Captcha, LastCaptcha(mine[..|mine| - 1]).value, "captcha")
            && mine[|mine| - 1] == Final(r.task, r.phase.res)
            && (forall m :: m in mine && m.Update? ==>
                  MapState(m.state).Some?
                  && RE.Reported(tb, spiders, r.task,
                                 TT.Write(MapState(m.state).value, m.error, m.errorClass, worker, at), db).rows.Keys
                     == tb.rows.Keys)
  {
    AllRuns(INIT, steps);
    var s := Runs(INIT, steps);
    assert RunOf(s, n);
    var r, mine := s.runs[n], Projection(s.sent, n);
    CaptchaObserved(Readable(r.script));
    ClassifyIsTerminal(false, false, r.phase.how.waitErr, Observed(Readable(r.script)));
    hide LastCaptcha, Observed, Readable, RE.Reported, MapState, RE.MayRetry;
    forall m | m in mine && m.Update?
      ensures MapState(m.state).Some?
      ensures RE.Reported(tb, spiders, r.task,
                          TT.Write(MapState(m.state).value, m.error, m.errorClass, worker, at), db).rows.Keys
              == tb.rows.Keys
    {
      CaptchaRunWrites(r.task, r.phase, mine, m);
      NoRetryNoRow(tb, spiders, r.task, TT.Write(MapState(m.state).value, m.error, m.errorClass, worker, at), db);
    }
  }

  lemma NoRetryNoRow(tb: TT.Table, spiders: map<int, RE.Spider>, t: nat, w: TT.Write, db: RE.Db)
    requires !RE.MayRetry(w.status)
    ensures RE.Reported(tb, spiders, t, w, db).rows.Keys == tb.rows.Keys
  {
  }

  /** A run that ends in captcha writes only running and captcha_blocked. */
  lemma CaptchaRunWrites(t: nat, phase: Phase, mine: seq<Msg>, m: Msg)
    requires phase.Reported? && phase.res.state.Captcha? && Sentence(t, phase, mine)
    requires m in mine && m.Update?
    ensures MapState(m.state).Some? && !RE.MayRetry(MapState(m.state).value)
  {
    var i :| 0 <= i < |mine| && mine[i] == m;
    if i < 2 {
      assert mine[i] == mine[..2][i];
    } else if i < |mine| - 1 {
      assert mine[2..|mine| - 1][i - 2] == m && IsBody(t, mine[2..|mine| - 1][i - 2]);
    }
  }

  lemma {:induction false} CaptchaObserved(lines: seq<RawLine>)
    requires exists l :: l in lines && l.CaptchaEvent?
    ensures Observed(lines).captcha.Some?
  {
    var n := |lines| - 1;
    ObserveCaptcha(Observed(lines[..n]), lines[n]);
    if !lines[n].CaptchaEvent? {
      var l :| l in lines && l.CaptchaEvent?;
      assert l in lines[..n];
      CaptchaObserved(lines[..n]);
    }
  }
}
