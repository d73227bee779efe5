// All runs of one worker connection over the one outbox they share, in any
// interleaving, and the pump that drains it to the stream in order. A task may be
// assigned any number of times, also while an earlier run of it goes on.
module WorkerOutbox {
  import opened Options
  import opened WorkerRun

  const OUTBOX_SIZE: nat := 64

  /** A message with the run that sent it; a heartbeat has none. */
  datatype Tagged = Tagged(run: Option<nat>, msg: Msg)

  /** Runs are numbered as they are assigned. `sent` is everything ever put into the
      outbox, `delivered` how much of it the pump has taken out. */
  datatype State = State(runs: map<nat, Run>, next: nat, sent: seq<Tagged>, delivered: nat)

  const INIT := State(map[], 0, [], 0)

  datatype Step =
    | Assign(task: nat)
    | Act(run: nat, act: Action)
    | Beat(running: int, freeSlots: int)
    | Pump

  function NewRun(t: nat): Run {
    Run(t, Starting, [], 0, QUIET, [], false, false, false, [])
  }

  /** A send needs room in the channel. */
  predicate Enabled(s: State, a: Step) {
    match a
    case Assign(_) => true
    case Act(r, act) =>
      r in s.runs && CanDo(s.runs[r], act)
      && (Do(s.runs[r], act).emitted != s.runs[r].emitted ==> |s.sent| < s.delivered + OUTBOX_SIZE)
    case Beat(_, _) => |s.sent| < s.delivered + OUTBOX_SIZE
    case Pump => s.delivered < |s.sent|
  }

  function TagAll(r: nat, ms: seq<Msg>): seq<Tagged> {
    seq(|ms|, i requires 0 <= i < |ms| => Tagged(Some(r), ms[i]))
  }

  function Apply(s: State, a: Step): State
    requires Enabled(s, a)
  {
    match a
    case Assign(t) => s.(runs := s.runs[s.next := NewRun(t)], next := s.next + 1)
    case Act(r, act) =>
      var before, after := s.runs[r], Do(s.runs[r], act);
      s.(runs := s.runs[r := after],
         sent := if |after.emitted| > |before.emitted| then s.sent + TagAll(r, after.emitted[|before.emitted|..]) else s.sent)
    case Beat(running, freeSlots) => s.(sent := s.sent + [Tagged(None, Heartbeat(running, freeSlots))])
    case Pump => s.(delivered := s.delivered + 1)
  }

  ghost predicate Valid(s: State, steps: seq<Step>)
    decreases |steps|
  {
    steps == [] || (Enabled(s, steps[0]) && Valid(Apply(s, steps[0]), steps[1..]))
  }

  ghost function Runs(s: State, steps: seq<Step>): State
    requires Valid(s, steps)
    decreases |steps|
  {
    if steps == [] then s else Runs(Apply(s, steps[0]), steps[1..])
  }

  /** The messages one run sent, in order. */
  function Projection(ms: seq<Tagged>, r: nat): seq<Msg> {
    if ms == [] then []
    else
      var last := ms[|ms| - 1];
      Projection(ms[..|ms| - 1], r) + (if last.run == Some(r) then [last.msg] else [])
  }

  lemma ProjectionSnoc(ms: seq<Tagged>, m: Tagged, r: nat)
    ensures Projection(ms + [m], r) == if m.run == Some(r) then Projection(ms, r) + [m.msg] else Projection(ms, r)
  {
    assert (ms + [m])[..|ms|] == ms;
  }

  predicate IsFrom(m: Msg, t: nat) {
    !m.Heartbeat? && m.task == t
  }

  /** Every action sends nothing or one message of its own task. */
  lemma OneMessage(r: Run, a: Action)
    requires RunInv(r) && CanDo(r, a)
    ensures var r' := Do(r, a);
            && r'.task == r.task
            && (r'.emitted == r.emitted
                || exists m :: r'.emitted == r.emitted + [m] && IsFrom(m, r.task))
  {
    if a.SendNext? {
      assert IsBody(r.task, r.todo[0]);
    }
    assert Do(r, a).emitted != r.emitted ==>
             Do(r, a).emitted == r.emitted + [Do(r, a).emitted[|r.emitted|]];
  }

  ghost predicate RunOf(s: State, r: nat) {
    if r in s.runs then r < s.next && RunInv(s.runs[r]) && Projection(s.sent, r) == s.runs[r].emitted
    else Projection(s.sent, r) == []
  }

  /** A message carries the task of the run that sent it. */
  predicate TagOk(s: State, m: Tagged) {
    if m.run.Some? then m.run.value in s.runs && IsFrom(m.msg, s.runs[m.run.value].task) else m.msg.Heartbeat?
  }

  predicate TagsOk(s: State) {
    forall m :: m in s.sent ==> TagOk(s, m)
  }

  ghost predicate Inv(s: State) {
    s.delivered <= |s.sent| && (forall r: nat :: RunOf(s, r)) && TagsOk(s)
  }

  lemma ActInv(s: State, r: nat, act: Action)
    requires Inv(s) && Enabled(s, Act(r, act))
    ensures Inv(Apply(s, Act(r, act)))
  {
    hide RunInv, CanDo, Do, Projection;
    assert RunOf(s, r);
    var before, s' := s.runs[r], Apply(s, Act(r, act));
    RunStep(before, act);
    OneMessage(before, act);
    var after := Do(before, act);
    if after.emitted != before.emitted {
      var m :| after.emitted == before.emitted + [m] && IsFrom(m, before.task);
      assert after.emitted[|before.emitted|..] == [m];
      assert TagAll(r, [m]) == [Tagged(Some(r), m)];
      SentOne(s, r, after, m);
    } else {
      SentNone(s, r, after);
    }
  }

  lemma SentOne(s: State, r: nat, after: Run, m: Msg)
    requires Inv(s) && r in s.runs && RunInv(after) && after.task == s.runs[r].task
    requires after.emitted == s.runs[r].emitted + [m] && IsFrom(m, after.task)
    ensures Inv(s.(runs := s.runs[r := after], sent := s.sent + [Tagged(Some(r), m)]))
  {
    hide RunInv, Projection, IsFrom;
    var s' := s.(runs := s.runs[r := after], sent := s.sent + [Tagged(Some(r), m)]);
    forall u: nat
      ensures RunOf(s', u)
    {
      assert RunOf(s, u);
      ProjectionSnoc(s.sent, Tagged(Some(r), m), u);
    }
  }

  lemma SentNone(s: State, r: nat, after: Run)
    requires Inv(s) && r in s.runs && RunInv(after) && after.task == s.runs[r].task && after.emitted == s.runs[r].emitted
    ensures Inv(s.(runs := s.runs[r := after]))
  {
    hide RunInv, Projection, IsFrom;
    var s' := s.(runs := s.runs[r := after]);
    forall u: nat
      ensures RunOf(s', u)
    {
      assert RunOf(s, u);
    }
  }

  lemma NewRunOk(t: nat)
    ensures RunInv(NewRun(t)) && NewRun(t).task == t && NewRun(t).emitted == []
  {
  }

  lemma AssignInv(s: State, t: nat)
    requires Inv(s)
    ensures Inv(Apply(s, Assign(t)))
  {
    NewRunOk(t);
    hide RunInv, Projection, IsFrom, NewRun;
    var s' := Apply(s, Assign(t));
    assert RunOf(s, s.next);
    forall r: nat
      ensures RunOf(s', r)
    {
      assert RunOf(s, r);
    }
  }

  lemma BeatInv(s: State, running: int, freeSlots: int)
    requires Inv(s) && Enabled(s, Beat(running, freeSlots))
    ensures Inv(Apply(s, Beat(running, freeSlots)))
  {
    hide RunInv, Projection, IsFrom;
    var s' := Apply(s, Beat(running, freeSlots));
    forall r: nat
      ensures RunOf(s', r)
    {
      assert RunOf(s, r);
      ProjectionSnoc(s.sent, Tagged(None, Heartbeat(running, freeSlots)), r);
    }
  }

  lemma PumpStepInv(s: State)
    requires Inv(s) && Enabled(s, Pump)
    ensures Inv(Apply(s, Pump))
  {
    hide RunInv, Projection, IsFrom;
    forall r: nat
      ensures RunOf(Apply(s, Pump), r)
    {
      assert RunOf(s, r);
    }
  }

  lemma StepInv(s: State, a: Step)
    requires Inv(s) && Enabled(s, a)
    ensures Inv(Apply(s, a))
  {
    match a {
      case Assign(t) => AssignInv(s, t);
      case Act(r, act) => ActInv(s, r, act);
      case Beat(running, freeSlots) => BeatInv(s, running, freeSlots);
      case Pump => PumpStepInv(s);
    }
    hide Inv, Apply;
  }

  lemma {:induction false} AllRuns(s: State, steps: seq<Step>)
    requires Inv(s) && Valid(s, steps)
    ensures Inv(Runs(s, steps))
    decreases |steps|
  {
    if steps != [] {
      StepInv(s, steps[0]);
      AllRuns(Apply(s, steps[0]), steps[1..]);
    }
  }

  /** The outbox never holds more than 64 messages, and what the pump takes is never more than
      was put in. */
  lemma {:induction false} OutboxIsBounded(s: State, steps: seq<Step>)
    requires Valid(s, steps) && s.delivered <= |s.sent| <= s.delivered + 64
    requires Inv(s)
    ensures Runs(s, steps).delivered <= |Runs(s, steps).sent| <= Runs(s, steps).delivered + 64
    decreases |steps|
  {
    if steps != [] {
      var a := steps[0];
      if a.Act? {
        assert RunOf(s, a.run);
        OneMessage(s.runs[a.run], a.act);
      }
      StepInv(s, a);
      OutboxIsBounded(Apply(s, a), steps[1..]);
    }
    hide Inv, RunInv, CanDo, Do;
  }

  /** Every message of run `r` is about task `t`. */
  predicate AllFrom(ms: seq<Tagged>, r: nat, t: nat) {
    forall i :: 0 <= i < |ms| && ms[i].run == Some(r) ==> IsFrom(ms[i].msg, t)
  }

  /** In every run of the connection, duplicate and repeated assignments included, what the
      outbox holds of one run is ACCEPTED, RUNNING, then only logs, items, artifacts and
      captcha notices, then, once it has reported, one terminal update and nothing after
      it, all of its own task. */
  lemma RunGrammar(steps: seq<Step>, r: nat)
    requires Valid(INIT, steps)
    ensures var s := Runs(INIT, steps);
            if r in s.runs then
              Sentence(s.runs[r].task, s.runs[r].phase, Projection(s.sent, r))
              && AllFrom(s.sent, r, s.runs[r].task)
            else Projection(s.sent, r) == []
  {
    AllRuns(INIT, steps);
    assert RunOf(Runs(INIT, steps), r);
    var s := Runs(INIT, steps);
    forall i | 0 <= i < |s.sent|
      ensures TagOk(s, s.sent[i])
    {
      assert s.sent[i] in s.sent;
    }
  }
}
