// The worker's own bookkeeping: two atomic counters and the table of cancel functions,
// touched by the receive loop that starts and cancels runs and by every run's goroutine
// when it ends. One step per atomic operation or critical section.
module WorkerSlots {
  import opened Options
  import WR = WorkerRun

  // ---- the state machine ---------------------------------------------------------------

  /** How far a run's bookkeeping is. */
  datatype Stage =
    | Claimed      // its slot is taken
    | Counted      // and it is counted as running
    | Live         // and its cancel function is in the table
    | Unlisted     // it has ended and left the table
    | Uncounted    // and is no longer counted; its slot is still taken

  datatype Job = Job(task: nat, stage: Stage)

  /** Jobs are numbered as they start; `table` has the job each task's cancel function
      belongs to, `starting` the one the receive loop is at. */
  datatype State = State(free: int, count: int, table: map<nat, nat>, jobs: map<nat, Job>, next: nat,
                         starting: Option<nat>, cancelled: set<nat>)

  datatype Step =
    | Claim(task: nat)
    | CountUp
    | Enlist
    | Unlist(job: nat)
    | CountDown(job: nat)
    | GiveBack(job: nat)
    | Cancel(task: nat)

  function Init(concurrency: int): State {
    State(concurrency, 0, map[], map[], 0, None, {})
  }

  predicate AtStage(s: State, j: nat, stage: Stage) {
    j in s.jobs && s.jobs[j].stage == stage
  }

  /** Starting and cancelling are one loop's work, so they do not overlap. */
  predicate Enabled(s: State, a: Step) {
    match a
    case Claim(_) => s.starting.None?
    case CountUp => s.starting.Some? && AtStage(s, s.starting.value, Claimed)
    case Enlist => s.starting.Some? && AtStage(s, s.starting.value, Counted)
    case Unlist(j) => AtStage(s, j, Live)
    case CountDown(j) => AtStage(s, j, Unlisted)
    case GiveBack(j) => AtStage(s, j, Uncounted)
    case Cancel(_) => s.starting.None?
  }

  function Moved(s: State, j: nat, stage: Stage): State
    requires j in s.jobs
  {
    s.(jobs := s.jobs[j := s.jobs[j].(stage := stage)])
  }

  /** The jobs a cancel of the task reaches. */
  function Reached(s: State, t: nat): set<nat> {
    if t in s.table then {s.table[t]} else {}
  }

  function Apply(s: State, a: Step): State
    requires Enabled(s, a)
  {
    match a
    case Claim(t) =>
      s.(free := s.free - 1, jobs := s.jobs[s.next := Job(t, Claimed)], next := s.next + 1, starting := Some(s.next))
    case CountUp => Moved(s, s.starting.value, Counted).(count := s.count + 1)
    case Enlist =>
      var j := s.starting.value;
      Moved(s, j, Live).(table := s.table[s.jobs[j].task := j], starting := None)
    case Unlist(j) => Moved(s, j, Unlisted).(table := s.table - {s.jobs[j].task})
    case CountDown(j) => Moved(s, j, Uncounted).(count := s.count - 1)
    case GiveBack(j) => s.(free := s.free + 1, jobs := s.jobs - {j})
    case Cancel(t) => s.(cancelled := s.cancelled + Reached(s, t))
  }

  ghost predicate Valid(s: State, steps: seq<Step>)
    decreases |steps|
  {
    steps == [] || (Enabled(s, steps[0]) && Valid(Apply(s, steps[0]), steps[1..]))
  }

  ghost function Run(s: State, steps: seq<Step>): State
    requires Valid(s, steps)
    decreases |steps|
  {
    if steps == [] then s else Run(Apply(s, steps[0]), steps[1..])
  }

  // ---- the counters ---------------------------------------------------------------------

  predicate IsCounted(j: Job) {
    j.stage.Counted? || j.stage.Live? || j.stage.Unlisted?
  }

  function CountedJobs(s: State): set<nat> {
    set j | j in s.jobs && IsCounted(s.jobs[j])
  }

  ghost predicate Tables(s: State) {
    && (forall j :: j in s.jobs ==> j < s.next)
    && (forall j :: j in s.jobs && (s.jobs[j].stage.Claimed? || s.jobs[j].stage.Counted?) ==> s.starting == Some(j))
    && (forall t :: t in s.table ==> AtStage(s, s.table[t], Live) && s.jobs[s.table[t]].task == t)
  }

  ghost predicate Inv(s: State, concurrency: int) {
    s.free + |s.jobs| == concurrency && s.count == |CountedJobs(s)| && Tables(s)
  }

  /** Moving a job to another stage touches the counted set only there. */
  lemma MovedCounts(s: State, j: nat, stage: Stage)
    requires j in s.jobs
    ensures var s' := Moved(s, j, stage);
            && s'.jobs.Keys == s.jobs.Keys
            && CountedJobs(s') == if IsCounted(Job(s.jobs[j].task, stage)) then CountedJobs(s) + {j} else CountedJobs(s) - {j}
  {
    assert Moved(s, j, stage).jobs.Keys == s.jobs.Keys;
  }

  lemma ClaimCounts(s: State, t: nat)
    requires s.next !in s.jobs
    ensures var s' := s.(jobs := s.jobs[s.next := Job(t, Claimed)]);
            CountedJobs(s') == CountedJobs(s) && |s'.jobs| == |s.jobs| + 1
  {
  }

  lemma GiveBackCounts(s: State, j: nat)
    requires AtStage(s, j, Uncounted)
    ensures var s' := s.(jobs := s.jobs - {j});
            CountedJobs(s') == CountedJobs(s) && |s'.jobs| == |s.jobs| - 1
  {
    assert (s.jobs - {j}).Keys == s.jobs.Keys - {j};
    assert |s.jobs - {j}| == |(s.jobs - {j}).Keys| && |s.jobs| == |s.jobs.Keys|;
  }

  lemma SameKeysSameSize(a: map<nat, Job>, b: map<nat, Job>)
    requires a.Keys == b.Keys
    ensures |a| == |b|
  {
    assert |a| == |a.Keys| && |b| == |b.Keys|;
  }

  lemma MoveStep(s: State, j: nat, stage: Stage)
    requires j in s.jobs
    ensures |Moved(s, j, stage).jobs| == |s.jobs|
    ensures var before, after := IsCounted(s.jobs[j]), IsCounted(Job(s.jobs[j].task, stage));
            |CountedJobs(Moved(s, j, stage))|
            == |CountedJobs(s)| + (if after && !before then 1 else if before && !after then -1 else 0)
  {
    MovedCounts(s, j, stage);
    SameKeysSameSize(Moved(s, j, stage).jobs, s.jobs);
    hide Moved, IsCounted;
    assert j in CountedJobs(s) <==> IsCounted(s.jobs[j]);
    if j in CountedJobs(s) {
      assert CountedJobs(s) + {j} == CountedJobs(s);
    } else {
      assert CountedJobs(s) - {j} == CountedJobs(s);
    }
  }

  /** The counted set depends on the jobs alone. */
  lemma SameJobsSameCount(s: State, s': State)
    requires s.jobs == s'.jobs
    ensures CountedJobs(s) == CountedJobs(s')
  {
  }

  lemma CountersStep(s: State, a: Step, concurrency: int)
    requires Inv(s, concurrency) && Enabled(s, a)
    ensures var s' := Apply(s, a); s'.free + |s'.jobs| == concurrency && s'.count == |CountedJobs(s')|
  {
    var s' := Apply(s, a);
    assert s.next !in s.jobs;
    hide CountedJobs, Tables;
    match a
    case Claim(t) =>
      ClaimCounts(s, t);
      SameJobsSameCount(s', s.(jobs := s.jobs[s.next := Job(t, Claimed)]));
    case CountUp =>
      MoveStep(s, s.starting.value, Counted);
      SameJobsSameCount(s', Moved(s, s.starting.value, Counted));
    case Enlist =>
      MoveStep(s, s.starting.value, Live);
      SameJobsSameCount(s', Moved(s, s.starting.value, Live));
    case Unlist(j) =>
      MoveStep(s, j, Unlisted);
      SameJobsSameCount(s', Moved(s, j, Unlisted));
    case CountDown(j) =>
      MoveStep(s, j, Uncounted);
      SameJobsSameCount(s', Moved(s, j, Uncounted));
    case GiveBack(j) =>
      GiveBackCounts(s, j);
      SameJobsSameCount(s', s.(jobs := s.jobs - {j}));
    case Cancel(_) => SameJobsSameCount(s', s);
  }

  lemma TablesStep(s: State, a: Step)
    requires Tables(s) && Enabled(s, a)
    ensures Tables(Apply(s, a))
  {
    var s' := Apply(s, a);
    assert forall j :: j in s'.jobs && j in s.jobs ==> s'.jobs[j].task == s.jobs[j].task;
  }

  lemma StepInv(s: State, a: Step, concurrency: int)
    requires Inv(s, concurrency) && Enabled(s, a)
    ensures Inv(Apply(s, a), concurrency)
  {
    hide CountedJobs, Apply, Enabled, Tables;
    CountersStep(s, a, concurrency);
    TablesStep(s, a);
  }

  lemma {:induction false} RunInv(s: State, steps: seq<Step>, concurrency: int)
    requires Inv(s, concurrency) && Valid(s, steps)
    ensures Inv(Run(s, steps), concurrency)
    decreases |steps|
  {
    if steps != [] {
      StepInv(s, steps[0], concurrency);
      RunInv(Apply(s, steps[0]), steps[1..], concurrency);
    }
  }

  /** In every interleaving, duplicates included: the free slots are the concurrency less
      the jobs that have claimed one, so an idle worker has them all back; and a cancel
      function in the table belongs to a live job of that very task. */
  lemma SlotsAddUp(concurrency: int, steps: seq<Step>)
    requires Valid(Init(concurrency), steps)
    ensures var s := Run(Init(concurrency), steps);
            && s.free == concurrency - |s.jobs|
            && 0 <= s.count <= |s.jobs|
            && (s.jobs == map[] ==> s.free == concurrency && s.count == 0 && s.table == map[])
            && (forall t :: t in s.table ==> AtStage(s, s.table[t], Live) && s.jobs[s.table[t]].task == t)
  {
    assert CountedJobs(Init(concurrency)) == {};
    RunInv(Init(concurrency), steps, concurrency);
    var s := Run(Init(concurrency), steps);
    FewerCounted(s);
    if s.jobs == map[] {
      assert forall t :: t !in s.table;
    }
  }

  lemma FewerCounted(s: State)
    ensures |CountedJobs(s)| <= |s.jobs|
  {
    Subset(CountedJobs(s), s.jobs.Keys);
  }

  lemma {:induction false} Subset(a: set<nat>, b: set<nat>)
    requires a <= b
    ensures |a| <= |b|
    decreases a
  {
    if a != {} {
      var x :| x in a;
      Subset(a - {x}, b - {x});
    }
  }

  // ---- cancelling -------------------------------------------------------------------------

  /** A job goes live while another of its task is. */
  predicate Doubles(s: State, a: Step) {
    a.Enlist? && s.starting.Some? && s.starting.value in s.jobs
    && exists j :: j in s.jobs && j != s.starting.value && AtStage(s, j, Live)
                   && s.jobs[j].task == s.jobs[s.starting.value].task
  }

  ghost predicate EverDoubles(s: State, steps: seq<Step>)
    requires Valid(s, steps)
    decreases |steps|
  {
    steps != [] && (Doubles(s, steps[0]) || EverDoubles(Apply(s, steps[0]), steps[1..]))
  }

  /** A cancel of its task would reach every live job. */
  ghost predicate AllReached(s: State) {
    forall j :: AtStage(s, j, Live) ==> j in Reached(s, s.jobs[j].task)
  }

  ghost predicate AlwaysReached(s: State, steps: seq<Step>)
    requires Valid(s, steps)
    decreases |steps|
  {
    AllReached(s) && (steps != [] ==> AlwaysReached(Apply(s, steps[0]), steps[1..]))
  }

  lemma ReachedStep(s: State, a: Step)
    requires Tables(s) && AllReached(s) && Enabled(s, a)
    ensures AllReached(Apply(s, a)) <==> !Doubles(s, a)
  {
    if a.Enlist? {
      EnlistStep(s);
    } else {
      forall j | AtStage(Apply(s, a), j, Live)
        ensures j in Reached(Apply(s, a), Apply(s, a).jobs[j].task)
      {
        assert AtStage(s, j, Live);
      }
    }
  }

  lemma EnlistStep(s: State)
    requires Tables(s) && AllReached(s) && Enabled(s, Enlist)
    ensures AllReached(Apply(s, Enlist)) <==> !Doubles(s, Enlist)
  {
    var s', i := Apply(s, Enlist), s.starting.value;
    if Doubles(s, Enlist) {
      var j :| j in s.jobs && j != i && AtStage(s, j, Live) && s.jobs[j].task == s.jobs[i].task;
      assert AtStage(s', j, Live) && j !in Reached(s', s'.jobs[j].task);
    } else {
      forall j | AtStage(s', j, Live)
        ensures j in Reached(s', s'.jobs[j].task)
      {
        assert j == i || AtStage(s, j, Live);
      }
    }
  }

  lemma {:induction false} ReachedRun(s: State, steps: seq<Step>, concurrency: int)
    requires Inv(s, concurrency) && AllReached(s) && Valid(s, steps)
    ensures AlwaysReached(s, steps) <==> !EverDoubles(s, steps)
    ensures !EverDoubles(s, steps) ==> AllReached(Run(s, steps))
    decreases |steps|
  {
    if steps != [] {
      ReachedStep(s, steps[0]);
      StepInv(s, steps[0], concurrency);
      if AllReached(Apply(s, steps[0])) {
        ReachedRun(Apply(s, steps[0]), steps[1..], concurrency);
      }
    }
  }

  lemma NobodyLive(concurrency: int)
    ensures Inv(Init(concurrency), concurrency) && AllReached(Init(concurrency))
  {
    assert CountedJobs(Init(concurrency)) == {};
  }

  /** Over any run, every live job can be cancelled at every moment exactly when no job
      ever goes live while another of its task is. */
  lemma CancellableIff(concurrency: int, steps: seq<Step>)
    requires Valid(Init(concurrency), steps)
    ensures AlwaysReached(Init(concurrency), steps) <==> !EverDoubles(Init(concurrency), steps)
  {
    NobodyLive(concurrency);
    ReachedRun(Init(concurrency), steps, concurrency);
  }

  /** Then a cancel reaches exactly the task's live job. */
  lemma CancelReaches(concurrency: int, steps: seq<Step>, t: nat, j: nat)
    requires Valid(Init(concurrency), steps) && !EverDoubles(Init(concurrency), steps)
    requires Run(Init(concurrency), steps).starting.None?
    ensures var s := Run(Init(concurrency), steps);
            j in Apply(s, Cancel(t)).cancelled
            <==> j in s.cancelled || (AtStage(s, j, Live) && s.jobs[j].task == t)
  {
    NobodyLive(concurrency);
    RunInv(Init(concurrency), steps, concurrency);
    ReachedRun(Init(concurrency), steps, concurrency);
    hide CountedJobs;
  }

  /** Otherwise it can miss: a task assigned twice, the first run's end, and a live second
      run whose cancel does nothing. */
  lemma DuplicateLosesCancel(concurrency: int, t: nat) returns (steps: seq<Step>)
    ensures Valid(Init(concurrency), steps)
    ensures var s := Run(Init(concurrency), steps);
            AtStage(s, 1, Live) && s.jobs[1].task == t && s.starting.None? && Apply(s, Cancel(t)) == s
  {
    var s0, start := Init(concurrency), [Claim(t), CountUp, Enlist];
    RunOfThree(s0, Claim(t), CountUp, Enlist);
    var s1 := Run(s0, start);
    RunOfThree(s1, Claim(t), CountUp, Enlist);
    var s2 := Run(s1, start);
    RunOfOne(s2, Unlist(0));
    RunConcat(s1, start, [Unlist(0)]);
    RunConcat(s0, start, start + [Unlist(0)]);
    steps := start + (start + [Unlist(0)]);
  }

  lemma RunOfOne(s: State, a: Step)
    requires Enabled(s, a)
    ensures Valid(s, [a]) && Run(s, [a]) == Apply(s, a)
  {
    assert [a][1..] == [] && Valid(Apply(s, a), []);
  }

  lemma {:induction false} RunConcat(s: State, a: seq<Step>, b: seq<Step>)
    requires Valid(s, a) && Valid(Run(s, a), b)
    ensures Valid(s, a + b) && Run(s, a + b) == Run(Run(s, a), b)
    decreases |a|
  {
    if a == [] {
      assert a + b == b;
    } else {
      assert (a + b)[1..] == a[1..] + b && (a + b)[0] == a[0];
      RunConcat(Apply(s, a[0]), a[1..], b);
    }
  }

  // ---- in place -----------------------------------------------------------------------------

  lemma RunOfThree(s: State, a: Step, b: Step, c: Step)
    requires Enabled(s, a) && Enabled(Apply(s, a), b) && Enabled(Apply(Apply(s, a), b), c)
    ensures Valid(s, [a, b, c]) && Run(s, [a, b, c]) == Apply(Apply(Apply(s, a), b), c)
  {
    var s1 := Apply(s, a);
    var s2 := Apply(s1, b);
    var s3 := Apply(s2, c);
    hide Enabled, Apply;
    assert [a, b, c][1..] == [b, c] && [b, c][1..] == [c] && [c][1..] == [];
    assert Valid(s3, []) && Run(s3, []) == s3;
    assert Valid(s2, [c]) && Run(s2, [c]) == s3;
    assert Valid(s1, [b, c]) && Run(s1, [b, c]) == s3;
  }

  /** `started` numbers the cancel functions as they are made. */
  class Worker {
    var freeSlots: int
    var runningCount: int
    var running: map<nat, nat>
    var started: nat
    var cancelled: set<nat>
    const outbox: WR.Outbox

    constructor (concurrency: int, outbox: WR.Outbox)
      ensures Shows(Init(concurrency)) && this.outbox == outbox
    {
      freeSlots, runningCount, running, started, cancelled := concurrency, 0, map[], 0, {};
      this.outbox := outbox;
    }

    /** What the worker holds of the machine's state. */
    ghost predicate Shows(s: State)
      reads this
    {
      s.free == freeSlots && s.count == runningCount && s.table == running && s.next == started && s.cancelled == cancelled
    }

    method SendUpdate(t: nat, state: WR.TaskState, error: string, errorClass: string)
      modifies outbox
      ensures outbox.sent == old(outbox.sent) + [WR.Update(t, state, error, errorClass)]
    {
      outbox.Send(WR.Update(t, state, error, errorClass));
    }

    /** The receive loop's part of a run is three steps of the machine, then ACCEPTED and
        RUNNING. */
    method StartTask(t: nat, ghost s: State)
      requires Shows(s) && s.starting.None?
      modifies this, outbox
      ensures var steps := [Claim(t), CountUp, Enlist];
              Valid(s, steps) && Shows(Run(s, steps)) && AtStage(Run(s, steps), s.next, Live)
      ensures outbox.sent == old(outbox.sent) + WR.Head(t)
    {
      RunOfThree(s, Claim(t), CountUp, Enlist);
      freeSlots := freeSlots - 1;
      runningCount := runningCount + 1;
      running := running[t := started];
      started := started + 1;
      SendUpdate(t, WR.Accepted, "", "");
      SendUpdate(t, WR.Running, "", "");
    }

    /** The end of a run's goroutine: its final update, then its bookkeeping undone. */
    method Finish(t: nat, res: WR.Result, ghost s: State, ghost j: nat)
      requires Shows(s) && AtStage(s, j, Live) && s.jobs[j].task == t
      modifies this, outbox
      ensures var steps := [Unlist(j), CountDown(j), GiveBack(j)];
              Valid(s, steps) && Shows(Run(s, steps)) && Run(s, steps).jobs == s.jobs - {j}
      ensures outbox.sent == old(outbox.sent) + [WR.Final(t, res)]
    {
      RunOfThree(s, Unlist(j), CountDown(j), GiveBack(j));
      SendUpdate(t, res.state, res.error, res.errorClass);
      running := running - {t};
      runningCount := runningCount - 1;
      freeSlots := freeSlots + 1;
    }

    method CancelTask(t: nat, ghost s: State)
      requires Shows(s) && s.starting.None?
      modifies this`cancelled
      ensures Shows(Apply(s, Cancel(t)))
    {
      if t in running {
        cancelled := cancelled + {running[t]};
      }
    }
  }
}
