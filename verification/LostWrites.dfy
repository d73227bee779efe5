// The dispatcher ignores a failed status update of a row it cannot build and decides on a
// retry all the same. How the failures of a row then stand against its failing writes.
module LostWrites {
  import opened Options
  import opened TaskTable
  import opened TaskLifecycle
  import RP = RetryPolicy

  /** When the row was written as failing. */
  function FailingTimes(ws: seq<Write>): seq<int> {
    if ws == [] then []
    else
      var last := ws[|ws| - 1];
      FailingTimes(ws[..|ws| - 1]) + (if IsFailing(last.status) then [last.at] else [])
  }

  lemma FailingNext(ws: seq<Write>, w: Write)
    ensures FailingTimes(ws + [w]) == if IsFailing(w.status) then FailingTimes(ws) + [w.at] else FailingTimes(ws)
  {
    assert (ws + [w])[..|ws|] == ws;
  }

  /** The row's failure is noted by the dispatcher and not saved. */
  predicate Loses(w: World, a: Step, id: nat) {
    a.BuildFailLost? && w.pass != [] && w.pass[0] == id
  }

  ghost predicate EverLoses(w: World, steps: seq<Step>, id: nat)
    requires Valid(w, steps)
    decreases |steps|
  {
    steps != [] && (Loses(w, steps[0], id) || EverLoses(Apply(w, steps[0]), steps[1..], id))
  }

  /** How many failures of the row are not among its writes. */
  function Unwritten(w: World, id: nat): int {
    if id in w.tasks then |w.tasks[id].failedAt| - |FailingTimes(w.tasks[id].writes)| else 0
  }

  predicate AllWritten(w: World, id: nat) {
    id in w.tasks ==> w.tasks[id].failedAt == FailingTimes(w.tasks[id].writes)
  }

  lemma RecordedWrites(e: Entry, wr: Write)
    ensures var r := Recorded(e, wr);
            && |r.failedAt| - |FailingTimes(r.writes)| == |e.failedAt| - |FailingTimes(e.writes)|
            && (e.failedAt == FailingTimes(e.writes) ==> r.failedAt == FailingTimes(r.writes))
  {
    FailingNext(e.writes, wr);
  }

  predicate WritesRow(a: Step) {
    a.Report? || a.Cancel? || a.BuildFail?
  }

  /** The row a step writes, and the write. */
  function RowWritten(w: World, a: Step): (nat, Write)
    requires Enabled(w, a) && WritesRow(a)
  {
    match a
    case BuildFail(error) => (w.pass[0], Write(Failed, error, "build_assign", "", w.now))
    case Report(id, status, error, errorClass, worker) => (id, Write(status, error, errorClass, worker, w.now))
    case Cancel(id) => (id, Write(Cancelled, "cancelled by user", "", "", w.now))
  }

  lemma WritingStep(w: World, a: Step)
    requires Enabled(w, a) && WritesRow(a)
    ensures var (id, wr) := RowWritten(w, a);
            id in w.tasks && Apply(w, a).tasks == w.tasks[id := Recorded(w.tasks[id], wr)]
  {
  }

  lemma OtherStep(w: World, a: Step, id: nat)
    requires Enabled(w, a) && !WritesRow(a) && !Loses(w, a, id) && w.nextId !in w.tasks
    ensures var e := Apply(w, a);
            if id in w.tasks then
              id in e.tasks && e.tasks[id].writes == w.tasks[id].writes && e.tasks[id].failedAt == w.tasks[id].failedAt
            else id in e.tasks ==> e.tasks[id].writes == [] && e.tasks[id].failedAt == []
  {
    hide RP.Decide, RP.PolicyOf;
  }

  lemma UnwrittenStep(w: World, a: Step, id: nat)
    requires Inv(w) && Enabled(w, a)
    ensures Unwritten(Apply(w, a), id) == Unwritten(w, id) + (if Loses(w, a, id) then 1 else 0)
    ensures AllWritten(w, id) && !Loses(w, a, id) ==> AllWritten(Apply(w, a), id)
  {
    assert w.nextId !in w.tasks;
    assert FailingTimes([]) == [];
    if WritesRow(a) {
      WritingStep(w, a);
      var (j, wr) := RowWritten(w, a);
      RecordedWrites(w.tasks[j], wr);
      hide Inv, Apply, FailingTimes, Recorded;
    } else if !Loses(w, a, id) {
      OtherStep(w, a, id);
      hide Inv, Apply, FailingTimes;
    } else {
      hide Inv, FailingTimes;
    }
  }

  lemma {:induction false} UnwrittenRun(w: World, steps: seq<Step>, id: nat)
    requires Inv(w) && Valid(w, steps)
    ensures Unwritten(Run(w, steps), id) >= Unwritten(w, id)
    ensures Unwritten(Run(w, steps), id) == Unwritten(w, id) <==> !EverLoses(w, steps, id)
    ensures AllWritten(w, id) && !EverLoses(w, steps, id) ==> AllWritten(Run(w, steps), id)
    decreases |steps|
  {
    if steps != [] {
      UnwrittenStep(w, steps[0], id);
      StepInv(w, steps[0]);
      UnwrittenRun(Apply(w, steps[0]), steps[1..], id);
    }
    hide Inv, Apply, Enabled, Unwritten, AllWritten, Loses;
  }

  /** In every run a row's failures are its failing writes, no more and in order, exactly
      when no failure of it was lost. */
  lemma FailuresAreWrittenIff(steps: seq<Step>, id: nat)
    requires Valid(INIT, steps) && id in Run(INIT, steps).tasks
    ensures var e := Run(INIT, steps).tasks[id];
            && |FailingTimes(e.writes)| <= |e.failedAt|
            && (e.failedAt == FailingTimes(e.writes) <==> !EverLoses(INIT, steps, id))
  {
    UnwrittenRun(INIT, steps, id);
  }

  /** So without a lost one, a row has no more children than failing writes. */
  lemma ChildrenOfWrittenFailures(steps: seq<Step>, id: nat)
    requires Valid(INIT, steps) && id in Run(INIT, steps).tasks && !EverLoses(INIT, steps, id)
    ensures |Children(Run(INIT, steps).tasks, id)| <= |FailingTimes(Run(INIT, steps).tasks[id].writes)|
  {
    FailuresAreWrittenIff(steps, id);
    BoundedLineages(steps, id);
  }

  /** With none lost, rows written as failing at most once make lineages of at most 100. */
  lemma LineageOfWrittenFailures(steps: seq<Step>, root: nat)
    requires Valid(INIT, steps)
    requires forall id :: id in Run(INIT, steps).tasks ==>
               !EverLoses(INIT, steps, id) && |FailingTimes(Run(INIT, steps).tasks[id].writes)| <= 1
    ensures |Lineage(Run(INIT, steps).tasks, root)| <= 100
  {
    forall id | id in Run(INIT, steps).tasks
      ensures |Run(INIT, steps).tasks[id].failedAt| <= 1
    {
      FailuresAreWrittenIff(steps, id);
    }
    LineageAtMost100(steps, root);
  }

  /** And a retry waits for its root's first failing write plus the decided delays. */
  lemma PacingByWrittenFailures(steps: seq<Step>, id: nat, h: int)
    requires Valid(INIT, steps) && id in Run(INIT, steps).tasks && h in Run(INIT, steps).tasks[id].handedAt
    requires Run(INIT, steps).tasks[id].ident.parent != 0 && !EverLoses(INIT, steps, Root(Run(INIT, steps).tasks, id))
    ensures var tasks := Run(INIT, steps).tasks;
            var r := Root(tasks, id);
            && r in tasks && FailingTimes(tasks[r].writes) != []
            && h >= FailingTimes(tasks[r].writes)[0] + TotalDelay(tasks, id)
  {
    RetryPacing(steps, id, h);
    FailuresAreWrittenIff(steps, Root(Run(INIT, steps).tasks, id));
  }

  // ---- without that, there is no bound ------------------------------------------------

  /** A spider that retries rows the dispatcher cannot build. */
  const BUILD_RETRY := RP.Retry(RP.Num(2), RP.Absent, RP.Absent, RP.Absent, RP.List([RP.Str("build_assign")]))

  lemma BuildIsRetried()
    ensures RP.Decide(RP.PolicyOf(BUILD_RETRY), 1, "build_assign", 0).0
  {
    RP.NormalStays("build_assign");
    var items := [RP.Str("build_assign")];
    assert items[0].Str? && RP.Normal(items[0].s) == "build_assign";
    RP.AllowedIff(items, "build_assign");
    RP.DecideIff(BUILD_RETRY, 1, "build_assign", 0);
  }

  /** Row 1 still queued, never written, with `n` retries. */
  predicate PiledUp(w: World, n: nat) {
    && 1 in w.tasks && w.pass == [] && w.nextId > 1 && w.nextId !in w.tasks && |Children(w.tasks, 1)| == n
    && w.tasks[1].ident.parent == 0 && w.tasks[1].ident.attempt == 1 && w.tasks[1].ident.notBefore.None?
    && w.tasks[1].writes == [] && w.tasks[1].awaiting == []
    && (forall id :: id in w.tasks ==> id < w.nextId)
  }

  lemma {:induction false} Then(w: World, steps: seq<Step>, a: Step)
    requires Valid(w, steps) && Enabled(Run(w, steps), a)
    ensures Valid(w, steps + [a]) && Run(w, steps + [a]) == Apply(Run(w, steps), a)
    decreases |steps|
  {
    if steps == [] {
      assert [a][1..] == [] && Valid(Apply(w, a), []);
    } else {
      assert (steps + [a])[1..] == steps[1..] + [a] && (steps + [a])[0] == steps[0];
      Then(Apply(w, steps[0]), steps[1..], a);
    }
  }

  /** One more pass over the row. */
  lemma OneMore(w: World, n: nat)
    requires PiledUp(w, n)
    ensures Enabled(w, List([1]))
    ensures var w1 := Apply(w, List([1]));
            && Enabled(w1, BuildFailLost)
            && var w2 := Apply(w1, BuildFailLost);
            && Enabled(w2, Decided(1, 0, BUILD_RETRY, 0)) && PiledUp(Apply(w2, Decided(1, 0, BUILD_RETRY, 0)), n + 1)
  {
    BuildIsRetried();
    hide RP.Decide, RP.PolicyOf;
    var w1 := Apply(w, List([1]));
    var w2 := Apply(w1, BuildFailLost);
    var w3 := Apply(w2, Decided(1, 0, BUILD_RETRY, 0));
    assert Children(w3.tasks, 1) == Children(w.tasks, 1) + {w.nextId};
  }

  lemma {:induction false} PilesUp(n: nat) returns (steps: seq<Step>)
    ensures Valid(INIT, steps) && PiledUp(Run(INIT, steps), n)
  {
    if n == 0 {
      var queue := Queue(1, Manual, 1, "");
      steps := [];
      Then(INIT, steps, queue);
      steps := steps + [queue];
      assert Children(Run(INIT, steps).tasks, 1) == {};
    } else {
      var before := PilesUp(n - 1);
      OneMore(Run(INIT, before), n - 1);
      hide Run, Valid, Apply, Enabled, PiledUp;
      Then(INIT, before, List([1]));
      Then(INIT, before + [List([1])], BuildFailLost);
      Then(INIT, before + [List([1])] + [BuildFailLost], Decided(1, 0, BUILD_RETRY, 0));
      steps := before + [List([1])] + [BuildFailLost] + [Decided(1, 0, BUILD_RETRY, 0)];
    }
  }

  /** A row whose failure is lost every time stays queued and gets a retry every time: for
      any number there is a run that gives it so many children and not one write. */
  lemma LostFailuresPileUp(n: nat) returns (steps: seq<Step>)
    ensures Valid(INIT, steps)
    ensures var tasks := Run(INIT, steps).tasks;
            1 in tasks && tasks[1].writes == [] && RowOf(tasks[1]).status.Queued? && |Children(tasks, 1)| == n
  {
    steps := PilesUp(n);
  }
}
