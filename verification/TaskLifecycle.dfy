// The life of task rows under the master: queueing, dispatch passes, worker
// reports, user cancels and scheduled retries, one step per database statement,
// in any interleaving and with the spider config edited at will in between.
module TaskLifecycle {
  import opened Options
  import opened TaskTable
  import RP = RetryPolicy

  /** A row as its INSERT plus every later write, with what the service did with it:
      when it was handed to a worker, when it was failed, whether or not that write was
      saved, the error classes of failures whose retry is still being decided, and the
      delay decided for it when it was created. */
  datatype Entry = Entry(ident: Identity, writes: seq<Write>, handedAt: seq<int>, failedAt: seq<int>, awaiting: seq<string>,
                         delay: int)

  /** `pass` is what is left of the dispatcher's current listing. */
  datatype World = World(tasks: map<nat, Entry>, nextId: nat, now: int, pass: seq<nat>)

  const INIT := World(map[], 1, 0, [])

  datatype Step =
    | Tick(elapsed: nat)
    | Queue(spider: int, trigger: Trigger, version: int, args: string)
    | List(ids: seq<nat>)
    | Hand                           // the hub takes the next row of the pass
    | BuildFail(error: string)       // the next row cannot be built
    | BuildFailLost                  // nor can its failure be saved; the retry is decided all the same
    | Break                          // no worker has capacity
    | Report(id: nat, status: Status, error: string, errorClass: string, worker: string)
    | Cancel(id: nat)
    | Decided(id: nat, k: nat, cfg: RP.Config, wild: RP.Int64)
    | Dropped(id: nat, k: nat)       // a lookup or the INSERT failed

  function RowOf(e: Entry): Row {
    Written(Inserted(e.ident), e.writes)
  }

  function Rows(w: World): map<nat, Row> {
    map id | id in w.tasks :: RowOf(w.tasks[id])
  }

  predicate IsFailing(s: Status) {
    s.Failed? || s.Timeout?
  }

  /** A worker reports only rows it was handed. */
  predicate Enabled(w: World, a: Step) {
    match a
    case List(ids) => w.pass == [] && forall id :: id in ids ==> id in w.tasks && Eligible(RowOf(w.tasks[id]), w.now)
    case Hand => w.pass != [] && w.pass[0] in w.tasks
    case BuildFail(_) => w.pass != [] && w.pass[0] in w.tasks
    case BuildFailLost => w.pass != [] && w.pass[0] in w.tasks
    case Report(id, status, _, _, _) => id in w.tasks && w.tasks[id].handedAt != [] && !status.Queued?
    case Cancel(id) => id in w.tasks
    case Decided(id, k, _, _) => id in w.tasks && k < |w.tasks[id].awaiting|
    case Dropped(id, k) => id in w.tasks && k < |w.tasks[id].awaiting|
    case _ => true
  }

  function Recorded(e: Entry, wr: Write): Entry {
    if IsFailing(wr.status) then Faulted(e, wr.errorClass, wr.at).(writes := e.writes + [wr])
    else e.(writes := e.writes + [wr])
  }

  /** A failure of the row, its retry still to be decided. */
  function Faulted(e: Entry, errorClass: string, at: int): Entry {
    e.(failedAt := e.failedAt + [at], awaiting := e.awaiting + [errorClass])
  }

  function Settled(e: Entry, k: nat): Entry
    requires k < |e.awaiting|
  {
    e.(awaiting := e.awaiting[..k] + e.awaiting[k + 1..])
  }

  function Attempt(e: Entry): int {
    if e.ident.attempt < 1 then 1 else e.ident.attempt
  }

  /** The child row that a retry decision inserts. */
  function Child(parent: nat, e: Entry, now: int, delay: int): Entry {
    Entry(Identity(e.ident.spider, parent, Retry, e.ident.version, e.ident.args, Attempt(e) + 1, now, Some(now + delay)),
          [], [], [], [], delay)
  }

  function Apply(w: World, a: Step): World
    requires Enabled(w, a)
  {
    match a
    case Tick(d) => w.(now := w.now + d)
    case Queue(spider, trigger, version, args) =>
      var e := Entry(Identity(spider, 0, trigger, version, args, 1, w.now, None), [], [], [], [], 0);
      w.(tasks := w.tasks[w.nextId := e], nextId := w.nextId + 1)
    case List(ids) => w.(pass := ids)
    case Hand =>
      var id := w.pass[0];
      w.(tasks := w.tasks[id := w.tasks[id].(handedAt := w.tasks[id].handedAt + [w.now])], pass := w.pass[1..])
    case BuildFail(error) =>
      var id := w.pass[0];
      w.(tasks := w.tasks[id := Recorded(w.tasks[id], Write(Failed, error, "build_assign", "", w.now))], pass := w.pass[1..])
    case BuildFailLost =>
      var id := w.pass[0];
      w.(tasks := w.tasks[id := Faulted(w.tasks[id], "build_assign", w.now)], pass := w.pass[1..])
    case Break => w.(pass := [])
    case Report(id, status, error, errorClass, worker) =>
      w.(tasks := w.tasks[id := Recorded(w.tasks[id], Write(status, error, errorClass, worker, w.now))])
    case Cancel(id) =>
      w.(tasks := w.tasks[id := Recorded(w.tasks[id], Write(Cancelled, "cancelled by user", "", "", w.now))])
    case Decided(id, k, cfg, wild) =>
      var e := w.tasks[id];
      var (retry, delay) := RP.Decide(RP.PolicyOf(cfg), Attempt(e), e.awaiting[k], wild);
      var settled := w.tasks[id := Settled(e, k)];
      if retry then w.(tasks := settled[w.nextId := Child(id, e, w.now, delay)], nextId := w.nextId + 1)
      else w.(tasks := settled)
    case Dropped(id, k) =>
      w.(tasks := w.tasks[id := Settled(w.tasks[id], k)])
  }

  ghost predicate Valid(w: World, steps: seq<Step>)
    decreases |steps|
  {
    steps == [] || (Enabled(w, steps[0]) && Valid(Apply(w, steps[0]), steps[1..]))
  }

  ghost function Run(w: World, steps: seq<Step>): World
    requires Valid(w, steps)
    decreases |steps|
  {
    if steps == [] then w else Run(Apply(w, steps[0]), steps[1..])
  }

  // ---- failures -------------------------------------------------------------------

  function FirstFailure(e: Entry): Option<int> {
    if e.failedAt == [] then None else Some(e.failedAt[0])
  }

  lemma Appended(ws: seq<Write>, wr: Write)
    ensures forall r :: Written(r, ws + [wr]) == Updated(Written(r, ws), wr)
  {
    assert (ws + [wr])[..|ws|] == ws;
  }

  // ---- what every step keeps ------------------------------------------------------

  /** The row's `not_before` has passed. */
  predicate Due(e: Entry, now: int) {
    e.ident.notBefore.None? || e.ident.notBefore.value <= now
  }

  ghost predicate Local(e: Entry, now: int) {
    && 1 <= e.ident.attempt <= 100
    && (e.writes != [] ==> !RowOf(e).status.Queued?)
    && (e.failedAt != [] ==> e.failedAt[0] <= now && Due(e, now))
    && (forall h :: h in e.handedAt ==> h <= now && Due(e, h))
  }

  /** A retry row against its parent: same work, next attempt, and not before the
      parent's first failure, nor the parent's own gate, plus the decided delay. */
  ghost predicate Linked(tasks: map<nat, Entry>, id: nat)
    requires id in tasks
  {
    var c := tasks[id];
    if c.ident.parent == 0 then c.ident.attempt == 1 && c.ident.notBefore.None?
    else
      && c.ident.parent < id && c.ident.parent in tasks
      && c.ident.notBefore.Some?
      && var p := tasks[c.ident.parent];
      && c.ident.spider == p.ident.spider && c.ident.version == p.ident.version && c.ident.args == p.ident.args
      && c.ident.attempt == p.ident.attempt + 1
      && p.failedAt != []
      && c.ident.notBefore.value >= p.failedAt[0] + c.delay
      && (p.ident.notBefore.Some? ==> c.ident.notBefore.value >= p.ident.notBefore.value + c.delay)
  }

  function Children(tasks: map<nat, Entry>, id: nat): set<nat> {
    set c | c in tasks && tasks[c].ident.parent == id
  }

  ghost predicate Counted(tasks: map<nat, Entry>, id: nat)
    requires id in tasks
  {
    |Children(tasks, id)| + |tasks[id].awaiting| <= |tasks[id].failedAt|
  }

  ghost predicate Inv(w: World) {
    && w.nextId > 0
    && (forall id :: id in w.tasks ==> 0 < id < w.nextId)
    && (forall id :: id in w.tasks ==> Local(w.tasks[id], w.now))
    && (forall id :: id in w.tasks ==> Linked(w.tasks, id))
    && (forall id :: id in w.tasks ==> Counted(w.tasks, id))
    && (forall id :: id in w.pass ==> id in w.tasks && Due(w.tasks[id], w.now))
  }

  /** `e` may replace `d`: same identity, a first failure stays, and every retry
      decision under way is owed to a failure. */
  ghost predicate Follows(d: Entry, e: Entry) {
    && e.ident == d.ident && e.delay == d.delay
    && (d.failedAt != [] ==> e.failedAt != [] && e.failedAt[0] == d.failedAt[0])
    && |e.awaiting| - |d.awaiting| <= |e.failedAt| - |d.failedAt|
  }

  lemma LinkedAfterReplace(tasks: map<nat, Entry>, id: nat, e: Entry, j: nat)
    requires id in tasks && Follows(tasks[id], e) && j in tasks && Linked(tasks, j)
    ensures Linked(tasks[id := e], j)
  {
  }

  lemma CountedAfterReplace(tasks: map<nat, Entry>, id: nat, e: Entry, j: nat)
    requires id in tasks && Follows(tasks[id], e) && j in tasks && Counted(tasks, j)
    ensures Counted(tasks[id := e], j)
  {
    assert Children(tasks[id := e], j) == Children(tasks, j);
  }

  lemma FollowsKeeps(d: Entry, e: Entry)
    requires Follows(d, e)
    ensures e.ident == d.ident
  {
  }

  lemma Replaced(w: World, id: nat, e: Entry)
    requires Inv(w) && id in w.tasks && Follows(w.tasks[id], e) && Local(e, w.now)
    ensures Inv(w.(tasks := w.tasks[id := e]))
  {
    hide Linked, Counted, Local, Follows;
    assert e.ident == w.tasks[id].ident by { FollowsKeeps(w.tasks[id], e); }
    forall j | j in w.tasks
      ensures Linked(w.tasks[id := e], j) && Counted(w.tasks[id := e], j)
    {
      LinkedAfterReplace(w.tasks, id, e, j);
      CountedAfterReplace(w.tasks, id, e, j);
    }
  }

  lemma FaultedFits(e: Entry, errorClass: string, now: int)
    requires Local(e, now) && Due(e, now)
    ensures Follows(e, Faulted(e, errorClass, now)) && Local(Faulted(e, errorClass, now), now)
  {
  }

  lemma RecordedFits(e: Entry, wr: Write, now: int)
    requires Local(e, now) && wr.at == now && !wr.status.Queued? && (IsFailing(wr.status) ==> Due(e, now))
    ensures Follows(e, Recorded(e, wr)) && Local(Recorded(e, wr), now)
  {
    Appended(e.writes, wr);
    hide Written;
  }

  lemma RecordedInv(w: World, id: nat, wr: Write)
    requires Inv(w) && id in w.tasks && wr.at == w.now && !wr.status.Queued?
    requires IsFailing(wr.status) ==> Due(w.tasks[id], w.now)
    ensures Inv(w.(tasks := w.tasks[id := Recorded(w.tasks[id], wr)]))
  {
    assert Local(w.tasks[id], w.now);
    RecordedFits(w.tasks[id], wr, w.now);
    hide Local, Follows, Recorded;
    Replaced(w, id, Recorded(w.tasks[id], wr));
  }

  lemma SettledInv(w: World, id: nat, k: nat)
    requires Inv(w) && id in w.tasks && k < |w.tasks[id].awaiting|
    ensures Inv(w.(tasks := w.tasks[id := Settled(w.tasks[id], k)]))
  {
    assert Local(w.tasks[id], w.now);
    Replaced(w, id, Settled(w.tasks[id], k));
  }

  lemma CountedAfterInsert(tasks: map<nat, Entry>, id: nat, e: Entry, j: nat)
    requires id !in tasks && j in tasks && Counted(tasks, j)
    requires e.ident.parent == j ==> |Children(tasks, j)| + |tasks[j].awaiting| < |tasks[j].failedAt|
    ensures Counted(tasks[id := e], j)
  {
    assert Children(tasks[id := e], j) == Children(tasks, j) + if e.ident.parent == j then {id} else {};
  }

  lemma LinkedAfterInsert(tasks: map<nat, Entry>, id: nat, e: Entry, j: nat)
    requires id !in tasks && j in tasks && Linked(tasks, j)
    ensures Linked(tasks[id := e], j)
  {
  }

  lemma FreshIsCounted(w: World, e: Entry)
    requires Inv(w) && e.ident.parent < w.nextId && e.awaiting == []
    ensures Counted(w.tasks[w.nextId := e], w.nextId)
  {
    hide Local, Counted;
    FreshHasNoChildren(w, e);
    NoChildrenIsCounted(w.tasks[w.nextId := e], w.nextId);
  }

  lemma NoChildrenIsCounted(tasks: map<nat, Entry>, id: nat)
    requires id in tasks && Children(tasks, id) == {} && tasks[id].awaiting == []
    ensures Counted(tasks, id)
  {
  }

  lemma FreshHasNoChildren(w: World, e: Entry)
    requires Inv(w) && e.ident.parent < w.nextId
    ensures Children(w.tasks[w.nextId := e], w.nextId) == {}
  {
    hide Local, Counted;
    forall c | c in w.tasks
      ensures w.tasks[c].ident.parent != w.nextId
    {
      assert Linked(w.tasks, c);
    }
  }

  /** Inserting a row with the next id. */
  lemma InsertedInv(w: World, e: Entry)
    requires Inv(w) && Local(e, w.now) && e.awaiting == [] && e.ident.parent < w.nextId
    requires Linked(w.tasks[w.nextId := e], w.nextId)
    requires e.ident.parent in w.tasks ==>
               var p := w.tasks[e.ident.parent];
               |Children(w.tasks, e.ident.parent)| + |p.awaiting| < |p.failedAt|
    ensures Inv(w.(tasks := w.tasks[w.nextId := e], nextId := w.nextId + 1))
  {
    hide Linked, Counted, Local, Children;
    FreshIsCounted(w, e);
    forall j | j in w.tasks
      ensures Linked(w.tasks[w.nextId := e], j) && Counted(w.tasks[w.nextId := e], j)
    {
      LinkedAfterInsert(w.tasks, w.nextId, e, j);
      CountedAfterInsert(w.tasks, w.nextId, e, j);
    }
  }

  /** The child of a failed row, against a table where the decision is settled. */
  lemma ChildFits(w: World, id: nat, k: nat, delay: int)
    requires Inv(w) && id in w.tasks && k < |w.tasks[id].awaiting| && w.tasks[id].ident.attempt < 100
    ensures var settled, c := w.tasks[id := Settled(w.tasks[id], k)], Child(id, w.tasks[id], w.now, delay);
            && Local(c, w.now) && Linked(settled[w.nextId := c], w.nextId)
            && |Children(settled, id)| + |settled[id].awaiting| < |settled[id].failedAt|
  {
    var e := w.tasks[id];
    var settled := w.tasks[id := Settled(e, k)];
    assert Counted(w.tasks, id) && Local(e, w.now);
    assert Children(settled, id) == Children(w.tasks, id);
  }

  lemma DecidedInv(w: World, id: nat, k: nat, cfg: RP.Config, wild: RP.Int64)
    requires Inv(w) && Enabled(w, Decided(id, k, cfg, wild))
    ensures Inv(Apply(w, Decided(id, k, cfg, wild)))
  {
    var e := w.tasks[id];
    var (retry, delay) := RP.Decide(RP.PolicyOf(cfg), Attempt(e), e.awaiting[k], wild);
    SettledInv(w, id, k);
    RP.DecideIsBounded(cfg, Attempt(e), e.awaiting[k], wild);
    hide Inv, RP.Decide, RP.PolicyOf;
    if retry {
      ChildInv(w, id, k, delay);
    }
  }

  lemma ChildInv(w: World, id: nat, k: nat, delay: int)
    requires Inv(w) && id in w.tasks && k < |w.tasks[id].awaiting| && Attempt(w.tasks[id]) < 100
    ensures var e := w.tasks[id];
            var settled := w.tasks[id := Settled(e, k)];
            Inv(w.(tasks := settled[w.nextId := Child(id, e, w.now, delay)], nextId := w.nextId + 1))
  {
    hide Linked, Counted;
    var e := w.tasks[id];
    assert Local(e, w.now);
    SettledInv(w, id, k);
    ChildFits(w, id, k, delay);
    InsertedInv(w.(tasks := w.tasks[id := Settled(e, k)]), Child(id, e, w.now, delay));
  }

  lemma ShorterPass(w: World)
    requires Inv(w) && w.pass != []
    ensures Inv(w.(pass := w.pass[1..]))
  {
    hide Local, Linked, Counted;
  }

  lemma HandedFits(e: Entry, now: int)
    requires Local(e, now) && Due(e, now)
    ensures var h := e.(handedAt := e.handedAt + [now]); Follows(e, h) && Local(h, now)
  {
  }

  lemma PassStepInv(w: World, a: Step)
    requires Inv(w) && Enabled(w, a) && (a.Hand? || a.BuildFail? || a.BuildFailLost?)
    ensures Inv(Apply(w, a))
  {
    var id := w.pass[0];
    var e, wp := w.tasks[id], w.(pass := w.pass[1..]);
    assert Local(e, w.now) && Due(e, w.now);
    ShorterPass(w);
    HandedFits(e, w.now);
    FaultedFits(e, "build_assign", w.now);
    hide Local, Follows, Recorded, Faulted, Inv, Due;
    if a.Hand? {
      Replaced(wp, id, e.(handedAt := e.handedAt + [w.now]));
    } else if a.BuildFailLost? {
      Replaced(wp, id, Faulted(e, "build_assign", w.now));
    } else {
      RecordedInv(wp, id, Write(Failed, a.error, "build_assign", "", w.now));
    }
  }

  lemma ReportInv(w: World, a: Step)
    requires Inv(w) && Enabled(w, a) && a.Report?
    ensures Inv(Apply(w, a))
  {
    var e := w.tasks[a.id];
    var h := e.handedAt[0];
    assert Local(e, w.now) && h in e.handedAt;
    assert Due(e, h) && h <= w.now;
    RecordedInv(w, a.id, Write(a.status, a.error, a.errorClass, a.worker, w.now));
  }

  lemma LocalLater(e: Entry, now: int, d: nat)
    requires Local(e, now)
    ensures Local(e, now + d)
  {
  }

  lemma TickInv(w: World, d: nat)
    requires Inv(w)
    ensures Inv(w.(now := w.now + d))
  {
    var w' := w.(now := w.now + d);
    forall id | id in w'.tasks
      ensures Local(w'.tasks[id], w'.now) && Linked(w'.tasks, id) && Counted(w'.tasks, id)
    {
      LocalLater(w.tasks[id], w.now, d);
      assert Linked(w.tasks, id) && Counted(w.tasks, id);
    }
  }

  lemma PassInv(w: World, a: Step)
    requires Inv(w) && Enabled(w, a) && (a.List? || a.Break?)
    ensures Inv(Apply(w, a))
  {
  }

  lemma RowStepInv(w: World, a: Step)
    requires Inv(w) && Enabled(w, a) && (a.Cancel? || a.Dropped?)
    ensures Inv(Apply(w, a))
  {
    if a.Cancel? {
      RecordedInv(w, a.id, Write(Cancelled, "cancelled by user", "", "", w.now));
    } else {
      SettledInv(w, a.id, a.k);
    }
  }

  lemma QueueInv(w: World, spider: int, trigger: Trigger, version: int, args: string)
    requires Inv(w)
    ensures Inv(Apply(w, Queue(spider, trigger, version, args)))
  {
    var e := Entry(Identity(spider, 0, trigger, version, args, 1, w.now, None), [], [], [], [], 0);
    assert 0 !in w.tasks;
    InsertedInv(w, e);
  }

  lemma StepInv(w: World, a: Step)
    requires Inv(w) && Enabled(w, a)
    ensures Inv(Apply(w, a))
  {
    match a
    case Tick(d) => TickInv(w, d);
    case Queue(spider, trigger, version, args) => QueueInv(w, spider, trigger, version, args);
    case List(_) => PassInv(w, a);
    case Break => PassInv(w, a);
    case Hand => PassStepInv(w, a);
    case BuildFail(_) => PassStepInv(w, a);
    case BuildFailLost => PassStepInv(w, a);
    case Report(_, _, _, _, _) => ReportInv(w, a);
    case Decided(id, k, cfg, wild) => DecidedInv(w, id, k, cfg, wild);
    case Cancel(_) => RowStepInv(w, a);
    case Dropped(_, _) => RowStepInv(w, a);
  }

  lemma {:induction false} RunInv(w: World, steps: seq<Step>)
    requires Inv(w) && Valid(w, steps)
    ensures Inv(Run(w, steps))
    decreases |steps|
  {
    if steps != [] {
      StepInv(w, steps[0]);
      RunInv(Apply(w, steps[0]), steps[1..]);
    }
  }

  // ---- bounded lineages -------------------------------------------------------------

  function Parent(tasks: map<nat, Entry>, id: nat): (p: nat)
    ensures p < id || p == 0
  {
    if id in tasks && tasks[id].ident.parent < id then tasks[id].ident.parent else 0
  }

  function Depth(tasks: map<nat, Entry>, id: nat): nat {
    if Parent(tasks, id) == 0 then 0 else Depth(tasks, Parent(tasks, id)) + 1
  }

  function Root(tasks: map<nat, Entry>, id: nat): nat {
    if Parent(tasks, id) == 0 then id else Root(tasks, Parent(tasks, id))
  }

  function TotalDelay(tasks: map<nat, Entry>, id: nat): int {
    if Parent(tasks, id) == 0 then 0 else TotalDelay(tasks, Parent(tasks, id)) + tasks[id].delay
  }

  /** The rows that descend from one row, itself included. */
  function Lineage(tasks: map<nat, Entry>, root: nat): set<nat> {
    set id | id in tasks && Root(tasks, id) == root
  }

  lemma {:induction false} AttemptIsDepth(w: World, id: nat)
    requires Inv(w) && id in w.tasks
    ensures w.tasks[id].ident.attempt == Depth(w.tasks, id) + 1
    ensures var r := Root(w.tasks, id);
            r in w.tasks && w.tasks[r].ident.parent == 0
            && w.tasks[r].ident.spider == w.tasks[id].ident.spider
            && w.tasks[r].ident.version == w.tasks[id].ident.version
            && w.tasks[r].ident.args == w.tasks[id].ident.args
  {
    assert Linked(w.tasks, id);
    if Parent(w.tasks, id) != 0 {
      AttemptIsDepth(w, Parent(w.tasks, id));
    }
  }

  /** In every run, lost writes included: an attempt is one more than the row's depth and
      stays within 1 to 100, a retry runs its lineage's spider, version and args, and no row
      has more children than times it was failed. */
  lemma BoundedLineages(steps: seq<Step>, id: nat)
    requires Valid(INIT, steps) && id in Run(INIT, steps).tasks
    ensures var tasks := Run(INIT, steps).tasks;
            var r := Root(tasks, id);
            && 1 <= tasks[id].ident.attempt == Depth(tasks, id) + 1 <= 100
            && r in tasks && tasks[r].ident.parent == 0
            && tasks[id].ident.spider == tasks[r].ident.spider
            && tasks[id].ident.version == tasks[r].ident.version
            && tasks[id].ident.args == tasks[r].ident.args
            && |Children(tasks, id)| <= |tasks[id].failedAt|
  {
    RunInv(INIT, steps);
    AttemptIsDepth(Run(INIT, steps), id);
    assert Counted(Run(INIT, steps).tasks, id) && Local(Run(INIT, steps).tasks[id], Run(INIT, steps).now);
  }

  /** With one child per row, a lineage has one row per attempt. */
  lemma {:induction false} AttemptsDistinct(w: World, a: nat, b: nat)
    requires Inv(w) && a in w.tasks && b in w.tasks
    requires forall id :: id in w.tasks ==> |w.tasks[id].failedAt| <= 1
    requires Root(w.tasks, a) == Root(w.tasks, b) && w.tasks[a].ident.attempt == w.tasks[b].ident.attempt
    ensures a == b
    decreases a
  {
    assert Linked(w.tasks, a) && Linked(w.tasks, b);
    var p, q := w.tasks[a].ident.parent, w.tasks[b].ident.parent;
    if p != 0 && q != 0 {
      AttemptsDistinct(w, p, q);
      assert Counted(w.tasks, p);
      OneElement(Children(w.tasks, p), a, b);
    } else if p != 0 {
      AttemptIsDepth(w, p);
    } else if q != 0 {
      AttemptIsDepth(w, q);
    }
  }

  lemma OneElement<T>(s: set<T>, a: T, b: T)
    requires |s| <= 1 && a in s && b in s
    ensures a == b
  {
    if a != b {
      assert |s - {a}| > 0 by {
        assert b in s - {a};
      }
    }
  }

  lemma {:induction false} InjectedIntoRange(s: set<nat>, attempt: nat -> int, n: nat)
    requires forall a :: a in s ==> 1 <= attempt(a) <= n
    requires forall a, b :: a in s && b in s && attempt(a) == attempt(b) ==> a == b
    ensures |s| <= n
  {
    if n == 0 {
      assert s == {};
    } else if top :| top in s && attempt(top) == n {
      InjectedIntoRange(s - {top}, attempt, n - 1);
    } else {
      InjectedIntoRange(s, attempt, n - 1);
    }
  }

  /** If each row is failed at most once, saved or not, one queued task gives at most 100 rows ever. */
  lemma LineageAtMost100(steps: seq<Step>, root: nat)
    requires Valid(INIT, steps)
    requires forall id :: id in Run(INIT, steps).tasks ==> |Run(INIT, steps).tasks[id].failedAt| <= 1
    ensures |Lineage(Run(INIT, steps).tasks, root)| <= 100
  {
    RunInv(INIT, steps);
    var w := Run(INIT, steps);
    var attempt := (id: nat) => if id in w.tasks then w.tasks[id].ident.attempt else 0;
    forall a, b | a in Lineage(w.tasks, root) && b in Lineage(w.tasks, root) && attempt(a) == attempt(b)
      ensures a == b
    {
      AttemptsDistinct(w, a, b);
    }
    forall a | a in Lineage(w.tasks, root)
      ensures 1 <= attempt(a) <= 100
    {
      assert Local(w.tasks[a], w.now);
    }
    InjectedIntoRange(Lineage(w.tasks, root), attempt, 100);
  }

  // ---- retry pacing -------------------------------------------------------------------

  lemma {:induction false} NotBeforeSum(w: World, id: nat)
    requires Inv(w) && id in w.tasks && w.tasks[id].ident.parent != 0
    ensures var r := Root(w.tasks, id);
            && r in w.tasks && FirstFailure(w.tasks[r]).Some?
            && w.tasks[id].ident.notBefore.Some?
            && w.tasks[id].ident.notBefore.value >= FirstFailure(w.tasks[r]).value + TotalDelay(w.tasks, id)
  {
    assert Linked(w.tasks, id);
    var p := w.tasks[id].ident.parent;
    assert Linked(w.tasks, p);
    if w.tasks[p].ident.parent != 0 {
      NotBeforeSum(w, p);
    }
  }

  /** In every run, a retry is never handed to a worker before its root's first failure
      plus all delays decided on the way to it. */
  lemma RetryPacing(steps: seq<Step>, id: nat, h: int)
    requires Valid(INIT, steps) && id in Run(INIT, steps).tasks && h in Run(INIT, steps).tasks[id].handedAt
    requires Run(INIT, steps).tasks[id].ident.parent != 0
    ensures var tasks := Run(INIT, steps).tasks;
            var r := Root(tasks, id);
            && r in tasks && FirstFailure(tasks[r]).Some?
            && h >= FirstFailure(tasks[r]).value + TotalDelay(tasks, id)
  {
    RunInv(INIT, steps);
    var w := Run(INIT, steps);
    NotBeforeSum(w, id);
    assert Local(w.tasks[id], w.now);
  }

  // ---- no row is dispatched after a listing that saw it written --------------------------

  lemma StepNotHanded(w: World, a: Step, id: nat)
    requires Inv(w) && Enabled(w, a) && id in w.tasks && w.tasks[id].writes != [] && id !in w.pass
    ensures var w' := Apply(w, a);
            id in w'.tasks && w'.tasks[id].writes != [] && id !in w'.pass
            && w'.tasks[id].handedAt == w.tasks[id].handedAt
  {
    assert Local(w.tasks[id], w.now);
  }

  /** Once a row has had a status write and is not in the current pass, no later pass
      hands it to a worker, however the run goes on. */
  lemma {:induction false} WrittenRowsAreNotHanded(w: World, steps: seq<Step>, id: nat)
    requires Inv(w) && Valid(w, steps) && id in w.tasks && w.tasks[id].writes != [] && id !in w.pass
    ensures id in Run(w, steps).tasks && Run(w, steps).tasks[id].handedAt == w.tasks[id].handedAt
    ensures !RowOf(Run(w, steps).tasks[id]).status.Queued?
    decreases |steps|
  {
    assert Local(w.tasks[id], w.now);
    if steps != [] {
      StepNotHanded(w, steps[0], id);
      StepInv(w, steps[0]);
      WrittenRowsAreNotHanded(Apply(w, steps[0]), steps[1..], id);
    }
  }
}
