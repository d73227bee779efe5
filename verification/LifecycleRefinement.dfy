// The service's operations against the lifecycle machine: queueing, cancelling, a worker's
// report with its retry decision and a whole dispatch pass are runs of its steps, so what
// every run keeps covers them. A worker is taken to report only tasks it was handed.
module LifecycleRefinement {
  import opened Options
  import RP = RetryPolicy
  import TL = TaskLifecycle
  import opened TaskTable
  import opened DispatchPlan
  import opened Reports
  import opened DispatchPass

  function TableOf(w: TL.World): Table {
    Table(TL.Rows(w), w.nextId)
  }

  lemma RecordedRows(w: TL.World, id: nat, wr: Write)
    requires id in w.tasks
    ensures var w1 := w.(tasks := w.tasks[id := TL.Recorded(w.tasks[id], wr)]);
            TL.Rows(w1) == TL.Rows(w)[id := Updated(TL.Rows(w)[id], wr)]
  {
    TL.Appended(w.tasks[id].writes, wr);
  }

  lemma SettledRows(tasks: map<nat, TL.Entry>, id: nat, k: nat)
    requires id in tasks && k < |tasks[id].awaiting|
    ensures forall n, now, pass :: TL.Rows(TL.World(tasks[id := TL.Settled(tasks[id], k)], n, now, pass))
                                   == TL.Rows(TL.World(tasks, n, now, pass))
  {
  }

  lemma InsertedRows(w: TL.World, e: TL.Entry, n: nat)
    requires e.writes == []
    ensures TL.Rows(w.(tasks := w.tasks[w.nextId := e], nextId := n)) == TL.Rows(w)[w.nextId := Inserted(e.ident)]
  {
  }

  /** Deciding on a recorded failure inserts the row RetryOf asks for. */
  lemma DecidedRows(w: TL.World, spiders: map<int, Spider>, id: nat, k: nat, cfg: RP.Config, db: Db)
    requires w.nextId !in w.tasks && TL.Enabled(w, TL.Decided(id, k, cfg, db.wild))
    requires db.parentRead && db.spiderRead && db.stored
    requires w.tasks[id].ident.spider in spiders && spiders[w.tasks[id].ident.spider].config == cfg
    ensures TL.Rows(TL.Apply(w, TL.Decided(id, k, cfg, db.wild)))
            == WithChild(TableOf(w), RetryOf(spiders, id, TL.Rows(w)[id], w.tasks[id].awaiting[k], w.now, db)).rows
  {
    hide RP.Decide;
    var e := w.tasks[id];
    IdentityKept(Inserted(e.ident), e.writes);
    SettledRows(w.tasks, id, k);
    var (retry, delay) := RP.Decide(RP.PolicyOf(cfg), TL.Attempt(e), e.awaiting[k], db.wild);
    if retry {
      InsertedRows(w.(tasks := w.tasks[id := TL.Settled(e, k)]), TL.Child(id, e, w.now, delay), w.nextId + 1);
    }
  }

  lemma DroppedRows(w: TL.World, id: nat, k: nat)
    requires TL.Enabled(w, TL.Dropped(id, k))
    ensures TL.Rows(TL.Apply(w, TL.Dropped(id, k))) == TL.Rows(w)
  {
    SettledRows(w.tasks, id, k);
  }

  /** What follows the report in the service: the decision, or nothing when the spider
      cannot be looked up. */
  function Settle(spiders: map<int, Spider>, e: TL.Entry, id: nat, k: nat, db: Db): TL.Step {
    if db.parentRead && db.spiderRead && db.stored && e.ident.spider in spiders then
      TL.Decided(id, k, spiders[e.ident.spider].config, db.wild)
    else TL.Dropped(id, k)
  }

  predicate SamePast(d: TL.Entry, e: TL.Entry) {
    e.ident == d.ident && e.handedAt == d.handedAt
  }

  /** Steps that hand nothing out, at one moment of one pass. */
  ghost predicate Frame(w: TL.World, e: TL.World) {
    && e.now == w.now && e.pass == w.pass
    && (forall j :: j in w.tasks ==> j in e.tasks && SamePast(w.tasks[j], e.tasks[j]))
  }

  lemma FrameTrans(a: TL.World, b: TL.World, c: TL.World)
    requires Frame(a, b) && Frame(b, c)
    ensures Frame(a, c)
  {
  }

  lemma DecidedTable(w: TL.World, spiders: map<int, Spider>, id: nat, k: nat, db: Db)
    requires w.nextId !in w.tasks && id in w.tasks && k < |w.tasks[id].awaiting|
    requires db.parentRead && db.spiderRead && db.stored && w.tasks[id].ident.spider in spiders
    ensures var e := TL.Apply(w, TL.Decided(id, k, spiders[w.tasks[id].ident.spider].config, db.wild));
            && TableOf(e) == WithChild(TableOf(w), RetryOf(spiders, id, TL.Rows(w)[id], w.tasks[id].awaiting[k], w.now, db))
            && Frame(w, e)
  {
    var e, cfg := w.tasks[id], spiders[w.tasks[id].ident.spider].config;
    IdentityKept(Inserted(e.ident), e.writes);
    assert TL.Rows(w)[id].ident == e.ident;
    DecidedRows(w, spiders, id, k, cfg, db);
    hide RP.Decide, RP.PolicyOf, TL.Rows;
  }

  lemma DroppedTable(w: TL.World, id: nat, k: nat)
    requires id in w.tasks && k < |w.tasks[id].awaiting|
    ensures TableOf(TL.Apply(w, TL.Dropped(id, k))) == TableOf(w) && Frame(w, TL.Apply(w, TL.Dropped(id, k)))
  {
    DroppedRows(w, id, k);
    hide TL.Rows;
  }

  /** What a settled decision changes: the table gains the retry, nothing is handed out. */
  lemma SettleTable(w: TL.World, spiders: map<int, Spider>, id: nat, k: nat, db: Db)
    requires w.nextId !in w.tasks && id in w.tasks && k < |w.tasks[id].awaiting|
    ensures TL.Enabled(w, Settle(spiders, w.tasks[id], id, k, db))
    ensures var e := TL.Apply(w, Settle(spiders, w.tasks[id], id, k, db));
            && TableOf(e) == WithChild(TableOf(w), RetryOf(spiders, id, TL.Rows(w)[id], w.tasks[id].awaiting[k], w.now, db))
            && Frame(w, e)
  {
    var e := w.tasks[id];
    IdentityKept(Inserted(e.ident), e.writes);
    if db.parentRead && db.spiderRead && db.stored && e.ident.spider in spiders {
      DecidedTable(w, spiders, id, k, db);
      hide RetryOf, TL.Apply, TL.Rows, WithChild, Frame;
    } else {
      DroppedTable(w, id, k);
      assert RetryOf(spiders, id, TL.Rows(w)[id], e.awaiting[k], w.now, db).None?;
      hide RetryOf, TL.Apply, TL.Rows, Frame;
    }
  }

  lemma SameIdentity(w: TL.World, id: nat, wr: Write)
    requires id in w.tasks
    ensures TL.Rows(w)[id].ident == w.tasks[id].ident && Updated(TL.Rows(w)[id], wr).ident == w.tasks[id].ident
  {
    IdentityKept(Inserted(w.tasks[id].ident), w.tasks[id].writes);
  }


  lemma ReportedAs(tb: Table, spiders: map<int, Spider>, id: nat, w: Write, db: Db)
    requires id in tb.rows && MayRetry(w.status)
    ensures Reported(tb, spiders, id, w, db)
            == WithChild(WithRow(tb, id, w), RetryOf(spiders, id, WithRow(tb, id, w).rows[id], w.errorClass, w.at, db))
  {
    SameRetry(spiders, id, tb.rows[id], w, db);
    hide RetryOf, Updated;
  }

  lemma RecordedTable(w: TL.World, id: nat, wr: Write)
    requires id in w.tasks
    ensures var w1 := w.(tasks := w.tasks[id := TL.Recorded(w.tasks[id], wr)]);
            TableOf(w1) == WithRow(TableOf(w), id, wr) && Frame(w, w1)
  {
    RecordedRows(w, id, wr);
  }

  /** A failing write and its settled decision, together. */
  lemma FailedTable(w: TL.World, spiders: map<int, Spider>, id: nat, wr: Write, db: Db)
    requires w.nextId !in w.tasks && id in w.tasks && wr.at == w.now && MayRetry(wr.status)
    ensures var w1 := w.(tasks := w.tasks[id := TL.Recorded(w.tasks[id], wr)]);
            var settle := Settle(spiders, w.tasks[id], id, |w.tasks[id].awaiting|, db);
            && TL.Enabled(w1, settle)
            && TableOf(TL.Apply(w1, settle)) == Reported(TableOf(w), spiders, id, wr, db)
            && Frame(w, TL.Apply(w1, settle))
  {
    var k := |w.tasks[id].awaiting|;
    var w1 := w.(tasks := w.tasks[id := TL.Recorded(w.tasks[id], wr)]);
    assert w1.tasks[id].awaiting[k] == wr.errorClass;
    RecordedTable(w, id, wr);
    SettleTable(w1, spiders, id, k, db);
    assert id in TableOf(w).rows;
    ReportedAs(TableOf(w), spiders, id, wr, db);
    hide RetryOf, TL.Apply, TL.Enabled, TL.Rows, Frame, WithRow, WithChild, Reported;
    FrameTrans(w, w1, TL.Apply(w1, Settle(spiders, w.tasks[id], id, k, db)));
  }

  lemma RunNil(w: TL.World)
    ensures TL.Valid(w, []) && TL.Run(w, []) == w
  {
  }

  lemma RunCons(w: TL.World, a: TL.Step, rest: seq<TL.Step>)
    requires TL.Enabled(w, a) && TL.Valid(TL.Apply(w, a), rest)
    ensures TL.Valid(w, [a] + rest) && TL.Run(w, [a] + rest) == TL.Run(TL.Apply(w, a), rest)
  {
    hide TL.Apply, TL.Enabled;
    assert ([a] + rest)[1..] == rest;
  }

  /** A report about a row that was handed out, with the retry decision a failure brings, is
      a run of one or two lifecycle steps. */
  lemma ReportIsARun(w: TL.World, spiders: map<int, Spider>, id: nat, wr: Write, db: Db) returns (steps: seq<TL.Step>)
    requires TL.Inv(w) && id in w.tasks && w.tasks[id].handedAt != [] && wr.at == w.now && !wr.status.Queued?
    ensures TL.Valid(w, steps) && TableOf(TL.Run(w, steps)) == Reported(TableOf(w), spiders, id, wr, db)
  {
    var report := TL.Report(id, wr.status, wr.error, wr.errorClass, wr.worker);
    var w1 := w.(tasks := w.tasks[id := TL.Recorded(w.tasks[id], wr)]);
    assert TL.Apply(w, report) == w1;
    if MayRetry(wr.status) {
      FailedTable(w, spiders, id, wr, db);
      var settle := Settle(spiders, w.tasks[id], id, |w.tasks[id].awaiting|, db);
      RunNil(TL.Apply(w1, settle));
      RunCons(w1, settle, []);
      steps := [settle] + [];
    } else {
      RecordedRows(w, id, wr);
      RunNil(w1);
      steps := [];
    }
    RunCons(w, report, steps);
    steps := [report] + steps;
  }

  /** So is a user's cancel. */
  lemma CancelIsARun(w: TL.World, spiders: map<int, Spider>, id: nat, db: Db)
    requires id in w.tasks
    ensures TL.Enabled(w, TL.Cancel(id))
    ensures TableOf(TL.Apply(w, TL.Cancel(id)))
            == Reported(TableOf(w), spiders, id, Write(Cancelled, "cancelled by user", "", "", w.now), db)
  {
    RecordedRows(w, id, Write(Cancelled, "cancelled by user", "", "", w.now));
  }

  /** And queueing. */
  lemma QueueIsARun(w: TL.World, spider: int, trigger: Trigger, version: int, args: string)
    ensures var queue := TL.Queue(spider, trigger, version, args);
            && TL.Enabled(w, queue)
            && TableOf(TL.Apply(w, queue))
               == WithChild(TableOf(w), Some(Identity(spider, 0, trigger, version, args, 1, w.now, None)))
  {
    InsertedRows(w, TL.Entry(Identity(spider, 0, trigger, version, args, 1, w.now, None), [], [], [], [], 0), w.nextId + 1);
  }

  // ---- a dispatch pass ------------------------------------------------------------------

  /** The rows still listed exist, and `good` are those an assignment can be built for. */
  predicate Listing(w: TL.World, spiders: map<int, Spider>, good: set<nat>, db: nat -> Db) {
    Distinct(w.pass)
    && forall i :: 0 <= i < |w.pass| ==>
         w.pass[i] in w.tasks
         && (w.pass[i] in good <==> BuildError(spiders, w.tasks[w.pass[i]].ident.spider, db(w.pass[i])).None?)
  }

  /** What the rest of a pass does: the table, and who is handed out now. */
  ghost predicate PassDid(w: TL.World, e: TL.World, spiders: map<int, Spider>, good: set<nat>, capacity: nat,
                          db: nat -> Db) {
    && e.pass == [] && e.now == w.now
    && TableOf(e) == FailAll(TableOf(w), spiders, Failing(w.pass, good, capacity), w.now, db)
    && (forall id :: id in w.tasks ==>
          id in e.tasks
          && e.tasks[id].handedAt == if id in Assigned(w.pass, good, capacity) then w.tasks[id].handedAt + [w.now]
                                     else w.tasks[id].handedAt)
  }

  lemma HandStep(w: TL.World, spiders: map<int, Spider>, good: set<nat>, db: nat -> Db)
    requires TL.Inv(w) && Listing(w, spiders, good, db) && w.pass != []
    ensures TL.Enabled(w, TL.Hand) && Handed(w, TL.Apply(w, TL.Hand)) && Listing(TL.Apply(w, TL.Hand), spiders, good, db)
  {
    var e := TL.Apply(w, TL.Hand);
    assert forall i :: 0 <= i < |e.pass| ==> e.pass[i] == w.pass[i + 1];
    assert TL.Rows(e) == TL.Rows(w);
  }

  /** The row at the head of the pass is failed and its retry settled. */
  lemma FailStep(w: TL.World, spiders: map<int, Spider>, good: set<nat>, db: nat -> Db) returns (a: TL.Step, b: TL.Step)
    requires TL.Inv(w) && Listing(w, spiders, good, db) && w.pass != [] && w.pass[0] !in good
    ensures TL.Enabled(w, a) && TL.Enabled(TL.Apply(w, a), b)
    ensures var e := TL.Apply(TL.Apply(w, a), b);
            && TableOf(e) == FailOne(TableOf(w), spiders, w.pass[0], w.now, db)
            && Frame(w.(pass := w.pass[1..]), e) && Listing(e, spiders, good, db)
  {
    var id := w.pass[0];
    var error := BuildError(spiders, w.tasks[id].ident.spider, db(id)).value;
    var wp := w.(pass := w.pass[1..]);
    b := Settle(spiders, w.tasks[id], id, |w.tasks[id].awaiting|, db(id));
    NextIsFree(w);
    ShorterPass(w, spiders, good, db);
    if db(id).saved {
      a := TL.BuildFail(error);
      FailedTable(wp, spiders, id, BuildWrite(error, w.now), db(id));
      BuildFailApplies(w, error);
    } else {
      a := TL.BuildFailLost;
      LostTable(wp, spiders, id, BuildWrite(error, w.now), db(id));
      LostApplies(w);
    }
    FailedAs(w, spiders, id, error, db);
    hide TL.Inv, TL.Apply, TL.Enabled, TL.Rows, Reported, FailOne, Listing, Frame, TableOf, TL.Recorded, TL.Faulted,
         WithChild, WithRow, ChildOf;
    SameListing(wp, TL.Apply(TL.Apply(w, a), b), spiders, good, db);
  }

  /** A failure that was not saved and its settled decision, together. */
  lemma LostTable(w: TL.World, spiders: map<int, Spider>, id: nat, wr: Write, db: Db)
    requires w.nextId !in w.tasks && id in w.tasks && wr.at == w.now && MayRetry(wr.status) && wr.errorClass == "build_assign"
    ensures var w1 := w.(tasks := w.tasks[id := TL.Faulted(w.tasks[id], "build_assign", w.now)]);
            var settle := Settle(spiders, w.tasks[id], id, |w.tasks[id].awaiting|, db);
            && TL.Enabled(w1, settle)
            && TableOf(TL.Apply(w1, settle)) == WithChild(TableOf(w), ChildOf(TableOf(w), spiders, id, wr, db))
            && Frame(w, TL.Apply(w1, settle))
  {
    var k := |w.tasks[id].awaiting|;
    var w1 := w.(tasks := w.tasks[id := TL.Faulted(w.tasks[id], "build_assign", w.now)]);
    assert w1.tasks[id].awaiting[k] == "build_assign";
    assert TL.Rows(w1) == TL.Rows(w);
    assert Frame(w, w1);
    SettleTable(w1, spiders, id, k, db);
    hide Frame, RetryOf, TL.Apply, TL.Enabled, TL.Rows, WithChild;
    FrameTrans(w, w1, TL.Apply(w1, Settle(spiders, w.tasks[id], id, k, db)));
  }

  lemma LostApplies(w: TL.World)
    requires w.pass != [] && w.pass[0] in w.tasks
    ensures var id, wp := w.pass[0], w.(pass := w.pass[1..]);
            && TL.Enabled(w, TL.BuildFailLost)
            && TL.Apply(w, TL.BuildFailLost)
               == wp.(tasks := wp.tasks[id := TL.Faulted(wp.tasks[id], "build_assign", w.now)])
  {
  }

  lemma NextIsFree(w: TL.World)
    requires TL.Inv(w)
    ensures w.nextId !in w.tasks
  {
  }

  lemma BuildFailApplies(w: TL.World, error: string)
    requires w.pass != [] && w.pass[0] in w.tasks
    ensures var id, wp := w.pass[0], w.(pass := w.pass[1..]);
            && TL.Enabled(w, TL.BuildFail(error))
            && TL.Apply(w, TL.BuildFail(error))
               == wp.(tasks := wp.tasks[id := TL.Recorded(wp.tasks[id], BuildWrite(error, w.now))])
  {
  }

  lemma ShorterPass(w: TL.World, spiders: map<int, Spider>, good: set<nat>, db: nat -> Db)
    requires Listing(w, spiders, good, db) && w.pass != []
    ensures Listing(w.(pass := w.pass[1..]), spiders, good, db) && TableOf(w.(pass := w.pass[1..])) == TableOf(w)
  {
    assert forall i :: 0 <= i < |w.pass| - 1 ==> w.pass[1..][i] == w.pass[i + 1];
    assert TL.Rows(w.(pass := w.pass[1..])) == TL.Rows(w);
  }

  lemma FailedAs(w: TL.World, spiders: map<int, Spider>, id: nat, error: string, db: nat -> Db)
    requires id in w.tasks && BuildError(spiders, w.tasks[id].ident.spider, db(id)) == Some(error)
    ensures var tb, wr := TableOf(w), BuildWrite(error, w.now);
            FailOne(tb, spiders, id, w.now, db)
            == if db(id).saved then Reported(tb, spiders, id, wr, db(id))
               else WithChild(tb, ChildOf(tb, spiders, id, wr, db(id)))
  {
    SameIdentity(w, id, BuildWrite(error, w.now));
    hide WithChild, WithRow, ChildOf, BuildError;
  }

  lemma SameListing(w: TL.World, e: TL.World, spiders: map<int, Spider>, good: set<nat>, db: nat -> Db)
    requires Listing(w, spiders, good, db) && Frame(w, e)
    ensures Listing(e, spiders, good, db)
  {
    hide BuildError;
  }

  /** From any point on, the rest of a pass is a run of the machine that fails, hands out
      and leaves exactly what the plan says. */
  lemma {:induction false} PassIsARun(w: TL.World, spiders: map<int, Spider>, good: set<nat>, capacity: nat, db: nat -> Db)
    returns (steps: seq<TL.Step>)
    requires TL.Inv(w) && Listing(w, spiders, good, db)
    ensures TL.Valid(w, steps) && PassDid(w, TL.Run(w, steps), spiders, good, capacity, db)
    decreases |w.pass|
  {
    hide TL.Inv, TL.Apply, TL.Enabled, TL.Valid, TL.Run, PassDid, Listing, Frame, Handed, FailOne, TableOf;
    if w.pass == [] || (w.pass[0] in good && capacity == 0) {
      steps := LastOfPass(w, spiders, good, capacity, db);
    } else if w.pass[0] in good {
      var m := AfterHand(w, spiders, good, db);
      var rest := PassIsARun(m, spiders, good, capacity - 1, db);
      RunCons(w, TL.Hand, rest);
      steps := [TL.Hand] + rest;
      HandedFirst(w, m, TL.Run(w, steps), spiders, good, capacity, db);
    } else {
      var m, a, b := AfterFail(w, spiders, good, db);
      var rest := PassIsARun(m, spiders, good, capacity, db);
      RunCons(TL.Apply(w, a), b, rest);
      RunCons(w, a, [b] + rest);
      steps := [a] + ([b] + rest);
      FailedFirst(w, m, TL.Run(w, steps), spiders, good, capacity, db);
    }
  }

  lemma AfterHand(w: TL.World, spiders: map<int, Spider>, good: set<nat>, db: nat -> Db) returns (m: TL.World)
    requires TL.Inv(w) && Listing(w, spiders, good, db) && w.pass != []
    ensures TL.Enabled(w, TL.Hand) && m == TL.Apply(w, TL.Hand)
    ensures TL.Inv(m) && Listing(m, spiders, good, db) && Handed(w, m) && m.pass == w.pass[1..] && Distinct(w.pass)
  {
    HandStep(w, spiders, good, db);
    m := TL.Apply(w, TL.Hand);
    assert Distinct(w.pass);
    hide TL.Inv, TL.Apply, TL.Enabled, Listing, TableOf;
    TL.StepInv(w, TL.Hand);
  }

  lemma AfterFail(w: TL.World, spiders: map<int, Spider>, good: set<nat>, db: nat -> Db)
    returns (m: TL.World, a: TL.Step, b: TL.Step)
    requires TL.Inv(w) && Listing(w, spiders, good, db) && w.pass != [] && w.pass[0] !in good
    ensures TL.Enabled(w, a) && TL.Enabled(TL.Apply(w, a), b) && m == TL.Apply(TL.Apply(w, a), b)
    ensures TL.Inv(m) && Listing(m, spiders, good, db) && m.pass == w.pass[1..] && Frame(w.(pass := w.pass[1..]), m)
    ensures TableOf(m) == FailOne(TableOf(w), spiders, w.pass[0], w.now, db)
  {
    a, b := FailStep(w, spiders, good, db);
    m := TL.Apply(TL.Apply(w, a), b);
    hide TL.Inv, TL.Apply, TL.Enabled, Listing, TableOf, FailOne;
    TL.StepInv(w, a);
    TL.StepInv(TL.Apply(w, a), b);
  }

  /** The head of the pass is handed out, and nothing else happens. */
  ghost predicate Handed(w: TL.World, m: TL.World)
    requires w.pass != []
  {
    && TableOf(m) == TableOf(w) && m.now == w.now && m.pass == w.pass[1..] && m.tasks.Keys == w.tasks.Keys
    && (forall j :: j in w.tasks ==>
          m.tasks[j].handedAt == if j == w.pass[0] then w.tasks[j].handedAt + [w.now] else w.tasks[j].handedAt)
  }

  /** The pass is over: nothing is listed, or the next row needs capacity there is not. */
  lemma LastOfPass(w: TL.World, spiders: map<int, Spider>, good: set<nat>, capacity: nat,
                   db: nat -> Db) returns (steps: seq<TL.Step>)
    requires w.pass == [] || (w.pass[0] in good && capacity == 0)
    ensures TL.Valid(w, steps) && PassDid(w, TL.Run(w, steps), spiders, good, capacity, db)
  {
    if w.pass == [] {
      steps := [];
    } else {
      var e := TL.Apply(w, TL.Break);
      assert TL.Rows(e) == TL.Rows(w);
      RunNil(e);
      RunCons(w, TL.Break, []);
      steps := [TL.Break] + [];
    }
  }

  lemma HandedFirst(w: TL.World, m: TL.World, e: TL.World, spiders: map<int, Spider>, good: set<nat>, capacity: nat,
                    db: nat -> Db)
    requires w.pass != [] && w.pass[0] in good && capacity > 0 && Distinct(w.pass)
    requires Handed(w, m) && PassDid(m, e, spiders, good, capacity - 1, db)
    ensures PassDid(w, e, spiders, good, capacity, db)
  {
    hide TL.Rows;
    assert forall i :: 0 <= i < |w.pass| - 1 ==> w.pass[1..][i] == w.pass[i + 1];
    PlanIsDistinct(w.pass[1..], good, capacity - 1);
    assert w.pass[0] !in Assigned(w.pass[1..], good, capacity - 1);
  }

  lemma FailedFirst(w: TL.World, m: TL.World, e: TL.World, spiders: map<int, Spider>, good: set<nat>, capacity: nat,
                    db: nat -> Db)
    requires w.pass != [] && w.pass[0] !in good
    requires TableOf(m) == FailOne(TableOf(w), spiders, w.pass[0], w.now, db) && Frame(w.(pass := w.pass[1..]), m)
    requires PassDid(m, e, spiders, good, capacity, db)
    ensures PassDid(w, e, spiders, good, capacity, db)
  {
    hide TL.Rows, FailOne;
    var rest := Failing(w.pass[1..], good, capacity);
    assert ([w.pass[0]] + rest)[1..] == rest;
  }

  /** What DispatchOnce does to the table is a run of the machine: list, then per row hand
      out or fail and settle, until the listing or the capacity ends. The rows handed out
      are those the pass hands over, at the pass's own time. */
  lemma DispatchIsARun(w: TL.World, spiders: map<int, Spider>, s: Snap, e: Snap, ids: seq<nat>, handed: seq<nat>,
                       failed: seq<nat>, db: nat -> Db) returns (steps: seq<TL.Step>)
    requires TL.Inv(w) && w.pass == [] && s.table == TableOf(w) && IsListing(s.table.rows, w.now, ids)
    requires PassDone(s, e, spiders, ids, handed, failed, w.now, db)
    ensures TL.Valid(w, steps)
    ensures var w' := TL.Run(w, steps);
            && TableOf(w') == e.table && w'.pass == [] && w'.now == w.now
            && (forall id :: id in w.tasks ==>
                  id in w'.tasks
                  && w'.tasks[id].handedAt == if id in handed then w.tasks[id].handedAt + [w.now] else w.tasks[id].handedAt)
  {
    var list := TL.List(ids);
    var good, capacity := Buildable(spiders, s.table.rows, ids, db), Capacity(s.views);
    ListStep(w, spiders, ids, db);
    TL.StepInv(w, list);
    var rest := PassIsARun(TL.Apply(w, list), spiders, good, capacity, db);
    RunCons(w, list, rest);
    steps := [list] + rest;
    hide TL.Inv, TL.Rows, FailAll, Assigned, Failing, HubSide, Listing;
  }

  lemma ListStep(w: TL.World, spiders: map<int, Spider>, ids: seq<nat>, db: nat -> Db)
    requires w.pass == [] && IsListing(TL.Rows(w), w.now, ids)
    ensures TL.Enabled(w, TL.List(ids))
    ensures var m := TL.Apply(w, TL.List(ids));
            && m == w.(pass := ids) && TableOf(m) == TableOf(w)
            && Listing(m, spiders, Buildable(spiders, TL.Rows(w), ids, db), db)
  {
    forall i | 0 <= i < |ids|
      ensures ids[i] in w.tasks && TL.Rows(w)[ids[i]].ident == w.tasks[ids[i]].ident
    {
      assert ids[i] in ids;
      IdentityKept(Inserted(w.tasks[ids[i]].ident), w.tasks[ids[i]].writes);
    }
    assert TL.Rows(w.(pass := ids)) == TL.Rows(w);
  }
}
