// The task service in place: queueing, cancelling, worker reports with their retry
// decision, and one dispatch pass over the hub.
module TaskService {
  import opened Options
  import RP = RetryPolicy
  import opened TaskTable
  import opened HubLedger
  import opened WorkerHub
  import opened DispatchPlan
  import opened Reports
  import opened DispatchPass

  datatype Event = Event(kind: Status, task: nat, spider: int, errorClass: string, error: string,
                         attempt: int, maxAttempts: int, willRetry: bool)

  /** The row and its spider can be loaded. */
  predicate Loads(rows: map<nat, Row>, spiders: map<int, Spider>, id: nat, db: Db) {
    db.parentRead && db.spiderRead && id in rows && rows[id].ident.spider in spiders
  }

  class Service {
    const table: Tasks
    const hub: Hub
    var spiders: map<int, Spider>

    constructor (table: Tasks, hub: Hub, spiders: map<int, Spider>)
      ensures this.table == table && this.hub == hub && this.spiders == spiders
    {
      this.table, this.hub, this.spiders := table, hub, spiders;
    }

    /** The foreign key refuses a row whose spider does not exist. */
    method Queue(spider: int, trigger: Option<Trigger>, version: int, args: string, now: int,
                 db: Db) returns (r: Result<nat>)
      requires table.Valid()
      modifies table
      ensures table.Valid()
      ensures r == Err("invalid input") <==> spider == 0
      ensures r == Err("lookup spider: not found") <==> spider != 0 && version == 0 && (!db.lookedUp || spider !in spiders)
      ensures r == Err("spider has no synced source")
              <==> spider != 0 && version == 0 && db.lookedUp && spider in spiders && spiders[spider].sourceVersion == 0
      ensures r.Err? ==> table.View() == old(table.View())
      ensures r.Ok? <==> spider != 0 && spider in spiders && db.stored
                         && (version != 0 || (db.lookedUp && spiders[spider].sourceVersion != 0))
      ensures r.Ok? ==>
                && r.value == old(table.nextId) && r.value !in old(table.rows) && table.nextId == r.value + 1
                && table.rows == old(table.rows)[r.value := Inserted(
                     Identity(spider, 0, if trigger.None? then Manual else trigger.value,
                              if version != 0 then version else spiders[spider].sourceVersion, args, 1, now, None))]
    {
      if spider == 0 {
        return Err(ERR_INVALID);
      }
      var trig := Manual;
      if trigger.Some? {
        trig := trigger.value;
      }
      var ver := version;
      if ver == 0 {
        if !db.lookedUp || spider !in spiders {
          return Err(ERR_LOOKUP);
        }
        if spiders[spider].sourceVersion == 0 {
          return Err(ERR_NO_SOURCE);
        }
        ver := spiders[spider].sourceVersion;
      }
      if !db.stored || spider !in spiders {
        return Err(ERR_STORE);
      }
      var id := table.Create(spider, 0, trig, ver, args, 0, None, now);
      return Ok(id);
    }

    /** The row is cancelled whatever it was; the worker hears of it only if the hub has
        the task down and its session has room. */
    method Cancel(id: nat, now: int, db: Db) returns (ok: bool)
      requires table.Valid() && hub.Valid()
      modifies table, hub.sessions.Values
      ensures table.Valid()
      ensures ok == db.saved
      ensures table.View()
              == if ok then Reported(old(table.View()), spiders, id, Write(Cancelled, "cancelled by user", "", "", now), db)
                 else old(table.View())
      ensures hub.Views() == if ok && id in hub.tasks then Heard(old(hub.Views()), hub.tasks[id].sid, CancelTask(id))
                             else old(hub.Views())
    {
      if !db.saved {
        return false;
      }
      ghost var views := hub.Views();
      table.SetStatus(id, Write(Cancelled, "cancelled by user", "", "", now));
      assert hub.Views() == views;
      hub.CancelRunning(id);
      return true;
    }

    /** Returns the policy's max_attempts and whether a child was inserted. */
    method MaybeScheduleRetry(id: nat, errorClass: string, now: int, db: Db) returns (maxAttempts: int,
                              willRetry: bool)
      requires table.Valid()
      modifies table
      ensures table.Valid()
      ensures var child := if id in old(table.rows) then RetryOf(spiders, id, old(table.rows)[id], errorClass, now, db)
                           else None;
              && willRetry == child.Some?
              && table.View() == WithChild(old(table.View()), child)
      ensures maxAttempts == if db.parentRead && db.spiderRead && id in old(table.rows)
                                && old(table.rows)[id].ident.spider in spiders
                             then RP.PolicyOf(spiders[old(table.rows)[id].ident.spider].config).maxAttempts else 0
    {
      hide RP.Decide, RP.PolicyOf;
      if !db.parentRead || id !in table.rows {
        return 0, false;
      }
      var parent := table.rows[id];
      if !db.spiderRead || parent.ident.spider !in spiders {
        return 0, false;
      }
      var policy := RP.PolicyFromSpiderConfig(spiders[parent.ident.spider].config);
      maxAttempts := policy.maxAttempts;
      var attempt := parent.ident.attempt;
      if attempt < 1 {
        attempt := 1;
      }
      var (retry, delay) := RP.Decide(policy, attempt, errorClass, db.wild);
      if !retry {
        return maxAttempts, false;
      }
      if !db.stored {
        return maxAttempts, false;
      }
      var child := table.Create(parent.ident.spider, id, Retry, parent.ident.version, parent.ident.args,
                                attempt + 1, Some(now + delay), now);
      return maxAttempts, true;
    }

    /** The returned events are those handed to the notifier. */
    method OnUpdate(id: nat, w: Write, db: Db) returns (events: seq<Event>)
      requires table.Valid()
      modifies table
      ensures table.Valid()
      ensures table.View() == Reported(old(table.View()), spiders, id, w, db)
      ensures events != [] <==> w.status != Queued && w.status != Running && db.parentRead && db.spiderRead
                                && id in old(table.rows) && old(table.rows)[id].ident.spider in spiders
      ensures events != [] ==>
                var row := old(table.rows)[id];
                var retry := MayRetry(w.status) && RetryOf(spiders, id, row, w.errorClass, w.at, db).Some?;
                events == [Event(w.status, id, row.ident.spider, w.errorClass, w.error, row.ident.attempt,
                                 RP.PolicyOf(spiders[row.ident.spider].config).maxAttempts, retry)]
                && (retry <==> table.nextId == old(table.nextId) + 1)
      ensures table.nextId != old(table.nextId)
              <==> (w.status == Failed || w.status == Timeout)
                   && Decidable(old(table.rows), spiders, id, db) && Granted(old(table.rows), spiders, id, w.errorClass)
      ensures table.nextId != old(table.nextId) ==>
                old(table.nextId) in table.rows
                && IsRetry(table.rows[old(table.nextId)].ident, old(table.rows), spiders, id, w.at, db)
    {
      hide RetryOf, RP.PolicyOf, Granted, IsRetry;
      ghost var before := table.View();
      ReportAddsIff(before, spiders, id, w, db);
      table.SetStatus(id, w);
      assert table.View() == WithRow(before, id, w);
      if id in before.rows {
        SameRetry(spiders, id, before.rows[id], w, db);
      }
      events := [];
      if !IsTerminal(w.status) {
        return;
      }
      var maxAttempts, willRetry := 0, false;
      if MayRetry(w.status) {
        maxAttempts, willRetry := MaybeScheduleRetry(id, w.errorClass, w.at, db);
      } else if Loads(table.rows, spiders, id, db) {
        var policy := RP.PolicyFromSpiderConfig(spiders[table.rows[id].ident.spider].config);
        maxAttempts := policy.maxAttempts;
      }
      if Loads(table.rows, spiders, id, db) {
        var ident := table.rows[id].ident;
        events := [Event(w.status, id, ident.spider, w.errorClass, w.error, ident.attempt, maxAttempts, willRetry)];
      }
    }

    /** A row that cannot be built is failed, the error of that write is ignored, and it may
        be retried like any failure. */
    method FailBuild(id: nat, error: string, now: int, db: Db)
      requires table.Valid() && id in table.rows
      modifies table
      ensures table.Valid()
      ensures var tb, w := old(table.View()), BuildWrite(error, now);
              table.View() == WithChild(if db.saved then WithRow(tb, id, w) else tb, ChildOf(tb, spiders, id, w, db))
    {
      hide RetryOf, RP.PolicyOf;
      ghost var before := table.View();
      if db.saved {
        table.SetStatus(id, Write(Failed, error, "build_assign", "", now));
        assert table.View() == WithRow(before, id, BuildWrite(error, now));
      }
      SameRetry(spiders, id, before.rows[id], BuildWrite(error, now), db);
      var _, _ := MaybeScheduleRetry(id, "build_assign", now, db);
    }

    ghost function Now(): Snap
      reads this, table, hub, hub.sessions.Values
    {
      Snap(table.View(), hub.tasks, hub.Views())
    }

    /** One turn of the dispatch loop. */
    method DispatchRow(id: nat, now: int, db: nat -> Db) returns (o: Outcome)
      requires table.Valid() && hub.Valid() && id in table.rows
      modifies table, hub`tasks, hub.sessions.Values
      ensures table.Valid() && hub.Valid()
      ensures Turn(old(Now()), Now(), spiders, id, o, now, db)
      ensures o.BuildFailed? <==> !HasSource(old(table.rows), spiders, id, db(id))
      ensures o.BuildFailed? ==> FailureShown(old(table.rows), table.rows, spiders, id, now, db(id))
    {
      hide WithRow, WithChild, ChildOf, AssignOutcome;
      var spider := table.rows[id].ident.spider;
      var err := BuildError(spiders, spider, db(id));
      BuildsIff(spiders, spider, db(id));
      if err.Some? {
        ghost var views := hub.Views();
        FailShows(table.View(), spiders, id, now, db);
        FailBuild(id, err.value, now, db(id));
        assert hub.Views() == views;
        return BuildFailed;
      }
      var ok := hub.Assign(id, spider);
      return if ok then HandedOver else NoCapacity;
    }

    /** One pass, nothing running beside it. `ids` is what ListQueued returned, `handed`
        and `failed` are the rows given to the hub and the rows failed: those of the plan.
        The failed rows and their retries are all that changes in the table, and each
        handed row's message is in exactly one outbox. */
    method DispatchOnce(now: int, db: nat -> Db) returns (ids: seq<nat>, handed: seq<nat>, failed: seq<nat>)
      requires table.Valid() && hub.Valid()
      modifies table, hub`tasks, hub.sessions.Values
      ensures table.Valid() && hub.Valid()
      ensures IsListing(old(table.rows), now, ids)
      ensures PassDone(old(Now()), Now(), spiders, ids, handed, failed, now, db)
      ensures Distinct(handed) && Distinct(failed)
      ensures RowsFailed(old(table.View()), table.View(), spiders, failed, now, db,
                         Retries(old(table.rows), spiders, failed, now, db))
      ensures RightRows(old(Now()), Now(), spiders, handed, failed, now, db)
    {
      hide PassAt, PassDone, Turn, RowsFailed, Retries, IsListing, RightRows, Due, HasSource, Buildable, Distinct;
      ids := table.ListQueued(now);
      ghost var s := Now();
      Listed(s.table.rows, now, ids);
      handed, failed := [], [];
      PassStarts(s, spiders, ids, now, db);
      var i := 0;
      while i < |ids|
        invariant i <= |ids| && table.Valid() && hub.Valid()
        invariant PassAt(s, Now(), spiders, ids, i, handed, failed, now, db)
      {
        var id := ids[i];
        ghost var m := Now();
        Present(s, m, spiders, ids, i, handed, failed, now, db);
        var o := DispatchRow(id, now, db);
        if o.BuildFailed? {
          TurnFails(s, m, Now(), spiders, ids, i, handed, failed, now, db);
          failed := failed + [id];
        } else if o.NoCapacity? {
          TurnEnds(s, m, Now(), spiders, ids, i, handed, failed, now, db);
          PassResult(s, Now(), spiders, ids, handed, failed, now, db);
          return;
        } else {
          TurnHands(s, m, Now(), spiders, ids, i, handed, failed, now, db);
          handed := handed + [id];
        }
        i := i + 1;
      }
      PassEnds(s, Now(), spiders, ids, handed, failed, now, db);
      PassResult(s, Now(), spiders, ids, handed, failed, now, db);
    }
  }

  lemma Present(s: Snap, m: Snap, spiders: map<int, Spider>, ids: seq<nat>, i: nat, handed: seq<nat>, failed: seq<nat>,
                now: int, db: nat -> Db)
    requires i < |ids| && PassAt(s, m, spiders, ids, i, handed, failed, now, db)
    ensures ids[i] in m.table.rows
  {
  }
}
