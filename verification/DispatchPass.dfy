// One dispatch pass as a whole: what a turn of its loop does, what holds after any
// number of turns, and what the rows it fails leave in the table.
module DispatchPass {
  import opened Options
  import RP = RetryPolicy
  import opened TaskTable
  import opened HubLedger
  import opened WorkerHub
  import opened DispatchPlan
  import opened Reports

  // ---- failing rows ---------------------------------------------------------------------

  function BuildWrite(error: string, now: int): Write {
    Write(Failed, error, "build_assign", "", now)
  }

  /** A row that cannot be built is failed, which may add a retry, whether or not the failure
      itself could be saved. */
  function FailOne(tb: Table, spiders: map<int, Spider>, id: nat, now: int, db: nat -> Db): Table {
    if id in tb.rows && BuildError(spiders, tb.rows[id].ident.spider, db(id)).Some? then
      var w := BuildWrite(BuildError(spiders, tb.rows[id].ident.spider, db(id)).value, now);
      WithChild(if db(id).saved then WithRow(tb, id, w) else tb, ChildOf(tb, spiders, id, w, db(id)))
    else tb
  }

  function FailAll(tb: Table, spiders: map<int, Spider>, ids: seq<nat>, now: int, db: nat -> Db): Table
    decreases |ids|
  {
    if ids == [] then tb else FailAll(FailOne(tb, spiders, ids[0], now, db), spiders, ids[1..], now, db)
  }

  /** The children the failed rows get, in order. */
  function Retries(rows: map<nat, Row>, spiders: map<int, Spider>, ids: seq<nat>, now: int, db: nat -> Db): seq<Identity> {
    if ids == [] then []
    else
      var child := if ids[0] in rows then RetryOf(spiders, ids[0], rows[ids[0]], "build_assign", now, db(ids[0])) else None;
      (if child.Some? then [child.value] else []) + Retries(rows, spiders, ids[1..], now, db)
  }

  predicate Distinct(ids: seq<nat>) {
    forall i, j :: 0 <= i < j < |ids| ==> ids[i] != ids[j]
  }

  predicate AllUnbuildable(rows: map<nat, Row>, spiders: map<int, Spider>, ids: seq<nat>, db: nat -> Db) {
    forall i :: 0 <= i < |ids| ==> ids[i] in rows && BuildError(spiders, rows[ids[i]].ident.spider, db(ids[i])).Some?
  }

  /** Exactly the failed rows whose failure was saved carry it, every other row is as it was,
      and the new rows are exactly the children `kids`, under the next ids. */
  ghost predicate RowsFailed(tb: Table, after: Table, spiders: map<int, Spider>, ids: seq<nat>, now: int,
                             db: nat -> Db, kids: seq<Identity>) {
    && after.nextId == tb.nextId + |kids|
    && (forall id :: id in after.rows <==> id in tb.rows || tb.nextId <= id < after.nextId)
    && (forall id :: id in tb.rows ==>
          var e := BuildError(spiders, tb.rows[id].ident.spider, db(id));
          after.rows[id] == if id in ids && e.Some? && db(id).saved then Updated(tb.rows[id], BuildWrite(e.value, now))
                            else tb.rows[id])
    && (forall k :: 0 <= k < |kids| ==> after.rows[tb.nextId + k] == Inserted(kids[k]))
  }

  /** Failing the first row, in full. */
  lemma FailedOne(tb: Table, spiders: map<int, Spider>, id: nat, now: int, db: nat -> Db)
    requires Numbered(tb) && AllUnbuildable(tb.rows, spiders, [id], db)
    ensures Numbered(FailOne(tb, spiders, id, now, db))
    ensures RowsFailed(tb, FailOne(tb, spiders, id, now, db), spiders, [id], now, db,
                       Retries(tb.rows, spiders, [id], now, db))
  {
    hide RetryOf, BuildError;
    assert [id][0] == id && [id][1..] == [];
    assert Retries(tb.rows, spiders, [], now, db) == [];
  }

  lemma {:induction false} RetriesSame(a: map<nat, Row>, b: map<nat, Row>, spiders: map<int, Spider>, ids: seq<nat>,
                                       now: int, db: nat -> Db)
    requires forall i :: 0 <= i < |ids| ==> ids[i] in a && ids[i] in b && a[ids[i]] == b[ids[i]]
    ensures Retries(a, spiders, ids, now, db) == Retries(b, spiders, ids, now, db)
  {
    hide RetryOf;
    if ids != [] {
      assert ids[0] in a && ids[0] in b && a[ids[0]] == b[ids[0]];
      assert forall i :: 0 <= i < |ids| - 1 ==> ids[1..][i] == ids[i + 1];
      RetriesSame(a, b, spiders, ids[1..], now, db);
    }
  }

  lemma JoinFailed(tb: Table, mid: Table, after: Table, spiders: map<int, Spider>, id: nat, rest: seq<nat>, now: int,
                   db: nat -> Db,
                   first: seq<Identity>, more: seq<Identity>)
    requires RowsFailed(tb, mid, spiders, [id], now, db, first) && RowsFailed(mid, after, spiders, rest, now, db, more)
    requires Numbered(tb) && id !in rest && forall x :: x in rest ==> x in tb.rows
    ensures RowsFailed(tb, after, spiders, [id] + rest, now, db, first + more)
  {
    hide BuildError;
    forall x | x in tb.rows
      ensures var e := BuildError(spiders, tb.rows[x].ident.spider, db(x));
              after.rows[x] == if x in [id] + rest && e.Some? && db(x).saved
                               then Updated(tb.rows[x], BuildWrite(e.value, now)) else tb.rows[x]
    {
      assert x in mid.rows;
    }
    forall k | 0 <= k < |first + more|
      ensures after.rows[tb.nextId + k] == Inserted((first + more)[k])
    {
      if k < |first| {
        assert mid.rows[tb.nextId + k] == Inserted(first[k]);
      } else {
        assert after.rows[mid.nextId + (k - |first|)] == Inserted(more[k - |first|]);
      }
    }
  }

  /** The rows a pass fails get their error, and the table grows by exactly their retries. */
  lemma {:induction false} FailedRows(tb: Table, spiders: map<int, Spider>, ids: seq<nat>, now: int, db: nat -> Db)
    requires Numbered(tb) && Distinct(ids) && AllUnbuildable(tb.rows, spiders, ids, db)
    ensures RowsFailed(tb, FailAll(tb, spiders, ids, now, db), spiders, ids, now, db,
                       Retries(tb.rows, spiders, ids, now, db))
    decreases |ids|
  {
    hide RowsFailed, FailOne, BuildError, RetryOf;
    if ids == [] {
      NothingFailed(tb, spiders, now, db);
    } else {
      var id, rest := ids[0], ids[1..];
      var mid := FailOne(tb, spiders, id, now, db);
      assert ids == [id] + rest;
      assert AllUnbuildable(tb.rows, spiders, [id], db);
      FailedOne(tb, spiders, id, now, db);
      assert id !in rest by {
        assert forall i :: 0 <= i < |rest| ==> rest[i] == ids[i + 1];
      }
      RestUntouched(tb, mid, spiders, id, rest, now, db, Retries(tb.rows, spiders, [id], now, db));
      FailedRows(mid, spiders, rest, now, db);
      RetriesSame(tb.rows, mid.rows, spiders, rest, now, db);
      JoinFailed(tb, mid, FailAll(tb, spiders, ids, now, db), spiders, id, rest, now, db,
                 Retries(tb.rows, spiders, [id], now, db), Retries(mid.rows, spiders, rest, now, db));
      RetriesCons(tb.rows, spiders, ids, now, db);
    }
  }

  lemma RetriesCons(rows: map<nat, Row>, spiders: map<int, Spider>, ids: seq<nat>, now: int, db: nat -> Db)
    requires ids != []
    ensures Retries(rows, spiders, ids, now, db)
            == Retries(rows, spiders, [ids[0]], now, db) + Retries(rows, spiders, ids[1..], now, db)
  {
    hide RetryOf;
    assert [ids[0]][1..] == [];
  }

  lemma NothingFailed(tb: Table, spiders: map<int, Spider>, now: int, db: nat -> Db)
    ensures RowsFailed(tb, tb, spiders, [], now, db, [])
  {
  }

  lemma RestUntouched(tb: Table, mid: Table, spiders: map<int, Spider>, id: nat, rest: seq<nat>, now: int, db: nat -> Db,
                      kids: seq<Identity>)
    requires RowsFailed(tb, mid, spiders, [id], now, db, kids) && id !in rest && Distinct([id] + rest)
    requires AllUnbuildable(tb.rows, spiders, [id] + rest, db)
    ensures Distinct(rest) && AllUnbuildable(mid.rows, spiders, rest, db)
    ensures forall i :: 0 <= i < |rest| ==> rest[i] in tb.rows && rest[i] in mid.rows && tb.rows[rest[i]] == mid.rows[rest[i]]
  {
    assert forall i :: 0 <= i < |rest| ==> rest[i] == ([id] + rest)[i + 1];
  }

  predicate IsRetryOf(kid: Identity, rows: map<nat, Row>, spiders: map<int, Spider>, ids: seq<nat>, now: int,
                      db: nat -> Db) {
    && kid.trigger.Retry? && kid.parent in ids && kid.parent in rows
    && RetryOf(spiders, kid.parent, rows[kid.parent], "build_assign", now, db(kid.parent)) == Some(kid)
  }

  /** At most one retry per failed row, each a retry of one of them. */
  lemma {:induction false} OneRetryEach(rows: map<nat, Row>, spiders: map<int, Spider>, ids: seq<nat>, now: int,
                                        db: nat -> Db)
    requires Distinct(ids)
    ensures var kids := Retries(rows, spiders, ids, now, db);
            && |kids| <= |ids|
            && (forall k :: 0 <= k < |kids| ==> IsRetryOf(kids[k], rows, spiders, ids, now, db))
            && (forall j, k :: 0 <= j < k < |kids| ==> kids[j].parent != kids[k].parent)
  {
    if ids != [] {
      var id, rest := ids[0], ids[1..];
      assert ids == [id] + rest;
      assert forall i :: 0 <= i < |rest| ==> rest[i] == ids[i + 1];
      OneRetryEach(rows, spiders, rest, now, db);
      hide RP.Decide, RP.PolicyOf;
    }
  }

  // ---- the loop ---------------------------------------------------------------------------

  datatype Outcome = BuildFailed | HandedOver | NoCapacity

  /** What a pass works on: the table, the hub's index and its sessions. */
  datatype Snap = Snap(table: Table, tasks: map<nat, Meta>, views: map<Sid, Session>)

  /** The listed rows an assignment can be built for. */
  function Buildable(spiders: map<int, Spider>, rows: map<nat, Row>, ids: seq<nat>, db: nat -> Db): set<nat> {
    set id | id in ids && id in rows && BuildError(spiders, rows[id].ident.spider, db(id)).None?
  }

  /** One turn: the row is failed, handed to the hub, or left for want of capacity. */
  ghost predicate Turn(s: Snap, e: Snap, spiders: map<int, Spider>, id: nat, o: Outcome, now: int, db: nat -> Db)
    requires id in s.table.rows
  {
    var spider := s.table.rows[id].ident.spider;
    && (o.BuildFailed? <==> BuildError(spiders, spider, db(id)).Some?)
    && e.table == FailOne(s.table, spiders, id, now, db)
    && (if o.BuildFailed? then e.tasks == s.tasks && e.views == s.views
        else AssignOutcome(s.views, s.tasks, id, spider, e.views, e.tasks, o.HandedOver?))
  }

  /** The messages for the rows handed over. */
  function Messages(rows: map<nat, Row>, handed: seq<nat>): seq<Msg> {
    seq(|handed|, i requires 0 <= i < |handed| =>
      AssignTask(handed[i], if handed[i] in rows then rows[handed[i]].ident.spider else 0))
  }

  /** The index after handing the rows over: their entries name their spider, the others
      are as they were. */
  ghost predicate TasksAssigned(before: map<nat, Meta>, after: map<nat, Meta>, rows: map<nat, Row>, handed: seq<nat>) {
    && (forall t :: t in after <==> t in before || t in handed)
    && (forall t :: t in after && t in handed ==> t in rows && after[t].spider == rows[t].ident.spider)
    && (forall t :: t in before && t !in handed ==> after[t] == before[t])
  }

  /** How far a pass is: what is left to do continues what is done. */
  ghost predicate Progress(ids: seq<nat>, good: set<nat>, capacity: nat, i: nat, handed: seq<nat>, failed: seq<nat>,
                           left: nat) {
    && i <= |ids|
    && Assigned(ids, good, capacity) == handed + Assigned(ids[i..], good, left)
    && Failing(ids, good, capacity) == failed + Failing(ids[i..], good, left)
    && left == capacity - |handed|
  }

  /** The hub's side: each handed row's message in exactly one outbox, and its index entry. */
  ghost predicate HubSide(s: Snap, e: Snap, handed: seq<nat>) {
    && TasksAssigned(s.tasks, e.tasks, s.table.rows, handed)
    && Outboxes(e.views) == Outboxes(s.views) + multiset(Messages(s.table.rows, handed))
  }

  /** The table's side: failing what is left gives what failing everything gives. */
  ghost predicate TableSide(s: Snap, e: Snap, spiders: map<int, Spider>, all: seq<nat>, rest: seq<nat>, now: int,
                            db: nat -> Db) {
    FailAll(s.table, spiders, all, now, db) == FailAll(e.table, spiders, rest, now, db)
  }

  /** The rows still to come are as they were listed. */
  predicate ToCome(s: Snap, e: Snap, ids: seq<nat>, i: nat) {
    forall j :: i <= j < |ids| ==>
      ids[j] in s.table.rows && ids[j] in e.table.rows && e.table.rows[ids[j]] == s.table.rows[ids[j]]
  }

  ghost predicate PassAt(s: Snap, e: Snap, spiders: map<int, Spider>, ids: seq<nat>, i: nat, handed: seq<nat>,
                         failed: seq<nat>,
                         now: int, db: nat -> Db) {
    var good, capacity, left := Buildable(spiders, s.table.rows, ids, db), Capacity(s.views), Capacity(e.views);
    && Progress(ids, good, capacity, i, handed, failed, left)
    && HubSide(s, e, handed)
    && TableSide(s, e, spiders, Failing(ids, good, capacity), Failing(ids[i..], good, left), now, db)
    && ToCome(s, e, ids, i) && Numbered(e.table)
  }

  lemma ProgressTurn(ids: seq<nat>, good: set<nat>, capacity: nat, i: nat, handed: seq<nat>, failed: seq<nat>, left: nat)
    requires i < |ids| && Progress(ids, good, capacity, i, handed, failed, left)
    ensures ids[i] !in good ==> Progress(ids, good, capacity, i + 1, handed, failed + [ids[i]], left)
                                && Failing(ids[i..], good, left) == [ids[i]] + Failing(ids[i + 1..], good, left)
    ensures ids[i] in good && left > 0 ==> Progress(ids, good, capacity, i + 1, handed + [ids[i]], failed, left - 1)
                                           && Failing(ids[i..], good, left) == Failing(ids[i + 1..], good, left - 1)
    ensures ids[i] in good && left == 0 ==> handed == Assigned(ids, good, capacity) && failed == Failing(ids, good, capacity)
                                            && Failing(ids[i..], good, left) == []
  {
    assert ids[i..][1..] == ids[i + 1..];
    if ids[i] !in good {
      assert failed + ([ids[i]] + Failing(ids[i + 1..], good, left))
             == (failed + [ids[i]]) + Failing(ids[i + 1..], good, left);
    } else if left > 0 {
      assert handed + ([ids[i]] + Assigned(ids[i + 1..], good, left - 1))
             == (handed + [ids[i]]) + Assigned(ids[i + 1..], good, left - 1);
    }
  }

  lemma PassStarts(s: Snap, spiders: map<int, Spider>, ids: seq<nat>, now: int, db: nat -> Db)
    requires Numbered(s.table) && forall j :: 0 <= j < |ids| ==> ids[j] in s.table.rows
    ensures PassAt(s, s, spiders, ids, 0, [], [], now, db)
  {
    hide FailAll, Capacity, Outboxes, Buildable, Assigned, Failing;
    assert ids[0..] == ids;
    assert Messages(s.table.rows, []) == [];
  }

  /** What a finished pass has done. */
  ghost predicate PassDone(s: Snap, e: Snap, spiders: map<int, Spider>, ids: seq<nat>, handed: seq<nat>, failed: seq<nat>,
                           now: int, db: nat -> Db) {
    var good := Buildable(spiders, s.table.rows, ids, db);
    && handed == Assigned(ids, good, Capacity(s.views))
    && failed == Failing(ids, good, Capacity(s.views))
    && Capacity(e.views) == Capacity(s.views) - |handed|
    && e.table == FailAll(s.table, spiders, failed, now, db)
    && HubSide(s, e, handed)
  }

  lemma IndexTurn(first: map<nat, Meta>, before: map<nat, Meta>, after: map<nat, Meta>, rows: map<nat, Row>, handed: seq<nat>,
                  id: nat, c: Sid)
    requires TasksAssigned(first, before, rows, handed) && id in rows
    requires after == before[id := Meta(c, rows[id].ident.spider)]
    ensures TasksAssigned(first, after, rows, handed + [id])
  {
  }

  lemma MessagesNext(rows: map<nat, Row>, handed: seq<nat>, id: nat)
    requires id in rows
    ensures multiset(Messages(rows, handed + [id]))
            == multiset(Messages(rows, handed)) + multiset{AssignTask(id, rows[id].ident.spider)}
  {
    assert Messages(rows, handed + [id]) == Messages(rows, handed) + [AssignTask(id, rows[id].ident.spider)];
  }

  lemma HubTurn(s: Snap, m: Snap, e: Snap, handed: seq<nat>, id: nat)
    requires HubSide(s, m, handed) && id in s.table.rows
    requires AssignOutcome(m.views, m.tasks, id, s.table.rows[id].ident.spider, e.views, e.tasks, true)
    ensures HubSide(s, e, handed + [id])
  {
    var spider := s.table.rows[id].ident.spider;
    AssignSendsOne(m.views, m.tasks, id, spider, e.views, e.tasks, true);
    MessagesNext(s.table.rows, handed, id);
    var c :| TakenBy(m.views, m.tasks, id, spider, e.views, e.tasks, c);
    hide AssignOutcome, Outboxes, Messages, TasksAssigned;
    assert e.tasks == m.tasks[id := Meta(c, spider)];
    IndexTurn(s.tasks, m.tasks, e.tasks, s.table.rows, handed, id, c);
  }

  lemma HubRests(s: Snap, m: Snap, e: Snap, handed: seq<nat>, id: nat, spider: int)
    requires HubSide(s, m, handed) && AssignOutcome(m.views, m.tasks, id, spider, e.views, e.tasks, false)
    ensures HubSide(s, e, handed)
  {
    AssignSendsOne(m.views, m.tasks, id, spider, e.views, e.tasks, false);
    hide Outboxes, Messages, TasksAssigned;
  }

  /** Failing the row at hand leaves the rows to come alone. */
  lemma StillToCome(s: Snap, m: Snap, e: Snap, spiders: map<int, Spider>, ids: seq<nat>, i: nat, now: int, db: nat -> Db)
    requires i < |ids| && Distinct(ids) && ToCome(s, m, ids, i) && Numbered(m.table)
    requires e.table == FailOne(m.table, spiders, ids[i], now, db)
    ensures ToCome(s, e, ids, i + 1) && Numbered(e.table)
  {
    hide RetryOf, BuildError, Updated;
  }

  lemma Unbuildable(s: Snap, m: Snap, spiders: map<int, Spider>, ids: seq<nat>, i: nat, db: nat -> Db)
    requires i < |ids| && ToCome(s, m, ids, i)
    ensures ids[i] in s.table.rows && ids[i] in m.table.rows && m.table.rows[ids[i]] == s.table.rows[ids[i]]
    ensures ids[i] in Buildable(spiders, s.table.rows, ids, db)
            <==> BuildError(spiders, m.table.rows[ids[i]].ident.spider, db(ids[i])).None?
  {
  }

  lemma TurnFails(s: Snap, m: Snap, e: Snap, spiders: map<int, Spider>, ids: seq<nat>, i: nat, handed: seq<nat>,
                  failed: seq<nat>,
                  now: int, db: nat -> Db)
    requires i < |ids| && Distinct(ids) && PassAt(s, m, spiders, ids, i, handed, failed, now, db)
    requires ids[i] in m.table.rows && Turn(m, e, spiders, ids[i], BuildFailed, now, db)
    ensures PassAt(s, e, spiders, ids, i + 1, handed, failed + [ids[i]], now, db)
  {
    var good, capacity, left := Buildable(spiders, s.table.rows, ids, db), Capacity(s.views), Capacity(m.views);
    Unbuildable(s, m, spiders, ids, i, db);
    ProgressTurn(ids, good, capacity, i, handed, failed, left);
    StillToCome(s, m, e, spiders, ids, i, now, db);
    hide Progress, HubSide, ToCome, Buildable, Capacity, FailOne, BuildError, Failing, Assigned, Numbered;
    var rest := Failing(ids[i + 1..], good, left);
    assert ([ids[i]] + rest)[0] == ids[i] && ([ids[i]] + rest)[1..] == rest;
    assert FailAll(m.table, spiders, [ids[i]] + rest, now, db) == FailAll(e.table, spiders, rest, now, db);
    SameHub(s, m, e, handed);
  }

  lemma SameHub(s: Snap, m: Snap, e: Snap, handed: seq<nat>)
    requires HubSide(s, m, handed) && e.tasks == m.tasks && e.views == m.views
    ensures HubSide(s, e, handed)
  {
  }

  lemma TurnHands(s: Snap, m: Snap, e: Snap, spiders: map<int, Spider>, ids: seq<nat>, i: nat, handed: seq<nat>,
                  failed: seq<nat>,
                  now: int, db: nat -> Db)
    requires i < |ids| && Distinct(ids) && PassAt(s, m, spiders, ids, i, handed, failed, now, db)
    requires ids[i] in m.table.rows && Turn(m, e, spiders, ids[i], HandedOver, now, db)
    ensures PassAt(s, e, spiders, ids, i + 1, handed + [ids[i]], failed, now, db)
  {
    hide Progress, HubSide, ToCome, Buildable, Capacity, Failing, Assigned, Numbered, AssignOutcome, FailAll, Turn;
    var id, good, capacity, left := ids[i], Buildable(spiders, s.table.rows, ids, db), Capacity(s.views), Capacity(m.views);
    Unbuildable(s, m, spiders, ids, i, db);
    HandedTurn(m, e, spiders, id, now, db);
    AssignUsesOne(m.views, m.tasks, id, m.table.rows[id].ident.spider, e.views, e.tasks, true);
    ProgressTurn(ids, good, capacity, i, handed, failed, left);
    StillToCome(s, m, e, spiders, ids, i, now, db);
    HubTurn(s, m, e, handed, id);
  }

  lemma HandedTurn(m: Snap, e: Snap, spiders: map<int, Spider>, id: nat, now: int, db: nat -> Db)
    requires id in m.table.rows && Turn(m, e, spiders, id, HandedOver, now, db)
    ensures e.table == m.table == FailOne(m.table, spiders, id, now, db)
    ensures BuildError(spiders, m.table.rows[id].ident.spider, db(id)).None?
    ensures AssignOutcome(m.views, m.tasks, id, m.table.rows[id].ident.spider, e.views, e.tasks, true)
  {
  }

  lemma TurnEnds(s: Snap, m: Snap, e: Snap, spiders: map<int, Spider>, ids: seq<nat>, i: nat, handed: seq<nat>,
                 failed: seq<nat>,
                 now: int, db: nat -> Db)
    requires i < |ids| && PassAt(s, m, spiders, ids, i, handed, failed, now, db)
    requires ids[i] in m.table.rows && Turn(m, e, spiders, ids[i], NoCapacity, now, db)
    ensures PassDone(s, e, spiders, ids, handed, failed, now, db)
  {
    var id, good, capacity, left := ids[i], Buildable(spiders, s.table.rows, ids, db), Capacity(s.views), Capacity(m.views);
    Unbuildable(s, m, spiders, ids, i, db);
    var spider := m.table.rows[id].ident.spider;
    AssignUsesOne(m.views, m.tasks, id, spider, e.views, e.tasks, false);
    ProgressTurn(ids, good, capacity, i, handed, failed, left);
    HubRests(s, m, e, handed, id, spider);
    assert e.table == m.table;
    hide HubSide, ToCome, Buildable, Capacity, FailOne, BuildError, Failing, Assigned, Numbered, AssignOutcome;
  }

  lemma PassEnds(s: Snap, e: Snap, spiders: map<int, Spider>, ids: seq<nat>, handed: seq<nat>, failed: seq<nat>,
                 now: int, db: nat -> Db)
    requires PassAt(s, e, spiders, ids, |ids|, handed, failed, now, db)
    ensures PassDone(s, e, spiders, ids, handed, failed, now, db)
  {
    hide HubSide, ToCome, Buildable, Capacity, Numbered;
    assert ids[|ids|..] == [];
    assert handed + [] == handed && failed + [] == failed;
    assert FailAll(e.table, spiders, [], now, db) == e.table;
  }

  /** What the rows of a finished pass are, spelled out. */
  lemma PassLeaves(s: Snap, e: Snap, spiders: map<int, Spider>, ids: seq<nat>, handed: seq<nat>, failed: seq<nat>,
                   now: int, db: nat -> Db)
    requires PassDone(s, e, spiders, ids, handed, failed, now, db)
    requires Numbered(s.table) && Distinct(ids) && forall j :: 0 <= j < |ids| ==> ids[j] in s.table.rows
    ensures Distinct(failed) && Distinct(handed)
    ensures RowsFailed(s.table, e.table, spiders, failed, now, db, Retries(s.table.rows, spiders, failed, now, db))
  {
    var good := Buildable(spiders, s.table.rows, ids, db);
    PlanIsDistinct(ids, good, Capacity(s.views));
    forall i | 0 <= i < |failed|
      ensures failed[i] in s.table.rows && BuildError(spiders, s.table.rows[failed[i]].ident.spider, db(failed[i])).Some?
    {
      assert failed[i] in failed;
    }
    hide PassDone, RowsFailed, FailAll, BuildError, Retries;
    assert e.table == FailAll(s.table, spiders, failed, now, db) by {
      PassTable(s, e, spiders, ids, handed, failed, now, db);
    }
    FailedRows(s.table, spiders, failed, now, db);
  }

  lemma PassTable(s: Snap, e: Snap, spiders: map<int, Spider>, ids: seq<nat>, handed: seq<nat>, failed: seq<nat>,
                  now: int, db: nat -> Db)
    requires PassDone(s, e, spiders, ids, handed, failed, now, db)
    ensures e.table == FailAll(s.table, spiders, failed, now, db)
  {
  }

  /** A queued row whose time has come. */
  predicate Due(rows: map<nat, Row>, id: nat, now: int) {
    && id in rows && rows[id].status == Queued
    && (rows[id].ident.notBefore.None? || rows[id].ident.notBefore.value <= now)
  }

  /** The row's spider is found and has synced source. */
  predicate HasSource(rows: map<nat, Row>, spiders: map<int, Spider>, id: nat, db: Db) {
    && id in rows && db.lookedUp && rows[id].ident.spider in spiders
    && spiders[rows[id].ident.spider].sourceKey != ""
  }

  /** The failed row shows which of the two is missing. */
  predicate ShowsMissing(row: Row, found: bool, now: int) {
    && row.status == Failed && row.errorClass == "build_assign" && row.finishedAt == Some(now)
    && row.error == if found then "spider has no synced source" else "lookup spider: not found"
  }

  /** The failure of a row without source is in the table if it could be saved. */
  predicate FailureShown(rows: map<nat, Row>, after: map<nat, Row>, spiders: map<int, Spider>, id: nat, now: int, db: Db) {
    && id in rows && id in after
    && (if db.saved then ShowsMissing(after[id], db.lookedUp && rows[id].ident.spider in spiders, now)
        else after[id] == rows[id])
  }

  /** What became of the due rows: handed over with a source, failed without one, and none
      left while there was capacity. */
  ghost predicate RightRows(s: Snap, e: Snap, spiders: map<int, Spider>, handed: seq<nat>, failed: seq<nat>, now: int,
                            db: nat -> Db) {
    var rows, after := s.table.rows, e.table.rows;
    && (forall id :: id in handed ==> Due(rows, id, now) && HasSource(rows, spiders, id, db(id)))
    && (forall id :: id in failed ==>
          Due(rows, id, now) && !HasSource(rows, spiders, id, db(id)) && FailureShown(rows, after, spiders, id, now, db(id)))
    && (forall id :: Due(rows, id, now) && id !in handed && id !in failed ==> |handed| == Capacity(s.views))
  }

  lemma FailShows(tb: Table, spiders: map<int, Spider>, id: nat, now: int, db: nat -> Db)
    requires Numbered(tb) && id in tb.rows && !HasSource(tb.rows, spiders, id, db(id))
    ensures FailureShown(tb.rows, FailOne(tb, spiders, id, now, db).rows, spiders, id, now, db(id))
  {
    BuildsIff(spiders, tb.rows[id].ident.spider, db(id));
    hide RetryOf;
  }

  lemma PassMembers(s: Snap, e: Snap, spiders: map<int, Spider>, ids: seq<nat>, handed: seq<nat>, failed: seq<nat>,
                    now: int, db: nat -> Db) returns (n: nat)
    requires PassDone(s, e, spiders, ids, handed, failed, now, db)
    ensures var good := Buildable(spiders, s.table.rows, ids, db);
            && n <= |ids| && (n < |ids| ==> |handed| == Capacity(s.views))
            && (forall x :: x in handed <==> x in ids[..n] && x in good)
            && (forall x :: x in failed <==> x in ids[..n] && x !in good)
  {
    n := PassSplits(ids, Buildable(spiders, s.table.rows, ids, db), Capacity(s.views));
    hide Capacity, Assigned, Failing, Buildable, HubSide, FailAll;
  }

  /** The rows listed are the due ones, and the buildable ones among them those with source. */
  lemma ListedRows(rows: map<nat, Row>, spiders: map<int, Spider>, ids: seq<nat>, now: int, db: nat -> Db)
    requires IsListing(rows, now, ids)
    ensures forall id :: id in ids <==> Due(rows, id, now)
    ensures forall i, j :: 0 <= i < j < |ids| ==>
              ids[i] in rows && ids[j] in rows && rows[ids[i]].ident.queuedAt <= rows[ids[j]].ident.queuedAt
    ensures forall id :: id in ids ==>
              (id in Buildable(spiders, rows, ids, db) <==> HasSource(rows, spiders, id, db(id)))
  {
    forall id | id in ids
      ensures id in Buildable(spiders, rows, ids, db) <==> HasSource(rows, spiders, id, db(id))
    {
      BuildsIff(spiders, rows[id].ident.spider, db(id));
    }
  }

  lemma FailedShow(tb: Table, after: Table, spiders: map<int, Spider>, ids: seq<nat>, now: int, db: nat -> Db,
                   kids: seq<Identity>)
    requires RowsFailed(tb, after, spiders, ids, now, db, kids)
    ensures forall id :: id in ids && id in tb.rows && !HasSource(tb.rows, spiders, id, db(id)) ==>
              FailureShown(tb.rows, after.rows, spiders, id, now, db(id))
  {
    forall id | id in ids && id in tb.rows && !HasSource(tb.rows, spiders, id, db(id))
      ensures FailureShown(tb.rows, after.rows, spiders, id, now, db(id))
    {
      BuildsIff(spiders, tb.rows[id].ident.spider, db(id));
    }
  }

  /** Of all due rows in the listing's first `n`, the members of `good` are those handed. */
  lemma MembersRight(rows: map<nat, Row>, spiders: map<int, Spider>, ids: seq<nat>, n: nat, good: set<nat>,
                     handed: seq<nat>, failed: seq<nat>, now: int, db: nat -> Db)
    requires n <= |ids| && forall id :: id in ids <==> Due(rows, id, now)
    requires forall id :: id in ids ==> (id in good <==> HasSource(rows, spiders, id, db(id)))
    requires forall x :: x in handed <==> x in ids[..n] && x in good
    requires forall x :: x in failed <==> x in ids[..n] && x !in good
    ensures forall id :: id in handed ==> Due(rows, id, now) && HasSource(rows, spiders, id, db(id))
    ensures forall id :: id in failed ==> Due(rows, id, now) && !HasSource(rows, spiders, id, db(id))
    ensures forall id :: Due(rows, id, now) && id !in handed && id !in failed ==> n < |ids|
  {
    assert forall x :: x in ids[..n] ==> x in ids;
    if n == |ids| {
      assert ids[..n] == ids;
    }
    hide Due, HasSource;
  }

  /** What a finished pass has done with the rows that were due, whatever the plan. */
  lemma PassRows(s: Snap, e: Snap, spiders: map<int, Spider>, ids: seq<nat>, handed: seq<nat>, failed: seq<nat>,
                 now: int, db: nat -> Db)
    requires PassDone(s, e, spiders, ids, handed, failed, now, db)
    requires Numbered(s.table) && IsListing(s.table.rows, now, ids)
    ensures RightRows(s, e, spiders, handed, failed, now, db)
  {
    hide *;
    var rows := s.table.rows;
    Listed(rows, now, ids);
    ListedRows(rows, spiders, ids, now, db);
    PassLeaves(s, e, spiders, ids, handed, failed, now, db);
    var n := PassMembers(s, e, spiders, ids, handed, failed, now, db);
    MembersRight(rows, spiders, ids, n, Buildable(spiders, rows, ids, db), handed, failed, now, db);
    FailedShow(s.table, e.table, spiders, failed, now, db, Retries(rows, spiders, failed, now, db));
    RightBy(s, e, spiders, handed, failed, now, db);
  }

  lemma Listed(rows: map<nat, Row>, now: int, ids: seq<nat>)
    requires IsListing(rows, now, ids)
    ensures Distinct(ids) && forall i :: 0 <= i < |ids| ==> ids[i] in rows
  {
  }

  lemma PassResult(s: Snap, e: Snap, spiders: map<int, Spider>, ids: seq<nat>, handed: seq<nat>, failed: seq<nat>,
                   now: int, db: nat -> Db)
    requires PassDone(s, e, spiders, ids, handed, failed, now, db)
    requires Numbered(s.table) && IsListing(s.table.rows, now, ids)
    ensures Distinct(failed) && Distinct(handed)
    ensures RowsFailed(s.table, e.table, spiders, failed, now, db, Retries(s.table.rows, spiders, failed, now, db))
    ensures RightRows(s, e, spiders, handed, failed, now, db)
  {
    hide *;
    Listed(s.table.rows, now, ids);
    PassLeaves(s, e, spiders, ids, handed, failed, now, db);
    PassRows(s, e, spiders, ids, handed, failed, now, db);
  }

  lemma RightBy(s: Snap, e: Snap, spiders: map<int, Spider>, handed: seq<nat>, failed: seq<nat>, now: int, db: nat -> Db)
    requires forall id :: id in handed ==> Due(s.table.rows, id, now) && HasSource(s.table.rows, spiders, id, db(id))
    requires forall id :: id in failed ==> Due(s.table.rows, id, now) && !HasSource(s.table.rows, spiders, id, db(id))
    requires forall id :: id in failed && id in s.table.rows && !HasSource(s.table.rows, spiders, id, db(id)) ==>
               FailureShown(s.table.rows, e.table.rows, spiders, id, now, db(id))
    requires forall id :: Due(s.table.rows, id, now) && id !in handed && id !in failed ==> |handed| == Capacity(s.views)
    ensures RightRows(s, e, spiders, handed, failed, now, db)
  {
    hide HasSource, FailureShown, Capacity;
  }

  lemma {:induction false} PlanIsDistinct(ids: seq<nat>, good: set<nat>, capacity: nat)
    requires Distinct(ids)
    ensures Distinct(Assigned(ids, good, capacity)) && Distinct(Failing(ids, good, capacity))
    ensures forall x :: x in Assigned(ids, good, capacity) ==> x in ids && x in good
    ensures forall x :: x in Failing(ids, good, capacity) ==> x in ids && x !in good
  {
    if ids != [] {
      assert forall j :: 0 <= j < |ids| - 1 ==> ids[1..][j] == ids[j + 1];
      PlanIsDistinct(ids[1..], good, capacity);
      if capacity > 0 {
        PlanIsDistinct(ids[1..], good, capacity - 1);
      }
    }
  }
}
