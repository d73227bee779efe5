// The master's read loop for one connection, in place: each message a worker sends is
// turned into a status write and a slot release, an item row, or a log line.
module MasterLoop {
  import opened Options
  import opened WorkerRun
  import opened RunDelivery
  import TT = TaskTable
  import RE = Reports
  import TS = TaskService
  import RP = RetryPolicy
  import HL = HubLedger
  import WH = WorkerHub

  /** What the item sink inserts. */
  datatype ItemRow = ItemRow(task: nat, spider: int, payload: string)

  /** The update reaches the row: its state is known and the write did not fail. */
  predicate Lands(r: Receipt) {
    r.msg.Update? && MapState(r.msg.state).Some? && r.persisted
  }

  predicate Releases(r: Receipt) {
    Lands(r) && IsTerminal(r.msg.state)
  }

  function LogLines(rs: seq<Receipt>): seq<Msg> {
    if rs == [] then []
    else
      var last := rs[|rs| - 1].msg;
      LogLines(rs[..|rs| - 1]) + (if last.LogLine? then [last] else [])
  }

  /** Every old row has got exactly the writes `ws` says. */
  ghost predicate RowsWritten(before: map<nat, TT.Row>, after: map<nat, TT.Row>, rs: seq<Receipt>, worker: string) {
    forall t :: t in before ==> t in after && after[t] == TT.Written(before[t], Writes(rs, t, worker))
  }

  lemma WrittenNext(row: TT.Row, rs: seq<Receipt>, r: Receipt, t: nat, worker: string)
    ensures TT.Written(row, Writes(rs + [r], t, worker))
            == if WriteOf(r, t, worker) == [] then TT.Written(row, Writes(rs, t, worker))
               else TT.Updated(TT.Written(row, Writes(rs, t, worker)), WriteOf(r, t, worker)[0])
  {
    var ws, more := Writes(rs, t, worker), WriteOf(r, t, worker);
    assert (rs + [r])[..|rs|] == rs;
    if more == [] {
      assert ws + more == ws;
    } else {
      assert (ws + more)[..|ws|] == ws && (ws + more)[|ws|] == more[0];
    }
  }

  /** The status write of an update that lands. */
  function WriteFor(r: Receipt, worker: string): TT.Write
    requires Lands(r)
  {
    TT.Write(MapState(r.msg.state).value, r.msg.error, r.msg.errorClass, worker, r.at)
  }

  /** The table after one message: an update that lands is reported, nothing else counts. */
  function After(tb: TT.Table, spiders: map<int, RE.Spider>, r: Receipt, worker: string, db: RE.Db): TT.Table {
    if Lands(r) then RE.Reported(tb, spiders, r.msg.task, WriteFor(r, worker), db) else tb
  }

  function AfterAll(tb: TT.Table, spiders: map<int, RE.Spider>, rs: seq<Receipt>, worker: string, db: nat -> RE.Db): TT.Table
    decreases |rs|
  {
    if rs == [] then tb
    else After(AfterAll(tb, spiders, rs[..|rs| - 1], worker, db), spiders, rs[|rs| - 1], worker, db(|rs| - 1))
  }

  lemma ReportedRows(tb: TT.Table, spiders: map<int, RE.Spider>, t: nat, w: TT.Write, db: RE.Db)
    requires TT.Numbered(tb)
    ensures var after := RE.Reported(tb, spiders, t, w, db);
            && TT.Numbered(after)
            && (forall id :: id in tb.rows ==>
                  id in after.rows && after.rows[id] == if id == t then TT.Updated(tb.rows[id], w) else tb.rows[id])
            && (forall id :: id in after.rows && id !in tb.rows ==>
                  id == tb.nextId && RE.ChildOf(tb, spiders, t, w, db).Some?
                  && after.rows[id] == TT.Inserted(RE.ChildOf(tb, spiders, t, w, db).value))
  {
    hide RE.ChildOf, TT.Updated;
  }

  lemma OneWrite(row: TT.Row, r: Receipt, t: nat, worker: string)
    ensures TT.Written(row, Writes([r], t, worker))
            == if Lands(r) && r.msg.task == t then TT.Updated(row, WriteFor(r, worker)) else row
  {
    WrittenNext(row, [], r, t, worker);
    assert [] + [r] == [r];
  }

  /** One message writes its own row and adds at most the retry it asks for. */
  lemma AfterOne(tb: TT.Table, spiders: map<int, RE.Spider>, r: Receipt, worker: string, db: RE.Db)
    requires TT.Numbered(tb)
    ensures var after := After(tb, spiders, r, worker, db);
            && TT.Numbered(after) && RowsWritten(tb.rows, after.rows, [r], worker)
            && (forall id :: id in after.rows ==> id in tb.rows || Adds(tb, spiders, r, worker, db, id))
  {
    if Lands(r) {
      ReportedRows(tb, spiders, r.msg.task, WriteFor(r, worker), db);
    }
    hide RE.Reported, TT.Updated, RE.RetryOf, TT.Numbered;
    forall t | t in tb.rows
      ensures t in After(tb, spiders, r, worker, db).rows
              && After(tb, spiders, r, worker, db).rows[t] == TT.Written(tb.rows[t], Writes([r], t, worker))
    {
      OneWrite(tb.rows[t], r, t, worker);
    }
  }

  /** Message `r` adds row `id`: the queued retry of the failed task, and nothing else. */
  ghost predicate Adds(tb: TT.Table, spiders: map<int, RE.Spider>, r: Receipt, worker: string, db: RE.Db, id: nat) {
    && Lands(r) && id == tb.nextId && r.msg.task in tb.rows && RE.MayRetry(WriteFor(r, worker).status)
    && var child := RE.RetryOf(spiders, r.msg.task, tb.rows[r.msg.task], r.msg.errorClass, r.at, db);
    && child.Some? && id in After(tb, spiders, r, worker, db).rows
    && After(tb, spiders, r, worker, db).rows[id] == TT.Inserted(child.value)
  }

  /** Row `id` was added by message `i`. */
  ghost predicate AddedBy(tb: TT.Table, spiders: map<int, RE.Spider>, rs: seq<Receipt>, worker: string,
                          db: nat -> RE.Db, id: nat, i: nat) {
    i < |rs| && Adds(AfterAll(tb, spiders, rs[..i], worker, db), spiders, rs[i], worker, db(i), id)
  }

  /** After any messages: old rows have got their own writes, and every new row is the
      retry of a failure reported in one of the messages. */
  lemma {:induction false} AfterMany(tb: TT.Table, spiders: map<int, RE.Spider>, rs: seq<Receipt>, worker: string,
                                     db: nat -> RE.Db)
    requires TT.Numbered(tb)
    ensures TT.Numbered(AfterAll(tb, spiders, rs, worker, db))
    ensures RowsWritten(tb.rows, AfterAll(tb, spiders, rs, worker, db).rows, rs, worker)
    ensures forall id :: id in AfterAll(tb, spiders, rs, worker, db).rows && id !in tb.rows ==>
              exists i: nat :: AddedBy(tb, spiders, rs, worker, db, id, i)
    decreases |rs|
  {
    hide RowsWritten, After, Adds, TT.Numbered;
    if rs == [] {
      NothingYet(tb.rows, worker);
    } else {
      var n, init, r := |rs| - 1, rs[..|rs| - 1], rs[|rs| - 1];
      var mid := AfterAll(tb, spiders, init, worker, db);
      AfterMany(tb, spiders, init, worker, db);
      AfterOne(mid, spiders, r, worker, db(n));
      assert rs == init + [r];
      RowsNext(tb.rows, mid.rows, After(mid, spiders, r, worker, db(n)).rows, init, r, worker);
      forall id | id in AfterAll(tb, spiders, rs, worker, db).rows && id !in tb.rows
        ensures exists i: nat :: AddedBy(tb, spiders, rs, worker, db, id, i)
      {
        if id in mid.rows {
          var i: nat :| AddedBy(tb, spiders, init, worker, db, id, i);
          assert init[..i] == rs[..i];
          assert AddedBy(tb, spiders, rs, worker, db, id, i);
        } else {
          assert AddedBy(tb, spiders, rs, worker, db, id, n);
        }
      }
    }
  }

  lemma NothingYet(rows: map<nat, TT.Row>, worker: string)
    ensures RowsWritten(rows, rows, [], worker)
  {
  }

  lemma RowsNext(first: map<nat, TT.Row>, before: map<nat, TT.Row>, after: map<nat, TT.Row>,
                 rs: seq<Receipt>, r: Receipt, worker: string)
    requires RowsWritten(first, before, rs, worker) && RowsWritten(before, after, [r], worker)
    ensures RowsWritten(first, after, rs + [r], worker)
  {
    forall t | t in first
      ensures t in after && after[t] == TT.Written(first[t], Writes(rs + [r], t, worker))
    {
      WrittenNext(first[t], rs, r, t, worker);
      WrittenNext(before[t], [], r, t, worker);
      assert [] + [r] == [r];
      assert before[t] == TT.Written(first[t], Writes(rs, t, worker));
      assert TT.Written(before[t], Writes([], t, worker)) == before[t];
    }
  }

  // ---- everything one connection's messages touch -----------------------------------------

  /** A persisted update of a known state; one that ends the run releases its slot. */
  predicate Counts(r: Receipt) {
    r.msg.Update? && r.persisted && r.msg.state != Unspecified
  }

  predicate EndsRun(r: Receipt) {
    Counts(r) && r.msg.state in {Succeeded, Failed, Cancelled, Timeout, Captcha}
  }

  datatype ArtifactRow = ArtifactRow(task: nat, name: string, key: string)

  /** The table, the hub's index, the connection's session with the running count it last
      reported, and what the sinks were given. */
  datatype Loop = Loop(table: TT.Table, tasks: map<nat, HL.Meta>, session: HL.Session, reported: int,
                       items: seq<ItemRow>, artifacts: seq<ArtifactRow>, logged: seq<Msg>)

  /** One message. `persisted` is of whatever write the message leads to. */
  function OnMessage(l: Loop, spiders: map<int, RE.Spider>, r: Receipt, worker: string, db: RE.Db): Loop {
    match r.msg
    case Update(t, _, _, _) =>
      var after := l.(table := After(l.table, spiders, r, worker, db));
      if Releases(r) then after.(tasks := l.tasks - {t}, session := HL.Released(l.session, t)) else after
    case LogLine(_, _, _) => l.(logged := l.logged + [r.msg])
    case Item(t, payload) =>
      if t in l.tasks && r.persisted then l.(items := l.items + [ItemRow(t, l.tasks[t].spider, payload)]) else l
    case Artifact(t, name, key) =>
      if r.persisted then l.(artifacts := l.artifacts + [ArtifactRow(t, name, key)]) else l
    case Heartbeat(running, freeSlots) => l.(reported := running, session := l.session.(free := freeSlots))
  }

  /** The row of an update shows its state, errors and worker. */
  predicate RowShows(before: TT.Row, after: TT.Row, r: Receipt, worker: string)
    requires r.msg.Update?
  {
    && after.ident == before.ident
    && SameOutcome(after.status, r.msg.state) && after.error == r.msg.error && after.errorClass == r.msg.errorClass
    && after.worker == (if worker == "" then before.worker else worker)
    && after.finishedAt == (if EndsRun(r) then Some(r.at) else before.finishedAt)
  }

  /** What a message changes, kind by kind, and that it changes nothing else. */
  ghost predicate MessageShows(l: Loop, e: Loop, r: Receipt, worker: string) {
    match r.msg
    case Update(t, _, _, _) =>
      && e == l.(table := e.table, tasks := e.tasks, session := e.session)
      && (!Counts(r) ==> e == l)
      && (Counts(r) && t in l.table.rows ==>
            t in e.table.rows && RowShows(l.table.rows[t], e.table.rows[t], r, worker))
      && e.tasks == (if EndsRun(r) then l.tasks - {t} else l.tasks)
      && e.session == (if EndsRun(r) then HL.Released(l.session, t) else l.session)
    case LogLine(_, _, _) => e == l.(logged := l.logged + [r.msg])
    case Item(t, payload) =>
      && e == l.(items := e.items)
      && (if r.persisted && t in l.tasks then
            && |e.items| == |l.items| + 1 && e.items[..|l.items|] == l.items
            && var item := e.items[|l.items|];
               item.task == t && item.spider == l.tasks[t].spider && item.payload == payload
          else e == l)
    case Artifact(t, name, key) =>
      && e == l.(artifacts := e.artifacts)
      && (if r.persisted then
            && |e.artifacts| == |l.artifacts| + 1 && e.artifacts[..|l.artifacts|] == l.artifacts
            && var a := e.artifacts[|l.artifacts|];
               a.task == t && a.name == name && a.key == key
          else e == l)
    case Heartbeat(running, freeSlots) =>
      && e == l.(reported := e.reported, session := e.session)
      && e.reported == running && e.session.free == freeSlots
      && e.session == l.session.(free := e.session.free)
  }

  lemma UpdateMeans(l: Loop, spiders: map<int, RE.Spider>, r: Receipt, worker: string, db: RE.Db)
    requires TT.Numbered(l.table) && r.msg.Update?
    ensures MessageShows(l, OnMessage(l, spiders, r, worker, db), r, worker)
  {
    WriteByState(r, r.msg.task, worker);
    if Lands(r) {
      ReportedRows(l.table, spiders, r.msg.task, WriteFor(r, worker), db);
    }
    hide RE.Reported, RE.ChildOf, HL.Released;
  }

  lemma MessageMeans(l: Loop, spiders: map<int, RE.Spider>, r: Receipt, worker: string, db: RE.Db)
    requires TT.Numbered(l.table)
    ensures MessageShows(l, OnMessage(l, spiders, r, worker, db), r, worker)
  {
    if r.msg.Update? {
      UpdateMeans(l, spiders, r, worker, db);
    }
    hide After;
  }

  function OnMessages(l: Loop, spiders: map<int, RE.Spider>, rs: seq<Receipt>, worker: string, db: nat -> RE.Db): Loop
    decreases |rs|
  {
    if rs == [] then l
    else
      var n := |rs| - 1;
      OnMessage(OnMessages(l, spiders, rs[..n], worker, db), spiders, rs[n], worker, db(n))
  }

  function ReleaseCount(rs: seq<Receipt>): nat {
    if rs == [] then 0 else ReleaseCount(rs[..|rs| - 1]) + (if EndsRun(rs[|rs| - 1]) then 1 else 0)
  }

  /** The item rows the messages leave: the persisted items of tasks indexed at the start and
      not ended by an earlier message, with their spider then, in order. */
  function ItemRows(tasks: map<nat, HL.Meta>, rs: seq<Receipt>): seq<ItemRow> {
    if rs == [] then []
    else
      var init, r := rs[..|rs| - 1], rs[|rs| - 1];
      ItemRows(tasks, init)
      + (if r.msg.Item? && r.persisted && r.msg.task in tasks && r.msg.task !in EndedBy(init)
         then [ItemRow(r.msg.task, tasks[r.msg.task].spider, r.msg.payload)] else [])
  }

  /** The tasks some message reported as ended. */
  function EndedBy(rs: seq<Receipt>): set<nat> {
    set i | 0 <= i < |rs| && EndsRun(rs[i]) :: rs[i].msg.task
  }

  function ArtifactRows(rs: seq<Receipt>): seq<ArtifactRow> {
    if rs == [] then []
    else
      var r := rs[|rs| - 1];
      ArtifactRows(rs[..|rs| - 1])
      + (if r.msg.Artifact? && r.persisted then [ArtifactRow(r.msg.task, r.msg.name, r.msg.key)] else [])
  }

  /** What the messages leave of the hub: exactly the ended tasks are gone from the index
      and from the session, whose outbox they do not touch. */
  ghost predicate HubAfter(l: Loop, e: Loop, rs: seq<Receipt>) {
    && e.tasks == l.tasks - EndedBy(rs)
    && e.session.running == l.session.running - EndedBy(rs)
    && e.session.outbox == l.session.outbox && e.session.concurrency == l.session.concurrency
  }

  lemma EndedNext(rs: seq<Receipt>, r: Receipt)
    ensures EndedBy(rs + [r]) == EndedBy(rs) + (if EndsRun(r) then {r.msg.task} else {})
    ensures (rs + [r])[..|rs|] == rs && (rs + [r])[|rs|] == r
  {
    var more := rs + [r];
    assert forall i :: 0 <= i < |rs| ==> more[i] == rs[i];
    assert more[|rs|] == r;
    forall t | t in EndedBy(rs)
      ensures t in EndedBy(more)
    {
      var i :| 0 <= i < |rs| && EndsRun(rs[i]) && rs[i].msg.task == t;
      assert EndsRun(more[i]);
    }
  }

  /** The sinks and the hub's side after the messages `rs`. */
  ghost predicate Left(l: Loop, e: Loop, rs: seq<Receipt>) {
    && HubAfter(l, e, rs)
    && e.items == l.items + ItemRows(l.tasks, rs)
    && e.artifacts == l.artifacts + ArtifactRows(rs)
    && e.logged == l.logged + LogLines(rs)
  }

  lemma LeftNext(l: Loop, m: Loop, e: Loop, rs: seq<Receipt>, r: Receipt, worker: string)
    requires Left(l, m, rs) && MessageShows(m, e, r, worker)
    ensures Left(l, e, rs + [r])
  {
    EndedNext(rs, r);
    assert ItemRows(l.tasks, rs + [r])
           == ItemRows(l.tasks, rs)
              + (if r.msg.Item? && r.persisted && r.msg.task in l.tasks && r.msg.task !in EndedBy(rs)
                 then [ItemRow(r.msg.task, l.tasks[r.msg.task].spider, r.msg.payload)] else []);
    hide EndedBy, ItemRows, RowShows;
    if r.msg.Item? && e != m {
      assert e.items == m.items + [e.items[|m.items|]];
    }
    if r.msg.Artifact? && e != m {
      assert e.artifacts == m.artifacts + [e.artifacts[|m.artifacts|]];
    }
  }

  /** The sinks, the index and the session after any messages: exactly the ended tasks have
      left the index and the session; each persisted item of a task still indexed is stored
      with its spider, in order, and no other; and so are the artifacts and log lines. */
  lemma {:induction false} LoopLeaves(l: Loop, spiders: map<int, RE.Spider>, rs: seq<Receipt>, worker: string,
                                      db: nat -> RE.Db)
    requires TT.Numbered(l.table)
    ensures var e := OnMessages(l, spiders, rs, worker, db);
            e.table == AfterAll(l.table, spiders, rs, worker, db) && TT.Numbered(e.table) && Left(l, e, rs)
    decreases |rs|
  {
    if rs == [] {
      assert l.tasks - {} == l.tasks && l.session.running - {} == l.session.running;
    } else {
      var n := |rs| - 1;
      var m := OnMessages(l, spiders, rs[..n], worker, db);
      LoopLeaves(l, spiders, rs[..n], worker, db);
      assert rs == rs[..n] + [rs[n]];
      MessageMeans(m, spiders, rs[n], worker, db(n));
      LeftNext(l, m, OnMessage(m, spiders, rs[n], worker, db(n)), rs[..n], rs[n], worker);
      AfterMany(l.table, spiders, rs, worker, db);
      hide Left, After, MessageShows, TT.Numbered, RowsWritten, AddedBy;
    }
  }

  /** The free slots after `n` releases: one more each, up to the concurrency. */
  function Freed(free: int, concurrency: int, n: nat): int {
    if free >= concurrency then free else if free + n < concurrency then free + n else concurrency
  }

  /** Without heartbeats the free slots grow by one per ended run, up to the concurrency, and
      the running count stays. */
  lemma {:induction false} FreeSlotsAfter(l: Loop, spiders: map<int, RE.Spider>, rs: seq<Receipt>, worker: string,
                                          db: nat -> RE.Db)
    requires TT.Numbered(l.table) && forall i :: 0 <= i < |rs| ==> !rs[i].msg.Heartbeat?
    ensures var e := OnMessages(l, spiders, rs, worker, db);
            && e.session.free == Freed(l.session.free, l.session.concurrency, ReleaseCount(rs))
            && e.reported == l.reported
    decreases |rs|
  {
    if rs != [] {
      var n := |rs| - 1;
      var m := OnMessages(l, spiders, rs[..n], worker, db);
      FreeSlotsAfter(l, spiders, rs[..n], worker, db);
      LoopLeaves(l, spiders, rs[..n], worker, db);
      MessageMeans(m, spiders, rs[n], worker, db(n));
      assert rs == rs[..n] + [rs[n]];
      FreeNext(l, m, OnMessage(m, spiders, rs[n], worker, db(n)), rs[..n], l.session.free, rs[..n], rs[n], worker);
    }
    hide OnMessage, Left, TT.Numbered;
  }

  lemma ConcurrencyKept(l: Loop, m: Loop, rs: seq<Receipt>)
    requires Left(l, m, rs)
    ensures m.session.concurrency == l.session.concurrency
  {
  }

  /** The same of one more message that is no heartbeat. */
  lemma FreeNext(l: Loop, m: Loop, e: Loop, rs: seq<Receipt>, free: int, more: seq<Receipt>, r: Receipt, worker: string)
    requires Left(l, m, rs) && MessageShows(m, e, r, worker) && !r.msg.Heartbeat?
    requires m.session.free == Freed(free, l.session.concurrency, ReleaseCount(more))
    ensures e.session.free == Freed(free, l.session.concurrency, ReleaseCount(more + [r])) && e.reported == m.reported
  {
    ConcurrencyKept(l, m, rs);
    assert (more + [r])[..|more|] == more;
    hide Left, RowShows;
  }

  /** A heartbeat overwrites both numbers: after it the free slots grow from what it said,
      whatever came before. */
  lemma {:induction false} HeartbeatOverwrites(l: Loop, spiders: map<int, RE.Spider>, before: seq<Receipt>, beat: Receipt,
                                               rs: seq<Receipt>, worker: string, db: nat -> RE.Db)
    requires TT.Numbered(l.table) && beat.msg.Heartbeat? && forall i :: 0 <= i < |rs| ==> !rs[i].msg.Heartbeat?
    ensures var e := OnMessages(l, spiders, before + [beat] + rs, worker, db);
            && e.reported == beat.msg.running
            && e.session.free == Freed(beat.msg.freeSlots, l.session.concurrency, ReleaseCount(rs))
    decreases |rs|
  {
    hide OnMessage, Left, TT.Numbered;
    if rs == [] {
      assert before + [beat] + rs == before + [beat];
      assert (before + [beat])[..|before|] == before;
      LoopLeaves(l, spiders, before, worker, db);
      var m := OnMessages(l, spiders, before, worker, db);
      MessageMeans(m, spiders, beat, worker, db(|before|));
    } else {
      var n := |rs| - 1;
      var seen := before + [beat] + rs[..n];
      assert before + [beat] + rs == seen + [rs[n]] && (seen + [rs[n]])[..|seen|] == seen;
      HeartbeatOverwrites(l, spiders, before, beat, rs[..n], worker, db);
      LoopLeaves(l, spiders, seen, worker, db);
      var m := OnMessages(l, spiders, seen, worker, db);
      MessageMeans(m, spiders, rs[n], worker, db(|seen|));
      FreeNext(l, m, OnMessage(m, spiders, rs[n], worker, db(|seen|)), seen, beat.msg.freeSlots, rs[..n], rs[n], worker);
      assert rs == rs[..n] + [rs[n]];
    }
  }

  class ReadLoop {
    const svc: TS.Service
    const conn: WH.Conn
    const worker: string
    var reported: int
    var items: seq<ItemRow>
    var artifacts: seq<ArtifactRow>
    var logged: seq<Msg>

    constructor (svc: TS.Service, conn: WH.Conn, worker: string)
      ensures this.svc == svc && this.conn == conn && this.worker == worker
      ensures reported == 0 && items == [] && artifacts == [] && logged == []
    {
      this.svc, this.conn, this.worker := svc, conn, worker;
      reported, items, artifacts, logged := 0, [], [], [];
    }

    ghost predicate Valid()
      reads this, svc, svc.table, svc.hub
    {
      svc.table.Valid() && svc.hub.Valid()
    }

    ghost function Now(): Loop
      reads this, svc, svc.table, svc.hub, conn
    {
      Loop(svc.table.View(), svc.hub.tasks, conn.View(), reported, items, artifacts, logged)
    }

    /** A task update: unknown states and failed writes stop here, and only a terminal
        state that was written frees the slot. */
    method OnTaskUpdate(r: Receipt, db: RE.Db)
      requires Valid() && r.msg.Update?
      modifies svc.table, svc.hub`tasks, conn
      ensures Valid() && Now() == OnMessage(old(Now()), svc.spiders, r, worker, db)
    {
      var status := MapState(r.msg.state);
      if status.None? || !r.persisted {
        return;
      }
      var w := TT.Write(status.value, r.msg.error, r.msg.errorClass, worker, r.at);
      var _ := svc.OnUpdate(r.msg.task, w, db);
      if IsTerminal(r.msg.state) {
        svc.hub.ReleaseTask(conn, r.msg.task);
      }
    }

    /** An item is stored only while the hub knows its task, with the hub's spider. */
    method OnItem(t: nat, payload: string, stored: bool)
      modifies `items
      ensures items == if t in svc.hub.tasks && stored then old(items) + [ItemRow(t, svc.hub.tasks[t].spider, payload)]
                       else old(items)
    {
      var meta, ok := svc.hub.LookupTask(t);
      if !ok {
        return;
      }
      if stored {
        items := items + [ItemRow(t, meta.spider, payload)];
      }
    }

    /** One turn of the loop. */
    method Handle(r: Receipt, db: RE.Db)
      requires Valid()
      modifies this, svc.table, svc.hub`tasks, conn
      ensures Valid() && Now() == OnMessage(old(Now()), svc.spiders, r, worker, db)
      ensures MessageShows(old(Now()), Now(), r, worker)
    {
      MessageMeans(Now(), svc.spiders, r, worker, db);
      match r.msg
      case Update(_, _, _, _) => OnTaskUpdate(r, db);
      case LogLine(_, _, _) => logged := logged + [r.msg];
      case Item(t, payload) => OnItem(t, payload, r.persisted);
      case Artifact(t, name, key) =>
        if r.persisted {
          artifacts := artifacts + [ArtifactRow(t, name, key)];
        }
      case Heartbeat(running, freeSlots) =>
        reported := running;
        conn.free := freeSlots;
    }

    /** The loop: over any sequence of messages, known and unknown tasks mixed, every row
        there was at the start has got the writes of its own updates, in order, and
        nothing else, every new row is the retry of a failure among the messages, and
        exactly the tasks they released are gone from the index and the session. */
    method Serve(rs: seq<Receipt>, db: nat -> RE.Db)
      requires Valid()
      modifies this, svc.table, svc.hub`tasks, conn
      ensures Valid() && Now() == OnMessages(old(Now()), svc.spiders, rs, worker, db)
      ensures RowsWritten(old(svc.table.rows), svc.table.rows, rs, worker)
      ensures forall id :: id in svc.table.rows && id !in old(svc.table.rows) ==>
                exists i: nat :: AddedBy(old(svc.table.View()), svc.spiders, rs, worker, db, id, i)
      ensures Left(old(Now()), Now(), rs)
    {
      hide RowsWritten, Left, OnMessage, AddedBy, AfterAll, MessageShows;
      for i := 0 to |rs|
        invariant Valid() && Now() == OnMessages(old(Now()), svc.spiders, rs[..i], worker, db)
      {
        Handle(rs[i], db(i));
        assert rs[..i + 1] == rs[..i] + [rs[i]];
        assert rs[..i + 1][..i] == rs[..i];
      }
      assert rs[..|rs|] == rs;
      AfterMany(old(svc.table.View()), svc.spiders, rs, worker, db);
      LoopLeaves(old(Now()), svc.spiders, rs, worker, db);
    }
  }
}
