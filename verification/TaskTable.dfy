// The tasks table: row creation, the status UPDATE with its CASE rules, and the
// dispatcher's scan.
module TaskTable {
  import opened Options

  datatype Status = Queued | Running | Succeeded | Failed | Cancelled | Timeout | CaptchaBlocked

  datatype Trigger = Manual | Schedule | Retry | Api

  predicate IsTerminal(s: Status) {
    !s.Queued? && !s.Running?
  }

  /** What never changes after the INSERT. Parent 0 is no parent. */
  datatype Identity = Identity(spider: int, parent: nat, trigger: Trigger, version: int, args: string,
                               attempt: int, queuedAt: int, notBefore: Option<int>)

  /** An empty string stands for SQL NULL, as the scan reads it back. */
  datatype Row = Row(ident: Identity, status: Status, worker: string, error: string, errorClass: string,
                     startedAt: Option<int>, finishedAt: Option<int>)

  datatype Write = Write(status: Status, error: string, errorClass: string, worker: string, at: int)

  function Inserted(ident: Identity): Row {
    Row(ident, Queued, "", "", "", None, None)
  }

  /** The UPDATE of SetStatus at time `w.at`. */
  function Updated(r: Row, w: Write): Row {
    Row(r.ident, w.status,
        if w.worker == "" then r.worker else w.worker,
        w.error, w.errorClass,
        if w.status.Running? && r.startedAt.None? then Some(w.at) else r.startedAt,
        if IsTerminal(w.status) then Some(w.at) else r.finishedAt)
  }

  function Written(r: Row, ws: seq<Write>): Row {
    if ws == [] then r else Updated(Written(r, ws[..|ws| - 1]), ws[|ws| - 1])
  }

  // ---- a row is determined by its history --------------------------------------

  ghost predicate FirstStart(ws: seq<Write>, i: nat) {
    i < |ws| && ws[i].status.Running? && forall j :: 0 <= j < i ==> !ws[j].status.Running?
  }

  ghost predicate LastFinish(ws: seq<Write>, i: nat) {
    i < |ws| && IsTerminal(ws[i].status) && forall j :: i < j < |ws| ==> !IsTerminal(ws[j].status)
  }

  ghost predicate LastWorker(ws: seq<Write>, i: nat) {
    i < |ws| && ws[i].worker != "" && forall j :: i < j < |ws| ==> ws[j].worker == ""
  }

  lemma {:induction false} StartedFromFirst(ident: Identity, ws: seq<Write>)
    ensures var r := Written(Inserted(ident), ws);
            if r.startedAt.None? then forall i :: 0 <= i < |ws| ==> !ws[i].status.Running?
            else exists i: nat :: FirstStart(ws, i) && r.startedAt.value == ws[i].at
  {
    if ws != [] {
      var n := |ws| - 1;
      StartedFromFirst(ident, ws[..n]);
      var before := Written(Inserted(ident), ws[..n]);
      if before.startedAt.Some? {
        var i: nat :| FirstStart(ws[..n], i) && before.startedAt.value == ws[..n][i].at;
        assert FirstStart(ws, i);
      } else if ws[n].status.Running? {
        assert forall j :: 0 <= j < n ==> ws[j] == ws[..n][j];
        assert FirstStart(ws, n);
      } else {
        assert forall j :: 0 <= j < n ==> ws[j] == ws[..n][j];
      }
    }
  }

  lemma {:induction false} FinishedFromLast(ident: Identity, ws: seq<Write>)
    ensures var r := Written(Inserted(ident), ws);
            if r.finishedAt.None? then forall i :: 0 <= i < |ws| ==> !IsTerminal(ws[i].status)
            else exists i: nat :: LastFinish(ws, i) && r.finishedAt.value == ws[i].at
  {
    if ws != [] {
      var n := |ws| - 1;
      FinishedFromLast(ident, ws[..n]);
      var before := Written(Inserted(ident), ws[..n]);
      assert forall j :: 0 <= j < n ==> ws[j] == ws[..n][j];
      if IsTerminal(ws[n].status) {
        assert LastFinish(ws, n);
      } else if before.finishedAt.Some? {
        var i: nat :| LastFinish(ws[..n], i) && before.finishedAt.value == ws[..n][i].at;
        assert LastFinish(ws, i);
      }
    }
  }

  lemma {:induction false} WorkerFromLast(ident: Identity, ws: seq<Write>)
    ensures var r := Written(Inserted(ident), ws);
            if r.worker == "" then forall i :: 0 <= i < |ws| ==> ws[i].worker == ""
            else exists i: nat :: LastWorker(ws, i) && r.worker == ws[i].worker
  {
    if ws != [] {
      var n := |ws| - 1;
      WorkerFromLast(ident, ws[..n]);
      var before := Written(Inserted(ident), ws[..n]);
      assert forall j :: 0 <= j < n ==> ws[j] == ws[..n][j];
      if ws[n].worker != "" {
        assert LastWorker(ws, n);
      } else if before.worker != "" {
        var i: nat :| LastWorker(ws[..n], i) && before.worker == ws[..n][i].worker;
        assert LastWorker(ws, i);
      }
    }
  }

  /** After any writes: identity untouched, status and error from the last one (queued before
      the first),
      started_at from the first running one, finished_at from the last terminal one,
      worker_id the last non-empty one. */
  lemma RowHistory(ident: Identity, ws: seq<Write>)
    ensures var r := Written(Inserted(ident), ws);
            && r.ident == ident
            && (ws == [] ==> r == Row(ident, Queued, "", "", "", None, None))
            && (ws != [] ==> var w := ws[|ws| - 1];
                             r.status == w.status && r.error == w.error && r.errorClass == w.errorClass)
            && (if r.startedAt.None? then forall i :: 0 <= i < |ws| ==> !ws[i].status.Running?
                else exists i: nat :: FirstStart(ws, i) && r.startedAt.value == ws[i].at)
            && (if r.finishedAt.None? then forall i :: 0 <= i < |ws| ==> !IsTerminal(ws[i].status)
                else exists i: nat :: LastFinish(ws, i) && r.finishedAt.value == ws[i].at)
            && (if r.worker == "" then forall i :: 0 <= i < |ws| ==> ws[i].worker == ""
                else exists i: nat :: LastWorker(ws, i) && r.worker == ws[i].worker)
  {
    IdentityKept(Inserted(ident), ws);
    StartedFromFirst(ident, ws);
    FinishedFromLast(ident, ws);
    WorkerFromLast(ident, ws);
  }

  lemma {:induction false} IdentityKept(r: Row, ws: seq<Write>)
    ensures Written(r, ws).ident == r.ident
  {
    if ws != [] {
      IdentityKept(r, ws[..|ws| - 1]);
    }
  }

  // ---- the table ----------------------------------------------------------------

  predicate Eligible(r: Row, now: int) {
    r.status.Queued? && (r.ident.notBefore.None? || r.ident.notBefore.value <= now)
  }

  function QueuedAt(rows: map<nat, Row>, id: nat): int {
    if id in rows then rows[id].ident.queuedAt else 0
  }

  /** What the dispatcher's SELECT may return: every eligible row once, oldest first. */
  ghost predicate IsListing(rows: map<nat, Row>, now: int, ids: seq<nat>) {
    && (forall id :: id in ids <==> id in rows && Eligible(rows[id], now))
    && (forall i, j :: 0 <= i < j < |ids| ==> ids[i] != ids[j])
    && (forall i, j :: 0 <= i < j < |ids| ==> QueuedAt(rows, ids[i]) <= QueuedAt(rows, ids[j]))
  }

  ghost predicate Oldest(rows: map<nat, Row>, ids: set<nat>, id: nat) {
    id in ids && forall j :: j in ids ==> QueuedAt(rows, id) <= QueuedAt(rows, j)
  }

  lemma {:induction false} OldestExists(rows: map<nat, Row>, ids: set<nat>) returns (id: nat)
    requires ids != {}
    ensures Oldest(rows, ids, id)
    decreases |ids|
  {
    id :| id in ids;
    var rest := ids - {id};
    if rest != {} {
      var y := OldestExists(rows, rest);
      if QueuedAt(rows, y) < QueuedAt(rows, id) {
        assert forall j :: j in ids ==> j == id || j in rest;
        id := y;
      } else {
        assert forall j :: j in ids ==> j == id || j in rest;
      }
    }
  }

  /** The rows, and the id the next INSERT gets. */
  datatype Table = Table(rows: map<nat, Row>, nextId: nat)

  predicate Numbered(tb: Table) {
    forall id :: id in tb.rows ==> id < tb.nextId
  }

  class Tasks {
    var rows: map<nat, Row>
    var nextId: nat

    ghost function View(): Table
      reads this
    {
      Table(rows, nextId)
    }

    ghost predicate Valid()
      reads this
    {
      nextId > 0 && forall id :: id in rows ==> 0 < id < nextId
    }

    constructor ()
      ensures Valid() && rows == map[]
    {
      rows, nextId := map[], 1;
    }

    method Create(spider: int, parent: nat, trigger: Trigger, version: int, args: string, attempt: int,
                  notBefore: Option<int>, now: int) returns (id: nat)
      requires Valid()
      modifies this
      ensures Valid() && id == old(nextId) && nextId == old(nextId) + 1 && id !in old(rows)
      ensures rows == old(rows)[id := Inserted(Identity(spider, parent, trigger, version, args,
                                                        if attempt > 1 then attempt else 1, now, notBefore))]
    {
      id := nextId;
      nextId := nextId + 1;
      var bounded := attempt;
      if bounded < 1 {
        bounded := 1;
      }
      rows := rows[id := Inserted(Identity(spider, parent, trigger, version, args, bounded, now, notBefore))];
    }

    /** An UPDATE that matches no row does nothing and is no error. */
    method SetStatus(id: nat, w: Write)
      requires Valid()
      modifies this`rows
      ensures Valid()
      ensures rows == if id in old(rows) then old(rows)[id := Updated(old(rows)[id], w)] else old(rows)
    {
      if id !in rows {
        return;
      }
      var r := rows[id];
      r := r.(status := w.status, error := w.error, errorClass := w.errorClass);
      if w.worker != "" {
        r := r.(worker := w.worker);
      }
      if w.status.Running? && r.startedAt.None? {
        r := r.(startedAt := Some(w.at));
      }
      if IsTerminal(w.status) {
        r := r.(finishedAt := Some(w.at));
      }
      rows := rows[id := r];
    }

    method ListQueued(now: int) returns (ids: seq<nat>)
      ensures IsListing(rows, now, ids)
    {
      ids := [];
      var todo := set id | id in rows && Eligible(rows[id], now);
      ghost var all := todo;
      while todo != {}
        invariant todo <= all
        invariant forall id :: id in ids <==> id in all && id !in todo
        invariant forall i, j :: 0 <= i < j < |ids| ==> ids[i] != ids[j]
        invariant forall i, j :: 0 <= i < j < |ids| ==> QueuedAt(rows, ids[i]) <= QueuedAt(rows, ids[j])
        invariant forall i, id :: 0 <= i < |ids| && id in todo ==> QueuedAt(rows, ids[i]) <= QueuedAt(rows, id)
        decreases todo
      {
        ghost var oldest := OldestExists(rows, todo);
        var next :| next in todo && forall j :: j in todo ==> QueuedAt(rows, next) <= QueuedAt(rows, j);
        ids := ids + [next];
        todo := todo - {next};
      }
    }
  }
}
