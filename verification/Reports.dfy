// What queueing, worker reports and retry decisions do to the table of task rows.
module Reports {
  import opened Options
  import RP = RetryPolicy
  import opened TaskTable

  datatype Spider = Spider(sourceKey: string, sourceVersion: int, config: RP.Config)

  datatype Result<T> = Ok(value: T) | Err(error: string)

  /** How the calls to the database turn out while one row is dispatched or reported: the
      spider's look-up, the status UPDATE, then for the retry the re-read of the parent, the
      spider's look-up and the INSERT. `wild` is the platform's conversion of a float64 out
      of range. */
  datatype Db = Db(lookedUp: bool, saved: bool, parentRead: bool, spiderRead: bool, stored: bool, wild: RP.Int64)

  const ERR_INVALID := "invalid input"
  const ERR_NO_SOURCE := "spider has no synced source"
  const ERR_LOOKUP := "lookup spider: not found"
  const ERR_STORE := "insert task"

  /** Whether a queued row can be turned into an assignment. */
  function BuildError(spiders: map<int, Spider>, spider: int, db: Db): Option<string> {
    if !db.lookedUp || spider !in spiders then Some(ERR_LOOKUP)
    else if spiders[spider].sourceKey == "" then Some(ERR_NO_SOURCE)
    else None
  }

  /** A row can be built exactly when its spider can be looked up and has synced source; the
      error says which of the two is missing. */
  lemma BuildsIff(spiders: map<int, Spider>, spider: int, db: Db)
    ensures BuildError(spiders, spider, db).None?
            <==> db.lookedUp && spider in spiders && spiders[spider].sourceKey != ""
    ensures var e := BuildError(spiders, spider, db);
            e.Some? ==> e.value == if db.lookedUp && spider in spiders then "spider has no synced source"
                                   else "lookup spider: not found"
  {
  }

  /** The child the retry decision asks for, given the parent row as re-read. */
  function RetryOf(spiders: map<int, Spider>, id: nat, row: Row, errorClass: string, now: int,
                   db: Db): Option<Identity> {
    if !db.parentRead || !db.spiderRead || row.ident.spider !in spiders then None
    else
      var attempt := if row.ident.attempt < 1 then 1 else row.ident.attempt;
      var (retry, delay) := RP.Decide(RP.PolicyOf(spiders[row.ident.spider].config), attempt, errorClass, db.wild);
      if retry && db.stored then
        Some(Identity(row.ident.spider, id, Retry, row.ident.version, row.ident.args, attempt + 1, now, Some(now + delay)))
      else None
  }

  function WithChild(tb: Table, child: Option<Identity>): Table {
    if child.None? then tb else Table(tb.rows[tb.nextId := Inserted(child.value)], tb.nextId + 1)
  }

  predicate MayRetry(s: Status) {
    s.Failed? || s.Timeout?
  }

  function WithRow(tb: Table, id: nat, w: Write): Table {
    if id in tb.rows then tb.(rows := tb.rows[id := Updated(tb.rows[id], w)]) else tb
  }

  /** The child that a report of `w` about `id` adds. */
  function ChildOf(tb: Table, spiders: map<int, Spider>, id: nat, w: Write, db: Db): Option<Identity> {
    if id in tb.rows && MayRetry(w.status) then RetryOf(spiders, id, tb.rows[id], w.errorClass, w.at, db) else None
  }

  /** The table after a report of `w` about `id`. */
  function Reported(tb: Table, spiders: map<int, Spider>, id: nat, w: Write, db: Db): Table {
    WithChild(WithRow(tb, id, w), ChildOf(tb, spiders, id, w, db))
  }

  // ---- when a report adds a row, and which ------------------------------------------------

  function AtLeast1(attempt: int): (r: int)
    ensures r >= 1 && r >= attempt && (r == 1 || r == attempt)
  {
    if attempt < 1 then 1 else attempt
  }

  /** The row is there with its spider, and every call the decision makes works. */
  predicate Decidable(rows: map<nat, Row>, spiders: map<int, Spider>, id: nat, db: Db) {
    db.parentRead && db.spiderRead && db.stored && id in rows && rows[id].ident.spider in spiders
  }

  /** The spider's policy grants the row one more attempt after a failure of that class. */
  predicate Granted(rows: map<nat, Row>, spiders: map<int, Spider>, id: nat, errorClass: string)
    requires id in rows && rows[id].ident.spider in spiders
  {
    var policy := RP.PolicyOf(spiders[rows[id].ident.spider].config);
    AtLeast1(rows[id].ident.attempt) < policy.maxAttempts && RP.Normal(errorClass) in policy.retryOn
  }

  lemma RetryIff(rows: map<nat, Row>, spiders: map<int, Spider>, id: nat, errorClass: string, now: int, db: Db)
    requires id in rows
    ensures var child := RetryOf(spiders, id, rows[id], errorClass, now, db);
            && (child.Some? <==> Decidable(rows, spiders, id, db) && Granted(rows, spiders, id, errorClass))
            && (child.Some? ==> IsRetry(child.value, rows, spiders, id, now, db))
  {
    if rows[id].ident.spider in spiders {
      RP.DecideIff(spiders[rows[id].ident.spider].config, AtLeast1(rows[id].ident.attempt), errorClass, db.wild);
    }
    hide RP.PolicyOf, RP.Decide, RP.Normal, RP.Backoff;
  }

  /** The next attempt at the same work, not before the policy's delay has passed. */
  predicate IsRetry(child: Identity, rows: map<nat, Row>, spiders: map<int, Spider>, id: nat, now: int, db: Db)
    requires id in rows && rows[id].ident.spider in spiders
  {
    var parent, attempt := rows[id].ident, AtLeast1(rows[id].ident.attempt);
    && child.spider == parent.spider && child.version == parent.version && child.args == parent.args
    && child.parent == id && child.trigger == Retry && child.attempt == attempt + 1 && child.queuedAt == now
    && child.notBefore == Some(now + RP.Backoff(RP.PolicyOf(spiders[parent.spider].config), attempt, db.wild))
  }

  /** A report adds a row exactly when it is of a failure or a timeout, the decision can be
      made and the policy grants it. The new row is that retry, queued; of the others only the
      reported one changes. */
  lemma ReportAddsIff(tb: Table, spiders: map<int, Spider>, id: nat, w: Write, db: Db)
    requires Numbered(tb)
    ensures var after := Reported(tb, spiders, id, w, db);
            && after.rows.Keys == tb.rows.Keys + (if after.nextId == tb.nextId then {} else {tb.nextId})
            && (after.nextId != tb.nextId <==>
                  (w.status == Failed || w.status == Timeout)
                  && Decidable(tb.rows, spiders, id, db) && Granted(tb.rows, spiders, id, w.errorClass))
            && (after.nextId != tb.nextId ==>
                  && after.nextId == tb.nextId + 1
                  && IsRetry(after.rows[tb.nextId].ident, tb.rows, spiders, id, w.at, db)
                  && after.rows[tb.nextId].status.Queued?)
            && (forall j :: j in tb.rows ==>
                  after.rows[j] == if j == id then Updated(tb.rows[j], w) else tb.rows[j])
  {
    if id in tb.rows {
      RetryIff(tb.rows, spiders, id, w.errorClass, w.at, db);
    }
    hide RetryOf, Updated, Decidable, Granted, IsRetry;
  }

  lemma RetryIgnoresStatus(spiders: map<int, Spider>, id: nat, a: Row, b: Row, errorClass: string, now: int, db: Db)
    requires a.ident == b.ident
    ensures RetryOf(spiders, id, a, errorClass, now, db) == RetryOf(spiders, id, b, errorClass, now, db)
  {
  }

  lemma SameRetry(spiders: map<int, Spider>, id: nat, row: Row, w: Write, db: Db)
    ensures RetryOf(spiders, id, Updated(row, w), w.errorClass, w.at, db)
            == RetryOf(spiders, id, row, w.errorClass, w.at, db)
  {
    RetryIgnoresStatus(spiders, id, Updated(row, w), row, w.errorClass, w.at, db);
  }
}
