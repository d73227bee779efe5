// The hub's bookkeeping under its two locks, one step per critical section: the
// hub lock guards the session and task maps, a session lock guards one session's
// slot counter and running set, and Assign keeps the hub lock while taking and
// dropping session locks.
module HubLedger {

  type Sid = nat

  datatype Msg = AssignTask(task: nat, spider: int) | CancelTask(task: nat)

  const OUTBOX_SIZE: nat := 64

  datatype Session = Session(concurrency: int, free: int, running: set<nat>, outbox: seq<Msg>)

  datatype Meta = Meta(sid: Sid, spider: int)

  // ---- critical sections on one session ---------------------------------------

  predicate HasRoom(s: Session) {
    |s.outbox| < OUTBOX_SIZE
  }

  function Reserved(s: Session, t: nat): Session {
    s.(running := s.running + {t}, free := s.free - 1)
  }

  function RolledBack(s: Session, t: nat): Session {
    s.(running := s.running - {t}, free := s.free + 1)
  }

  function Released(s: Session, t: nat): Session {
    s.(running := s.running - {t}, free := if s.free < s.concurrency then s.free + 1 else s.free)
  }

  function Told(s: Session, m: Msg): Session {
    s.(outbox := s.outbox + [m])
  }

  /** The message goes to the session's outbox if that has room. */
  function Heard(sessions: map<Sid, Session>, sid: Sid, m: Msg): map<Sid, Session> {
    if sid in sessions && HasRoom(sessions[sid]) then sessions[sid := Told(sessions[sid], m)] else sessions
  }

  predicate Balanced(s: Session) {
    s.free + |s.running| == s.concurrency
  }

  /** A reservation keeps the balance exactly when the session does not hold the task yet. */
  lemma ReserveIff(s: Session, t: nat)
    requires Balanced(s)
    ensures Balanced(Reserved(s, t)) <==> t !in s.running
    ensures t !in s.running ==> RolledBack(Reserved(s, t), t) == s
  {
    if t in s.running {
      assert s.running + {t} == s.running;
    } else {
      assert s.running + {t} - {t} == s.running;
    }
  }

  /** A release keeps it exactly when the session holds the task or has nothing to free. */
  lemma ReleaseIff(s: Session, t: nat)
    requires Balanced(s)
    ensures Balanced(Released(s, t)) <==> t in s.running || s.free >= s.concurrency
  {
    if t in s.running {
      assert |s.running - {t}| == |s.running| - 1;
    } else {
      assert s.running - {t} == s.running;
    }
  }

  // ---- the state machine --------------------------------------------------------

  /** Where the one Assign that has the hub lock stands. */
  datatype Assigning =
    | Unlocked
    | Choosing(task: nat, spider: int, tried: set<Sid>)
    | Holding(task: nat, spider: int, tried: set<Sid>, sid: Sid)  // reserved
    | Sent(task: nat, spider: int, sid: Sid)                      // message in the outbox

  /** A cancel between its look-up and its send. */
  datatype Telling = Telling(task: nat, sid: Sid)

  /** `releasing` has, per read loop, the task between the two halves of releaseTask;
      `cancelling` has each CancelRunning call that found a session; `rows` has each task
      row's spider; `items` is what the item sink persisted. */
  datatype State = State(
    sessions: map<Sid, Session>,
    closed: set<Sid>,
    tasks: map<nat, Meta>,
    assigning: Assigning,
    releasing: map<Sid, nat>,
    cancelling: map<nat, Telling>,
    rows: map<nat, int>,
    items: seq<(nat, int)>)

  const INIT := State(map[], {}, map[], Unlocked, map[], map[], map[], [])

  datatype Step =
    | NewRow(task: nat, spider: int)
    | Register(sid: Sid, concurrency: int)
    | Unregister(sid: Sid)
    | Begin(task: nat)
    | Skip(sid: Sid)          // no free slot
    | Reserve(sid: Sid)
    | Send                    // the outbox has room
    | Record
    | Rollback                // the outbox is full
    | GiveUp
    | Release(sid: Sid, task: nat)
    | Forget(sid: Sid)        // second half of a release
    | Pump(sid: Sid)
    | LookUp(call: nat, task: nat)  // first half of CancelRunning, under the read lock
    | Tell(call: nat)               // its send, with no lock
    | Heartbeat(sid: Sid, free: int)
    | Item(task: nat)

  predicate Enabled(s: State, a: Step) {
    match a
    case NewRow(t, _) => t !in s.rows
    case Register(sid, _) => s.assigning.Unlocked? && sid !in s.sessions && sid !in s.closed
    // a session is unregistered by its own read loop, after its last release
    case Unregister(sid) => s.assigning.Unlocked? && sid in s.sessions && sid !in s.releasing
    case Begin(t) => s.assigning.Unlocked? && t in s.rows
    case Skip(sid) => s.assigning.Choosing? && sid in s.sessions && sid !in s.assigning.tried && s.sessions[sid].free <= 0
    case Reserve(sid) => s.assigning.Choosing? && sid in s.sessions && sid !in s.assigning.tried && s.sessions[sid].free > 0
    case Send => s.assigning.Holding? && s.assigning.sid in s.sessions && HasRoom(s.sessions[s.assigning.sid])
    case Record => s.assigning.Sent?
    case Rollback => s.assigning.Holding? && s.assigning.sid in s.sessions && !HasRoom(s.sessions[s.assigning.sid])
    case GiveUp => s.assigning.Choosing? && s.sessions.Keys <= s.assigning.tried
    case Release(sid, _) => sid in s.sessions && sid !in s.releasing
    case Forget(sid) => s.assigning.Unlocked? && sid in s.releasing
    case Pump(sid) => sid in s.sessions && s.sessions[sid].outbox != []
    case LookUp(c, _) => s.assigning.Unlocked? && c !in s.cancelling
    case Tell(c) => c in s.cancelling
    case Heartbeat(sid, _) => sid in s.sessions
    case Item(_) => s.assigning.Unlocked?
  }

  function Apply(s: State, a: Step): State
    requires Enabled(s, a)
  {
    match a
    case NewRow(t, spider) => s.(rows := s.rows[t := spider])
    case Register(sid, c) => s.(sessions := s.sessions[sid := Session(c, c, {}, [])])
    case Unregister(sid) =>
      s.(sessions := s.sessions - {sid}, closed := s.closed + {sid},
         tasks := map t | t in s.tasks && s.tasks[t].sid != sid :: s.tasks[t])
    case Begin(t) => s.(assigning := Choosing(t, s.rows[t], {}))
    case Skip(sid) =>
      s.(assigning := Choosing(s.assigning.task, s.assigning.spider, s.assigning.tried + {sid}))
    case Reserve(sid) =>
      var t, spider, tried := s.assigning.task, s.assigning.spider, s.assigning.tried;
      s.(sessions := s.sessions[sid := Reserved(s.sessions[sid], t)],
         assigning := Holding(t, spider, tried, sid))
    case Send =>
      var t, spider, sid := s.assigning.task, s.assigning.spider, s.assigning.sid;
      var sess := s.sessions[sid];
      s.(sessions := s.sessions[sid := sess.(outbox := sess.outbox + [AssignTask(t, spider)])],
         assigning := Sent(t, spider, sid))
    case Record =>
      s.(tasks := s.tasks[s.assigning.task := Meta(s.assigning.sid, s.assigning.spider)], assigning := Unlocked)
    case Rollback =>
      var t, spider, sid := s.assigning.task, s.assigning.spider, s.assigning.sid;
      s.(sessions := s.sessions[sid := RolledBack(s.sessions[sid], t)],
         assigning := Choosing(t, spider, s.assigning.tried + {sid}))
    case GiveUp => s.(assigning := Unlocked)
    case Release(sid, t) =>
      s.(sessions := s.sessions[sid := Released(s.sessions[sid], t)], releasing := s.releasing[sid := t])
    case Forget(sid) =>
      s.(tasks := s.tasks - {s.releasing[sid]}, releasing := s.releasing - {sid})
    case Pump(sid) =>
      s.(sessions := s.sessions[sid := s.sessions[sid].(outbox := s.sessions[sid].outbox[1..])])
    case LookUp(c, t) =>
      if t in s.tasks && s.tasks[t].sid in s.sessions
      then s.(cancelling := s.cancelling[c := Telling(t, s.tasks[t].sid)]) else s
    case Tell(c) =>
      var x := s.cancelling[c];
      s.(sessions := Heard(s.sessions, x.sid, CancelTask(x.task)), cancelling := s.cancelling - {c})
    case Heartbeat(sid, free) =>
      s.(sessions := s.sessions[sid := s.sessions[sid].(free := free)])
    case Item(t) =>
      if t in s.tasks then s.(items := s.items + [(t, s.tasks[t].spider)]) else s
  }

  ghost predicate Valid(s: State, steps: seq<Step>)
    decreases |steps|
  {
    steps == [] || (Enabled(s, steps[0]) && Valid(Apply(s, steps[0]), steps[1..]))
  }

  ghost function Run(s: State, steps: seq<Step>): State
    requires Valid(s, steps)
    decreases |steps|
  {
    if steps == [] then s else Run(Apply(s, steps[0]), steps[1..])
  }

  // ---- the index agrees with the table, in every run -------------------------------

  predicate SpiderIs(s: State, t: nat, spider: int) {
    t in s.rows && s.rows[t] == spider
  }

  /** An index entry names a registered session and its row's spider. */
  ghost predicate EntriesInv(s: State) {
    forall t :: t in s.tasks ==> s.tasks[t].sid in s.sessions && SpiderIs(s, t, s.tasks[t].spider)
  }

  ghost predicate IndexInv(s: State) {
    && s.sessions.Keys !! s.closed
    && s.releasing.Keys <= s.sessions.Keys
    && EntriesInv(s)
    && (!s.assigning.Unlocked? ==> SpiderIs(s, s.assigning.task, s.assigning.spider))
    && (s.assigning.Holding? || s.assigning.Sent? ==> s.assigning.sid in s.sessions)
    && (forall i :: i in s.items ==> SpiderIs(s, i.0, i.1))
  }

  lemma EntriesStep(s: State, a: Step)
    requires IndexInv(s) && Enabled(s, a)
    ensures EntriesInv(Apply(s, a))
  {
    hide Reserved, RolledBack, Released, HasRoom, Told;
  }

  lemma IndexStep(s: State, a: Step)
    requires IndexInv(s) && Enabled(s, a)
    ensures IndexInv(Apply(s, a))
  {
    EntriesStep(s, a);
    hide Reserved, RolledBack, Released, HasRoom, Told, EntriesInv;
  }

  lemma {:induction false} IndexRun(s: State, steps: seq<Step>)
    requires IndexInv(s) && Valid(s, steps)
    ensures IndexInv(Run(s, steps))
    decreases |steps|
  {
    if steps != [] {
      IndexStep(s, steps[0]);
      IndexRun(Apply(s, steps[0]), steps[1..]);
    }
  }

  /** In every run, heartbeats, double assignments, double releases and cancels
      under way included: an index entry names a registered session and its row's spider, every persisted
      item carries its task's spider, and Assign sends only to an open outbox. */
  lemma HubIndexAgrees(steps: seq<Step>)
    requires Valid(INIT, steps)
    ensures var s := Run(INIT, steps);
            && (forall t :: t in s.tasks ==>
                  s.tasks[t].sid in s.sessions && s.tasks[t].sid !in s.closed
                  && t in s.rows && s.tasks[t].spider == s.rows[t])
            && (forall i :: i in s.items ==> i.0 in s.rows && i.1 == s.rows[i.0])
            && (s.assigning.Holding? ==> s.assigning.sid in s.sessions && s.assigning.sid !in s.closed)
  {
    IndexRun(INIT, steps);
  }

  // ---- the outboxes are bounded and in order ------------------------------------------

  /** What a step puts into a session's outbox. */
  function SentBy(s: State, a: Step, sid: Sid): seq<Msg> {
    if a.Send? && s.assigning.Holding? && s.assigning.sid == sid then
      [AssignTask(s.assigning.task, s.assigning.spider)]
    else if a.Tell? && a.call in s.cancelling && s.cancelling[a.call].sid == sid && sid in s.sessions
            && |s.sessions[sid].outbox| < 64 then
      [CancelTask(s.cancelling[a.call].task)]
    else []
  }

  /** What the pump takes out of it. */
  function PumpedBy(s: State, a: Step, sid: Sid): seq<Msg> {
    if a == Pump(sid) && sid in s.sessions && s.sessions[sid].outbox != [] then [s.sessions[sid].outbox[0]] else []
  }

  ghost function SentAll(s: State, steps: seq<Step>, sid: Sid): seq<Msg>
    requires Valid(s, steps)
    decreases |steps|
  {
    if steps == [] then [] else SentBy(s, steps[0], sid) + SentAll(Apply(s, steps[0]), steps[1..], sid)
  }

  ghost function PumpedAll(s: State, steps: seq<Step>, sid: Sid): seq<Msg>
    requires Valid(s, steps)
    decreases |steps|
  {
    if steps == [] then [] else PumpedBy(s, steps[0], sid) + PumpedAll(Apply(s, steps[0]), steps[1..], sid)
  }

  function OutboxOf(s: State, sid: Sid): seq<Msg> {
    if sid in s.sessions then s.sessions[sid].outbox else []
  }

  lemma OutboxStep(s: State, a: Step, sid: Sid)
    requires Enabled(s, a) && a != Unregister(sid)
    ensures OutboxOf(s, sid) + SentBy(s, a, sid) == PumpedBy(s, a, sid) + OutboxOf(Apply(s, a), sid)
    ensures |OutboxOf(s, sid)| <= 64 ==> |OutboxOf(Apply(s, a), sid)| <= 64
  {
    hide Reserved, RolledBack, Released;
    if !a.Send? && !a.Tell? && !a.Pump? {
      OutboxKept(s, a, sid);
      assert OutboxOf(s, sid) + [] == [] + OutboxOf(s, sid);
    } else if a == Pump(sid) {
      var x := s.sessions[sid].outbox;
      assert x == [x[0]] + x[1..] && x + [] == x;
    } else {
      assert OutboxOf(s, sid) + [] == OutboxOf(s, sid);
      assert [] + OutboxOf(Apply(s, a), sid) == OutboxOf(Apply(s, a), sid);
    }
  }

  lemma OutboxKept(s: State, a: Step, sid: Sid)
    requires Enabled(s, a) && a != Unregister(sid) && !a.Send? && !a.Tell? && !a.Pump?
    ensures OutboxOf(Apply(s, a), sid) == OutboxOf(s, sid)
  {
  }

  /** In every run, while a session is registered, what was sent to it is what its pump has
      passed on and then what its outbox holds, in order, which is never more than 64. */
  lemma {:induction false} OutboxInOrder(s: State, steps: seq<Step>, sid: Sid)
    requires Valid(s, steps) && Unregister(sid) !in steps && |OutboxOf(s, sid)| <= 64
    ensures OutboxOf(s, sid) + SentAll(s, steps, sid) == PumpedAll(s, steps, sid) + OutboxOf(Run(s, steps), sid)
    ensures |OutboxOf(Run(s, steps), sid)| <= 64
    decreases |steps|
  {
    if steps != [] {
      var s1 := Apply(s, steps[0]);
      OutboxStep(s, steps[0], sid);
      OutboxInOrder(s1, steps[1..], sid);
      hide Enabled, Apply, SentBy, PumpedBy, OutboxOf;
      QueueThrough(OutboxOf(s, sid), SentBy(s, steps[0], sid), PumpedBy(s, steps[0], sid), OutboxOf(s1, sid),
                   SentAll(s1, steps[1..], sid), PumpedAll(s1, steps[1..], sid), OutboxOf(Run(s1, steps[1..]), sid));
    }
  }

  lemma QueueThrough(x: seq<Msg>, a: seq<Msg>, b: seq<Msg>, y: seq<Msg>, c: seq<Msg>, d: seq<Msg>, z: seq<Msg>)
    requires x + a == b + y && y + c == d + z
    ensures x + (a + c) == (b + d) + z
  {
    assert x + (a + c) == (x + a) + c == b + (y + c) == (b + d) + z;
  }

  // ---- a cancel and the outbox it sends to ------------------------------------------

  /** The send of a closed outbox panics, whatever is in it. */
  predicate MeetsClosed(s: State, c: nat) {
    c in s.cancelling && s.cancelling[c].sid in s.closed
  }

  /** One step of anyone else, seen from a cancel under way to session `sid`. */
  lemma TellingStep(s: State, c: nat, a: Step)
    requires c in s.cancelling && Enabled(s, a) && a != Tell(c)
    ensures var sid, s' := s.cancelling[c].sid, Apply(s, a);
            && c in s'.cancelling && s'.cancelling[c] == s.cancelling[c]
            && (sid in s'.closed <==> sid in s.closed || a == Unregister(sid))
            && (sid in s.sessions && a != Unregister(sid) ==> sid in s'.sessions)
  {
    hide Reserved, RolledBack, Released, HasRoom, Told;
  }

  lemma {:induction false} TellingKept(s: State, c: nat, steps: seq<Step>)
    requires c in s.cancelling && Valid(s, steps) && Tell(c) !in steps
    ensures var e, sid := Run(s, steps), s.cancelling[c].sid;
            && c in e.cancelling && e.cancelling[c] == s.cancelling[c]
            && (sid in e.closed <==> sid in s.closed || Unregister(sid) in steps)
            && (sid in s.sessions && Unregister(sid) !in steps ==> sid in e.sessions)
    decreases |steps|
  {
    if steps != [] {
      TellingStep(s, c, steps[0]);
      TellingKept(Apply(s, steps[0]), c, steps[1..]);
      InFirst(steps, Unregister(s.cancelling[c].sid));
    }
    hide Enabled, Apply;
  }

  lemma InFirst(steps: seq<Step>, a: Step)
    requires steps != []
    ensures a in steps <==> a == steps[0] || a in steps[1..]
  {
    assert steps == [steps[0]] + steps[1..];
  }

  /** In every run, a cancel that found the task's session sends to a closed outbox exactly
      when that session was unregistered after the look-up. Otherwise it is still registered,
      and the message joins its outbox exactly when there is room. */
  lemma CancelMeetsClosedIff(before: seq<Step>, c: nat, t: nat, between: seq<Step>)
    requires Valid(INIT, before) && Enabled(Run(INIT, before), LookUp(c, t)) && t in Run(INIT, before).tasks
    requires Valid(Apply(Run(INIT, before), LookUp(c, t)), between) && Tell(c) !in between
    ensures var sid := Run(INIT, before).tasks[t].sid;
            var e := Run(Apply(Run(INIT, before), LookUp(c, t)), between);
            && Enabled(e, Tell(c))
            && (MeetsClosed(e, c) <==> Unregister(sid) in between)
            && (MeetsClosed(e, c) ==> Apply(e, Tell(c)).sessions == e.sessions)
            && (!MeetsClosed(e, c) ==>
                  sid in e.sessions && Apply(e, Tell(c)).sessions == Heard(e.sessions, sid, CancelTask(t)))
  {
    var s := Run(INIT, before);
    IndexRun(INIT, before);
    var s1 := Apply(s, LookUp(c, t));
    TellingKept(s1, c, between);
    IndexRun(s1, between);
    assert Run(s1, between).sessions.Keys !! Run(s1, between).closed;
    hide Run, Valid, IndexInv, Heard;
  }

  lemma {:induction false} Then(s: State, steps: seq<Step>, a: Step)
    requires Valid(s, steps) && Enabled(Run(s, steps), a)
    ensures Valid(s, steps + [a]) && Run(s, steps + [a]) == Apply(Run(s, steps), a)
    decreases |steps|
  {
    if steps == [] {
      assert [a][1..] == [] && Valid(Apply(s, a), []);
    } else {
      assert (steps + [a])[1..] == steps[1..] + [a] && (steps + [a])[0] == steps[0];
      Then(Apply(s, steps[0]), steps[1..], a);
    }
    hide Enabled, Apply;
  }

  /** A task row, a session, and the task assigned to it. */
  lemma OneAssigned(t: nat, spider: int, sid: Sid) returns (steps: seq<Step>)
    ensures Valid(INIT, steps)
    ensures var s := Run(INIT, steps);
            && s.assigning.Unlocked? && s.tasks == map[t := Meta(sid, spider)] && s.cancelling == map[]
            && s.sessions.Keys == {sid} && s.releasing == map[]
  {
    steps := [];
    Then(INIT, steps, NewRow(t, spider));
    steps := steps + [NewRow(t, spider)];
    hide Run, Valid;
    Then(INIT, steps, Register(sid, 1));
    steps := steps + [Register(sid, 1)];
    Then(INIT, steps, Begin(t));
    steps := steps + [Begin(t)];
    Then(INIT, steps, Reserve(sid));
    steps := steps + [Reserve(sid)];
    Then(INIT, steps, Send);
    steps := steps + [Send];
    Then(INIT, steps, Record);
    steps := steps + [Record];
  }

  /** And it happens: the task assigned, its cancel looked up, and its worker gone before
      the send. */
  lemma CancelHitsClosed(t: nat, spider: int, sid: Sid, c: nat) returns (steps: seq<Step>)
    ensures Valid(INIT, steps) && |steps| >= 2 && steps[|steps| - 2..] == [LookUp(c, t), Unregister(sid)]
    ensures MeetsClosed(Run(INIT, steps), c)
  {
    steps := OneAssigned(t, spider, sid);
    hide Run, Valid;
    Then(INIT, steps, LookUp(c, t));
    steps := steps + [LookUp(c, t)];
    Then(INIT, steps, Unregister(sid));
    assert MeetsClosed(Apply(Run(INIT, steps), Unregister(sid)), c);
    steps := steps + [Unregister(sid)];
    assert steps[|steps| - 2..] == [LookUp(c, t), Unregister(sid)];
  }

  // ---- the slot ledger, in disciplined runs ------------------------------------------

  predicate IsReleasing(s: State, sid: Sid, t: nat) {
    sid in s.releasing && s.releasing[sid] == t
  }

  /** The hub has the task down for this session, or is putting it down. */
  predicate Claimed(s: State, sid: Sid, t: nat) {
    || (t in s.tasks && s.tasks[t].sid == sid)
    || ((s.assigning.Holding? || s.assigning.Sent?) && s.assigning.task == t && s.assigning.sid == sid)
  }

  /** No task is assigned while the hub has it down, a session releases only a task it
      was sent and still runs, and heartbeats stay out. */
  predicate Disciplined(s: State, a: Step) {
    match a
    case Begin(t) => t !in s.tasks
    case Release(sid, t) =>
      sid in s.sessions && t in s.sessions[sid].running && !(s.assigning.Holding? && s.assigning.task == t)
    case Heartbeat(_, _) => false
    case _ => true
  }

  ghost predicate AllDisciplined(s: State, steps: seq<Step>)
    requires Valid(s, steps)
    decreases |steps|
  {
    steps == [] || (Disciplined(s, steps[0]) && AllDisciplined(Apply(s, steps[0]), steps[1..]))
  }

  ghost predicate Owned(s: State, sid: Sid)
    requires sid in s.sessions
  {
    && Balanced(s.sessions[sid])
    && (forall t :: t in s.sessions[sid].running || IsReleasing(s, sid, t) <==> Claimed(s, sid, t))
    && (forall t :: t in s.sessions[sid].running ==> !IsReleasing(s, sid, t))
  }

  ghost predicate LedgerInv(s: State) {
    && IndexInv(s)
    && (!s.assigning.Unlocked? ==> s.assigning.task !in s.tasks)
    && (s.assigning.Holding? ==> !IsReleasing(s, s.assigning.sid, s.assigning.task))
    && (forall sid :: sid in s.sessions ==> Owned(s, sid))
  }

  predicate MovesSlots(a: Step) {
    a.Reserve? || a.Rollback? || a.Release? || a.Forget?
  }

  lemma UnmovedStep(s: State, a: Step, sid: Sid)
    requires LedgerInv(s) && Enabled(s, a) && Disciplined(s, a) && !MovesSlots(a)
    requires sid in s.sessions && sid in Apply(s, a).sessions
    ensures Owned(Apply(s, a), sid)
  {
    var s' := Apply(s, a);
    assert Owned(s, sid);
    assert s'.sessions[sid].running == s.sessions[sid].running;
    assert forall t :: IsReleasing(s', sid, t) <==> IsReleasing(s, sid, t);
    assert forall t :: Claimed(s', sid, t) <==> Claimed(s, sid, t);
  }

  lemma ReserveStep(s: State, u: Sid, sid: Sid)
    requires LedgerInv(s) && Enabled(s, Reserve(u)) && sid in s.sessions
    ensures Owned(Apply(s, Reserve(u)), sid)
  {
    assert Owned(s, sid);
    var s', t := Apply(s, Reserve(u)), s.assigning.task;
    assert s'.tasks == s.tasks && s'.releasing == s.releasing;
    assert forall x :: IsReleasing(s', sid, x) <==> IsReleasing(s, sid, x);
    if u == sid {
      assert !Claimed(s, sid, t);
      ReserveIff(s.sessions[sid], t);
      assert forall x :: Claimed(s', sid, x) <==> x == t || Claimed(s, sid, x);
    } else {
      assert s'.sessions[sid] == s.sessions[sid];
      assert forall x :: Claimed(s', sid, x) <==> Claimed(s, sid, x);
    }
  }

  lemma RollbackOwn(s: State)
    requires LedgerInv(s) && Enabled(s, Rollback)
    ensures Owned(Apply(s, Rollback), s.assigning.sid)
  {
    var s', sid, t := Apply(s, Rollback), s.assigning.sid, s.assigning.task;
    assert Owned(s, sid);
    assert Claimed(s, sid, t) && !IsReleasing(s, sid, t);
    RollbackBalances(s.sessions[sid], t);
    assert forall x :: IsReleasing(s', sid, x) <==> IsReleasing(s, sid, x);
    assert forall x :: Claimed(s', sid, x) <==> x != t && Claimed(s, sid, x);
    hide Balanced, Claimed, IsReleasing, RolledBack;
    assert forall x :: x in s'.sessions[sid].running <==> x in s.sessions[sid].running && x != t by {
      RollbackDrops(s.sessions[sid], t);
    }
  }

  lemma RollbackDrops(s: Session, t: nat)
    ensures forall x :: x in RolledBack(s, t).running <==> x in s.running && x != t
  {
  }

  lemma RollbackStep(s: State, sid: Sid)
    requires LedgerInv(s) && Enabled(s, Rollback) && sid in s.sessions
    ensures Owned(Apply(s, Rollback), sid)
  {
    if s.assigning.sid == sid {
      RollbackOwn(s);
    } else {
      var s' := Apply(s, Rollback);
      assert Owned(s, sid);
      assert s'.sessions[sid] == s.sessions[sid];
      assert forall x :: IsReleasing(s', sid, x) <==> IsReleasing(s, sid, x);
      assert forall x :: Claimed(s', sid, x) <==> Claimed(s, sid, x);
    }
  }

  lemma RollbackBalances(s: Session, t: nat)
    requires Balanced(s) && t in s.running
    ensures Balanced(RolledBack(s, t))
  {
    assert |s.running - {t}| == |s.running| - 1;
  }

  lemma ReleaseStep(s: State, u: Sid, t: nat, sid: Sid)
    requires LedgerInv(s) && Enabled(s, Release(u, t)) && Disciplined(s, Release(u, t)) && sid in s.sessions
    ensures Owned(Apply(s, Release(u, t)), sid)
  {
    assert Owned(s, sid);
    var s' := Apply(s, Release(u, t));
    assert forall x :: Claimed(s', sid, x) <==> Claimed(s, sid, x);
    if u == sid {
      ReleaseIff(s.sessions[sid], t);
      assert s'.sessions[sid].running == s.sessions[sid].running - {t};
      assert forall x :: IsReleasing(s', sid, x) <==> x == t;
      assert forall x :: !IsReleasing(s, sid, x);
    } else {
      assert s'.sessions[sid] == s.sessions[sid];
      assert forall x :: IsReleasing(s', sid, x) <==> IsReleasing(s, sid, x);
    }
  }

  lemma ForgetStep(s: State, u: Sid, sid: Sid)
    requires LedgerInv(s) && Enabled(s, Forget(u)) && sid in s.sessions
    ensures Owned(Apply(s, Forget(u)), sid)
  {
    assert Owned(s, sid) && Owned(s, u);
    var s', t := Apply(s, Forget(u)), s.releasing[u];
    assert IsReleasing(s, u, t) && Claimed(s, u, t);
    assert forall x :: IsReleasing(s', sid, x) <==> IsReleasing(s, sid, x) && sid != u;
    assert forall x :: Claimed(s', sid, x) <==> Claimed(s, sid, x) && x != t;
  }

  lemma OwnedStep(s: State, a: Step, sid: Sid)
    requires LedgerInv(s) && Enabled(s, a) && Disciplined(s, a) && sid in Apply(s, a).sessions
    ensures Owned(Apply(s, a), sid)
  {
    if a.Reserve? {
      ReserveStep(s, a.sid, sid);
    } else if a.Rollback? {
      RollbackStep(s, sid);
    } else if a.Release? {
      ReleaseStep(s, a.sid, a.task, sid);
    } else if a.Forget? {
      ForgetStep(s, a.sid, sid);
    } else if sid in s.sessions {
      UnmovedStep(s, a, sid);
    } else {
      assert forall t :: !Claimed(Apply(s, a), sid, t);
    }
  }

  lemma LedgerStep(s: State, a: Step)
    requires LedgerInv(s) && Enabled(s, a) && Disciplined(s, a)
    ensures LedgerInv(Apply(s, a))
  {
    IndexStep(s, a);
    var s' := Apply(s, a);
    forall sid | sid in s'.sessions
      ensures Owned(s', sid)
    {
      OwnedStep(s, a, sid);
    }
    if a.Reserve? {
      assert Owned(s, a.sid);
    }
  }

  lemma {:induction false} LedgerRun(s: State, steps: seq<Step>)
    requires LedgerInv(s) && Valid(s, steps) && AllDisciplined(s, steps)
    ensures LedgerInv(Run(s, steps))
    decreases |steps|
  {
    if steps != [] {
      LedgerStep(s, steps[0]);
      LedgerRun(Apply(s, steps[0]), steps[1..]);
    }
  }

  /** In every disciplined run, every registered session's free and running slots add
      up to its concurrency, and up to steps in flight the task index is the disjoint
      union of the running sets. */
  lemma SlotLedger(steps: seq<Step>)
    requires Valid(INIT, steps) && AllDisciplined(INIT, steps)
    ensures var s := Run(INIT, steps);
            && (forall sid :: sid in s.sessions ==>
                  s.sessions[sid].free + |s.sessions[sid].running| == s.sessions[sid].concurrency)
            && (forall sid, t :: sid in s.sessions ==>
                  (t in s.sessions[sid].running || IsReleasing(s, sid, t) <==> Claimed(s, sid, t)))
            && (forall a, b, t | a in s.sessions && b in s.sessions ::
                  t in s.sessions[a].running && t in s.sessions[b].running ==> a == b)
  {
    LedgerRun(INIT, steps);
    var s := Run(INIT, steps);
    forall a, b, t | a in s.sessions && b in s.sessions && t in s.sessions[a].running && t in s.sessions[b].running
      ensures a == b
    {
      assert Owned(s, a) && Owned(s, b);
      assert Claimed(s, a, t) && Claimed(s, b, t);
    }
    forall sid | sid in s.sessions
      ensures Balanced(s.sessions[sid])
      ensures forall t :: t in s.sessions[sid].running || IsReleasing(s, sid, t) <==> Claimed(s, sid, t)
    {
      assert Owned(s, sid);
    }
  }
}
