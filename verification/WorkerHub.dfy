// WorkerHub in place: the session and task maps, and Assign's first-fit loop with
// its rollback.
module WorkerHub {
  import opened HubLedger

  /** The session can take one more task right now. */
  predicate Open(s: Session) {
    s.free > 0 && HasRoom(s)
  }

  /** What a visit that assigns nothing leaves: a rollback also drops the task from a
      running set that already held it. */
  function Passed(s: Session, t: nat): Session {
    if s.free > 0 && !HasRoom(s) then s.(running := s.running - {t}) else s
  }

  function Taken(s: Session, t: nat, spider: int): Session {
    s.(running := s.running + {t}, free := s.free - 1, outbox := s.outbox + [AssignTask(t, spider)])
  }

  class Conn {
    const sid: Sid
    const concurrency: int
    var free: int
    var running: set<nat>
    var outbox: seq<Msg>

    constructor (sid: Sid, concurrency: int)
      ensures this.sid == sid && View() == Session(concurrency, concurrency, {}, [])
    {
      this.sid, this.concurrency, free := sid, concurrency, concurrency;
      running, outbox := {}, [];
    }

    ghost function View(): Session
      reads this
    {
      Session(concurrency, free, running, outbox)
    }

    method Reserve(t: nat) returns (ok: bool)
      modifies this
      ensures ok == (old(free) > 0)
      ensures View() == if ok then Reserved(old(View()), t) else old(View())
    {
      if free <= 0 {
        return false;
      }
      running := running + {t};
      free := free - 1;
      return true;
    }

    /** The non-blocking send. */
    method TrySend(m: Msg) returns (ok: bool)
      modifies this`outbox
      ensures ok == HasRoom(old(View()))
      ensures outbox == if ok then old(outbox) + [m] else old(outbox)
    {
      ok := |outbox| < OUTBOX_SIZE;
      if ok {
        outbox := outbox + [m];
      }
    }

    method Rollback(t: nat)
      modifies this
      ensures View() == RolledBack(old(View()), t)
    {
      running := running - {t};
      free := free + 1;
    }

    /** One turn of Assign's loop: reserve, send without blocking, or roll back. */
    method Offer(t: nat, spider: int) returns (ok: bool)
      modifies this
      ensures ok == Open(old(View()))
      ensures View() == if ok then Taken(old(View()), t, spider) else Passed(old(View()), t)
    {
      ok := Reserve(t);
      if ok {
        ok := TrySend(AssignTask(t, spider));
        if !ok {
          Rollback(t);
          assert old(running) + {t} - {t} == old(running) - {t};
        }
      }
    }

    method Release(t: nat)
      modifies this
      ensures View() == Released(old(View()), t)
    {
      running := running - {t};
      if free < concurrency {
        free := free + 1;
      }
    }
  }

  /** Session `c` took the task; every other session is as it was or was passed over. */
  ghost predicate TakenBy(before: map<Sid, Session>, tasks: map<nat, Meta>, t: nat, spider: int,
                          after: map<Sid, Session>, tasks': map<nat, Meta>, c: Sid) {
    && c in before && c in after && Open(before[c]) && after[c] == Taken(before[c], t, spider)
    && tasks' == tasks[t := Meta(c, spider)]
    && forall k :: k in before && k in after && k != c ==>
         after[k] == before[k] || (!Open(before[k]) && after[k] == Passed(before[k], t))
  }

  /** The outcome of one Assign for whatever order the sessions are visited in. */
  ghost predicate AssignOutcome(before: map<Sid, Session>, tasks: map<nat, Meta>, t: nat, spider: int,
                                after: map<Sid, Session>, tasks': map<nat, Meta>, ok: bool) {
    && after.Keys == before.Keys
    && (ok <==> exists k :: k in before && Open(before[k]))
    && (ok ==> exists c :: TakenBy(before, tasks, t, spider, after, tasks', c))
    && (!ok ==> tasks' == tasks && forall k :: k in before ==> after[k] == Passed(before[k], t))
  }

  class Hub {
    var sessions: map<Sid, Conn>
    var tasks: map<nat, Meta>

    ghost predicate Valid()
      reads this
    {
      && (forall k :: k in sessions ==> sessions[k].sid == k)
      && (forall t :: t in tasks ==> tasks[t].sid in sessions)
    }

    ghost function Views(): map<Sid, Session>
      reads this, sessions.Values
    {
      map k | k in sessions :: sessions[k].View()
    }

    constructor ()
      ensures Valid() && sessions == map[] && tasks == map[]
    {
      sessions, tasks := map[], map[];
    }

    method Register(c: Conn)
      requires Valid()
      modifies this`sessions
      ensures Valid() && sessions == old(sessions)[c.sid := c]
    {
      sessions := sessions[c.sid := c];
    }

    method Unregister(c: Conn)
      requires Valid()
      modifies this
      ensures Valid() && sessions == old(sessions) - {c.sid}
      ensures tasks == map t | t in old(tasks) && old(tasks)[t].sid != c.sid :: old(tasks)[t]
    {
      sessions := sessions - {c.sid};
      var todo := tasks.Keys;
      ghost var was := tasks;
      while todo != {}
        invariant todo <= was.Keys
        invariant tasks == map t | t in was && (t in todo || was[t].sid != c.sid) :: was[t]
        invariant sessions == old(sessions) - {c.sid}
        decreases todo
      {
        var t :| t in todo;
        if tasks[t].sid == c.sid {
          tasks := tasks - {t};
        }
        todo := todo - {t};
      }
    }

    method LookupTask(t: nat) returns (meta: Meta, ok: bool)
      ensures ok == (t in tasks) && (ok ==> meta == tasks[t])
    {
      if t in tasks {
        return tasks[t], true;
      }
      return Meta(0, 0), false;
    }

    method ReleaseTask(c: Conn, t: nat)
      requires Valid()
      modifies this`tasks, c
      ensures Valid() && c.View() == Released(old(c.View()), t) && tasks == old(tasks) - {t}
    {
      c.Release(t);
      tasks := tasks - {t};
    }

    /** The cancel message goes to the task's session if it has room for it. */
    method CancelRunning(t: nat)
      requires Valid()
      modifies sessions.Values
      ensures Views() == if t in tasks then Heard(old(Views()), tasks[t].sid, CancelTask(t)) else old(Views())
    {
      if t in tasks {
        var c := sessions[tasks[t].sid];
        var _ := c.TrySend(CancelTask(t));
        assert forall k :: k in sessions && k != c.sid ==> sessions[k].View() == old(sessions[k].View());
      }
    }

    method OfferTo(k: Sid, t: nat, spider: int) returns (ok: bool)
      requires Valid() && k in sessions
      modifies sessions[k]
      ensures ok == Open(old(Views())[k])
      ensures Views() == old(Views())[k := if ok then Taken(old(Views())[k], t, spider) else Passed(old(Views())[k], t)]
    {
      ok := sessions[k].Offer(t, spider);
      assert forall j :: j in sessions && j != k ==> sessions[j].View() == old(sessions[j].View());
    }

    /** Assign's loop over the sessions. */
    method FirstFit(t: nat, spider: int) returns (ok: bool, c: Sid)
      requires Valid()
      modifies sessions.Values
      ensures ok ==> Fits(old(Views()), Views(), t, spider, c)
      ensures !ok ==> Visited(old(Views()), Views(), {}, t)
    {
      hide Visited, Fits, Open, Passed, Taken;
      ghost var before := Views();
      NoneVisited(before, t);
      assert before.Keys == sessions.Keys;
      var rest := sessions.Keys;
      c := 0;
      while rest != {}
        invariant rest <= sessions.Keys
        invariant Visited(before, Views(), rest, t)
        decreases rest
      {
        c :| c in rest;
        ghost var now := Views();
        ok := OfferTo(c, t, spider);
        if ok {
          FoundFit(before, now, Views(), rest, t, spider, c);
          return;
        }
        PassedBy(before, now, Views(), rest, t, c);
        rest := rest - {c};
      }
      ok := false;
    }

    method Assign(t: nat, spider: int) returns (ok: bool)
      requires Valid()
      modifies this`tasks, sessions.Values
      ensures Valid()
      ensures AssignOutcome(old(Views()), old(tasks), t, spider, Views(), tasks, ok)
    {
      var c: Sid;
      ok, c := FirstFit(t, spider);
      ghost var after := Views();
      if ok {
        Chosen(old(Views()), after, old(tasks), t, spider, c);
        tasks := tasks[t := Meta(c, spider)];
        assert Views() == after;
      } else {
        NotChosen(old(Views()), after, old(tasks), t, spider);
      }
      hide AssignOutcome;
    }
  }

  ghost predicate Visited(before: map<Sid, Session>, after: map<Sid, Session>, todo: set<Sid>, t: nat) {
    && after.Keys == before.Keys
    && (forall k :: k in before && k in todo ==> after[k] == before[k])
    && (forall k :: k in before && k !in todo ==> after[k] == Passed(before[k], t) && !Open(before[k]))
  }

  /** The task went to `c`, before which some sessions were visited in vain. */
  ghost predicate Fits(before: map<Sid, Session>, after: map<Sid, Session>, t: nat, spider: int, c: Sid) {
    && c in before && Open(before[c]) && after.Keys == before.Keys && after[c] == Taken(before[c], t, spider)
    && forall k :: k in before && k != c ==>
         after[k] == before[k] || (!Open(before[k]) && after[k] == Passed(before[k], t))
  }

  lemma NoneVisited(before: map<Sid, Session>, t: nat)
    ensures Visited(before, before, before.Keys, t)
  {
  }

  lemma PassedBy(before: map<Sid, Session>, now: map<Sid, Session>, after: map<Sid, Session>, rest: set<Sid>, t: nat, c: Sid)
    requires Visited(before, now, rest, t) && c in rest && c in now && !Open(now[c])
    requires after == now[c := Passed(now[c], t)]
    ensures Visited(before, after, rest - {c}, t)
  {
    hide Open, Passed;
  }

  lemma FoundFit(before: map<Sid, Session>, now: map<Sid, Session>, after: map<Sid, Session>, rest: set<Sid>,
                 t: nat, spider: int, c: Sid)
    requires Visited(before, now, rest, t) && c in rest && c in now && Open(now[c])
    requires after == now[c := Taken(now[c], t, spider)]
    ensures Fits(before, after, t, spider, c)
  {
    hide Open, Passed, Taken;
  }

  lemma Chosen(before: map<Sid, Session>, after: map<Sid, Session>, tasks: map<nat, Meta>, t: nat, spider: int, c: Sid)
    requires Fits(before, after, t, spider, c)
    ensures AssignOutcome(before, tasks, t, spider, after, tasks[t := Meta(c, spider)], true)
  {
    hide Open, Passed, Taken;
    assert TakenBy(before, tasks, t, spider, after, tasks[t := Meta(c, spider)], c);
  }

  lemma NotChosen(before: map<Sid, Session>, after: map<Sid, Session>, tasks: map<nat, Meta>, t: nat, spider: int)
    requires Visited(before, after, {}, t)
    ensures AssignOutcome(before, tasks, t, spider, after, tasks, false)
  {
    hide Open, Passed;
  }
}
