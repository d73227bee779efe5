// Assign as a whole against the lock-level machine: what the class method does in one
// call is a run of the machine's steps, so the invariants of all runs cover it.
module HubRefinement {
  import opened HubLedger
  import opened WorkerHub

  ghost predicate Reaches(s: State, e: State) {
    exists steps: seq<Step> :: Valid(s, steps) && Run(s, steps) == e
  }

  lemma ReachesNow(s: State)
    ensures Reaches(s, s)
  {
    assert Valid(s, []) && Run(s, []) == s;
  }

  lemma ReachesBy(s: State, a: Step, e: State)
    requires Enabled(s, a) && Reaches(Apply(s, a), e)
    ensures Reaches(s, e)
  {
    hide Enabled, Apply;
    var steps: seq<Step> :| Valid(Apply(s, a), steps) && Run(Apply(s, a), steps) == e;
    assert ([a] + steps)[1..] == steps;
    assert Valid(s, [a] + steps) && Run(s, [a] + steps) == e;
  }

  /** `s` with the sessions of `some` tried and passed over. */
  function PassedOver(s: State, some: set<Sid>): State
    requires s.assigning.Choosing?
  {
    s.(sessions := map k | k in s.sessions ::
                     if k in some then Passed(s.sessions[k], s.assigning.task) else s.sessions[k],
       assigning := Choosing(s.assigning.task, s.assigning.spider, s.assigning.tried + some))
  }

  predicate CanPass(s: State, some: set<Sid>)
    requires s.assigning.Choosing?
  {
    forall k :: k in some ==> k in s.sessions && k !in s.assigning.tried && !Open(s.sessions[k])
  }

  /** A visit that assigns nothing is a skip, or a reservation rolled back. */
  lemma PassOne(s: State, k: Sid, e: State)
    requires s.assigning.Choosing? && CanPass(s, {k}) && Reaches(PassedOver(s, {k}), e)
    ensures Reaches(s, e)
  {
    hide Reaches;
    var x, t := s.sessions[k], s.assigning.task;
    if x.free <= 0 {
      assert Apply(s, Skip(k)).sessions == PassedOver(s, {k}).sessions;
      ReachesBy(s, Skip(k), e);
    } else {
      var s1 := Apply(s, Reserve(k));
      assert x.running + {t} - {t} == x.running - {t};
      assert Apply(s1, Rollback).sessions == PassedOver(s, {k}).sessions;
      ReachesBy(s1, Rollback, e);
      ReachesBy(s, Reserve(k), e);
    }
  }

  lemma {:induction false} PassAll(s: State, some: set<Sid>, e: State)
    requires s.assigning.Choosing? && CanPass(s, some) && Reaches(PassedOver(s, some), e)
    ensures Reaches(s, e)
    decreases some
  {
    hide Reaches, Open, Passed;
    if some == {} {
      assert PassedOver(s, some).sessions == s.sessions;
      assert s.assigning.tried + some == s.assigning.tried;
    } else {
      var k :| k in some;
      var s1, rest := PassedOver(s, {k}), some - {k};
      assert PassedOver(s1, rest).sessions == PassedOver(s, some).sessions;
      assert s.assigning.tried + {k} + rest == s.assigning.tried + some;
      PassAll(s1, rest, e);
      PassOne(s, k, e);
    }
  }

  /** Reserve, send, record: the session that takes the task. */
  lemma TakeOne(s: State, c: Sid)
    requires s.assigning.Choosing? && c in s.sessions && c !in s.assigning.tried && Open(s.sessions[c])
    ensures var t, spider := s.assigning.task, s.assigning.spider;
            Reaches(s, s.(sessions := s.sessions[c := Taken(s.sessions[c], t, spider)],
                          tasks := s.tasks[t := Meta(c, spider)], assigning := Unlocked))
  {
    var s1 := Apply(s, Reserve(c));
    var s2 := Apply(s1, Send);
    var s3 := Apply(s2, Record);
    var t, spider := s.assigning.task, s.assigning.spider;
    assert s3.sessions == s.sessions[c := Taken(s.sessions[c], t, spider)];
    ReachesNow(s3);
    ReachesBy(s2, Record, s3);
    ReachesBy(s1, Send, s3);
    ReachesBy(s, Reserve(c), s3);
  }

  /** Whatever order the sessions come in, an Assign that takes the hub lock at `s` is a
      run of the machine that ends with the lock free and the call's sessions and index. */
  lemma AssignIsARun(s: State, t: nat, spider: int, after: map<Sid, Session>, tasks': map<nat, Meta>, ok: bool)
    requires s.assigning.Unlocked? && t in s.rows && s.rows[t] == spider
    requires AssignOutcome(s.sessions, s.tasks, t, spider, after, tasks', ok)
    ensures Reaches(s, s.(sessions := after, tasks := tasks'))
  {
    var e := s.(sessions := after, tasks := tasks');
    hide Reaches, Open, Passed, Taken, TakenBy;
    if ok {
      TakenIsARun(s, t, spider, after, tasks', e);
    } else {
      RefusedIsARun(s, t, spider, after, e);
    }
  }

  /** The sessions other than the chosen one that the loop tried. */
  function Tried(before: map<Sid, Session>, after: map<Sid, Session>, c: Sid): set<Sid>
    requires after.Keys == before.Keys
  {
    set k | k in before && k != c && after[k] != before[k]
  }

  lemma TriedThenTaken(s0: State, after: map<Sid, Session>, tasks': map<nat, Meta>, c: Sid)
    requires s0.assigning.Choosing? && s0.assigning.tried == {} && after.Keys == s0.sessions.Keys
    requires TakenBy(s0.sessions, s0.tasks, s0.assigning.task, s0.assigning.spider, after, tasks', c)
    ensures var s1 := PassedOver(s0, Tried(s0.sessions, after, c));
            && CanPass(s0, Tried(s0.sessions, after, c))
            && c in s1.sessions && c !in s1.assigning.tried && s1.sessions[c] == s0.sessions[c]
            && s1.sessions[c := Taken(s1.sessions[c], s0.assigning.task, s0.assigning.spider)] == after
  {
    hide Passed, Taken, Open;
  }

  lemma TakenIsARun(s: State, t: nat, spider: int, after: map<Sid, Session>, tasks': map<nat, Meta>, e: State)
    requires s.assigning.Unlocked? && t in s.rows && s.rows[t] == spider && e == s.(sessions := after, tasks := tasks')
    requires AssignOutcome(s.sessions, s.tasks, t, spider, after, tasks', true)
    ensures Reaches(s, e)
  {
    var c :| TakenBy(s.sessions, s.tasks, t, spider, after, tasks', c);
    var s0 := s.(assigning := Choosing(t, spider, {}));
    assert Apply(s, Begin(t)) == s0;
    assert Open(s.sessions[c]) && tasks' == s.tasks[t := Meta(c, spider)];
    TriedThenTaken(s0, after, tasks', c);
    var s1 := PassedOver(s0, Tried(s0.sessions, after, c));
    assert s1.tasks == s.tasks;
    hide Reaches, Passed, Taken, AssignOutcome, Open, Apply, CanPass, TakenBy;
    TakeOne(s1, c);
    PassAll(s0, Tried(s0.sessions, after, c), e);
    ReachesBy(s, Begin(t), e);
  }

  lemma RefusedIsARun(s: State, t: nat, spider: int, after: map<Sid, Session>, e: State)
    requires s.assigning.Unlocked? && t in s.rows && s.rows[t] == spider && e == s.(sessions := after)
    requires AssignOutcome(s.sessions, s.tasks, t, spider, after, s.tasks, false)
    ensures Reaches(s, e)
  {
    hide Reaches, Passed;
    var s0 := s.(assigning := Choosing(t, spider, {}));
    var s1 := PassedOver(s0, s.sessions.Keys);
    assert Apply(s, Begin(t)) == s0;
    assert s1.sessions == after;
    assert Apply(s1, GiveUp) == e;
    ReachesNow(e);
    ReachesBy(s1, GiveUp, e);
    PassAll(s0, s.sessions.Keys, e);
    ReachesBy(s, Begin(t), e);
  }

  /** A cancel with nothing beside it is a look-up and a send. */
  lemma CancelIsARun(s: State, c: nat, t: nat)
    requires s.assigning.Unlocked? && c !in s.cancelling && (t in s.tasks ==> s.tasks[t].sid in s.sessions)
    ensures Reaches(s, if t in s.tasks then s.(sessions := Heard(s.sessions, s.tasks[t].sid, CancelTask(t))) else s)
  {
    var e := if t in s.tasks then s.(sessions := Heard(s.sessions, s.tasks[t].sid, CancelTask(t))) else s;
    ReachesNow(e);
    var s1 := Apply(s, LookUp(c, t));
    if t in s.tasks {
      assert s1.cancelling - {c} == s.cancelling;
      assert Apply(s1, Tell(c)) == e;
      ReachesBy(s1, Tell(c), e);
    }
    ReachesBy(s, LookUp(c, t), e);
    hide Reaches, Heard;
  }
}
