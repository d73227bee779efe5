// What a dispatch pass should do, as functions of the listing and of the capacity
// the sessions have between them.
module DispatchPlan {
  import opened HubLedger
  import opened WorkerHub

  // ---- capacity -----------------------------------------------------------------

  function Slots(s: Session): nat {
    var room := if |s.outbox| < OUTBOX_SIZE then OUTBOX_SIZE - |s.outbox| else 0;
    if s.free <= 0 then 0 else if s.free < room then s.free else room
  }

  function SlotMap(views: map<Sid, Session>): map<Sid, nat> {
    map k | k in views :: Slots(views[k])
  }

  ghost function Sum(m: map<Sid, nat>): nat
    decreases |m|
  {
    if m == map[] then 0
    else
      var k :| k in m;
      m[k] + Sum(m - {k})
  }

  ghost function Capacity(views: map<Sid, Session>): nat {
    Sum(SlotMap(views))
  }

  lemma {:induction false} SumWithout(m: map<Sid, nat>, k: Sid)
    requires k in m
    ensures Sum(m) == m[k] + Sum(m - {k})
    decreases |m|
  {
    var j :| j in m && Sum(m) == m[j] + Sum(m - {j});
    if j != k {
      SumWithout(m - {j}, k);
      SumWithout(m - {k}, j);
      assert m - {j} - {k} == m - {k} - {j};
    }
  }

  lemma SumUpdate(m: map<Sid, nat>, k: Sid, v: nat)
    requires k in m
    ensures Sum(m[k := v]) == Sum(m) - m[k] + v
  {
    SumWithout(m, k);
    SumWithout(m[k := v], k);
    assert m[k := v] - {k} == m - {k};
  }

  lemma {:induction false} SumZero(m: map<Sid, nat>)
    ensures Sum(m) == 0 <==> forall k :: k in m ==> m[k] == 0
    decreases |m|
  {
    if m != map[] {
      var j :| j in m && Sum(m) == m[j] + Sum(m - {j});
      SumZero(m - {j});
      assert forall k :: k in m ==> k == j || k in m - {j};
    }
  }

  lemma OpenIffSlots(s: Session)
    ensures Open(s) <==> Slots(s) > 0
  {
  }

  lemma TakenUsesOne(before: map<Sid, Session>, tasks: map<nat, Meta>, t: nat, spider: int,
                     after: map<Sid, Session>, tasks': map<nat, Meta>, c: Sid)
    requires after.Keys == before.Keys && TakenBy(before, tasks, t, spider, after, tasks', c)
    ensures Capacity(after) == Capacity(before) - 1
  {
    assert Slots(after[c]) == Slots(before[c]) - 1;
    forall k | k in before && k != c
      ensures Slots(after[k]) == Slots(before[k])
    {
    }
    hide Slots, Open, Passed, Taken, TakenBy;
    assert SlotMap(after) == SlotMap(before)[c := Slots(before[c]) - 1];
    SumUpdate(SlotMap(before), c, Slots(before[c]) - 1);
  }

  lemma CapacityIff(views: map<Sid, Session>)
    ensures Capacity(views) > 0 <==> exists k :: k in views && Open(views[k])
    ensures Capacity(views) > 0 <==> exists k :: k in views && views[k].free > 0 && |views[k].outbox| < 64
  {
    SumZero(SlotMap(views));
    forall k | k in views
      ensures SlotMap(views)[k] > 0 <==> Open(views[k])
    {
      OpenIffSlots(views[k]);
    }
  }

  /** An Assign succeeds exactly when there is capacity, and uses one unit of it. */
  lemma AssignUsesOne(before: map<Sid, Session>, tasks: map<nat, Meta>, t: nat, spider: int,
                      after: map<Sid, Session>, tasks': map<nat, Meta>, ok: bool)
    requires AssignOutcome(before, tasks, t, spider, after, tasks', ok)
    ensures ok <==> Capacity(before) > 0
    ensures Capacity(after) == Capacity(before) - (if ok then 1 else 0)
  {
    CapacityIff(before);
    if ok {
      var c :| TakenBy(before, tasks, t, spider, after, tasks', c);
      TakenUsesOne(before, tasks, t, spider, after, tasks', c);
    } else {
      assert SlotMap(after) == SlotMap(before);
    }
  }

  // ---- what the outboxes hold -----------------------------------------------------------

  ghost function AllOf(m: map<Sid, seq<Msg>>): multiset<Msg>
    decreases |m|
  {
    if m == map[] then multiset{}
    else
      var k :| k in m;
      multiset(m[k]) + AllOf(m - {k})
  }

  function OutboxMap(views: map<Sid, Session>): map<Sid, seq<Msg>> {
    map k | k in views :: views[k].outbox
  }

  /** Every message in some session's outbox, as often as it is there. */
  ghost function Outboxes(views: map<Sid, Session>): multiset<Msg> {
    AllOf(OutboxMap(views))
  }

  lemma {:induction false} AllWithout(m: map<Sid, seq<Msg>>, k: Sid)
    requires k in m
    ensures AllOf(m) == multiset(m[k]) + AllOf(m - {k})
    decreases |m|
  {
    var j :| j in m && AllOf(m) == multiset(m[j]) + AllOf(m - {j});
    if j != k {
      AllWithout(m - {j}, k);
      AllWithout(m - {k}, j);
      assert m - {j} - {k} == m - {k} - {j};
    }
  }

  /** An Assign puts its message in exactly one outbox, or nowhere. */
  lemma AssignSendsOne(before: map<Sid, Session>, tasks: map<nat, Meta>, t: nat, spider: int,
                       after: map<Sid, Session>, tasks': map<nat, Meta>, ok: bool)
    requires AssignOutcome(before, tasks, t, spider, after, tasks', ok)
    ensures Outboxes(after) == if ok then Outboxes(before) + multiset{AssignTask(t, spider)} else Outboxes(before)
  {
    if ok {
      var c :| TakenBy(before, tasks, t, spider, after, tasks', c);
      var b, a := OutboxMap(before), OutboxMap(after);
      assert a == b[c := b[c] + [AssignTask(t, spider)]];
      AllWithout(b, c);
      AllWithout(a, c);
      assert a - {c} == b - {c};
    } else {
      assert OutboxMap(after) == OutboxMap(before);
    }
  }

  // ---- the plan --------------------------------------------------------------------

  function Only(ids: seq<nat>, good: set<nat>): seq<nat> {
    if ids == [] then []
    else (if ids[0] in good then [ids[0]] else []) + Only(ids[1..], good)
  }

  function Without(ids: seq<nat>, good: set<nat>): seq<nat> {
    if ids == [] then []
    else (if ids[0] in good then [] else [ids[0]]) + Without(ids[1..], good)
  }

  /** The rows a pass assigns, when `good` are the buildable ones. */
  function Assigned(ids: seq<nat>, good: set<nat>, capacity: nat): seq<nat> {
    if ids == [] then []
    else if ids[0] !in good then Assigned(ids[1..], good, capacity)
    else if capacity == 0 then []
    else [ids[0]] + Assigned(ids[1..], good, capacity - 1)
  }

  /** The rows it fails. */
  function Failing(ids: seq<nat>, good: set<nat>, capacity: nat): seq<nat> {
    if ids == [] then []
    else if ids[0] !in good then [ids[0]] + Failing(ids[1..], good, capacity)
    else if capacity == 0 then []
    else Failing(ids[1..], good, capacity - 1)
  }

  function Min(a: nat, b: nat): nat {
    if a < b then a else b
  }

  /** The pass is work-conserving and keeps queue order: it assigns the first
      min(capacity, buildable) buildable rows. */
  lemma {:induction false} AssignsFirstBuildable(ids: seq<nat>, good: set<nat>, capacity: nat)
    ensures var all := Only(ids, good);
            Assigned(ids, good, capacity) == all[..Min(capacity, |all|)]
  {
    if ids != [] {
      if ids[0] !in good {
        AssignsFirstBuildable(ids[1..], good, capacity);
      } else if capacity > 0 {
        AssignsFirstBuildable(ids[1..], good, capacity - 1);
        assert Only(ids, good) == [ids[0]] + Only(ids[1..], good);
      }
    }
  }

  lemma {:induction false} SplitPoint(ids: seq<nat>, good: set<nat>, capacity: nat) returns (n: nat)
    ensures n <= |ids|
    ensures Assigned(ids, good, capacity) == Only(ids[..n], good)
    ensures Failing(ids, good, capacity) == Without(ids[..n], good)
    ensures n < |ids| ==> ids[n] in good && |Only(ids[..n], good)| == capacity
    ensures |Only(ids[..n], good)| <= capacity
  {
    if ids == [] || (ids[0] in good && capacity == 0) {
      n := 0;
    } else {
      var m := SplitPoint(ids[1..], good, if ids[0] in good then capacity - 1 else capacity);
      n := m + 1;
      assert ids[..n][1..] == ids[1..][..m];
    }
  }

  lemma {:induction false} OnlyMembers(ids: seq<nat>, good: set<nat>)
    ensures forall x :: x in Only(ids, good) <==> x in ids && x in good
    ensures forall x :: x in Without(ids, good) <==> x in ids && x !in good
  {
    if ids != [] {
      OnlyMembers(ids[1..], good);
    }
  }

  /** Where the pass ends: after the whole listing, or at the first buildable row met with
      all the capacity used. Of the rows before that it assigns exactly the buildable ones
      and fails exactly the others; it touches none after. */
  lemma PassSplits(ids: seq<nat>, good: set<nat>, capacity: nat) returns (n: nat)
    ensures n <= |ids|
    ensures forall x :: x in Assigned(ids, good, capacity) <==> x in ids[..n] && x in good
    ensures forall x :: x in Failing(ids, good, capacity) <==> x in ids[..n] && x !in good
    ensures |Assigned(ids, good, capacity)| + |Failing(ids, good, capacity)| == n
    ensures n < |ids| ==> ids[n] in good && |Assigned(ids, good, capacity)| == capacity
    ensures |Assigned(ids, good, capacity)| <= capacity
  {
    n := SplitPoint(ids, good, capacity);
    OnlyMembers(ids[..n], good);
    OnlyOrWithout(ids[..n], good);
  }

  lemma {:induction false} OnlyOrWithout(ids: seq<nat>, good: set<nat>)
    ensures |Only(ids, good)| + |Without(ids, good)| == |ids|
  {
    if ids != [] {
      OnlyOrWithout(ids[1..], good);
    }
  }
}
