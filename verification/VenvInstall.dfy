// The shared virtualenvs of one worker process: any number of tasks resolve their
// interpreter at once, and the tasks of one requirements hash take turns on a mutex
// made on first use.
module VenvInstall {

  /** The first 16 hex digits of the digest of requirements.txt, read as a number. */
  type Hash = h: nat | h < 0x1_0000_0000_0000_0000

  /** What is in `<venvDir>/<hash>`: the interpreter, and how far uv got since the
      directory was last started over. */
  datatype Venv = Venv(python: bool, created: bool, installed: bool)

  const EMPTY := Venv(false, false, false)

  predicate Built(v: Venv) {
    v.python && v.created && v.installed
  }

  /** A hash's directory with the installs begun in it and those that ended in an error. */
  datatype Slot = Slot(venv: Venv, started: nat, failed: nat)

  datatype Phase =
    | Looking                  // before the lock table is consulted
    | Waiting                  // for the mutex of its hash
    | Locked                   // about to stat the interpreter
    | MakingDir                // stat missed
    | Creating                 // `uv venv` is running
    | Installing               // `uv pip install` is running
    | Checking                 // about to stat once more
    | Removing                 // about to remove the directory
    | Leaving(ok: bool)        // about to unlock
    | Returned(path: bool)     // with the interpreter of its hash, or an error

  /** A task, its hash and the mutex it got from the table. */
  datatype Proc = Proc(hash: Hash, mu: nat, at: Phase)

  /** `locks` is the executor's table over mutexes numbered as they are made, `owner`
      says who has locked which. */
  datatype State = State(
    procs: map<nat, Proc>,
    locks: map<Hash, nat>,
    made: nat,
    owner: map<nat, nat>,
    slots: map<Hash, Slot>)

  datatype Step =
    | Enter(task: nat, hash: Hash)
    | FindLock(task: nat)
    | Lock(task: nat)
    | Act(task: nat, act: Action)
    | Unlock(task: nat)

  /** What a task does while it holds the mutex. */
  datatype Action =
    | Stat
    | MakeDir(ok: bool)
    | Touch(python: bool)      // uv puts the interpreter there or takes it away
    | CreateEnds(ok: bool)
    | InstallEnds(ok: bool)
    | Check
    | Remove

  predicate CanAct(p: Phase, act: Action) {
    match act
    case Stat => p.Locked?
    case MakeDir(_) => p.MakingDir?
    case Touch(_) => p.Creating? || p.Installing?
    case CreateEnds(_) => p.Creating?
    case InstallEnds(_) => p.Installing?
    case Check => p.Checking?
    case Remove => p.Removing?
  }

  /** Where the action takes the task, and its slot. */
  function Acted(p: Phase, x: Slot, act: Action): (Phase, Slot) {
    match act
    case Stat =>
      if x.venv.python then (Leaving(true), x) else (MakingDir, x.(started := x.started + 1))
    case MakeDir(ok) =>
      if ok then (Creating, x.(venv := EMPTY)) else (Leaving(false), x.(failed := x.failed + 1))
    case Touch(python) => (p, x.(venv := x.venv.(python := python)))
    case CreateEnds(ok) =>
      if ok then (Installing, x.(venv := x.venv.(created := true))) else (Removing, x)
    case InstallEnds(ok) =>
      if ok then (Checking, x.(venv := x.venv.(installed := true))) else (Removing, x)
    case Check =>
      if x.venv.python then (Leaving(true), x) else (Removing, x)
    case Remove => (Leaving(false), x.(venv := EMPTY, failed := x.failed + 1))
  }

  function SlotOf(s: State, h: Hash): Slot {
    if h in s.slots then s.slots[h] else Slot(EMPTY, 0, 0)
  }

  predicate Enabled(s: State, a: Step) {
    match a
    case Enter(t, _) => t !in s.procs
    case FindLock(t) => t in s.procs && s.procs[t].at.Looking?
    case Lock(t) => t in s.procs && s.procs[t].at.Waiting? && s.procs[t].mu !in s.owner
    case Act(t, act) => t in s.procs && CanAct(s.procs[t].at, act)
    case Unlock(t) => t in s.procs && s.procs[t].at.Leaving?
  }

  function Apply(s: State, a: Step): State
    requires Enabled(s, a)
  {
    match a
    case Enter(t, h) => s.(procs := s.procs[t := Proc(h, 0, Looking)])
    case FindLock(t) =>
      var h := s.procs[t].hash;
      if h in s.locks then s.(procs := s.procs[t := Proc(h, s.locks[h], Waiting)])
      else s.(procs := s.procs[t := Proc(h, s.made, Waiting)], locks := s.locks[h := s.made], made := s.made + 1)
    case Lock(t) =>
      s.(procs := s.procs[t := s.procs[t].(at := Locked)], owner := s.owner[s.procs[t].mu := t])
    case Act(t, act) =>
      var p := s.procs[t];
      var (at, x) := Acted(p.at, SlotOf(s, p.hash), act);
      s.(procs := s.procs[t := p.(at := at)], slots := s.slots[p.hash := x])
    case Unlock(t) =>
      s.(procs := s.procs[t := s.procs[t].(at := Returned(s.procs[t].at.ok))], owner := s.owner - {s.procs[t].mu})
  }

  ghost predicate Valid(s: State, steps: seq<Step>)
    decreases |steps|
  {
    steps == [] || (Enabled(s, steps[0]) && Valid(Apply(s, steps[0]), steps[1..]))
  }

  ghost function Run(s: State, steps: seq<Step>): State
    requires Valid(s, steps)
    decreases |steps|
  {
    if steps == [] then s else Run(Apply(s, steps[0]), steps[1..])
  }

  // ---- the invariant ---------------------------------------------------------------

  /** Between the stat that missed and the end of the install. */
  predicate AtWork(p: Phase) {
    p.MakingDir? || p.Creating? || p.Installing? || p.Checking? || p.Removing?
  }

  predicate Holds(p: Phase) {
    p.Locked? || AtWork(p) || p.Leaving?
  }

  /** A slot nobody is working on. */
  predicate Idle(x: Slot) {
    && (x.venv.python ==> Built(x.venv))
    && x.started <= x.failed + (if x.venv.python then 1 else 0)
  }

  /** A slot whose mutex is held by a task at `p`. */
  predicate Held(p: Phase, x: Slot) {
    && (AtWork(p) ==> x.started <= x.failed + 1)
    && (p.MakingDir? ==> !x.venv.python)
    && (p.Installing? ==> x.venv.created)
    && (p.Checking? ==> x.venv.created && x.venv.installed)
    && (p.Leaving? && p.ok ==> Built(x.venv))
    && (!AtWork(p) ==> Idle(x))
  }

  /** An action keeps the slot in order, and never disturbs a built one outside an install. */
  lemma ActedOk(p: Phase, x: Slot, act: Action)
    requires CanAct(p, act) && Held(p, x)
    ensures var (p', x') := Acted(p, x, act);
            Holds(p) && Holds(p') && Held(p', x') && (!AtWork(p) && Built(x.venv) ==> !AtWork(p') && x' == x)
  {
  }

  predicate IsHeld(s: State, h: Hash) {
    h in s.locks && s.locks[h] in s.owner && s.owner[s.locks[h]] in s.procs
  }

  function HolderAt(s: State, h: Hash): Phase
    requires IsHeld(s, h)
  {
    s.procs[s.owner[s.locks[h]]].at
  }

  predicate Settled(s: State, h: Hash) {
    Built(SlotOf(s, h).venv) && (IsHeld(s, h) ==> !AtWork(HolderAt(s, h)))
  }

  predicate HashOk(s: State, h: Hash) {
    if IsHeld(s, h) then Held(HolderAt(s, h), SlotOf(s, h)) else Idle(SlotOf(s, h))
  }

  predicate ProcOk(s: State, t: nat)
    requires t in s.procs
  {
    var p := s.procs[t];
    && (p.at.Waiting? || Holds(p.at) ==> p.hash in s.locks && s.locks[p.hash] == p.mu)
    && (Holds(p.at) ==> p.mu in s.owner && s.owner[p.mu] == t)
    && (p.at.Returned? && p.at.path ==> Settled(s, p.hash))
  }

  /** Hashes do not share a mutex, and whoever has locked one is still its holder. */
  ghost predicate LocksOk(s: State) {
    && (forall h :: h in s.locks ==> s.locks[h] < s.made)
    && (forall g, h :: g in s.locks && h in s.locks && s.locks[g] == s.locks[h] ==> g == h)
    && (forall mu :: mu in s.owner ==>
          mu < s.made && s.owner[mu] in s.procs && Holds(s.procs[s.owner[mu]].at) && s.procs[s.owner[mu]].mu == mu)
  }

  ghost predicate Inv(s: State) {
    && LocksOk(s)
    && (forall t :: t in s.procs ==> ProcOk(s, t))
    && (forall h :: HashOk(s, h))
  }

  lemma LocksStep(s: State, a: Step)
    requires LocksOk(s) && Enabled(s, a) && (a.task in s.procs ==> ProcOk(s, a.task))
    ensures LocksOk(Apply(s, a))
  {
    hide Settled;
  }

  /** A task moves only the holder and the slot of its own hash. */
  lemma OtherHash(s: State, a: Step, h: Hash)
    requires LocksOk(s) && Enabled(s, a) && (a.task in s.procs ==> ProcOk(s, a.task) && s.procs[a.task].hash != h)
    ensures var s' := Apply(s, a);
            && SlotOf(s', h) == SlotOf(s, h) && (IsHeld(s', h) <==> IsHeld(s, h))
            && (IsHeld(s, h) ==> HolderAt(s', h) == HolderAt(s, h))
  {
    hide Settled, Acted, CanAct;
  }

  lemma OwnHash(s: State, a: Step)
    requires LocksOk(s) && Enabled(s, a) && a.task in s.procs && ProcOk(s, a.task)
    requires HashOk(s, s.procs[a.task].hash)
    ensures HashOk(Apply(s, a), s.procs[a.task].hash)
  {
    hide Settled, Acted;
    if a.Act? {
      ActedOk(s.procs[a.task].at, SlotOf(s, s.procs[a.task].hash), a.act);
    }
  }

  lemma HashStep(s: State, a: Step, h: Hash)
    requires LocksOk(s) && Enabled(s, a) && (a.task in s.procs ==> ProcOk(s, a.task)) && HashOk(s, h)
    ensures HashOk(Apply(s, a), h)
  {
    hide LocksOk, ProcOk, Held, Idle, Enabled, Apply;
    if a.task in s.procs && s.procs[a.task].hash == h {
      OwnHash(s, a);
    } else {
      OtherHash(s, a, h);
    }
  }

  /** A built environment nobody is reinstalling stays that way. */
  lemma SettledStays(s: State, a: Step, h: Hash)
    requires LocksOk(s) && Enabled(s, a) && (a.task in s.procs ==> ProcOk(s, a.task)) && HashOk(s, h)
    requires Settled(s, h)
    ensures Settled(Apply(s, a), h) && SlotOf(Apply(s, a), h) == SlotOf(s, h)
  {
    if a.task in s.procs && s.procs[a.task].hash == h {
      if a.Act? {
        ActedOk(s.procs[a.task].at, SlotOf(s, h), a.act);
      }
    } else {
      hide ProcOk, Apply, LocksOk, HashOk;
      OtherHash(s, a, h);
    }
  }

  lemma ProcStep(s: State, a: Step, t: nat)
    requires LocksOk(s) && Enabled(s, a) && t in Apply(s, a).procs
    requires a.task in s.procs ==> ProcOk(s, a.task)
    requires t in s.procs ==> ProcOk(s, t) && HashOk(s, s.procs[t].hash)
    ensures ProcOk(Apply(s, a), t)
  {
    if t in s.procs && s.procs[t].at.Returned? && s.procs[t].at.path {
      hide Settled, HashOk;
      SettledStays(s, a, s.procs[t].hash);
    }
  }

  lemma StepInv(s: State, a: Step)
    requires Inv(s) && Enabled(s, a)
    ensures Inv(Apply(s, a))
  {
    hide LocksOk, ProcOk, HashOk, Enabled, Apply;
    LocksStep(s, a);
    forall t | t in Apply(s, a).procs
      ensures ProcOk(Apply(s, a), t)
    {
      ProcStep(s, a, t);
    }
    forall h
      ensures HashOk(Apply(s, a), h)
    {
      HashStep(s, a, h);
    }
  }

  lemma {:induction false} RunInv(s: State, steps: seq<Step>)
    requires Inv(s) && Valid(s, steps)
    ensures Inv(Run(s, steps))
    decreases |steps|
  {
    if steps != [] {
      StepInv(s, steps[0]);
      RunInv(Apply(s, steps[0]), steps[1..]);
    }
  }

  /** The process starts with no tasks; where an earlier process left an interpreter, it
      left a finished install. */
  ghost predicate Starts(s: State) {
    && s.procs == map[] && s.locks == map[] && s.owner == map[]
    && forall h :: SlotOf(s, h).started == 0 && SlotOf(s, h).failed == 0
                   && (SlotOf(s, h).venv.python ==> Built(SlotOf(s, h).venv))
  }

  /** Whatever the interleaving: the tasks past the mutex of one hash are one task. */
  lemma InstallsExclude(s: State, steps: seq<Step>, t: nat, u: nat)
    requires Starts(s) && Valid(s, steps)
    requires var e := Run(s, steps);
             && t in e.procs && u in e.procs && e.procs[t].hash == e.procs[u].hash
             && Holds(e.procs[t].at) && Holds(e.procs[u].at)
    ensures t == u
  {
    assert Inv(s);
    RunInv(s, steps);
    assert ProcOk(Run(s, steps), t) && ProcOk(Run(s, steps), u);
  }

  /** An interpreter under a free mutex comes from an install both of whose uv steps
      succeeded; and per hash there is at most one install that did not fail. */
  lemma InterpreterMeansBuilt(s: State, steps: seq<Step>, h: Hash)
    requires Starts(s) && Valid(s, steps)
    ensures var e := Run(s, steps);
            && (!IsHeld(e, h) && SlotOf(e, h).venv.python ==> Built(SlotOf(e, h).venv))
            && SlotOf(e, h).started <= SlotOf(e, h).failed + 1
  {
    assert Inv(s);
    RunInv(s, steps);
    assert HashOk(Run(s, steps), h);
  }

  lemma {:induction false} BuiltForGood(s: State, steps: seq<Step>, h: Hash)
    requires Inv(s) && Valid(s, steps) && Settled(s, h)
    ensures Settled(Run(s, steps), h) && SlotOf(Run(s, steps), h) == SlotOf(s, h)
    decreases |steps|
  {
    if steps != [] {
      assert HashOk(s, h);
      SettledStays(s, steps[0], h);
      StepInv(s, steps[0]);
      BuiltForGood(Apply(s, steps[0]), steps[1..], h);
    }
  }

  /** A path handed to a task names a finished install of the task's hash, now and after
      anything else the process does, and that hash is never installed again. */
  lemma ReturnedPathIsBuilt(s: State, steps: seq<Step>, t: nat, more: seq<Step>)
    requires Starts(s) && Valid(s, steps) && Valid(Run(s, steps), more)
    requires t in Run(s, steps).procs && Run(s, steps).procs[t].at == Returned(true)
    ensures var h := Run(s, steps).procs[t].hash;
            && Built(SlotOf(Run(s, steps), h).venv)
            && SlotOf(Run(Run(s, steps), more), h) == SlotOf(Run(s, steps), h)
  {
    assert Inv(s);
    RunInv(s, steps);
    assert ProcOk(Run(s, steps), t);
    BuiltForGood(Run(s, steps), more, Run(s, steps).procs[t].hash);
  }

  /** A step the task can take. */
  function NextOf(p: Proc, t: nat): Step {
    match p.at
    case Looking => FindLock(t)
    case Waiting => Lock(t)
    case Locked => Act(t, Stat)
    case MakingDir => Act(t, MakeDir(true))
    case Creating => Act(t, CreateEnds(true))
    case Installing => Act(t, InstallEnds(true))
    case Checking => Act(t, Check)
    case Removing => Act(t, Remove)
    case Leaving(_) => Unlock(t)
    case Returned(_) => Enter(t, p.hash)
  }

  /** Nobody waits forever on a mutex nobody will give back: while a task has not
      returned, some task of its hash can move. */
  lemma NeverStuck(s: State, steps: seq<Step>, t: nat)
    requires Starts(s) && Valid(s, steps)
    requires t in Run(s, steps).procs && !Run(s, steps).procs[t].at.Returned?
    ensures var e := Run(s, steps);
            exists u :: u in e.procs && e.procs[u].hash == e.procs[t].hash && Enabled(e, NextOf(e.procs[u], u))
  {
    assert Inv(s);
    RunInv(s, steps);
    var e := Run(s, steps);
    assert ProcOk(e, t);
    var u := if e.procs[t].at.Waiting? && e.procs[t].mu in e.owner then e.owner[e.procs[t].mu] else t;
    assert ProcOk(e, u);
    assert Enabled(e, NextOf(e.procs[u], u));
  }
}
