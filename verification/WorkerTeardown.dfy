// The end of a worker's connection: the receive loop, the outbox pump and the heartbeat
// loop share one bounded outbox, and the receive loop returns only after the other two.
// A send to the outbox waits for room, whatever becomes of the connection.
module WorkerTeardown {

  const OUTBOX_SIZE: nat := 64

  /** The heartbeat loop: between ticks, waiting for room, or gone. */
  datatype Beat = Waiting | Sending | Gone

  /** The receive loop; Starting has that many updates of a new task still to send. */
  datatype Loop = Receiving | Starting(left: nat) | AwaitPump | AwaitBeat | Returned

  /** `outbox` is how full the outbox is, which outlives the connection; `cancelled` is the
      stream's context, `down` the worker's own. */
  datatype State = State(outbox: nat, cancelled: bool, down: bool, pumping: bool, beat: Beat, loop: Loop)

  const INIT := State(0, false, false, true, Waiting, Receiving)

  datatype Step =
    | Take          // the pump sends a message to the stream
    | TakeAndFail   // the stream rejects it: the message is lost and the pump gone
    | PumpStops
    | Tick
    | BeatSends
    | BeatStops
    | Assigned      // the master's AssignTask arrives
    | Accepts       // one of startTask's two updates
    | RecvEnds      // the receive fails or is at its end, and cancels the stream
    | PumpSeen
    | BeatSeen
    | RunSends      // some run puts a message into the outbox
    | Shutdown
    | Connect

  predicate Enabled(s: State, a: Step) {
    match a
    case Take => s.pumping && s.outbox > 0
    case TakeAndFail => s.pumping && s.outbox > 0
    case PumpStops => s.pumping && s.cancelled
    case Tick => s.beat.Waiting?
    case BeatSends => s.beat.Sending? && s.outbox < OUTBOX_SIZE
    case BeatStops => s.beat.Waiting? && s.cancelled
    case Assigned => s.loop.Receiving?
    case Accepts => s.loop.Starting? && s.outbox < OUTBOX_SIZE
    case RecvEnds => s.loop.Receiving?
    case PumpSeen => s.loop.AwaitPump? && !s.pumping
    case BeatSeen => s.loop.AwaitBeat? && s.beat.Gone?
    case RunSends => s.outbox < OUTBOX_SIZE
    case Shutdown => true
    case Connect => s.loop.Returned? && !s.down
  }

  function Apply(s: State, a: Step): State
    requires Enabled(s, a)
  {
    match a
    case Take => s.(outbox := s.outbox - 1)
    case TakeAndFail => s.(outbox := s.outbox - 1, pumping := false)
    case PumpStops => s.(pumping := false)
    case Tick => s.(beat := Sending)
    case BeatSends => s.(outbox := s.outbox + 1, beat := Waiting)
    case BeatStops => s.(beat := Gone)
    case Assigned => s.(loop := Starting(2))
    case Accepts =>
      s.(outbox := s.outbox + 1, loop := if s.loop.left > 1 then Starting(s.loop.left - 1) else Receiving)
    case RecvEnds => s.(cancelled := true, loop := AwaitPump)
    case PumpSeen => s.(loop := AwaitBeat)
    case BeatSeen => s.(loop := Returned)
    case RunSends => s.(outbox := s.outbox + 1)
    case Shutdown => s.(cancelled := true, down := true)
    case Connect => s.(cancelled := false, pumping := true, beat := Waiting, loop := Receiving)
  }

  ghost predicate Valid(s: State, steps: seq<Step>)
    decreases |steps|
  {
    steps == [] || (Enabled(s, steps[0]) && Valid(Apply(s, steps[0]), steps[1..]))
  }

  ghost function Run(s: State, steps: seq<Step>): State
    requires Valid(s, steps)
    decreases |steps|
  {
    if steps == [] then s else Run(Apply(s, steps[0]), steps[1..])
  }

  predicate Inv(s: State) {
    && s.outbox <= OUTBOX_SIZE
    && (s.loop.Starting? ==> 1 <= s.loop.left <= 2)
    && (s.loop.AwaitPump? || s.loop.AwaitBeat? ==> s.cancelled)
    && (s.loop.AwaitBeat? || s.loop.Returned? ==> !s.pumping)
    && (s.loop.Returned? ==> s.beat.Gone?)
  }

  lemma {:induction false} RunInv(s: State, steps: seq<Step>)
    requires Inv(s) && Valid(s, steps)
    ensures Inv(Run(s, steps))
    decreases |steps|
  {
    if steps != [] {
      RunInv(Apply(s, steps[0]), steps[1..]);
    }
  }

  // ---- when the worker can connect again ----------------------------------------------

  /** The messages the connection's own loops have yet to put into the outbox. */
  function Owed(s: State): nat {
    (if s.beat.Sending? then 1 else 0) + (if s.loop.Starting? then s.loop.left else 0)
  }

  /** No one empties the outbox any more, and what is owed does not fit. */
  predicate Hung(s: State) {
    !s.pumping && s.outbox + Owed(s) > OUTBOX_SIZE
  }

  ghost predicate CanReturn(s: State) {
    exists steps: seq<Step> :: Valid(s, steps) && Run(s, steps).loop.Returned?
  }

  lemma {:induction false} HungForever(s: State, steps: seq<Step>)
    requires Inv(s) && Hung(s) && Valid(s, steps)
    ensures Hung(Run(s, steps)) && !Run(s, steps).loop.Returned?
    decreases |steps|
  {
    if steps != [] {
      HungForever(Apply(s, steps[0]), steps[1..]);
    }
  }

  lemma ReturnsBy(s: State, a: Step)
    requires Enabled(s, a) && CanReturn(Apply(s, a))
    ensures CanReturn(s)
  {
    var steps :| Valid(Apply(s, a), steps) && Run(Apply(s, a), steps).loop.Returned?;
    assert ([a] + steps)[1..] == steps;
    assert Valid(s, [a] + steps) && Run(s, [a] + steps) == Run(Apply(s, a), steps);
  }

  /** How far each party is from its end. */
  function LoopRank(l: Loop): nat {
    match l
    case Starting(left) => 4 + left
    case Receiving => 4
    case AwaitPump => 2
    case AwaitBeat => 1
    case Returned => 0
  }

  function BeatRank(b: Beat): nat {
    match b
    case Sending => 3
    case Waiting => 1
    case Gone => 0
  }

  /** A step that brings the return nearer. */
  function Next(s: State): (a: Step)
    requires Inv(s) && !Hung(s) && !s.loop.Returned?
    ensures Enabled(s, a) && !Hung(Apply(s, a))
  {
    if Owed(s) > 0 && s.outbox == OUTBOX_SIZE then Take
    else if s.loop.Starting? then Accepts
    else if s.loop.Receiving? then RecvEnds
    else if s.beat.Sending? then BeatSends
    else if s.beat.Waiting? then BeatStops
    else if s.pumping then PumpStops
    else if s.loop.AwaitPump? then PumpSeen
    else BeatSeen
  }

  lemma {:induction false} UnhungReturns(s: State)
    requires Inv(s) && !Hung(s)
    ensures CanReturn(s)
    decreases LoopRank(s.loop), BeatRank(s.beat), s.pumping, s.outbox
  {
    if s.loop.Returned? {
      assert Valid(s, []) && Run(s, []) == s;
    } else {
      var a := Next(s);
      RunInv(s, [a]);
      UnhungReturns(Apply(s, a));
      ReturnsBy(s, a);
    }
  }

  /** At every point of every run, the worker can still end this connection and make
      another exactly when the pump goes on or the outbox has room for what the heartbeat
      and the receive loop have to send; failing that nothing returns, a shutdown included. */
  lemma ReconnectsIff(before: seq<Step>)
    requires Valid(INIT, before)
    ensures var s := Run(INIT, before);
            CanReturn(s) <==>
              s.pumping
              || s.outbox + (if s.beat.Sending? then 1 else 0) + (if s.loop.Starting? then s.loop.left else 0) <= OUTBOX_SIZE
  {
    var s := Run(INIT, before);
    RunInv(INIT, before);
    if Hung(s) {
      forall steps | Valid(s, steps)
        ensures !Run(s, steps).loop.Returned?
      {
        HungForever(s, steps);
      }
    } else {
      UnhungReturns(s);
    }
  }

  // ---- how a teardown ends ----------------------------------------------------------------

  /** A step of the teardown itself. */
  predicate Own(a: Step) {
    a.Take? || a.TakeAndFail? || a.PumpStops? || a.BeatSends? || a.BeatStops? || a.PumpSeen? || a.BeatSeen?
  }

  function Work(s: State): nat {
    s.outbox + BeatRank(s.beat) + (if s.pumping then 1 else 0) + LoopRank(s.loop)
  }

  predicate ReceiveEnded(s: State) {
    s.loop.AwaitPump? || s.loop.AwaitBeat? || s.loop.Returned?
  }

  lemma {:induction false} OwnWork(s: State, steps: seq<Step>)
    requires Inv(s) && ReceiveEnded(s) && Valid(s, steps) && forall a :: a in steps ==> Own(a)
    ensures Inv(Run(s, steps)) && ReceiveEnded(Run(s, steps)) && |steps| + Work(Run(s, steps)) <= Work(s)
    decreases |steps|
  {
    if steps != [] {
      assert Own(steps[0]);
      OwnWork(Apply(s, steps[0]), steps[1..]);
    }
  }

  ghost predicate AtRest(s: State) {
    forall a :: Own(a) ==> !Enabled(s, a)
  }

  lemma RestIff(s: State)
    requires Inv(s) && ReceiveEnded(s)
    ensures AtRest(s) <==>
              s.loop.Returned? || (!s.pumping && s.outbox == OUTBOX_SIZE && s.beat.Sending? && s.loop.AwaitBeat?)
  {
    if AtRest(s) {
      assert Own(PumpStops) && Own(PumpSeen) && Own(BeatSeen) && Own(BeatStops) && Own(BeatSends);
    }
  }

  /** Once the receive has ended, with no run sending and no tick, a teardown takes at most
      |outbox| + 6 steps. It comes to rest either returned or in one state: the pump gone,
      the outbox full and the heartbeat waiting for room in it. */
  lemma TeardownEnds(before: seq<Step>, steps: seq<Step>)
    requires Valid(INIT, before) && ReceiveEnded(Run(INIT, before))
    requires Valid(Run(INIT, before), steps) && forall a :: a in steps ==> Own(a)
    ensures |steps| <= Run(INIT, before).outbox + 6
    ensures var e := Run(Run(INIT, before), steps);
            AtRest(e) <==>
              e.loop.Returned? || (!e.pumping && e.outbox == OUTBOX_SIZE && e.beat.Sending? && e.loop.AwaitBeat?)
  {
    RunInv(INIT, before);
    OwnWork(Run(INIT, before), steps);
    RestIff(Run(Run(INIT, before), steps));
    hide Run, Valid, AtRest;
  }

  // ---- the hang happens ---------------------------------------------------------------------

  lemma {:induction false} Then(s: State, steps: seq<Step>, a: Step)
    requires Valid(s, steps) && Enabled(Run(s, steps), a)
    ensures Valid(s, steps + [a]) && Run(s, steps + [a]) == Apply(Run(s, steps), a)
    decreases |steps|
  {
    if steps == [] {
      assert [a][1..] == [] && Valid(Apply(s, a), []);
    } else {
      assert (steps + [a])[1..] == steps[1..] + [a] && (steps + [a])[0] == steps[0];
      Then(Apply(s, steps[0]), steps[1..], a);
    }
  }

  lemma {:induction false} RunsFill(s: State, steps: seq<Step>, n: nat) returns (more: seq<Step>)
    requires Valid(s, steps) && Run(s, steps).outbox + n <= OUTBOX_SIZE
    ensures Valid(s, more) && Run(s, more) == Run(s, steps).(outbox := Run(s, steps).outbox + n)
    decreases n
  {
    if n == 0 {
      more := steps;
    } else {
      Then(s, steps, RunSends);
      more := RunsFill(s, steps + [RunSends], n - 1);
    }
  }

  /** A run from the start in which the stream fails, the runs fill the outbox and the
      heartbeat ticks: the worker has seen the failure and never connects again. */
  lemma HangHappens() returns (steps: seq<Step>)
    ensures Valid(INIT, steps) && Run(INIT, steps).loop.AwaitBeat? && !CanReturn(Run(INIT, steps))
  {
    steps := RunsFill(INIT, [], 1);
    hide Run, Valid, CanReturn;
    Then(INIT, steps, TakeAndFail);
    steps := RunsFill(INIT, steps + [TakeAndFail], OUTBOX_SIZE);
    Then(INIT, steps, Tick);
    steps := steps + [Tick];
    Then(INIT, steps, RecvEnds);
    steps := steps + [RecvEnds];
    Then(INIT, steps, PumpSeen);
    steps := steps + [PumpSeen];
    ReconnectsIff(steps);
  }
}
