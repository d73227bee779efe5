// What becomes of the events of one run: every item and screenshot of its readable stream
// is sent, once and in order, whatever the worker's other runs do.
module RunEvents {
  import opened Options
  import opened WorkerRun
  import opened WorkerOutbox

  /** Nothing but an event of the stream is of this kind, the final update aside. */
  ghost predicate OnlyEvents<T(!new)>(sent: Msg -> Option<T>) {
    && (forall t, level, m :: sent(LogLine(t, level, m)).None?)
    && (forall t, state, error, errorClass :: state != Captcha ==> sent(Update(t, state, error, errorClass)).None?)
  }

  /** What a run has sent, with what it is about to, is what it has read. */
  ghost predicate Sends<T(!new)>(r: Run, sent: Msg -> Option<T>, event: RawLine -> Option<T>) {
    match r.phase
    case Pumping => r.pos <= |r.script| && Collect(r.emitted + r.todo, sent) == Collect(r.script[..r.pos], event)
    case Finished(_, Exited(_, _, _)) => Collect(r.emitted, sent) == Collect(Readable(r.script), event)
    case Reported(_, how) =>
      && r.emitted != []
      && Collect(r.emitted[..|r.emitted| - 1], sent)
         == (if how.Exited? then Collect(Readable(r.script), event) else [])
    case _ => Collect(r.emitted, sent) == []
  }

  lemma CollectSnoc<A, T>(xs: seq<A>, x: A, pick: A -> Option<T>)
    ensures Collect(xs + [x], pick) == Collect(xs, pick) + Picked(x, pick)
  {
    assert (xs + [x])[..|xs|] == xs;
  }

  /** A message of another kind, sent in front of what is to be sent. */
  lemma OtherSent<T>(ms: seq<Msg>, m: Msg, todo: seq<Msg>, sent: Msg -> Option<T>)
    requires sent(m).None?
    ensures Collect(ms + [m] + todo, sent) == Collect(ms + todo, sent)
  {
    CollectConcat(ms + [m], todo, sent);
    CollectConcat(ms, todo, sent);
    CollectSnoc(ms, m, sent);
  }

  lemma ReadSends<T(!new)>(r: Run, sent: Msg -> Option<T>, event: RawLine -> Option<T>)
    requires RunInv(r) && CanDo(r, Read) && Sends(r, sent, event) && Carries(sent, event)
    ensures Sends(Do(r, Read), sent, event)
  {
    var r' := Do(r, Read);
    if r'.pos == r.pos + 1 {
      var l := r.script[r.pos];
      assert r.emitted + [] == r.emitted;
      assert r.script[..r.pos + 1] == r.script[..r.pos] + [l];
      CollectSnoc(r.script[..r.pos], l, event);
      CollectConcat(r.emitted, Emit(r.task, l), sent);
    }
    hide RunInv, Emit, Observe, Collect;
  }

  lemma PlainSends<T(!new)>(r: Run, m: Msg, sent: Msg -> Option<T>, event: RawLine -> Option<T>)
    requires Sends(r, sent, event) && sent(m).None? && !r.phase.Reported?
    ensures Sends(Sending(r, m), sent, event)
  {
    OtherSent(r.emitted, m, r.todo, sent);
    OtherSent(r.emitted, m, [], sent);
    assert r.emitted + [m] + [] == r.emitted + [m] && r.emitted + [] == r.emitted;
  }

  lemma ExitSends<T(!new)>(r: Run, a: Action, sent: Msg -> Option<T>, event: RawLine -> Option<T>)
    requires RunInv(r) && CanDo(r, a) && a.Exit? && Sends(r, sent, event)
    ensures Sends(Do(r, a), sent, event)
  {
    assert r.emitted + [] == r.emitted;
    assert r.script[..r.pos] == Readable(r.script);
  }

  lemma SendsStep<T(!new)>(r: Run, a: Action, sent: Msg -> Option<T>, event: RawLine -> Option<T>)
    requires RunInv(r) && CanDo(r, a) && Sends(r, sent, event) && Carries(sent, event) && OnlyEvents(sent)
    ensures Sends(Do(r, a), sent, event)
  {
    match a {
      case SendAccepted => PlainSends(r, Update(r.task, Accepted, "", ""), sent, event);
      case SendRunning => PlainSends(r, Update(r.task, Running, "", ""), sent, event);
      case DepsLog(level, message) => PlainSends(r, LogLine(r.task, level, "[deps] " + message), sent, event);
      case Spawn(script) => assert r.emitted + [] == r.emitted && script[..0] == [];
      case Read => ReadSends(r, sent, event);
      case SendNext => assert r.emitted + [r.todo[0]] + r.todo[1..] == r.emitted + r.todo;
      case UserLog(stderr, message) =>
        PlainSends(r, LogLine(r.task, if stderr then "ERROR" else "INFO", message), sent, event);
      case Exit(_, _, _) => ExitSends(r, a, sent, event);
      case Report =>
        var out := Do(r, a).emitted;
        assert out[..|out| - 1] == r.emitted;
      case _ =>
    }
    hide Grammar, VerdictInv, Emit, Observe, Classify, Carries, Collect;
  }

  ghost predicate AllSend<T(!new)>(s: State, sent: Msg -> Option<T>, event: RawLine -> Option<T>) {
    forall n :: n in s.runs ==> Sends(s.runs[n], sent, event)
  }

  lemma StepSends<T(!new)>(s: State, a: Step, sent: Msg -> Option<T>, event: RawLine -> Option<T>)
    requires Inv(s) && Enabled(s, a) && AllSend(s, sent, event) && Carries(sent, event) && OnlyEvents(sent)
    ensures AllSend(Apply(s, a), sent, event)
  {
    if a.Act? {
      assert RunOf(s, a.run);
      SendsStep(s.runs[a.run], a.act, sent, event);
    } else if a.Assign? {
      NewRunSends(a.task, sent, event);
    }
    hide Carries, OnlyEvents, Sends, RunInv, Do, CanDo;
  }

  lemma NewRunSends<T(!new)>(t: nat, sent: Msg -> Option<T>, event: RawLine -> Option<T>)
    ensures Sends(NewRun(t), sent, event)
  {
  }

  lemma {:induction false} AllRunsSend<T(!new)>(s: State, steps: seq<Step>, sent: Msg -> Option<T>,
                                                event: RawLine -> Option<T>)
    requires Inv(s) && Valid(s, steps) && AllSend(s, sent, event) && Carries(sent, event) && OnlyEvents(sent)
    ensures AllSend(Runs(s, steps), sent, event)
    decreases |steps|
  {
    if steps != [] {
      StepInv(s, steps[0]);
      StepSends(s, steps[0], sent, event);
      AllRunsSend(Apply(s, steps[0]), steps[1..], sent, event);
    }
    hide Inv, Enabled, Apply, AllSend, Carries, OnlyEvents;
  }

  // ---- items and captcha notices, in the order of each other --------------------------

  datatype Sighting = AnItem(payload: string) | Notice

  function SentSighting(m: Msg): Option<Sighting> {
    if m.Item? then Some(AnItem(m.payload)) else if m.Update? && m.state == Captcha then Some(Notice) else None
  }

  function SeenSighting(l: RawLine): Option<Sighting> {
    if l.ItemEvent? then Some(AnItem(l.payload)) else if l.CaptchaEvent? then Some(Notice) else None
  }

  lemma SightingsCarried()
    ensures Carries(SentSighting, SeenSighting) && OnlyEvents(SentSighting)
  {
    hide Collect;
    forall task: nat, l
      ensures Collect(Emit(task, l), SentSighting) == Picked(l, SeenSighting)
    {
      LineCarried(task, l, SentSighting);
    }
  }

  /** Before its final update, a run that came to its process's exit has sent what the kind
      shows of its readable stream, and one that never started its process nothing of it. */
  lemma KindIsSent<T(!new)>(steps: seq<Step>, n: nat, sent: Msg -> Option<T>, event: RawLine -> Option<T>)
    requires Valid(INIT, steps) && n in Runs(INIT, steps).runs && Runs(INIT, steps).runs[n].phase.Reported?
    requires Carries(sent, event) && OnlyEvents(sent)
    ensures var r := Runs(INIT, steps).runs[n];
            && r.emitted == Projection(Runs(INIT, steps).sent, n) && r.emitted != []
            && r.emitted[|r.emitted| - 1] == Final(r.task, r.phase.res)
            && Collect(r.emitted[..|r.emitted| - 1], sent)
               == (if r.phase.how.Exited? then Collect(Readable(r.script), event) else [])
  {
    AllRuns(INIT, steps);
    AllRunsSend(INIT, steps, sent, event);
    assert RunOf(Runs(INIT, steps), n);
    hide RunInv, Sends, Collect, Carries, OnlyEvents, Readable, Runs, Valid;
    ReportedKind(Runs(INIT, steps).runs[n], sent, event);
  }

  lemma ReportedKind<T(!new)>(r: Run, sent: Msg -> Option<T>, event: RawLine -> Option<T>)
    requires RunInv(r) && r.phase.Reported? && Sends(r, sent, event)
    ensures r.emitted != [] && r.emitted[|r.emitted| - 1] == Final(r.task, r.phase.res)
    ensures Collect(r.emitted[..|r.emitted| - 1], sent)
            == (if r.phase.how.Exited? then Collect(Readable(r.script), event) else [])
  {
    hide Collect, VerdictInv, PumpInv, Readable;
  }

  /** Over any runs of one worker: a run that came to its process's exit has sent exactly the
      items and the screenshots of its readable stream, each once and in order, and a run that
      never started its process none. */
  lemma EventsAreSent(steps: seq<Step>, n: nat)
    requires Valid(INIT, steps) && n in Runs(INIT, steps).runs && Runs(INIT, steps).runs[n].phase.Reported?
    ensures var r := Runs(INIT, steps).runs[n];
            var mine := Projection(Runs(INIT, steps).sent, n);
            var lines := if r.phase.how.Exited? then Readable(r.script) else [];
            Collect(mine, SentItem) == Collect(lines, ScrapedItem) && Collect(mine, SentShot) == Collect(lines, TakenShot)
  {
    EventsCarried();
    assert OnlyEvents(SentItem) && OnlyEvents(SentShot);
    KindIsSent(steps, n, SentItem, ScrapedItem);
    KindIsSent(steps, n, SentShot, TakenShot);
    var mine := Runs(INIT, steps).runs[n].emitted;
    assert Picked(mine[|mine| - 1], SentItem) == [] && Picked(mine[|mine| - 1], SentShot) == [];
    hide Carries, OnlyEvents, Runs, Valid, Readable;
  }
}
