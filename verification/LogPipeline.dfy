// The master's log pipeline: LogSinkPubsub buffers lines per task, one flusher
// appends them to an object by read-modify-write and then bumps an index row.
// The critical sections are functions on maps; the state machine runs them in
// any interleaving and the class below runs them in place.
module LogPipeline {
  import opened Options
  import opened Jsonl

  /** An encoded line; its level is a field of the JSON object. */
  datatype Line = Line(level: string, json: Bytes)

  datatype Buffer = Buffer(lines: seq<Line>, counts: map<string, nat>)

  datatype IndexRow = IndexRow(bytes: nat, lines: nat)

  const EMPTY := Buffer([], map[])

  function Jsons(ls: seq<Line>): (r: seq<Bytes>)
    ensures |r| == |ls|
  {
    seq(|ls|, i requires 0 <= i < |ls| => ls[i].json)
  }

  /** The bytes the lines occupy in the object. */
  function Stored(ls: seq<Line>): Bytes {
    Encode(Jsons(ls))
  }

  lemma StoredConcat(a: seq<Line>, b: seq<Line>)
    ensures Jsons(a + b) == Jsons(a) + Jsons(b)
    ensures Stored(a + b) == Stored(a) + Stored(b)
  {
    assert Jsons(a + b) == Jsons(a) + Jsons(b);
    EncodeConcat(Jsons(a), Jsons(b));
  }

  // ---- level counts -------------------------------------------------------

  function CountLevel(ls: seq<Line>, level: string): nat {
    if ls == [] then 0
    else CountLevel(ls[..|ls| - 1], level) + (if ls[|ls| - 1].level == level then 1 else 0)
  }

  lemma {:induction false} CountLevelConcat(a: seq<Line>, b: seq<Line>, level: string)
    ensures CountLevel(a + b, level) == CountLevel(a, level) + CountLevel(b, level)
  {
    if b == [] {
      assert a + b == a;
    } else {
      CountLevelConcat(a, b[..|b| - 1], level);
      assert (a + b)[..|a + b| - 1] == a + b[..|b| - 1];
    }
  }

  /** Every non-empty level that occurs has an entry, and the entry is its count. */
  ghost predicate CountsMatch(ls: seq<Line>, counts: map<string, nat>) {
    forall level: string :: (level in counts <==> level != "" && CountLevel(ls, level) > 0)
                            && (level in counts ==> counts[level] == CountLevel(ls, level))
  }

  function Bump(counts: map<string, nat>, level: string): map<string, nat> {
    counts[level := (if level in counts then counts[level] else 0) + 1]
  }

  function Merge(counts: map<string, nat>, more: map<string, nat>): map<string, nat> {
    map k | k in counts.Keys + more.Keys ::
      (if k in counts then counts[k] else 0) + (if k in more then more[k] else 0)
  }

  lemma CountsAfterWrite(ls: seq<Line>, counts: map<string, nat>, line: Line)
    requires CountsMatch(ls, counts)
    ensures CountsMatch(ls + [line], if line.level == "" then counts else Bump(counts, line.level))
  {
    assert (ls + [line])[..|ls|] == ls;
  }

  lemma CountsAfterPutBack(ls: seq<Line>, counts: map<string, nat>, taken: seq<Line>, takenCounts: map<string, nat>)
    requires CountsMatch(ls, counts) && CountsMatch(taken, takenCounts)
    ensures CountsMatch(taken + ls, Merge(counts, takenCounts))
  {
    var merged := Merge(counts, takenCounts);
    forall level: string
      ensures (level in merged <==> level != "" && CountLevel(taken + ls, level) > 0)
              && (level in merged ==> merged[level] == CountLevel(taken + ls, level))
    {
      CountLevelConcat(taken, ls, level);
      assert level in merged <==> level in counts || level in takenCounts;
    }
  }

  // ---- critical sections, on one task's buffer, object and index row -------

  function Buffered(buf: Buffer, line: Line): Buffer {
    Buffer(buf.lines + [line], if line.level == "" then buf.counts else Bump(buf.counts, line.level))
  }

  /** Lines of a failed append go back in front of those written since. */
  function PutBack(buf: Buffer, taken: Buffer): Buffer {
    Buffer(taken.lines + buf.lines, Merge(buf.counts, taken.counts))
  }

  /** The bytes uploaded: a failed download reads as an absent object. */
  function Appended(existing: Bytes, downloaded: bool, lines: seq<Line>): Bytes {
    (if downloaded then existing else []) + Stored(lines)
  }

  function Upserted(row: IndexRow, lines: seq<Line>): IndexRow {
    IndexRow(row.bytes + |Stored(lines)|, row.lines + |lines|)
  }

  // ---- one task's log -----------------------------------------------------

  /** What the flusher holds of this task between its critical sections. */
  datatype Held = Nothing | Taken(buf: Buffer) | Appending(lines: seq<Line>)

  /** `pending` are the Writes between their publish and their critical section: several
      when more than one read loop carries the task. The rest is history: `written` are the
      lines in the order they reached the buffer, `kept` those the object holds, `lost` those
      an append overwrote, `unindexed` those whose upsert failed; and each pending and each
      written line has its number in the order of publishing, in `tickets` and `served`. */
  datatype TaskLog = TaskLog(
    published: seq<Line>,
    pending: seq<Line>,
    tickets: seq<nat>,
    written: seq<Line>,
    served: seq<nat>,
    buf: Buffer,
    held: Held,
    bytes: Bytes,
    row: IndexRow,
    kept: seq<Line>,
    lost: seq<Line>,
    unindexed: seq<Line>)

  const FRESH := TaskLog([], [], [], [], [], EMPTY, Nothing, [], IndexRow(0, 0), [], [], [])

  datatype Action =
    | Publish(line: Line)      // Write, up to the pubsub publish
    | Enbuffer(k: nat)         // the critical section of one of the pending Writes
    | Take                     // flushTask, first critical section
    | Store(downloaded: bool)  // the append succeeds
    | GiveBack                 // the append fails, second critical section
    | Index(upserted: bool)

  predicate CanDo(l: TaskLog, a: Action) {
    match a
    case Publish(line) => IsLine(line.json)
    case Enbuffer(k) => k < |l.pending|
    case Take => l.held.Nothing? && l.buf.lines != []
    case Store(_) => l.held.Taken?
    case GiveBack => l.held.Taken?
    case Index(_) => l.held.Appending?
  }

  function Do(l: TaskLog, a: Action): TaskLog
    requires CanDo(l, a)
  {
    match a
    case Publish(line) =>
      l.(published := l.published + [line], pending := l.pending + [line], tickets := l.tickets + [|l.published|])
    case Enbuffer(k) =>
      l.(buf := Buffered(l.buf, l.pending[k]), written := l.written + [l.pending[k]],
         served := l.served + (if k < |l.tickets| then [l.tickets[k]] else []),
         pending := l.pending[..k] + l.pending[k + 1..],
         tickets := if k < |l.tickets| then l.tickets[..k] + l.tickets[k + 1..] else l.tickets)
    case Take =>
      l.(buf := EMPTY, held := Taken(l.buf))
    case Store(downloaded) =>
      var lines := l.held.buf.lines;
      l.(bytes := Appended(l.bytes, downloaded, lines),
         kept := (if downloaded then l.kept else []) + lines,
         lost := l.lost + (if downloaded then [] else l.kept),
         held := Appending(lines))
    case GiveBack =>
      l.(buf := PutBack(l.buf, l.held.buf), held := Nothing)
    case Index(upserted) =>
      var lines := l.held.lines;
      if upserted then l.(row := Upserted(l.row, lines), held := Nothing)
      else l.(unindexed := l.unindexed + lines, held := Nothing)
  }

  function InFlight(l: TaskLog): seq<Line> {
    if l.held.Taken? then l.held.buf.lines else []
  }

  function AwaitingIndex(l: TaskLog): seq<Line> {
    if l.held.Appending? then l.held.lines else []
  }

  /** Where the written lines not overwritten are, oldest first. */
  function Present(l: TaskLog): seq<Line> {
    l.kept + InFlight(l) + l.buf.lines
  }

  predicate AllLines(ls: seq<Line>) {
    forall x :: x in ls ==> IsLine(x.json)
  }

  ghost predicate LinesInv(l: TaskLog) {
    && l.written == l.lost + Present(l)
    && multiset(l.published) == multiset(l.written) + multiset(l.pending)
    && AllLines(l.published)
    && l.bytes == Stored(l.kept)
  }

  ghost predicate CountsInv(l: TaskLog) {
    && CountsMatch(l.buf.lines, l.buf.counts)
    && (l.held.Taken? ==> CountsMatch(l.held.buf.lines, l.held.buf.counts))
  }

  predicate HeldInv(l: TaskLog) {
    && (l.held.Taken? ==> l.held.buf.lines != [])
    && (l.held.Appending? ==> l.held.lines != [])
  }

  ghost predicate IndexInv(l: TaskLog) {
    && l.row.bytes + |Stored(l.unindexed)| + |Stored(AwaitingIndex(l))| == |Stored(l.lost)| + |Stored(l.kept)|
    && l.row.lines + |l.unindexed| + |AwaitingIndex(l)| == |l.lost| + |l.kept|
  }

  ghost predicate LogInv(l: TaskLog) {
    LinesInv(l) && CountsInv(l) && HeldInv(l) && IndexInv(l)
  }

  /** One line leaves the pending Writes and joins the written ones. */
  lemma PickedFrom(ls: seq<Line>, k: nat)
    requires k < |ls|
    ensures multiset(ls) == multiset(ls[..k] + ls[k + 1..]) + multiset{ls[k]}
  {
    assert ls == ls[..k] + [ls[k]] + ls[k + 1..];
  }

  lemma LinesEnbuffered(l: TaskLog, k: nat)
    requires LinesInv(l) && CanDo(l, Enbuffer(k))
    ensures LinesInv(Do(l, Enbuffer(k)))
  {
    PickedFrom(l.pending, k);
    hide Stored, AllLines;
    var x := [l.pending[k]];
    assert l.lost + (l.kept + InFlight(l) + l.buf.lines) + x == l.lost + (l.kept + InFlight(l) + (l.buf.lines + x));
  }

  lemma FlightLands<T>(kept: seq<T>, lines: seq<T>, buf: seq<T>)
    ensures (kept + lines) + [] + buf == kept + lines + buf
    ensures kept + ([] + lines + [] + buf) == kept + lines + buf
  {
  }

  lemma LinesStored(l: TaskLog, downloaded: bool)
    requires LinesInv(l) && CanDo(l, Store(downloaded))
    ensures LinesInv(Do(l, Store(downloaded)))
  {
    var lines := l.held.buf.lines;
    StoredConcat(l.kept, lines);
    FlightLands(l.kept, lines, l.buf.lines);
    if !downloaded {
      assert [] + lines == lines && [] + Stored(lines) == Stored(lines);
      assert l.lost + Present(l) == (l.lost + l.kept) + ([] + lines + [] + l.buf.lines);
    } else {
      assert l.lost + [] == l.lost;
    }
  }

  lemma LinesKept(l: TaskLog, a: Action)
    requires LinesInv(l) && CanDo(l, a)
    ensures LinesInv(Do(l, a))
  {
    match a {
      case Enbuffer(k) => LinesEnbuffered(l, k);
      case Store(downloaded) => LinesStored(l, downloaded);
      case _ => assert Present(Do(l, a)) == Present(l);
    }
  }

  lemma CountsKept(l: TaskLog, a: Action)
    requires CountsInv(l) && CanDo(l, a)
    ensures CountsInv(Do(l, a))
  {
    match a {
      case Enbuffer(k) =>
        CountsAfterWrite(l.buf.lines, l.buf.counts, l.pending[k]);
      case GiveBack =>
        CountsAfterPutBack(l.buf.lines, l.buf.counts, l.held.buf.lines, l.held.buf.counts);
      case _ =>
    }
  }

  lemma IndexKept(l: TaskLog, a: Action)
    requires IndexInv(l) && CanDo(l, a)
    ensures IndexInv(Do(l, a))
  {
    match a {
      case Store(downloaded) =>
        StoredConcat(l.kept, l.held.buf.lines);
        StoredConcat(l.lost, l.kept);
        assert l.lost + [] == l.lost && [] + l.held.buf.lines == l.held.buf.lines;
      case Index(upserted) =>
        StoredConcat(l.unindexed, l.held.lines);
      case _ =>
    }
  }

  // ---- all tasks and the single flusher ------------------------------------

  datatype State = State(logs: map<int, TaskLog>, flusher: Option<int>)

  datatype Step = Step(task: int, act: Action)

  const INIT := State(map[], None)

  function Log(s: State, t: int): TaskLog {
    if t in s.logs then s.logs[t] else FRESH
  }

  predicate Enabled(s: State, a: Step) {
    CanDo(Log(s, a.task), a.act) && (a.act.Take? ==> s.flusher.None?)
  }

  function Apply(s: State, a: Step): State
    requires Enabled(s, a)
  {
    State(s.logs[a.task := Do(Log(s, a.task), a.act)],
          match a.act
          case Take => Some(a.task)
          case GiveBack => None
          case Index(_) => None
          case _ => s.flusher)
  }

  ghost predicate Valid(s: State, steps: seq<Step>)
    decreases |steps|
  {
    steps == [] || (Enabled(s, steps[0]) && Valid(Apply(s, steps[0]), steps[1..]))
  }

  ghost function Run(s: State, steps: seq<Step>): State
    requires Valid(s, steps)
    decreases |steps|
  {
    if steps == [] then s else Run(Apply(s, steps[0]), steps[1..])
  }

  /** The task's log is in order, and the flusher holds it if anyone does. */
  ghost predicate TaskInv(s: State, t: int) {
    LogInv(Log(s, t)) && (!Log(s, t).held.Nothing? <==> s.flusher == Some(t))
  }

  ghost predicate Inv(s: State) {
    forall t: int :: TaskInv(s, t)
  }

  lemma LogKept(l: TaskLog, a: Action)
    requires LogInv(l) && CanDo(l, a)
    ensures LogInv(Do(l, a))
  {
    hide LinesInv, CountsInv, IndexInv;
    LinesKept(l, a);
    CountsKept(l, a);
    IndexKept(l, a);
    HeldKept(l, a);
  }

  lemma HeldKept(l: TaskLog, a: Action)
    requires HeldInv(l) && CanDo(l, a)
    ensures HeldInv(Do(l, a))
  {
  }

  lemma HeldAfter(l: TaskLog, a: Action)
    requires CanDo(l, a)
    ensures Do(l, a).held.Nothing? <==> (a.GiveBack? || a.Index? || (!a.Take? && l.held.Nothing?))
    ensures a.GiveBack? || a.Index? ==> !l.held.Nothing?
  {
  }

  lemma TaskStep(s: State, a: Step, t: int)
    requires Enabled(s, a) && TaskInv(s, t) && TaskInv(s, a.task)
    ensures TaskInv(Apply(s, a), t)
  {
    if a.task == t {
      LogKept(Log(s, t), a.act);
      HeldAfter(Log(s, t), a.act);
    }
    hide LogInv, Do, CanDo;
  }

  lemma StepInv(s: State, a: Step)
    requires Inv(s) && Enabled(s, a)
    ensures Inv(Apply(s, a))
  {
    forall t: int
      ensures TaskInv(Apply(s, a), t)
    {
      assert TaskInv(s, t) && TaskInv(s, a.task);
      TaskStep(s, a, t);
    }
    hide TaskInv, Enabled, Apply;
  }

  lemma {:induction false} RunInv(s: State, steps: seq<Step>)
    requires Inv(s) && Valid(s, steps)
    ensures Inv(Run(s, steps))
    decreases |steps|
  {
    if steps != [] {
      StepInv(s, steps[0]);
      RunInv(Apply(s, steps[0]), steps[1..]);
    }
  }

  lemma FreshIsFine()
    ensures LogInv(FRESH) && Inv(INIT)
  {
  }

  lemma Reachable(steps: seq<Step>, t: int)
    requires Valid(INIT, steps)
    ensures LogInv(Log(Run(INIT, steps), t))
  {
    FreshIsFine();
    RunInv(INIT, steps);
    assert TaskInv(Run(INIT, steps), t);
  }

  // ---- conservation -------------------------------------------------------

  lemma StoredEmpty(ls: seq<Line>)
    ensures Stored(ls) == [] <==> ls == []
  {
  }

  /** The append reads a non-empty object as absent and overwrites it. */
  predicate Truncates(s: State, a: Step, t: int) {
    a.task == t && a.act == Store(false) && Log(s, t).bytes != []
  }

  ghost predicate EverTruncates(s: State, steps: seq<Step>, t: int)
    requires Valid(s, steps)
    decreases |steps|
  {
    steps != [] && (Truncates(s, steps[0], t) || EverTruncates(Apply(s, steps[0]), steps[1..], t))
  }

  lemma StepLost(s: State, a: Step, t: int)
    requires Inv(s) && Enabled(s, a)
    ensures |Log(Apply(s, a), t).lost| >= |Log(s, t).lost|
    ensures |Log(Apply(s, a), t).lost| == |Log(s, t).lost| <==> !Truncates(s, a, t)
  {
    assert TaskInv(s, t);
    if a.task == t {
      DoLost(Log(s, t), a.act);
    }
    hide LogInv, Do;
  }

  lemma DoLost(l: TaskLog, a: Action)
    requires LinesInv(l) && CanDo(l, a)
    ensures |Do(l, a).lost| >= |l.lost|
    ensures |Do(l, a).lost| == |l.lost| <==> !(a == Store(false) && l.bytes != [])
  {
    hide Stored;
    StoredEmpty(l.kept);
  }

  lemma {:induction false} LostIffTruncated(s: State, steps: seq<Step>, t: int)
    requires Inv(s) && Valid(s, steps)
    ensures |Log(Run(s, steps), t).lost| >= |Log(s, t).lost|
    ensures |Log(Run(s, steps), t).lost| == |Log(s, t).lost| <==> !EverTruncates(s, steps, t)
    decreases |steps|
  {
    if steps != [] {
      StepLost(s, steps[0], t);
      StepInv(s, steps[0]);
      LostIffTruncated(Apply(s, steps[0]), steps[1..], t);
    }
  }

  lemma KeptAreLines(l: TaskLog)
    requires LinesInv(l)
    ensures AllLines(l.written) && AreLines(Jsons(l.kept))
  {
    forall x | x in l.written
      ensures IsLine(x.json)
    {
      assert x in multiset(l.published);
    }
    var ks := Jsons(l.kept);
    forall x | x in ks
      ensures IsLine(x)
    {
      var i :| 0 <= i < |ks| && ks[i] == x;
      assert l.written[|l.lost| + i] == l.kept[i];
    }
  }

  /** In every run, with any number of Writes of the task under way, each published line
      is once in the object, with the flusher, in the buffer or in its Write, those past
      their Write in the order written, exactly when no append of that task overwrote a
      non-empty object after a failed download. */
  lemma LogConservation(steps: seq<Step>, t: int)
    requires Valid(INIT, steps)
    ensures var l := Log(Run(INIT, steps), t);
            && multiset(l.published) == multiset(l.written) + multiset(l.pending)
            && l.written == l.lost + Present(l)
            && (l.written == Present(l) <==> !EverTruncates(INIT, steps, t))
            && FrameLines(TrimLastNewline(l.bytes)) == Jsons(l.kept)
            && CountsMatch(l.buf.lines, l.buf.counts)
  {
    Reachable(steps, t);
    FreshIsFine();
    LostIffTruncated(INIT, steps, t);
    Decoded(Log(Run(INIT, steps), t));
    hide EverTruncates, Run, Valid, CountsMatch, IndexInv, HeldInv, Present, AllLines, FrameLines;
  }

  lemma Decoded(l: TaskLog)
    requires LinesInv(l)
    ensures FrameLines(TrimLastNewline(l.bytes)) == Jsons(l.kept)
    ensures l.written == Present(l) <==> |l.lost| == 0
  {
    KeptAreLines(l);
    DecodeEncode(Jsons(l.kept));
    hide FrameLines, Stored;
    assert |l.written| == |l.lost| + |Present(l)|;
    if |l.lost| == 0 {
      assert [] + Present(l) == Present(l);
    }
  }

  // ---- the order of concurrent Writes ---------------------------------------

  /** Each line's number is its place among the published ones. */
  ghost predicate TicketsInv(l: TaskLog) {
    && |l.tickets| == |l.pending| && |l.served| == |l.written|
    && |l.served| + |l.tickets| == |l.published|
    && (forall i :: 0 <= i < |l.pending| ==> l.tickets[i] < |l.published| && l.pending[i] == l.published[l.tickets[i]])
    && (forall i :: 0 <= i < |l.written| ==> l.served[i] < |l.published| && l.written[i] == l.published[l.served[i]])
  }

  /** The lines were written in the order published, so those pending are the rest in order. */
  predicate ServedInOrder(l: TaskLog) {
    forall i :: 0 <= i < |l.served| ==> l.served[i] == i
  }

  ghost predicate RestInOrder(l: TaskLog) {
    ServedInOrder(l) && forall i :: 0 <= i < |l.tickets| ==> l.tickets[i] == |l.served| + i
  }

  /** A Write enters before an older one. */
  predicate Overtakes(a: Step, t: int) {
    a.task == t && a.act.Enbuffer? && a.act.k > 0
  }

  predicate EverOvertakes(steps: seq<Step>, t: int) {
    exists i :: 0 <= i < |steps| && Overtakes(steps[i], t)
  }

  lemma TicketsKept(l: TaskLog, a: Action)
    requires TicketsInv(l) && CanDo(l, a)
    ensures TicketsInv(Do(l, a))
    ensures l.served <= Do(l, a).served && (!a.Enbuffer? ==> Do(l, a).served == l.served)
  {
    hide Buffered, PutBack, Appended, Upserted;
    if a.Enbuffer? {
      var l' := Do(l, a);
      assert forall i :: 0 <= i < |l'.pending| ==>
               var j := if i < a.k then i else i + 1;
               l'.pending[i] == l.pending[j] && l'.tickets[i] == l.tickets[j];
    }
  }

  /** While the rest is in order, the next line written is so exactly if its Write is the
      oldest pending one. */
  lemma OrderStep(l: TaskLog, a: Action)
    requires TicketsInv(l) && CanDo(l, a) && RestInOrder(l)
    ensures ServedInOrder(Do(l, a)) <==> !(a.Enbuffer? && a.k > 0)
    ensures ServedInOrder(Do(l, a)) ==> RestInOrder(Do(l, a))
  {
    hide Buffered, PutBack, Appended, Upserted;
    if a.Enbuffer? {
      assert Do(l, a).served[|l.served|] == |l.served| + a.k;
    }
  }

  lemma {:induction false} StaysOff(s: State, steps: seq<Step>, t: int)
    requires Valid(s, steps) && TicketsInv(Log(s, t))
    ensures TicketsInv(Log(Run(s, steps), t)) && Log(s, t).served <= Log(Run(s, steps), t).served
    decreases |steps|
  {
    if steps != [] {
      if steps[0].task == t {
        TicketsKept(Log(s, t), steps[0].act);
      }
      StaysOff(Apply(s, steps[0]), steps[1..], t);
    }
    hide TicketsInv, Do, CanDo;
  }

  lemma {:induction false} OrderRun(s: State, steps: seq<Step>, t: int)
    requires Valid(s, steps) && TicketsInv(Log(s, t)) && RestInOrder(Log(s, t))
    ensures ServedInOrder(Log(Run(s, steps), t)) <==> !EverOvertakes(steps, t)
    ensures ServedInOrder(Log(Run(s, steps), t)) ==> RestInOrder(Log(Run(s, steps), t))
    decreases |steps|
  {
    if steps != [] {
      var s1 := Apply(s, steps[0]);
      assert EverOvertakes(steps, t) <==> Overtakes(steps[0], t) || EverOvertakes(steps[1..], t) by {
        OvertakesFirst(steps, t);
      }
      if steps[0].task == t {
        TicketsKept(Log(s, t), steps[0].act);
        OrderStep(Log(s, t), steps[0].act);
      }
      if Overtakes(steps[0], t) {
        StaysOff(s1, steps[1..], t);
        OffStays(Log(s1, t), Log(Run(s1, steps[1..]), t));
      } else {
        OrderRun(s1, steps[1..], t);
      }
    }
    hide TicketsInv, Do, CanDo, ServedInOrder, RestInOrder, EverOvertakes;
  }

  lemma OvertakesFirst(steps: seq<Step>, t: int)
    requires steps != []
    ensures EverOvertakes(steps, t) <==> Overtakes(steps[0], t) || EverOvertakes(steps[1..], t)
  {
    assert forall i :: 0 < i < |steps| ==> steps[i] == steps[1..][i - 1];
    if EverOvertakes(steps[1..], t) {
      var i :| 0 <= i < |steps[1..]| && Overtakes(steps[1..][i], t);
      assert Overtakes(steps[i + 1], t);
    }
  }

  lemma OffStays(l: TaskLog, l': TaskLog)
    requires l.served <= l'.served && !ServedInOrder(l)
    ensures !ServedInOrder(l')
  {
    var i :| 0 <= i < |l.served| && l.served[i] != i;
    assert l'.served[i] == l.served[i];
  }

  /** In every run the Writes of a task enter the buffer in the order they published exactly
      when always the oldest pending one entered; the written and then the pending lines are
      then the published ones. */
  lemma WrittenInOrderIff(steps: seq<Step>, t: int)
    requires Valid(INIT, steps)
    ensures var l := Log(Run(INIT, steps), t);
            && |l.served| == |l.written|
            && (forall i :: 0 <= i < |l.written| ==> l.served[i] < |l.published| && l.written[i] == l.published[l.served[i]])
            && ((forall i :: 0 <= i < |l.served| ==> l.served[i] == i) <==> !EverOvertakes(steps, t))
            && (!EverOvertakes(steps, t) ==> l.written + l.pending == l.published)
  {
    StaysOff(INIT, steps, t);
    OrderRun(INIT, steps, t);
    var l := Log(Run(INIT, steps), t);
    if !EverOvertakes(steps, t) {
      assert ServedInOrder(l) && RestInOrder(l);
    }
  }

  /** Where no two lines are the same, that is the order of the lines themselves. */
  lemma LinesInOrderIff(steps: seq<Step>, t: int)
    requires Valid(INIT, steps)
    requires var p := Log(Run(INIT, steps), t).published; forall i, j :: 0 <= i < j < |p| ==> p[i] != p[j]
    ensures var l := Log(Run(INIT, steps), t);
            l.written <= l.published <==> !EverOvertakes(steps, t)
  {
    WrittenInOrderIff(steps, t);
    var l := Log(Run(INIT, steps), t);
    if !EverOvertakes(steps, t) {
      assert l.written <= l.written + l.pending;
    }
    if l.written <= l.published {
      forall i | 0 <= i < |l.served| ensures l.served[i] == i {
        assert l.written[i] == l.published[i];
      }
    }
  }

  /** Such overtaking happens: two lines published, the second written first. */
  lemma OvertakingHappens(t: int, a: Line, b: Line) returns (steps: seq<Step>)
    requires IsLine(a.json) && IsLine(b.json) && a != b
    ensures Valid(INIT, steps)
    ensures var l := Log(Run(INIT, steps), t); l.published == [a, b] && l.written == [b]
  {
    steps := [];
    Then(INIT, steps, Step(t, Publish(a)));
    steps := steps + [Step(t, Publish(a))];
    hide Run, Valid;
    Then(INIT, steps, Step(t, Publish(b)));
    steps := steps + [Step(t, Publish(b))];
    Then(INIT, steps, Step(t, Enbuffer(1)));
    steps := steps + [Step(t, Enbuffer(1))];
  }

  /** At most one Write of the task at a time. */
  ghost predicate OneWriter(s: State, steps: seq<Step>, t: int)
    requires Valid(s, steps)
    decreases |steps|
  {
    steps == [] || ((steps[0].task == t && steps[0].act.Publish? ==> Log(s, t).pending == [])
                    && OneWriter(Apply(s, steps[0]), steps[1..], t))
  }

  /** Then no Write has another to overtake. */
  lemma {:induction false} OneWriterIsInOrder(s: State, steps: seq<Step>, t: int)
    requires Valid(s, steps) && OneWriter(s, steps, t) && |Log(s, t).pending| <= 1
    ensures !EverOvertakes(steps, t)
    decreases |steps|
  {
    if steps != [] {
      OvertakesFirst(steps, t);
      OneWriterIsInOrder(Apply(s, steps[0]), steps[1..], t);
    }
    hide EverOvertakes;
  }

  /** With one read loop carrying the task nothing is ever out of order: every published
      line is, in that order, in the object, in flight, in the buffer or in its Write,
      exactly when nothing was overwritten. */
  lemma OneWriterConservation(steps: seq<Step>, t: int)
    requires Valid(INIT, steps) && OneWriter(INIT, steps, t)
    ensures var l := Log(Run(INIT, steps), t);
            && l.written <= l.published
            && (Present(l) + l.pending == l.published <==> !EverTruncates(INIT, steps, t))
  {
    OneWriterIsInOrder(INIT, steps, t);
    WrittenInOrderIff(steps, t);
    LogConservation(steps, t);
    var l := Log(Run(INIT, steps), t);
    hide EverTruncates, Run, Valid, Present, FrameLines, CountsMatch;
    assert |l.published| == |l.written| + |l.pending| == |l.lost| + |Present(l)| + |l.pending|;
  }

  lemma {:induction false} Then(s: State, steps: seq<Step>, a: Step)
    requires Valid(s, steps) && Enabled(Run(s, steps), a)
    ensures Valid(s, steps + [a]) && Run(s, steps + [a]) == Apply(Run(s, steps), a)
    decreases |steps|
  {
    if steps == [] {
      assert [a][1..] == [] && Valid(Apply(s, a), []);
    } else {
      assert (steps + [a])[1..] == steps[1..] + [a] && (steps + [a])[0] == steps[0];
      Then(Apply(s, steps[0]), steps[1..], a);
    }
  }

  /** A task at rest: nothing pending, buffered or held. */
  predicate AtRest(s: State, t: int) {
    s.flusher.None? && Log(s, t).pending == [] && Log(s, t).buf.lines == [] && Log(s, t).held.Nothing?
  }

  /** One line written and taken by the flusher. */
  lemma WriteAndTake(s: State, t: int, line: Line) returns (steps: seq<Step>)
    requires AtRest(s, t) && IsLine(line.json)
    ensures Valid(s, steps)
    ensures var e, l := Run(s, steps), Log(s, t);
            && e.flusher == Some(t)
            && Log(e, t).held.Taken? && Log(e, t).held.buf.lines == [line]
            && Log(e, t).pending == [] && Log(e, t).buf.lines == []
            && Log(e, t).bytes == l.bytes && Log(e, t).row == l.row && Log(e, t).kept == l.kept && Log(e, t).lost == l.lost
  {
    steps := [];
    Then(s, steps, Step(t, Publish(line)));
    steps := steps + [Step(t, Publish(line))];
    var s1 := Run(s, steps);
    hide Run, Valid;
    Then(s, steps, Step(t, Enbuffer(0)));
    steps := steps + [Step(t, Enbuffer(0))];
    var s2 := Run(s, steps);
    assert Log(s2, t).buf.lines == [line];
    Then(s, steps, Step(t, Take));
    steps := steps + [Step(t, Take)];
  }

  /** A first flush, whose upsert may fail. */
  lemma FirstFlush(t: int, line: Line, upserted: bool) returns (steps: seq<Step>)
    requires IsLine(line.json)
    ensures Valid(INIT, steps)
    ensures var e := Run(INIT, steps);
            && AtRest(e, t) && Log(e, t).kept == [line] && Log(e, t).bytes == Stored([line]) != []
            && (Log(e, t).row.lines == 0 <==> !upserted)
  {
    steps := WriteAndTake(INIT, t, line);
    StoredEmpty([line]);
    hide Run, Valid, Stored;
    var s1 := Run(INIT, steps);
    Then(INIT, steps, Step(t, Store(true)));
    steps := steps + [Step(t, Store(true))];
    var s2 := Run(INIT, steps);
    assert [] + Stored([line]) == Stored([line]) && [] + [line] == [line];
    Then(INIT, steps, Step(t, Index(upserted)));
    steps := steps + [Step(t, Index(upserted))];
  }

  lemma {:induction false} RunConcat(s: State, a: seq<Step>, b: seq<Step>)
    requires Valid(s, a) && Valid(Run(s, a), b)
    ensures Valid(s, a + b) && Run(s, a + b) == Run(Run(s, a), b)
    decreases |a|
  {
    if a == [] {
      assert a + b == b;
    } else {
      assert (a + b)[1..] == a[1..] + b && (a + b)[0] == a[0];
      RunConcat(Apply(s, a[0]), a[1..], b);
    }
  }

  /** The excluded case happens: two flushes, the second one's download failing. */
  lemma TruncationHappens(t: int, a: Line, b: Line) returns (steps: seq<Step>)
    requires IsLine(a.json) && IsLine(b.json)
    ensures Valid(INIT, steps)
    ensures Present(Log(Run(INIT, steps), t)) != Log(Run(INIT, steps), t).written
  {
    var first := FirstFlush(t, a, true);
    var second := WriteAndTake(Run(INIT, first), t, b);
    RunConcat(INIT, first, second);
    steps := first + second;
    hide Run, Valid, Stored, EverTruncates, CountsMatch, FrameLines;
    Then(INIT, steps, Step(t, Store(false)));
    var s := Run(INIT, steps);
    steps := steps + [Step(t, Store(false))];
    assert Log(Run(INIT, steps), t).lost == Log(s, t).lost + [a];
    LogConservation(steps, t);
  }

  // ---- the index ----------------------------------------------------------

  ghost predicate UpsertEverFails(s: State, steps: seq<Step>, t: int)
    requires Valid(s, steps)
    decreases |steps|
  {
    steps != [] && (steps[0] == Step(t, Index(false)) || UpsertEverFails(Apply(s, steps[0]), steps[1..], t))
  }

  lemma StepUnindexed(s: State, a: Step, t: int)
    requires HeldInv(Log(s, t)) && Enabled(s, a)
    ensures |Log(Apply(s, a), t).unindexed| >= |Log(s, t).unindexed|
    ensures |Log(Apply(s, a), t).unindexed| == |Log(s, t).unindexed| <==> a != Step(t, Index(false))
  {
  }

  lemma {:induction false} UnindexedIffUpsertFailed(s: State, steps: seq<Step>, t: int)
    requires Inv(s) && Valid(s, steps)
    ensures |Log(Run(s, steps), t).unindexed| >= |Log(s, t).unindexed|
    ensures |Log(Run(s, steps), t).unindexed| == |Log(s, t).unindexed| <==> !UpsertEverFails(s, steps, t)
    decreases |steps|
  {
    if steps != [] {
      assert TaskInv(s, t);
      StepUnindexed(s, steps[0], t);
      StepInv(s, steps[0]);
      UnindexedIffUpsertFailed(Apply(s, steps[0]), steps[1..], t);
    }
  }

  /** In every run, truncation included, the index is off by what was overwritten, what
      failed to be indexed and what is about to be. */
  lemma IndexLedger(steps: seq<Step>, t: int)
    requires Valid(INIT, steps)
    ensures var l := Log(Run(INIT, steps), t);
            && l.row.bytes - |l.bytes| == |Stored(l.lost)| - |Stored(l.unindexed)| - |Stored(AwaitingIndex(l))|
            && l.row.lines - Newlines(l.bytes) == |l.lost| - |l.unindexed| - |AwaitingIndex(l)|
            && (l.lost == [] <==> !EverTruncates(INIT, steps, t))
            && (l.unindexed == [] <==> !UpsertEverFails(INIT, steps, t))
  {
    Reachable(steps, t);
    FreshIsFine();
    LostIffTruncated(INIT, steps, t);
    UnindexedIffUpsertFailed(INIT, steps, t);
    var l := Log(Run(INIT, steps), t);
    KeptAreLines(l);
    EncodeNewlines(Jsons(l.kept));
  }

  /** Without truncation the index never claims more than the object holds; it
      agrees with the object exactly when no upsert of that task has failed and
      none is due. */
  lemma IndexAgreement(steps: seq<Step>, t: int)
    requires Valid(INIT, steps) && !EverTruncates(INIT, steps, t)
    ensures var l := Log(Run(INIT, steps), t);
            && l.row.bytes <= |l.bytes|
            && l.row.lines <= Newlines(l.bytes)
            && (l.row == IndexRow(|l.bytes|, Newlines(l.bytes))
                <==> !UpsertEverFails(INIT, steps, t) && !l.held.Appending?)
  {
    IndexLedger(steps, t);
    Reachable(steps, t);
    StoredEmpty(Log(Run(INIT, steps), t).lost);
  }
}
