// A viewer of one task's log: the stream handler subscribes, replays the stored
// object, then forwards live frames; the browser hook splits frames into rows
// and keeps a capped window of them.
module LogViewer {
  import opened Options
  import opened Jsonl
  import opened LogPipeline
  import opened Text

  // ---- the stream handler --------------------------------------------------

  /** Without an index row there is no history, whatever the object holds; a row
      exists once an upsert, which always adds lines, has succeeded. */
  function FetchHistorical(l: TaskLog, downloaded: bool): Option<Bytes> {
    if l.row.lines == 0 || !downloaded then None else Some(TrimLastNewline(l.bytes))
  }

  /** One frame of history when there is any, then one frame per live line. */
  function Frames(hist: Option<Bytes>, live: seq<Line>): seq<Bytes> {
    (if hist.Some? && hist.value != [] then [hist.value] else []) + Jsons(live)
  }

  function Contents(frames: seq<Bytes>): seq<Bytes> {
    if frames == [] then [] else FrameLines(frames[0]) + Contents(frames[1..])
  }

  lemma {:induction false} LiveContents(live: seq<Line>)
    requires forall x :: x in live ==> IsLine(x.json)
    ensures Contents(Jsons(live)) == Jsons(live)
  {
    if live != [] {
      SingleLineFrame(live[0].json);
      LiveContents(live[1..]);
      assert Jsons(live)[1..] == Jsons(live[1..]);
    }
  }

  lemma FramesContents(hist: Option<Bytes>, live: seq<Line>)
    requires forall x :: x in live ==> IsLine(x.json)
    ensures Contents(Frames(hist, live)) == (if hist.Some? then FrameLines(hist.value) else []) + Jsons(live)
  {
    LiveContents(live);
    var frames := Frames(hist, live);
    if hist.Some? && hist.value != [] {
      assert frames[0] == hist.value && frames[1..] == Jsons(live);
    } else {
      assert frames == Jsons(live);
      assert Split([]) == [[]];
    }
  }

  // ---- the browser window --------------------------------------------------

  /** A line JSON.parse accepts keeps its fields; any other is shown as an INFO message. */
  datatype Entry = Fields(json: Bytes) | Info(message: Bytes)

  datatype LogRow = LogRow(seqNo: nat, entry: Entry)

  function EntryOf(parses: Bytes -> bool, line: Bytes): Entry {
    if parses(line) then Fields(line) else Info(line)
  }

  /** Rows numbered on from `last`. */
  function Numbered(parses: Bytes -> bool, last: nat, lines: seq<Bytes>): (rows: seq<LogRow>)
    ensures |rows| == |lines|
  {
    seq(|lines|, i requires 0 <= i < |lines| => LogRow(last + 1 + i, EntryOf(parses, lines[i])))
  }

  /** The window over `seen` lines: the last `cap` of them, or all, each under its number from
      1, with its fields if it parses and as an INFO message if not. */
  ghost predicate Shows(rows: seq<LogRow>, seen: seq<Bytes>, cap: nat, parses: Bytes -> bool) {
    && |rows| == (if |seen| > cap then cap else |seen|)
    && forall i {:trigger rows[i]} :: 0 <= i < |rows| ==>
         var k := |seen| - |rows| + i;
         rows[i].seqNo == k + 1
         && (parses(seen[k]) ==> rows[i].entry == Fields(seen[k]))
         && (!parses(seen[k]) ==> rows[i].entry == Info(seen[k]))
  }

  lemma LastRowsShow(seen: seq<Bytes>, cap: nat, parses: Bytes -> bool)
    ensures Shows(Last(Numbered(parses, 0, seen), cap), seen, cap, parses)
  {
  }

  class Window {
    const cap: nat
    const parses: Bytes -> bool
    var seqNo: nat
    var rows: seq<LogRow>
    ghost var seen: seq<Bytes>

    /** The rows are those of the last `cap` of all lines seen, numbered from 1. */
    ghost predicate Valid()
      reads this
    {
      seqNo == |seen| && rows == Last(Numbered(parses, 0, seen), cap)
    }

    constructor (cap: nat, parses: Bytes -> bool)
      ensures Valid() && seen == [] && this.cap == cap && this.parses == parses
    {
      this.cap, this.parses := cap, parses;
      seqNo, rows, seen := 0, [], [];
    }

    method OnMessage(frame: Bytes)
      requires Valid()
      modifies this
      ensures Valid() && seen == old(seen) + FrameLines(frame)
      ensures Shows(rows, seen, cap, parses)
    {
      LastRowsShow(seen, cap, parses);
      LastRowsShow(seen + FrameLines(frame), cap, parses);
      var lines := FrameLines(frame);
      if |lines| == 0 {
        return;
      }
      var parsed: seq<LogRow> := [];
      for i := 0 to |lines|
        invariant seqNo == old(seqNo) + i
        invariant parsed == Numbered(parses, old(seqNo), lines[..i])
        invariant rows == old(rows) && seen == old(seen)
      {
        seqNo := seqNo + 1;
        if parses(lines[i]) {
          parsed := parsed + [LogRow(seqNo, Fields(lines[i]))];
        } else {
          parsed := parsed + [LogRow(seqNo, Info(lines[i]))];
        }
      }
      assert lines[..|lines|] == lines;
      NumberedConcat(parses, seen, lines);
      LastConcat(Numbered(parses, 0, seen), parsed, cap);
      var next := rows + parsed;
      rows := if |next| > cap then next[|next| - cap..] else next;
      seen := seen + lines;
    }
  }

  lemma NumberedConcat(parses: Bytes -> bool, a: seq<Bytes>, b: seq<Bytes>)
    ensures Numbered(parses, 0, a + b) == Numbered(parses, 0, a) + Numbered(parses, |a|, b)
  {
  }

  method Browse(frames: seq<Bytes>, cap: nat, parses: Bytes -> bool) returns (w: Window)
    ensures fresh(w) && w.Valid() && w.cap == cap && w.parses == parses
    ensures w.seen == Contents(frames)
    ensures w.rows == Last(Numbered(parses, 0, Contents(frames)), cap)
    ensures Shows(w.rows, Contents(frames), cap, parses)
  {
    LastRowsShow(Contents(frames), cap, parses);
    hide Shows, FrameLines, EntryOf;
    w := new Window(cap, parses);
    assert frames[0..] == frames;
    for i := 0 to |frames|
      invariant w.Valid() && w.cap == cap && w.parses == parses && fresh(w)
      invariant w.seen + Contents(frames[i..]) == Contents(frames)
    {
      assert frames[i..][1..] == frames[i + 1..];
      w.OnMessage(frames[i]);
    }
  }

  // ---- from publish to the browser ------------------------------------------

  lemma {:induction false} PublishedGrows(s: State, steps: seq<Step>, t: int)
    requires Valid(s, steps)
    ensures Log(s, t).published <= Log(Run(s, steps), t).published
    decreases |steps|
  {
    if steps != [] {
      PublishedGrows(Apply(s, steps[0]), steps[1..], t);
    }
  }

  /** The lines of history a viewer gets: the whole object, or none of it. */
  function Replayed(l: TaskLog, downloaded: bool): seq<Line> {
    if FetchHistorical(l, downloaded).Some? then l.kept else []
  }

  lemma ReplayedIsASlice(l: TaskLog, downloaded: bool)
    requires LinesInv(l)
    ensures |l.lost| + |Replayed(l, downloaded)| <= |l.written|
    ensures Replayed(l, downloaded) == l.written[|l.lost|..|l.lost| + |Replayed(l, downloaded)|]
    ensures l.written[|l.lost| + |l.kept|..] == InFlight(l) + l.buf.lines
  {
    assert l.written == (l.lost + l.kept) + (InFlight(l) + l.buf.lines);
  }

  lemma HistoryLines(l: TaskLog, downloaded: bool)
    requires LinesInv(l)
    ensures var hist := FetchHistorical(l, downloaded);
            (if hist.Some? then FrameLines(hist.value) else []) == Jsons(Replayed(l, downloaded))
  {
    KeptAreLines(l);
    DecodeEncode(Jsons(l.kept));
  }

  lemma Observed(s1: State, b: seq<Step>, s2: State, t: int)
    requires Inv(s1) && Valid(s1, b) && s2 == Run(s1, b)
    ensures Inv(s2) && LinesInv(Log(s2, t)) && Log(s1, t).published <= Log(s2, t).published
  {
    RunInv(s1, b);
    assert TaskInv(s2, t);
    PublishedGrows(s1, b, t);
  }

  lemma SentContents(l: TaskLog, live: seq<Line>, downloaded: bool)
    requires LinesInv(l) && forall x :: x in live ==> IsLine(x.json)
    ensures Contents(Frames(FetchHistorical(l, downloaded), live)) == Jsons(Replayed(l, downloaded)) + Jsons(live)
  {
    HistoryLines(l, downloaded);
    FramesContents(FetchHistorical(l, downloaded), live);
  }

  /** The lines sent for history read as `l` and live lines after `before`. */
  function Sent(before: seq<Line>, l: TaskLog, all: seq<Line>, downloaded: bool): seq<Line>
    requires before <= all
  {
    Replayed(l, downloaded) + all[|before|..]
  }

  /** The replay is the written lines past the overwritten ones, which are a range of the
      published ones while Writes keep their order; what a delivered history lacks is on
      its way to the object. */
  ghost predicate ReplaysWritten(l: TaskLog, all: seq<Line>, downloaded: bool) {
    var h := |l.lost| + |Replayed(l, downloaded)|;
    && h <= |l.written|
    && Replayed(l, downloaded) == l.written[|l.lost|..h]
    && (l.written <= l.published ==> h <= |all| && Replayed(l, downloaded) == all[|l.lost|..h])
    && (FetchHistorical(l, downloaded).Some? ==> l.written[h..] == InFlight(l) + l.buf.lines)
  }

  ghost predicate Covers(before: seq<Line>, l: TaskLog, all: seq<Line>, downloaded: bool) {
    && before <= l.published <= all
    && Contents(Frames(FetchHistorical(l, downloaded), all[|before|..])) == Jsons(Sent(before, l, all, downloaded))
    && ReplaysWritten(l, all, downloaded)
    && multiset(l.published) == multiset(l.written) + multiset(l.pending)
  }

  lemma Coverage(before: seq<Line>, l: TaskLog, all: seq<Line>, downloaded: bool)
    requires LinesInv(l) && before <= l.published <= all
    requires AllLines(all)
    ensures Covers(before, l, all, downloaded)
  {
    SentAll(before, l, all, downloaded);
    Replays(l, all, downloaded);
    hide Contents, Frames, Jsons, FetchHistorical, Sent, ReplaysWritten, Stored, Present;
  }

  lemma Replays(l: TaskLog, all: seq<Line>, downloaded: bool)
    requires LinesInv(l) && l.published <= all
    ensures ReplaysWritten(l, all, downloaded)
  {
    ReplayedIsASlice(l, downloaded);
    if l.written <= l.published {
      ReplayInOrder(l, all, downloaded);
    }
    hide LinesInv, InFlight;
  }

  lemma SentAll(before: seq<Line>, l: TaskLog, all: seq<Line>, downloaded: bool)
    requires LinesInv(l) && AllLines(all) && before <= all
    ensures Contents(Frames(FetchHistorical(l, downloaded), all[|before|..])) == Jsons(Sent(before, l, all, downloaded))
  {
    hide Contents, Frames, Jsons, Stored, LinesInv, FetchHistorical, Replayed;
    SentContents(l, all[|before|..], downloaded);
    StoredConcat(Replayed(l, downloaded), all[|before|..]);
  }

  lemma ReplayInOrder(l: TaskLog, all: seq<Line>, downloaded: bool)
    requires LinesInv(l) && l.written <= l.published <= all
    ensures var h := |l.lost| + |Replayed(l, downloaded)|;
            h <= |all| && Replayed(l, downloaded) == all[|l.lost|..h]
  {
    ReplayedIsASlice(l, downloaded);
    hide LinesInv, Replayed;
    PrefixSlice(l.written, l.published, all, |l.lost|, |l.lost| + |Replayed(l, downloaded)|);
  }

  lemma PrefixSlice(a: seq<Line>, b: seq<Line>, c: seq<Line>, i: nat, j: nat)
    requires a <= b <= c && i <= j <= |a|
    ensures a[i..j] == c[i..j]
  {
  }

  /** What the viewer is sent, when it subscribed as `s1`, read history as `s2` and
      has watched until `s3`: the written lines from `lost` up to H, then every published
      line from S on, S being the count when it subscribed. So nothing published after
      subscribing is missed, and a line missing from a delivered history was still on its
      way to the object. While Writes keep the published order both are ranges of the
      published lines: one in both comes twice, one between them is missed. */
  lemma ViewerCoverage(a: seq<Step>, s1: State, b: seq<Step>, s2: State, c: seq<Step>, s3: State, t: int, downloaded: bool)
    requires Valid(INIT, a) && s1 == Run(INIT, a)
    requires Valid(s1, b) && s2 == Run(s1, b)
    requires Valid(s2, c) && s3 == Run(s2, c)
    ensures Covers(Log(s1, t).published, Log(s2, t), Log(s3, t).published, downloaded)
  {
    FreshIsFine();
    RunInv(INIT, a);
    Observed(s1, b, s2, t);
    Observed(s2, c, s3, t);
    Coverage(Log(s1, t).published, Log(s2, t), Log(s3, t).published, downloaded);
  }

  /** The viewer sees every line exactly once precisely when the replay holds the lines
      published before it subscribed; and, with no line overwritten and while Writes keep the
      published order, in order precisely when the replay stopped where it subscribed. */
  lemma ExactlyOnceIff(before: seq<Line>, l: TaskLog, all: seq<Line>, downloaded: bool)
    requires Covers(before, l, all, downloaded)
    ensures multiset(Sent(before, l, all, downloaded)) == multiset(all)
            <==> multiset(Replayed(l, downloaded)) == multiset(before)
    ensures l.lost == [] && l.written <= l.published ==>
              (Sent(before, l, all, downloaded) == all <==> |Replayed(l, downloaded)| == |before|)
  {
    var h := |Replayed(l, downloaded)|;
    assert all == before + all[|before|..];
    assert multiset(all) == multiset(before) + multiset(all[|before|..]);
    assert multiset(Sent(before, l, all, downloaded)) == multiset(Replayed(l, downloaded)) + multiset(all[|before|..]);
    if multiset(Sent(before, l, all, downloaded)) == multiset(all) {
      SameRest(multiset(Replayed(l, downloaded)), multiset(before), multiset(all[|before|..]));
    }
    if l.lost == [] && l.written <= l.published && h == |before| {
      assert all[..h] + all[h..] == all;
    }
  }

  lemma SameRest<T>(a: multiset<T>, b: multiset<T>, c: multiset<T>)
    requires a + c == b + c
    ensures a == b
  {
    forall x
      ensures a[x] == b[x]
    {
      assert (a + c)[x] == a[x] + c[x] && (b + c)[x] == b[x] + c[x];
    }
  }

  // ---- when there is no history ----------------------------------------------

  ghost predicate EverIndexed(s: State, steps: seq<Step>, t: int)
    requires Valid(s, steps)
    decreases |steps|
  {
    steps != [] && (steps[0] == Step(t, Index(true)) || EverIndexed(Apply(s, steps[0]), steps[1..], t))
  }

  lemma {:induction false} RowIffIndexed(s: State, steps: seq<Step>, t: int)
    requires Inv(s) && Valid(s, steps)
    ensures Log(Run(s, steps), t).row.lines >= Log(s, t).row.lines
    ensures Log(Run(s, steps), t).row.lines == Log(s, t).row.lines <==> !EverIndexed(s, steps, t)
    decreases |steps|
  {
    if steps != [] {
      assert TaskInv(s, t);
      RowStep(s, steps[0], t);
      StepInv(s, steps[0]);
      RowIffIndexed(Apply(s, steps[0]), steps[1..], t);
    }
  }

  lemma RowStep(s: State, a: Step, t: int)
    requires HeldInv(Log(s, t)) && Enabled(s, a)
    ensures Log(Apply(s, a), t).row.lines >= Log(s, t).row.lines
    ensures Log(Apply(s, a), t).row.lines == Log(s, t).row.lines <==> a != Step(t, Index(true))
  {
  }

  /** In every run a viewer is refused history exactly when the download fails or no
      upsert of the task has yet succeeded. */
  lemma NoHistoryIff(steps: seq<Step>, t: int, downloaded: bool)
    requires Valid(INIT, steps)
    ensures FetchHistorical(Log(Run(INIT, steps), t), downloaded).None? <==> !downloaded || !EverIndexed(INIT, steps, t)
  {
    FreshIsFine();
    RowIffIndexed(INIT, steps, t);
  }

  /** So an object can hold lines no viewer is given: after one flush whose upsert failed. */
  lemma StoredButNotReplayed(t: int, line: Line) returns (steps: seq<Step>)
    requires IsLine(line.json)
    ensures Valid(INIT, steps)
    ensures var l := Log(Run(INIT, steps), t);
            l.bytes == Stored([line]) != [] && FetchHistorical(l, true).None?
  {
    steps := FirstFlush(t, line, false);
  }
}
