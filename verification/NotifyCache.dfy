// The five-second memo over the enabled notification channels, as its readers and
// writers interleave: a reader takes the cache lock to look up, reads the repository
// without it, and takes it again to store; a mutation invalidates first and writes
// the repository afterwards.
module NotifyCache {
  import opened Options

  const SECOND: int := 1_000_000_000
  const TTL: int := 5 * SECOND

  datatype Channel = Channel(id: nat, name: string, kind: string, url: string, events: seq<string>, enabled: bool)

  type Channels = seq<Channel>

  /** The enabled list `channels` has been in force since `at`. */
  datatype Version = Version(channels: Channels, at: int)

  /** `readAt` is when the list was read from the repository. */
  datatype Memo = Memo(channels: Channels, until: int, readAt: int)

  datatype Reader =
    | Missed                                               // about to query the repository
    | Fetched(channels: Channels, readAt: int)               // about to store
    | Returned(channels: Channels, readAt: int, at: int)

  /** `versions` is the repository's past, the last one in force. `slowest` is the longest
      any reader has taken from its repository read to its store. */
  datatype State = State(
    now: int,
    versions: seq<Version>,
    memo: Option<Memo>,
    readers: map<nat, Reader>,
    writers: set<nat>,
    slowest: int)

  datatype Step =
    | Tick(elapsed: nat)
    | LookUp(reader: nat)
    | Fetch(reader: nat)
    | FetchFails(reader: nat)
    | Store(reader: nat)
    | Invalidate(writer: nat)
    | Write(writer: nat, channels: Channels)
    | WriteFails(writer: nat)

  function Current(s: State): Version
    requires s.versions != []
  {
    s.versions[|s.versions| - 1]
  }

  predicate Enabled(s: State, a: Step) {
    match a
    case Tick(_) => true
    case LookUp(r) => r !in s.readers
    case Fetch(r) => r in s.readers && s.readers[r].Missed? && s.versions != []
    case FetchFails(r) => r in s.readers && s.readers[r].Missed?
    case Store(r) => r in s.readers && s.readers[r].Fetched?
    case Invalidate(w) => w !in s.writers
    case Write(w, _) => w in s.writers
    case WriteFails(w) => w in s.writers
  }

  function Apply(s: State, a: Step): State
    requires Enabled(s, a)
  {
    match a
    case Tick(elapsed) => s.(now := s.now + elapsed)
    case LookUp(r) =>
      if s.memo.Some? && s.now < s.memo.value.until then
        s.(readers := s.readers[r := Returned(s.memo.value.channels, s.memo.value.readAt, s.now)])
      else s.(readers := s.readers[r := Missed])
    case Fetch(r) => s.(readers := s.readers[r := Fetched(Current(s).channels, s.now)])
    case FetchFails(r) => s.(readers := s.readers - {r})
    case Store(r) =>
      var f := s.readers[r];
      var took := s.now - f.readAt;
      s.(memo := Some(Memo(f.channels, s.now + TTL, f.readAt)),
         readers := s.readers[r := Returned(f.channels, f.readAt, s.now)],
         slowest := if s.slowest < took then took else s.slowest)
    case Invalidate(w) => s.(memo := None, writers := s.writers + {w})
    case Write(w, channels) =>
      s.(versions := s.versions + [Version(channels, s.now)], writers := s.writers - {w})
    case WriteFails(w) => s.(writers := s.writers - {w})
  }

  ghost predicate Valid(s: State, steps: seq<Step>)
    decreases |steps|
  {
    steps == [] || (Enabled(s, steps[0]) && Valid(Apply(s, steps[0]), steps[1..]))
  }

  ghost function Run(s: State, steps: seq<Step>): State
    requires Valid(s, steps)
    decreases |steps|
  {
    if steps == [] then s else Run(Apply(s, steps[0]), steps[1..])
  }

  function Init(now: int, channels: Channels): State {
    State(now, [Version(channels, now)], None, map[], {}, 0)
  }

  // ---- the invariant -------------------------------------------------------------

  /** `channels` was the repository's enabled list at moment `t`. */
  ghost predicate InForce(versions: seq<Version>, channels: Channels, t: int) {
    exists i :: 0 <= i < |versions| && InForceAt(versions, channels, t, i)
  }

  predicate InForceAt(versions: seq<Version>, channels: Channels, t: int, i: nat)
    requires i < |versions|
  {
    && versions[i].channels == channels && versions[i].at <= t
    && (i + 1 < |versions| ==> t <= versions[i + 1].at)
  }

  predicate Dated(s: State) {
    && s.versions != [] && s.slowest >= 0
    && (forall i :: 0 <= i < |s.versions| ==> s.versions[i].at <= s.now)
    && (forall i, j :: 0 <= i < j < |s.versions| ==> s.versions[i].at <= s.versions[j].at)
  }

  /** A list read at `readAt` and held since. */
  ghost predicate Sound(s: State, channels: Channels, readAt: int) {
    readAt <= s.now && InForce(s.versions, channels, readAt)
  }

  ghost predicate MemoOk(s: State) {
    s.memo.Some? ==>
      && Sound(s, s.memo.value.channels, s.memo.value.readAt)
      && s.memo.value.until <= s.memo.value.readAt + s.slowest + TTL
  }

  ghost predicate ReaderOk(s: State, r: Reader) {
    match r
    case Missed => true
    case Fetched(cs, readAt) => Sound(s, cs, readAt)
    case Returned(cs, readAt, at) => Sound(s, cs, readAt) && readAt <= at && at < readAt + s.slowest + TTL
  }

  ghost predicate Inv(s: State) {
    && Dated(s)
    && MemoOk(s)
    && (forall r :: r in s.readers ==> ReaderOk(s, s.readers[r]))
  }

  /** Time and writes only add to the past. */
  lemma SoundStays(s: State, a: Step, channels: Channels, readAt: int)
    requires Dated(s) && Enabled(s, a) && Sound(s, channels, readAt)
    ensures Sound(Apply(s, a), channels, readAt)
  {
    var i :| 0 <= i < |s.versions| && InForceAt(s.versions, channels, readAt, i);
    assert InForceAt(Apply(s, a).versions, channels, readAt, i);
  }

  lemma CurrentIsSound(s: State)
    requires Dated(s)
    ensures Sound(s, Current(s).channels, s.now)
  {
    assert InForceAt(s.versions, Current(s).channels, s.now, |s.versions| - 1);
  }

  lemma ReaderStays(s: State, a: Step, r: Reader)
    requires Dated(s) && Enabled(s, a) && ReaderOk(s, r)
    ensures ReaderOk(Apply(s, a), r)
  {
    hide Sound;
    if !r.Missed? {
      SoundStays(s, a, r.channels, r.readAt);
    }
  }

  lemma StepInv(s: State, a: Step)
    requires Inv(s) && Enabled(s, a)
    ensures Inv(Apply(s, a))
  {
    var s' := Apply(s, a);
    CurrentIsSound(s);
    hide InForce;
    if s.memo.Some? {
      SoundStays(s, a, s.memo.value.channels, s.memo.value.readAt);
    }
    if a.Store? {
      SoundStays(s, a, s.readers[a.reader].channels, s.readers[a.reader].readAt);
    }
    forall r | r in s'.readers
      ensures ReaderOk(s', s'.readers[r])
    {
      if r in s.readers && s'.readers[r] == s.readers[r] {
        ReaderStays(s, a, s.readers[r]);
      }
    }
  }

  lemma {:induction false} RunInv(s: State, steps: seq<Step>)
    requires Inv(s) && Valid(s, steps)
    ensures Inv(Run(s, steps))
    decreases |steps|
  {
    if steps != [] {
      StepInv(s, steps[0]);
      RunInv(Apply(s, steps[0]), steps[1..]);
    }
  }

  // ---- what readers get -------------------------------------------------------------

  /** In every interleaving, a returned list was the repository's enabled list at some
      moment less than 5 s plus the slowest read before the reader got it. */
  lemma BoundedStaleness(now: int, channels: Channels, steps: seq<Step>, r: nat) returns (t: int)
    requires Valid(Init(now, channels), steps)
    requires var e := Run(Init(now, channels), steps); r in e.readers && e.readers[r].Returned?
    ensures var e := Run(Init(now, channels), steps);
            && InForce(e.versions, e.readers[r].channels, t)
            && t <= e.readers[r].at < t + TTL + e.slowest
  {
    var s := Init(now, channels);
    CurrentIsSound(s);
    RunInv(s, steps);
    var e := Run(s, steps);
    assert ReaderOk(e, e.readers[r]);
    t := e.readers[r].readAt;
  }

  /** So once the repository has been left alone that long, every reader gets its list. */
  lemma SettlesAfterAWrite(now: int, channels: Channels, steps: seq<Step>, r: nat)
    requires Valid(Init(now, channels), steps)
    requires var e := Run(Init(now, channels), steps);
             && r in e.readers && e.readers[r].Returned? && e.versions != []
             && e.readers[r].at >= Current(e).at + TTL + e.slowest
    ensures var e := Run(Init(now, channels), steps);
            e.readers[r].channels == Current(e).channels
  {
    var e := Run(Init(now, channels), steps);
    var t := BoundedStaleness(now, channels, steps, r);
    CurrentIsSound(Init(now, channels));
    RunInv(Init(now, channels), steps);
    var i :| 0 <= i < |e.versions| && InForceAt(e.versions, e.readers[r].channels, t, i);
    assert forall j :: 0 <= j < |e.versions| ==> e.versions[j].at <= Current(e).at;
  }

  /** Because a mutation drops the memo before it writes, a reader in between puts the old
      list back: one that looks up after the write, even at once, still gets it. */
  lemma WriteCanStayHidden(now: int, before: Channels, after: Channels) returns (steps: seq<Step>)
    ensures Valid(Init(now, before), steps)
    ensures var e := Run(Init(now, before), steps);
            && e.versions != [] && Current(e).channels == after && e.writers == {}
            && 1 in e.readers && e.readers[1] == Returned(before, now, e.now)
  {
    hide Apply, Enabled;
    var s := Init(now, before);
    var last := [Write(0, after), LookUp(1)];
    steps := [Invalidate(0), LookUp(0), Fetch(0), Store(0)] + last;
    var s4 := PutBack(s, last);
    HiddenWrite(s4, after);
  }

  /** A reader between a mutation's two halves, in an empty system. */
  lemma PutBack(s: State, rest: seq<Step>) returns (e: State)
    requires s.versions != [] && s.readers == map[] && s.writers == {} && s.slowest >= 0
    ensures e == s.(memo := Some(Memo(Current(s).channels, s.now + TTL, s.now)), writers := {0},
                    readers := map[0 := Returned(Current(s).channels, s.now, s.now)])
    ensures var steps := [Invalidate(0), LookUp(0), Fetch(0), Store(0)] + rest;
            Valid(e, rest) ==> Valid(s, steps) && Run(s, steps) == Run(e, rest)
  {
    var s1 := Apply(s, Invalidate(0));
    var s2 := Apply(s1, LookUp(0));
    var s3 := Apply(s2, Fetch(0));
    e := Apply(s3, Store(0));
    if Valid(e, rest) {
      hide Apply, Enabled;
      RunCons(s3, Store(0), rest);
      RunCons(s2, Fetch(0), [Store(0)] + rest);
      RunCons(s1, LookUp(0), [Fetch(0)] + ([Store(0)] + rest));
      RunCons(s, Invalidate(0), [LookUp(0)] + ([Fetch(0)] + ([Store(0)] + rest)));
      assert [Invalidate(0), LookUp(0), Fetch(0), Store(0)] + rest
             == [Invalidate(0)] + ([LookUp(0)] + ([Fetch(0)] + ([Store(0)] + rest)));
    }
  }

  /** The other half of the mutation, then a look-up while the memo lasts. */
  lemma HiddenWrite(s: State, channels: Channels)
    requires 0 in s.writers && 1 !in s.readers && s.memo.Some? && s.now < s.memo.value.until
    ensures var steps := [Write(0, channels), LookUp(1)];
            && Valid(s, steps)
            && Run(s, steps) == s.(versions := s.versions + [Version(channels, s.now)], writers := s.writers - {0},
                                   readers := s.readers[1 := Returned(s.memo.value.channels, s.memo.value.readAt, s.now)])
  {
    var s1 := Apply(s, Write(0, channels));
    RunOne(s1, LookUp(1));
    RunCons(s, Write(0, channels), [LookUp(1)]);
    assert [Write(0, channels), LookUp(1)] == [Write(0, channels)] + [LookUp(1)];
  }

  lemma RunOne(s: State, a: Step)
    requires Enabled(s, a)
    ensures Valid(s, [a]) && Run(s, [a]) == Apply(s, a)
  {
    assert Valid(Apply(s, a), []);
  }

  lemma RunCons(s: State, a: Step, rest: seq<Step>)
    requires Enabled(s, a) && Valid(Apply(s, a), rest)
    ensures Valid(s, [a] + rest) && Run(s, [a] + rest) == Run(Apply(s, a), rest)
  {
    assert ([a] + rest)[1..] == rest;
  }

  // ---- when a write shows ---------------------------------------------------------------

  predicate NoWrite(steps: seq<Step>) {
    forall i :: 0 <= i < |steps| ==> !steps[i].Write?
  }

  /** The memo is dead or holds the list, and no reader is about to store another. */
  predicate Shows(s: State, channels: Channels) {
    && (s.memo.Some? && s.now < s.memo.value.until ==> s.memo.value.channels == channels)
    && (forall r :: r in s.readers && s.readers[r].Fetched? ==> s.readers[r].channels == channels)
  }

  /** Whatever readers got since `s`, they got this list. */
  predicate LaterReturns(s: State, e: State, channels: Channels) {
    forall r :: r in e.readers && e.readers[r].Returned? ==>
      (r in s.readers && s.readers[r] == e.readers[r]) || e.readers[r].channels == channels
  }

  /** Those who looked up since `s` did. */
  predicate LaterLookUps(s: State, e: State, channels: Channels) {
    forall r :: r in e.readers && r !in s.readers && e.readers[r].Returned? ==> e.readers[r].channels == channels
  }

  lemma ShowsStep(s0: State, s: State, a: Step)
    requires s.versions != [] && Shows(s, Current(s).channels) && LaterReturns(s0, s, Current(s).channels)
    requires Enabled(s, a) && !a.Write?
    ensures var s' := Apply(s, a);
            && s'.versions == s.versions && Shows(s', Current(s).channels) && LaterReturns(s0, s', Current(s).channels)
  {
  }

  lemma {:induction false} ShowsRun(s0: State, s: State, steps: seq<Step>)
    requires s.versions != [] && Shows(s, Current(s).channels) && LaterReturns(s0, s, Current(s).channels)
    requires Valid(s, steps) && NoWrite(steps)
    ensures LaterReturns(s0, Run(s, steps), Current(s).channels)
    decreases |steps|
  {
    if steps != [] {
      assert !steps[0].Write?;
      ShowsStep(s0, s, steps[0]);
      assert forall i :: 0 <= i < |steps| - 1 ==> steps[1..][i] == steps[i + 1];
      ShowsRun(s0, Apply(s, steps[0]), steps[1..]);
    }
  }

  ghost function Above(ids: set<nat>): (r: nat)
    ensures forall q :: q in ids ==> q < r
  {
    if ids == {} then 0
    else
      var x :| x in ids;
      var rest := Above(ids - {x});
      assert forall q :: q in ids ==> q == x || q in ids - {x};
      if x < rest then rest else x + 1
  }

  /** Otherwise some continuation gives a later look-up the wrong list at once. */
  lemma HiddenBy(s: State, channels: Channels) returns (steps: seq<Step>)
    requires !Shows(s, channels)
    ensures Valid(s, steps) && NoWrite(steps) && !LaterLookUps(s, Run(s, steps), channels)
  {
    var r := Above(s.readers.Keys);
    if s.memo.Some? && s.now < s.memo.value.until && s.memo.value.channels != channels {
      steps := [LookUp(r)];
      RunOne(s, LookUp(r));
      assert r in Run(s, steps).readers;
    } else {
      var q :| q in s.readers && s.readers[q].Fetched? && s.readers[q].channels != channels;
      var s1 := Apply(s, Store(q));
      RunOne(s1, LookUp(r));
      RunCons(s, Store(q), [LookUp(r)]);
      steps := [Store(q)] + [LookUp(r)];
      assert r in Run(s, steps).readers && r !in s.readers;
    }
  }

  /** After a mutation's write, in every continuation up to the next write, everyone who
      is answered, or everyone who looks up, gets the new list exactly when at the write
      the memo was dead or equal to it and no reader was about to store another list. */
  lemma WriteShowsIff(s: State, w: nat, channels: Channels)
    requires Enabled(s, Write(w, channels))
    ensures var s' := Apply(s, Write(w, channels));
            && (Shows(s, channels) <==>
                  forall steps :: Valid(s', steps) && NoWrite(steps) ==> LaterReturns(s', Run(s', steps), channels))
            && (Shows(s, channels) <==>
                  forall steps :: Valid(s', steps) && NoWrite(steps) ==> LaterLookUps(s', Run(s', steps), channels))
  {
    var s' := Apply(s, Write(w, channels));
    if Shows(s, channels) {
      forall steps | Valid(s', steps) && NoWrite(steps)
        ensures LaterReturns(s', Run(s', steps), channels) && LaterLookUps(s', Run(s', steps), channels)
      {
        ShowsRun(s', s', steps);
      }
    } else {
      var bad := HiddenBy(s', channels);
      assert Valid(s', bad) && NoWrite(bad) && !LaterReturns(s', Run(s', bad), channels);
    }
  }
}
