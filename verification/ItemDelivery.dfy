// Scraped items from the spider's process to the master's store: what the runs of the
// worker send, what the read loop is given and what its item sink inserts.
module ItemDelivery {
  import opened Options
  import opened WorkerRun
  import opened WorkerOutbox
  import opened RunDelivery
  import opened RunEvents
  import ML = MasterLoop
  import HL = HubLedger
  import RE = Reports
  import TT = TaskTable

  /** The items before the first captcha notice. */
  function ItemsBefore(xs: seq<Sighting>): seq<string> {
    if xs == [] || xs[0].Notice? then [] else [xs[0].payload] + ItemsBefore(xs[1..])
  }

  function PayloadOf(t: nat): ML.ItemRow -> Option<string> {
    (row: ML.ItemRow) => if row.task == t then Some(row.payload) else None
  }

  /** The payloads stored for one task, in order. */
  function StoredFor(rows: seq<ML.ItemRow>, t: nat): seq<string> {
    Collect(rows, PayloadOf(t))
  }

  lemma {:induction false} ItemsBeforeNext(xs: seq<Sighting>, x: Sighting)
    ensures ItemsBefore(xs + [x])
            == if Notice in xs || x.Notice? then ItemsBefore(xs) else ItemsBefore(xs) + [x.payload]
  {
    if xs != [] {
      assert (xs + [x])[1..] == xs[1..] + [x];
      assert xs == [xs[0]] + xs[1..];
      if xs[0].AnItem? {
        ItemsBeforeNext(xs[1..], x);
      }
    }
  }

  /** What a run may send of its task before its final update. */
  predicate Ongoing(m: Msg) {
    m.Update? ==> m.state in {Accepted, TaskState.Running, Captcha}
  }

  /** Every message about the task persisted, none of them a final update. */
  predicate AllOngoing(rs: seq<Receipt>, t: nat) {
    forall i :: 0 <= i < |rs| && IsFrom(rs[i].msg, t) ==> rs[i].persisted && Ongoing(rs[i].msg)
  }

  function Sightings(rs: seq<Receipt>, t: nat): seq<Sighting> {
    Collect(About(Delivered(rs), t), SentSighting)
  }

  lemma SightingsNext(rs: seq<Receipt>, r: Receipt, t: nat)
    ensures Sightings(rs + [r], t) == Sightings(rs, t) + (if IsFrom(r.msg, t) then Picked(r.msg, SentSighting) else [])
  {
    assert Delivered(rs + [r]) == Delivered(rs) + [r.msg];
    assert (Delivered(rs) + [r.msg])[..|rs|] == Delivered(rs);
    CollectSnoc(About(Delivered(rs), t), r.msg, SentSighting);
    assert Sightings(rs, t) + [] == Sightings(rs, t);
    assert About(Delivered(rs), t) + [] == About(Delivered(rs), t);
  }

  lemma StoredNext(tasks: map<nat, HL.Meta>, rs: seq<Receipt>, r: Receipt, t: nat)
    requires t in tasks
    ensures StoredFor(ML.ItemRows(tasks, rs + [r]), t)
            == StoredFor(ML.ItemRows(tasks, rs), t)
               + (if r.msg.Item? && r.persisted && r.msg.task == t && t !in ML.EndedBy(rs) then [r.msg.payload] else [])
  {
    assert (rs + [r])[..|rs|] == rs;
    var rows := ML.ItemRows(tasks, rs);
    hide ML.EndedBy;
    if ML.ItemRows(tasks, rs + [r]) != rows {
      CollectSnoc(rows, ML.ItemRows(tasks, rs + [r])[|rows|], PayloadOf(t));
    }
  }

  /** The loop has stored the items up to the first captcha notice, which makes the hub forget
      the task. */
  ghost predicate StoresUntilNotice(tasks: map<nat, HL.Meta>, rs: seq<Receipt>, t: nat) {
    && StoredFor(ML.ItemRows(tasks, rs), t) == ItemsBefore(Sightings(rs, t))
    && (t in ML.EndedBy(rs) <==> Notice in Sightings(rs, t))
  }

  lemma OneMoreStored(tasks: map<nat, HL.Meta>, rs: seq<Receipt>, r: Receipt, t: nat)
    requires t in tasks && StoresUntilNotice(tasks, rs, t) && (IsFrom(r.msg, t) ==> r.persisted && Ongoing(r.msg))
    ensures StoresUntilNotice(tasks, rs + [r], t)
  {
    hide ML.EndedBy, ML.ItemRows, StoredFor, Sightings, ItemsBefore;
    StoredNext(tasks, rs, r, t);
    SightingsNext(rs, r, t);
    ML.EndedNext(rs, r);
    var xs, stored := Sightings(rs, t), StoredFor(ML.ItemRows(tasks, rs), t);
    assert xs + [] == xs && stored + [] == stored;
    if IsFrom(r.msg, t) && SentSighting(r.msg).Some? {
      ItemsBeforeNext(xs, SentSighting(r.msg).value);
      assert xs + Picked(r.msg, SentSighting) == xs + [SentSighting(r.msg).value];
    }
  }

  lemma {:induction false} OngoingIsStored(tasks: map<nat, HL.Meta>, rs: seq<Receipt>, t: nat)
    requires t in tasks && AllOngoing(rs, t)
    ensures StoresUntilNotice(tasks, rs, t)
  {
    if rs != [] {
      var init, r := rs[..|rs| - 1], rs[|rs| - 1];
      assert rs == init + [r];
      OngoingIsStored(tasks, init, t);
      OneMoreStored(tasks, init, r, t);
      hide StoresUntilNotice;
    }
  }

  /** Messages of other tasks, and a final update, store nothing for the task. */
  lemma {:induction false} TailStoresNothing(tasks: map<nat, HL.Meta>, rs: seq<Receipt>, t: nat, k: nat)
    requires t in tasks && k < |rs| && forall j :: k <= j < |rs| ==> !(rs[j].msg.Item? && rs[j].msg.task == t)
    ensures StoredFor(ML.ItemRows(tasks, rs), t) == StoredFor(ML.ItemRows(tasks, rs[..k]), t)
    decreases |rs|
  {
    hide ML.ItemRows, StoredFor, ML.EndedBy;
    var init, r := rs[..|rs| - 1], rs[|rs| - 1];
    StoredNext(tasks, init, r, t);
    assert init + [r] == rs;
    assert StoredFor(ML.ItemRows(tasks, rs), t) == StoredFor(ML.ItemRows(tasks, init), t);
    if k < |init| {
      assert init[..k] == rs[..k];
      TailStoresNothing(tasks, init, t, k);
    } else {
      assert init == rs[..k];
    }
  }

  lemma BodyIsOngoing(t: nat, phase: Phase, ms: seq<Msg>)
    requires Sentence(t, phase, ms) && phase.Reported?
    ensures forall i :: 0 <= i < |ms| - 1 ==> Ongoing(ms[i])
  {
    forall i | 0 <= i < |ms| - 1
      ensures Ongoing(ms[i])
    {
      if i < 2 {
        assert ms[i] == ms[..2][i];
      } else {
        assert ms[2..|ms| - 1][i - 2] == ms[i] && IsBody(t, ms[2..|ms| - 1][i - 2]);
      }
    }
  }

  /** The messages about the task before its last one are all but the last of them. */
  lemma AboutBefore(rs: seq<Receipt>, t: nat, k: nat)
    requires IsLastAbout(rs, t, k)
    ensures About(Delivered(rs), t) == About(Delivered(rs[..k]), t) + [rs[k].msg]
    ensures forall i :: 0 <= i < k && IsFrom(rs[i].msg, t) ==> rs[i].msg in About(Delivered(rs[..k]), t)
  {
    AboutTail(rs, t, k);
    AboutHas(rs[..k], t);
  }

  lemma {:induction false} AboutTail(rs: seq<Receipt>, t: nat, k: nat)
    requires IsLastAbout(rs, t, k)
    ensures About(Delivered(rs), t) == About(Delivered(rs[..k]), t) + [rs[k].msg]
    decreases |rs|
  {
    var n := |rs| - 1;
    assert Delivered(rs)[..n] == Delivered(rs[..n]);
    if k < n {
      assert rs[..n][..k] == rs[..k];
      AboutTail(rs[..n], t, k);
    }
  }

  lemma {:induction false} AboutHas(rs: seq<Receipt>, t: nat)
    ensures forall i :: 0 <= i < |rs| && IsFrom(rs[i].msg, t) ==> rs[i].msg in About(Delivered(rs), t)
  {
    if rs != [] {
      var n := |rs| - 1;
      assert Delivered(rs)[..n] == Delivered(rs[..n]);
      AboutHas(rs[..n], t);
    }
  }

  /** Some item of the stream comes after a captcha. */
  predicate ItemAfterCaptcha(lines: seq<RawLine>) {
    exists i, j :: 0 <= i < j < |lines| && lines[i].CaptchaEvent? && lines[j].ItemEvent?
  }

  lemma {:induction false} BeforeIsPrefix(xs: seq<Sighting>)
    ensures ItemsBefore(xs) <= Collect(xs, SightedItem)
    ensures |ItemsBefore(xs)| == |Collect(xs, SightedItem)|
            <==> forall i, j :: 0 <= i < j < |xs| && xs[i].Notice? ==> xs[j].Notice?
  {
    if xs != [] {
      var init, last := xs[..|xs| - 1], xs[|xs| - 1];
      assert xs == init + [last];
      BeforeIsPrefix(init);
      ItemsBeforeNext(init, last);
      CollectSnoc(init, last, SightedItem);
      assert forall i :: 0 <= i < |init| ==> init[i] == xs[i];
    }
  }

  function SightedItem(x: Sighting): Option<string> {
    if x.AnItem? then Some(x.payload) else None
  }

  lemma {:induction false} SightingsOf(lines: seq<RawLine>)
    ensures Collect(Collect(lines, SeenSighting), SightedItem) == Collect(lines, ScrapedItem)
  {
    if lines != [] {
      var init, last := lines[..|lines| - 1], lines[|lines| - 1];
      SightingsOf(init);
      CollectConcat(Collect(init, SeenSighting), Picked(last, SeenSighting), SightedItem);
      CollectFew(if SeenSighting(last).Some? then SeenSighting(last).value else Notice, Notice, SightedItem);
    }
  }

  /** Over one connection, for a task assigned once whose run came to its process's exit, with
      everything about it delivered and persisted: the store gets exactly the items that
      come before the first captcha of the readable stream, in order. */
  lemma StoredItems(steps: seq<Step>, n: nat, rs: seq<Receipt>, k: nat, l: ML.Loop, spiders: map<int, RE.Spider>,
                    worker: string, db: nat -> RE.Db)
    requires Valid(INIT, steps) && AssignedOnce(Runs(INIT, steps), n)
    requires var run := Runs(INIT, steps).runs[n];
             && run.phase.Reported? && run.phase.how.Exited? && run.task in l.tasks
             && Delivered(rs) <= Untagged(Runs(INIT, steps).sent) && IsLastAbout(rs, run.task, k)
             && |About(Delivered(rs), run.task)| == |run.emitted|
             && (forall i :: 0 <= i < |rs| && IsFrom(rs[i].msg, run.task) ==> rs[i].persisted)
    requires TT.Numbered(l.table)
    ensures var run := Runs(INIT, steps).runs[n];
            var rows := ML.OnMessages(l, spiders, rs, worker, db).items;
            && l.items <= rows
            && StoredFor(rows[|l.items|..], run.task) == ItemsBefore(Collect(Readable(run.script), SeenSighting))
  {
    var s := Runs(INIT, steps);
    var run, t := s.runs[n], s.runs[n].task;
    OwnMessages(steps, n);
    assert Untagged(s.sent)[..|rs|] == Delivered(rs);
    AboutPrefix(Untagged(s.sent), |rs|, t);
    SightingsCarried();
    KindIsSent(steps, n, SentSighting, SeenSighting);
    BodyIsOngoing(t, run.phase, run.emitted);
    AboutBefore(rs, t, k);
    hide Runs, Valid, Sentence, Carries, OnlyEvents, Collect, Readable, About;
    hide ML.OnMessages, ML.EndedBy, ML.ItemRows, ML.After;
    var body := run.emitted[..|run.emitted| - 1];
    assert About(Delivered(rs[..k]), t) == body;
    forall i | 0 <= i < |rs[..k]| && IsFrom(rs[..k][i].msg, t)
      ensures rs[..k][i].persisted && Ongoing(rs[..k][i].msg)
    {
      assert rs[i].msg in body;
    }
    OngoingIsStored(l.tasks, rs[..k], t);
    TailStoresNothing(l.tasks, rs, t, k);
    ML.LoopLeaves(l, spiders, rs, worker, db);
    assert (l.items + ML.ItemRows(l.tasks, rs))[|l.items|..] == ML.ItemRows(l.tasks, rs);
  }

  /** So nothing the spider scraped is missing exactly when it emitted no item after a captcha. */
  lemma AllItemsStoredIff(lines: seq<RawLine>)
    ensures ItemsBefore(Collect(lines, SeenSighting)) == Collect(lines, ScrapedItem)
            <==> !ItemAfterCaptcha(lines)
  {
    var xs := Collect(lines, SeenSighting);
    BeforeIsPrefix(xs);
    SightingsOf(lines);
    NoticesFirst(lines);
    hide ItemsBefore, Collect;
    if |ItemsBefore(xs)| == |Collect(xs, SightedItem)| {
      assert ItemsBefore(xs) == Collect(xs, SightedItem);
    }
  }

  /** The order of sightings is the order of the lines. */
  lemma {:induction false} NoticesFirst(lines: seq<RawLine>)
    ensures var xs := Collect(lines, SeenSighting);
            && (Notice in xs <==> exists i :: 0 <= i < |lines| && lines[i].CaptchaEvent?)
            && ((forall i, j :: 0 <= i < j < |xs| && xs[i].Notice? ==> xs[j].Notice?) <==> !ItemAfterCaptcha(lines))
  {
    if lines != [] {
      var init, last := lines[..|lines| - 1], lines[|lines| - 1];
      var xs := Collect(init, SeenSighting);
      NoticesFirst(init);
      assert lines == init + [last];
      SortedNext(xs, last);
      AfterNext(init, last);
    }
  }

  lemma SortedNext(xs: seq<Sighting>, last: RawLine)
    ensures var ys := xs + Picked(last, SeenSighting);
            && (Notice in ys <==> Notice in xs || last.CaptchaEvent?)
            && ((forall i, j :: 0 <= i < j < |ys| && ys[i].Notice? ==> ys[j].Notice?)
                <==> (forall i, j :: 0 <= i < j < |xs| && xs[i].Notice? ==> xs[j].Notice?)
                     && !(Notice in xs && last.ItemEvent?))
  {
    var ys := xs + Picked(last, SeenSighting);
    assert forall i :: 0 <= i < |xs| ==> ys[i] == xs[i];
    if Notice in xs && last.ItemEvent? {
      var i :| 0 <= i < |xs| && xs[i] == Notice;
      assert ys[i].Notice? && !ys[|xs|].Notice?;
    }
  }

  lemma AfterNext(lines: seq<RawLine>, last: RawLine)
    ensures ItemAfterCaptcha(lines + [last])
            <==> ItemAfterCaptcha(lines) || ((exists i :: 0 <= i < |lines| && lines[i].CaptchaEvent?) && last.ItemEvent?)
  {
    var more := lines + [last];
    assert forall i :: 0 <= i < |lines| ==> more[i] == lines[i];
    assert more[|lines|] == last;
    if ItemAfterCaptcha(lines) {
      var i, j :| 0 <= i < j < |lines| && lines[i].CaptchaEvent? && lines[j].ItemEvent?;
      assert more[i].CaptchaEvent? && more[j].ItemEvent?;
    }
  }
}
