// LogSinkPubsub in place: the buffer map is updated under its mutex by Write and
// by the flusher, which appends to the bucket and bumps the index row.
module LogSink {
  import opened Jsonl
  import opened LogPipeline
  import opened ObjectStore

  /** How the three remote calls of one flush turn out. */
  datatype Net = Net(downloaded: bool, uploaded: bool, upserted: bool)

  /** One task's share of the sink's state. */
  datatype Share = Share(buf: Buffer, bytes: Bytes, row: IndexRow)

  /** What one flush of a task does when nothing runs beside it. */
  function Flushed(s: Share, net: Net): Share {
    if s.buf.lines == [] then s
    else if !net.uploaded then s
    else
      Share(EMPTY, Appended(s.bytes, net.downloaded, s.buf.lines),
            if net.upserted then Upserted(s.row, s.buf.lines) else s.row)
  }

  function ShareOf(l: TaskLog): Share {
    Share(l.buf, l.bytes, l.row)
  }

  /** A flush is a run of the pipeline's steps, so what holds of every run holds of it. */
  lemma FlushIsARun(l: TaskLog, net: Net)
    requires LogInv(l) && l.held.Nothing? && l.buf.lines != []
    ensures var taken := Do(l, Take);
            if net.uploaded then
              ShareOf(Do(Do(taken, Store(net.downloaded)), Index(net.upserted))) == Flushed(ShareOf(l), net)
            else
              ShareOf(Do(taken, GiveBack)) == Flushed(ShareOf(l), net)
  {
    if !net.uploaded {
      assert l.buf.lines + [] == l.buf.lines;
      assert Merge(map[], l.buf.counts) == l.buf.counts;
    }
  }

  function BufferOf(buffers: map<int, Buffer>, t: int): Buffer {
    if t in buffers then buffers[t] else EMPTY
  }

  function RowOf(index: map<int, IndexRow>, t: int): IndexRow {
    if t in index then index[t] else IndexRow(0, 0)
  }

  /** The decimal digits of n, as `%d` prints them. */
  function Digits(n: nat): (s: string)
    ensures s != [] && forall c :: c in s ==> '0' <= c <= '9'
  {
    var d := ['0' + (n % 10) as char];
    if n < 10 then d else Digits(n / 10) + d
  }

  lemma {:induction false} DigitsInjective(m: nat, n: nat)
    requires Digits(m) == Digits(n)
    ensures m == n
  {
    var a, b := Digits(m), Digits(n);
    assert a[|a| - 1] == '0' + (m % 10) as char && b[|b| - 1] == '0' + (n % 10) as char;
    if m >= 10 && n >= 10 {
      assert a[..|a| - 1] == Digits(m / 10) && b[..|b| - 1] == Digits(n / 10);
      DigitsInjective(m / 10, n / 10);
    }
  }

  /** The number the digits spell. */
  function Spelled(s: string): int {
    if s == "" then 0 else 10 * Spelled(s[..|s| - 1]) + (s[|s| - 1] as int - '0' as int)
  }

  lemma {:induction false} DigitsSpell(n: nat)
    ensures Spelled(Digits(n)) == n
  {
    var s := Digits(n);
    assert s[|s| - 1] == '0' + (n % 10) as char;
    if n >= 10 {
      DigitsSpell(n / 10);
      assert s[..|s| - 1] == Digits(n / 10);
    } else {
      assert s[..|s| - 1] == "";
    }
  }

  function LogKey(t: nat): string {
    "tasks/" + Digits(t) + "/log.jsonl"
  }

  /** Two tasks never share a log object. */
  lemma LogKeyInjective(m: nat, n: nat)
    ensures LogKey(m) == LogKey(n) <==> m == n
  {
    if LogKey(m) == LogKey(n) {
      var a, b := LogKey(m), LogKey(n);
      assert |Digits(m)| == |Digits(n)|;
      assert Digits(m) == a[6..6 + |Digits(m)|] == b[6..6 + |Digits(n)|] == Digits(n);
      DigitsInjective(m, n);
    }
  }

  class Sink {
    var buffers: map<nat, Buffer>
    const bucket: Bucket
    var index: map<nat, IndexRow>

    constructor (bucket: Bucket)
      ensures buffers == map[] && index == map[] && this.bucket == bucket
    {
      buffers, index := map[], map[];
      this.bucket := bucket;
    }

    ghost function ShareAt(t: nat): Share
      reads this, bucket
    {
      Share(BufferOf(buffers, t), Object(bucket.objects, LogKey(t)), RowOf(index, t))
    }

    method Write(t: nat, line: Line)
      modifies this`buffers
      ensures buffers == old(buffers)[t := Buffered(BufferOf(old(buffers), t), line)]
    {
      var buf := EMPTY;
      if t in buffers {
        buf := buffers[t];
      }
      var counts := buf.counts;
      if line.level != "" {
        counts := Bump(counts, line.level);
      }
      buffers := buffers[t := Buffer(buf.lines + [line], counts)];
    }

    /** The put-back loop over the taken level counts. */
    method MergeCounts(counts: map<string, nat>, more: map<string, nat>) returns (merged: map<string, nat>)
      ensures merged == Merge(counts, more)
    {
      merged := counts;
      var todo := more.Keys;
      while todo != {}
        invariant todo <= more.Keys
        invariant merged == Merge(counts, map k | k in more.Keys - todo :: more[k])
        decreases todo
      {
        var k :| k in todo;
        merged := merged[k := (if k in merged then merged[k] else 0) + more[k]];
        todo := todo - {k};
      }
      assert (map k | k in more.Keys - todo :: more[k]) == more;
    }

    method FlushTask(t: nat, net: Net)
      modifies this, bucket
      ensures buffers.Keys == old(buffers.Keys)
      ensures ShareAt(t) == Flushed(old(ShareAt(t)), net)
      ensures forall u: nat :: u != t ==> ShareAt(u) == old(ShareAt(u))
    {
      if t !in buffers || buffers[t].lines == [] {
        return;
      }
      var taken := buffers[t];
      buffers := buffers[t := EMPTY];
      var ok := bucket.AppendJsonl(LogKey(t), Jsons(taken.lines), net.downloaded, net.uploaded);
      forall u: nat
        ensures LogKey(u) == LogKey(t) <==> u == t
      {
        LogKeyInjective(u, t);
      }
      if !ok {
        var counts := MergeCounts(buffers[t].counts, taken.counts);
        buffers := buffers[t := Buffer(taken.lines + buffers[t].lines, counts)];
        assert Merge(map[], taken.counts) == taken.counts;
        assert taken.lines + [] == taken.lines;
        return;
      }
      if net.upserted {
        index := index[t := Upserted(RowOf(index, t), taken.lines)];
      }
    }

    /** Every buffered task is flushed once, each with its own outcome. */
    method FlushAll(net: nat -> Net)
      modifies this, bucket
      ensures buffers.Keys == old(buffers.Keys)
      ensures forall t: nat :: ShareAt(t) == if t in old(buffers) then Flushed(old(ShareAt(t)), net(t)) else old(ShareAt(t))
    {
      var todo := buffers.Keys;
      while todo != {}
        invariant todo <= buffers.Keys == old(buffers.Keys)
        invariant forall t: nat :: ShareAt(t) == if t in old(buffers) && t !in todo
                                               then Flushed(old(ShareAt(t)), net(t)) else old(ShareAt(t))
        decreases todo
      {
        var t :| t in todo;
        FlushTask(t, net(t));
        todo := todo - {t};
      }
    }
  }
}
