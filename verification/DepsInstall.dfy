// One task's call of resolveInterpreter, against the outcomes of the uv commands it
// runs: the path or error it returns, the `[deps]` lines it logs and what it leaves
// in the venv directory. A char of a uv line is a code point; the scanner's limit is on
// its bytes.
module DepsInstall {
  import opened Options
  import opened Text
  import U = Utf8
  import opened VenvInstall

  // ---- the stderr tail ------------------------------------------------------------

  function NonBlank(lines: seq<string>): seq<string> {
    if lines == [] then []
    else NonBlank(lines[..|lines| - 1]) + (if Blank(lines[|lines| - 1]) then [] else [lines[|lines| - 1]])
  }

  function Join(lines: seq<string>): string {
    if |lines| == 0 then ""
    else if |lines| == 1 then lines[0]
    else lines[0] + "\n" + Join(lines[1..])
  }

  class LineTail {
    const maxLines: nat
    var lines: seq<string>

    constructor (maxLines: nat)
      ensures this.maxLines == maxLines && lines == []
    {
      this.maxLines := maxLines;
      lines := [];
    }

    method Add(line: string)
      modifies this
      ensures lines == if Blank(line) then old(lines) else Last(old(lines) + [line], maxLines)
    {
      if Trim(line) == "" {
        return;
      }
      lines := lines + [line];
      if |lines| > maxLines {
        lines := lines[|lines| - maxLines..];
      }
    }
  }

  /** Feeding one more line keeps the tail the last `cap` lines that say something. */
  lemma TailNext(before: seq<string>, line: string, cap: nat)
    ensures Last(NonBlank(before + [line]), cap)
            == if Blank(line) then Last(NonBlank(before), cap) else Last(Last(NonBlank(before), cap) + [line], cap)
  {
    assert (before + [line])[..|before|] == before;
    LastConcat(NonBlank(before), [line], cap);
  }

  lemma TailEmpty(cap: nat)
    ensures Last(NonBlank(Stderr([])), cap) == [] && Scanned([]) == [] && !Ended([], false) && !Ended([], true)
  {
  }

  // ---- the venv's path --------------------------------------------------------------

  const HEX := "0123456789abcdef"

  function Hex(h: nat, digits: nat): (s: string)
    ensures |s| == digits
  {
    if digits == 0 then "" else Hex(h / 16, digits - 1) + [HEX[h % 16]]
  }

  function Pow16(n: nat): nat {
    if n == 0 then 1 else 16 * Pow16(n - 1)
  }

  lemma SameDigit(a: nat, b: nat)
    requires a < 16 && b < 16
    ensures HEX[a] == HEX[b] <==> a == b
  {
  }

  lemma {:induction false} HexInjective(g: nat, h: nat, digits: nat)
    requires g < Pow16(digits) && h < Pow16(digits) && Hex(g, digits) == Hex(h, digits)
    ensures g == h
  {
    if digits > 0 {
      var a, b := Hex(g, digits), Hex(h, digits);
      assert a[..digits - 1] == Hex(g / 16, digits - 1) && b[..digits - 1] == Hex(h / 16, digits - 1);
      assert a[digits - 1] == HEX[g % 16] && b[digits - 1] == HEX[h % 16];
      SameDigit(g % 16, h % 16);
      HexInjective(g / 16, h / 16, digits - 1);
    }
  }

  function VenvPath(venvDir: string, h: Hash): string {
    venvDir + "/" + Hex(h, 16)
  }

  /** Two hashes never share a directory. */
  lemma VenvPathInjective(venvDir: string, g: Hash, h: Hash)
    ensures VenvPath(venvDir, g) == VenvPath(venvDir, h) <==> g == h
  {
    if VenvPath(venvDir, g) == VenvPath(venvDir, h) {
      var a, b, n := VenvPath(venvDir, g), VenvPath(venvDir, h), |venvDir| + 1;
      assert Hex(g, 16) == a[n..] == b[n..] == Hex(h, 16);
      assert Pow16(16) == 0x1_0000_0000_0000_0000 by {
        assert Pow16(4) == 0x1_0000 && Pow16(8) == 0x1_0000_0000 && Pow16(12) == 0x1_0000_0000_0000;
      }
      HexInjective(g, h, 16);
    }
  }

  // ---- one uv command -----------------------------------------------------------------

  datatype UvLine = UvLine(fromStderr: bool, text: string)

  /** One uv command: a pipe or the start itself fails, or it runs, its output being what
      the two pipes interleave, and ends with an exit error if any. */
  datatype Uv = NoPipe(error: string) | NotStarted(error: string) | Ran(output: seq<UvLine>, exit: Option<string>)

  datatype DepsLog = DepsLog(level: string, message: string)

  function Deps(level: string, message: string): DepsLog {
    DepsLog(level, "[deps] " + message)
  }

  const LINE_LIMIT: nat := 0x10_0000

  /** A line whose bytes are over the scanner's limit, which ends the reading of its pipe. */
  predicate TooLong(text: string) {
    |U.Encode(text)| >= LINE_LIMIT
  }

  predicate Ended(output: seq<UvLine>, stderr: bool) {
    exists i :: 0 <= i < |output| && output[i].fromStderr == stderr && TooLong(output[i].text)
  }

  lemma EndedNext(output: seq<UvLine>, i: nat, stderr: bool)
    requires i < |output|
    ensures Ended(output[..i + 1], stderr)
            <==> Ended(output[..i], stderr) || (output[i].fromStderr == stderr && TooLong(output[i].text))
  {
    assert forall j :: 0 <= j < i ==> output[..i + 1][j] == output[..i][j];
    assert output[..i + 1][i] == output[i];
  }

  /** The lines read: per pipe, those before its first over-long one. */
  function Scanned(output: seq<UvLine>): seq<UvLine> {
    if output == [] then []
    else
      var last := output[|output| - 1];
      Scanned(output[..|output| - 1]) + (if Ended(output, last.fromStderr) then [] else [last])
  }

  lemma ScannedNext(output: seq<UvLine>, i: nat)
    requires i < |output|
    ensures Scanned(output[..i + 1])
            == if Ended(output[..i + 1], output[i].fromStderr) then Scanned(output[..i])
               else Scanned(output[..i]) + [output[i]]
  {
    assert output[..i + 1][..i] == output[..i];
  }

  function Stderr(output: seq<UvLine>): seq<string> {
    if output == [] then []
    else
      var last := output[|output| - 1];
      Stderr(output[..|output| - 1]) + (if last.fromStderr then [last.text] else [])
  }

  lemma StderrNext(read: seq<UvLine>, line: UvLine)
    ensures Stderr(read + [line]) == if line.fromStderr then Stderr(read) + [line.text] else Stderr(read)
  {
    assert (read + [line])[..|read|] == read;
  }

  function Forwarded(read: seq<UvLine>): seq<DepsLog> {
    seq(|read|, i requires 0 <= i < |read| => Deps("INFO", read[i].text))
  }

  /** The reason a failed command reports: the last five stderr lines read that say
      something, or its exit error when there are none. */
  function Reason(output: seq<UvLine>, exit: string): string {
    var tail := Join(Last(NonBlank(Stderr(Scanned(output))), 5));
    if tail != "" then tail else exit
  }

  /** A command that never ran is reported without its label. */
  function UvError(command: string, uv: Uv): Option<string> {
    match uv
    case NoPipe(e) => Some(e)
    case NotStarted(e) => Some("start uv: " + e)
    case Ran(output, exit) => if exit.None? then None else Some(command + ": " + Reason(output, exit.value))
  }

  function Printed(uv: Uv): seq<DepsLog> {
    if uv.Ran? then Forwarded(Scanned(uv.output)) else []
  }

  // ---- the lines of the pipes, by their place ----------------------------------------------

  predicate Increasing(ps: seq<nat>) {
    forall j, k :: 0 <= j < k < |ps| ==> ps[j] < ps[k]
  }

  /** The line is read: none of its pipe was too long, up to it. */
  predicate IsRead(output: seq<UvLine>, i: nat) {
    && i < |output|
    && forall j :: 0 <= j <= i && output[j].fromStderr == output[i].fromStderr ==> !TooLong(output[j].text)
  }

  /** A stderr line read that is not all white space. */
  predicate Says(output: seq<UvLine>, i: nat) {
    IsRead(output, i) && output[i].fromStderr && exists c :: c in output[i].text && !IsSpace(c)
  }

  /** The lines at the places `ps`. */
  predicate LinesAt(lines: seq<UvLine>, output: seq<UvLine>, ps: seq<nat>) {
    |lines| == |ps| && forall k :: 0 <= k < |ps| ==> ps[k] < |output| && lines[k] == output[ps[k]]
  }

  predicate TextsAt(texts: seq<string>, output: seq<UvLine>, ps: seq<nat>) {
    |texts| == |ps| && forall k :: 0 <= k < |ps| ==> ps[k] < |output| && texts[k] == output[ps[k]].text
  }

  lemma ReadNext(output: seq<UvLine>)
    requires output != []
    ensures var n := |output| - 1;
            && (forall i: nat :: i < n ==> (IsRead(output, i) <==> IsRead(output[..n], i)))
            && (forall i: nat :: i < n ==> (Says(output, i) <==> Says(output[..n], i)))
            && (IsRead(output, n) <==> !Ended(output, output[n].fromStderr))
  {
    var n := |output| - 1;
    hide TooLong;
    forall i: nat | i < n
      ensures IsRead(output, i) <==> IsRead(output[..n], i)
    {
      assert forall j :: 0 <= j <= i ==> output[..n][j] == output[j];
    }
  }

  /** The lines read, and where in the output they are. */
  lemma {:induction false} ReadPlaces(output: seq<UvLine>) returns (ps: seq<nat>)
    ensures Increasing(ps) && (forall i :: i in ps <==> IsRead(output, i)) && LinesAt(Scanned(output), output, ps)
  {
    if output == [] {
      ps := [];
    } else {
      var n := |output| - 1;
      ps := ReadPlaces(output[..n]);
      ReadNext(output);
      hide TooLong, Ended, Says;
      ReadPlace(output, n);
      if IsRead(output, n) {
        ps := ps + [n];
      }
    }
  }

  lemma ReadPlace(output: seq<UvLine>, i: nat)
    ensures IsRead(output, i) ==> i < |output|
    ensures Says(output, i) ==> IsRead(output, i)
  {
  }

  /** The stderr lines that say something, and where in the output they are. */
  lemma {:induction false} SaidPlaces(output: seq<UvLine>) returns (qs: seq<nat>)
    ensures Increasing(qs) && (forall i :: i in qs <==> Says(output, i))
    ensures TextsAt(NonBlank(Stderr(Scanned(output))), output, qs)
  {
    hide TooLong, Ended, IsRead, Says, NonBlank, Stderr, Scanned;
    if output == [] {
      NothingSaid();
      qs := [];
    } else {
      var n := |output| - 1;
      qs := SaidPlaces(output[..n]);
      ReadNext(output);
      SaysLast(output);
      ReadPlaceAll(output);
      if Says(output, n) {
        qs := qs + [n];
      }
    }
  }

  lemma NothingSaid()
    ensures NonBlank(Stderr(Scanned([]))) == [] && forall i: nat :: !Says([], i)
  {
  }

  lemma ReadPlaceAll(output: seq<UvLine>)
    ensures forall i: nat :: Says(output, i) ==> i < |output|
  {
  }

  lemma SaysLast(output: seq<UvLine>)
    requires output != []
    ensures var init, last := output[..|output| - 1], output[|output| - 1];
            NonBlank(Stderr(Scanned(output)))
            == NonBlank(Stderr(Scanned(init))) + (if Says(output, |output| - 1) then [last.text] else [])
  {
    var n := |output| - 1;
    var init, last := output[..n], output[n];
    ReadNext(output);
    BlankIff(last.text);
    StderrNext(Scanned(init), last);
    var said := Stderr(Scanned(init));
    assert (said + [last.text])[..|said|] == said;
    assert Scanned(init) + [] == Scanned(init);
  }

  /** A failed command reports the last five stderr lines read that say something, or its
      exit error when there are none. */
  ghost predicate IsReason(output: seq<UvLine>, exit: string, reason: string) {
    exists qs: seq<nat>, texts :: ReasonAt(output, exit, reason, qs, texts)
  }

  ghost predicate ReasonAt(output: seq<UvLine>, exit: string, reason: string, qs: seq<nat>, texts: seq<string>) {
    && Increasing(qs) && (forall i :: i in qs <==> Says(output, i)) && TextsAt(texts, output, qs)
    && reason == if qs == [] then exit else Join(texts[if |qs| > 5 then |qs| - 5 else 0..])
  }

  /** One line of its own per text. */
  lemma {:induction false} JoinNext(texts: seq<string>, text: string)
    ensures Join([]) == "" && Join([text]) == text
    ensures texts != [] ==> Join(texts + [text]) == Join(texts) + "\n" + text
  {
    if |texts| > 1 {
      JoinNext(texts[1..], text);
      assert (texts + [text])[1..] == texts[1..] + [text];
    } else if |texts| == 1 {
      assert (texts + [text])[1..] == [text];
    }
  }

  lemma ReasonIsSaid(output: seq<UvLine>, exit: string)
    ensures IsReason(output, exit, Reason(output, exit))
  {
    var qs := SaidPlaces(output);
    var texts := NonBlank(Stderr(Scanned(output)));
    hide NonBlank, Stderr, Scanned, TooLong, IsRead;
    var tail := Last(texts, 5);
    assert tail == texts[if |qs| > 5 then |qs| - 5 else 0..];
    if qs != [] {
      assert qs[|qs| - |tail|] in qs && tail[0] == output[qs[|qs| - |tail|]].text;
      assert tail[0] != "";
    }
    assert ReasonAt(output, exit, Reason(output, exit), qs, texts);
  }

  /** The error of a command, which a command that never ran reports without its label. */
  ghost predicate FailsWith(command: string, uv: Uv, err: string) {
    match uv
    case NoPipe(e) => err == e
    case NotStarted(e) => err == "start uv: " + e
    case Ran(output, exit) =>
      exit.Some? && exists reason :: IsReason(output, exit.value, reason) && err == command + ": " + reason
  }

  predicate Works(uv: Uv) {
    uv.Ran? && uv.exit.None?
  }

  /** A command's error is none exactly when it ran and exited well. */
  lemma ErrorIff(command: string, uv: Uv)
    ensures UvError(command, uv).None? <==> Works(uv)
    ensures UvError(command, uv).Some? ==> FailsWith(command, uv, UvError(command, uv).value)
  {
    if uv.Ran? && uv.exit.Some? {
      ReasonIsSaid(uv.output, uv.exit.value);
    }
    hide Reason, IsReason;
  }

  /** The lines read, in order, each logged as one of the dependencies. */
  ghost predicate Forwards(uv: Uv, log: seq<DepsLog>) {
    if !uv.Ran? then log == [] else exists ps: seq<nat> :: ForwardsAt(uv.output, log, ps)
  }

  ghost predicate ForwardsAt(output: seq<UvLine>, log: seq<DepsLog>, ps: seq<nat>) {
    && Increasing(ps) && (forall i :: i in ps <==> IsRead(output, i)) && |log| == |ps|
    && forall k :: 0 <= k < |ps| ==>
         ps[k] < |output| && log[k].level == "INFO" && log[k].message == "[deps] " + output[ps[k]].text
  }

  lemma PrintedForwards(uv: Uv)
    ensures Forwards(uv, Printed(uv))
  {
    if uv.Ran? {
      hide Scanned, IsRead;
      var ps := ReadPlaces(uv.output);
      assert ForwardsAt(uv.output, Printed(uv), ps);
    }
  }

  method RunUvStreamed(command: string, uv: Uv) returns (err: Option<string>, log: seq<DepsLog>)
    ensures log == Printed(uv) && Forwards(uv, log)
    ensures err == UvError(command, uv)
    ensures err.None? <==> uv.Ran? && uv.exit.None?
    ensures err.Some? ==> FailsWith(command, uv, err.value)
  {
    ErrorIff(command, uv);
    PrintedForwards(uv);
    hide FailsWith, Forwards;
    if uv.NoPipe? {
      return Some(uv.error), [];
    }
    if uv.NotStarted? {
      return Some("start uv: " + uv.error), [];
    }
    var tail: seq<string>;
    tail, log := ReadPipes(uv.output);
    if uv.exit.Some? {
      var reason := Join(tail);
      err := Some(command + ": " + (if reason != "" then reason else uv.exit.value));
    } else {
      err := None;
    }
  }

  /** Both pipes read to their end: the stderr tail and the lines forwarded. */
  method ReadPipes(output: seq<UvLine>) returns (last: seq<string>, log: seq<DepsLog>)
    ensures last == Last(NonBlank(Stderr(Scanned(output))), 5)
    ensures log == Forwarded(Scanned(output))
  {
    hide Blank, NonBlank, Last, Stderr, Join, Ended, Scanned;
    TailEmpty(5);
    var tail := new LineTail(5);
    log := [];
    var outEnded, errEnded := false, false;
    ghost var read: seq<UvLine> := [];
    for i := 0 to |output|
      invariant read == Scanned(output[..i])
      invariant log == Forwarded(read)
      invariant outEnded == Ended(output[..i], false) && errEnded == Ended(output[..i], true)
      invariant tail.maxLines == 5 && tail.lines == Last(NonBlank(Stderr(read)), 5)
    {
      var line := output[i];
      EndedNext(output, i, false);
      EndedNext(output, i, true);
      ScannedNext(output, i);
      if TooLong(line.text) {
        if line.fromStderr {
          errEnded := true;
        } else {
          outEnded := true;
        }
      } else if !(if line.fromStderr then errEnded else outEnded) {
        StderrNext(read, line);
        if line.fromStderr {
          TailNext(Stderr(read), line.text, 5);
          tail.Add(line.text);
        }
        log := log + [Deps("INFO", line.text)];
        read := read + [line];
      }
    }
    assert output[..|output|] == output;
    last := tail.lines;
  }

  // ---- the whole call -------------------------------------------------------------------

  datatype Requirements = Missing | Unreadable(error: string) | Contents(hash: Hash)

  datatype Failure = Read(error: string) | MkDir(error: string) | UvFailed(error: string) | NoInterpreter

  datatype Interpreter = System | InVenv(hash: Hash) | Error(failure: Failure)

  /** What the outside does during one call: mkdir's error, the uv commands, and whether
      an interpreter is there after each of them. */
  datatype Outside = Outside(mkdir: Option<string>, create: Uv, afterCreate: bool, install: Uv, afterInstall: bool)

  /** The error an install ends in, if any. */
  function FailureOf(o: Outside): Option<Failure> {
    if o.mkdir.Some? then Some(MkDir(o.mkdir.value))
    else if UvError("uv venv", o.create).Some? then Some(UvFailed(UvError("uv venv", o.create).value))
    else if UvError("uv pip install", o.install).Some? then Some(UvFailed(UvError("uv pip install", o.install).value))
    else if !o.afterInstall then Some(NoInterpreter)
    else None
  }

  /** The log of an install: one announcement, then what the uv commands printed, as far
      as the install got. */
  function InstallLog(o: Outside, venv: string): seq<DepsLog> {
    [Deps("INFO", "resolving spider deps into " + venv)]
    + (if o.mkdir.Some? then []
       else Printed(o.create) + (if UvError("uv venv", o.create).Some? then [] else Printed(o.install)))
  }

  /** An install goes through. */
  predicate Installs(o: Outside) {
    o.mkdir.None? && Works(o.create) && Works(o.install) && o.afterInstall
  }

  /** The first thing that went wrong. */
  ghost predicate WentWrong(o: Outside, f: Failure) {
    match f
    case Read(_) => false
    case MkDir(e) => o.mkdir == Some(e)
    case UvFailed(e) =>
      && o.mkdir.None?
      && (if Works(o.create) then !Works(o.install) && FailsWith("uv pip install", o.install, e)
          else FailsWith("uv venv", o.create, e))
    case NoInterpreter => o.mkdir.None? && Works(o.create) && Works(o.install) && !o.afterInstall
  }

  lemma FailureIff(o: Outside)
    ensures FailureOf(o).None? <==> Installs(o)
    ensures FailureOf(o).Some? ==> WentWrong(o, FailureOf(o).value)
  {
    ErrorIff("uv venv", o.create);
    ErrorIff("uv pip install", o.install);
    hide UvError, FailsWith;
  }

  /** An install's log: one announcement, then what each command it got to printed. */
  ghost predicate LogsInstall(o: Outside, venv: string, log: seq<DepsLog>) {
    exists a, b :: LogsParts(o, venv, log, a, b)
  }

  ghost predicate LogsParts(o: Outside, venv: string, log: seq<DepsLog>, a: seq<DepsLog>, b: seq<DepsLog>) {
    && log == [DepsLog("INFO", "[deps] resolving spider deps into " + venv)] + a + b
    && (if o.mkdir.None? then Forwards(o.create, a) else a == [])
    && (if o.mkdir.None? && Works(o.create) then Forwards(o.install, b) else b == [])
  }

  lemma InstallLogs(o: Outside, venv: string)
    ensures LogsInstall(o, venv, InstallLog(o, venv))
  {
    ErrorIff("uv venv", o.create);
    PrintedForwards(o.create);
    PrintedForwards(o.install);
    hide UvError, FailsWith, Forwards, Printed;
    var a := if o.mkdir.Some? then [] else Printed(o.create);
    var b := if o.mkdir.Some? || UvError("uv venv", o.create).Some? then [] else Printed(o.install);
    var first := [Deps("INFO", "resolving spider deps into " + venv)];
    var text := "resolving spider deps into ";
    assert "[deps] " + (text + venv) == ("[deps] " + text) + venv;
    assert "[deps] " + text == "[deps] resolving spider deps into ";
    assert InstallLog(o, venv) == first + a + b;
    assert LogsParts(o, venv, first + a + b, a, b);
  }

  /** What the machine of all tasks does in one call under the mutex. */
  ghost predicate CanActAll(p: Phase, x: Slot, acts: seq<Action>)
    decreases |acts|
  {
    acts == [] || (CanAct(p, acts[0]) && var (q, y) := Acted(p, x, acts[0]); CanActAll(q, y, acts[1..]))
  }

  ghost function ActedAll(p: Phase, x: Slot, acts: seq<Action>): (Phase, Slot)
    decreases |acts|
  {
    if acts == [] then (p, x)
    else
      var (q, y) := Acted(p, x, acts[0]);
      ActedAll(q, y, acts[1..])
  }

  /** The call moved the machine from `x` to a slot holding `venv`, by some actions. */
  ghost predicate Reaches(p: Phase, x: Slot, q: Phase, venv: Venv) {
    exists acts: seq<Action> ::
      CanActAll(p, x, acts) && ActedAll(p, x, acts).0 == q && ActedAll(p, x, acts).1.venv == venv
  }

  lemma ReachesNow(p: Phase, x: Slot)
    ensures Reaches(p, x, p, x.venv)
  {
    assert CanActAll(p, x, []) && ActedAll(p, x, []) == (p, x);
  }

  lemma ReachesBy(p: Phase, x: Slot, act: Action, q: Phase, venv: Venv)
    requires CanAct(p, act) && var (p', x') := Acted(p, x, act); Reaches(p', x', q, venv)
    ensures Reaches(p, x, q, venv)
  {
    var (p', x') := Acted(p, x, act);
    var acts: seq<Action> :|
      CanActAll(p', x', acts) && ActedAll(p', x', acts).0 == q && ActedAll(p', x', acts).1.venv == venv;
    assert ([act] + acts)[1..] == acts;
    assert CanActAll(p, x, [act] + acts);
    assert ActedAll(p, x, [act] + acts) == ActedAll(p', x', acts);
  }

  /** The directory after a call that found `before`. */
  function VenvAfter(before: Venv, o: Outside): Venv {
    if before.python || o.mkdir.Some? then before
    else if FailureOf(o).Some? then EMPTY
    else Venv(true, true, true)
  }

  /** A call that finds no interpreter leaves a built directory, or an empty one; only a failed
      mkdir leaves what was there. */
  lemma VenvAfterIff(before: Venv, o: Outside)
    ensures var after := VenvAfter(before, o);
            if before.python then after == before
            else if Installs(o) then Built(after)
            else after == (if o.mkdir.Some? then before else EMPTY)
  {
    FailureIff(o);
    hide UvError, FailureOf, WentWrong;
  }

  /** A call is one path through the shared machine, so everything proved of all its runs
      holds of the calls that make them up. */
  lemma CallIsAPath(x: Slot, o: Outside)
    ensures Reaches(Locked, x, Leaving(x.venv.python || Installs(o)), VenvAfter(x.venv, o))
  {
    FailureIff(o);
    hide UvError, Installs, WentWrong;
    if x.venv.python {
      ReachesNow(Leaving(true), x);
    } else {
      InstallIsAPath(x.(started := x.started + 1), o);
    }
    ReachesBy(Locked, x, Stat, Leaving(x.venv.python || FailureOf(o).None?), VenvAfter(x.venv, o));
  }

  lemma InstallIsAPath(x: Slot, o: Outside)
    requires !x.venv.python
    ensures Reaches(MakingDir, x, Leaving(FailureOf(o).None?), VenvAfter(x.venv, o))
  {
    var q, v := Leaving(FailureOf(o).None?), VenvAfter(x.venv, o);
    if o.mkdir.Some? {
      ReachesNow(q, x.(failed := x.failed + 1));
      ReachesBy(MakingDir, x, MakeDir(false), q, v);
    } else {
      var x0 := x.(venv := EMPTY);
      var x1 := x0.(venv := Venv(o.afterCreate, false, false));
      if UvError("uv venv", o.create).Some? {
        RemovingIsAPath(x1);
      } else {
        var x2 := x1.(venv := Venv(o.afterCreate, true, false));
        var x3 := x1.(venv := Venv(o.afterInstall, true, false));
        if UvError("uv pip install", o.install).Some? {
          RemovingIsAPath(x3);
        } else {
          var x4 := x1.(venv := Venv(o.afterInstall, true, true));
          if o.afterInstall {
            ReachesNow(q, x4);
          } else {
            RemovingIsAPath(x4);
          }
          ReachesBy(Checking, x4, Check, q, v);
        }
        ReachesBy(Installing, x3, InstallEnds(UvError("uv pip install", o.install).None?), q, v);
        ReachesBy(Installing, x2, Touch(o.afterInstall), q, v);
      }
      ReachesBy(Creating, x1, CreateEnds(UvError("uv venv", o.create).None?), q, v);
      ReachesBy(Creating, x0, Touch(o.afterCreate), q, v);
      ReachesBy(MakingDir, x, MakeDir(true), q, v);
    }
  }

  lemma RemovingIsAPath(x: Slot)
    ensures Reaches(Removing, x, Leaving(false), EMPTY)
  {
    ReachesNow(Leaving(false), x.(venv := EMPTY, failed := x.failed + 1));
    ReachesBy(Removing, x, Remove, Leaving(false), EMPTY);
  }

  class Executor {
    const venvDir: string
    const uvInstalled: bool
    var venvs: map<Hash, Venv>

    constructor (venvDir: string, uvInstalled: bool, venvs: map<Hash, Venv>)
      ensures this.venvDir == venvDir && this.uvInstalled == uvInstalled && this.venvs == venvs
    {
      this.venvDir, this.uvInstalled, this.venvs := venvDir, uvInstalled, venvs;
    }

    function VenvAt(h: Hash): Venv
      reads this
    {
      if h in venvs then venvs[h] else EMPTY
    }

    /** The part under the hash's mutex. */
    method Provide(h: Hash, o: Outside) returns (r: Interpreter, log: seq<DepsLog>)
      modifies this
      ensures VenvAt(h) == VenvAfter(old(VenvAt(h)), o)
      ensures forall g: Hash :: g != h ==> VenvAt(g) == old(VenvAt(g))
      ensures old(VenvAt(h)).python ==> r == InVenv(h) && log == []
      ensures !old(VenvAt(h)).python ==>
                && log == InstallLog(o, VenvPath(venvDir, h))
                && r == if FailureOf(o).Some? then Error(FailureOf(o).value) else InVenv(h)
    {
      hide UvError, Printed, VenvPath, FailsWith, Forwards;
      log := [];
      if VenvAt(h).python {
        return InVenv(h), log;
      }
      log := [Deps("INFO", "resolving spider deps into " + VenvPath(venvDir, h))];
      if o.mkdir.Some? {
        return Error(MkDir(o.mkdir.value)), log;
      }
      venvs := venvs[h := Venv(o.afterCreate, false, false)];
      var err, out := RunUvStreamed("uv venv", o.create);
      log := log + out;
      if err.Some? {
        venvs := venvs[h := EMPTY];
        return Error(UvFailed(err.value)), log;
      }
      venvs := venvs[h := Venv(o.afterInstall, true, false)];
      err, out := RunUvStreamed("uv pip install", o.install);
      log := log + out;
      if err.Some? {
        venvs := venvs[h := EMPTY];
        return Error(UvFailed(err.value)), log;
      }
      venvs := venvs[h := VenvAt(h).(installed := true)];
      if !VenvAt(h).python {
        venvs := venvs[h := EMPTY];
        return Error(NoInterpreter), log;
      }
      return InVenv(h), log;
    }

    /** A path into a venv is only ever returned for the requirements' own hash, and the
        environment is complete if the one found there was. */
    method ResolveInterpreter(req: Requirements, o: Outside) returns (r: Interpreter, log: seq<DepsLog>)
      modifies this
      ensures forall g: Hash :: req != Contents(g) || !uvInstalled ==> VenvAt(g) == old(VenvAt(g))
      ensures req.Missing? ==> r == System && log == []
      ensures req.Unreadable? ==> r == Error(Read(req.error)) && log == []
      ensures req.Contents? && !uvInstalled ==> r == System && |log| == 1 && log[0].level == "WARN"
      ensures req.Contents? && uvInstalled ==>
                var h, before := req.hash, old(VenvAt(req.hash));
                && VenvAt(h) == VenvAfter(before, o)
                && log == (if before.python then [] else InstallLog(o, VenvPath(venvDir, h)))
                && r == if before.python || FailureOf(o).None? then InVenv(h) else Error(FailureOf(o).value)
      ensures r.InVenv? ==> req == Contents(r.hash) && VenvAt(r.hash).python
      ensures r.InVenv? <==> req.Contents? && uvInstalled && (old(VenvAt(req.hash)).python || Installs(o))
      ensures req.Contents? && uvInstalled && !old(VenvAt(req.hash)).python ==>
                && LogsInstall(o, VenvPath(venvDir, req.hash), log)
                && (Installs(o) ==> Built(VenvAt(req.hash)))
                && (!Installs(o) ==>
                      && r.Error? && WentWrong(o, r.failure)
                      && VenvAt(req.hash) == (if o.mkdir.Some? then old(VenvAt(req.hash)) else EMPTY))
      ensures r.InVenv? && (old(VenvAt(r.hash)).python ==> Built(old(VenvAt(r.hash)))) ==> Built(VenvAt(r.hash))
    {
      FailureIff(o);
      if req.Contents? {
        VenvAfterIff(VenvAt(req.hash), o);
        InstallLogs(o, VenvPath(venvDir, req.hash));
      }
      hide InstallLog, VenvPath, UvError, FailureOf, LogsInstall, WentWrong, Installs, VenvAfter;
      match req
      case Missing => return System, [];
      case Unreadable(e) => return Error(Read(e)), [];
      case Contents(h) =>
        if !uvInstalled {
          return System, [Deps("WARN", "requirements.txt present but uv is not installed; spider deps will not be resolved")];
        }
        r, log := Provide(h, o);
    }
  }
}
