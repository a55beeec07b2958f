/** The bounded log file (agent/src/logfile.rs, `LogFile`). */
module LogFile {
  import opened Wrappers
  import opened Sequences
  import Utf8

  type Byte = Utf8.Byte

  const NEWLINE: Byte := 10
  const TRIM_SLACK: nat := 200

  function CountLines(s: seq<Byte>): nat {
    if s == [] then 0 else CountLines(s[..|s| - 1]) + (if s[|s| - 1] == NEWLINE then 1 else 0)
  }

  lemma {:induction false} CountConcat(a: seq<Byte>, b: seq<Byte>)
    ensures CountLines(a + b) == CountLines(a) + CountLines(b)
  {
    if b == [] {
      assert a + b == a;
    } else {
      assert (a + b)[..|a + b| - 1] == a + b[..|b| - 1];
      CountConcat(a, b[..|b| - 1]);
    }
  }

  /** Where the line ends of `s` are: at its bytes 10. */
  ghost function LineEnds(s: seq<Byte>): set<int> {
    set i | 0 <= i < |s| && s[i] == 10
  }

  lemma LineEndsSnoc(s: seq<Byte>, b: Byte)
    ensures LineEnds(s + [b]) == LineEnds(s) + (if b == 10 then {|s|} else {})
  {
  }

  /** Counting lines is counting the positions of line ends. */
  lemma {:induction false} CountIsCardinality(s: seq<Byte>)
    ensures CountLines(s) == |LineEnds(s)|
  {
    assert s == [] ==> LineEnds(s) == {};
    if s != [] {
      CountIsCardinality(s[..|s| - 1]);
      LineEndsSnoc(s[..|s| - 1], s[|s| - 1]);
      assert s == s[..|s| - 1] + [s[|s| - 1]];
    }
  }

  /** Position `i` is the start of a line of `s`. */
  predicate LineStart(s: seq<Byte>, i: nat)
    requires i <= |s|
  {
    i == 0 || s[i - 1] == NEWLINE
  }

  /** `file` is what is left of `history` when it is cut at a line start. */
  ghost predicate WindowOf(file: seq<Byte>, history: seq<Byte>) {
    exists cut: nat :: CutAt(file, history, cut)
  }

  ghost predicate CutAt(file: seq<Byte>, history: seq<Byte>, cut: nat) {
    cut <= |history| && LineStart(history, cut) && file == history[cut..]
  }

  /** A tail of `s` that starts a line and holds exactly `n` line ends. */
  ghost predicate IsTail(t: seq<Byte>, s: seq<Byte>, n: nat) {
    WindowOf(t, s) && CountLines(t) == n
  }

  /** Such a tail, byte by byte: it follows a line end, or is all there is. */
  lemma TailExactly(t: seq<Byte>, s: seq<Byte>, n: nat)
    ensures IsTail(t, s, n) <==> |LineEnds(t)| == n && |t| <= |s| && t == s[|s| - |t|..] && (|t| == |s| || s[|s| - |t| - 1] == 10)
  {
    CountIsCardinality(t);
    if IsTail(t, s, n) {
      var cut: nat :| CutAt(t, s, cut);
      assert cut == |s| - |t|;
    }
    if |t| <= |s| && t == s[|s| - |t|..] && (|t| == |s| || s[|s| - |t| - 1] == 10) {
      assert CutAt(t, s, |s| - |t|);
    }
  }

  lemma TailCountsNoMore(t: seq<Byte>, s: seq<Byte>)
    requires |t| <= |s| && t == s[|s| - |t|..]
    ensures CountLines(t) <= CountLines(s)
  {
    assert s == s[..|s| - |t|] + t;
    CountConcat(s[..|s| - |t|], t);
  }

  lemma LaterCutsCountLess(s: seq<Byte>, i: nat, j: nat)
    requires i < j <= |s| && LineStart(s, j)
    ensures CountLines(s[j..]) < CountLines(s[i..])
  {
    assert s[i..] == s[i..j] + s[j..];
    CountConcat(s[i..j], s[j..]);
    assert s[i..j][|s[i..j]| - 1] == s[j - 1];
  }

  /** There is only one such tail, so trimming is fully determined by its line count. */
  lemma TailIsUnique(t: seq<Byte>, u: seq<Byte>, s: seq<Byte>, n: nat)
    requires IsTail(t, s, n) && IsTail(u, s, n)
    ensures t == u
  {
    var i: nat :| CutAt(t, s, i);
    var j: nat :| CutAt(u, s, j);
    if i < j {
      LaterCutsCountLess(s, i, j);
    } else if j < i {
      LaterCutsCountLess(s, j, i);
    }
  }

  lemma WindowAppend(file: seq<Byte>, history: seq<Byte>, buf: seq<Byte>)
    requires WindowOf(file, history)
    ensures WindowOf(file + buf, history + buf)
  {
    var cut: nat :| CutAt(file, history, cut);
    assert (history + buf)[cut..] == history[cut..] + buf;
    assert CutAt(file + buf, history + buf, cut);
  }

  lemma WindowOfWindow(t: seq<Byte>, file: seq<Byte>, history: seq<Byte>)
    requires WindowOf(t, file) && WindowOf(file, history)
    ensures WindowOf(t, history)
  {
    var i: nat :| CutAt(t, file, i);
    var j: nat :| CutAt(file, history, j);
    assert history[j..][i..] == history[j + i..];
    if i > 0 {
      assert file[i - 1] == history[j + i - 1];
    }
    assert CutAt(t, history, j + i);
  }

  /** A trimmed file keeps the promised lines of any history it is a window of. */
  lemma TrimmedKeepsEnough(t: seq<Byte>, file: seq<Byte>, history: seq<Byte>, maxLines: nat)
    requires WindowOf(file, history) && IsTail(t, file, maxLines)
    ensures WindowOf(t, history) && CountLines(t) >= Min(maxLines, CountLines(history))
  {
    WindowOfWindow(t, file, history);
  }

  lemma CutIsTail(data: seq<Byte>, offset: nat, n: nat)
    requires offset <= |data| && LineStart(data, offset) && CountLines(data[..offset]) + n == CountLines(data)
    ensures IsTail(data[offset..], data, n)
  {
    assert data == data[..offset] + data[offset..];
    CountConcat(data[..offset], data[offset..]);
    assert CutAt(data[offset..], data, offset);
  }

  lemma AppendKeepsEnough(file: seq<Byte>, history: seq<Byte>, buf: seq<Byte>, maxLines: nat)
    requires WindowOf(file, history) && CountLines(file) >= Min(maxLines, CountLines(history))
    ensures WindowOf(file + buf, history + buf)
    ensures CountLines(file + buf) >= Min(maxLines, CountLines(history + buf))
  {
    CountConcat(file, buf);
    CountConcat(history, buf);
    WindowAppend(file, history, buf);
  }

  /** How far a trim gets. */
  datatype Io = Fine | NoRead | NoWrite | NoRename | NoReopen

  // ---------------------------------------------------------------- counters

  /** One write: the bytes, how many of them the disk takes, and how far a trim gets if one is due. */
  datatype Call = Call(buf: seq<Byte>, taken: nat, io: Io)

  /** The counter, the line ends really in the file, and whether the handle leads to it. */
  datatype Gauge = Gauge(lines: nat, held: nat, attached: bool)

  function Bytes(c: Call): seq<Byte> {
    if c.taken < |c.buf| then c.buf[..c.taken] else c.buf
  }

  predicate TakenWhole(c: Call) {
    c.taken >= |c.buf|
  }

  /** The counter says a trim is due after this write. */
  predicate Trims(g: Gauge, maxLines: nat, c: Call) {
    TakenWhole(c) && maxLines > 0 && g.lines + CountLines(c.buf) > maxLines + TRIM_SLACK
  }

  /** What a write puts into the file. */
  function Grown(g: Gauge, c: Call): nat {
    g.held + if g.attached then CountLines(Bytes(c)) else 0
  }

  /** The write after which the handle no longer leads to the file. */
  predicate Loses(g: Gauge, maxLines: nat, c: Call) {
    && g.attached && Trims(g, maxLines, c)
    && g.held + CountLines(c.buf) > maxLines
    && c.io == NoReopen
  }

  function TrimGauge(g: Gauge, maxLines: nat, io: Io): Gauge {
    if io == NoRead then g
    else if g.held <= maxLines then g.(lines := g.held)
    else if io == Fine then Gauge(maxLines, maxLines, true)
    else if io == NoReopen then Gauge(g.lines, maxLines, false)
    else g
  }

  /** The counters after one write. */
  function AfterCall(g: Gauge, maxLines: nat, c: Call): Gauge {
    var grown := g.(held := Grown(g, c));
    if !TakenWhole(c) || maxLines == 0 then grown
    else
      var counted := grown.(lines := g.lines + CountLines(c.buf));
      if Trims(g, maxLines, c) then TrimGauge(counted, maxLines, c.io) else counted
  }

  /** The write reports success. */
  predicate Succeeds(g: Gauge, maxLines: nat, c: Call) {
    && TakenWhole(c)
    && (Trims(g, maxLines, c) ==> c.io == Fine || (c.io != NoRead && Grown(g, c) <= maxLines))
  }

  /** The bytes the disk takes are the first of those it is given. */
  lemma TakenExactly(c: Call)
    ensures |Bytes(c)| == Min(c.taken, |c.buf|) && Bytes(c) <= c.buf
  {
  }

  /**
   * One write, case by case. A write the disk does not take whole is an error
   * and leaves the counter alone; without retention the counter is never moved.
   * Otherwise the counter goes up by the line ends written, and a trim is due
   * past the limit and 200 more. The trim then goes by what is really in the
   * file, `there`: no more than the limit is only recounted; else the limit is
   * kept, unless a step of the rewrite fails, and a failed reopen alone detaches
   * the handle.
   */
  lemma WriteExactly(g: Gauge, maxLines: nat, c: Call)
    ensures
      var more := |LineEnds(c.buf)|;
      var there := g.held + if g.attached then |LineEnds(c.buf[..Min(c.taken, |c.buf|)])| else 0;
      var after, ok := AfterCall(g, maxLines, c), Succeeds(g, maxLines, c);
      if c.taken < |c.buf| || maxLines == 0 then
        after == Gauge(g.lines, there, g.attached) && (ok <==> c.taken >= |c.buf|)
      else if g.lines + more <= maxLines + 200 then
        after == Gauge(g.lines + more, there, g.attached) && ok
      else match c.io
        case NoRead => after == Gauge(g.lines + more, there, g.attached) && !ok
        case Fine => ok && if there <= maxLines then after == Gauge(there, there, g.attached) else after == Gauge(maxLines, maxLines, true)
        case NoReopen =>
          if there <= maxLines then ok && after == Gauge(there, there, g.attached)
          else !ok && after == Gauge(g.lines + more, maxLines, false)
        case _ =>
          if there <= maxLines then ok && after == Gauge(there, there, g.attached)
          else !ok && after == Gauge(g.lines + more, there, g.attached)
  {
    CountIsCardinality(c.buf);
    CountIsCardinality(Bytes(c));
    TakenExactly(c);
    assert c.buf[..Min(c.taken, |c.buf|)] == Bytes(c);
  }

  function Feed(g: Gauge, maxLines: nat, calls: seq<Call>): Gauge {
    if calls == [] then g else AfterCall(Feed(g, maxLines, calls[..|calls| - 1]), maxLines, calls[|calls| - 1])
  }

  /** The bytes of a run of writes that reach the file. */
  function Reaching(g: Gauge, maxLines: nat, calls: seq<Call>): seq<Byte> {
    if calls == [] then []
    else
      var front := calls[..|calls| - 1];
      Reaching(g, maxLines, front) + if Feed(g, maxLines, front).attached then Bytes(calls[|calls| - 1]) else []
  }

  function AllBytes(calls: seq<Call>): seq<Byte> {
    if calls == [] then [] else AllBytes(calls[..|calls| - 1]) + Bytes(calls[|calls| - 1])
  }

  ghost predicate NoneLoses(g: Gauge, maxLines: nat, calls: seq<Call>) {
    forall k {:trigger calls[k]} :: 0 <= k < |calls| ==> !Loses(Feed(g, maxLines, calls[..k]), maxLines, calls[k])
  }

  /** Detached, with exactly the trimmed lines in the file, is where a log stays. */
  predicate Stuck(g: Gauge, maxLines: nat) {
    !g.attached && g.held == maxLines
  }

  lemma StuckStays(g: Gauge, maxLines: nat, c: Call)
    requires Stuck(g, maxLines)
    ensures Stuck(AfterCall(g, maxLines, c), maxLines)
  {
  }

  lemma LosingDetaches(g: Gauge, maxLines: nat, c: Call)
    requires g.attached
    ensures AfterCall(g, maxLines, c).attached <==> !Loses(g, maxLines, c)
    ensures Loses(g, maxLines, c) ==> Stuck(AfterCall(g, maxLines, c), maxLines)
  {
  }

  lemma NoneLosesSnoc(g: Gauge, maxLines: nat, calls: seq<Call>)
    requires calls != []
    ensures
      var front := calls[..|calls| - 1];
      NoneLoses(g, maxLines, calls) <==>
      NoneLoses(g, maxLines, front) && !Loses(Feed(g, maxLines, front), maxLines, calls[|calls| - 1])
  {
    var front := calls[..|calls| - 1];
    assert forall k :: 0 <= k < |front| ==> calls[..k] == front[..k] && calls[k] == front[k];
    if NoneLoses(g, maxLines, calls) {
      forall k | 0 <= k < |front| ensures !Loses(Feed(g, maxLines, front[..k]), maxLines, front[k]) {
        assert calls[k] == front[k];
      }
      assert !Loses(Feed(g, maxLines, calls[..|front|]), maxLines, calls[|front|]);
    }
  }

  /** The handle is lost by a write that loses it, and by nothing else. */
  lemma {:induction false} LostExactlyWhen(g: Gauge, maxLines: nat, calls: seq<Call>)
    requires g.attached
    ensures Feed(g, maxLines, calls).attached <==> NoneLoses(g, maxLines, calls)
    ensures !Feed(g, maxLines, calls).attached ==> Stuck(Feed(g, maxLines, calls), maxLines)
  {
    if calls != [] {
      var front, last := calls[..|calls| - 1], calls[|calls| - 1];
      LostExactlyWhen(g, maxLines, front);
      NoneLosesSnoc(g, maxLines, calls);
      if Feed(g, maxLines, front).attached {
        LosingDetaches(Feed(g, maxLines, front), maxLines, last);
      } else {
        StuckStays(Feed(g, maxLines, front), maxLines, last);
      }
    }
  }

  /** Everything taken reaches the file as long as no earlier write loses the handle. */
  lemma {:induction false} AllReachesWhile(g: Gauge, maxLines: nat, calls: seq<Call>)
    requires g.attached && calls != [] && NoneLoses(g, maxLines, calls[..|calls| - 1])
    ensures Reaching(g, maxLines, calls) == AllBytes(calls)
  {
    var front := calls[..|calls| - 1];
    LostExactlyWhen(g, maxLines, front);
    if front != [] {
      NoneLosesSnoc(g, maxLines, front);
      AllReachesWhile(g, maxLines, front);
    }
  }

  /** After the write that loses the handle nothing reaches the file, whatever is written and however that fares. */
  lemma {:induction false} NothingReachesAfter(g: Gauge, maxLines: nat, calls: seq<Call>, k: nat)
    requires g.attached && k < |calls| && Loses(Feed(g, maxLines, calls[..k]), maxLines, calls[k])
    ensures Reaching(g, maxLines, calls) == Reaching(g, maxLines, calls[..k + 1])
  {
    var front := calls[..|calls| - 1];
    if k == |front| {
      assert calls[..k + 1] == calls;
    } else {
      assert front[..k] == calls[..k] && front[..k + 1] == calls[..k + 1];
      LostExactlyWhen(g, maxLines, front);
      assert !NoneLoses(g, maxLines, front);
      NothingReachesAfter(g, maxLines, front, k);
    }
  }

  // ---------------------------------------------------------------- the object

  class LogFile {
    var file: seq<Byte>
    /** Whether the open handle still leads to `file`; a rename whose reopen failed leaves it on the unlinked old one. */
    var attached: bool
    var lines: nat
    const maxLines: nat
    /** Everything that ever reached the file: what was found at open, then what was written to it. */
    ghost var history: seq<Byte>

    /** What holds whatever fails. */
    ghost predicate Valid()
      reads this
    {
      && WindowOf(file, history)
      && (maxLines == 0 ==> file == history && attached)
      && (maxLines > 0 ==> CountLines(file) >= Min(maxLines, CountLines(history)))
      && (!attached ==> CountLines(file) == maxLines)
    }

    function Counters(): Gauge
      reads this
    {
      Gauge(lines, CountLines(file), attached)
    }

    /** The retention promise; nothing is promised about `lines` when retention is off. */
    ghost predicate Sound()
      reads this
    {
      && Valid() && attached
      && (maxLines > 0 ==> lines == CountLines(file) <= maxLines + TRIM_SLACK)
    }

    /** The state before an overlong file is trimmed; a file that cannot be read counts as empty. */
    constructor (found: seq<Byte>, maxLines: nat, readable: bool)
      ensures Valid() && attached && this.maxLines == maxLines && history == file == found
      ensures lines == if maxLines > 0 && readable then CountLines(found) else 0
    {
      file, attached, history := found, true, found;
      this.maxLines := maxLines;
      lines := if maxLines > 0 && readable then CountLines(found) else 0;
      new;
      assert found[0..] == found;
      assert CutAt(found, found, 0);
    }

    static method Open(found: seq<Byte>, maxLines: nat, openable: bool, readable: bool, io: Io) returns (r: Result<LogFile>)
      ensures r.Failure? <==> !openable || (maxLines > 0 && readable && CountLines(found) > maxLines && io != Fine)
      ensures r.Success? ==>
                && fresh(r.value) && r.value.Valid() && r.value.attached
                && r.value.maxLines == maxLines && r.value.history == found
                && (readable ==> r.value.Sound())
                && if maxLines > 0 && readable && CountLines(found) > maxLines then IsTail(r.value.file, found, maxLines)
                   else r.value.file == found
    {
      if !openable {
        return Failure("cannot open the log file");
      }
      var log := new LogFile(found, maxLines, readable);
      if maxLines > 0 && log.lines > maxLines {
        var ok := log.Trim(io);
        if !ok {
          return Failure("cannot trim the log file");
        }
      }
      return Success(log);
    }

    /** Count by scanning, as `count_lines` does. */
    method Count(buf: seq<Byte>) returns (n: nat)
      ensures n == CountLines(buf)
    {
      n := 0;
      for i := 0 to |buf|
        invariant n == CountLines(buf[..i])
      {
        assert buf[..i + 1][..i] == buf[..i];
        if buf[i] == NEWLINE {
          n := n + 1;
        }
      }
      assert buf[..|buf|] == buf;
    }

    /** Where the line after the first `count` lines starts. */
    static method SkipLines(data: seq<Byte>, count: nat) returns (offset: nat)
      requires 0 < count <= CountLines(data)
      ensures offset <= |data| && LineStart(data, offset) && CountLines(data[..offset]) == count
    {
      var skip := count;
      offset := 0;
      var i := 0;
      assert data[..0] == [] && data[..|data|] == data;
      while i < |data|
        invariant 0 <= i <= |data|
        invariant skip > 0 && offset == 0
        invariant CountLines(data[..i]) + skip == count
      {
        assert data[..i + 1][..i] == data[..i];
        if data[i] == NEWLINE {
          skip := skip - 1;
          if skip == 0 {
            offset := i + 1;
            return;
          }
        }
        i := i + 1;
      }
    }

    /**
     * Keep the last `maxLines` lines. No assumption about the counter: whatever
     * it claimed before, after a trim that succeeds it is the truth. Failing
     * before the rename leaves the file as it was; failing after it leaves the
     * trimmed file, and the handle on the old one.
     */
    method Trim(io: Io) returns (ok: bool)
      requires Valid() && maxLines > 0
      modifies this`file, this`lines, this`attached
      ensures Valid()
      ensures ok <==> io == Fine || (io != NoRead && CountLines(old(file)) <= maxLines)
      ensures if ok then lines == CountLines(file) <= maxLines else lines == old(lines)
      ensures
        if CountLines(old(file)) > maxLines && (io == Fine || io == NoReopen) then
          IsTail(file, old(file), maxLines) && (attached <==> io == Fine)
        else file == old(file) && attached == old(attached)
    {
      if io == NoRead {
        return false;
      }
      var data := file;
      var total := Count(data);
      if total <= maxLines {
        lines := total;
        return true;
      }
      var offset := SkipLines(data, total - maxLines);
      CutIsTail(data, offset, maxLines);
      ok := Replace(data[offset..], io);
    }

    /** Write the tail aside, rename it over the file, reopen. */
    method Replace(tail: seq<Byte>, io: Io) returns (ok: bool)
      requires Valid() && maxLines > 0 && IsTail(tail, file, maxLines) && io != NoRead
      modifies this`file, this`lines, this`attached
      ensures Valid()
      ensures ok <==> io == Fine
      ensures lines == if ok then maxLines else old(lines)
      ensures
        if io == Fine || io == NoReopen then file == tail && (attached <==> io == Fine)
        else file == old(file) && attached == old(attached)
    {
      if io == NoWrite || io == NoRename {
        return false;
      }
      TrimmedKeepsEnough(tail, file, history, maxLines);
      file, attached := tail, io == Fine;
      if io == NoReopen {
        return false;
      }
      lines := maxLines;
      return true;
    }

    /**
     * Append, and trim once the slack is used up. The disk may take fewer bytes
     * than it is given, which is an error. Without failures the retention promise
     * is kept, and a trim that succeeds restores it after any. The handle is lost
     * exactly when a trim that is due finds too many lines and its reopen fails;
     * it never leads back to the file.
     */
    method Write(c: Call) returns (ok: bool)
      requires Valid()
      modifies this
      ensures Valid()
      ensures Counters() == AfterCall(old(Counters()), maxLines, c)
      ensures ok <==> Succeeds(old(Counters()), maxLines, c)
      ensures history == if old(attached) then old(history) + Bytes(c) else old(history)
      ensures !old(attached) ==> !attached && file == old(file)
      ensures old(attached) ==> (!attached <==> Loses(old(Counters()), maxLines, c))
      ensures old(attached) ==> file == old(file) + Bytes(c) || IsTail(file, old(file) + Bytes(c), maxLines)
      ensures old(Sound()) && TakenWhole(c) && c.io == Fine ==> ok && Sound()
      ensures old(Sound()) && TakenWhole(c) && c.io == Fine ==>
                if maxLines > 0 && CountLines(old(file)) + CountLines(c.buf) > maxLines + 200 then
                  IsTail(file, old(file) + c.buf, maxLines)
                else file == old(file) + c.buf
      ensures ok && attached && Trims(old(Counters()), maxLines, c) ==> Sound()
    {
      var appended := Append(c);
      if !appended {
        return false;
      }
      ok := true;
      if maxLines > 0 {
        var more := Count(c.buf);
        lines := lines + more;
        if lines > maxLines + TRIM_SLACK {
          ok := Trim(c.io);
        }
      }
    }

    /** `write_all` through the handle; bytes that go to an unlinked file are gone. */
    method Append(c: Call) returns (whole: bool)
      requires Valid()
      modifies this`file, this`history
      ensures Valid() && (whole <==> TakenWhole(c))
      ensures file == if attached then old(file) + Bytes(c) else old(file)
      ensures history == if attached then old(history) + Bytes(c) else old(history)
      ensures CountLines(file) == Grown(old(Counters()), c)
    {
      if attached {
        AppendKeepsEnough(file, history, Bytes(c), maxLines);
        CountConcat(file, Bytes(c));
        history := history + Bytes(c);
        file := file + Bytes(c);
      }
      return TakenWhole(c);
    }

    /** A run of writes: the counters, and exactly what reached the file. */
    method WriteAll(calls: seq<Call>)
      requires Valid()
      modifies this
      ensures Valid()
      ensures Counters() == Feed(old(Counters()), maxLines, calls)
      ensures history == old(history) + Reaching(old(Counters()), maxLines, calls)
      ensures old(attached) ==> (attached <==> NoneLoses(old(Counters()), maxLines, calls))
      ensures !old(attached) ==> file == old(file)
    {
      ghost var start := Counters();
      for i := 0 to |calls|
        invariant Valid()
        invariant Counters() == Feed(start, maxLines, calls[..i])
        invariant history == old(history) + Reaching(start, maxLines, calls[..i])
        invariant !old(attached) ==> !attached && file == old(file)
      {
        assert calls[..i + 1][..i] == calls[..i];
        ConcatAssociates(old(history), Reaching(start, maxLines, calls[..i]), Bytes(calls[i]));
        var _ := Write(calls[i]);
      }
      assert calls[..|calls|] == calls;
      if start.attached {
        LostExactlyWhen(start, maxLines, calls);
      }
    }
  }

  function NewLines(n: nat): seq<Byte> {
    if n == 0 then [] else NewLines(n - 1) + [NEWLINE]
  }

  lemma {:induction false} NewLinesCount(n: nat)
    ensures CountLines(NewLines(n)) == |NewLines(n)| == n
  {
    if n > 0 {
      NewLinesCount(n - 1);
      assert NewLines(n)[..n - 1] == NewLines(n - 1);
    }
  }

  /**
   * A log that is to keep one line takes one line too many past the slack, and
   * the reopen after the trim fails. Whatever is written next reports success
   * and leaves the file as it was.
   */
  method WriteAfterALostReopen(next: seq<Byte>) returns (before: seq<Byte>, ok: bool, after: seq<Byte>)
    ensures ok && after == before && |before| > 0
  {
    var started := LogFile.Open([], 1, true, true, Fine);
    var log := started.value;
    NewLinesCount(TRIM_SLACK + 2);
    var first := Call(NewLines(TRIM_SLACK + 2), TRIM_SLACK + 2, NoReopen);
    assert Bytes(first) == first.buf;
    var trimmed := log.Write(first);
    before := log.file;
    ok := log.Write(Call(next, |next|, Fine));
    after := log.file;
  }

  // ---------------------------------------------------------------- the same, as a function of the writes

  /** The file after opening on `found` and writing `bufs` in order. */
  ghost predicate Retained(found: seq<Byte>, bufs: seq<seq<Byte>>, maxLines: nat, file: seq<Byte>) {
    if bufs == [] then
      if maxLines > 0 && CountLines(found) > maxLines then IsTail(file, found, maxLines) else file == found
    else
      var before, buf := bufs[..|bufs| - 1], bufs[|bufs| - 1];
      exists f :: Retained(found, before, maxLines, f) &&
        if maxLines > 0 && CountLines(f) + CountLines(buf) > maxLines + TRIM_SLACK then IsTail(file, f + buf, maxLines) else file == f + buf
  }

  function Joined(found: seq<Byte>, bufs: seq<seq<Byte>>): seq<Byte> {
    if bufs == [] then found else Joined(found, bufs[..|bufs| - 1]) + bufs[|bufs| - 1]
  }

  /** Everything logged is what was found, and then what was written. */
  lemma {:induction false} JoinedExactly(found: seq<Byte>, bufs: seq<seq<Byte>>)
    ensures Joined(found, bufs) == found + Flatten(bufs)
  {
    if bufs != [] {
      JoinedExactly(found, bufs[..|bufs| - 1]);
      ConcatAssociates(found, Flatten(bufs[..|bufs| - 1]), bufs[|bufs| - 1]);
    }
  }

  /** One write keeps the window and its bounds. */
  lemma RetentionStep(f: seq<Byte>, history: seq<Byte>, buf: seq<Byte>, maxLines: nat, file: seq<Byte>)
    requires WindowOf(f, history) && Min(maxLines, CountLines(history)) <= CountLines(f) <= maxLines + TRIM_SLACK
    requires if CountLines(f) + CountLines(buf) > maxLines + TRIM_SLACK then IsTail(file, f + buf, maxLines) else file == f + buf
    ensures WindowOf(file, history + buf)
    ensures Min(maxLines, CountLines(history + buf)) <= CountLines(file) <= maxLines + TRIM_SLACK
  {
    CountConcat(f, buf);
    CountConcat(history, buf);
    WindowAppend(f, history, buf);
    if file != f + buf {
      WindowOfWindow(file, f + buf, history + buf);
    }
  }

  /**
   * Over any sequence of writes the file is a line-aligned tail of everything
   * ever logged, never longer than the limit plus the slack and never shorter
   * than the limit or the whole history, whichever is less.
   */
  lemma {:induction false} RetentionHolds(found: seq<Byte>, bufs: seq<seq<Byte>>, maxLines: nat, file: seq<Byte>)
    requires maxLines > 0 && Retained(found, bufs, maxLines, file)
    ensures WindowOf(file, Joined(found, bufs))
    ensures Min(maxLines, CountLines(Joined(found, bufs))) <= CountLines(file) <= maxLines + TRIM_SLACK
  {
    if bufs == [] {
      if CountLines(found) <= maxLines {
        assert found[0..] == found;
        assert CutAt(found, found, 0);
      }
    } else {
      var before, buf := bufs[..|bufs| - 1], bufs[|bufs| - 1];
      var f :| Retained(found, before, maxLines, f) &&
        if maxLines > 0 && CountLines(f) + CountLines(buf) > maxLines + TRIM_SLACK then IsTail(file, f + buf, maxLines) else file == f + buf;
      RetentionHolds(found, before, maxLines, f);
      RetentionStep(f, Joined(found, before), buf, maxLines, file);
    }
  }

  /** The same by bytes: the file is the end of all that was logged, from just behind a line end or from the start. */
  lemma RetainedExactly(found: seq<Byte>, bufs: seq<seq<Byte>>, maxLines: nat, file: seq<Byte>)
    requires maxLines > 0 && Retained(found, bufs, maxLines, file)
    ensures
      var all := found + Flatten(bufs);
      && |file| <= |all| && file == all[|all| - |file|..]
      && (|file| == |all| || all[|all| - |file| - 1] == 10)
      && |LineEnds(file)| <= maxLines + 200
      && (|LineEnds(file)| >= maxLines || |LineEnds(file)| == |LineEnds(all)|)
  {
    JoinedExactly(found, bufs);
    RetentionHolds(found, bufs, maxLines, file);
    BoundedTail(file, Joined(found, bufs), maxLines);
  }

  lemma BoundedTail(file: seq<Byte>, all: seq<Byte>, maxLines: nat)
    requires WindowOf(file, all) && Min(maxLines, CountLines(all)) <= CountLines(file) <= maxLines + TRIM_SLACK
    ensures |file| <= |all| && file == all[|all| - |file|..]
    ensures |file| == |all| || all[|all| - |file| - 1] == 10
    ensures |LineEnds(file)| <= maxLines + 200
    ensures |LineEnds(file)| >= maxLines || |LineEnds(file)| == |LineEnds(all)|
  {
    TailExactly(file, all, CountLines(file));
    CountIsCardinality(file);
    CountIsCardinality(all);
    TailCountsNoMore(file, all);
  }

  /** Driving the object with a list of writes realises `Retained`. */
  method Log(found: seq<Byte>, bufs: seq<seq<Byte>>, maxLines: nat) returns (file: seq<Byte>)
    ensures Retained(found, bufs, maxLines, file)
    ensures maxLines == 0 ==> file == Joined(found, bufs)
  {
    var started := LogFile.Open(found, maxLines, true, true, Fine);
    var log := started.value;
    for i := 0 to |bufs|
      invariant log.Sound() && log.maxLines == maxLines
      invariant log.history == Joined(found, bufs[..i])
      invariant Retained(found, bufs[..i], maxLines, log.file)
    {
      assert bufs[..i + 1][..i] == bufs[..i] && bufs[i][..|bufs[i]|] == bufs[i];
      var _ := log.Write(Call(bufs[i], |bufs[i]|, Fine));
    }
    assert bufs[..|bufs|] == bufs;
    file := log.file;
  }
}
