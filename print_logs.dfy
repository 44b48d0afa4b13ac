/** The log readers: `print_logs` (and the `main` of the stand-alone script,
    which does the same) and `logs_to_list`. Both walk log.txt from its last
    line backwards and stop at the first line that is too old. */
module PrintLogs {

  /** Microseconds since 0001-01-01 00:00, the instant a `datetime` stands
      for. */
  type Instant = int

  /** One line of log.txt: `date` is its first tab-separated field parsed
      with DATE_FORMAT, `text` the line as read, without its line break. */
  datatype LogLine = LogLine(date: Instant, text: string)

  /** The lines in the order FileReadBackwards yields them: the last line
      of the file first. */
  function Backwards(log: seq<LogLine>): (r: seq<LogLine>)
    ensures |r| == |log|
  {
    seq(|log|, i requires 0 <= i < |log| => log[|log| - 1 - i])
  }

  /** Reading backwards twice gives the file order again. */
  lemma BackwardsTwice(log: seq<LogLine>)
    ensures Backwards(Backwards(log)) == log
  {
    var b := Backwards(Backwards(log));
    forall i | 0 <= i < |log|
      ensures b[i] == log[i]
    {
      assert Backwards(log)[|log| - 1 - i] == log[i];
    }
  }

  /** Appending lines to the file puts them at the head of the backwards
      stream: the newest lines come first. */
  lemma BackwardsAppend(log: seq<LogLine>, more: seq<LogLine>)
    ensures Backwards(log + more) == Backwards(more) + Backwards(log)
  {
    var l := log + more;
    var r := Backwards(more) + Backwards(log);
    forall i | 0 <= i < |l|
      ensures Backwards(l)[i] == r[i]
    {
      if i < |more| {
        assert Backwards(more)[i] == more[|more| - 1 - i];
      } else {
        assert Backwards(log)[i - |more|] == log[|log| - 1 - (i - |more|)];
      }
    }
  }

  /** The longest run at the head of `lines` whose dates are strictly after
      `ref`: a prefix, every line of it newer than `ref`, and the line right
      after it (if any) is not. */
  function NewerRun(lines: seq<LogLine>, ref: Instant): (r: seq<LogLine>)
    ensures |r| <= |lines| && r == lines[..|r|]
    ensures forall i :: 0 <= i < |r| ==> r[i].date > ref
    ensures |r| < |lines| ==> lines[|r|].date <= ref
    decreases |lines|
  {
    if lines == [] || lines[0].date <= ref then [] else [lines[0]] + NewerRun(lines[1..], ref)
  }

  /** A prefix of newer lines followed by one that is not is exactly the
      run of newer lines. */
  lemma {:induction false} NewerRunIs(lines: seq<LogLine>, ref: Instant, n: nat)
    requires n <= |lines|
    requires forall k :: 0 <= k < n ==> lines[k].date > ref
    requires n < |lines| ==> lines[n].date <= ref
    ensures NewerRun(lines, ref) == lines[..n]
    decreases n
  {
    if n > 0 {
      assert lines[0].date > ref;
      forall k | 0 <= k < n - 1
        ensures lines[1..][k].date > ref
      {
        assert lines[1..][k] == lines[k + 1];
      }
      NewerRunIs(lines[1..], ref, n - 1);
      assert lines[..n] == [lines[0]] + lines[1..][..n - 1];
    }
  }

  /** The texts of `lines`, in order. */
  function Texts(lines: seq<LogLine>): (r: seq<string>)
    ensures |r| == |lines|
  {
    seq(|lines|, i requires 0 <= i < |lines| => lines[i].text)
  }

  /** `print_logs(from_date)` and the stand-alone script's `main`: prints,
      newest first, each line dated strictly after `fromDate` and returns at
      the first line that is not. The printed lines are returned here. */
  method PrintLogs(log: seq<LogLine>, fromDate: Instant) returns (printed: seq<string>)
    ensures printed == Texts(NewerRun(Backwards(log), fromDate))
  {
    ghost var b := Backwards(log);
    printed := [];
    var i := 0;
    while i < |log|
      invariant 0 <= i <= |log|
      invariant forall k :: 0 <= k < i ==> b[k].date > fromDate
      invariant printed == Texts(b[..i])
    {
      var line := log[|log| - 1 - i];
      assert line == b[i];
      if line.date > fromDate {
        printed := printed + [line.text];
        assert Texts(b[..i + 1]) == Texts(b[..i]) + [line.text];
      } else {
        NewerRunIs(b, fromDate, i);
        return;
      }
      i := i + 1;
    }
    NewerRunIs(b, fromDate, i);
    assert b[..i] == b;
  }

  /** The lines `logs_to_list` looks at, from position `i` of the backwards
      stream `rev` on: those whose position is a multiple of `subsample`.
      Python's `%` floors and Dafny's is Euclidean, but the remainder is 0
      for exactly the same positions. */
  function Considered(rev: seq<LogLine>, subsample: int, i: nat): seq<LogLine>
    requires subsample != 0 || i >= |rev|
    decreases |rev| - i
  {
    if i >= |rev| then []
    else (if i % subsample == 0 then [rev[i]] else []) + Considered(rev, subsample, i + 1)
  }

  /** With `subsample` 1 every line is looked at. */
  lemma {:induction false} ConsideredAll(rev: seq<LogLine>, i: nat)
    requires i <= |rev|
    ensures Considered(rev, 1, i) == rev[i..]
    decreases |rev| - i
  {
    if i < |rev| {
      ConsideredAll(rev, i + 1);
      assert rev[i..] == [rev[i]] + rev[i + 1..];
    }
  }

  /** A line is looked at exactly when it stands at a position, from `i`
      on, that is a multiple of `subsample`. */
  lemma {:induction false} ConsideredMembers(rev: seq<LogLine>, subsample: int, i: nat, x: LogLine)
    requires subsample != 0
    ensures x in Considered(rev, subsample, i) <==>
            exists j :: i <= j < |rev| && j % subsample == 0 && rev[j] == x
    decreases |rev| - i
  {
    if i < |rev| {
      ConsideredMembers(rev, subsample, i + 1, x);
      if x in Considered(rev, subsample, i + 1) {
        var j :| i + 1 <= j < |rev| && j % subsample == 0 && rev[j] == x;
        assert i <= j;
      }
      if i % subsample == 0 && rev[i] == x {
        assert x in Considered(rev, subsample, i);
      }
    }
  }

  /** What `logs_to_list` collects from the lines it looks at: it returns at
      the first one dated before `fromDate` and keeps those dated before
      `toDate`. */
  function Kept(cons: seq<LogLine>, fromDate: Instant, toDate: Instant): (r: seq<LogLine>)
    ensures forall k :: 0 <= k < |r| ==> fromDate <= r[k].date < toDate
    decreases |cons|
  {
    if cons == [] || cons[0].date < fromDate then []
    else (if cons[0].date < toDate then [cons[0]] else []) + Kept(cons[1..], fromDate, toDate)
  }

  /** The lines dated before `toDate`, in order. */
  function Before(lines: seq<LogLine>, toDate: Instant): (r: seq<LogLine>)
    decreases |lines|
  {
    if lines == [] then []
    else (if lines[0].date < toDate then [lines[0]] else []) + Before(lines[1..], toDate)
  }

  /** A line is kept exactly when it is dated before `toDate`. */
  lemma {:induction false} BeforeMembers(lines: seq<LogLine>, toDate: Instant, x: LogLine)
    ensures x in Before(lines, toDate) <==> x in lines && x.date < toDate
    decreases |lines|
  {
    if lines != [] {
      BeforeMembers(lines[1..], toDate, x);
      assert lines == [lines[0]] + lines[1..];
    }
  }

  /** `logs_to_list` keeps, in order, the lines dated before `toDate` out of
      the run of lines at the head not dated before `fromDate` (on integer
      instants, "not before `fromDate`" is "after `fromDate - 1`"). */
  lemma {:induction false} KeptIsWindow(cons: seq<LogLine>, fromDate: Instant, toDate: Instant)
    ensures Kept(cons, fromDate, toDate) == Before(NewerRun(cons, fromDate - 1), toDate)
    decreases |cons|
  {
    if cons != [] && cons[0].date >= fromDate {
      KeptIsWindow(cons[1..], fromDate, toDate);
      var run := NewerRun(cons, fromDate - 1);
      assert run == [cons[0]] + NewerRun(cons[1..], fromDate - 1);
      assert run[1..] == NewerRun(cons[1..], fromDate - 1);
    }
  }

  /** Whether some line looked at is dated before `fromDate`, which is what
      makes `logs_to_list` reach its `return`. */
  predicate StopsEarly(cons: seq<LogLine>, fromDate: Instant) {
    exists k :: 0 <= k < |cons| && cons[k].date < fromDate
  }

  /** What a Python call of `logs_to_list` ends with. */
  datatype Listing = Lines(lines: seq<LogLine>) | NoneValue | ZeroDivisionError

  /** `logs_to_list` as written: a `subsample` of 0 raises at the first
      line; otherwise the list is returned only when the loop reaches a
      line dated before `fromDate`, and falling off the end of the loop
      returns `None`. */
  function ListedAsWritten(rev: seq<LogLine>, fromDate: Instant, toDate: Instant, subsample: int): Listing {
    if subsample == 0 && rev != [] then ZeroDivisionError
    else if StopsEarly(Considered(rev, subsample, 0), fromDate) then Lines(Kept(Considered(rev, subsample, 0), fromDate, toDate))
    else NoneValue
  }

  /** `logs_to_list` as evidently intended: the collected list whether or
      not the loop returns early. */
  function Listed(rev: seq<LogLine>, fromDate: Instant, toDate: Instant, subsample: int): (r: Listing)
    ensures r != NoneValue
    ensures r.Lines? ==> forall k :: 0 <= k < |r.lines| ==> fromDate <= r.lines[k].date < toDate
  {
    if subsample == 0 && rev != [] then ZeroDivisionError
    else Lines(Kept(Considered(rev, subsample, 0), fromDate, toDate))
  }

  /** The two agree except where the code as written yields `None`. */
  lemma ListedAgrees(rev: seq<LogLine>, fromDate: Instant, toDate: Instant, subsample: int)
    ensures ListedAsWritten(rev, fromDate, toDate, subsample) != NoneValue ==>
              ListedAsWritten(rev, fromDate, toDate, subsample) == Listed(rev, fromDate, toDate, subsample)
    ensures ListedAsWritten(rev, fromDate, toDate, subsample) == NoneValue <==>
              (subsample != 0 || rev == []) && !StopsEarly(Considered(rev, subsample, 0), fromDate)
  {
  }

  /** A log with one line inside the window and none older: as written,
      `logs_to_list` yields `None` instead of the list holding that line. */
  lemma NoneForYoungLog()
    ensures ListedAsWritten(Backwards([LogLine(10, "l")]), 5, 20, 1) == NoneValue
    ensures Listed(Backwards([LogLine(10, "l")]), 5, 20, 1) == Lines([LogLine(10, "l")])
  {
    var rev := Backwards([LogLine(10, "l")]);
    assert rev == [LogLine(10, "l")];
    assert Considered(rev, 1, 1) == [];
    assert Considered(rev, 1, 0) == [LogLine(10, "l")];
    assert Kept([LogLine(10, "l")], 5, 20) == [LogLine(10, "l")] + Kept([], 5, 20);
  }

  /** One more line of the backwards stream. */
  lemma ConsideredStep(rev: seq<LogLine>, subsample: int, i: nat)
    requires subsample != 0 && i < |rev|
    ensures Considered(rev, subsample, i) ==
            (if i % subsample == 0 then [rev[i]] else []) + Considered(rev, subsample, i + 1)
  {
  }

  /** Collecting from a line that is not older than `fromDate`, then from
      the rest. */
  lemma KeptCons(x: LogLine, rest: seq<LogLine>, fromDate: Instant, toDate: Instant)
    requires x.date >= fromDate
    ensures Kept([x] + rest, fromDate, toDate) == (if x.date < toDate then [x] else []) + Kept(rest, fromDate, toDate)
    ensures StopsEarly([x] + rest, fromDate) <==> StopsEarly(rest, fromDate)
  {
    assert ([x] + rest)[1..] == rest;
    if StopsEarly([x] + rest, fromDate) {
      var k :| 0 <= k < |[x] + rest| && ([x] + rest)[k].date < fromDate;
      assert rest[k - 1] == ([x] + rest)[k];
    }
    if StopsEarly(rest, fromDate) {
      var k :| 0 <= k < |rest| && rest[k].date < fromDate;
      assert ([x] + rest)[k + 1] == rest[k];
    }
  }

  /** The step of the loop at position `i` of the backwards stream, for a
      line that is looked at and not older than `fromDate`. */
  lemma CollectStep(rev: seq<LogLine>, fromDate: Instant, toDate: Instant, subsample: int, i: nat, lines: seq<LogLine>)
    requires subsample != 0 && i < |rev|
    requires Kept(Considered(rev, subsample, 0), fromDate, toDate) == lines + Kept(Considered(rev, subsample, i), fromDate, toDate)
    requires i % subsample == 0 && rev[i].date >= fromDate
    ensures rev[i].date < toDate ==>
              Kept(Considered(rev, subsample, 0), fromDate, toDate) == (lines + [rev[i]]) + Kept(Considered(rev, subsample, i + 1), fromDate, toDate)
    ensures rev[i].date >= toDate ==>
              Kept(Considered(rev, subsample, 0), fromDate, toDate) == lines + Kept(Considered(rev, subsample, i + 1), fromDate, toDate)
  {
    ConsideredStep(rev, subsample, i);
    KeptCons(rev[i], Considered(rev, subsample, i + 1), fromDate, toDate);
    if rev[i].date >= toDate {
      assert [] + Kept(Considered(rev, subsample, i + 1), fromDate, toDate) == Kept(Considered(rev, subsample, i + 1), fromDate, toDate);
    }
  }

  /** A line that is looked at and not older than `fromDate` does not stop
      the loop. */
  lemma PassStep(rev: seq<LogLine>, fromDate: Instant, subsample: int, i: nat)
    requires subsample != 0 && i < |rev|
    requires i % subsample == 0 && rev[i].date >= fromDate
    ensures StopsEarly(Considered(rev, subsample, i), fromDate) <==> StopsEarly(Considered(rev, subsample, i + 1), fromDate)
  {
    ConsideredStep(rev, subsample, i);
    KeptCons(rev[i], Considered(rev, subsample, i + 1), fromDate, fromDate);
  }

  /** The step at a line that is looked at and older than `fromDate`: the
      collection is complete, and the lines from here on hold an older
      one. */
  lemma StopStep(rev: seq<LogLine>, fromDate: Instant, toDate: Instant, subsample: int, i: nat, lines: seq<LogLine>)
    requires subsample != 0 && i < |rev|
    requires Kept(Considered(rev, subsample, 0), fromDate, toDate) == lines + Kept(Considered(rev, subsample, i), fromDate, toDate)
    requires i % subsample == 0 && rev[i].date < fromDate
    ensures Kept(Considered(rev, subsample, 0), fromDate, toDate) == lines
    ensures StopsEarly(Considered(rev, subsample, i), fromDate)
  {
    ConsideredStep(rev, subsample, i);
    var c := Considered(rev, subsample, i);
    assert c[0] == rev[i];
    assert lines + [] == lines;
  }

  /** The step at a line skipped by subsampling: nothing changes. */
  lemma SkipStep(rev: seq<LogLine>, subsample: int, i: nat)
    requires subsample != 0 && i < |rev| && i % subsample != 0
    ensures Considered(rev, subsample, i) == Considered(rev, subsample, i + 1)
  {
    ConsideredStep(rev, subsample, i);
    assert [] + Considered(rev, subsample, i + 1) == Considered(rev, subsample, i + 1);
  }

  /** `logs_to_list(from_date, to_date, subsample)` as written. */
  method LogsToListAsWritten(log: seq<LogLine>, fromDate: Instant, toDate: Instant, subsample: int) returns (r: Listing)
    ensures r == ListedAsWritten(Backwards(log), fromDate, toDate, subsample)
  {
    ghost var rev := Backwards(log);
    var lines := [];
    var i := 0;
    while i < |log|
      invariant 0 <= i <= |log| && (subsample != 0 || (i == 0 && lines == []))
      invariant subsample != 0 ==>
                  Kept(Considered(rev, subsample, 0), fromDate, toDate) == lines + Kept(Considered(rev, subsample, i), fromDate, toDate)
      invariant subsample != 0 ==>
                  (StopsEarly(Considered(rev, subsample, 0), fromDate) <==> StopsEarly(Considered(rev, subsample, i), fromDate))
    {
      var line := log[|log| - 1 - i];
      assert line == rev[i];
      if subsample == 0 {
        return ZeroDivisionError;
      }
      if i % subsample != 0 {
        SkipStep(rev, subsample, i);
        i := i + 1;
        continue;
      }
      if line.date < fromDate {
        StopStep(rev, fromDate, toDate, subsample, i, lines);
        return Lines(lines);
      }
      CollectStep(rev, fromDate, toDate, subsample, i, lines);
      PassStep(rev, fromDate, subsample, i);
      if line.date < toDate {
        lines := lines + [line];
      }
      i := i + 1;
    }
    assert Considered(rev, subsample, i) == [] && !StopsEarly([], fromDate);
    r := NoneValue;
  }

  /** `logs_to_list` with the list returned also when the loop runs to the
      end of the file. */
  method LogsToList(log: seq<LogLine>, fromDate: Instant, toDate: Instant, subsample: int) returns (r: Listing)
    ensures r == Listed(Backwards(log), fromDate, toDate, subsample)
  {
    ghost var rev := Backwards(log);
    var lines := [];
    var i := 0;
    while i < |log|
      invariant 0 <= i <= |log| && (subsample != 0 || (i == 0 && lines == []))
      invariant subsample != 0 ==>
                  Kept(Considered(rev, subsample, 0), fromDate, toDate) == lines + Kept(Considered(rev, subsample, i), fromDate, toDate)
    {
      var line := log[|log| - 1 - i];
      assert line == rev[i];
      if subsample == 0 {
        return ZeroDivisionError;
      }
      if i % subsample != 0 {
        SkipStep(rev, subsample, i);
        i := i + 1;
        continue;
      }
      if line.date < fromDate {
        StopStep(rev, fromDate, toDate, subsample, i, lines);
        return Lines(lines);
      }
      CollectStep(rev, fromDate, toDate, subsample, i, lines);
      if line.date < toDate {
        lines := lines + [line];
      }
      i := i + 1;
    }
    assert Considered(rev, subsample, i) == [];
    assert lines + [] == lines;
    r := Lines(lines);
  }
}
