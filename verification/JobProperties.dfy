/** What every session at the prompt guarantees, whatever the children do and whenever they do it. */
module JobProperties {
  import opened CStrings
  import opened PipeReader
  import opened Jobs
  import Tokenizer

  // ---- one pass ----

  /** The alerts of a pass over the first n jobs. */
  function NewAlerts(jobs: seq<Job>, waits: seq<Wait>, n: nat): seq<Alert>
    requires n <= |jobs|
  {
    if n == 0 then
      []
    else
      NewAlerts(jobs, waits, n - 1) +
      if Finishes(jobs[n - 1], At(waits, n - 1))
      then [Alert(n - 1, jobs[n - 1].pid, At(waits, n - 1).status)] else []
  }

  lemma {:induction false} UpdateUpToIs(s: Shell, waits: seq<Wait>, n: nat)
    requires n <= |s.jobs|
    ensures var t := UpdateUpTo(s, waits, n);
            && |t.jobs| == |s.jobs|
            && (forall k :: 0 <= k < |s.jobs| ==>
                  t.jobs[k] == if k < n then Updated(s.jobs[k], At(waits, k)) else s.jobs[k])
            && t.alerts == s.alerts + NewAlerts(s.jobs, waits, n)
  {
    if n > 0 {
      UpdateUpToIs(s, waits, n - 1);
    }
  }

  lemma HasAlertStays(alerts: seq<Alert>, more: seq<Alert>, k: nat)
    requires HasAlert(alerts, k) && alerts <= more
    ensures HasAlert(more, k)
  {
    var i :| 0 <= i < |alerts| && alerts[i].job == k;
    assert more[i].job == k;
  }

  /** The alerts are in increasing order, for jobs among the first n, which the pass finds to have finished. */
  ghost predicate TrueAlerts(r: seq<Alert>, jobs: seq<Job>, waits: seq<Wait>, n: nat)
    requires n <= |jobs|
  {
    && (forall i :: 0 <= i < |r| ==> r[i].job < n)
    && (forall i :: 0 <= i < |r| ==> Finishes(jobs[r[i].job], At(waits, r[i].job)))
    && (forall i, j :: 0 <= i < j < |r| ==> r[i].job < r[j].job)
  }

  lemma TrueAlertsGrow(r: seq<Alert>, jobs: seq<Job>, waits: seq<Wait>, n: nat, a: Alert)
    requires n < |jobs| && TrueAlerts(r, jobs, waits, n) && a.job == n && Finishes(jobs[n], At(waits, n))
    ensures TrueAlerts(r + [a], jobs, waits, n + 1)
  {
  }

  lemma {:induction false} NewAlertsAreTrue(jobs: seq<Job>, waits: seq<Wait>, n: nat)
    requires n <= |jobs|
    ensures TrueAlerts(NewAlerts(jobs, waits, n), jobs, waits, n)
  {
    if n > 0 {
      NewAlertsAreTrue(jobs, waits, n - 1);
      var fewer := NewAlerts(jobs, waits, n - 1);
      if Finishes(jobs[n - 1], At(waits, n - 1)) {
        TrueAlertsGrow(fewer, jobs, waits, n - 1, Alert(n - 1, jobs[n - 1].pid, At(waits, n - 1).status));
      } else {
        assert NewAlerts(jobs, waits, n) == fewer;
      }
    }
  }

  lemma {:induction false} NewAlertFor(jobs: seq<Job>, waits: seq<Wait>, n: nat, k: nat)
    requires k < n <= |jobs| && Finishes(jobs[k], At(waits, k))
    ensures HasAlert(NewAlerts(jobs, waits, n), k)
  {
    var fewer, r := NewAlerts(jobs, waits, n - 1), NewAlerts(jobs, waits, n);
    if k < n - 1 {
      NewAlertFor(jobs, waits, n - 1, k);
      HasAlertStays(fewer, r, k);
    } else {
      assert r[|fewer|].job == k;
    }
  }

  /** The alerts of a pass come in increasing order of job, one for each job that the pass finds to have finished. */
  lemma NewAlertsAre(jobs: seq<Job>, waits: seq<Wait>)
    ensures var r := NewAlerts(jobs, waits, |jobs|);
            && (forall i, j :: 0 <= i < j < |r| ==> r[i].job < r[j].job)
            && (forall k :: 0 <= k < |jobs| ==> (Finishes(jobs[k], At(waits, k)) <==> HasAlert(r, k)))
  {
    NewAlertsAreTrue(jobs, waits, |jobs|);
    forall k | 0 <= k < |jobs| && Finishes(jobs[k], At(waits, k)) ensures HasAlert(NewAlerts(jobs, waits, |jobs|), k) {
      NewAlertFor(jobs, waits, |jobs|, k);
    }
  }

  lemma UpdateOneOk(s: Shell, k: nat, w: Wait)
    requires Ok(s) && k < |s.jobs|
    ensures Ok(UpdateOne(s, k, w))
  {
    UpdatedOk(s.jobs[k], w);
    var t := UpdateOne(s, k, w);
    if Finishes(s.jobs[k], w) {
      AlertsGrow(s.jobs, s.alerts, k, t.jobs[k]);
    } else {
      assert t.jobs == s.jobs;
    }
  }

  lemma AlertsGrow(jobs: seq<Job>, alerts: seq<Alert>, k: nat, job: Job)
    requires AlertsOk(jobs, alerts) && k < |jobs| && !jobs[k].finished
    requires job.finished && job.pid == jobs[k].pid
    ensures AlertsOk(jobs[k := job], alerts + [Alert(k, job.pid, job.status)])
  {
    var more, after := alerts + [Alert(k, job.pid, job.status)], jobs[k := job];
    forall m | 0 <= m < |after| && after[m].finished ensures HasAlert(more, m) {
      if m == k {
        assert more[|alerts|].job == k;
      } else {
        HasAlertStays(alerts, more, m);
      }
    }
  }

  lemma {:induction false} UpdateUpToOk(s: Shell, waits: seq<Wait>, n: nat)
    requires Ok(s) && n <= |s.jobs|
    ensures Ok(UpdateUpTo(s, waits, n))
  {
    if n > 0 {
      UpdateUpToOk(s, waits, n - 1);
      var t := UpdateUpTo(s, waits, n - 1);
      UpdateOneOk(t, n - 1, At(waits, n - 1));
      assert UpdateUpTo(s, waits, n) == UpdateOne(t, n - 1, At(waits, n - 1));
    }
  }

  /**
   A blocking pass over the table in which every unfinished child's next event is an exit finishes every job; it
   alerts, in increasing order, exactly for the jobs that were not finished before.
   */
  lemma WaitAllFinishesAll(s: Shell, waits: seq<Wait>)
    requires Ok(s) && forall k :: 0 <= k < |s.jobs| && !s.jobs[k].finished ==> At(waits, k).Exited?
    ensures var t := UpdateAll(s, waits);
            var added := NewAlerts(s.jobs, waits, |s.jobs|);
            && Ok(t) && |t.jobs| == |s.jobs|
            && (forall k :: 0 <= k < |t.jobs| ==> t.jobs[k].finished)
            && (forall k :: 0 <= k < |t.jobs| && s.jobs[k].finished ==> t.jobs[k] == s.jobs[k])
            && t.alerts == s.alerts + added
            && (forall i, j :: 0 <= i < j < |added| ==> added[i].job < added[j].job)
            && (forall k :: 0 <= k < |s.jobs| ==>
                  (!s.jobs[k].finished <==> HasAlert(added, k)))
  {
    UpdateUpToOk(s, waits, |s.jobs|);
    UpdateUpToIs(s, waits, |s.jobs|);
    NewAlertsAre(s.jobs, waits);
  }

  // ---- starting ----

  /**
   Starting keeps the table right exactly when there is room, or the job that a full table starts once more had not
   finished: restarting a finished job leaves it finished with the status text of a running one.
   */
  lemma StartJobOkIff(s: Shell, argv: seq<string>, pid: int)
    requires Ok(s)
    ensures Ok(StartJob(s, argv, pid)) <==> |s.jobs| < MAX_CHILD || !s.jobs[|s.jobs| - 1].finished
  {
    var t := StartJob(s, argv, pid);
    var last := |t.jobs| - 1;
    assert JobOk(NewJob(argv)) by {
      assert "INIT"[0] == 'I';
    }
    var was := if |s.jobs| < MAX_CHILD then NewJob(argv) else s.jobs[last];
    StartedOkIff(was, pid);
    assert t.jobs[last] == Started(was, pid);
    if !was.finished {
      UnfinishedHasNoAlert(s, t.jobs);
    }
  }

  /** The alerts stay right when jobs that are not finished change into, or are joined by, others that are not. */
  lemma UnfinishedHasNoAlert(s: Shell, jobs: seq<Job>)
    requires AlertsOk(s.jobs, s.alerts) && |s.jobs| <= |jobs|
    requires forall k :: 0 <= k < |s.jobs| ==> jobs[k] == s.jobs[k] || (!jobs[k].finished && !s.jobs[k].finished)
    requires forall k :: |s.jobs| <= k < |jobs| ==> !jobs[k].finished
    ensures AlertsOk(jobs, s.alerts)
  {
  }

  // ---- sessions ----

  /** No job is started while the table is full. */
  ghost predicate Roomy(s: Shell, lines: seq<Line>)
    decreases |lines|
  {
    lines == [] || Interpret(Tokens(lines[0])) == Exit ||
    ((Interpret(Tokens(lines[0])).Start? ==> |s.jobs| < MAX_CHILD) && Roomy(Turn(s, lines[0]), lines[1..]))
  }

  /** Job numbers are stable, and a finished job never changes again. */
  ghost predicate Extends(s: Shell, t: Shell) {
    && |s.jobs| <= |t.jobs|
    && (forall k :: 0 <= k < |s.jobs| ==> t.jobs[k].argv == s.jobs[k].argv && t.jobs[k].pid == s.jobs[k].pid)
    && (forall k :: 0 <= k < |s.jobs| && s.jobs[k].finished ==> t.jobs[k] == s.jobs[k])
    && s.alerts <= t.alerts
  }

  lemma UpdateAllExtends(s: Shell, waits: seq<Wait>)
    requires Ok(s)
    ensures Ok(UpdateAll(s, waits)) && Extends(s, UpdateAll(s, waits))
  {
    UpdateUpToOk(s, waits, |s.jobs|);
    UpdateUpToIs(s, waits, |s.jobs|);
    forall k | 0 <= k < |s.jobs|
      ensures var u := Updated(s.jobs[k], At(waits, k));
              u.argv == s.jobs[k].argv && u.pid == s.jobs[k].pid && (s.jobs[k].finished ==> u == s.jobs[k])
    {
      UpdatedOk(s.jobs[k], At(waits, k));
    }
  }

  lemma UpdateOneExtends(s: Shell, k: nat, w: Wait)
    requires Ok(s) && k < |s.jobs|
    ensures Ok(UpdateOne(s, k, w)) && Extends(s, UpdateOne(s, k, w))
  {
    UpdateOneOk(s, k, w);
    UpdatedOk(s.jobs[k], w);
  }

  lemma StartJobExtends(s: Shell, argv: seq<string>, pid: int)
    requires Ok(s) && |s.jobs| < MAX_CHILD
    ensures Ok(StartJob(s, argv, pid)) && Extends(s, StartJob(s, argv, pid))
  {
    StartJobOkIff(s, argv, pid);
  }

  lemma PerformExtends(s: Shell, line: Line)
    requires Ok(s) && (Interpret(Tokens(line)).Start? ==> |s.jobs| < MAX_CHILD)
    ensures Ok(Perform(s, line)) && Extends(s, Perform(s, line))
  {
    match Interpret(Tokens(line))
    case Pause => UpdateAllExtends(s, line.during);
    case WaitAll => UpdateAllExtends(s, line.during);
    case WaitFor(k) => if 0 <= k < |s.jobs| { UpdateOneExtends(s, k, At(line.during, k)); }
    case Start(argv) => StartJobExtends(s, argv, line.pid);
    case Idle =>
    case Exit =>
  }

  lemma TurnExtends(s: Shell, line: Line)
    requires Ok(s) && (Interpret(Tokens(line)).Start? ==> |s.jobs| < MAX_CHILD)
    ensures Ok(Turn(s, line)) && Extends(s, Turn(s, line))
  {
    PerformExtends(s, line);
    UpdateAllExtends(Perform(s, line), line.after);
  }

  /**
   Over every session that never starts a job with a full table: job numbers are stable, a finished job is frozen,
   finished, status text, output and output size agree, each finished job has had its pipe closed once, and there is
   exactly one alert for it.
   */
  lemma {:induction false} JobLifecycle(s: Shell, lines: seq<Line>)
    requires Ok(s) && Roomy(s, lines)
    ensures Ok(Session(s, lines)) && Extends(s, Session(s, lines))
    decreases |lines|
  {
    if lines != [] && Interpret(Tokens(lines[0])) != Exit {
      TurnExtends(s, lines[0]);
      JobLifecycle(Turn(s, lines[0]), lines[1..]);
    }
  }

  /** Finished, a status text EXIT(n) with the job's own status, and a known output size are the same thing. */
  lemma FinishedIff(lines: seq<Line>, k: nat)
    requires Roomy(Empty, lines) && k < |Session(Empty, lines).jobs|
    ensures var t := Session(Empty, lines);
            var job := t.jobs[k];
            && (job.finished <==> job.outputSize >= 0)
            && (job.finished <==> 0 <= job.status && job.strStatus == ExitText(job.status))
            && (job.finished <==> HasAlert(t.alerts, k))
            && (forall i, j :: 0 <= i < j < |t.alerts| ==> t.alerts[i].job != t.alerts[j].job)
            && job.closes == if job.finished then 1 else 0
  {
    JobLifecycle(Empty, lines);
    assert JobOk(Session(Empty, lines).jobs[k]);
  }

  /** What `output-for` writes of a job: the first outputSize bytes of its output, NULs included. */
  function Recalled(job: Job): Option<seq<Byte>> {
    match job.output
    case None => None
    case Some(bytes) => Some(if 0 <= job.outputSize <= |bytes| then bytes[..job.outputSize] else bytes)
  }

  /** A child's output is recalled as it was written, whatever memory it was read into, for exactly these outputs. */
  lemma OutputIsRecalledIff(job: Job, status: Byte, output: seq<Byte>)
    requires !job.finished
    ensures (forall memory: nat -> Byte :: Recalled(Updated(job, Exited(status, output, memory))) == Some(output)) <==>
            Whole(output)
  {
    forall memory: nat -> Byte
      ensures Recalled(Updated(job, Exited(status, output, memory))) == Some(Held(output, memory))
    {
      assert Held(output, memory)[..|output|] == Held(output, memory);
    }
    HeldIsStreamIff(output);
  }

  /** 1026 bytes of which the first is a NUL are not recalled, whatever memory they were read into. */
  lemma OutputIsLost(job: Job, status: Byte, memory: nat -> Byte)
    requires !job.finished
    ensures var output := [0] + seq(BUFSIZE + 1, _ => 97);
            Recalled(Updated(job, Exited(status, output, memory))) != Some(output)
  {
    NulLosesOutput(memory);
  }

  // ---- a full table ----

  ghost predicate AllRunning(jobs: seq<Job>) {
    forall k :: 0 <= k < |jobs| ==> !jobs[k].finished
  }

  /** A line that starts a job and finds nothing to report after it. */
  predicate Starts(line: Line) {
    Interpret(Tokens(line)).Start? && line.after == []
  }

  lemma TurnStarts(s: Shell, line: Line)
    requires Starts(line) && |s.jobs| < MAX_CHILD && AllRunning(s.jobs)
    ensures var t := Turn(s, line);
            |t.jobs| == |s.jobs| + 1 && AllRunning(t.jobs)
  {
    var u := StartJob(s, Interpret(Tokens(line)).argv, line.pid);
    UpdateUpToIs(u, [], |u.jobs|);
  }

  lemma SessionOfMore(s: Shell, line: Line, lines: seq<Line>)
    requires Interpret(Tokens(line)) != Exit
    ensures Session(s, [line] + lines) == Session(Turn(s, line), lines)
  {
    assert ([line] + lines)[1..] == lines;
  }

  /** The same line m times, and more lines after it. */
  function Repeated(line: Line, m: nat, more: seq<Line>): seq<Line> {
    if m == 0 then more else [line] + Repeated(line, m - 1, more)
  }

  lemma {:induction false} FillTable(s: Shell, line: Line, m: nat, more: seq<Line>) returns (t: Shell)
    requires Starts(line) && |s.jobs| + m <= MAX_CHILD && AllRunning(s.jobs)
    ensures |t.jobs| == |s.jobs| + m && AllRunning(t.jobs)
    ensures Session(s, Repeated(line, m, more)) == Session(t, more)
    decreases m
  {
    t := s;
    if m > 0 {
      TurnStarts(s, line);
      SessionOfMore(s, line, Repeated(line, m - 1, more));
      t := FillTable(Turn(s, line), line, m - 1, more);
    }
  }

  /** A line that starts a job, after which each job of a full table exits. */
  predicate StartsAndAllExit(line: Line) {
    Interpret(Tokens(line)).Start? && forall k :: 0 <= k < MAX_CHILD ==> At(line.after, k).Exited?
  }

  lemma AllExit(s: Shell, line: Line)
    requires StartsAndAllExit(line) && |s.jobs| == MAX_CHILD - 1
    ensures var t := Turn(s, line);
            |t.jobs| == MAX_CHILD && t.jobs[MAX_CHILD - 1].finished
  {
    UpdateUpToIs(StartJob(s, Interpret(Tokens(line)).argv, line.pid), line.after, MAX_CHILD);
  }

  lemma LastRestarts(s: Shell, line: Line)
    requires Starts(line) && |s.jobs| == MAX_CHILD && s.jobs[MAX_CHILD - 1].finished
    ensures var t := Turn(s, line);
            |t.jobs| == MAX_CHILD && t.jobs[MAX_CHILD - 1] == Started(s.jobs[MAX_CHILD - 1], line.pid)
  {
    UpdateUpToIs(StartJob(s, Interpret(Tokens(line)).argv, line.pid), [], MAX_CHILD);
  }

  /** The last job of a full table is finished and in state RUN. */
  ghost predicate LastIsRestarted(s: Shell) {
    && |s.jobs| == MAX_CHILD
    && s.jobs[MAX_CHILD - 1].finished && s.jobs[MAX_CHILD - 1].strStatus == "RUN"
  }

  lemma FillAndRestart(start: Line, last: Line) returns (lines: seq<Line>)
    requires Starts(start) && StartsAndAllExit(last)
    ensures LastIsRestarted(Session(Empty, lines))
  {
    lines := Repeated(start, MAX_CHILD - 1, [last] + ([start] + []));
    var s := FillTable(Empty, start, MAX_CHILD - 1, [last] + ([start] + []));
    AllExit(s, last);
    SessionOfMore(s, last, [start] + []);
    SessionOfMore(Turn(s, last), start, []);
    LastRestarts(Turn(s, last), start);
  }

  lemma RestartedIsNotOk(s: Shell)
    requires LastIsRestarted(s)
    ensures !Ok(s)
  {
    assert s.jobs[MAX_CHILD - 1].strStatus[0] == 'R';
    assert !JobOk(s.jobs[MAX_CHILD - 1]);
  }

  lemma ProgramStarts(line: Line)
    requires line.text == "a"
    ensures Interpret(Tokens(line)).Start?
  {
    Tokenizer.RunIs(line.text, 1);
    assert line.text[..1] == "a" && line.text[1..] == "";
    assert Tokenizer.Words(line.text) == ["a"];
    var tokens := Tokens(line);
    assert |tokens[0]| == 1;
  }

  /**
   A command typed when the table is full and its last job has finished restarts that job: it is finished and in state
   RUN. A session that gets there starts one command 1025 times.
   */
  lemma FullTableRestartsFinished() returns (lines: seq<Line>)
    ensures LastIsRestarted(Session(Empty, lines)) && !Ok(Session(Empty, lines)) && !Roomy(Empty, lines)
  {
    var start := Line("a", 0, [], []);
    var last := start.(after := seq(MAX_CHILD, _ => Exited(0, [], _ => 0)));
    ProgramStarts(start);
    ProgramStarts(last);
    lines := FillAndRestart(start, last);
    RestartedIsNotOk(Session(Empty, lines));
    if Roomy(Empty, lines) {
      JobLifecycle(Empty, lines);
    }
  }

  // ---- the command column ----

  /** The arguments of a line that was tokenized, and that starts a job. */
  ghost predicate Typed(argv: seq<string>) {
    && Interpret(argv) == Start(argv)
    && |argv| <= Tokenizer.ARG_MAX
    && forall k :: 0 <= k < |argv| ==> Tokenizer.IsWord(argv[k])
  }

  ghost predicate AllTyped(jobs: seq<Job>) {
    forall k :: 0 <= k < |jobs| ==> Typed(jobs[k].argv)
  }

  lemma UpdateAllKeepsTyped(s: Shell, waits: seq<Wait>)
    requires AllTyped(s.jobs)
    ensures AllTyped(UpdateAll(s, waits).jobs)
  {
    UpdateUpToIs(s, waits, |s.jobs|);
    assert forall k :: 0 <= k < |s.jobs| ==> Updated(s.jobs[k], At(waits, k)).argv == s.jobs[k].argv;
  }

  lemma StartKeepsTyped(s: Shell, argv: seq<string>, pid: int)
    requires AllTyped(s.jobs) && Typed(argv)
    ensures AllTyped(StartJob(s, argv, pid).jobs)
  {
  }

  lemma PerformKeepsTyped(s: Shell, line: Line)
    requires AllTyped(s.jobs)
    requires Interpret(Tokens(line)).Start? ==> Typed(Tokens(line))
    ensures AllTyped(Perform(s, line).jobs)
  {
    match Interpret(Tokens(line))
    case Pause => UpdateAllKeepsTyped(s, line.during);
    case WaitAll => UpdateAllKeepsTyped(s, line.during);
    case Start(argv) => StartKeepsTyped(s, argv, line.pid);
    case _ =>
  }

  lemma TurnKeepsTyped(s: Shell, line: Line)
    requires AllTyped(s.jobs)
    ensures AllTyped(Turn(s, line).jobs)
  {
    Tokenizer.WordsAreWords(CString(line.text, NUL));
    PerformKeepsTyped(s, line);
    UpdateAllKeepsTyped(Perform(s, line), line.after);
  }

  lemma {:induction false} SessionKeepsTyped(s: Shell, lines: seq<Line>)
    requires AllTyped(s.jobs)
    ensures AllTyped(Session(s, lines).jobs)
    decreases |lines|
  {
    if lines != [] && Interpret(Tokens(lines[0])) != Exit {
      TurnKeepsTyped(s, lines[0]);
      SessionKeepsTyped(Turn(s, lines[0]), lines[1..]);
    }
  }

  /**
   For every job of every session, tokenizing the command column that `list` prints for it gives back its arguments,
   and typing that column at the prompt starts the same command again.
   */
  lemma CommandColumnRoundTrip(lines: seq<Line>, k: nat)
    requires k < |Session(Empty, lines).jobs|
    ensures var argv := Session(Empty, lines).jobs[k].argv;
            var typed := Tokenizer.Tokens(Tokenizer.CommandColumn(argv) + "\n");
            typed == argv && Interpret(typed) == Start(argv)
  {
    SessionKeepsTyped(Empty, lines);
    var argv := Session(Empty, lines).jobs[k].argv;
    assert Typed(argv);
    Tokenizer.PrintThenParse(argv);
  }
}
