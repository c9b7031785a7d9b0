/** Every session as its history tells it: the jobs are the commands typed, and each is as its child was reported. */
module JobHistory {
  import opened CStrings
  import opened PipeReader
  import opened Jobs
  import opened JobProperties
  import Tokenizer

  // ---- numbers ----

  lemma {:induction false} DigitsOfMore(s: string, more: string, acc: nat)
    requires forall i :: 0 <= i < |s| ==> IsDigit(s[i])
    ensures Digits(s + more, acc) == Digits(more, Digits(s, acc))
  {
    if s == "" {
      assert s + more == more;
    } else {
      assert (s + more)[0] == s[0] && (s + more)[1..] == s[1..] + more;
      DigitsOfMore(s[1..], more, 10 * acc + (s[0] as int - '0' as int));
    }
  }

  lemma DigitIs(n: nat)
    requires n < 10
    ensures IsDigit(Digit(n)) && Digit(n) as int - '0' as int == n
  {
  }

  lemma {:induction false} DecimalIsDigits(n: nat)
    ensures Decimal(n) != "" && forall i :: 0 <= i < |Decimal(n)| ==> IsDigit(Decimal(n)[i])
    ensures Digits(Decimal(n), 0) == n
    ensures n > 0 ==> Decimal(n)[0] != '0'
  {
    DigitIs(n % 10);
    var last := [Digit(n % 10)];
    assert last[1..] == "" && Digits("", n) == n;
    if n >= 10 {
      DecimalIsDigits(n / 10);
      DigitsOfMore(Decimal(n / 10), last, 0);
    }
  }

  lemma DigitsStop(rest: string, n: nat)
    requires rest == "" || rest[0] < '0' || '9' < rest[0]
    ensures Digits(rest, n) == n
  {
  }

  /** Reading a printed number gives it back, with or without a sign, and whatever stands behind its digits. */
  lemma AtoiOfDecimal(n: nat, rest: string)
    requires rest == "" || rest[0] < '0' || '9' < rest[0]
    ensures Atoi(Decimal(n) + rest) == n && Atoi("+" + Decimal(n) + rest) == n
    ensures Atoi("-" + Decimal(n) + rest) == -(n as int)
  {
    DecimalIsDigits(n);
    DigitsOfMore(Decimal(n), rest, 0);
    DigitsStop(rest, n);
    var number := Decimal(n) + rest;
    assert number[0] == Decimal(n)[0];
    assert "+" + Decimal(n) + rest == "+" + number && ("+" + number)[1..] == number;
    assert "-" + Decimal(n) + rest == "-" + number && ("-" + number)[1..] == number;
  }

  // ---- what a line says, by its first token and the number of tokens ----

  predicate IsExit(tokens: seq<string>) {
    tokens != [] && tokens[0] == "exit"
  }

  /** Everything that is not built in is a command to start; so is a built-in with the wrong number of arguments. */
  predicate IsStart(tokens: seq<string>) {
    && tokens != []
    && tokens[0] != "help" && tokens[0] != "exit" && tokens[0] != "list"
    && tokens[0] != "output-all" && tokens[0] != "wait-all"
    && !(tokens[0] == "pause" && |tokens| == 3)
    && !(tokens[0] == "output-for" && |tokens| == 2)
    && !(tokens[0] == "wait-for" && |tokens| == 2)
  }

  /** Whether the command has job k looked at while it is carried out. */
  predicate LooksAt(tokens: seq<string>, k: nat) {
    && tokens != []
    && (|| tokens[0] == "wait-all"
        || (tokens[0] == "pause" && |tokens| == 3)
        || (tokens[0] == "wait-for" && |tokens| == 2 && Atoi(tokens[1]) == k))
  }

  predicate Passes(c: Command) {
    c == Pause || c == WaitAll
  }

  lemma InterpretIs(tokens: seq<string>)
    ensures IsExit(tokens) <==> Interpret(tokens) == Exit
    ensures IsStart(tokens) <==> Interpret(tokens).Start?
    ensures IsStart(tokens) ==> Interpret(tokens) == Start(tokens)
    ensures forall k: nat :: LooksAt(tokens, k) <==>
              Passes(Interpret(tokens)) || (Interpret(tokens).WaitFor? && Interpret(tokens).job == k)
  {
    assert |"help"| == 4 && |"exit"| == 4 && |"list"| == 4 && |"pause"| == 5;
    assert "help"[0] == 'h' && "exit"[0] == 'e' && "list"[0] == 'l';
    assert |"output-for"| == 10 && |"output-all"| == 10 && |"wait-for"| == 8 && |"wait-all"| == 8;
    assert "output-for"[7] == 'f' && "output-all"[7] == 'a' && "wait-for"[5] == 'f' && "wait-all"[5] == 'a';
  }

  /** Such a line waits for exactly the job whose number is printed in it. */
  lemma WaitForLooksAt(tokens: seq<string>, job: nat, k: nat)
    requires |tokens| == 2 && tokens[0] == "wait-for" && tokens[1] == Decimal(job)
    ensures LooksAt(tokens, k) <==> k == job
  {
    AtoiOfDecimal(job, "");
    assert Decimal(job) + "" == Decimal(job);
    assert |"pause"| == 5 && |"wait-for"| == 8;
    assert "wait-for"[5] == 'f' && "wait-all"[5] == 'a';
  }

  // ---- one start ----

  /** With room, one job more, with the arguments typed; without, the last job anew in state RUN under the new pid. */
  lemma StartIs(s: Shell, argv: seq<string>, pid: int)
    requires |s.jobs| <= MAX_CHILD
    ensures var t := StartJob(s, argv, pid);
            && t.alerts == s.alerts
            && (|s.jobs| < MAX_CHILD ==>
                  && |t.jobs| == |s.jobs| + 1 && t.jobs[..|s.jobs|] == s.jobs
                  && IsAs(t.jobs[|s.jobs|], argv, pid, Nothing))
            && (|s.jobs| == MAX_CHILD ==>
                  && |t.jobs| == MAX_CHILD && t.jobs[..MAX_CHILD - 1] == s.jobs[..MAX_CHILD - 1]
                  && t.jobs[MAX_CHILD - 1] == s.jobs[MAX_CHILD - 1].(pid := pid, strStatus := "RUN"))
  {
  }

  // ---- what a history says ----

  /** The commands of a session that start jobs, with the pids they were given. */
  function Launched(lines: seq<Line>): seq<(seq<string>, int)> {
    if lines == [] || IsExit(Tokens(lines[0])) then
      []
    else
      (if IsStart(Tokens(lines[0])) then [(Tokens(lines[0]), lines[0].pid)] else []) + Launched(lines[1..])
  }

  /** What one line has reported for job k, when n jobs were there before it. */
  function LineReports(line: Line, n: nat, k: nat): seq<Wait> {
    (if k < n && LooksAt(Tokens(line), k) then [At(line.during, k)] else []) +
    (if k < n || (k == n && IsStart(Tokens(line))) then [At(line.after, k)] else [])
  }

  /** All that was reported for job k in a session, when n jobs were there before. */
  function Reports(lines: seq<Line>, n: nat, k: nat): seq<Wait>
    decreases |lines|
  {
    if lines == [] || IsExit(Tokens(lines[0])) then
      []
    else
      LineReports(lines[0], n, k) + Reports(lines[1..], if IsStart(Tokens(lines[0])) then n + 1 else n, k)
  }

  function FirstExit(reports: seq<Wait>): Wait {
    if reports == [] then Nothing else if reports[0].Exited? then reports[0] else FirstExit(reports[1..])
  }

  /** The job was started with these arguments under this pid, and then its exit, if any, was reported. */
  ghost predicate IsAs(job: Job, argv: seq<string>, pid: int, exit: Wait) {
    && job.argv == argv && job.pid == pid
    && match exit
       case Exited(status, output, memory) =>
         && job.finished && job.status == status && job.strStatus == "EXIT(" + Decimal(status) + ")"
         && job.output == Some(Held(output, memory)) && job.outputSize == |output| && job.closes == 1
       case _ =>
         && !job.finished && job.status == -1 && job.strStatus == "RUN"
         && job.output == None && job.outputSize == -1 && job.closes == 0
  }

  /** The exit of a job that has one, or the first one in what is reported next. */
  function Then(exit: Wait, reports: seq<Wait>): Wait {
    if exit.Exited? then exit else FirstExit(reports)
  }

  lemma {:induction false} FirstExitOfMore(a: seq<Wait>, b: seq<Wait>)
    ensures FirstExit(a + b) == if FirstExit(a).Exited? then FirstExit(a) else FirstExit(b)
  {
    if a == [] {
      assert a + b == b;
    } else {
      assert (a + b)[1..] == a[1..] + b;
      FirstExitOfMore(a[1..], b);
    }
  }

  lemma ThenMore(exit: Wait, a: seq<Wait>, b: seq<Wait>)
    ensures Then(Then(exit, a), b) == Then(exit, a + b)
  {
    FirstExitOfMore(a, b);
  }

  lemma FirstExitOfOne(w: Wait)
    ensures FirstExit([w]) == if w.Exited? then w else Nothing
  {
    assert [w][1..] == [];
  }

  lemma UpdatedIs(job: Job, argv: seq<string>, pid: int, exit: Wait, w: Wait)
    requires IsAs(job, argv, pid, exit)
    ensures IsAs(Updated(job, w), argv, pid, Then(exit, [w]))
  {
    FirstExitOfOne(w);
    if w.Exited? {
      StatusFits(w.status);
    }
  }

  // ---- sessions ----

  lemma UpdateAllIs(s: Shell, waits: seq<Wait>, k: nat, argv: seq<string>, pid: int, exit: Wait)
    requires k < |s.jobs| && IsAs(s.jobs[k], argv, pid, exit)
    ensures var t := UpdateAll(s, waits);
            |t.jobs| == |s.jobs| && IsAs(t.jobs[k], argv, pid, Then(exit, [At(waits, k)]))
  {
    UpdateUpToIs(s, waits, |s.jobs|);
    UpdatedIs(s.jobs[k], argv, pid, exit, At(waits, k));
  }

  /** What the command of a line has reported for job k, before all jobs are updated after it. */
  function During(line: Line, k: nat): seq<Wait> {
    if LooksAt(Tokens(line), k) then [At(line.during, k)] else []
  }

  lemma PerformIs(s: Shell, line: Line, k: nat, argv: seq<string>, pid: int, exit: Wait)
    requires k < |s.jobs| && IsAs(s.jobs[k], argv, pid, exit)
    requires IsStart(Tokens(line)) ==> |s.jobs| < MAX_CHILD
    ensures var t := Perform(s, line);
            && |t.jobs| == |s.jobs| + (if IsStart(Tokens(line)) then 1 else 0)
            && IsAs(t.jobs[k], argv, pid, Then(exit, During(line, k)))
  {
    InterpretIs(Tokens(line));
    match Interpret(Tokens(line))
    case Pause => UpdateAllIs(s, line.during, k, argv, pid, exit);
    case WaitAll => UpdateAllIs(s, line.during, k, argv, pid, exit);
    case WaitFor(j) => UpdatedIs(s.jobs[k], argv, pid, exit, At(line.during, k));
    case _ =>
  }

  /** A line does to a job that is there what was reported for the job. */
  lemma TurnIs(s: Shell, line: Line, k: nat, argv: seq<string>, pid: int, exit: Wait)
    requires k < |s.jobs| && IsAs(s.jobs[k], argv, pid, exit) && !IsExit(Tokens(line))
    requires IsStart(Tokens(line)) ==> |s.jobs| < MAX_CHILD
    ensures var t := Turn(s, line);
            && |t.jobs| == |s.jobs| + (if IsStart(Tokens(line)) then 1 else 0)
            && IsAs(t.jobs[k], argv, pid, Then(exit, LineReports(line, |s.jobs|, k)))
  {
    InterpretIs(Tokens(line));
    PerformIs(s, line, k, argv, pid, exit);
    UpdateAllIs(Perform(s, line), line.after, k, argv, pid, Then(exit, During(line, k)));
    ThenMore(exit, During(line, k), [At(line.after, k)]);
  }

  lemma TurnSize(s: Shell, line: Line)
    requires IsStart(Tokens(line)) ==> |s.jobs| < MAX_CHILD
    ensures |Turn(s, line).jobs| == |s.jobs| + (if IsStart(Tokens(line)) then 1 else 0)
  {
    InterpretIs(Tokens(line));
  }

  /** A line that starts a job puts it behind the others. */
  lemma TurnStarts(s: Shell, line: Line)
    requires IsStart(Tokens(line)) && |s.jobs| < MAX_CHILD
    ensures var t := Turn(s, line);
            var n := |s.jobs|;
            |t.jobs| == n + 1 && IsAs(t.jobs[n], Tokens(line), line.pid, FirstExit(LineReports(line, n, n)))
  {
    InterpretIs(Tokens(line));
    StartIs(s, Tokens(line), line.pid);
    UpdateAllIs(Perform(s, line), line.after, |s.jobs|, Tokens(line), line.pid, Nothing);
    assert LineReports(line, |s.jobs|, |s.jobs|) == [At(line.after, |s.jobs|)];
  }

  function JobsAfter(line: Line, n: nat): nat {
    if IsStart(Tokens(line)) then n + 1 else n
  }

  /** The history of a session whose first line is not an exit, as that of the line and that of the others. */
  lemma HistoryFrom(lines: seq<Line>, n: nat, k: nat)
    requires lines != [] && !IsExit(Tokens(lines[0]))
    ensures Reports(lines, n, k) == LineReports(lines[0], n, k) + Reports(lines[1..], JobsAfter(lines[0], n), k)
    ensures n + |Launched(lines)| == JobsAfter(lines[0], n) + |Launched(lines[1..])|
    ensures Launched(lines) ==
            (if IsStart(Tokens(lines[0])) then [(Tokens(lines[0]), lines[0].pid)] else []) + Launched(lines[1..])
  {
  }

  lemma SessionFrom(s: Shell, lines: seq<Line>)
    ensures Session(s, lines) ==
            if lines == [] || IsExit(Tokens(lines[0])) then s else Session(Turn(s, lines[0]), lines[1..])
    ensures lines == [] || IsExit(Tokens(lines[0])) ==>
      Launched(lines) == [] && forall n: nat, k: nat :: Reports(lines, n, k) == []
  {
    if lines != [] {
      InterpretIs(Tokens(lines[0]));
    }
  }

  /** Job k, which was there, ends the session as its history goes on. */
  ghost predicate Continued(s: Shell, lines: seq<Line>, k: nat, argv: seq<string>, pid: int, exit: Wait) {
    var t := Session(s, lines);
    k < |t.jobs| && IsAs(t.jobs[k], argv, pid, Then(exit, Reports(lines, |s.jobs|, k)))
  }

  lemma OldJobEnds(s: Shell, lines: seq<Line>, k: nat, argv: seq<string>, pid: int, exit: Wait)
    requires k < |s.jobs| && IsAs(s.jobs[k], argv, pid, exit) && (lines == [] || IsExit(Tokens(lines[0])))
    ensures Continued(s, lines, k, argv, pid, exit)
  {
    SessionFrom(s, lines);
  }

  lemma OldJobOnward(s: Shell, next: Shell, lines: seq<Line>, k: nat, argv: seq<string>, pid: int, exit: Wait)
    requires lines != [] && !IsExit(Tokens(lines[0])) && next == Turn(s, lines[0])
    requires |next.jobs| == JobsAfter(lines[0], |s.jobs|)
    requires Continued(next, lines[1..], k, argv, pid, Then(exit, LineReports(lines[0], |s.jobs|, k)))
    ensures Continued(s, lines, k, argv, pid, exit)
  {
    SessionFrom(s, lines);
    HistoryFrom(lines, |s.jobs|, k);
    ThenMore(exit, LineReports(lines[0], |s.jobs|, k), Reports(lines[1..], |next.jobs|, k));
  }

  lemma {:induction false} OldJobIs(s: Shell, lines: seq<Line>, k: nat, argv: seq<string>, pid: int, exit: Wait)
    requires k < |s.jobs| && IsAs(s.jobs[k], argv, pid, exit) && |s.jobs| + |Launched(lines)| <= MAX_CHILD
    ensures Continued(s, lines, k, argv, pid, exit)
    decreases |lines|
  {
    if lines == [] || IsExit(Tokens(lines[0])) {
      OldJobEnds(s, lines, k, argv, pid, exit);
    } else {
      HistoryFrom(lines, |s.jobs|, k);
      TurnIs(s, lines[0], k, argv, pid, exit);
      OldJobIs(Turn(s, lines[0]), lines[1..], k, argv, pid, Then(exit, LineReports(lines[0], |s.jobs|, k)));
      OldJobOnward(s, Turn(s, lines[0]), lines, k, argv, pid, exit);
    }
  }

  /** The i-th job that a session starts stands behind the jobs there were, as its history says. */
  ghost predicate Told(s: Shell, lines: seq<Line>, i: nat)
    requires i < |Launched(lines)|
  {
    var t, k := Session(s, lines), |s.jobs| + i;
    && k < |t.jobs|
    && IsAs(t.jobs[k], Launched(lines)[i].0, Launched(lines)[i].1, FirstExit(Reports(lines, |s.jobs|, k)))
  }

  lemma FirstJobIs(s: Shell, lines: seq<Line>)
    requires lines != [] && IsStart(Tokens(lines[0])) && |s.jobs| + |Launched(lines)| <= MAX_CHILD
    ensures Told(s, lines, 0)
  {
    var line, rest, n := lines[0], lines[1..], |s.jobs|;
    SessionFrom(s, lines);
    HistoryFrom(lines, n, n);
    TurnStarts(s, line);
    OldJobIs(Turn(s, line), rest, n, Tokens(line), line.pid, FirstExit(LineReports(line, n, n)));
    FirstExitOfMore(LineReports(line, n, n), Reports(rest, n + 1, n));
  }

  /** A line says nothing of a job that it does not start and that comes after it. */
  lemma LaterHistory(lines: seq<Line>, n: nat, i: nat, j: nat)
    requires i < |Launched(lines)| && !IsExit(Tokens(lines[0]))
    requires i == if IsStart(Tokens(lines[0])) then j + 1 else j
    ensures j < |Launched(lines[1..])| && Launched(lines)[i] == Launched(lines[1..])[j]
    ensures JobsAfter(lines[0], n) + j == n + i
    ensures Reports(lines, n, n + i) == Reports(lines[1..], JobsAfter(lines[0], n), n + i)
  {
    HistoryFrom(lines, n, n + i);
    assert LineReports(lines[0], n, n + i) == [];
  }

  lemma LaterJobIs(s: Shell, next: Shell, lines: seq<Line>, i: nat, j: nat)
    requires i < |Launched(lines)| && !IsExit(Tokens(lines[0])) && next == Turn(s, lines[0])
    requires i == (if IsStart(Tokens(lines[0])) then j + 1 else j) && |next.jobs| == JobsAfter(lines[0], |s.jobs|)
    requires j < |Launched(lines[1..])| && Told(next, lines[1..], j)
    ensures Told(s, lines, i)
  {
    SessionFrom(s, lines);
    LaterHistory(lines, |s.jobs|, i, j);
  }

  lemma {:induction false} NewJobIs(s: Shell, lines: seq<Line>, i: nat)
    requires i < |Launched(lines)| && |s.jobs| + |Launched(lines)| <= MAX_CHILD
    ensures Told(s, lines, i)
    decreases |lines|
  {
    if IsStart(Tokens(lines[0])) && i == 0 {
      FirstJobIs(s, lines);
    } else {
      var j: nat := if IsStart(Tokens(lines[0])) then i - 1 else i;
      HistoryFrom(lines, |s.jobs|, |s.jobs|);
      TurnSize(s, lines[0]);
      NewJobIs(Turn(s, lines[0]), lines[1..], j);
      LaterJobIs(s, Turn(s, lines[0]), lines, i, j);
    }
  }

  lemma {:induction false} SessionSize(s: Shell, lines: seq<Line>)
    requires |s.jobs| + |Launched(lines)| <= MAX_CHILD
    ensures |Session(s, lines).jobs| == |s.jobs| + |Launched(lines)|
    decreases |lines|
  {
    if lines != [] {
      InterpretIs(Tokens(lines[0]));
      if !IsExit(Tokens(lines[0])) {
        TurnSize(s, lines[0]);
        SessionSize(Turn(s, lines[0]), lines[1..]);
      }
    }
  }

  /**
   After any session that starts no more jobs than the table holds, the table is exactly the commands typed, in order,
   each with its arguments and the pid it was given; and each job is unfinished and in state RUN, or has the status,
   status text and output of the first exit that was reported for it.
   */
  lemma SessionIsHistory(lines: seq<Line>)
    requires |Launched(lines)| <= 1024
    ensures var t := Session(Empty, lines);
            && |t.jobs| == |Launched(lines)|
            && forall k :: 0 <= k < |t.jobs| ==>
                 IsAs(t.jobs[k], Launched(lines)[k].0, Launched(lines)[k].1, FirstExit(Reports(lines, 0, k)))
  {
    SessionSize(Empty, lines);
    forall k | 0 <= k < |Launched(lines)|
      ensures IsAs(Session(Empty, lines).jobs[k], Launched(lines)[k].0, Launched(lines)[k].1,
                   FirstExit(Reports(lines, 0, k)))
    {
      NewJobIs(Empty, lines, k);
      assert Told(Empty, lines, k);
    }
  }

  /** There is always room in the table exactly if the session starts no more jobs than fit in it. */
  lemma {:induction false} RoomyIff(s: Shell, lines: seq<Line>)
    requires |s.jobs| <= MAX_CHILD
    ensures Roomy(s, lines) <==> |s.jobs| + |Launched(lines)| <= MAX_CHILD
    decreases |lines|
  {
    if lines != [] {
      InterpretIs(Tokens(lines[0]));
      if !IsExit(Tokens(lines[0])) && (IsStart(Tokens(lines[0])) ==> |s.jobs| < MAX_CHILD) {
        TurnSize(s, lines[0]);
        RoomyIff(Turn(s, lines[0]), lines[1..]);
      }
    }
  }
}
