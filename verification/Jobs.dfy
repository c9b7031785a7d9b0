/** The shell's job table as values: jobs, the events of their processes, and the commands typed at the prompt. */
module Jobs {
  import opened CStrings
  import opened PipeReader
  import Tokenizer

  const MAX_CHILD: nat := 1024
  const STATUS_LEN: nat := 10

  datatype Option<T> = None | Some(value: T)

  /** closes counts how often the read end of the job's pipe was closed. */
  datatype Job = Job(
    argv: seq<string>,
    pid: int,
    finished: bool,
    status: int,
    strStatus: string,
    output: Option<seq<Byte>>,
    outputSize: int,
    closes: nat)

  /**
   What a call of waitpid reports for one child: nothing or an error, an exit with its status and all the output in
   its pipe, or any other change of state (stopped, continued, killed by a signal). With an exit comes what the
   memory that the output is then read into happens to hold.
   */
  datatype Wait = Nothing | Exited(status: Byte, output: seq<Byte>, memory: nat -> Byte) | OtherChange

  /** The line printed when a job is found to have finished. */
  datatype Alert = Alert(job: nat, pid: int, status: int)

  datatype Shell = Shell(jobs: seq<Job>, alerts: seq<Alert>)

  // ---- printing a status ----

  function Digit(n: nat): char
    requires n < 10
  {
    "0123456789"[n]
  }

  function Decimal(n: nat): string {
    if n < 10 then [Digit(n)] else Decimal(n / 10) + [Digit(n % 10)]
  }

  /** snprintf into n bytes keeps at most n - 1 characters. */
  function Snprintf(n: nat, s: string): string
    requires n > 0
  {
    if |s| < n then s else s[..n - 1]
  }

  function ExitText(status: nat): string {
    "EXIT(" + Decimal(status) + ")"
  }

  // ---- one job ----

  function NewJob(argv: seq<string>): Job {
    Job(argv, -1, false, -1, Snprintf(STATUS_LEN, "INIT"), None, -1, 0)
  }

  function Started(job: Job, pid: int): Job {
    job.(strStatus := Snprintf(STATUS_LEN, "RUN"), pid := pid)
  }

  function Updated(job: Job, w: Wait): Job {
    if job.finished then
      job
    else
      match w
      case Exited(status, output, memory) =>
        job.(finished := true, status := status, strStatus := Snprintf(STATUS_LEN, ExitText(status)),
             output := Some(Held(output, memory)), outputSize := |output|, closes := job.closes + 1)
      case _ => job
  }

  predicate Finishes(job: Job, w: Wait) {
    !job.finished && w.Exited?
  }

  // ---- the table ----

  function At(waits: seq<Wait>, k: nat): Wait {
    if k < |waits| then waits[k] else Nothing
  }

  function UpdateOne(s: Shell, k: nat, w: Wait): Shell
    requires k < |s.jobs|
  {
    Shell(s.jobs[k := Updated(s.jobs[k], w)],
          if Finishes(s.jobs[k], w) then s.alerts + [Alert(k, s.jobs[k].pid, w.status)] else s.alerts)
  }

  /** One pass over the first n jobs in order. */
  function UpdateUpTo(s: Shell, waits: seq<Wait>, n: nat): Shell
    requires n <= |s.jobs|
    ensures |UpdateUpTo(s, waits, n).jobs| == |s.jobs|
  {
    if n == 0 then s else UpdateOne(UpdateUpTo(s, waits, n - 1), n - 1, At(waits, n - 1))
  }

  function UpdateAll(s: Shell, waits: seq<Wait>): Shell {
    UpdateUpTo(s, waits, |s.jobs|)
  }

  function AddJob(s: Shell, job: Job): Shell {
    if |s.jobs| >= MAX_CHILD then s else s.(jobs := s.jobs + [job])
  }

  /** A full table drops the new job, and the job that is last in the table is started once more. */
  function StartJob(s: Shell, argv: seq<string>, pid: int): Shell {
    var added := AddJob(s, NewJob(argv));
    var last := |added.jobs| - 1;
    added.(jobs := added.jobs[last := Started(added.jobs[last], pid)])
  }

  // ---- commands ----

  datatype Command = Idle | Exit | Pause | WaitFor(job: int) | WaitAll | Start(argv: seq<string>)

  predicate IsDigit(c: char) {
    '0' <= c <= '9'
  }

  function Digits(s: string, acc: nat): nat {
    if s == "" || !IsDigit(s[0]) then acc else Digits(s[1..], 10 * acc + (s[0] as int - '0' as int))
  }

  /** What atoi makes of a token, which holds no blanks: an optional sign and the digits that follow. */
  function Atoi(s: string): int {
    if s != "" && s[0] == '-' then -(Digits(s[1..], 0) as int)
    else if s != "" && s[0] == '+' then Digits(s[1..], 0)
    else Digits(s, 0)
  }

  /** A built-in with the wrong number of arguments is run as a job. */
  function Interpret(tokens: seq<string>): Command {
    if tokens == [] || tokens[0] == "help" then Idle
    else if tokens[0] == "exit" then Exit
    else if tokens[0] == "list" then Idle
    else if tokens[0] == "pause" && |tokens| == 3 then Pause
    else if tokens[0] == "output-for" && |tokens| == 2 then Idle
    else if tokens[0] == "output-all" then Idle
    else if tokens[0] == "wait-for" && |tokens| == 2 then WaitFor(Atoi(tokens[1]))
    else if tokens[0] == "wait-all" then WaitAll
    else Start(tokens)
  }

  /** One line at the prompt: its text, and what the system reports while it is carried out and after it. */
  datatype Line = Line(text: string, pid: int, during: seq<Wait>, after: seq<Wait>)

  function Tokens(line: Line): seq<string> {
    Tokenizer.Tokens(CString(line.text, NUL))
  }

  function Perform(s: Shell, line: Line): Shell {
    match Interpret(Tokens(line))
    case Pause => UpdateAll(s, line.during)
    case WaitAll => UpdateAll(s, line.during)
    case WaitFor(k) => if 0 <= k < |s.jobs| then UpdateOne(s, k, At(line.during, k)) else s
    case Start(argv) => StartJob(s, argv, line.pid)
    case Idle => s
    case Exit => s
  }

  /** The loop updates all jobs after every line but the one that ends it. */
  function Turn(s: Shell, line: Line): Shell {
    if Interpret(Tokens(line)) == Exit then s else UpdateAll(Perform(s, line), line.after)
  }

  const Empty := Shell([], [])

  function Session(s: Shell, lines: seq<Line>): Shell
    decreases |lines|
  {
    if lines == [] then s
    else if Interpret(Tokens(lines[0])) == Exit then s
    else Session(Turn(s, lines[0]), lines[1..])
  }

  // ---- the invariant ----

  /** Three ways of telling that a job is finished, which must agree; and its pipe was closed once, if it is. */
  ghost predicate JobOk(job: Job) {
    && (job.finished <==> job.outputSize >= 0)
    && (job.finished <==> job.output.Some?)
    && (job.output.Some? ==> |job.output.value| == job.outputSize)
    && (job.finished <==> 0 <= job.status && job.strStatus == ExitText(job.status))
    && (job.finished ==> job.status < 256)
    && (!job.finished ==> job.status == -1 && (job.strStatus == "INIT" || job.strStatus == "RUN"))
    && job.closes == if job.finished then 1 else 0
  }

  ghost predicate HasAlert(alerts: seq<Alert>, k: nat) {
    exists i :: 0 <= i < |alerts| && alerts[i].job == k
  }

  ghost predicate AlertsOk(jobs: seq<Job>, alerts: seq<Alert>) {
    && (forall i :: 0 <= i < |alerts| ==>
          && alerts[i].job < |jobs| && jobs[alerts[i].job].finished
          && alerts[i].pid == jobs[alerts[i].job].pid && alerts[i].status == jobs[alerts[i].job].status)
    && (forall i, j :: 0 <= i < j < |alerts| ==> alerts[i].job != alerts[j].job)
    && (forall k :: 0 <= k < |jobs| && jobs[k].finished ==> HasAlert(alerts, k))
  }

  ghost predicate Ok(s: Shell) {
    && |s.jobs| <= MAX_CHILD
    && (forall k :: 0 <= k < |s.jobs| ==> JobOk(s.jobs[k]))
    && AlertsOk(s.jobs, s.alerts)
  }

  // ---- one job keeps the invariant ----

  lemma DecimalLength(n: nat)
    requires n < 1000
    ensures 1 <= |Decimal(n)| <= 3
  {
    if n >= 10 {
      var m := n / 10;
      assert m < 100;
      if m >= 10 {
        assert |Decimal(m / 10)| == 1;
      }
      assert 1 <= |Decimal(m)| <= 2;
    }
  }

  /** The longest status text, EXIT(255), just fits. */
  lemma StatusFits(status: nat)
    requires status < 256
    ensures Snprintf(STATUS_LEN, ExitText(status)) == ExitText(status)
    ensures ExitText(status)[0] == 'E'
  {
    DecimalLength(status);
  }

  lemma UpdatedOk(job: Job, w: Wait)
    requires JobOk(job)
    ensures JobOk(Updated(job, w))
    ensures job.finished ==> Updated(job, w) == job
    ensures Updated(job, w).finished <==> job.finished || w.Exited?
    ensures Updated(job, w).argv == job.argv && Updated(job, w).pid == job.pid
  {
    if w.Exited? {
      StatusFits(w.status);
    }
  }

  lemma StartedOkIff(job: Job, pid: int)
    requires JobOk(job)
    ensures JobOk(Started(job, pid)) <==> !job.finished
  {
    if job.finished {
      StatusFits(job.status);
      assert "RUN"[0] == 'R';
    } else {
      assert "RUN" != ExitText(0);
    }
  }
}
