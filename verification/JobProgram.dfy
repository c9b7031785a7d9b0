/** The shell's jobs as they are written: records updated in place, in one table of fixed size. */
module JobProgram {
  import opened CStrings
  import opened PipeReader
  import opened Jobs
  import Tokenizer
  import opened TokenizerProgram
  import opened JobHistory

  class Cmd {
    const argv: seq<string>
    var pid: int
    var finished: int
    var status: int
    var strStatus: string
    var output: Option<seq<Byte>>
    var outputSize: int
    ghost var closes: nat

    ghost function Model(): Job
      reads this
    {
      Job(argv, pid, finished != 0, status, strStatus, output, outputSize, closes)
    }

    constructor (argv: seq<string>)
      ensures Model() == NewJob(argv) && this.argv == argv
    {
      this.argv := argv;
      finished, pid, status := 0, -1, -1;
      strStatus := Snprintf(STATUS_LEN, "INIT");
      output, outputSize, closes := None, -1, 0;
    }

    /** The parent's side of a start. */
    method Start(childPid: int)
      modifies this
      ensures Model() == Started(old(Model()), childPid)
    {
      strStatus := Snprintf(STATUS_LEN, "RUN");
      pid := childPid;
    }

    method FetchOutput(pipe: seq<Byte>, memory: nat -> Byte)
      requires finished != 0
      modifies this`output, this`outputSize, this`closes
      ensures output == Some(Held(pipe, memory))
      ensures outputSize == |pipe| && closes == old(closes) + 1
    {
      var buf, nread, size, rounds := ReadAll(pipe, memory);
      output := Some(buf[..nread]);
      outputSize := nread;
      closes := closes + 1;
    }

    method UpdateState(w: Wait) returns (alert: bool)
      modifies this
      ensures Model() == Updated(old(Model()), w)
      ensures alert == Finishes(old(Model()), w)
    {
      alert := false;
      if finished != 0 {
        return;
      }
      if w.Exited? {
        finished := 1;
        status := w.status;
        strStatus := Snprintf(STATUS_LEN, ExitText(w.status));
        alert := true;
        FetchOutput(w.output, w.memory);
      }
    }
  }

  class Cmdctl {
    const cmd: array<Cmd?>
    var size: nat
    ghost var alerts: seq<Alert>

    /** The slots up to size hold different jobs. */
    ghost predicate Valid()
      reads this, cmd
    {
      && cmd.Length == MAX_CHILD && size <= MAX_CHILD
      && (forall i :: 0 <= i < size ==> cmd[i] != null)
      && (forall i, j :: 0 <= i < j < size ==> cmd[i] != cmd[j])
    }

    ghost function Members(): set<Cmd?>
      reads this, cmd
    {
      set i | 0 <= i < size && i < cmd.Length :: cmd[i]
    }

    ghost function Table(): (r: seq<Job>)
      reads this, cmd, Members()
      requires Valid()
      ensures |r| == size && forall i :: 0 <= i < size ==> r[i] == cmd[i].Model()
    {
      seq(size, i requires 0 <= i < size reads this, cmd, Members() requires Valid() => cmd[i].Model())
    }

    ghost function Model(): Shell
      reads this, cmd, Members()
      requires Valid()
    {
      Shell(Table(), alerts)
    }

    constructor ()
      ensures Valid() && fresh(cmd) && Model() == Empty
    {
      cmd := new Cmd?[MAX_CHILD](_ => null);
      size, alerts := 0, [];
    }

    method Add(job: Cmd)
      requires Valid() && job !in Members()
      modifies this`size, cmd
      ensures Valid()
      ensures Model() == AddJob(old(Model()), job.Model())
      ensures Members() <= old(Members()) + {job}
      ensures size > 0 && cmd[size - 1] == if old(size) < MAX_CHILD then job else old(cmd[size - 1])
    {
      if size >= MAX_CHILD {
        return;
      }
      cmd[size] := job;
      size := size + 1;
      assert Table() == old(Table()) + [job.Model()];
    }

    /** What the prompt does with a command that is not built in. */
    method StartCommand(argv: seq<string>, pid: int)
      requires Valid()
      modifies this`size, cmd, Members()
      ensures Valid()
      ensures Model() == StartJob(old(Model()), argv, pid)
      ensures fresh(Members() - old(Members()))
    {
      AddNew(argv);
      StartLast(pid);
    }

    /** A new job, in the table if there was room for it. */
    method AddNew(argv: seq<string>)
      requires Valid()
      modifies this`size, cmd
      ensures Valid() && size > 0
      ensures Model() == AddJob(old(Model()), NewJob(argv))
      ensures fresh(Members() - old(Members()))
    {
      var job := new Cmd(argv);
      assert Table() == old(Table());
      Add(job);
    }

    /** Whatever job is the last of the table is started. */
    method StartLast(pid: int)
      requires Valid() && size > 0
      modifies cmd[size - 1]
      ensures Valid()
      ensures var jobs := old(Table());
              Model() == Shell(jobs[size - 1 := Started(jobs[size - 1], pid)], alerts)
    {
      ghost var jobs := Table();
      cmd[size - 1].Start(pid);
      assert Table() == jobs[size - 1 := Started(jobs[size - 1], pid)];
    }

    method UpdateJob(k: nat, w: Wait)
      requires Valid() && k < size
      modifies this`alerts, cmd[k]
      ensures Valid()
      ensures Model() == UpdateOne(old(Model()), k, w)
    {
      var alert := cmd[k].UpdateState(w);
      if alert {
        alerts := alerts + [Alert(k, cmd[k].pid, cmd[k].status)];
      }
      assert Table() == old(Table())[k := Updated(old(Table())[k], w)];
    }

    method UpdateState(waits: seq<Wait>)
      requires Valid()
      modifies this`alerts, Members()
      ensures Valid() && Members() == old(Members())
      ensures Model() == UpdateAll(old(Model()), waits)
    {
      var i := 0;
      while i < size
        invariant 0 <= i <= size && Valid() && Members() == old(Members())
        invariant Model() == UpdateUpTo(old(Model()), waits, i)
      {
        UpdateJob(i, At(waits, i));
        i := i + 1;
      }
    }
  }

  // ---- a line of text ----

  lemma PointedAt(buf: seq<char>, pointers: seq<int>, words: seq<string>, k: nat)
    requires PointTo(buf, pointers, words) && k < |words| && NUL !in words[k]
    ensures 0 <= pointers[k] < |buf| && CString(buf[pointers[k]..], NUL) == words[k]
  {
    assert StringAt(buf, pointers[k], words[k]);
    var tail := buf[pointers[k]..];
    assert tail[..|words[k]|] == words[k];
    CStringIs(tail, NUL, |words[k]|);
  }

  /** The tokens of a line as values: copies of the strings that the pointers stand at, up to the NULL pointer. */
  method CopyArgv(buf: array<char>, pointers: array<int>, ghost words: seq<string>) returns (argv: seq<string>)
    requires |words| < pointers.Length && pointers[|words|] == -1 && PointTo(buf[..], pointers[..], words)
    requires forall k :: 0 <= k < |words| ==> NUL !in words[k]
    ensures argv == words
  {
    argv := [];
    var i := 0;
    while pointers[i] != -1
      invariant 0 <= i <= |words| && argv == words[..i]
      decreases |words| - i
    {
      PointedAt(buf[..], pointers[..], words, i);
      assert buf[..][pointers[i]..] == buf[pointers[i]..];
      argv := argv + [CString(buf[pointers[i]..], NUL)];
      i := i + 1;
    }
  }

  method ParseLine(text: string) returns (tokens: seq<string>)
    ensures tokens == Tokenizer.Tokens(CString(text, NUL))
  {
    var buf := new char[|text| + 1](i requires 0 <= i <= |text| => if i < |text| then text[i] else NUL);
    var pointers := new int[Tokenizer.ARG_MAX + 1];
    ghost var line := CString(text, NUL);
    assert buf[..|line|] == line;
    var ntok := ParseIntoTokens(buf, pointers, |line|);
    Tokenizer.WordsLack(line, NUL);
    tokens := CopyArgv(buf, pointers, Tokenizer.Tokens(line));
  }

  /** One line at the prompt. */
  method PerformLine(ctl: Cmdctl, line: Line, tokens: seq<string>)
    requires ctl.Valid() && tokens == Tokens(line)
    modifies ctl`size, ctl`alerts, ctl.cmd, ctl.Members()
    ensures ctl.Valid() && fresh(ctl.Members() - old(ctl.Members()))
    ensures ctl.Model() == Perform(old(ctl.Model()), line)
  {
    match Interpret(tokens)
    case Pause => ctl.UpdateState(line.during);
    case WaitAll => ctl.UpdateState(line.during);
    case WaitFor(k) =>
      if 0 <= k < ctl.size {
        ctl.UpdateJob(k, At(line.during, k));
      }
    case Start(argv) => ctl.StartCommand(argv, line.pid);
    case Idle =>
    case Exit =>
  }

  /** One round of the command loop. */
  method TakeTurn(ctl: Cmdctl, line: Line, tokens: seq<string>)
    requires ctl.Valid() && tokens == Tokens(line) && Interpret(tokens) != Exit
    modifies ctl`size, ctl`alerts, ctl.cmd, ctl.Members()
    ensures ctl.Valid() && fresh(ctl.Members() - old(ctl.Members()))
    ensures ctl.Model() == Turn(old(ctl.Model()), line)
  {
    PerformLine(ctl, line, tokens);
    ctl.UpdateState(line.after);
  }

  /** The command loop: it ends with the input or at the first exit, and updates all jobs after every other line. */
  method Prompt(ctl: Cmdctl, lines: seq<Line>)
    requires ctl.Valid()
    modifies ctl`size, ctl`alerts, ctl.cmd, ctl.Members()
    ensures ctl.Valid()
    ensures ctl.Model() == Session(old(ctl.Model()), lines)
  {
    var i := 0;
    assert lines[0..] == lines;
    while i < |lines|
      invariant 0 <= i <= |lines| && ctl.Valid() && fresh(ctl.Members() - old(ctl.Members()))
      invariant Session(ctl.Model(), lines[i..]) == Session(old(ctl.Model()), lines)
    {
      assert lines[i..][0] == lines[i] && lines[i..][1..] == lines[i + 1..];
      var tokens := ParseLine(lines[i].text);
      if Interpret(tokens) == Exit {
        return;
      }
      TakeTurn(ctl, lines[i], tokens);
      i := i + 1;
    }
  }

  /** The whole program: its table in the end is the history of what was typed and reported, if the table holds it. */
  method RunShell(lines: seq<Line>) returns (ctl: Cmdctl)
    ensures ctl.Valid()
    ensures |Launched(lines)| <= 1024 ==>
      && ctl.size == |Launched(lines)|
      && forall k :: 0 <= k < ctl.size ==>
           IsAs(ctl.cmd[k].Model(), Launched(lines)[k].0, Launched(lines)[k].1, FirstExit(Reports(lines, 0, k)))
  {
    ctl := new Cmdctl();
    Prompt(ctl, lines);
    if |Launched(lines)| <= 1024 {
      SessionIsHistory(lines);
      assert forall k :: 0 <= k < ctl.size ==> ctl.Model().jobs[k] == ctl.cmd[k].Model();
    }
  }
}
