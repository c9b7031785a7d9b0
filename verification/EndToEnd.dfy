/** From keys typed at one client to what the whole chat sees, and from the log to what one client shows. */
module EndToEnd {
  import opened ServerModel
  import opened BroadcastLog
  import opened Protocol
  import opened ChatProperties
  import opened BoundedService
  import opened LineEditor
  import opened ChatClient

  // ---- from keys to the log ----

  /** The step by which a client writes message m. */
  function StepFor(c: Channel, m: Mesg): Step {
    if m.kind == DEPARTED then SendDeparted(c) else SendMesg(c, m.body)
  }

  /** If the step is one by which c writes, c writes the next message of its session. */
  predicate FollowsKeys(s: Sys, step: Step, c: Channel, keys: seq<Key>)
    requires Enabled(s, step)
  {
    WritesFor(step, c) ==>
      var session, k := Session(s.names[c], keys), |s.server.toServer[c].written|;
      k < |session| && step == StepFor(c, session[k])
  }

  /** A run in which client c, and it alone need be, is driven by its user thread over these keys. */
  ghost predicate Driven(s: Sys, steps: seq<Step>, c: Channel, keys: seq<Key>)
    requires ValidRun(s, steps)
    decreases |steps|
  {
    steps == [] || (FollowsKeys(s, steps[0], c, keys) && Driven(Next(s, steps[0]), steps[1..], c, keys))
  }

  /** A client that has written the first k messages of its session can write the next one, and that is a step of it. */
  lemma SessionIsAllowed(s: Sys, c: Channel, keys: seq<Key>, k: nat)
    requires c in s.names && c in s.server.toServer
    requires k < |Session(s.names[c], keys)|
    requires s.server.toServer[c].written == Session(s.names[c], keys)[..k]
    ensures var m := Session(s.names[c], keys)[k];
            && Enabled(s, StepFor(c, m)) && FollowsKeys(s, StepFor(c, m), c, keys)
            && Next(s, StepFor(c, m)).server.toServer[c].written == Session(s.names[c], keys)[..k + 1]
  {
    SessionShape(s.names[c], keys);
  }

  /** What the client has written so far is the start of what its keys stand for. */
  ghost predicate OnScript(s: Sys, c: Channel, keys: seq<Key>) {
    c in s.server.toServer ==> c in s.names && s.server.toServer[c].written <= Session(s.names[c], keys)
  }

  lemma NamesStay(s: Sys, step: Step, c: Channel)
    requires Inv(s) && Enabled(s, step) && c in Next(s, step).server.toServer
    ensures c in Next(s, step).names
    ensures c in s.names ==> Next(s, step).names[c] == s.names[c]
  {
    NextKeepsInv(s, step);
    HistoryOfChannel(Next(s, step), c);
  }

  lemma OwnStepStaysOnScript(s: Sys, step: Step, c: Channel, keys: seq<Key>)
    requires Enabled(s, step) && WritesFor(step, c) && OnScript(s, c, keys) && FollowsKeys(s, step, c, keys)
    ensures OnScript(Next(s, step), c, keys)
  {
    SessionIsAllowed(s, c, keys, |s.server.toServer[c].written|);
  }

  lemma StaysOnScript(s: Sys, step: Step, c: Channel, keys: seq<Key>)
    requires Inv(s) && Enabled(s, step) && OnScript(s, c, keys) && FollowsKeys(s, step, c, keys)
    ensures OnScript(Next(s, step), c, keys)
  {
    if WritesFor(step, c) {
      OwnStepStaysOnScript(s, step, c, keys);
    } else if c in Next(s, step).server.toServer {
      OthersWriteNothing(s, step, c);
      NamesStay(s, step, c);
    }
  }

  lemma {:induction false} DrivenIsOnScript(s: Sys, steps: seq<Step>, c: Channel, keys: seq<Key>)
    requires Inv(s) && ValidRun(s, steps) && OnScript(s, c, keys) && Driven(s, steps, c, keys)
    ensures OnScript(Run(s, steps), c, keys)
    decreases |steps|
  {
    if steps != [] {
      StaysOnScript(s, steps[0], c, keys);
      NextKeepsInv(s, steps[0]);
      DrivenIsOnScript(Next(s, steps[0]), steps[1..], c, keys);
    }
  }

  /**
   In every run in which a client is driven by its keys, whatever the others do, the chat has been relayed the start
   of the session that the keys stand for, and all of it once the client's departure is relayed.
   */
  lemma TypedIsRelayed(steps: seq<Step>, c: Channel, keys: seq<Key>)
    requires ValidRun(Start, steps) && Driven(Start, steps, c, keys) && c in Reached(steps).server.toServer
    ensures var s := Reached(steps);
            var relayed := Relayed(s.server.log, c);
            && c in s.names && relayed <= Session(s.names[c], keys)
            && (Departed(s.server.log, c) ==> InputEnds(keys) && relayed == Session(s.names[c], keys))
  {
    StartHolds();
    DrivenIsOnScript(Start, steps, c, keys);
    NoLoss(steps, c);
    var s := Reached(steps);
    if Departed(s.server.log, c) {
      LeaverHasSaidAll(s.server.toServer[c].written, s.names[c], keys);
    }
  }

  lemma LeaverHasSaidAll(written: seq<Mesg>, name: string, keys: seq<Key>)
    requires written <= Session(name, keys) && HasLeft(written)
    ensures InputEnds(keys) && written == Session(name, keys)
  {
    SessionShape(name, keys);
    var session := Session(name, keys);
    assert session[|written| - 1] == written[|written| - 1];
    assert written == session[..|written|];
  }

  // ---- from the log to the screen ----

  /**
   Whatever part of its FIFO a client's server thread has read, it goes on after every message of it but a SHUTDOWN,
   and that stands only at the end of all that was sent, of a server that stopped while the client was in the chat.
   */
  lemma ArrivedIsShown(steps: seq<Step>, c: Channel, arrived: seq<Mesg>)
    requires ValidRun(Start, steps) && c in Reached(steps).server.toClient
    requires arrived <= Reached(steps).server.toClient[c]
    ensures var s := Reached(steps);
            && UpToShutdown(arrived) == arrived
            && (Stops(arrived) <==> arrived == s.server.toClient[c] && s.pc == Halted && !Departed(s.server.log, c))
  {
    ShutdownIsLast(steps, c);
    Agreement(steps, c);
    var sent := Reached(steps).server.toClient[c];
    assert sent != [];
    UpToShutdownIs(arrived, |arrived|);
    assert forall k :: 0 <= k < |arrived| ==> arrived[k] == sent[k];
    if Stops(arrived) {
      var k :| 0 <= k < |arrived| && arrived[k].kind == SHUTDOWN;
      assert sent[k].kind == SHUTDOWN;
    } else if arrived == sent {
      assert sent[|sent| - 1].kind != SHUTDOWN;
    }
  }

  lemma MesgsOfPart(log: seq<Entry>, from: nat, to: nat, part: seq<Mesg>)
    requires from <= to <= |log| && part <= Mesgs(log[from..to])
    ensures part == Mesgs(log[from..from + |part|])
  {
  }

  lemma ArrivedIsLogged(steps: seq<Step>, c: Channel, arrived: seq<Mesg>)
    requires ValidRun(Start, steps) && c in Reached(steps).server.toClient
    requires arrived <= Reached(steps).server.toClient[c]
    ensures var log := Reached(steps).server.log;
            var from := First(log, JoinOf(c));
            from + |arrived| <= |log| && arrived == Mesgs(log[from..from + |arrived|])
  {
    Agreement(steps, c);
    var log := Reached(steps).server.log;
    MesgsOfPart(log, First(log, JoinOf(c)), First(log, DepartureOf(c)), arrived);
  }

  /**
   The server thread of any client, over what it reads before it is cancelled or waits: it shows that part of the log,
   from the client's own JOINED on, and stops by itself only at the SHUTDOWN.
   */
  method ShowChat(ghost steps: seq<Step>, ghost c: Channel, arrived: seq<Mesg>)
    returns (shown: seq<string>, stopped: bool)
    requires ValidRun(Start, steps) && c in Reached(steps).server.toClient
    requires arrived <= Reached(steps).server.toClient[c]
    ensures var log := Reached(steps).server.log;
            var from := First(log, JoinOf(c));
            from + |arrived| <= |log| && shown == ShowAll(Mesgs(log[from..from + |arrived|]))
    ensures var s := Reached(steps);
            stopped <==> arrived == s.server.toClient[c] && s.pc == Halted && !Departed(s.server.log, c)
  {
    ArrivedIsLogged(steps, c, arrived);
    ArrivedIsShown(steps, c, arrived);
    shown, stopped := ServerToUser(arrived);
  }

  /**
   A client that has not left shows, once it has read all that was sent to it, all that was broadcast since its own
   JOINED, and stops exactly if the server did. One that has left has cancelled its server thread; see ShowChat.
   */
  lemma AllIsShown(steps: seq<Step>, c: Channel)
    requires ValidRun(Start, steps) && c in Reached(steps).server.toClient && c in Reached(steps).server.toServer
    requires !HasLeft(Reached(steps).server.toServer[c].written)
    ensures var s := Reached(steps);
            var sent := s.server.toClient[c];
            && ShowAll(UpToShutdown(sent)) == ShowAll(Mesgs(s.server.log[First(s.server.log, JoinOf(c))..]))
            && (Stops(sent) <==> s.pc == Halted)
  {
    NoLoss(steps, c);
    Agreement(steps, c);
    ArrivedIsShown(steps, c, Reached(steps).server.toClient[c]);
    var log := Reached(steps).server.log;
    ToTheEnd(log, First(log, JoinOf(c)), First(log, DepartureOf(c)));
  }

  lemma ToTheEnd(log: seq<Entry>, from: nat, to: nat)
    requires from <= to == |log|
    ensures log[from..to] == log[from..]
  {
  }

  // ---- the lines on the screen ----

  predicate Known(m: Mesg) {
    m.kind == MESG || m.kind == JOINED || m.kind == DEPARTED || m.kind == SHUTDOWN
  }

  /** The line for a message, by its kind. */
  predicate LineFor(line: string, m: Mesg) {
    && (m.kind == MESG ==> line == "[" + m.name + "] : " + m.body)
    && (m.kind == JOINED ==> line == "-- " + m.name + " JOINED --")
    && (m.kind == DEPARTED ==> line == "-- " + m.name + " DEPARTED --")
    && (m.kind == SHUTDOWN ==> line == "!!! server is shutting down !!!")
  }

  /** One line for each message, in order. */
  lemma {:induction false} OneLineEach(arrived: seq<Mesg>)
    requires forall k :: 0 <= k < |arrived| ==> Known(arrived[k])
    ensures |ShowAll(arrived)| == |arrived|
    ensures forall k :: 0 <= k < |arrived| ==> LineFor(ShowAll(arrived)[k], arrived[k])
  {
    if arrived != [] {
      OneLineEach(arrived[..|arrived| - 1]);
    }
  }

  lemma JoinedLine(line: string, name: string)
    requires line == "-- " + name + " JOINED --"
    ensures |line| == |name| + 13 && line[0] == '-' && line[|line| - 6] == 'N' && line[3..|line| - 10] == name
  {
  }

  lemma DepartedLine(line: string, name: string)
    requires line == "-- " + name + " DEPARTED --"
    ensures |line| == |name| + 15 && line[0] == '-' && line[|line| - 6] == 'T' && line[3..|line| - 12] == name
  {
  }

  lemma MesgLine(line: string, name: string, body: string)
    requires line == "[" + name + "] : " + body
    ensures line[0] == '[' && |line| == |name| + 5 + |body| && line[|name| + 1] == ']'
    ensures line[1..|name| + 1] == name && line[|name| + 5..] == body
    ensures ']' !in name ==> forall i :: 1 <= i <= |name| ==> line[i] != ']'
  {
    assert forall i :: 1 <= i <= |name| ==> line[i] == name[i - 1];
  }

  /** Where the first ] of a line stands tells how long the name is. */
  lemma MesgLinesTell(line: string, name: string, body: string, name': string, body': string)
    requires ']' !in name && ']' !in name'
    requires line == "[" + name + "] : " + body && line == "[" + name' + "] : " + body'
    ensures name == name' && body == body'
  {
    MesgLine(line, name, body);
    MesgLine(line, name', body');
    assert |name| == |name'|;
  }

  /** A line tells what was broadcast: its kind, who it is about, and what was said, if no name holds a ]. */
  lemma LinesTellApart(line: string, m: Mesg, n: Mesg)
    requires Known(m) && Known(n) && LineFor(line, m) && LineFor(line, n) && ']' !in m.name && ']' !in n.name
    ensures m.kind == n.kind
    ensures m.kind != SHUTDOWN ==> m.name == n.name
    ensures m.kind == MESG ==> m.body == n.body
  {
    FirstTells(line, m);
    FirstTells(line, n);
    if m.kind == MESG {
      MesgLinesTell(line, m.name, m.body, n.name, n.body);
    }
  }

  lemma FirstTells(line: string, m: Mesg)
    requires Known(m) && LineFor(line, m)
    ensures line != ""
    ensures m.kind == MESG <==> line[0] == '['
    ensures m.kind == SHUTDOWN <==> line[0] == '!'
    ensures m.kind == JOINED ==> |line| >= 13 && line[|line| - 6] == 'N' && line[3..|line| - 10] == m.name
    ensures m.kind == DEPARTED ==> |line| >= 15 && line[|line| - 6] == 'T' && line[3..|line| - 12] == m.name
  {
    match m.kind
    case MESG => MesgLine(line, m.name, m.body);
    case JOINED => JoinedLine(line, m.name);
    case DEPARTED => DepartedLine(line, m.name);
    case _ =>
  }

  lemma LoggedIsKnown(steps: seq<Step>)
    requires ValidRun(Start, steps)
    ensures forall k :: 0 <= k < |Reached(steps).server.log| ==> Known(Reached(steps).server.log[k].mesg)
  {
    ReachedInv(steps);
    var s := Reached(steps);
    forall k | 0 <= k < |s.server.log| ensures Known(s.server.log[k].mesg) {
      EntryIsOk(s.server, s.names, s.pc == Halted, k);
    }
  }

  lemma SliceIsKnown(log: seq<Entry>, from: nat, arrived: seq<Mesg>)
    requires forall k :: 0 <= k < |log| ==> Known(log[k].mesg)
    requires from + |arrived| <= |log| && arrived == Mesgs(log[from..from + |arrived|])
    ensures forall k :: 0 <= k < |arrived| ==> Known(arrived[k]) && arrived[k] == log[from + k].mesg
  {
  }

  lemma ArrivedIsKnown(steps: seq<Step>, c: Channel, arrived: seq<Mesg>)
    requires ValidRun(Start, steps) && c in Reached(steps).server.toClient
    requires arrived <= Reached(steps).server.toClient[c]
    ensures var log := Reached(steps).server.log;
            var from := First(log, JoinOf(c));
            && from + |arrived| <= |log|
            && forall k :: 0 <= k < |arrived| ==> Known(arrived[k]) && arrived[k] == log[from + k].mesg
  {
    LoggedIsKnown(steps);
    ArrivedIsLogged(steps, c, arrived);
    SliceIsKnown(Reached(steps).server.log, First(Reached(steps).server.log, JoinOf(c)), arrived);
  }

  /** What a client has read is shown line by line, each the line of the broadcast that stands there in the log. */
  lemma ShownIsLog(steps: seq<Step>, c: Channel, arrived: seq<Mesg>)
    requires ValidRun(Start, steps) && c in Reached(steps).server.toClient
    requires arrived <= Reached(steps).server.toClient[c]
    ensures var log := Reached(steps).server.log;
            var from := First(log, JoinOf(c));
            && from + |arrived| <= |log| && |ShowAll(arrived)| == |arrived|
            && forall k :: 0 <= k < |arrived| ==> LineFor(ShowAll(arrived)[k], log[from + k].mesg)
  {
    ArrivedIsKnown(steps, c, arrived);
    OneLineEach(arrived);
  }
}
