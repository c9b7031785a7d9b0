/** How long a process waits until the server takes its join: one pass for each join before it, whatever clients say. */
module JoinService {
  import opened ServerModel
  import opened BroadcastLog
  import opened Protocol
  import opened ChatProperties
  import opened BoundedService
  import opened Delivery
  import opened ServerProgram
  import opened MainLoop

  // ---- every join that was taken is announced ----

  /** Who was announced, in log order: those who joined and those who were refused. */
  function Announced(log: seq<Entry>): seq<Join> {
    if log == [] then
      []
    else
      var e := log[|log| - 1];
      Announced(log[..|log| - 1]) +
      match e.origin
      case Joiner(c) => [Join(e.mesg.name, c)]
      case Refused(c) => [Join(e.mesg.name, c)]
      case _ => []
  }

  lemma AnnouncedOfAppend(log: seq<Entry>, e: Entry)
    ensures e.origin.Joiner? || e.origin.Refused? ==>
      Announced(log + [e]) == Announced(log) + [Join(e.mesg.name, e.origin.channel)]
    ensures e.origin.Sender? || e.origin.Server? ==> Announced(log + [e]) == Announced(log)
  {
    assert (log + [e])[..|log|] == log;
  }

  lemma {:induction false} AnnouncedOfMore(log: seq<Entry>, news: seq<Entry>)
    ensures Announced(log + news) == Announced(log) + Announced(news)
  {
    if news == [] {
      assert log + news == log;
    } else {
      var fewer, e := news[..|news| - 1], news[|news| - 1];
      assert log + news == (log + fewer) + [e] && news == fewer + [e];
      AnnouncedOfMore(log, fewer);
      AnnouncedOfAppend(log + fewer, e);
      AnnouncedOfAppend(fewer, e);
    }
  }

  lemma {:induction false} AnnouncedEntry(log: seq<Entry>, k: nat) returns (i: nat)
    requires k < |Announced(log)|
    ensures i < |log| && (log[i].origin.Joiner? || log[i].origin.Refused?)
    ensures Announced(log)[k] == Join(log[i].mesg.name, log[i].origin.channel)
  {
    var fewer := log[..|log| - 1];
    if k < |Announced(fewer)| {
      i := AnnouncedEntry(fewer, k);
    } else {
      i := |log| - 1;
    }
  }

  /** The announcements are the joins that were taken, in order. */
  ghost predicate Announces(v: State) {
    v.joins.taken <= |v.joins.written| && Announced(v.log) == v.joins.written[..v.joins.taken]
  }

  lemma HandleJoinAnnounces(v: State)
    requires Announces(v) && v.joins.HasData()
    ensures Announces(HandleJoin(v))
    ensures HandleJoin(v).joins == v.joins.(taken := v.joins.taken + 1)
  {
    HandleJoinIs(v);
    AnnouncedOfAppend(v.log, HandleJoin(v).log[|v.log|]);
  }

  lemma HandleClientAnnounces(v: State, i: nat)
    requires Announces(v) && i < |v.clients| && Speaking(v, i)
    ensures Announces(HandleClient(v, i)) && HandleClient(v, i).joins == v.joins
  {
    HandleClientIs(v, i);
    AnnouncedOfAppend(v.log, HandleClient(v, i).log[|v.log|]);
  }

  lemma NextAnnounces(s: Sys, step: Step)
    requires Inv(s) && Enabled(s, step) && Announces(s.server)
    ensures Announces(Next(s, step).server)
  {
    match step
    case TakeJoin => if s.server.joinReady { HandleJoinAnnounces(s.server); }
    case Serve =>
      if s.server.clients[s.pc.i].dataReady {
        ReadySlotSpeaks(s.server, s.names, s.pc.i);
        HandleClientAnnounces(s.server, s.pc.i);
      }
    case Stop => AnnouncedOfAppend(s.server.log, Entry(Server, ShutdownMesg));
    case _ =>
  }

  lemma {:induction false} RunAnnounces(s: Sys, steps: seq<Step>)
    requires Inv(s) && ValidRun(s, steps) && Announces(s.server)
    ensures Announces(Run(s, steps).server)
    decreases |steps|
  {
    if steps != [] {
      NextAnnounces(s, steps[0]);
      NextKeepsInv(s, steps[0]);
      RunAnnounces(Next(s, steps[0]), steps[1..]);
    }
  }

  /** In every run: joins announced, then joins not yet taken, are the joins that were sent, in order. */
  lemma NoJoinLost(steps: seq<Step>)
    requires ValidRun(Start, steps)
    ensures var v := Reached(steps).server;
            v.joins.taken <= |v.joins.written| && Announced(v.log) + v.joins.written[v.joins.taken..] == v.joins.written
  {
    StartHolds();
    RunAnnounces(Start, steps);
  }

  // ---- in time ----

  /** The first `goal` joins ever sent include some that are not taken. */
  predicate Awaits(s: Sys, goal: nat) {
    s.server.joins.taken < goal <= |s.server.joins.written|
  }

  /** How many more pass ends can come before `goal` joins have been taken. */
  function JoinBudget(s: Sys, goal: nat): int {
    goal - s.server.joins.taken + if s.pc == Polling || (s.pc == Joining && s.server.joinReady) then 0 else 1
  }

  /** After the step the goal is met, or it is still awaited and every pass end has been paid for. */
  predicate SpendsJoin(s: Sys, t: Sys, goal: nat, ends: nat) {
    t.server.joins.taken >= goal || (Awaits(t, goal) && JoinBudget(t, goal) + ends <= JoinBudget(s, goal))
  }

  lemma ServeSpendsNoJoin(s: Sys, goal: nat)
    requires Inv(s) && Enabled(s, Serve) && Awaits(s, goal)
    ensures SpendsJoin(s, Next(s, Serve), goal, 0)
  {
    if s.server.clients[s.pc.i].dataReady {
      ReadySlotSpeaks(s.server, s.names, s.pc.i);
      HandleClientIs(s.server, s.pc.i);
    }
  }

  lemma TakeJoinSpendsJoin(s: Sys, goal: nat)
    requires Inv(s) && Enabled(s, TakeJoin) && Awaits(s, goal)
    ensures SpendsJoin(s, Next(s, TakeJoin), goal, 0)
  {
    if s.server.joinReady {
      HandleJoinIs(s.server);
    }
  }

  lemma PollSpendsJoin(s: Sys, goal: nat)
    requires Enabled(s, Poll) && Awaits(s, goal)
    ensures SpendsJoin(s, Next(s, Poll), goal, 0)
  {
  }

  lemma ClientSpendsNoJoin(s: Sys, step: Step, goal: nat)
    requires Enabled(s, step) && (step.SendJoin? || step.SendMesg? || step.SendDeparted?) && Awaits(s, goal)
    ensures SpendsJoin(s, Next(s, step), goal, 0)
  {
  }

  lemma PassEndSpendsJoin(s: Sys, goal: nat)
    requires Enabled(s, EndPass) && Awaits(s, goal)
    ensures SpendsJoin(s, Next(s, EndPass), goal, 1)
  {
  }

  lemma NextSpendsJoin(s: Sys, step: Step, goal: nat)
    requires Inv(s) && Enabled(s, step) && s.pc != Halted && !step.Stop? && Awaits(s, goal)
    ensures SpendsJoin(s, Next(s, step), goal, if step.EndPass? then 1 else 0)
  {
    match step
    case Poll => PollSpendsJoin(s, goal);
    case TakeJoin => TakeJoinSpendsJoin(s, goal);
    case Serve => ServeSpendsNoJoin(s, goal);
    case EndPass => PassEndSpendsJoin(s, goal);
    case Stop =>
    case _ => ClientSpendsNoJoin(s, step, goal);
  }

  lemma NextTakesJoins(s: Sys, step: Step)
    requires Inv(s) && Enabled(s, step)
    ensures s.server.joins.taken <= Next(s, step).server.joins.taken
  {
    if step.TakeJoin? && s.server.joinReady {
      HandleJoinIs(s.server);
    } else if step.Serve? && s.server.clients[s.pc.i].dataReady {
      ReadySlotSpeaks(s.server, s.names, s.pc.i);
      HandleClientIs(s.server, s.pc.i);
    }
  }

  lemma {:induction false} RunTakesJoins(s: Sys, steps: seq<Step>)
    requires Inv(s) && ValidRun(s, steps)
    ensures s.server.joins.taken <= Run(s, steps).server.joins.taken
    decreases |steps|
  {
    if steps != [] {
      NextTakesJoins(s, steps[0]);
      NextKeepsInv(s, steps[0]);
      RunTakesJoins(Next(s, steps[0]), steps[1..]);
    }
  }

  lemma JoinStepTowards(s: Sys, step: Step, goal: nat)
    requires Inv(s) && Enabled(s, step) && s.pc != Halted && !step.Stop? && Awaits(s, goal)
    ensures Inv(Next(s, step)) && Next(s, step).pc != Halted
    ensures SpendsJoin(s, Next(s, step), goal, if step.EndPass? then 1 else 0)
  {
    NextKeepsInv(s, step);
    NextSpendsJoin(s, step, goal);
  }

  lemma {:induction false} TakenWithinBudget(s: Sys, steps: seq<Step>, goal: nat)
    requires Inv(s) && s.pc != Halted && ValidRun(s, steps) && Awaits(s, goal)
    requires Passes(steps) >= JoinBudget(s, goal)
    ensures Run(s, steps).server.joins.taken >= goal
    decreases |steps|
  {
    assert steps != [];
    var t := Next(s, steps[0]);
    if steps[0].Stop? {
      HaltedEndsNoPass(t, steps[1..]);
      assert false;
    } else {
      JoinStepTowards(s, steps[0], goal);
      if t.server.joins.taken >= goal {
        RunTakesJoins(t, steps[1..]);
      } else {
        TakenWithinBudget(t, steps[1..], goal);
      }
    }
  }

  // ---- and into the chat ----

  lemma {:induction false} RoomForNews(s: Sys, steps: seq<Step>)
    requires Inv(s) && ValidRun(s, steps) && AlwaysRoom(s, steps)
    ensures s.server.log <= Run(s, steps).server.log
    ensures NoneRefused(Run(s, steps).server.log[|s.server.log|..])
    decreases |steps|
  {
    if steps != [] {
      var e := NextLogs(s, steps[0]);
      NextKeepsInv(s, steps[0]);
      var t := Next(s, steps[0]);
      RoomForNews(t, steps[1..]);
      FirstNews(s.server.log, t.server.log, Run(t, steps[1..]).server.log, e);
    }
  }

  lemma FirstNews(log: seq<Entry>, next: seq<Entry>, more: seq<Entry>, e: Entry)
    requires next == log || (next == log + [e] && !e.origin.Refused?)
    requires next <= more && NoneRefused(more[|next|..])
    ensures log <= more && NoneRefused(more[|log|..])
  {
    forall k | |log| <= k < |more| ensures !more[k].origin.Refused? {
      if k >= |next| {
        assert more[k] == more[|next|..][k - |next|];
      } else {
        assert more[k] == next[k];
      }
    }
  }

  lemma EntryIsJoined(log: seq<Entry>, c: Channel, i: nat)
    requires i < |log| && log[i].origin == Joiner(c)
    ensures Joined(log, c)
  {
    assert Hits(JoinOf(c), log[i]);
  }

  /** From s to t the next n joins were taken and announced, in order. */
  ghost predicate TakesJoins(s: Sys, t: Sys, n: nat) {
    var joins := s.server.joins;
    && joins.taken + n <= |joins.written|
    && joins.taken + n <= t.server.joins.taken
    && s.server.log <= t.server.log
    && joins.written[joins.taken..joins.taken + n] <= Announced(t.server.log[|s.server.log|..])
  }

  ghost predicate AllJoined(s: Sys, t: Sys, n: nat)
    requires s.server.joins.taken + n <= |s.server.joins.written|
  {
    forall k :: s.server.joins.taken <= k < s.server.joins.taken + n ==>
      Joined(t.server.log, s.server.joins.written[k].channel)
  }

  lemma AnnouncedSince(before: Fifo<Join>, after: Fifo<Join>, log: seq<Entry>, news: seq<Entry>, n: nat)
    requires before.taken + n <= |before.written| && before.taken + n <= after.taken <= |after.written|
    requires before.written <= after.written
    requires Announced(log) == before.written[..before.taken]
    requires Announced(log + news) == after.written[..after.taken]
    ensures before.written[before.taken..before.taken + n] <= Announced(news)
  {
    AnnouncedOfMore(log, news);
    assert Announced(news) == after.written[..after.taken][before.taken..];
  }

  lemma NewsAreJoined(log: seq<Entry>, news: seq<Entry>, written: seq<Join>, from: nat, to: nat, k: nat)
    requires NoneRefused(news) && from <= k < to <= |written| && written[from..to] <= Announced(news)
    ensures Joined(log + news, written[k].channel)
  {
    assert written[from..to][k - from] == written[k];
    var i := AnnouncedEntry(news, k - from);
    assert (log + news)[|log| + i] == news[i];
    EntryIsJoined(log + news, written[k].channel, |log| + i);
  }

  lemma JoinsContinue(s: Sys, step: Step)
    requires Inv(s) && Enabled(s, step)
    ensures s.server.joins.written <= Next(s, step).server.joins.written
  {
    if step.TakeJoin? && s.server.joinReady {
      HandleJoinIs(s.server);
    } else if step.Serve? && s.server.clients[s.pc.i].dataReady {
      ReadySlotSpeaks(s.server, s.names, s.pc.i);
      HandleClientIs(s.server, s.pc.i);
    }
  }

  lemma {:induction false} RunJoinsContinue(s: Sys, steps: seq<Step>)
    requires Inv(s) && ValidRun(s, steps)
    ensures s.server.joins.written <= Run(s, steps).server.joins.written
    decreases |steps|
  {
    if steps != [] {
      JoinsContinue(s, steps[0]);
      NextKeepsInv(s, steps[0]);
      RunJoinsContinue(Next(s, steps[0]), steps[1..]);
    }
  }

  lemma TakesJoinsWithin(s: Sys, steps: seq<Step>, n: nat)
    requires Inv(s) && Announces(s.server) && s.pc == Polling && ValidRun(s, steps)
    requires s.server.joins.taken + n <= |s.server.joins.written| && Passes(steps) >= n
    ensures TakesJoins(s, Run(s, steps), n)
  {
    var t := Run(s, steps);
    if n > 0 {
      TakenWithinBudget(s, steps, s.server.joins.taken + n);
    } else {
      RunTakesJoins(s, steps);
    }
    RunAnnounces(s, steps);
    RunContinues(s, steps);
    RunJoinsContinue(s, steps);
    NewsOf(s.server.log, t.server.log);
    AnnouncedSince(s.server.joins, t.server.joins, s.server.log, t.server.log[|s.server.log|..], n);
  }

  lemma AllJoinedFrom(s: Sys, t: Sys, n: nat)
    requires TakesJoins(s, t, n) && NoneRefused(t.server.log[|s.server.log|..])
    ensures AllJoined(s, t, n)
  {
    var log, joins, news := s.server.log, s.server.joins, t.server.log[|s.server.log|..];
    NewsOf(log, t.server.log);
    forall k | joins.taken <= k < joins.taken + n ensures Joined(t.server.log, joins.written[k].channel) {
      NewsAreJoined(log, news, joins.written, joins.taken, joins.taken + n, k);
    }
  }

  lemma AllJoinedWithin(s: Sys, steps: seq<Step>, n: nat)
    requires Inv(s) && ValidRun(s, steps) && AlwaysRoom(s, steps) && TakesJoins(s, Run(s, steps), n)
    ensures AllJoined(s, Run(s, steps), n)
  {
    RoomForNews(s, steps);
    AllJoinedFrom(s, Run(s, steps), n);
  }

  /**
   In every run: n joins that wait when a pass begins have all been taken and announced, in order, once n passes have
   ended, however much the clients have to say; and if there was room for all, those processes are in the chat or
   have been.
   */
  lemma BoundedJoins(before: seq<Step>, steps: seq<Step>, n: nat)
    requires ValidRun(Start, before) && Run(Start, before).pc == Polling
    requires var s := Run(Start, before);
             && ValidRun(s, steps) && Passes(steps) >= n
             && s.server.joins.taken + n <= |s.server.joins.written|
    ensures var s := Run(Start, before);
            && TakesJoins(s, Run(s, steps), n)
            && (AlwaysRoom(s, steps) ==> AllJoined(s, Run(s, steps), n))
  {
    ReachedInv(before);
    StartHolds();
    RunAnnounces(Start, before);
    var s := Run(Start, before);
    TakesJoinsWithin(s, steps, n);
    if AlwaysRoom(s, steps) {
      AllJoinedWithin(s, steps, n);
    }
  }

  /** The bound for the array program: n turns of the main loop take n joins that wait. */
  method TakeJoinsInTime(server: ChatServer, names: map<Channel, string>, wanted: (nat, nat) -> seq<Step>, n: nat)
    returns (names': map<Channel, string>, ghost steps: seq<Step>)
    requires server.Valid() && Inv(Snapshot(server, Polling, names)) && Announces(server.Model())
    requires server.joins.taken + n <= |server.joins.written|
    modifies server, server.client
    ensures server.Valid()
    ensures LeadsTo(old(Snapshot(server, Polling, names)), steps, Snapshot(server, Polling, names'), n)
    ensures var s := old(Snapshot(server, Polling, names));
            && TakesJoins(s, Snapshot(server, Polling, names'), n)
            && (AlwaysRoom(s, steps) ==> AllJoined(s, Snapshot(server, Polling, names'), n))
  {
    ghost var s := Snapshot(server, Polling, names);
    names', steps := RunPasses(server, names, wanted, n);
    TakesJoinsWithin(s, steps, n);
    if AlwaysRoom(s, steps) {
      AllJoinedWithin(s, steps, n);
    }
  }
}
