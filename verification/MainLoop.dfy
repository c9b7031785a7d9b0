/** One pass of the server's main loop, with the clients writing between any two of its handlers. */
module MainLoop {
  import opened ServerModel
  import opened Protocol
  import opened BoundedService
  import opened ServerProgram

  ghost function Snapshot(server: ChatServer, pc: Pc, names: map<Channel, string>): Sys
    reads server, server.client
    requires server.nClients <= server.client.Length
  {
    Sys(server.Model(), pc, names)
  }

  // ---- runs put together ----

  lemma {:induction false} RunThen(s: Sys, first: seq<Step>, second: seq<Step>)
    requires ValidRun(s, first) && ValidRun(Run(s, first), second)
    ensures ValidRun(s, first + second)
    ensures Run(s, first + second) == Run(Run(s, first), second)
    ensures Passes(first + second) == Passes(first) + Passes(second)
    decreases |first|
  {
    if first == [] {
      assert first + second == second;
    } else {
      RunThen(Next(s, first[0]), first[1..], second);
      assert (first + second)[1..] == first[1..] + second;
    }
  }

  lemma RunOne(s: Sys, steps: seq<Step>, step: Step)
    requires ValidRun(s, steps) && Enabled(Run(s, steps), step)
    ensures ValidRun(s, steps + [step])
    ensures Run(s, steps + [step]) == Next(Run(s, steps), step)
    ensures Passes(steps + [step]) == Passes(steps) + if step.EndPass? then 1 else 0
  {
    var t := Run(s, steps);
    assert ValidRun(Next(t, step), [step][1..]);
    assert ValidRun(t, [step]);
    assert Run(t, [step]) == Run(Next(t, step), [step][1..]);
    assert Passes([step]) == if step.EndPass? then 1 else 0;
    RunThen(s, steps, [step]);
  }

  // ---- the clients between two handlers ----

  predicate ClientStep(step: Step) {
    step.SendJoin? || step.SendMesg? || step.SendDeparted?
  }

  /** The clients take the actions they want to take, in order; one that is not possible is not taken. */
  function Act(s: Sys, wanted: seq<Step>): Sys
    decreases |wanted|
  {
    if wanted == [] then
      s
    else if ClientStep(wanted[0]) && Enabled(s, wanted[0]) then
      Act(Next(s, wanted[0]), wanted[1..])
    else
      Act(s, wanted[1..])
  }

  lemma {:induction false} ActIsARun(s: Sys, wanted: seq<Step>) returns (steps: seq<Step>)
    ensures ValidRun(s, steps) && Run(s, steps) == Act(s, wanted) && Passes(steps) == 0
    ensures Act(s, wanted).pc == s.pc
    decreases |wanted|
  {
    if wanted == [] {
      steps := [];
    } else if ClientStep(wanted[0]) && Enabled(s, wanted[0]) {
      var rest := ActIsARun(Next(s, wanted[0]), wanted[1..]);
      steps := [wanted[0]] + rest;
      assert steps[1..] == rest;
    } else {
      steps := ActIsARun(s, wanted[1..]);
    }
  }

  lemma {:induction false} ActLeavesServer(s: Sys, wanted: seq<Step>)
    ensures var t := Act(s, wanted).server;
            && t == s.server.(joins := t.joins, toServer := t.toServer)
            && t.toServer.Keys == s.server.toServer.Keys
    decreases |wanted|
  {
    if wanted != [] {
      if ClientStep(wanted[0]) && Enabled(s, wanted[0]) {
        var t := Next(s, wanted[0]);
        assert t.server.toServer.Keys == s.server.toServer.Keys;
        ActLeavesServer(t, wanted[1..]);
      } else {
        ActLeavesServer(s, wanted[1..]);
      }
    }
  }

  method ActOnce(server: ChatServer, ghost pc: Pc, names: map<Channel, string>, step: Step)
    returns (names': map<Channel, string>)
    requires server.Valid()
    modifies server`joins, server`toServer
    ensures server.Valid()
    ensures var s := old(Snapshot(server, pc, names));
            Snapshot(server, pc, names') == if ClientStep(step) && Enabled(s, step) then Next(s, step) else s
  {
    names' := names;
    match step
    case SendJoin(c, name) =>
      if c !in names {
        server.joins := server.joins.Put(Join(name, c));
        names' := names[c := name];
      }
    case SendMesg(c, body) =>
      if c in names && c in server.toServer && !HasLeft(server.toServer[c].written) {
        server.toServer := server.toServer[c := server.toServer[c].Put(Mesg(MESG, names[c], body))];
      }
    case SendDeparted(c) =>
      if c in names && c in server.toServer && !HasLeft(server.toServer[c].written) {
        server.toServer := server.toServer[c := server.toServer[c].Put(Mesg(DEPARTED, names[c], ""))];
      }
    case _ =>
  }

  method ClientsAct(server: ChatServer, ghost pc: Pc, names: map<Channel, string>, wanted: seq<Step>)
    returns (names': map<Channel, string>)
    requires server.Valid()
    modifies server`joins, server`toServer
    ensures server.Valid()
    ensures Snapshot(server, pc, names') == Act(old(Snapshot(server, pc, names)), wanted)
  {
    names' := names;
    var k := 0;
    while k < |wanted|
      invariant 0 <= k <= |wanted| && server.Valid()
      invariant Act(Snapshot(server, pc, names'), wanted[k..]) == Act(old(Snapshot(server, pc, names)), wanted)
    {
      names' := ActOnce(server, pc, names', wanted[k]);
      assert wanted[k..][1..] == wanted[k + 1..];
      k := k + 1;
    }
  }

  // ---- the pass ----

  /** The steps lead from s to t, and n passes end on the way. */
  ghost predicate LeadsTo(s: Sys, steps: seq<Step>, t: Sys, n: nat) {
    ValidRun(s, steps) && Run(s, steps) == t && Passes(steps) == n && Inv(t)
  }

  lemma OneMore(s: Sys, steps: seq<Step>, t: Sys, n: nat, step: Step)
    requires LeadsTo(s, steps, t, n) && Enabled(t, step)
    ensures LeadsTo(s, steps + [step], Next(t, step), if step.EndPass? then n + 1 else n)
  {
    RunOne(s, steps, step);
    NextKeepsInv(t, step);
  }

  lemma ActingMore(s: Sys, steps: seq<Step>, t: Sys, wanted: seq<Step>) returns (more: seq<Step>)
    requires LeadsTo(s, steps, t, 0)
    ensures LeadsTo(s, more, Act(t, wanted), 0)
  {
    var acts := ActIsARun(t, wanted);
    RunKeepsInv(t, acts);
    RunThen(s, steps, acts);
    more := steps + acts;
  }

  method TakeAJoin(server: ChatServer, ghost names: map<Channel, string>)
    requires server.Valid() && Inv(Snapshot(server, Joining, names))
    modifies server, server.client
    ensures server.Valid()
    ensures Snapshot(server, Serving(0), names) == Next(old(Snapshot(server, Joining, names)), TakeJoin)
  {
    if server.joinReady {
      assert Waiting(server.joins, server.joins.written[server.joins.taken].channel);
      server.HandleJoin();
    }
  }

  /** What a step of the pass comes to, given what the invariant promises of a ready slot. */
  lemma ServeIs(s: Sys, i: nat)
    requires s.pc == Serving(i) && i < |s.server.clients|
    requires s.server.clients[i].dataReady ==> Speaking(s.server, i)
    ensures !s.server.clients[i].dataReady ==> Next(s, Serve) == s.(pc := Serving(i + 1))
    ensures s.server.clients[i].dataReady ==>
      && |HandleClient(s.server, i).clients| <= |s.server.clients|
      && Next(s, Serve) == s.(server := HandleClient(s.server, i), pc := Serving(i + 1))
  {
    if s.server.clients[i].dataReady {
      HandleClientIs(s.server, i);
    }
  }

  lemma ReadyToServe(s: Sys, i: nat)
    requires Inv(s) && s.pc != Halted && i < |s.server.clients| && s.server.clients[i].dataReady
    ensures Speaking(s.server, i)
  {
    ReadySlotSpeaks(s.server, s.names, i);
  }

  method ServeClient(server: ChatServer, i: nat, ghost names: map<Channel, string>)
    requires server.Valid() && i < server.nClients && Inv(Snapshot(server, Serving(i), names))
    modifies server, server.client
    ensures server.Valid() && server.nClients <= old(server.nClients)
    ensures Snapshot(server, Serving(i + 1), names) == Next(old(Snapshot(server, Serving(i), names)), Serve)
  {
    ghost var s := Snapshot(server, Serving(i), names);
    if s.server.clients[i].dataReady {
      ReadyToServe(s, i);
    }
    ServeIs(s, i);
    if server.client[i].dataReady {
      server.HandleClient(i);
    }
  }

  /** A pass up to its first slot: sources are polled and a join is taken, and after each the clients act. */
  method OpenPass(server: ChatServer, names: map<Channel, string>, wanted: seq<Step>, afterJoin: seq<Step>)
    returns (names': map<Channel, string>, ghost steps: seq<Step>)
    requires server.Valid() && Inv(Snapshot(server, Polling, names))
    modifies server, server.client
    ensures server.Valid()
    ensures LeadsTo(old(Snapshot(server, Polling, names)), steps, Snapshot(server, Serving(0), names'), 0)
  {
    ghost var s := Snapshot(server, Polling, names);
    OneMore(s, [], s, 0, Poll);
    server.CheckSources();
    names', steps := ActNext(server, Joining, names, wanted, s, [] + [Poll]);
    OneMore(s, steps, Snapshot(server, Joining, names'), 0, TakeJoin);
    TakeAJoin(server, names');
    names', steps := ActNext(server, Serving(0), names', afterJoin, s, steps + [TakeJoin]);
  }

  method ServeNext(server: ChatServer, i: nat, ghost names: map<Channel, string>, ghost s: Sys, ghost steps: seq<Step>)
    returns (ghost steps': seq<Step>)
    requires server.Valid() && i < server.nClients
    requires LeadsTo(s, steps, Snapshot(server, Serving(i), names), 0)
    modifies server, server.client
    ensures server.Valid() && server.nClients <= old(server.nClients)
    ensures LeadsTo(s, steps', Snapshot(server, Serving(i + 1), names), 0)
  {
    OneMore(s, steps, Snapshot(server, Serving(i), names), 0, Serve);
    ServeClient(server, i, names);
    steps' := steps + [Serve];
  }

  method ActNext(server: ChatServer, ghost pc: Pc, names: map<Channel, string>, wanted: seq<Step>,
                 ghost s: Sys, ghost steps: seq<Step>)
    returns (names': map<Channel, string>, ghost steps': seq<Step>)
    requires server.Valid() && LeadsTo(s, steps, Snapshot(server, pc, names), 0)
    modifies server`joins, server`toServer
    ensures server.Valid() && LeadsTo(s, steps', Snapshot(server, pc, names'), 0)
  {
    steps' := ActingMore(s, steps, Snapshot(server, pc, names), wanted);
    names' := ClientsAct(server, pc, names, wanted);
  }

  /**
   One pass of the main loop is a run of the state machine in which exactly one pass ends, whatever the clients
   write between its handlers. The loop bound and the slots change under the index; the loop ends all the same.
   */
  method Pass(server: ChatServer, names: map<Channel, string>, wanted: nat -> seq<Step>)
    returns (names': map<Channel, string>, ghost steps: seq<Step>)
    requires server.Valid() && Inv(Snapshot(server, Polling, names))
    modifies server, server.client
    ensures server.Valid()
    ensures LeadsTo(old(Snapshot(server, Polling, names)), steps, Snapshot(server, Polling, names'), 1)
  {
    ghost var s := Snapshot(server, Polling, names);
    names', steps := OpenPass(server, names, wanted(0), wanted(1));
    var i := 0;
    while i < server.nClients
      invariant server.Valid() && LeadsTo(s, steps, Snapshot(server, Serving(i), names'), 0)
      decreases server.nClients - i
    {
      steps := ServeNext(server, i, names', s, steps);
      i := i + 1;
      names', steps := ActNext(server, Serving(i), names', wanted(i + 1), s, steps);
    }
    OneMore(s, steps, Snapshot(server, Serving(i), names'), 0, EndPass);
    steps := steps + [EndPass];
  }
}
