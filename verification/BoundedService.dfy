/**
 How long a message can wait. A departure shifts the table under the main loop: the client behind the one that
 left moves into the slot just served, has its ready flag cleared, and is skipped for the rest of the pass. It is
 still read in time, because each such skip has moved it one place forward.
 */
module BoundedService {
  import opened ServerModel
  import opened Protocol

  /** The client's place in the table, or the length of the table. */
  function Position(clients: seq<Client>, c: Channel): (p: nat)
    ensures p <= |clients|
    ensures p < |clients| ==> clients[p].channel == c
    ensures forall k :: 0 <= k < p ==> clients[k].channel != c
  {
    if clients == [] || clients[0].channel == c then 0 else 1 + Position(clients[1..], c)
  }

  function Taken(s: Sys, c: Channel): nat {
    if c in s.server.toServer then s.server.toServer[c].taken else 0
  }

  function Passes(steps: seq<Step>): nat {
    if steps == [] then 0 else (if steps[0].EndPass? then 1 else 0) + Passes(steps[1..])
  }

  /** Whether the pass under way will still come to the client in slot p. */
  predicate Due(s: Sys, p: nat)
    requires p < |s.server.clients|
  {
    match s.pc
    case Polling => true
    case Joining => s.server.clients[p].dataReady
    case Serving(i) => i <= p && s.server.clients[p].dataReady
    case _ => false
  }

  /** The client is in the table and has written at least `goal` messages. */
  predicate Expects(s: Sys, c: Channel, goal: nat) {
    && Connected(s.server.clients, c)
    && c in s.server.toServer && goal <= |s.server.toServer[c].written|
  }

  /** How many more pass ends can come before `goal` messages of c have been read. */
  function Budget(s: Sys, c: Channel, goal: nat): int
    requires Connected(s.server.clients, c)
  {
    var p := Position(s.server.clients, c);
    p + (goal - Taken(s, c)) + if Due(s, p) then 0 else 1
  }

  lemma PositionIs(clients: seq<Client>, c: Channel, p: nat)
    requires p < |clients| && clients[p].channel == c && DistinctChannels(clients)
    ensures Position(clients, c) == p
  {
  }

  lemma ConnectedAt(clients: seq<Client>, c: Channel, p: nat)
    requires p < |clients| && clients[p].channel == c
    ensures Connected(clients, c)
  {
  }

  lemma SlotsAfterRemove(clients: seq<Client>, i: nat)
    requires i < |clients| && DistinctChannels(clients)
    ensures var rest := RemoveAt(clients, i);
            DistinctChannels(rest) && forall k :: 0 <= k < |rest| ==> rest[k] == clients[if k < i then k else k + 1]
  {
  }

  lemma PositionAfterRemove(clients: seq<Client>, i: nat, c: Channel)
    requires i < |clients| && DistinctChannels(clients) && Connected(clients, c) && c != clients[i].channel
    ensures var rest := RemoveAt(clients, i);
            var p := Position(clients, c);
            var q := if i < p then p - 1 else p;
            q < |rest| && rest[q] == clients[p] && Position(rest, c) == q
  {
    SlotsAfterRemove(clients, i);
    var p := Position(clients, c);
    PositionIs(RemoveAt(clients, i), c, if i < p then p - 1 else p);
  }

  lemma PositionAfterClear(clients: seq<Client>, i: nat, c: Channel)
    requires DistinctChannels(clients) && Connected(clients, c)
    ensures Connected(ClearFlag(clients, i), c)
    ensures var p := Position(clients, c);
            && Position(ClearFlag(clients, i), c) == p
            && ClearFlag(clients, i)[p] == clients[p].(dataReady := clients[p].dataReady && p != i)
  {
    ClearFlagKeeps(clients, i);
    PositionIs(ClearFlag(clients, i), c, Position(clients, c));
  }

  /** One handled client: another client's place drops exactly when the one that left stood before it. */
  lemma HandleClientMoves(v: State, i: nat, c: Channel)
    requires DistinctChannels(v.clients)
    requires i < |v.clients| && ClientHasData(v, v.clients[i].channel)
    requires var m := NextMesg(v, v.clients[i].channel); m.kind == MESG || m.kind == DEPARTED
    requires Connected(v.clients, c) && c != v.clients[i].channel
    ensures var after := HandleClient(v, i).clients;
            var p, q := Position(v.clients, c), Position(after, c);
            && Connected(after, c)
            && q == (if NextMesg(v, v.clients[i].channel).kind == DEPARTED && i < p then p - 1 else p)
            && after[q].dataReady == (v.clients[p].dataReady && q != i)
  {
    var after := TableAfter(v, i, NextMesg(v, v.clients[i].channel));
    HandleClientIs(v, i);
    ConnectedAfterRemove(v.clients, i, c);
    PositionAfterRemove(v.clients, i, c);
    PositionAfterClear(after, i, c);
  }

  lemma HandleClientReads(v: State, i: nat, c: Channel)
    requires DistinctChannels(v.clients)
    requires i < |v.clients| && v.clients[i].channel == c && ClientHasData(v, c)
    requires NextMesg(v, c).kind == MESG || NextMesg(v, c).kind == DEPARTED
    ensures var w := HandleClient(v, i);
            && w.toServer[c] == v.toServer[c].(taken := v.toServer[c].taken + 1)
            && (NextMesg(v, c).kind == MESG ==>
                  Connected(w.clients, c) && Position(w.clients, c) == i && !w.clients[i].dataReady)
            && (NextMesg(v, c).kind == DEPARTED ==> !Connected(w.clients, c))
  {
    HandleClientIs(v, i);
    ConnectedAfterRemove(v.clients, i, c);
    ClearFlagKeeps(TableAfter(v, i, NextMesg(v, c)), i);
    ConnectedAt(v.clients, c, i);
    PositionIs(v.clients, c, i);
    if NextMesg(v, c).kind == MESG {
      PositionAfterClear(v.clients, i, c);
    }
  }

  // ---- one step ----

  /** After the step the goal is met, or the client still waits and every pass end has been paid for. */
  ghost predicate Spends(s: Sys, t: Sys, c: Channel, goal: nat, ends: nat)
    requires Connected(s.server.clients, c)
  {
    || Taken(t, c) >= goal
    || (Expects(t, c, goal) && Budget(t, c, goal) + ends <= Budget(s, c, goal))
  }

  lemma FirstPosition(clients: seq<Client>, c: Channel, p: nat)
    requires p < |clients| && clients[p].channel == c
    requires forall k :: 0 <= k < p ==> clients[k].channel != c
    ensures Connected(clients, c) && Position(clients, c) == p
  {
  }

  lemma PollSpends(s: Sys, c: Channel, goal: nat)
    requires s.pc == Polling && Expects(s, c, goal) && Taken(s, c) < goal
    ensures Spends(s, Next(s, Poll), c, goal, 0)
  {
    var p := Position(s.server.clients, c);
    var after := CheckSources(s.server).clients;
    assert forall k :: 0 <= k < |after| ==> after[k] == Polled(s.server, s.server.clients[k]);
    FirstPosition(after, c, p);
    assert after[p].dataReady;
  }

  lemma TakeJoinSpends(s: Sys, c: Channel, goal: nat)
    requires s.pc == Joining && Expects(s, c, goal) && Taken(s, c) < goal
    requires s.server.joinReady ==>
      s.server.joins.HasData() && s.server.joins.written[s.server.joins.taken].channel != c
    ensures Spends(s, Next(s, TakeJoin), c, goal, 0)
  {
    var v := s.server;
    if v.joinReady {
      HandleJoinIs(v);
      var p := Position(v.clients, c);
      var after := HandleJoin(v).clients;
      assert forall k :: 0 <= k <= p ==> after[k] == v.clients[k];
      FirstPosition(after, c, p);
    }
  }

  /** What the invariant says of a slot whose flag is set. */
  ghost predicate Speaking(v: State, i: nat)
    requires i < |v.clients|
  {
    var c := v.clients[i].channel;
    && ClientHasData(v, c)
    && (NextMesg(v, c).kind == MESG || NextMesg(v, c).kind == DEPARTED)
    && (NextMesg(v, c).kind == DEPARTED ==> v.toServer[c].taken == |v.toServer[c].written| - 1)
  }

  lemma ReadySlotSpeaks(v: State, names: map<Channel, string>, i: nat)
    requires ChannelsOk(v.toServer, v.toClient, v.log, names) && SlotsOk(v.clients, v.toServer, names)
    requires i < |v.clients| && v.clients[i].dataReady
    ensures Speaking(v, i)
  {
    var c := v.clients[i].channel;
    assert SlotOk(v.clients[i], v.toServer, names);
    assert ChannelOk(v.toServer[c], v.toClient[c], v.log, c, names[c]);
  }

  lemma ServeOwnSpends(s: Sys, c: Channel, goal: nat)
    requires Enabled(s, Serve) && Expects(s, c, goal) && Taken(s, c) < goal && DistinctChannels(s.server.clients)
    requires s.server.clients[s.pc.i].dataReady && s.server.clients[s.pc.i].channel == c && Speaking(s.server, s.pc.i)
    ensures Spends(s, Next(s, Serve), c, goal, 0)
  {
    PositionIs(s.server.clients, c, s.pc.i);
    HandleClientReads(s.server, s.pc.i, c);
  }

  lemma ServeOtherSpends(s: Sys, c: Channel, goal: nat)
    requires Enabled(s, Serve) && Expects(s, c, goal) && Taken(s, c) < goal && DistinctChannels(s.server.clients)
    requires s.server.clients[s.pc.i].dataReady && s.server.clients[s.pc.i].channel != c && Speaking(s.server, s.pc.i)
    ensures Spends(s, Next(s, Serve), c, goal, 0)
  {
    HandleClientMoves(s.server, s.pc.i, c);
    HandleClientIs(s.server, s.pc.i);
  }

  lemma ClientStepSpends(s: Sys, step: Step, c: Channel, goal: nat)
    requires Enabled(s, step) && (step.SendJoin? || step.SendMesg? || step.SendDeparted?)
    requires Expects(s, c, goal)
    ensures Spends(s, Next(s, step), c, goal, 0)
  {
  }

  lemma IdleSlotSpends(s: Sys, c: Channel, goal: nat)
    requires Enabled(s, Serve) && Expects(s, c, goal) && !s.server.clients[s.pc.i].dataReady
    ensures Spends(s, Next(s, Serve), c, goal, 0)
  {
  }

  lemma ServeSpends(s: Sys, c: Channel, goal: nat)
    requires Inv(s) && Enabled(s, Serve) && Expects(s, c, goal) && Taken(s, c) < goal
    ensures Spends(s, Next(s, Serve), c, goal, 0)
  {
    var i := s.pc.i;
    if !s.server.clients[i].dataReady {
      IdleSlotSpends(s, c, goal);
    } else {
      ReadySlotSpeaks(s.server, s.names, i);
      if s.server.clients[i].channel == c {
        ServeOwnSpends(s, c, goal);
      } else {
        ServeOtherSpends(s, c, goal);
      }
    }
  }

  lemma WaitingIsNew(v: State, names: map<Channel, string>, c: Channel)
    requires JoinsOk(v.joins, v.toServer.Keys, names) && v.joins.HasData() && c in v.toServer
    ensures v.joins.written[v.joins.taken].channel != c
  {
    assert Waiting(v.joins, v.joins.written[v.joins.taken].channel);
  }

  lemma PassEndSpends(s: Sys, c: Channel, goal: nat)
    requires Enabled(s, EndPass) && Expects(s, c, goal)
    ensures Spends(s, Next(s, EndPass), c, goal, 1)
  {
  }

  lemma NextSpends(s: Sys, step: Step, c: Channel, goal: nat)
    requires Inv(s) && Enabled(s, step) && s.pc != Halted && !step.Stop?
    requires Expects(s, c, goal) && Taken(s, c) < goal
    ensures Spends(s, Next(s, step), c, goal, if step.EndPass? then 1 else 0)
  {
    match step
    case Poll => PollSpends(s, c, goal);
    case TakeJoin =>
      if s.server.joinReady {
        WaitingIsNew(s.server, s.names, c);
      }
      TakeJoinSpends(s, c, goal);
    case Serve => ServeSpends(s, c, goal);
    case EndPass => PassEndSpends(s, c, goal);
    case Stop =>
    case _ => ClientStepSpends(s, step, c, goal);
  }

  // ---- whole runs ----

  lemma JoinTakes(v: State, names: map<Channel, string>, c: Channel)
    requires JoinsOk(v.joins, v.toServer.Keys, names) && v.joins.HasData() && c in v.toServer
    ensures c in HandleJoin(v).toServer && HandleJoin(v).toServer[c] == v.toServer[c]
  {
    WaitingIsNew(v, names, c);
    HandleJoinIs(v);
  }

  lemma ServeTakes(v: State, i: nat, c: Channel)
    requires i < |v.clients| && Speaking(v, i) && c in v.toServer
    ensures var w := HandleClient(v, i);
            c in w.toServer && v.toServer[c].taken <= w.toServer[c].taken
  {
    HandleClientIs(v, i);
  }

  lemma NextTakes(s: Sys, step: Step, c: Channel)
    requires Inv(s) && Enabled(s, step) && c in s.server.toServer
    ensures c in Next(s, step).server.toServer
    ensures Taken(s, c) <= Taken(Next(s, step), c)
  {
    var v := s.server;
    if step.TakeJoin? && v.joinReady {
      JoinTakes(v, s.names, c);
    } else if step.Serve? && v.clients[s.pc.i].dataReady {
      ReadySlotSpeaks(v, s.names, s.pc.i);
      ServeTakes(v, s.pc.i, c);
    }
  }

  // who writes

  predicate WritesFor(step: Step, c: Channel) {
    step == SendDeparted(c) || (step.SendMesg? && step.channel == c)
  }

  lemma JoinWritesNothing(v: State, names: map<Channel, string>, c: Channel)
    requires JoinsOk(v.joins, v.toServer.Keys, names) && v.joins.HasData() && c in HandleJoin(v).toServer
    ensures HandleJoin(v).toServer[c].written == if c in v.toServer then v.toServer[c].written else []
  {
    HandleJoinIs(v);
    if c in v.toServer {
      WaitingIsNew(v, names, c);
    }
  }

  lemma ServeWritesNothing(v: State, i: nat, c: Channel)
    requires i < |v.clients| && Speaking(v, i) && c in HandleClient(v, i).toServer
    ensures c in v.toServer && HandleClient(v, i).toServer[c].written == v.toServer[c].written
  {
    HandleClientIs(v, i);
    ReadAt(v, v.clients[i].channel, v.clients[i].channel);
    assert c in v.toServer.Keys;
  }

  /** Only the client's own steps write, and a new channel is empty. */
  lemma OthersWriteNothing(s: Sys, step: Step, c: Channel)
    requires Inv(s) && Enabled(s, step) && !WritesFor(step, c) && c in Next(s, step).server.toServer
    ensures Next(s, step).server.toServer[c].written ==
            if c in s.server.toServer then s.server.toServer[c].written else []
  {
    var v := s.server;
    if step.TakeJoin? && v.joinReady {
      JoinWritesNothing(v, s.names, c);
    } else if step.Serve? && v.clients[s.pc.i].dataReady {
      ReadySlotSpeaks(v, s.names, s.pc.i);
      ServeWritesNothing(v, s.pc.i, c);
    }
  }

  lemma {:induction false} RunTakes(s: Sys, steps: seq<Step>, c: Channel)
    requires Inv(s) && ValidRun(s, steps) && c in s.server.toServer
    ensures Taken(s, c) <= Taken(Run(s, steps), c)
    decreases |steps|
  {
    if steps != [] {
      NextTakes(s, steps[0], c);
      NextKeepsInv(s, steps[0]);
      RunTakes(Next(s, steps[0]), steps[1..], c);
    }
  }

  lemma {:induction false} HaltedEndsNoPass(s: Sys, steps: seq<Step>)
    requires s.pc == Halted && ValidRun(s, steps)
    ensures Passes(steps) == 0
    decreases |steps|
  {
    if steps != [] {
      HaltedEndsNoPass(Next(s, steps[0]), steps[1..]);
    }
  }

  /** One step towards the goal, of a server that goes on running. */
  lemma StepTowards(s: Sys, step: Step, c: Channel, goal: nat)
    requires Inv(s) && Enabled(s, step) && s.pc != Halted && !step.Stop?
    requires Expects(s, c, goal) && Taken(s, c) < goal
    ensures var t := Next(s, step);
            && Inv(t) && t.pc != Halted && c in t.server.toServer
            && Spends(s, t, c, goal, if step.EndPass? then 1 else 0)
  {
    NextKeepsInv(s, step);
    NextTakes(s, step, c);
    NextSpends(s, step, c, goal);
  }

  /**
   From any state the invariant allows, a client in the table has its first `goal` messages read before
   Budget pass ends have come, whoever leaves or joins meanwhile.
   */
  lemma {:induction false} ReadWithinBudget(s: Sys, steps: seq<Step>, c: Channel, goal: nat)
    requires Inv(s) && s.pc != Halted && ValidRun(s, steps) && Expects(s, c, goal)
    requires Passes(steps) >= Budget(s, c, goal)
    ensures Taken(Run(s, steps), c) >= goal
    decreases |steps|
  {
    if Taken(s, c) >= goal {
      RunTakes(s, steps, c);
    } else {
      assert steps != [];
      var t := Next(s, steps[0]);
      if steps[0].Stop? {
        HaltedEndsNoPass(t, steps[1..]);
        assert false;
      } else {
        StepTowards(s, steps[0], c, goal);
        if Taken(t, c) >= goal {
          RunTakes(t, steps[1..], c);
        } else {
          ReadWithinBudget(t, steps[1..], c, goal);
        }
      }
    }
  }

  /**
   In every run: a client that a pass finds at position p with n unread messages has all of them read within
   p + n passes; in particular its next message is read within p + 1.
   */
  lemma BoundedService(before: seq<Step>, steps: seq<Step>, c: Channel, n: nat)
    requires ValidRun(Start, before) && Run(Start, before).pc == Polling
    requires var s := Run(Start, before);
             ValidRun(s, steps) && Expects(s, c, Taken(s, c) + n) && Passes(steps) >= Position(s.server.clients, c) + n
    ensures var s := Run(Start, before);
            Taken(Run(s, steps), c) >= Taken(s, c) + n
  {
    var s := Run(Start, before);
    StartHolds();
    RunKeepsInv(Start, before);
    ReadWithinBudget(s, steps, c, Taken(s, c) + n);
  }

  // ---- at most once in a pass ----

  /** The pass under way has gone by the client's slot, or the client is not in the table, or the server has stopped. */
  predicate Passed(s: Sys, c: Channel) {
    s.pc == Halted || (s.pc.Serving? && (Connected(s.server.clients, c) ==> Position(s.server.clients, c) < s.pc.i))
  }

  /** From s to t the client is read at most once, and not at all if the pass has gone by it, as it has afterwards. */
  predicate ReadsAhead(s: Sys, t: Sys, c: Channel) {
    && (Passed(s, c) ==> Passed(t, c) && Taken(t, c) == Taken(s, c))
    && Taken(t, c) <= Taken(s, c) + 1
    && (Taken(t, c) > Taken(s, c) ==> Passed(t, c))
  }

  lemma ServeOwnReads(s: Sys, c: Channel)
    requires Enabled(s, Serve) && s.server.clients[s.pc.i].dataReady && Speaking(s.server, s.pc.i)
    requires DistinctChannels(s.server.clients) && s.server.clients[s.pc.i].channel == c
    ensures ReadsAhead(s, Next(s, Serve), c)
  {
    ConnectedAt(s.server.clients, c, s.pc.i);
    PositionIs(s.server.clients, c, s.pc.i);
    HandleClientReads(s.server, s.pc.i, c);
  }

  lemma ServeOtherReads(s: Sys, c: Channel)
    requires Enabled(s, Serve) && s.server.clients[s.pc.i].dataReady && Speaking(s.server, s.pc.i)
    requires DistinctChannels(s.server.clients) && s.server.clients[s.pc.i].channel != c
    ensures ReadsAhead(s, Next(s, Serve), c)
  {
    var v, i := s.server, s.pc.i;
    HandleClientIs(v, i);
    if Connected(v.clients, c) {
      HandleClientMoves(v, i, c);
    } else {
      ConnectedAfterRemove(v.clients, i, c);
      ClearFlagKeeps(TableAfter(v, i, NextMesg(v, v.clients[i].channel)), i);
    }
  }

  lemma ServeReadsAhead(s: Sys, c: Channel)
    requires Inv(s) && Enabled(s, Serve)
    ensures ReadsAhead(s, Next(s, Serve), c)
  {
    var v, i := s.server, s.pc.i;
    if v.clients[i].dataReady {
      ReadySlotSpeaks(v, s.names, i);
      if v.clients[i].channel == c {
        ServeOwnReads(s, c);
      } else {
        ServeOtherReads(s, c);
      }
    }
  }

  lemma JoinReadsNothing(s: Sys, c: Channel)
    requires Inv(s) && s.pc == Joining
    ensures Taken(Next(s, TakeJoin), c) == Taken(s, c)
  {
    if s.server.joinReady {
      JoinLeavesTaken(s.server, s.names, c);
    }
  }

  lemma JoinLeavesTaken(v: State, names: map<Channel, string>, c: Channel)
    requires JoinsOk(v.joins, v.toServer.Keys, names) && v.joins.HasData()
    ensures var w := HandleJoin(v);
            (if c in w.toServer then w.toServer[c].taken else 0) == (if c in v.toServer then v.toServer[c].taken else 0)
  {
    HandleJoinIs(v);
    if c in v.toServer {
      WaitingIsNew(v, names, c);
    }
  }

  lemma ClientStepReadsNothing(s: Sys, step: Step, c: Channel)
    requires Enabled(s, step) && (step.SendJoin? || step.SendMesg? || step.SendDeparted?)
    ensures var t := Next(s, step);
            Taken(t, c) == Taken(s, c) && (Passed(s, c) ==> Passed(t, c))
  {
  }

  lemma OtherStepsReadNothing(s: Sys, step: Step, c: Channel)
    requires Inv(s) && Enabled(s, step) && !step.Serve? && !step.EndPass?
    ensures var t := Next(s, step);
            Taken(t, c) == Taken(s, c) && (Passed(s, c) ==> Passed(t, c))
  {
    match step
    case Poll =>
    case TakeJoin => JoinReadsNothing(s, c);
    case Stop =>
    case _ => ClientStepReadsNothing(s, step, c);
  }

  lemma {:induction false} OncePerPassFrom(s: Sys, steps: seq<Step>, c: Channel)
    requires Inv(s) && ValidRun(s, steps) && EndPass !in steps
    ensures Taken(Run(s, steps), c) <= Taken(s, c) + if Passed(s, c) then 0 else 1
    decreases |steps|
  {
    if steps != [] {
      var t := Next(s, steps[0]);
      NextKeepsInv(s, steps[0]);
      assert EndPass !in steps[1..];
      if steps[0].Serve? {
        ServeReadsAhead(s, c);
      } else {
        OtherStepsReadNothing(s, steps[0], c);
      }
      OncePerPassFrom(t, steps[1..], c);
    }
  }

  /** In every run: no client is read twice between two pass ends, so nobody can crowd out the others. */
  lemma ReadOncePerPass(before: seq<Step>, steps: seq<Step>, c: Channel)
    requires ValidRun(Start, before) && ValidRun(Run(Start, before), steps) && EndPass !in steps
    ensures var s := Run(Start, before);
            Taken(Run(s, steps), c) <= Taken(s, c) + 1
  {
    StartHolds();
    RunKeepsInv(Start, before);
    OncePerPassFrom(Run(Start, before), steps, c);
  }
}
