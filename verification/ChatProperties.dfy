/** What every run of the chat, of any length and any interleaving, guarantees its clients. */
module ChatProperties {
  import opened ServerModel
  import opened BroadcastLog
  import opened Protocol

  /** The state a run from the empty server ends in. */
  ghost function Reached(steps: seq<Step>): Sys
    requires ValidRun(Start, steps)
  {
    Run(Start, steps)
  }

  lemma ReachedInv(steps: seq<Step>)
    requires ValidRun(Start, steps)
    ensures Inv(Reached(steps))
  {
    StartHolds();
    RunKeepsInv(Start, steps);
  }

  // ---- agreement and total order ----

  /**
   Everything ever written to a client is the part of one log that starts with its own JOINED and,
   if it has left, stops just before its own DEPARTED.
   */
  lemma Agreement(steps: seq<Step>, c: Channel)
    requires ValidRun(Start, steps) && c in Reached(steps).server.toClient
    ensures var s := Reached(steps);
            var log := s.server.log;
            var from, to := First(log, JoinOf(c)), First(log, DepartureOf(c));
            && c in s.names
            && from < to <= |log|
            && log[from] == Entry(Joiner(c), Mesg(JOINED, s.names[c], ""))
            && (to < |log| ==> log[to] == Entry(Sender(c), Mesg(DEPARTED, s.names[c], log[to].mesg.body)))
            && s.server.toClient[c] == Mesgs(log[from..to])
  {
    ReachedInv(steps);
    var s := Reached(steps);
    InvAgrees(s.server, s.names, c, s.pc == Halted);
  }

  lemma InvAgrees(v: State, names: map<Channel, string>, c: Channel, halted: bool)
    requires HistoryOk(v, names, halted) && c in v.toClient
    ensures var from, to := First(v.log, JoinOf(c)), First(v.log, DepartureOf(c));
            && c in names
            && from < to
            && v.log[from] == Entry(Joiner(c), Mesg(JOINED, names[c], ""))
            && (to < |v.log| ==> v.log[to] == Entry(Sender(c), Mesg(DEPARTED, names[c], v.log[to].mesg.body)))
            && v.toClient[c] == Mesgs(v.log[from..to])
  {
    var from, to := First(v.log, JoinOf(c)), First(v.log, DepartureOf(c));
    assert ChannelOk(v.toServer[c], v.toClient[c], v.log, c, names[c]);
    EntryIsOk(v, names, halted, from);
    if to < |v.log| {
      EntryIsOk(v, names, halted, to);
    }
  }

  lemma HistoryOfChannel(s: Sys, c: Channel)
    requires Inv(s) && (c in s.server.toServer || c in s.server.toClient)
    ensures c in s.server.toServer && c in s.server.toClient && c in s.names
    ensures ChannelOk(s.server.toServer[c], s.server.toClient[c], s.server.log, c, s.names[c])
  {
    assert c in s.server.toServer.Keys;
  }

  lemma EntryIsOk(v: State, names: map<Channel, string>, halted: bool, k: nat)
    requires LogOk(v.log, v.toServer.Keys, names, v.joins, halted) && k < |v.log|
    ensures EntryOk(v.log[k], v.toServer.Keys, names, v.joins)
  {
  }

  /** Of two clients still in the chat the later one has seen exactly the end of what the earlier one saw. */
  lemma TotalOrder(steps: seq<Step>, c: Channel, d: Channel)
    requires ValidRun(Start, steps)
    requires var s := Reached(steps);
             && c in s.server.toClient && d in s.server.toClient
             && !Departed(s.server.log, c) && !Departed(s.server.log, d)
             && First(s.server.log, JoinOf(c)) <= First(s.server.log, JoinOf(d))
    ensures var s := Reached(steps);
            var early, late := s.server.toClient[c], s.server.toClient[d];
            |late| <= |early| && early[|early| - |late|..] == late
  {
    Agreement(steps, c);
    Agreement(steps, d);
    var log := Reached(steps).server.log;
    SuffixOfSlice(log, First(log, JoinOf(c)), First(log, JoinOf(d)));
  }

  lemma SuffixOfSlice(log: seq<Entry>, a: nat, b: nat)
    requires a <= b <= |log|
    ensures var early, late := Mesgs(log[a..]), Mesgs(log[b..]);
            |late| <= |early| && early[|early| - |late|..] == late
  {
  }

  // ---- no loss ----

  /**
   What the server has relayed of a sender, followed by what it has not read yet, is exactly what the sender
   wrote; once the sender's FIFO is closed nothing is left in it.
   */
  lemma NoLoss(steps: seq<Step>, c: Channel)
    requires ValidRun(Start, steps) && c in Reached(steps).server.toServer
    ensures var v := Reached(steps).server;
            var fifo := v.toServer[c];
            && fifo.taken <= |fifo.written|
            && Relayed(v.log, c) + fifo.written[fifo.taken..] == fifo.written
            && (Departed(v.log, c) ==> fifo.taken == |fifo.written| && HasLeft(fifo.written))
  {
    ReachedInv(steps);
    var s := Reached(steps);
    var v := s.server;
    ChannelLosesNothing(v.toServer[c], v.toClient[c], v.log, c, s.names[c]);
  }

  lemma ChannelLosesNothing(fifo: Fifo<Mesg>, sent: seq<Mesg>, log: seq<Entry>, c: Channel, name: string)
    requires ChannelOk(fifo, sent, log, c, name)
    ensures Relayed(log, c) + fifo.written[fifo.taken..] == fifo.written
    ensures Departed(log, c) ==> fifo.taken == |fifo.written| && HasLeft(fifo.written)
  {
    if Departed(log, c) {
      RelayedHasDeparted(log, c);
      var k :| 0 <= k < |Relayed(log, c)| && Relayed(log, c)[k].kind == DEPARTED;
      assert fifo.written[k].kind == DEPARTED;
    }
  }

  // ---- reads never block ----

  /** A set ready flag promises data, so the server is never stuck in a read, wherever its main loop stands. */
  lemma ReadsNeverBlock(steps: seq<Step>)
    requires ValidRun(Start, steps)
    ensures var s := Reached(steps);
            && s.pc != Blocked
            && (s.pc != Halted ==>
                  && (s.server.joinReady ==> s.server.joins.HasData())
                  && forall i :: 0 <= i < |s.server.clients| && s.server.clients[i].dataReady ==>
                       ClientHasData(s.server, s.server.clients[i].channel))
  {
    ReachedInv(steps);
    var s := Reached(steps);
    if s.pc != Halted {
      forall i | 0 <= i < |s.server.clients| && s.server.clients[i].dataReady
        ensures ClientHasData(s.server, s.server.clients[i].channel)
      {
        assert SlotOk(s.server.clients[i], s.server.toServer, s.names);
      }
    }
  }

  // ---- membership ----

  /** At every point of a run the table holds, in join order, those who have joined and not left. */
  lemma Membership(steps: seq<Step>)
    requires ValidRun(Start, steps) && Reached(steps).pc != Halted
    ensures var v := Reached(steps).server;
            && |v.clients| <= 256
            && DistinctChannels(v.clients)
            && Table(v.clients) == Members(v.log)
            && forall c :: Connected(v.clients, c) <==> Joined(v.log, c) && !Departed(v.log, c)
  {
    ReachedInv(steps);
    var s := Reached(steps);
    var v := s.server;
    forall c ensures Connected(v.clients, c) <==> Joined(v.log, c) && !Departed(v.log, c) {
      if c in v.toServer {
        assert ChannelOk(v.toServer[c], v.toClient[c], v.log, c, s.names[c]);
      } else {
        FreshChannel(v, s.names, c);
        assert forall i :: 0 <= i < |v.clients| ==> SlotOk(v.clients[i], v.toServer, s.names);
      }
    }
  }

  /** The names in the log's messages of one kind. */
  function KindNames(log: seq<Entry>, kind: Kind): multiset<string> {
    if log == [] then
      multiset{}
    else
      var e := log[|log| - 1];
      KindNames(log[..|log| - 1], kind) + if e.mesg.kind == kind then multiset{e.mesg.name} else multiset{}
  }

  /** The names of those whose JOINED was broadcast although the full table had no slot for them. */
  function RefusedNames(log: seq<Entry>): multiset<string> {
    if log == [] then
      multiset{}
    else
      var e := log[|log| - 1];
      RefusedNames(log[..|log| - 1]) + if e.origin.Refused? then multiset{e.mesg.name} else multiset{}
  }

  function Names(clients: seq<Client>): multiset<string> {
    if clients == [] then multiset{} else multiset{clients[0].name} + Names(clients[1..])
  }

  ghost predicate Balanced(clients: seq<Client>, log: seq<Entry>) {
    Names(clients) + KindNames(log, DEPARTED) + RefusedNames(log) == KindNames(log, JOINED)
  }

  ghost predicate NamesBalance(v: State) {
    Balanced(v.clients, v.log)
  }

  lemma NamesOfLogAppend(log: seq<Entry>, e: Entry)
    ensures forall kind :: KindNames(log + [e], kind) ==
              KindNames(log, kind) + if e.mesg.kind == kind then multiset{e.mesg.name} else multiset{}
    ensures RefusedNames(log + [e]) ==
            RefusedNames(log) + if e.origin.Refused? then multiset{e.mesg.name} else multiset{}
  {
    assert (log + [e])[..|log|] == log;
  }

  lemma {:induction false} NamesOfAppend(clients: seq<Client>, x: Client)
    ensures Names(clients + [x]) == Names(clients) + multiset{x.name}
  {
    if clients == [] {
      assert clients + [x] == [x];
    } else {
      NamesOfAppend(clients[1..], x);
      assert (clients + [x])[1..] == clients[1..] + [x];
    }
  }

  lemma {:induction false} NamesOfRemoveAt(clients: seq<Client>, i: nat)
    requires i < |clients|
    ensures Names(clients) == Names(RemoveAt(clients, i)) + multiset{clients[i].name}
  {
    if i > 0 {
      NamesOfRemoveAt(clients[1..], i - 1);
      assert RemoveAt(clients, i)[1..] == RemoveAt(clients[1..], i - 1);
    } else {
      assert RemoveAt(clients, 0) == clients[1..];
    }
  }

  lemma {:induction false} NamesOfSame(clients: seq<Client>, others: seq<Client>)
    requires |clients| == |others| && forall k :: 0 <= k < |clients| ==> clients[k].name == others[k].name
    ensures Names(clients) == Names(others)
  {
    if clients != [] {
      NamesOfSame(clients[1..], others[1..]);
    }
  }

  lemma MesgKeepsBalance(clients: seq<Client>, log: seq<Entry>, e: Entry)
    requires Balanced(clients, log) && e.origin.Sender? && e.mesg.kind == MESG
    ensures Balanced(clients, log + [e])
  {
    NamesOfLogAppend(log, e);
  }

  lemma DepartureKeepsBalance(clients: seq<Client>, log: seq<Entry>, i: nat, e: Entry)
    requires Balanced(clients, log) && e.origin.Sender? && e.mesg.kind == DEPARTED
    requires i < |clients| && e.mesg.name == clients[i].name
    ensures Balanced(RemoveAt(clients, i), log + [e])
  {
    NamesOfLogAppend(log, e);
    NamesOfRemoveAt(clients, i);
    Moved(Names(RemoveAt(clients, i)), KindNames(log, DEPARTED), RefusedNames(log), clients[i].name);
  }

  lemma Moved(connected: multiset<string>, departed: multiset<string>, refused: multiset<string>, name: string)
    ensures connected + multiset{name} + departed + refused == connected + (departed + multiset{name}) + refused
  {
  }

  lemma HandleClientKeepsBalance(v: State, names: map<Channel, string>, i: nat)
    requires NamesBalance(v)
    requires ChannelsOk(v.toServer, v.toClient, v.log, names) && SlotsOk(v.clients, v.toServer, names)
    requires i < |v.clients| && ClientHasData(v, v.clients[i].channel)
    ensures NamesBalance(HandleClient(v, i))
  {
    var c := v.clients[i].channel;
    var m := NextMesg(v, c);
    assert SlotOk(v.clients[i], v.toServer, names);
    NextMesgSpeaks(v, names, c);
    var e, after := Entry(Sender(c), m), TableAfter(v, i, m);
    if m.kind == MESG {
      MesgKeepsBalance(v.clients, v.log, e);
    } else {
      DepartureKeepsBalance(v.clients, v.log, i, e);
    }
    NamesOfSame(ClearFlag(after, i), after);
    HandleClientIs(v, i);
  }

  lemma HandleJoinKeepsBalance(v: State)
    requires NamesBalance(v) && v.joins.HasData()
    ensures NamesBalance(HandleJoin(v))
  {
    var j := v.joins.written[v.joins.taken];
    HandleJoinIs(v);
    NamesOfAppend(v.clients, Client(j.name, j.channel, false));
    NamesOfLogAppend(v.log, HandleJoin(v).log[|v.log|]);
  }

  lemma PollKeepsBalance(v: State)
    requires NamesBalance(v)
    ensures NamesBalance(CheckSources(v))
  {
    NamesOfSame(CheckSources(v).clients, v.clients);
  }

  lemma ServeKeepsBalance(s: Sys)
    requires Inv(s) && Enabled(s, Serve) && NamesBalance(s.server)
    ensures NamesBalance(Next(s, Serve).server)
  {
    if s.server.clients[s.pc.i].dataReady {
      HandleClientKeepsInv(s.server, s.names, s.pc.i);
      HandleClientKeepsBalance(s.server, s.names, s.pc.i);
    }
  }

  lemma NextKeepsBalance(s: Sys, step: Step)
    requires Inv(s) && Enabled(s, step) && s.pc != Halted && !step.Stop? && NamesBalance(s.server)
    ensures NamesBalance(Next(s, step).server)
  {
    match step
    case TakeJoin => if s.server.joinReady { HandleJoinKeepsBalance(s.server); }
    case Serve => ServeKeepsBalance(s);
    case Poll => PollKeepsBalance(s.server);
    case _ =>
  }

  lemma StepKeepsBalance(s: Sys, step: Step)
    requires Inv(s) && Enabled(s, step) && s.pc != Halted && !step.Stop? && NamesBalance(s.server)
    ensures Inv(Next(s, step)) && Next(s, step).pc != Halted && NamesBalance(Next(s, step).server)
  {
    NextKeepsInv(s, step);
    NextKeepsBalance(s, step);
  }

  lemma {:induction false} RunKeepsBalance(s: Sys, steps: seq<Step>)
    requires Inv(s) && ValidRun(s, steps) && s.pc != Halted && NamesBalance(s.server)
    ensures Run(s, steps).pc != Halted ==> NamesBalance(Run(s, steps).server)
    decreases |steps|
  {
    if steps != [] {
      if steps[0].Stop? {
        StaysHalted(Next(s, steps[0]), steps[1..]);
      } else {
        StepKeepsBalance(s, steps[0]);
        RunKeepsBalance(Next(s, steps[0]), steps[1..]);
      }
    }
  }

  /** A server that has stopped does nothing more; its clients may still write. */
  lemma {:induction false} StaysHalted(s: Sys, steps: seq<Step>)
    requires s.pc == Halted && ValidRun(s, steps)
    ensures Run(s, steps).pc == Halted
    ensures Run(s, steps).server.log == s.server.log && Run(s, steps).server.toClient == s.server.toClient
    ensures Run(s, steps).server.clients == s.server.clients
    ensures EndPass !in steps
    decreases |steps|
  {
    if steps != [] {
      StaysHalted(Next(s, steps[0]), steps[1..]);
    }
  }

  /** Whenever the server took a join there was room in the table for it. */
  ghost predicate AlwaysRoom(s: Sys, steps: seq<Step>)
    requires ValidRun(s, steps)
    decreases |steps|
  {
    steps == [] ||
    ((steps[0].TakeJoin? && s.server.joinReady ==> |s.server.clients| < MAXCLIENTS) &&
     AlwaysRoom(Next(s, steps[0]), steps[1..]))
  }

  ghost predicate NoneRefused(log: seq<Entry>) {
    forall k :: 0 <= k < |log| ==> !log[k].origin.Refused?
  }

  lemma NoneRefusedAppend(log: seq<Entry>, e: Entry)
    ensures NoneRefused(log + [e]) <==> NoneRefused(log) && !e.origin.Refused?
  {
    assert (log + [e])[|log|] == e;
    assert forall k :: 0 <= k < |log| ==> (log + [e])[k] == log[k];
  }

  /** What a step adds to the log. */
  lemma NextLogs(s: Sys, step: Step) returns (e: Entry)
    requires Inv(s) && Enabled(s, step)
    ensures var t := Next(s, step);
            t.server.log == s.server.log || t.server.log == s.server.log + [e]
    ensures (Next(s, step).server.log != s.server.log && e.origin.Refused?) <==>
            step.TakeJoin? && s.server.joinReady && |s.server.clients| == MAXCLIENTS
  {
    var v := s.server;
    e := Entry(Server, ShutdownMesg);
    if step.TakeJoin? && v.joinReady {
      HandleJoinIs(v);
      e := HandleJoin(v).log[|v.log|];
    } else if step.Serve? && v.clients[s.pc.i].dataReady {
      HandleClientKeepsInv(v, s.names, s.pc.i);
      NextMesgSpeaks(v, s.names, v.clients[s.pc.i].channel);
      HandleClientIs(v, s.pc.i);
      e := HandleClient(v, s.pc.i).log[|v.log|];
    }
  }

  lemma {:induction false} RefusedIff(s: Sys, steps: seq<Step>)
    requires Inv(s) && ValidRun(s, steps)
    ensures NoneRefused(Run(s, steps).server.log) <==> NoneRefused(s.server.log) && AlwaysRoom(s, steps)
    decreases |steps|
  {
    if steps != [] {
      var t := Next(s, steps[0]);
      var e := NextLogs(s, steps[0]);
      NoneRefusedAppend(s.server.log, e);
      NextKeepsInv(s, steps[0]);
      assert |s.server.clients| <= MAXCLIENTS || !steps[0].TakeJoin?;
      RefusedIff(t, steps[1..]);
    }
  }

  /**
   As every reader of the log counts: connected names are the joined ones less the departed and the refused ones; and
   joined less departed exactly if no join was taken while the table was full.
   */
  lemma MembershipByName(steps: seq<Step>)
    requires ValidRun(Start, steps) && Reached(steps).pc != Halted
    ensures var v := Reached(steps).server;
            && Names(v.clients) == KindNames(v.log, JOINED) - KindNames(v.log, DEPARTED) - RefusedNames(v.log)
            && KindNames(v.log, DEPARTED) + RefusedNames(v.log) <= KindNames(v.log, JOINED)
            && (Names(v.clients) == KindNames(v.log, JOINED) - KindNames(v.log, DEPARTED) <==> AlwaysRoom(Start, steps))
  {
    StartHolds();
    RunKeepsBalance(Start, steps);
    RefusedIff(Start, steps);
    var v := Reached(steps).server;
    NoRefusals(v.log);
    Subtracted(Names(v.clients), KindNames(v.log, DEPARTED), RefusedNames(v.log), KindNames(v.log, JOINED));
  }

  lemma Subtracted(connected: multiset<string>, departed: multiset<string>, refused: multiset<string>,
                   joined: multiset<string>)
    requires connected + departed + refused == joined
    ensures connected == joined - departed - refused
    ensures departed + refused <= joined
    ensures connected == joined - departed <==> refused == multiset{}
  {
    assert joined - departed == connected + refused;
    assert |connected + refused| == |connected| + |refused|;
  }

  lemma {:induction false} NoRefusals(log: seq<Entry>)
    ensures RefusedNames(log) == multiset{} <==> NoneRefused(log)
  {
    if log != [] {
      var shorter, e := log[..|log| - 1], log[|log| - 1];
      NoRefusals(shorter);
      if e.origin.Refused? {
        assert e.mesg.name in RefusedNames(log);
      } else {
        assert RefusedNames(log) == RefusedNames(shorter);
        assert forall k :: 0 <= k < |shorter| ==> shorter[k] == log[k];
      }
    }
  }

  // ---- shutdown ----

  /** Everyone still in the chat gets exactly one SHUTDOWN, and nothing after it; those who left get none. */
  lemma ShutdownIsLast(steps: seq<Step>, c: Channel)
    requires ValidRun(Start, steps) && c in Reached(steps).server.toClient
    ensures var s := Reached(steps);
            var sent := s.server.toClient[c];
            forall k :: 0 <= k < |sent| ==>
              (sent[k].kind == SHUTDOWN <==> s.pc == Halted && !Departed(s.server.log, c) && k == |sent| - 1)
  {
    ReachedInv(steps);
    Agreement(steps, c);
    var s := Reached(steps);
    var v := s.server;
    var from, to := First(v.log, JoinOf(c)), First(v.log, DepartureOf(c));
    var sent := v.toClient[c];
    forall k | 0 <= k < |sent|
      ensures sent[k].kind == SHUTDOWN <==> s.pc == Halted && !Departed(v.log, c) && k == |sent| - 1
    {
      OnlyLastIsShutdown(v, s.names, s.pc == Halted, from + k);
      MesgOfSlice(v.log, from, to, k);
    }
  }

  lemma MesgOfSlice(log: seq<Entry>, from: nat, end: nat, k: nat)
    requires from <= end <= |log| && k < end - from
    ensures Mesgs(log[from..end])[k] == log[from + k].mesg
  {
  }

  lemma OnlyLastIsShutdown(v: State, names: map<Channel, string>, halted: bool, k: nat)
    requires LogOk(v.log, v.toServer.Keys, names, v.joins, halted) && k < |v.log|
    ensures v.log[k].mesg.kind == SHUTDOWN <==> halted && k == |v.log| - 1
  {
    EntryIsOk(v, names, halted, k);
  }

  function OddPositions<T>(s: seq<T>): (r: seq<T>)
    ensures |r| == |s| / 2
    ensures forall k :: 0 <= k < |r| ==> r[k] == s[2 * k + 1]
  {
    seq(|s| / 2, k requires 0 <= k < |s| / 2 => s[2 * k + 1])
  }

  /** A table after slots 0, 1, ..., i - 1 were removed in that order: every other one of the first 2 * i is gone. */
  function PartlyRemoved<T>(s: seq<T>, i: nat): seq<T>
    requires 2 * i <= |s| + 1
  {
    seq(|s| - i, k requires 0 <= k < |s| - i => if k < i then s[2 * k + 1] else s[k + i])
  }

  lemma RemoveNextSlot<T>(s: seq<T>, i: nat)
    requires 2 * i < |s|
    ensures RemoveAt(PartlyRemoved(s, i), i) == PartlyRemoved(s, i + 1)
  {
    assert forall k :: 0 <= k < |s| - i - 1 ==>
      RemoveAt(PartlyRemoved(s, i), i)[k] == PartlyRemoved(s, i + 1)[k];
  }

  lemma {:induction false} RemoveUpwardsFrom<T>(s: seq<T>, i: nat)
    requires 2 * i <= |s| + 1
    ensures RemoveUpwards(PartlyRemoved(s, i), i) == OddPositions(s)
    decreases |s| - i
  {
    if 2 * i < |s| {
      RemoveNextSlot(s, i);
      RemoveUpwardsFrom(s, i + 1);
    } else {
      assert PartlyRemoved(s, i) == OddPositions(s);
    }
  }

  /**
   The removal loop of a shutdown is meant to empty the table. As written, counting up while the table shrinks, it
   leaves the clients at the odd positions, so it empties the table exactly when there is at most one client.
   */
  lemma ShutdownLeaves(v: State)
    ensures var left := Shutdown(v).clients;
            && |left| == |v.clients| / 2
            && (forall k :: 0 <= k < |left| ==> left[k] == v.clients[2 * k + 1])
            && (left == [] <==> |v.clients| <= 1)
  {
    assert PartlyRemoved(v.clients, 0) == v.clients;
    RemoveUpwardsFrom(v.clients, 0);
  }

  /** Removing slots n - 1, ..., 1, 0 in that order: the index that comes next is always a slot of the table. */
  function RemoveDownwards<T>(s: seq<T>, n: nat): seq<T>
    requires n <= |s|
  {
    if n == 0 then s else RemoveDownwards(RemoveAt(s, n - 1), n - 1)
  }

  /** Counting down from n takes out exactly the first n slots, and so all of them when it starts from the last. */
  lemma {:induction false} RemoveDownwardsLeaves<T>(s: seq<T>, n: nat)
    requires n <= |s|
    ensures RemoveDownwards(s, n) == s[n..]
    decreases n
  {
    if n > 0 {
      var rest := RemoveAt(s, n - 1);
      RemoveDownwardsLeaves(rest, n - 1);
      assert rest[n - 1..] == s[n..];
    }
  }
}
