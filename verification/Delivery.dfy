/** What is read in time is also delivered: to the to-client FIFO of everyone in the chat, in order, and once. */
module Delivery {
  import opened ServerModel
  import opened BroadcastLog
  import opened Protocol
  import opened ChatProperties
  import opened BoundedService
  import opened ServerProgram
  import opened MainLoop

  // ---- histories only grow ----

  /** The log and what each client wrote are continued; no client's FIFO is forgotten. */
  ghost predicate Continues(s: Sys, t: Sys) {
    && s.server.log <= t.server.log
    && forall c :: c in s.server.toServer ==>
         c in t.server.toServer && s.server.toServer[c].written <= t.server.toServer[c].written
  }

  lemma NextContinues(s: Sys, step: Step)
    requires Inv(s) && Enabled(s, step)
    ensures Continues(s, Next(s, step))
  {
    var e := NextLogs(s, step);
    forall c | c in s.server.toServer
      ensures c in Next(s, step).server.toServer
      ensures s.server.toServer[c].written <= Next(s, step).server.toServer[c].written
    {
      NextTakes(s, step, c);
      if !WritesFor(step, c) {
        OthersWriteNothing(s, step, c);
      }
    }
  }

  lemma {:induction false} RunContinues(s: Sys, steps: seq<Step>)
    requires Inv(s) && ValidRun(s, steps)
    ensures Continues(s, Run(s, steps))
    decreases |steps|
  {
    if steps != [] {
      NextContinues(s, steps[0]);
      NextKeepsInv(s, steps[0]);
      RunContinues(Next(s, steps[0]), steps[1..]);
    }
  }

  // ---- a log and its continuation ----

  lemma {:induction false} RelayedOfMore(log: seq<Entry>, news: seq<Entry>, c: Channel)
    ensures Relayed(log + news, c) == Relayed(log, c) + Relayed(news, c)
  {
    if news == [] {
      assert log + news == log;
    } else {
      var fewer, e := news[..|news| - 1], news[|news| - 1];
      assert log + news == (log + fewer) + [e] && news == fewer + [e];
      RelayedOfMore(log, fewer, c);
      RelayedOfAppend(log + fewer, e, c);
      RelayedOfAppend(fewer, e, c);
    }
  }

  lemma NewsOf(log: seq<Entry>, more: seq<Entry>)
    requires log <= more
    ensures more == log + more[|log|..]
  {
  }

  lemma FirstOfMore(log: seq<Entry>, news: seq<Entry>, mark: Mark)
    ensures First(log, mark) < |log| ==> First(log + news, mark) == First(log, mark)
  {
    var k, all := First(log, mark), log + news;
    assert forall i :: 0 <= i < |log| ==> all[i] == log[i];
    if k < |log| {
      assert Hits(mark, all[k]);
    }
  }

  lemma ReceivedOfMore(log: seq<Entry>, news: seq<Entry>, c: Channel)
    requires Joined(log, c) && !Departed(log + news, c)
    ensures Received(log + news, c) == Received(log, c) + Mesgs(news)
  {
    FirstOfMore(log, news, JoinOf(c));
    FirstOfMore(log, news, DepartureOf(c));
    var all, from := log + news, First(log, JoinOf(c));
    assert all[from..|all|] == log[from..|log|] + news;
  }

  // ---- delivery ----

  /** What was written from one message on is relayed, in order, by the broadcasts among the news. */
  lemma RelayedSince(before: Fifo<Mesg>, after: Fifo<Mesg>, log: seq<Entry>, news: seq<Entry>, c: Channel, n: nat)
    requires before.taken + n <= |before.written| && before.taken + n <= after.taken <= |after.written|
    requires before.written <= after.written
    requires Relayed(log, c) == before.written[..before.taken]
    requires Relayed(log + news, c) == after.written[..after.taken]
    ensures before.written[before.taken..before.taken + n] <= Relayed(news, c)
  {
    RelayedOfMore(log, news, c);
    assert Relayed(news, c) == after.written[..after.taken][before.taken..];
  }

  lemma SentSince(s: Sys, t: Sys, d: Channel)
    requires Inv(s) && Inv(t) && Continues(s, t) && d in s.server.toClient && !Departed(t.server.log, d)
    ensures d in t.server.toClient
    ensures t.server.toClient[d] == s.server.toClient[d] + Mesgs(t.server.log[|s.server.log|..])
  {
    HistoryOfChannel(s, d);
    HistoryOfChannel(t, d);
    NewsOf(s.server.log, t.server.log);
    ReceivedOfMore(s.server.log, t.server.log[|s.server.log|..], d);
  }

  /** From s to t the next n messages of c went out, in order, in the broadcasts that everyone still there was sent. */
  ghost predicate Delivers(s: Sys, t: Sys, c: Channel, n: nat) {
    && Expects(s, c, Taken(s, c) + n)
    && s.server.log <= t.server.log
    && var news := t.server.log[|s.server.log|..];
    && var from := Taken(s, c);
    && s.server.toServer[c].written[from..from + n] <= Relayed(news, c)
    && forall d :: d in s.server.toClient && !Departed(t.server.log, d) ==>
         d in t.server.toClient && t.server.toClient[d] == s.server.toClient[d] + Mesgs(news)
  }

  lemma OwnSince(s: Sys, t: Sys, c: Channel, n: nat)
    requires Inv(s) && Inv(t) && Continues(s, t) && Expects(s, c, Taken(s, c) + n)
    requires Taken(t, c) >= Taken(s, c) + n
    ensures var from := Taken(s, c);
            s.server.toServer[c].written[from..from + n] <= Relayed(t.server.log[|s.server.log|..], c)
  {
    HistoryOfChannel(s, c);
    HistoryOfChannel(t, c);
    NewsOf(s.server.log, t.server.log);
    RelayedSince(s.server.toServer[c], t.server.toServer[c], s.server.log, t.server.log[|s.server.log|..], c, n);
  }

  lemma DeliversFrom(s: Sys, t: Sys, c: Channel, n: nat)
    requires Inv(s) && Inv(t) && Continues(s, t) && Expects(s, c, Taken(s, c) + n)
    requires Taken(t, c) >= Taken(s, c) + n
    ensures Delivers(s, t, c, n)
  {
    OwnSince(s, t, c, n);
    forall d | d in s.server.toClient && !Departed(t.server.log, d)
      ensures d in t.server.toClient
      ensures t.server.toClient[d] == s.server.toClient[d] + Mesgs(t.server.log[|s.server.log|..])
    {
      SentSince(s, t, d);
    }
  }

  lemma DeliversWithin(s: Sys, steps: seq<Step>, c: Channel, n: nat)
    requires Inv(s) && s.pc == Polling && ValidRun(s, steps) && Expects(s, c, Taken(s, c) + n)
    requires Passes(steps) >= Position(s.server.clients, c) + n
    ensures Delivers(s, Run(s, steps), c, n)
  {
    ReadWithinBudget(s, steps, c, Taken(s, c) + n);
    RunKeepsInv(s, steps);
    RunContinues(s, steps);
    DeliversFrom(s, Run(s, steps), c, n);
  }

  /**
   In every run: within p + n passes the n unread messages of the client at position p are, in order and each once,
   among the messages that everyone who was in the chat and has not left since was sent meanwhile.
   */
  lemma BoundedDelivery(before: seq<Step>, steps: seq<Step>, c: Channel, n: nat)
    requires ValidRun(Start, before) && Run(Start, before).pc == Polling
    requires var s := Run(Start, before);
             ValidRun(s, steps) && Expects(s, c, Taken(s, c) + n) && Passes(steps) >= Position(s.server.clients, c) + n
    ensures var s := Run(Start, before);
            Delivers(s, Run(s, steps), c, n)
  {
    ReachedInv(before);
    DeliversWithin(Run(Start, before), steps, c, n);
  }

  /** So each of them stands in the FIFO of everyone who is still there. */
  lemma {:induction false} RelayedIsSent(news: seq<Entry>, c: Channel, k: nat) returns (i: nat)
    requires k < |Relayed(news, c)|
    ensures i < |news| && news[i].origin == Sender(c) && Mesgs(news)[i] == Relayed(news, c)[k]
  {
    var fewer, e := news[..|news| - 1], news[|news| - 1];
    if k < |Relayed(fewer, c)| {
      i := RelayedIsSent(fewer, c, k);
    } else {
      i := |news| - 1;
    }
  }

  // ---- the main loop itself ----

  lemma LeadsOn(s: Sys, steps: seq<Step>, t: Sys, n: nat, more: seq<Step>, u: Sys)
    requires LeadsTo(s, steps, t, n) && LeadsTo(t, more, u, 1)
    ensures LeadsTo(s, steps + more, u, n + 1)
  {
    RunThen(s, steps, more);
  }

  /** The main loop for a number of passes. */
  method RunPasses(server: ChatServer, names: map<Channel, string>, wanted: (nat, nat) -> seq<Step>, passes: nat)
    returns (names': map<Channel, string>, ghost steps: seq<Step>)
    requires server.Valid() && Inv(Snapshot(server, Polling, names))
    modifies server, server.client
    ensures server.Valid()
    ensures LeadsTo(old(Snapshot(server, Polling, names)), steps, Snapshot(server, Polling, names'), passes)
  {
    ghost var s := Snapshot(server, Polling, names);
    names', steps := names, [];
    var pass: nat := 0;
    while pass < passes
      invariant 0 <= pass <= passes && server.Valid()
      invariant LeadsTo(s, steps, Snapshot(server, Polling, names'), pass)
    {
      ghost var t, more := Snapshot(server, Polling, names'), [];
      names', more := Pass(server, names', (k: nat) => wanted(pass, k));
      LeadsOn(s, steps, t, pass, more, Snapshot(server, Polling, names'));
      steps := steps + more;
      pass := pass + 1;
    }
  }

  /** The bound for the array program: so many passes of the main loop deliver the next n messages of client c. */
  method ServeInTime(server: ChatServer, names: map<Channel, string>, wanted: (nat, nat) -> seq<Step>, passes: nat,
                     ghost c: Channel, ghost n: nat)
    returns (names': map<Channel, string>)
    requires server.Valid() && Inv(Snapshot(server, Polling, names))
    requires var s := Snapshot(server, Polling, names);
             Expects(s, c, Taken(s, c) + n) && passes >= Position(s.server.clients, c) + n
    modifies server, server.client
    ensures server.Valid()
    ensures Delivers(old(Snapshot(server, Polling, names)), Snapshot(server, Polling, names'), c, n)
  {
    ghost var s, steps := Snapshot(server, Polling, names), [];
    names', steps := RunPasses(server, names, wanted, passes);
    DeliversWithin(s, steps, c, n);
  }
}
