/** Runs that reach the limits: a server that is full, a shutdown with clients left over, a full job table. */
module Limits {
  import opened ServerModel
  import opened BroadcastLog
  import opened Protocol
  import opened ChatProperties
  import opened MainLoop

  predicate NoFlags(clients: seq<Client>) {
    forall i :: 0 <= i < |clients| ==> !clients[i].dataReady
  }

  /** Between two passes, with nothing to read from anyone; processes from n on have not joined yet. */
  predicate Quiet(s: Sys, n: nat) {
    && s.pc == Polling && !s.server.joinReady && NoFlags(s.server.clients)
    && s.server.joins.taken == |s.server.joins.written|
    && (forall c :: c in s.server.toServer ==> s.server.toServer[c] == Fifo([], 0))
    && (forall c :: c in s.names ==> c < n)
  }

  /** The rest of a pass in which no client is ready. */
  lemma {:induction false} PassIdly(s: Sys, i: nat) returns (steps: seq<Step>)
    requires s.pc == Serving(i) && i <= |s.server.clients| && NoFlags(s.server.clients)
    ensures ValidRun(s, steps) && Run(s, steps) == s.(pc := Polling)
    decreases |s.server.clients| - i
  {
    if i == |s.server.clients| {
      steps := [EndPass];
      assert ValidRun(Next(s, EndPass), steps[1..]);
    } else {
      var rest := PassIdly(s.(pc := Serving(i + 1)), i + 1);
      steps := [Serve] + rest;
      assert steps[1..] == rest;
    }
  }

  /** What the three steps of a join that is taken at once come to. */
  lemma JoinsQuietly(s: Sys, n: nat, name: string)
    requires Quiet(s, n) && |s.server.clients| <= MAXCLIENTS
    ensures Enabled(s, SendJoin(n, name))
    ensures var t := Next(Next(Next(s, SendJoin(n, name)), Poll), TakeJoin);
            && t.pc == Serving(0) && Quiet(t.(pc := Polling), n + 1)
            && |t.server.clients| == (if |s.server.clients| < MAXCLIENTS then |s.server.clients| + 1 else MAXCLIENTS)
            && t.server.log == s.server.log + [Entry(if |s.server.clients| == MAXCLIENTS then Refused(n) else Joiner(n),
                                                     Mesg(JOINED, name, ""))]
  {
    var a := Next(s, SendJoin(n, name));
    assert a.server.joins.HasData();
    var b := Next(a, Poll);
    assert forall i :: 0 <= i < |b.server.clients| ==> b.server.clients[i] == Polled(a.server, a.server.clients[i]);
    HandleJoinIs(b.server);
  }

  lemma JoinSteps(s: Sys, n: nat, name: string) returns (steps: seq<Step>)
    requires Quiet(s, n) && |s.server.clients| <= MAXCLIENTS
    ensures ValidRun(s, steps) && Enabled(s, SendJoin(n, name))
    ensures Run(s, steps) == Next(Next(Next(s, SendJoin(n, name)), Poll), TakeJoin)
  {
    RunOne(s, [], SendJoin(n, name));
    RunOne(s, [] + [SendJoin(n, name)], Poll);
    RunOne(s, [] + [SendJoin(n, name)] + [Poll], TakeJoin);
    steps := [] + [SendJoin(n, name)] + [Poll] + [TakeJoin];
  }

  /** A join that is taken at once. */
  lemma TakeNew(s: Sys, n: nat, name: string) returns (steps: seq<Step>)
    requires Quiet(s, n) && |s.server.clients| <= MAXCLIENTS
    ensures ValidRun(s, steps)
    ensures var t := Run(s, steps);
            && t.pc == Serving(0) && Quiet(t.(pc := Polling), n + 1)
            && |t.server.clients| == (if |s.server.clients| < MAXCLIENTS then |s.server.clients| + 1 else MAXCLIENTS)
            && t.server.log == s.server.log + [Entry(if |s.server.clients| == MAXCLIENTS then Refused(n) else Joiner(n),
                                                     Mesg(JOINED, name, ""))]
  {
    JoinsQuietly(s, n, name);
    steps := JoinSteps(s, n, name);
  }

  /** n processes join, one in each pass. */
  lemma {:induction false} Fill(n: nat) returns (steps: seq<Step>)
    ensures ValidRun(Start, steps)
    ensures var s := Reached(steps);
            && Quiet(s, n) && |s.server.clients| == (if n < MAXCLIENTS then n else MAXCLIENTS)
            && (n > MAXCLIENTS ==> !NoneRefused(s.server.log))
  {
    if n == 0 {
      steps := [];
    } else {
      var before := Fill(n - 1);
      var s := Reached(before);
      var join := TakeNew(s, n - 1, "");
      var t := Run(s, join);
      var rest := PassIdly(t, 0);
      RunThen(Start, before, join);
      RunThen(Start, before + join, rest);
      steps := before + join + rest;
      assert n > MAXCLIENTS ==> t.server.log[|s.server.log|].origin.Refused?;
    }
  }

  /** The 257th process is refused though its JOINED is broadcast, and the log no longer tells who is there. */
  lemma FullTableRefuses() returns (steps: seq<Step>)
    ensures ValidRun(Start, steps) && Reached(steps).pc != Halted && !AlwaysRoom(Start, steps)
    ensures var v := Reached(steps).server;
            && |v.clients| == 256
            && Names(v.clients) != KindNames(v.log, JOINED) - KindNames(v.log, DEPARTED)
  {
    steps := Fill(MAXCLIENTS + 1);
    StartHolds();
    RefusedIff(Start, steps);
    MembershipByName(steps);
  }

  /** A shutdown with n clients in the chat leaves n / 2 of them in the table; two clients leave one. */
  lemma ShutdownLeavesHalf(n: nat) returns (steps: seq<Step>)
    requires n <= MAXCLIENTS
    ensures ValidRun(Start, steps) && Reached(steps).pc == Halted
    ensures |Reached(steps).server.clients| == n / 2
  {
    var before := Fill(n);
    RunOne(Start, before, Stop);
    ShutdownLeaves(Reached(before).server);
    steps := before + [Stop];
  }

}
