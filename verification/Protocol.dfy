/**
 The chat as a state machine: any number of client processes and one server, interleaved between
 the server's handlers in any order. A client process sends its join, then messages once the server
 has channels its FIFOs, then one DEPARTED.
 */
module Protocol {
  import opened ServerModel
  import opened BroadcastLog

  /** Where the server's main loop stands; Blocked is a read from a FIFO that holds nothing. */
  datatype Pc = Polling | Joining | Serving(i: nat) | Blocked | Halted

  datatype Sys = Sys(server: State, pc: Pc, names: map<Channel, string>)

  datatype Step =
    | SendJoin(channel: Channel, name: string)
    | SendMesg(channel: Channel, body: string)
    | SendDeparted(channel: Channel)
    | Poll
    | TakeJoin
    | Serve
    | EndPass
    | Stop

  const Start := Sys(State([], false, Fifo([], 0), map[], map[], []), Polling, map[])

  predicate HasLeft(written: seq<Mesg>) {
    |written| > 0 && written[|written| - 1].kind == DEPARTED
  }

  predicate MayWrite(s: Sys, c: Channel) {
    c in s.names && c in s.server.toServer && !HasLeft(s.server.toServer[c].written)
  }

  predicate Enabled(s: Sys, step: Step) {
    match step
    case SendJoin(c, _) => c !in s.names
    case SendMesg(c, _) => MayWrite(s, c)
    case SendDeparted(c) => MayWrite(s, c)
    case Poll => s.pc == Polling
    case TakeJoin => s.pc == Joining
    case Serve => s.pc.Serving? && s.pc.i < |s.server.clients|
    case EndPass => s.pc.Serving? && s.pc.i >= |s.server.clients|
    case Stop => s.pc != Halted
  }

  function Write(s: Sys, c: Channel, m: Mesg): Sys
    requires c in s.server.toServer
  {
    s.(server := s.server.(toServer := s.server.toServer[c := s.server.toServer[c].Put(m)]))
  }

  function ServeSlot(s: Sys, i: nat): Sys
    requires i < |s.server.clients|
  {
    if !s.server.clients[i].dataReady then
      s.(pc := Serving(i + 1))
    else if !ClientHasData(s.server, s.server.clients[i].channel) then
      s.(pc := Blocked)
    else
      s.(server := HandleClient(s.server, i), pc := Serving(i + 1))
  }

  function Next(s: Sys, step: Step): Sys
    requires Enabled(s, step)
  {
    match step
    case SendJoin(c, name) =>
      s.(server := s.server.(joins := s.server.joins.Put(Join(name, c))), names := s.names[c := name])
    case SendMesg(c, body) => Write(s, c, Mesg(MESG, s.names[c], body))
    case SendDeparted(c) => Write(s, c, Mesg(DEPARTED, s.names[c], ""))
    case Poll => s.(server := CheckSources(s.server), pc := Joining)
    case TakeJoin =>
      if !s.server.joinReady then
        s.(pc := Serving(0))
      else if !s.server.joins.HasData() then
        s.(pc := Blocked)
      else
        s.(server := HandleJoin(s.server), pc := Serving(0))
    case Serve => ServeSlot(s, s.pc.i)
    case EndPass => s.(pc := Polling)
    case Stop => s.(server := Shutdown(s.server), pc := Halted)
  }

  ghost predicate ValidRun(s: Sys, steps: seq<Step>)
    decreases |steps|
  {
    steps == [] || (Enabled(s, steps[0]) && ValidRun(Next(s, steps[0]), steps[1..]))
  }

  ghost function Run(s: Sys, steps: seq<Step>): Sys
    requires ValidRun(s, steps)
    decreases |steps|
  {
    if steps == [] then s else Run(Next(s, steps[0]), steps[1..])
  }

  // ---- the invariant ----

  /** What a client process may have written: its own messages, and DEPARTED only as the last one. */
  ghost predicate Speaks(written: seq<Mesg>, name: string) {
    forall k :: 0 <= k < |written| ==>
      && written[k].name == name
      && (written[k].kind == MESG || (written[k].kind == DEPARTED && k == |written| - 1))
  }

  /** One client's FIFOs against the log: all it was sent, and all that was taken from it. */
  ghost predicate ChannelOk(fifo: Fifo<Mesg>, sent: seq<Mesg>, log: seq<Entry>, c: Channel, name: string) {
    && Speaks(fifo.written, name)
    && fifo.taken <= |fifo.written|
    && Relayed(log, c) == fifo.written[..fifo.taken]
    && First(log, JoinOf(c)) < First(log, DepartureOf(c))
    && sent == Received(log, c)
  }

  ghost predicate ChannelsOk(toServer: map<Channel, Fifo<Mesg>>, toClient: map<Channel, seq<Mesg>>,
                             log: seq<Entry>, names: map<Channel, string>)
  {
    && toClient.Keys == toServer.Keys && toServer.Keys <= names.Keys
    && forall c :: c in toServer ==> ChannelOk(toServer[c], toClient[c], log, c, names[c])
  }

  ghost predicate Waiting(joins: Fifo<Join>, c: Channel) {
    exists k :: joins.taken <= k < |joins.written| && joins.written[k].channel == c
  }

  ghost predicate EntryOk(e: Entry, channels: set<Channel>, names: map<Channel, string>, joins: Fifo<Join>) {
    match e.origin
    case Joiner(c) => c in channels && c in names && e.mesg == Mesg(JOINED, names[c], "")
    case Refused(c) => c !in channels && !Waiting(joins, c) && c in names && e.mesg == Mesg(JOINED, names[c], "")
    case Sender(c) =>
      && c in channels && c in names && e.mesg.name == names[c]
      && (e.mesg.kind == MESG || e.mesg.kind == DEPARTED)
    case Server => e.mesg == ShutdownMesg
  }

  /** Only the last entry, of a server that has stopped, comes from the server itself. */
  ghost predicate LogOk(log: seq<Entry>, channels: set<Channel>, names: map<Channel, string>, joins: Fifo<Join>,
                        halted: bool)
  {
    && (forall k :: 0 <= k < |log| ==> EntryOk(log[k], channels, names, joins))
    && (forall k :: 0 <= k < |log| ==> (log[k].origin == Server <==> halted && k == |log| - 1))
    && (halted ==> log != [])
  }

  /** The ready flag promises a message in the client's own FIFO. */
  ghost predicate SlotOk(c: Client, toServer: map<Channel, Fifo<Mesg>>, names: map<Channel, string>) {
    && c.channel in toServer
    && c.channel in names && c.name == names[c.channel]
    && (c.dataReady ==> toServer[c.channel].HasData())
  }

  function Table(clients: seq<Client>): seq<Join> {
    seq(|clients|, i requires 0 <= i < |clients| => Join(clients[i].name, clients[i].channel))
  }

  ghost predicate SlotsOk(clients: seq<Client>, toServer: map<Channel, Fifo<Mesg>>, names: map<Channel, string>) {
    forall i :: 0 <= i < |clients| ==> SlotOk(clients[i], toServer, names)
  }

  /** The table is the replay of the log. */
  ghost predicate TableOk(clients: seq<Client>, channels: set<Channel>, log: seq<Entry>) {
    && |clients| <= MAXCLIENTS
    && DistinctChannels(clients)
    && (forall c :: c in channels ==> (Connected(clients, c) <==> !Departed(log, c)))
    && Table(clients) == Members(log)
  }

  ghost predicate JoinsOk(joins: Fifo<Join>, channels: set<Channel>, names: map<Channel, string>) {
    && joins.taken <= |joins.written|
    && (forall j, k :: 0 <= j < k < |joins.written| ==> joins.written[j].channel != joins.written[k].channel)
    && (forall k :: 0 <= k < |joins.written| ==>
          joins.written[k].channel in names && names[joins.written[k].channel] == joins.written[k].name)
    && (forall c :: c in channels ==> !Waiting(joins, c))
  }

  /** What holds of the server while it runs. */
  ghost predicate Live(server: State, names: map<Channel, string>) {
    && (server.joinReady ==> server.joins.HasData())
    && SlotsOk(server.clients, server.toServer, names)
    && TableOk(server.clients, server.toServer.Keys, server.log)
  }

  ghost predicate HistoryOk(v: State, names: map<Channel, string>, halted: bool) {
    && ChannelsOk(v.toServer, v.toClient, v.log, names)
    && LogOk(v.log, v.toServer.Keys, names, v.joins, halted)
    && JoinsOk(v.joins, v.toServer.Keys, names)
  }

  ghost predicate Inv(s: Sys) {
    && s.pc != Blocked
    && HistoryOk(s.server, s.names, s.pc == Halted)
    && (s.pc != Halted ==> Live(s.server, s.names))
  }

  // ---- tables ----

  lemma ConnectedAfterRemove(clients: seq<Client>, i: nat, c: Channel)
    requires i < |clients| && DistinctChannels(clients)
    ensures Connected(RemoveAt(clients, i), c) <==> Connected(clients, c) && c != clients[i].channel
  {
    var rest := RemoveAt(clients, i);
    assert forall k :: 0 <= k < |rest| ==> rest[k] == clients[if k < i then k else k + 1];
    if Connected(clients, c) && c != clients[i].channel {
      var k :| 0 <= k < |clients| && clients[k].channel == c;
      assert rest[if k < i then k else k - 1].channel == c;
    }
  }

  lemma ClearFlagKeeps(clients: seq<Client>, i: nat)
    ensures Table(ClearFlag(clients, i)) == Table(clients)
    ensures DistinctChannels(ClearFlag(clients, i)) <==> DistinctChannels(clients)
    ensures forall c :: Connected(ClearFlag(clients, i), c) <==> Connected(clients, c)
  {
    var cleared := ClearFlag(clients, i);
    assert forall k :: 0 <= k < |clients| ==>
      cleared[k].channel == clients[k].channel && cleared[k].name == clients[k].name;
    assert Table(cleared) == Table(clients);
  }

  // ---- steps that broadcast nothing ----

  lemma PutWaits(joins: Fifo<Join>, j: Join)
    ensures forall c: Channel :: Waiting(joins.Put(j), c) ==> Waiting(joins, c) || c == j.channel
  {
    var more := joins.Put(j);
    forall k: Channel | Waiting(more, k) ensures Waiting(joins, k) || k == j.channel {
      var i :| more.taken <= i < |more.written| && more.written[i].channel == k;
      assert i < |joins.written| ==> joins.written[i].channel == k;
    }
  }

  lemma NewNameKeepsChannels(v: State, names: map<Channel, string>, c: Channel, name: string)
    requires ChannelsOk(v.toServer, v.toClient, v.log, names) && c !in names
    ensures ChannelsOk(v.toServer, v.toClient, v.log, names[c := name])
  {
  }

  lemma NewNameKeepsLog(v: State, names: map<Channel, string>, c: Channel, name: string, halted: bool)
    requires c !in names
    requires LogOk(v.log, v.toServer.Keys, names, v.joins, halted)
    requires JoinsOk(v.joins, v.toServer.Keys, names) && v.toServer.Keys <= names.Keys
    ensures LogOk(v.log, v.toServer.Keys, names[c := name], v.joins.Put(Join(name, c)), halted)
    ensures JoinsOk(v.joins.Put(Join(name, c)), v.toServer.Keys, names[c := name])
  {
    PutWaits(v.joins, Join(name, c));
  }

  lemma SendJoinKeepsInv(s: Sys, step: Step)
    requires Inv(s) && step.SendJoin? && Enabled(s, step)
    ensures Inv(Next(s, step))
  {
    NewNameKeepsChannels(s.server, s.names, step.channel, step.name);
    NewNameKeepsLog(s.server, s.names, step.channel, step.name, s.pc == Halted);
    assert forall c :: SlotOk(c, s.server.toServer, s.names) ==>
      SlotOk(c, s.server.toServer, s.names[step.channel := step.name]);
  }

  lemma PutKeepsChannel(fifo: Fifo<Mesg>, sent: seq<Mesg>, log: seq<Entry>, c: Channel, name: string, m: Mesg)
    requires ChannelOk(fifo, sent, log, c, name)
    requires !HasLeft(fifo.written) && m.name == name && (m.kind == MESG || m.kind == DEPARTED)
    ensures ChannelOk(fifo.Put(m), sent, log, c, name)
  {
    assert fifo.Put(m).written[..fifo.taken] == fifo.written[..fifo.taken];
  }

  lemma PutKeepsChannels(v: State, names: map<Channel, string>, c: Channel, m: Mesg)
    requires ChannelsOk(v.toServer, v.toClient, v.log, names)
    requires c in v.toServer && !HasLeft(v.toServer[c].written)
    requires m.name == names[c] && (m.kind == MESG || m.kind == DEPARTED)
    ensures ChannelsOk(v.toServer[c := v.toServer[c].Put(m)], v.toClient, v.log, names)
  {
    var after := v.toServer[c := v.toServer[c].Put(m)];
    assert after.Keys == v.toServer.Keys;
    PutKeepsChannel(v.toServer[c], v.toClient[c], v.log, c, names[c], m);
    forall k | k in after ensures ChannelOk(after[k], v.toClient[k], v.log, k, names[k]) {
      if k != c {
        assert after[k] == v.toServer[k];
      }
    }
  }

  lemma PutKeepsSlots(clients: seq<Client>, toServer: map<Channel, Fifo<Mesg>>, names: map<Channel, string>,
                      c: Channel, m: Mesg)
    requires SlotsOk(clients, toServer, names) && c in toServer
    ensures SlotsOk(clients, toServer[c := toServer[c].Put(m)], names)
  {
  }

  lemma WriteKeepsInv(s: Sys, c: Channel, m: Mesg)
    requires Inv(s) && MayWrite(s, c) && m.name == s.names[c] && (m.kind == MESG || m.kind == DEPARTED)
    ensures Inv(Write(s, c, m))
  {
    PutKeepsChannels(s.server, s.names, c, m);
    if s.pc != Halted {
      PutKeepsSlots(s.server.clients, s.server.toServer, s.names, c, m);
    }
    assert Write(s, c, m).server.toServer.Keys == s.server.toServer.Keys;
  }

  lemma PollKeepsSlots(v: State, names: map<Channel, string>)
    requires SlotsOk(v.clients, v.toServer, names)
    ensures SlotsOk(CheckSources(v).clients, v.toServer, names)
  {
    var after := CheckSources(v).clients;
    forall i | 0 <= i < |after| ensures SlotOk(after[i], v.toServer, names) {
      assert SlotOk(v.clients[i], v.toServer, names);
      assert after[i] == Polled(v, v.clients[i]);
    }
  }

  lemma PollKeepsLive(v: State, names: map<Channel, string>)
    requires Live(v, names)
    ensures Live(CheckSources(v), names)
  {
    var before, after := v.clients, CheckSources(v).clients;
    PollKeepsSlots(v, names);
    assert forall i :: 0 <= i < |before| ==>
      after[i].channel == before[i].channel && after[i].name == before[i].name;
    assert Table(after) == Table(before);
    assert forall c :: Connected(after, c) <==> Connected(before, c);
  }

  // ---- steps that broadcast ----

  /** A broadcast to exactly the clients that are in the chat once it is logged keeps every client's history. */
  lemma BroadcastKeepsChannel(fifo: Fifo<Mesg>, sent: seq<Mesg>, log: seq<Entry>, c: Channel, name: string,
                              e: Entry, after: seq<Client>)
    requires ChannelOk(fifo, sent, log, c, name)
    requires Connected(after, c) <==> !Departed(log + [e], c)
    requires e.origin != Sender(c)
    ensures ChannelOk(fifo, if Connected(after, c) then sent + [e.mesg] else sent, log + [e], c, name)
  {
    FirstOfAppend(log, e, JoinOf(c));
    FirstOfAppend(log, e, DepartureOf(c));
    RelayedOfAppend(log, e, c);
    ReceivedOfAppend(log, e, c);
  }

  lemma RelayKeepsChannel(fifo: Fifo<Mesg>, sent: seq<Mesg>, log: seq<Entry>, c: Channel, name: string,
                          after: seq<Client>)
    requires ChannelOk(fifo, sent, log, c, name) && fifo.HasData()
    requires Connected(after, c) <==> !Departed(log + [Entry(Sender(c), fifo.written[fifo.taken])], c)
    ensures var m := fifo.written[fifo.taken];
            ChannelOk(fifo.(taken := fifo.taken + 1), if Connected(after, c) then sent + [m] else sent,
                      log + [Entry(Sender(c), m)], c, name)
  {
    var e := Entry(Sender(c), fifo.written[fifo.taken]);
    FirstOfAppend(log, e, JoinOf(c));
    FirstOfAppend(log, e, DepartureOf(c));
    RelayedOfAppend(log, e, c);
    ReceivedOfAppend(log, e, c);
    assert fifo.written[..fifo.taken + 1] == fifo.written[..fifo.taken] + [e.mesg];
  }

  lemma DepartureKeepsTable(clients: seq<Client>, channels: set<Channel>, log: seq<Entry>, i: nat, e: Entry)
    requires TableOk(clients, channels, log) && i < |clients| && clients[i].channel in channels
    requires Hits(DepartureOf(clients[i].channel), e)
    ensures TableOk(RemoveAt(clients, i), channels, log + [e])
  {
    var after := RemoveAt(clients, i);
    MembersOfAppend(log, e);
    WithoutIsRemoveAt(Table(clients), i);
    assert Table(after) == RemoveAt(Table(clients), i);
    forall k | k in channels ensures Connected(after, k) <==> !Departed(log + [e], k) {
      FirstOfAppend(log, e, DepartureOf(k));
      ConnectedAfterRemove(clients, i, k);
    }
  }

  lemma MesgKeepsTable(clients: seq<Client>, channels: set<Channel>, log: seq<Entry>, e: Entry)
    requires TableOk(clients, channels, log)
    requires e.origin.Refused? || (e.origin.Sender? && e.mesg.kind == MESG)
    ensures TableOk(clients, channels, log + [e])
  {
    MembersOfAppend(log, e);
    forall k | k in channels ensures Departed(log, k) <==> Departed(log + [e], k) {
      FirstOfAppend(log, e, DepartureOf(k));
    }
  }

  lemma JoinKeepsTable(clients: seq<Client>, channels: set<Channel>, log: seq<Entry>, j: Join, e: Entry)
    requires TableOk(clients, channels, log) && |clients| < MAXCLIENTS
    requires j.channel !in channels && !Departed(log, j.channel)
    requires forall i :: 0 <= i < |clients| ==> clients[i].channel in channels
    requires e.origin == Joiner(j.channel) && e.mesg.name == j.name
    ensures TableOk(clients + [Client(j.name, j.channel, false)], channels + {j.channel}, log + [e])
  {
    var after := clients + [Client(j.name, j.channel, false)];
    MembersOfAppend(log, e);
    assert Table(after) == Table(clients) + [j];
    forall k | k in channels + {j.channel} ensures Connected(after, k) <==> !Departed(log + [e], k) {
      FirstOfAppend(log, e, DepartureOf(k));
      ConnectedAfterAdd(clients, after[|clients|], k);
    }
  }

  lemma ConnectedAfterAdd(clients: seq<Client>, x: Client, c: Channel)
    ensures Connected(clients + [x], c) <==> Connected(clients, c) || c == x.channel
  {
    var more := clients + [x];
    assert more[|clients|] == x;
    if Connected(clients, c) {
      var k :| 0 <= k < |clients| && clients[k].channel == c;
      assert more[k].channel == c;
    }
  }

  lemma AppendKeepsLog(log: seq<Entry>, channels: set<Channel>, names: map<Channel, string>, joins: Fifo<Join>,
                       e: Entry)
    requires LogOk(log, channels, names, joins, false)
    requires EntryOk(e, channels, names, joins) && e.origin != Server
    ensures LogOk(log + [e], channels, names, joins, false)
  {
  }

  // a message or a departure

  lemma ReactKeepsSlots(v: State, names: map<Channel, string>, i: nat, after: seq<Client>)
    requires SlotsOk(v.clients, v.toServer, names) && DistinctChannels(v.clients)
    requires i < |v.clients| && ClientHasData(v, v.clients[i].channel)
    requires after == v.clients || after == RemoveAt(v.clients, i)
    ensures SlotsOk(ClearFlag(after, i), Read(v, v.clients[i].channel).toServer, names)
  {
    var c := v.clients[i].channel;
    var cleared := ClearFlag(after, i);
    forall k | 0 <= k < |cleared| ensures SlotOk(cleared[k], Read(v, c).toServer, names) {
      var from := if after == v.clients || k < i then k else k + 1;
      assert SlotOk(v.clients[from], v.toServer, names);
      assert cleared[k].channel == v.clients[from].channel && cleared[k].name == v.clients[from].name;
      assert cleared[k].dataReady ==> v.clients[from].dataReady && from != i;
    }
  }

  lemma DeliverAt(toClient: map<Channel, seq<Mesg>>, after: seq<Client>, m: Mesg, k: Channel)
    requires k in toClient
    ensures Deliver(toClient, after, m)[k] == if Connected(after, k) then toClient[k] + [m] else toClient[k]
  {
  }

  lemma ReadAt(v: State, c: Channel, k: Channel)
    requires c in v.toServer && k in v.toServer
    ensures Read(v, c).toServer.Keys == v.toServer.Keys
    ensures Read(v, c).toServer[k] ==
            if k == c then v.toServer[c].(taken := v.toServer[c].taken + 1) else v.toServer[k]
  {
  }

  lemma ReactOwnChannel(v: State, name: string, c: Channel, after: seq<Client>, e: Entry)
    requires ClientHasData(v, c) && c in v.toClient && e == Entry(Sender(c), NextMesg(v, c))
    requires ChannelOk(v.toServer[c], v.toClient[c], v.log, c, name)
    requires Connected(after, c) <==> !Departed(v.log + [e], c)
    ensures ChannelOk(Read(v, c).toServer[c], Deliver(v.toClient, after, e.mesg)[c], v.log + [e], c, name)
  {
    ReadAt(v, c, c);
    DeliverAt(v.toClient, after, e.mesg, c);
    RelayKeepsChannel(v.toServer[c], v.toClient[c], v.log, c, name, after);
  }

  lemma ReactOtherChannel(v: State, name: string, c: Channel, after: seq<Client>, e: Entry, k: Channel)
    requires ClientHasData(v, c) && k in v.toServer && k in v.toClient && k != c && e.origin == Sender(c)
    requires ChannelOk(v.toServer[k], v.toClient[k], v.log, k, name)
    requires Connected(after, k) <==> !Departed(v.log + [e], k)
    ensures ChannelOk(Read(v, c).toServer[k], Deliver(v.toClient, after, e.mesg)[k], v.log + [e], k, name)
  {
    ReadAt(v, c, k);
    DeliverAt(v.toClient, after, e.mesg, k);
    BroadcastKeepsChannel(v.toServer[k], v.toClient[k], v.log, k, name, e, after);
  }

  lemma ReactKeepsChannels(v: State, names: map<Channel, string>, c: Channel, after: seq<Client>)
    requires ChannelsOk(v.toServer, v.toClient, v.log, names) && ClientHasData(v, c)
    requires TableOk(after, v.toServer.Keys, v.log + [Entry(Sender(c), NextMesg(v, c))])
    ensures ChannelsOk(Read(v, c).toServer, Deliver(v.toClient, after, NextMesg(v, c)),
                       v.log + [Entry(Sender(c), NextMesg(v, c))], names)
  {
    var m := NextMesg(v, c);
    var toServer, toClient, e := Read(v, c).toServer, Deliver(v.toClient, after, m), Entry(Sender(c), m);
    ReadAt(v, c, c);
    forall k | k in toServer ensures ChannelOk(toServer[k], toClient[k], v.log + [e], k, names[k]) {
      assert k in v.toServer.Keys;
      if k == c {
        ReactOwnChannel(v, names[k], c, after, e);
      } else {
        ReactOtherChannel(v, names[k], c, after, e, k);
      }
    }
  }

  /** The table before the flag is cleared. */
  function TableAfter(v: State, i: nat, m: Mesg): seq<Client>
    requires i < |v.clients|
  {
    if m.kind == DEPARTED then RemoveAt(v.clients, i) else v.clients
  }

  lemma ReactKeepsTable(v: State, i: nat, m: Mesg)
    requires TableOk(v.clients, v.toServer.Keys, v.log)
    requires i < |v.clients| && v.clients[i].channel in v.toServer
    requires m.kind == MESG || m.kind == DEPARTED
    ensures TableOk(TableAfter(v, i, m), v.toServer.Keys, v.log + [Entry(Sender(v.clients[i].channel), m)])
    ensures TableOk(ClearFlag(TableAfter(v, i, m), i), v.toServer.Keys,
                    v.log + [Entry(Sender(v.clients[i].channel), m)])
  {
    var e := Entry(Sender(v.clients[i].channel), m);
    if m.kind == DEPARTED {
      DepartureKeepsTable(v.clients, v.toServer.Keys, v.log, i, e);
    } else {
      MesgKeepsTable(v.clients, v.toServer.Keys, v.log, e);
    }
    ClearFlagKeeps(TableAfter(v, i, m), i);
  }

  lemma HandleClientIs(v: State, i: nat)
    requires i < |v.clients| && ClientHasData(v, v.clients[i].channel)
    requires var m := NextMesg(v, v.clients[i].channel); m.kind == MESG || m.kind == DEPARTED
    ensures var c := v.clients[i].channel;
            var m := NextMesg(v, c);
            HandleClient(v, i) ==
            State(ClearFlag(TableAfter(v, i, m), i), v.joinReady, v.joins, Read(v, c).toServer,
                  Deliver(v.toClient, TableAfter(v, i, m), m), v.log + [Entry(Sender(c), m)])
  {
  }

  lemma NextMesgSpeaks(v: State, names: map<Channel, string>, c: Channel)
    requires ChannelsOk(v.toServer, v.toClient, v.log, names) && ClientHasData(v, c)
    ensures c in names && NextMesg(v, c).name == names[c]
    ensures NextMesg(v, c).kind == MESG || NextMesg(v, c).kind == DEPARTED
  {
    assert ChannelOk(v.toServer[c], v.toClient[c], v.log, c, names[c]);
  }

  lemma HandleClientKeepsLive(v: State, names: map<Channel, string>, i: nat)
    requires Live(v, names)
    requires i < |v.clients| && ClientHasData(v, v.clients[i].channel)
    requires var m := NextMesg(v, v.clients[i].channel); m.kind == MESG || m.kind == DEPARTED
    ensures Live(HandleClient(v, i), names)
  {
    var c := v.clients[i].channel;
    var m := NextMesg(v, c);
    HandleClientIs(v, i);
    ReactKeepsTable(v, i, m);
    ReactKeepsSlots(v, names, i, TableAfter(v, i, m));
    assert Read(v, c).toServer.Keys == v.toServer.Keys;
  }

  lemma HandleClientKeepsHistory(v: State, names: map<Channel, string>, i: nat, c: Channel, m: Mesg)
    requires HistoryOk(v, names, false)
    requires i < |v.clients| && c == v.clients[i].channel && ClientHasData(v, c) && m == NextMesg(v, c)
    requires c in names && m.name == names[c] && (m.kind == MESG || m.kind == DEPARTED)
    requires TableOk(TableAfter(v, i, m), v.toServer.Keys, v.log + [Entry(Sender(c), m)])
    ensures HistoryOk(HandleClient(v, i), names, false)
  {
    var e, after := Entry(Sender(c), m), TableAfter(v, i, m);
    AppendKeepsLog(v.log, v.toServer.Keys, names, v.joins, e);
    ReactKeepsChannels(v, names, c, after);
    ReadAt(v, c, c);
    HandleClientIs(v, i);
    HistoryOf(HandleClient(v, i), names, v.toServer.Keys);
  }

  lemma HistoryOf(v: State, names: map<Channel, string>, channels: set<Channel>)
    requires channels == v.toServer.Keys
    requires ChannelsOk(v.toServer, v.toClient, v.log, names)
    requires LogOk(v.log, channels, names, v.joins, false)
    requires JoinsOk(v.joins, channels, names)
    ensures HistoryOk(v, names, false)
  {
  }

  lemma HandleClientKeepsInv(v: State, names: map<Channel, string>, i: nat)
    requires HistoryOk(v, names, false) && Live(v, names)
    requires i < |v.clients| && v.clients[i].dataReady
    ensures ClientHasData(v, v.clients[i].channel)
    ensures HistoryOk(HandleClient(v, i), names, false) && Live(HandleClient(v, i), names)
  {
    assert SlotOk(v.clients[i], v.toServer, names);
    var c := v.clients[i].channel;
    NextMesgSpeaks(v, names, c);
    ReactKeepsTable(v, i, NextMesg(v, c));
    HandleClientKeepsLive(v, names, i);
    HandleClientKeepsHistory(v, names, i, c, NextMesg(v, c));
  }

  // a join

  lemma TakeKeepsLog(v: State, names: map<Channel, string>, joins: Fifo<Join>, channels: set<Channel>)
    requires LogOk(v.log, v.toServer.Keys, names, v.joins, false)
    requires v.joins.HasData() && JoinsOk(v.joins, v.toServer.Keys, names)
    requires joins == v.joins.(taken := v.joins.taken + 1)
    requires channels == v.toServer.Keys || channels == v.toServer.Keys + {v.joins.written[v.joins.taken].channel}
    ensures LogOk(v.log, channels, names, joins, false)
    ensures JoinsOk(joins, channels, names)
    ensures !Waiting(joins, v.joins.written[v.joins.taken].channel)
  {
    var c := v.joins.written[v.joins.taken].channel;
    assert Waiting(v.joins, c);
    forall k: Channel | Waiting(joins, k) ensures Waiting(v.joins, k) && k != c {
      var i :| joins.taken <= i < |joins.written| && joins.written[i].channel == k;
      assert v.joins.written[i].channel == k;
    }
    forall k | 0 <= k < |v.log| ensures EntryOk(v.log[k], channels, names, joins) {
      assert EntryOk(v.log[k], v.toServer.Keys, names, v.joins);
    }
  }

  lemma BroadcastOneChannel(v: State, names: map<Channel, string>, after: seq<Client>, e: Entry, k: Channel)
    requires ChannelsOk(v.toServer, v.toClient, v.log, names) && k in v.toServer && !e.origin.Sender?
    requires Connected(after, k) <==> !Departed(v.log + [e], k)
    ensures k in v.toClient.Keys
    ensures ChannelOk(v.toServer[k], Deliver(v.toClient, after, e.mesg)[k], v.log + [e], k, names[k])
  {
    assert k in v.toClient.Keys;
    DeliverAt(v.toClient, after, e.mesg, k);
    BroadcastKeepsChannel(v.toServer[k], v.toClient[k], v.log, k, names[k], e, after);
  }

  lemma BroadcastKeepsChannels(v: State, names: map<Channel, string>, after: seq<Client>, e: Entry)
    requires ChannelsOk(v.toServer, v.toClient, v.log, names) && !e.origin.Sender?
    requires forall c :: c in v.toServer ==> (Connected(after, c) <==> !Departed(v.log + [e], c))
    ensures ChannelsOk(v.toServer, Deliver(v.toClient, after, e.mesg), v.log + [e], names)
  {
    var toClient, log := Deliver(v.toClient, after, e.mesg), v.log + [e];
    assert toClient.Keys == v.toClient.Keys;
    forall k | k in v.toServer ensures ChannelOk(v.toServer[k], toClient[k], log, k, names[k]) {
      BroadcastOneChannel(v, names, after, e, k);
    }
  }

  lemma FreshChannelOk(log: seq<Entry>, c: Channel, e: Entry, name: string)
    requires e.origin == Joiner(c)
    requires forall k :: 0 <= k < |log| ==> log[k].origin != Sender(c) && log[k].origin != Joiner(c)
    ensures ChannelOk(Fifo([], 0), [e.mesg], log + [e], c, name)
  {
    NothingRelayed(log, c);
    RelayedOfAppend(log, e, c);
    FirstOfAppend(log, e, JoinOf(c));
    FirstOfAppend(log, e, DepartureOf(c));
    ReceivedOfAppend(log, e, c);
    assert log[|log|..|log|] == [];
  }

  lemma AddChannel(toServer: map<Channel, Fifo<Mesg>>, toClient: map<Channel, seq<Mesg>>, log: seq<Entry>,
                   names: map<Channel, string>, c: Channel, fifo: Fifo<Mesg>, sent: seq<Mesg>)
    requires ChannelsOk(toServer, toClient, log, names) && c in names
    requires ChannelOk(fifo, sent, log, c, names[c])
    ensures ChannelsOk(toServer[c := fifo], toClient[c := sent], log, names)
  {
    assert toServer[c := fifo].Keys == toServer.Keys + {c};
    assert toClient[c := sent].Keys == toClient.Keys + {c};
  }

  lemma DeliverToNew(toClient: map<Channel, seq<Mesg>>, c: Channel, after: seq<Client>, m: Mesg)
    requires Connected(after, c)
    ensures Deliver(toClient[c := []], after, m) == Deliver(toClient, after, m)[c := [m]]
  {
    assert [] + [m] == [m];
  }

  lemma AcceptKeepsChannels(v: State, names: map<Channel, string>, c: Channel, after: seq<Client>, e: Entry)
    requires ChannelsOk(v.toServer, v.toClient, v.log, names)
    requires c in names && c !in v.toServer && e.origin == Joiner(c)
    requires forall k :: 0 <= k < |v.log| ==> v.log[k].origin != Sender(c) && v.log[k].origin != Joiner(c)
    requires forall k :: k in v.toServer ==> (Connected(after, k) <==> !Departed(v.log + [e], k))
    requires Connected(after, c)
    ensures ChannelsOk(v.toServer[c := Fifo([], 0)], Deliver(v.toClient[c := []], after, e.mesg), v.log + [e], names)
  {
    BroadcastKeepsChannels(v, names, after, e);
    FreshChannelOk(v.log, c, e, names[c]);
    AddChannel(v.toServer, Deliver(v.toClient, after, e.mesg), v.log + [e], names, c, Fifo([], 0), [e.mesg]);
    DeliverToNew(v.toClient, c, after, e.mesg);
  }

  lemma HandleJoinIs(v: State)
    requires v.joins.HasData()
    ensures var j := v.joins.written[v.joins.taken];
            var joins := v.joins.(taken := v.joins.taken + 1);
            var m := Mesg(JOINED, j.name, "");
            var after := v.clients + [Client(j.name, j.channel, false)];
            HandleJoin(v) ==
            if |v.clients| == MAXCLIENTS then
              State(v.clients, false, joins, v.toServer, Deliver(v.toClient, v.clients, m),
                    v.log + [Entry(Refused(j.channel), m)])
            else
              State(after, false, joins, v.toServer[j.channel := Fifo([], 0)],
                    Deliver(v.toClient[j.channel := []], after, m), v.log + [Entry(Joiner(j.channel), m)])
  {
  }

  lemma RefuseKeepsInv(v: State, names: map<Channel, string>)
    requires HistoryOk(v, names, false) && Live(v, names)
    requires v.joins.HasData() && |v.clients| == MAXCLIENTS
    ensures HistoryOk(HandleJoin(v), names, false) && Live(HandleJoin(v), names)
  {
    var j := v.joins.written[v.joins.taken];
    var joins := v.joins.(taken := v.joins.taken + 1);
    var e := Entry(Refused(j.channel), Mesg(JOINED, j.name, ""));
    assert Waiting(v.joins, j.channel);
    TakeKeepsLog(v, names, joins, v.toServer.Keys);
    AppendKeepsLog(v.log, v.toServer.Keys, names, joins, e);
    MesgKeepsTable(v.clients, v.toServer.Keys, v.log, e);
    BroadcastKeepsChannels(v, names, v.clients, e);
    HandleJoinIs(v);
  }

  lemma FreshChannel(v: State, names: map<Channel, string>, c: Channel)
    requires LogOk(v.log, v.toServer.Keys, names, v.joins, false) && c !in v.toServer
    ensures forall k :: 0 <= k < |v.log| ==> v.log[k].origin != Sender(c) && v.log[k].origin != Joiner(c)
    ensures !Departed(v.log, c)
  {
    forall k | 0 <= k < |v.log| ensures v.log[k].origin != Sender(c) && v.log[k].origin != Joiner(c) {
      assert EntryOk(v.log[k], v.toServer.Keys, names, v.joins);
    }
  }

  lemma AcceptKeepsSlots(clients: seq<Client>, toServer: map<Channel, Fifo<Mesg>>, names: map<Channel, string>,
                         j: Join)
    requires SlotsOk(clients, toServer, names)
    requires j.channel !in toServer && j.channel in names && names[j.channel] == j.name
    ensures SlotsOk(clients + [Client(j.name, j.channel, false)], toServer[j.channel := Fifo([], 0)], names)
  {
  }

  lemma AcceptKeepsTable(v: State, names: map<Channel, string>, j: Join)
    requires SlotsOk(v.clients, v.toServer, names) && TableOk(v.clients, v.toServer.Keys, v.log)
    requires j.channel !in v.toServer && !Departed(v.log, j.channel) && |v.clients| < MAXCLIENTS
    ensures TableOk(v.clients + [Client(j.name, j.channel, false)], v.toServer.Keys + {j.channel},
                    v.log + [Entry(Joiner(j.channel), Mesg(JOINED, j.name, ""))])
  {
    forall i | 0 <= i < |v.clients| ensures v.clients[i].channel in v.toServer.Keys {
      assert SlotOk(v.clients[i], v.toServer, names);
    }
    JoinKeepsTable(v.clients, v.toServer.Keys, v.log, j, Entry(Joiner(j.channel), Mesg(JOINED, j.name, "")));
  }

  lemma AcceptKeepsLive(v: State, names: map<Channel, string>)
    requires LogOk(v.log, v.toServer.Keys, names, v.joins, false) && JoinsOk(v.joins, v.toServer.Keys, names)
    requires Live(v, names) && v.joins.HasData() && |v.clients| < MAXCLIENTS
    ensures Live(HandleJoin(v), names)
  {
    var j := v.joins.written[v.joins.taken];
    assert Waiting(v.joins, j.channel);
    FreshChannel(v, names, j.channel);
    AcceptKeepsTable(v, names, j);
    AcceptKeepsSlots(v.clients, v.toServer, names, j);
    HandleJoinIs(v);
    assert v.toServer[j.channel := Fifo([], 0)].Keys == v.toServer.Keys + {j.channel};
  }

  lemma AcceptKeepsHistory(v: State, names: map<Channel, string>, after: seq<Client>)
    requires HistoryOk(v, names, false)
    requires v.joins.HasData() && |v.clients| < MAXCLIENTS
    requires after == HandleJoin(v).clients
    requires forall c :: c in v.toServer ==> (Connected(after, c) <==> !Departed(HandleJoin(v).log, c))
    ensures HistoryOk(HandleJoin(v), names, false)
  {
    var j := v.joins.written[v.joins.taken];
    var joins := v.joins.(taken := v.joins.taken + 1);
    var e := Entry(Joiner(j.channel), Mesg(JOINED, j.name, ""));
    HandleJoinIs(v);
    assert Waiting(v.joins, j.channel);
    FreshChannel(v, names, j.channel);
    assert v.toServer[j.channel := Fifo([], 0)].Keys == v.toServer.Keys + {j.channel};
    TakeKeepsLog(v, names, joins, v.toServer.Keys + {j.channel});
    AppendKeepsLog(v.log, v.toServer.Keys + {j.channel}, names, joins, e);
    assert after[|v.clients|].channel == j.channel;
    AcceptKeepsChannels(v, names, j.channel, after, e);
    HistoryOf(HandleJoin(v), names, v.toServer.Keys + {j.channel});
  }

  lemma HandleJoinKeepsInv(v: State, names: map<Channel, string>)
    requires HistoryOk(v, names, false) && Live(v, names) && v.joins.HasData()
    ensures HistoryOk(HandleJoin(v), names, false) && Live(HandleJoin(v), names)
  {
    if |v.clients| == MAXCLIENTS {
      RefuseKeepsInv(v, names);
    } else {
      AcceptKeepsLive(v, names);
      assert forall c :: c in v.toServer ==> c in HandleJoin(v).toServer.Keys;
      AcceptKeepsHistory(v, names, HandleJoin(v).clients);
    }
  }

  // a shutdown

  lemma ShutdownKeepsHistory(v: State, names: map<Channel, string>)
    requires HistoryOk(v, names, false) && TableOk(v.clients, v.toServer.Keys, v.log)
    ensures HistoryOk(Shutdown(v), names, true)
  {
    var e := Entry(Server, ShutdownMesg);
    forall k | k in v.toServer ensures Connected(v.clients, k) <==> !Departed(v.log + [e], k) {
      FirstOfAppend(v.log, e, DepartureOf(k));
    }
    BroadcastKeepsChannels(v, names, v.clients, e);
  }

  lemma NextKeepsInv(s: Sys, step: Step)
    requires Inv(s) && Enabled(s, step)
    ensures Inv(Next(s, step))
  {
    var v := s.server;
    match step
    case SendJoin(_, _) => SendJoinKeepsInv(s, step);
    case SendMesg(c, body) => WriteKeepsInv(s, c, Mesg(MESG, s.names[c], body));
    case SendDeparted(c) => WriteKeepsInv(s, c, Mesg(DEPARTED, s.names[c], ""));
    case Poll => PollKeepsLive(v, s.names);
    case TakeJoin => if v.joinReady { HandleJoinKeepsInv(v, s.names); }
    case Serve => if v.clients[s.pc.i].dataReady { HandleClientKeepsInv(v, s.names, s.pc.i); }
    case EndPass =>
    case Stop => ShutdownKeepsHistory(v, s.names);
  }

  /** Every state of every run satisfies the invariant. */
  lemma {:induction false} RunKeepsInv(s: Sys, steps: seq<Step>)
    requires Inv(s) && ValidRun(s, steps)
    ensures Inv(Run(s, steps))
    decreases |steps|
  {
    if steps != [] {
      NextKeepsInv(s, steps[0]);
      RunKeepsInv(Next(s, steps[0]), steps[1..]);
    }
  }

  lemma StartHolds()
    ensures Inv(Start)
  {
  }
}
