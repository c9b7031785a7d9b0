/** The chat server as it is written: one fixed array of client structs, updated in place. */
module ServerProgram {
  import opened ServerModel

  lemma DeliverOneMore(toClient: map<Channel, seq<Mesg>>, clients: seq<Client>, x: Client, m: Mesg)
    requires !Connected(clients, x.channel) && x.channel in toClient
    ensures var d := Deliver(toClient, clients, m);
            d[x.channel := d[x.channel] + [m]] == Deliver(toClient, clients + [x], m)
  {
    var more := clients + [x];
    assert more[|clients|] == x;
    forall c ensures Connected(more, c) <==> Connected(clients, c) || c == x.channel {
      if Connected(clients, c) {
        var k :| 0 <= k < |clients| && clients[k].channel == c;
        assert more[k].channel == c;
      }
    }
  }

  class ChatServer {
    const client: array<Client>
    var nClients: nat
    var joinReady: bool
    var joins: Fifo<Join>
    var toServer: map<Channel, Fifo<Mesg>>
    var toClient: map<Channel, seq<Mesg>>
    ghost var log: seq<Entry>

    /** The table fits its array, and each live slot has its own open pair of FIFOs. */
    ghost predicate Valid()
      reads this, client
    {
      && client.Length == MAXCLIENTS
      && nClients <= MAXCLIENTS
      && DistinctChannels(client[..nClients])
      && forall i :: 0 <= i < nClients ==> client[i].channel in toServer && client[i].channel in toClient
    }

    ghost function Model(): State
      reads this, client
      requires nClients <= client.Length
    {
      State(client[..nClients], joinReady, joins, toServer, toClient, log)
    }

    constructor (joins: Fifo<Join>)
      ensures Valid() && fresh(client)
      ensures Model() == State([], false, joins, map[], map[], [])
    {
      client := new Client[MAXCLIENTS](_ => Client("", 0, false));
      nClients, joinReady := 0, false;
      this.joins, toServer, toClient, log := joins, map[], map[], [];
    }

    method AddClient(j: Join)
      requires Valid()
      requires j.channel !in toServer && j.channel !in toClient
      modifies this, client
      ensures Valid()
      ensures Model() == ServerModel.AddClient(old(Model()), j)
    {
      if nClients == MAXCLIENTS {
        return;
      }
      client[nClients] := Client(j.name, j.channel, false);
      toServer := toServer[j.channel := Fifo([], 0)];
      toClient := toClient[j.channel := []];
      nClients := nClients + 1;
      assert client[..nClients] == old(client[..nClients]) + [Client(j.name, j.channel, false)];
    }

    method RemoveClient(idx: nat)
      requires Valid() && idx < nClients
      modifies this`nClients, client
      ensures Valid()
      ensures Model() == old(Model()).(clients := RemoveAt(old(client[..nClients]), idx))
    {
      if idx < nClients - 1 {
        var i := idx + 1;
        while i < nClients
          invariant nClients == old(nClients)
          invariant idx + 1 <= i <= nClients
          invariant forall k :: 0 <= k < idx ==> client[k] == old(client[k])
          invariant forall k :: idx <= k < i - 1 ==> client[k] == old(client[k + 1])
          invariant forall k :: i - 1 <= k < client.Length ==> client[k] == old(client[k])
        {
          client[i - 1] := client[i];
          i := i + 1;
        }
      }
      nClients := nClients - 1;
      assert client[..nClients] == RemoveAt(old(client[..nClients]), idx);
    }

    method Broadcast(ghost origin: Origin, m: Mesg)
      requires Valid()
      modifies this`toClient, this`log
      ensures Valid()
      ensures Model() == ServerModel.Broadcast(old(Model()), origin, m)
    {
      var i := 0;
      while i < nClients
        invariant 0 <= i <= nClients
        invariant toClient == Deliver(old(toClient), client[..i], m)
        invariant log == old(log)
      {
        var c := client[i].channel;
        DeliverOneMore(old(toClient), client[..i], client[i], m);
        assert client[..i + 1] == client[..i] + [client[i]];
        toClient := toClient[c := toClient[c] + [m]];
        i := i + 1;
      }
      log := log + [Entry(origin, m)];
    }

    method CheckSources()
      requires Valid()
      modifies this`joinReady, client
      ensures Valid()
      ensures joinReady == old(joinReady || joins.HasData()) && nClients == old(nClients)
      ensures forall i :: 0 <= i < nClients ==>
        client[i] == old(client[i]).(dataReady := old(client[i].dataReady || toServer[client[i].channel].HasData()))
      ensures Model() == ServerModel.CheckSources(old(Model()))
    {
      if joins.HasData() {
        joinReady := true;
      }
      var i := 0;
      while i < nClients
        invariant 0 <= i <= nClients
        invariant joinReady == old(joinReady || joins.HasData())
        invariant forall k :: 0 <= k < i ==> client[k] == Polled(old(Model()), old(client[k]))
        invariant forall k :: i <= k < client.Length ==> client[k] == old(client[k])
      {
        if toServer[client[i].channel].HasData() {
          client[i] := client[i].(dataReady := true);
        }
        i := i + 1;
      }
      assert client[..nClients] == ServerModel.CheckSources(old(Model())).clients;
    }

    method HandleJoin()
      requires Valid() && joins.HasData()
      requires joins.written[joins.taken].channel !in toServer
      requires joins.written[joins.taken].channel !in toClient
      modifies this, client
      ensures Valid()
      ensures Model() == ServerModel.HandleJoin(old(Model()))
    {
      var j := joins.written[joins.taken];
      joins := joins.(taken := joins.taken + 1);
      ghost var origin := if nClients == MAXCLIENTS then Refused(j.channel) else Joiner(j.channel);
      AddClient(j);
      Broadcast(origin, Mesg(JOINED, j.name, ""));
      joinReady := false;
    }

    method React(idx: nat, m: Mesg)
      requires Valid() && idx < nClients
      modifies this`nClients, this`toClient, this`log, client
      ensures Valid() && old(nClients) - 1 <= nClients
      ensures Model() == ServerModel.React(old(Model()), idx, m)
    {
      ghost var c := client[idx].channel;
      if m.kind == MESG {
        Broadcast(Sender(c), m);
      } else if m.kind == DEPARTED {
        RemoveClient(idx);
        Broadcast(Sender(c), m);
      }
    }

    /** The flag is cleared through slot idx even after a departure has moved the next client into it. */
    method HandleClient(idx: nat)
      requires Valid() && idx < nClients
      requires toServer[client[idx].channel].HasData()
      modifies this, client
      ensures Valid()
      ensures Model() == ServerModel.HandleClient(old(Model()), idx)
    {
      var c := client[idx].channel;
      var m := toServer[c].written[toServer[c].taken];
      toServer := toServer[c := toServer[c].(taken := toServer[c].taken + 1)];
      assert Model() == Read(old(Model()), c);
      React(idx, m);
      ClearFlag(idx);
    }

    method ClearFlag(idx: nat)
      requires Valid() && idx < MAXCLIENTS
      modifies client
      ensures Valid()
      ensures Model() == old(Model()).(clients := ServerModel.ClearFlag(old(client[..nClients]), idx))
    {
      client[idx] := client[idx].(dataReady := false);
      assert client[..nClients] == ServerModel.ClearFlag(old(client[..nClients]), idx);
    }

    method Shutdown()
      requires Valid()
      modifies this, client
      ensures Valid()
      ensures Model() == ServerModel.Shutdown(old(Model()))
    {
      Broadcast(Server, ShutdownMesg);
      RemoveAll();
    }

    /** The removal loop of a shutdown: it counts up while the table shrinks. */
    method RemoveAll()
      requires Valid()
      modifies this`nClients, client
      ensures Valid()
      ensures Model() == old(Model()).(clients := RemoveUpwards(old(client[..nClients]), 0))
    {
      var i := 0;
      while i < nClients
        invariant Valid()
        invariant RemoveUpwards(client[..nClients], i) == RemoveUpwards(old(client[..nClients]), 0)
        decreases nClients - i
      {
        RemoveClient(i);
        i := i + 1;
      }
    }
  }
}
