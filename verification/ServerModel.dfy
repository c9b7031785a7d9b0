/** The values the chat server works on and the effect of each of its handlers on them. */
module ServerModel {

  const MAXCLIENTS: nat := 256

  /** A client process is known by the pair of FIFOs it made, both named after its process id. */
  type Channel = nat

  datatype Kind = MESG | JOINED | DEPARTED | SHUTDOWN | DISCONNECTED | PING

  datatype Mesg = Mesg(kind: Kind, name: string, body: string)

  datatype Join = Join(name: string, channel: Channel)

  /** One slot of the server's client array; the C struct is copied by assignment, so it is a value. */
  datatype Client = Client(name: string, channel: Channel, dataReady: bool)

  /** A FIFO with its whole history: what was ever written, and how much of it has been read. */
  datatype Fifo<T> = Fifo(written: seq<T>, taken: nat) {
    predicate HasData() {
      taken < |written|
    }

    function Put(x: T): Fifo<T> {
      Fifo(written + [x], taken)
    }
  }

  /** Who caused a broadcast; the message alone does not say, since names need not be unique. */
  datatype Origin = Joiner(channel: Channel) | Refused(channel: Channel) | Sender(channel: Channel) | Server

  datatype Entry = Entry(origin: Origin, mesg: Mesg)

  /** The server's memory, the FIFOs it shares with the clients, and the log of all broadcasts. */
  datatype State = State(
    clients: seq<Client>,
    joinReady: bool,
    joins: Fifo<Join>,
    toServer: map<Channel, Fifo<Mesg>>,
    toClient: map<Channel, seq<Mesg>>,
    log: seq<Entry>)

  predicate Connected(clients: seq<Client>, c: Channel) {
    exists i :: 0 <= i < |clients| && clients[i].channel == c
  }

  predicate DistinctChannels(clients: seq<Client>) {
    forall i, j :: 0 <= i < j < |clients| ==> clients[i].channel != clients[j].channel
  }

  function RemoveAt<T>(s: seq<T>, i: nat): seq<T>
    requires i < |s|
  {
    s[..i] + s[i + 1..]
  }

  /** Clearing the flag through a pointer into slot i touches a live client only when i is still in the table. */
  function ClearFlag(clients: seq<Client>, i: nat): seq<Client> {
    if i < |clients| then clients[i := clients[i].(dataReady := false)] else clients
  }

  /** The to-client FIFOs after m has been written once to every client of the table. */
  function Deliver(toClient: map<Channel, seq<Mesg>>, clients: seq<Client>, m: Mesg): map<Channel, seq<Mesg>> {
    map c | c in toClient :: if Connected(clients, c) then toClient[c] + [m] else toClient[c]
  }

  function Broadcast(s: State, origin: Origin, m: Mesg): State {
    s.(toClient := Deliver(s.toClient, s.clients, m), log := s.log + [Entry(origin, m)])
  }

  predicate ClientHasData(s: State, c: Channel) {
    c in s.toServer && s.toServer[c].HasData()
  }

  function Polled(s: State, c: Client): Client {
    if ClientHasData(s, c.channel) then c.(dataReady := true) else c
  }

  function CheckSources(s: State): State {
    s.(joinReady := s.joinReady || s.joins.HasData(),
       clients := seq(|s.clients|, i requires 0 <= i < |s.clients| => Polled(s, s.clients[i])))
  }

  function AddClient(s: State, j: Join): State {
    if |s.clients| == MAXCLIENTS then
      s
    else
      s.(clients := s.clients + [Client(j.name, j.channel, false)],
         toServer := s.toServer[j.channel := Fifo([], 0)],
         toClient := s.toClient[j.channel := []])
  }

  function HandleJoin(s: State): State
    requires s.joins.HasData()
  {
    var j := s.joins.written[s.joins.taken];
    var origin := if |s.clients| == MAXCLIENTS then Refused(j.channel) else Joiner(j.channel);
    var added := AddClient(s.(joins := s.joins.(taken := s.joins.taken + 1)), j);
    Broadcast(added, origin, Mesg(JOINED, j.name, "")).(joinReady := false)
  }

  function NextMesg(s: State, c: Channel): Mesg
    requires ClientHasData(s, c)
  {
    s.toServer[c].written[s.toServer[c].taken]
  }

  function Read(s: State, c: Channel): State
    requires c in s.toServer
  {
    s.(toServer := s.toServer[c := s.toServer[c].(taken := s.toServer[c].taken + 1)])
  }

  /** The reaction to message m of the client in slot i, up to the clearing of the flag. */
  function React(s: State, i: nat, m: Mesg): State
    requires i < |s.clients|
  {
    var c := s.clients[i].channel;
    match m.kind
    case MESG => Broadcast(s, Sender(c), m)
    case DEPARTED => Broadcast(s.(clients := RemoveAt(s.clients, i)), Sender(c), m)
    case _ => s
  }

  function HandleClient(s: State, i: nat): State
    requires i < |s.clients| && ClientHasData(s, s.clients[i].channel)
  {
    var c := s.clients[i].channel;
    var done := React(Read(s, c), i, NextMesg(s, c));
    done.(clients := ClearFlag(done.clients, i))
  }

  /** Removing slot i, i + 1, ... as long as the table, which shrinks meanwhile, has such a slot. */
  function RemoveUpwards<T>(s: seq<T>, i: nat): seq<T>
    decreases |s| - i
  {
    if i < |s| then RemoveUpwards(RemoveAt(s, i), i + 1) else s
  }

  const ShutdownMesg := Mesg(SHUTDOWN, "", "")

  function Shutdown(s: State): State {
    Broadcast(s, Server, ShutdownMesg).(clients := RemoveUpwards(s.clients, 0))
  }
}
