/** What the log of all broadcasts says about each client, independently of the server's tables and FIFOs. */
module BroadcastLog {
  import opened ServerModel

  datatype Mark = JoinOf(channel: Channel) | DepartureOf(channel: Channel)

  predicate Hits(mark: Mark, e: Entry) {
    match mark
    case JoinOf(c) => e.origin == Joiner(c)
    case DepartureOf(c) => e.origin == Sender(c) && e.mesg.kind == DEPARTED
  }

  /** The position of the first entry that hits the mark, or the length of the log. */
  function First(log: seq<Entry>, mark: Mark): (k: nat)
    ensures k <= |log|
    ensures forall i :: 0 <= i < k ==> !Hits(mark, log[i])
    ensures k < |log| ==> Hits(mark, log[k])
  {
    if log == [] || Hits(mark, log[0]) then 0 else 1 + First(log[1..], mark)
  }

  predicate Joined(log: seq<Entry>, c: Channel) {
    First(log, JoinOf(c)) < |log|
  }

  predicate Departed(log: seq<Entry>, c: Channel) {
    First(log, DepartureOf(c)) < |log|
  }

  function Mesgs(entries: seq<Entry>): (r: seq<Mesg>)
  {
    seq(|entries|, i requires 0 <= i < |entries| => entries[i].mesg)
  }

  /** The slice of the log from the client's own JOINED up to, and not including, its own DEPARTED. */
  function Received(log: seq<Entry>, c: Channel): seq<Mesg> {
    var from := First(log, JoinOf(c));
    var to := First(log, DepartureOf(c));
    if from <= to then Mesgs(log[from..to]) else []
  }

  /** The messages of one sender that the server has passed on, in log order. */
  function Relayed(log: seq<Entry>, c: Channel): seq<Mesg> {
    if log == [] then
      []
    else
      var e := log[|log| - 1];
      Relayed(log[..|log| - 1], c) + if e.origin == Sender(c) then [e.mesg] else []
  }

  function Without(members: seq<Join>, c: Channel): seq<Join> {
    if members == [] then
      []
    else
      (if members[0].channel == c then [] else [members[0]]) + Without(members[1..], c)
  }

  function After(members: seq<Join>, e: Entry): seq<Join> {
    match e.origin
    case Joiner(c) => members + [Join(e.mesg.name, c)]
    case Sender(c) => if e.mesg.kind == DEPARTED then Without(members, c) else members
    case _ => members
  }

  /** Who is in the chat after the log, in join order. */
  function Members(log: seq<Entry>): seq<Join> {
    if log == [] then [] else After(Members(log[..|log| - 1]), log[|log| - 1])
  }

  lemma FirstOfAppend(log: seq<Entry>, e: Entry, mark: Mark)
    ensures First(log + [e], mark) ==
            if First(log, mark) < |log| then First(log, mark)
            else if Hits(mark, e) then |log| else |log| + 1
  {
    var more := log + [e];
    var k := First(log, mark);
    assert forall i :: 0 <= i < |log| ==> more[i] == log[i];
    assert more[|log|] == e;
    if k < |log| {
      assert Hits(mark, more[k]);
    }
  }

  lemma RelayedOfAppend(log: seq<Entry>, e: Entry, c: Channel)
    ensures Relayed(log + [e], c) == Relayed(log, c) + if e.origin == Sender(c) then [e.mesg] else []
  {
    assert (log + [e])[..|log|] == log;
  }

  lemma MembersOfAppend(log: seq<Entry>, e: Entry)
    ensures Members(log + [e]) == After(Members(log), e)
  {
    assert (log + [e])[..|log|] == log;
  }

  /** One more broadcast reaches exactly the clients that are in the chat once it is logged. */
  lemma ReceivedOfAppend(log: seq<Entry>, e: Entry, c: Channel)
    requires Departed(log, c) ==> Joined(log, c)
    requires Hits(DepartureOf(c), e) ==> Joined(log, c)
    ensures Received(log + [e], c) ==
            if Joined(log + [e], c) && !Departed(log + [e], c) then Received(log, c) + [e.mesg] else Received(log, c)
  {
    FirstOfAppend(log, e, JoinOf(c));
    FirstOfAppend(log, e, DepartureOf(c));
    var from, to := First(log, JoinOf(c)), First(log, DepartureOf(c));
    var more := log + [e];
    if Departed(log, c) {
      assert from <= to ==> more[from..to] == log[from..to];
    } else if Hits(DepartureOf(c), e) {
      assert more[from..|log|] == log[from..|log|];
    } else if Joined(log, c) {
      assert more[from..|more|] == log[from..|log|] + [e];
    } else if Hits(JoinOf(c), e) {
      assert more[|log|..|more|] == [e];
      assert log[from..to] == [];
    } else {
      assert more[|more|..|more|] == [];
    }
  }

  lemma {:induction false} RelayedHasDeparted(log: seq<Entry>, c: Channel)
    requires Departed(log, c)
    ensures exists k :: 0 <= k < |Relayed(log, c)| && Relayed(log, c)[k].kind == DEPARTED
  {
    var shorter, e := log[..|log| - 1], log[|log| - 1];
    assert log == shorter + [e];
    FirstOfAppend(shorter, e, DepartureOf(c));
    RelayedOfAppend(shorter, e, c);
    if Departed(shorter, c) {
      RelayedHasDeparted(shorter, c);
      var k :| 0 <= k < |Relayed(shorter, c)| && Relayed(shorter, c)[k].kind == DEPARTED;
      assert Relayed(log, c)[k].kind == DEPARTED;
    } else {
      assert Relayed(log, c)[|Relayed(shorter, c)|].kind == DEPARTED;
    }
  }

  lemma {:induction false} NothingRelayed(log: seq<Entry>, c: Channel)
    requires forall k :: 0 <= k < |log| ==> log[k].origin != Sender(c)
    ensures Relayed(log, c) == []
  {
    if log != [] {
      NothingRelayed(log[..|log| - 1], c);
    }
  }

  lemma {:induction false} WithoutAbsent(members: seq<Join>, c: Channel)
    requires forall k :: 0 <= k < |members| ==> members[k].channel != c
    ensures Without(members, c) == members
  {
    if members != [] {
      WithoutAbsent(members[1..], c);
    }
  }

  lemma {:induction false} WithoutIsRemoveAt(members: seq<Join>, i: nat)
    requires i < |members|
    requires forall j, k :: 0 <= j < k < |members| ==> members[j].channel != members[k].channel
    ensures Without(members, members[i].channel) == RemoveAt(members, i)
  {
    if i == 0 {
      WithoutAbsent(members[1..], members[0].channel);
    } else {
      WithoutIsRemoveAt(members[1..], i - 1);
      assert RemoveAt(members, i) == [members[0]] + RemoveAt(members[1..], i - 1);
    }
  }
}
