/** The two threads of a chat client: the one that sends what is typed, and the one that shows what arrives. */
module ChatClient {
  import opened ServerModel
  import opened LineEditor
  import opened CStrings

  /** The first key from a place on that ends a line, or the length of the stream. */
  function LineEnd(keys: seq<Key>, from: nat): (n: nat)
    requires from <= |keys|
    ensures from <= n <= |keys|
    ensures forall i :: from <= i < n ==> !EndsLine(keys[i])
    ensures n < |keys| ==> EndsLine(keys[n])
    decreases |keys| - from
  {
    if from == |keys| || EndsLine(keys[from]) then from else LineEnd(keys, from + 1)
  }

  function Departure(name: string): seq<Mesg> {
    [Mesg(DEPARTED, name, "")]
  }

  /** An empty line is not sent. */
  function SendLine(name: string, line: string, rest: seq<Mesg>): seq<Mesg> {
    if line == "" then rest else [Mesg(MESG, name, CString(line, NUL))] + rest
  }

  /** The session from a place on where a line begins. */
  function SessionFrom(name: string, keys: seq<Key>, from: nat): seq<Mesg>
    requires from <= |keys|
    decreases |keys| - from
  {
    var n := LineEnd(keys, from);
    if n == |keys| then
      []
    else if keys[n] == Eof then
      Departure(name)
    else
      SendLine(name, EditLine(keys, from, n),
               if keys[n] == Typed(EOT) then Departure(name) else SessionFrom(name, keys, n + 1))
  }

  /**
   The messages a stream of keys stands for: each line ended by Enter or EOT and not empty after editing, in order;
   EOF drops the line it interrupts; and one DEPARTED when the input ends, after which no key counts.
   */
  function Session(name: string, keys: seq<Key>): seq<Mesg> {
    SessionFrom(name, keys, 0)
  }

  predicate InputEndsFrom(keys: seq<Key>, from: nat) {
    exists i :: from <= i < |keys| && EndsInput(keys[i])
  }

  predicate InputEnds(keys: seq<Key>) {
    InputEndsFrom(keys, 0)
  }

  lemma LineEndIs(keys: seq<Key>, from: nat, n: nat)
    requires from <= n < |keys| && EndsLine(keys[n])
    requires forall i :: from <= i < n ==> !EndsLine(keys[i])
    ensures LineEnd(keys, from) == n
  {
  }

  // ---- the user thread ----

  /** Where reading keys from place n on, with `line` typed so far, stops. */
  datatype Stop = Stop(line: string, ready: bool, ended: bool, n: nat)

  function Reading(line: string, keys: seq<Key>, n: nat): Stop
    requires n <= |keys|
    decreases |keys| - n
  {
    if n == |keys| then Stop(line, false, false, n)
    else if EndsInput(keys[n]) then Stop(line, keys[n] != Eof && line != "", true, n + 1)
    else if keys[n] == Typed(NEWLINE) then
      if line == "" then Reading("", keys, n + 1) else Stop(line, true, false, n + 1)
    else Reading(Edited(line, keys[n]), keys, n + 1)
  }

  /** What a stop has sent, and what is still to come, make up the session. */
  ghost predicate Continues(name: string, keys: seq<Key>, start: nat, stop: Stop)
    requires start <= |keys|
  {
    && stop.n <= |keys|
    && SessionFrom(name, keys, start) ==
       SendLine(name, if stop.ready then stop.line else "",
                if stop.ended then Departure(name) else SessionFrom(name, keys, stop.n))
  }

  lemma EmptyLineIsSkipped(name: string, keys: seq<Key>, start: nat, n: nat)
    requires start <= n < |keys| && keys[n] == Typed(NEWLINE) && EditLine(keys, start, n) == ""
    requires forall i :: start <= i < n ==> !EndsLine(keys[i])
    requires Continues(name, keys, n + 1, Reading("", keys, n + 1))
    ensures Continues(name, keys, start, Reading("", keys, n))
  {
    LineEndIs(keys, start, n);
    SessionAt(name, keys, start, n);
  }

  lemma LineIsSent(name: string, keys: seq<Key>, start: nat, n: nat)
    requires start <= n < |keys| && EndsLine(keys[n]) && (keys[n] == Typed(NEWLINE) ==> EditLine(keys, start, n) != "")
    requires forall i :: start <= i < n ==> !EndsLine(keys[i])
    ensures Continues(name, keys, start, Reading(EditLine(keys, start, n), keys, n))
  {
    LineEndIs(keys, start, n);
    SessionAt(name, keys, start, n);
  }

  lemma OpenLineWaits(name: string, keys: seq<Key>, start: nat, line: string)
    requires start <= |keys| && forall i :: start <= i < |keys| ==> !EndsLine(keys[i])
    ensures Continues(name, keys, start, Reading(line, keys, |keys|))
  {
    NothingSent(name, keys, start);
    NothingSent(name, keys, |keys|);
  }

  lemma KeyIsEdited(name: string, keys: seq<Key>, start: nat, n: nat, line: string)
    requires start <= n < |keys| && !EndsLine(keys[n])
    requires Continues(name, keys, start, Reading(Edited(line, keys[n]), keys, n + 1))
    ensures Continues(name, keys, start, Reading(line, keys, n))
  {
  }

  lemma {:induction false} ReadingIsSession(name: string, keys: seq<Key>, start: nat, n: nat, line: string)
    requires start <= n <= |keys| && line == EditLine(keys, start, n)
    requires forall i :: start <= i < n ==> !EndsLine(keys[i])
    ensures Continues(name, keys, start, Reading(line, keys, n))
    decreases |keys| - n, 1
  {
    if n == |keys| {
      OpenLineWaits(name, keys, start, line);
    } else if EndsLine(keys[n]) {
      LineEndIsSession(name, keys, start, n);
    } else {
      ReadingIsSession(name, keys, start, n + 1, Edited(line, keys[n]));
      KeyIsEdited(name, keys, start, n, line);
    }
  }

  lemma {:induction false} LineEndIsSession(name: string, keys: seq<Key>, start: nat, n: nat)
    requires start <= n < |keys| && EndsLine(keys[n])
    requires forall i :: start <= i < n ==> !EndsLine(keys[i])
    ensures Continues(name, keys, start, Reading(EditLine(keys, start, n), keys, n))
    decreases |keys| - n, 0
  {
    if keys[n] == Typed(NEWLINE) && EditLine(keys, start, n) == "" {
      ReadingIsSession(name, keys, n + 1, n + 1, "");
      EmptyLineIsSkipped(name, keys, start, n);
    } else {
      LineIsSent(name, keys, start, n);
    }
  }

  lemma {:induction false} ReadingStops(line: string, keys: seq<Key>, n: nat)
    requires n <= |keys|
    ensures var stop := Reading(line, keys, n);
            && n <= stop.n <= |keys|
            && (forall i :: n <= i < stop.n && EndsInput(keys[i]) ==> stop.ended)
            && (stop.ended ==> n < stop.n && EndsInput(keys[stop.n - 1]))
            && (stop.ready ==> n < stop.n && stop.line != "")
            && (!stop.ready && !stop.ended ==> stop.n == |keys|)
    decreases |keys| - n
  {
    if n < |keys| && !EndsInput(keys[n]) {
      if keys[n] != Typed(NEWLINE) {
        ReadingStops(Edited(line, keys[n]), keys, n + 1);
      } else if line == "" {
        ReadingStops("", keys, n + 1);
      }
    }
  }

  /** The inner loop of the user thread: keys are read until a line is ready or the input has ended. */
  method ReadLine(simpio: Simpio, keys: seq<Key>, from: nat) returns (n: nat)
    requires simpio.Valid() && from <= |keys|
    requires simpio.Line() == "" && !simpio.lineReady && !simpio.endOfInput
    modifies simpio, simpio.buf
    ensures simpio.Valid()
    ensures Stop(simpio.Line(), simpio.lineReady, simpio.endOfInput, n) == Reading("", keys, from)
  {
    n := from;
    while n < |keys| && !simpio.lineReady && !simpio.endOfInput
      invariant simpio.Valid() && from <= n <= |keys|
      invariant Reading("", keys, from) ==
                if simpio.lineReady || simpio.endOfInput
                then Stop(simpio.Line(), simpio.lineReady, simpio.endOfInput, n)
                else Reading(simpio.Line(), keys, n)
    {
      simpio.GetChar(keys[n]);
      n := n + 1;
    }
  }

  ghost predicate InputEndedAt(keys: seq<Key>, n: nat, ended: bool)
    requires n <= |keys|
  {
    && (forall i :: 0 <= i < n && EndsInput(keys[i]) ==> ended)
    && (ended ==> n > 0 && EndsInput(keys[n - 1]))
  }

  lemma StopEndsInput(keys: seq<Key>, n: nat)
    requires n <= |keys| && InputEndedAt(keys, n, false)
    ensures var stop := Reading("", keys, n);
            && stop.n <= |keys| && InputEndedAt(keys, stop.n, stop.ended)
            && (if stop.ready || stop.ended then n < stop.n else !InputEnds(keys))
  {
    ReadingStops("", keys, n);
  }

  /** What has been sent, followed by what is still to be sent, is the session. */
  ghost predicate Sends(name: string, keys: seq<Key>, sent: seq<Mesg>, n: nat, ended: bool) {
    n <= |keys| && sent + (if ended then Departure(name) else SessionFrom(name, keys, n)) == Session(name, keys)
  }

  lemma SendsOn(name: string, keys: seq<Key>, sent: seq<Mesg>, n: nat, stop: Stop)
    requires Sends(name, keys, sent, n, false) && stop == Reading("", keys, n)
    ensures Sends(name, keys, if stop.ready then sent + [Mesg(MESG, name, CString(stop.line, NUL))] else sent,
                  stop.n, stop.ended)
  {
    ReadingIsSession(name, keys, n, n, "");
    ReadingStops("", keys, n);
    var rest := if stop.ended then Departure(name) else SessionFrom(name, keys, stop.n);
    var m := Mesg(MESG, name, CString(stop.line, NUL));
    assert sent + ([m] + rest) == sent + [m] + rest;
  }

  lemma NothingLeft(name: string, keys: seq<Key>, sent: seq<Mesg>)
    requires Sends(name, keys, sent, |keys|, false)
    ensures sent == Session(name, keys)
  {
  }

  /** The outer loop of the user thread: one message for each line that gets ready. */
  method SendLines(simpio: Simpio, name: string, keys: seq<Key>) returns (sent: seq<Mesg>, ended: bool)
    requires simpio.Valid() && !simpio.endOfInput
    modifies simpio, simpio.buf
    ensures ended == InputEnds(keys)
    ensures sent + (if ended then Departure(name) else []) == Session(name, keys)
  {
    sent := [];
    var n := 0;
    while !simpio.endOfInput
      invariant simpio.Valid() && n <= |keys| && InputEndedAt(keys, n, simpio.endOfInput)
      invariant Sends(name, keys, sent, n, simpio.endOfInput)
      decreases |keys| - n, !simpio.endOfInput
    {
      simpio.Reset();
      StopEndsInput(keys, n);
      ReadingStops("", keys, n);
      SendsOn(name, keys, sent, n, Reading("", keys, n));
      n := ReadLine(simpio, keys, n);
      if simpio.lineReady {
        sent := sent + [Mesg(MESG, name, CString(simpio.buf[..simpio.pos], NUL))];
      } else if !simpio.endOfInput {
        NothingLeft(name, keys, sent);
        return sent, false;
      }
    }
    ended := true;
  }

  /**
   The user thread: lines, then one DEPARTED. When the stream of keys runs out before the input has ended, the
   thread waits in its next read; that is where this method then returns, with `left` false.
   */
  method UserToServer(simpio: Simpio, name: string, keys: seq<Key>) returns (sent: seq<Mesg>, left: bool)
    requires simpio.Valid() && !simpio.endOfInput
    modifies simpio, simpio.buf
    ensures sent == Session(name, keys)
    ensures left == InputEnds(keys)
  {
    sent, left := SendLines(simpio, name, keys);
    sent := sent + if left then Departure(name) else [];
  }

  // ---- what a session looks like ----

  /** Lines of 1 to MAXLINE - 1 characters in order, all under the sender's name, then DEPARTED if the input ends. */
  ghost predicate Shaped(s: seq<Mesg>, name: string, ends: bool, nulFree: bool) {
    && (forall k :: 0 <= k < |s| ==> s[k].name == name && (s[k].kind == MESG || s[k] == Mesg(DEPARTED, name, "")))
    && (forall k :: 0 <= k < |s| ==> (s[k].kind == DEPARTED <==> ends && k == |s| - 1))
    && (ends ==> s != [])
    && (forall k :: 0 <= k < |s| && s[k].kind == MESG ==> |s[k].body| < MAXLINE && (nulFree ==> s[k].body != ""))
  }

  lemma SendLineShape(name: string, line: string, rest: seq<Mesg>, ends: bool, nulFree: bool)
    requires Shaped(rest, name, ends, nulFree) && |line| < MAXLINE && (nulFree ==> NUL !in line)
    ensures Shaped(SendLine(name, line, rest), name, ends, nulFree)
  {
  }

  lemma InputEndsLater(keys: seq<Key>, from: nat, n: nat)
    requires from <= n < |keys| && keys[n] == Typed(NEWLINE) && forall i :: from <= i < n ==> !EndsLine(keys[i])
    ensures InputEndsFrom(keys, from) <==> InputEndsFrom(keys, n + 1)
  {
  }

  lemma {:induction false} SessionFromShape(name: string, keys: seq<Key>, from: nat)
    requires from <= |keys|
    ensures Shaped(SessionFrom(name, keys, from), name, InputEndsFrom(keys, from), Typed(NUL) !in keys)
    decreases |keys| - from
  {
    var n := LineEnd(keys, from);
    var nulFree := Typed(NUL) !in keys;
    if n < |keys| {
      var line := EditLine(keys, from, n);
      if keys[n] == Typed(NEWLINE) {
        SessionFromShape(name, keys, n + 1);
        InputEndsLater(keys, from, n);
        SendLineShape(name, line, SessionFrom(name, keys, n + 1), InputEndsFrom(keys, from), nulFree);
      } else {
        assert EndsInput(keys[n]);
        assert Shaped(Departure(name), name, true, nulFree);
        SendLineShape(name, line, Departure(name), true, nulFree);
      }
    }
  }

  lemma SessionShape(name: string, keys: seq<Key>)
    ensures Shaped(Session(name, keys), name, InputEnds(keys), Typed(NUL) !in keys)
  {
    SessionFromShape(name, keys, 0);
  }

  lemma {:induction false} EditLineOfMore(keys: seq<Key>, more: seq<Key>, from: nat, end: nat)
    requires from <= end <= |keys|
    ensures EditLine(keys + more, from, end) == EditLine(keys, from, end)
    decreases end - from
  {
    if from < end {
      EditLineOfMore(keys, more, from, end - 1);
    }
  }

  lemma SendLinePrefix(name: string, line: string, rest: seq<Mesg>, more: seq<Mesg>)
    requires rest <= more
    ensures SendLine(name, line, rest) <= SendLine(name, line, more)
  {
  }

  /** The session unfolded at the key that ends its first line. */
  lemma SessionAt(name: string, keys: seq<Key>, from: nat, n: nat)
    requires from <= n < |keys| && n == LineEnd(keys, from)
    ensures SessionFrom(name, keys, from) ==
            if keys[n] == Eof then Departure(name)
            else SendLine(name, EditLine(keys, from, n),
                          if keys[n] == Typed(EOT) then Departure(name) else SessionFrom(name, keys, n + 1))
  {
  }

  /** What a line that has ended stands for is not changed by more keys. */
  lemma SameLine(name: string, keys: seq<Key>, more: seq<Key>, from: nat, n: nat)
    requires from <= n < |keys| && n == LineEnd(keys, from)
    ensures keys[n] != Typed(NEWLINE) ==> SessionFrom(name, keys, from) == SessionFrom(name, keys + more, from)
    ensures keys[n] == Typed(NEWLINE) ==>
      var line := EditLine(keys, from, n);
      && SessionFrom(name, keys, from) == SendLine(name, line, SessionFrom(name, keys, n + 1))
      && SessionFrom(name, keys + more, from) == SendLine(name, line, SessionFrom(name, keys + more, n + 1))
  {
    var all := keys + more;
    assert all[n] == keys[n];
    LineEndIs(all, from, n);
    EditLineOfMore(keys, more, from, n);
    SessionAt(name, keys, from, n);
    SessionAt(name, all, from, n);
  }

  lemma GrowsByLine(name: string, keys: seq<Key>, more: seq<Key>, from: nat, n: nat)
    requires from <= n < |keys| && n == LineEnd(keys, from) && keys[n] == Typed(NEWLINE)
    requires SessionFrom(name, keys, n + 1) <= SessionFrom(name, keys + more, n + 1)
    ensures SessionFrom(name, keys, from) <= SessionFrom(name, keys + more, from)
    ensures InputEndsFrom(keys, n + 1) <==> InputEndsFrom(keys, from)
    ensures SessionFrom(name, keys, n + 1) == SessionFrom(name, keys + more, n + 1) ==>
      SessionFrom(name, keys, from) == SessionFrom(name, keys + more, from)
  {
    SameLine(name, keys, more, from, n);
    InputEndsLater(keys, from, n);
    SendLinePrefix(name, EditLine(keys, from, n), SessionFrom(name, keys, n + 1),
                   SessionFrom(name, keys + more, n + 1));
  }

  lemma NothingSent(name: string, keys: seq<Key>, from: nat)
    requires from <= |keys| && forall i :: from <= i < |keys| ==> !EndsLine(keys[i])
    ensures SessionFrom(name, keys, from) == [] && !InputEndsFrom(keys, from)
  {
  }

  lemma {:induction false} SessionFromGrows(name: string, keys: seq<Key>, more: seq<Key>, from: nat)
    requires from <= |keys|
    ensures SessionFrom(name, keys, from) <= SessionFrom(name, keys + more, from)
    ensures InputEndsFrom(keys, from) ==> SessionFrom(name, keys, from) == SessionFrom(name, keys + more, from)
    decreases |keys| - from
  {
    var n := LineEnd(keys, from);
    if n < |keys| && keys[n] == Typed(NEWLINE) {
      SessionFromGrows(name, keys, more, n + 1);
      GrowsByLine(name, keys, more, from, n);
    } else if n < |keys| {
      SameLine(name, keys, more, from, n);
    } else {
      NothingSent(name, keys, from);
    }
  }

  /** What has been sent is never taken back by more typing, and keys after the end of input send nothing. */
  lemma SessionGrows(name: string, keys: seq<Key>, more: seq<Key>)
    ensures Session(name, keys) <= Session(name, keys + more)
    ensures InputEnds(keys) ==> Session(name, keys) == Session(name, keys + more)
  {
    SessionFromGrows(name, keys, more, 0);
  }

  /** A character and the key that erases it cancel out exactly while the line is not full. */
  lemma EraseUndoes(keys: seq<Key>, c: Key, erase: Key)
    requires Erases(erase) && !Erases(c) && !EndsLine(c)
    ensures var line := EditLine(keys, 0, |keys|);
            var after := EditLine(keys + [c, erase], 0, |keys| + 2);
            && (after == line <==> |line| < MAXLINE - 1)
            && (|line| == MAXLINE - 1 ==> after == line[..MAXLINE - 2])
  {
    EditLineOfMore(keys, [c, erase], 0, |keys|);
  }

  // ---- the server thread ----

  /** The line shown for one message; kinds the client does not know show nothing. */
  function Show(m: Mesg): seq<string> {
    match m.kind
    case MESG => ["[" + m.name + "] : " + m.body]
    case JOINED => ["-- " + m.name + " JOINED --"]
    case DEPARTED => ["-- " + m.name + " DEPARTED --"]
    case SHUTDOWN => ["!!! server is shutting down !!!"]
    case _ => []
  }

  function ShowAll(arrived: seq<Mesg>): seq<string> {
    if arrived == [] then [] else ShowAll(arrived[..|arrived| - 1]) + Show(arrived[|arrived| - 1])
  }

  /** The messages up to and including the first SHUTDOWN. */
  function UpToShutdown(arrived: seq<Mesg>): (r: seq<Mesg>)
    ensures r <= arrived
    ensures forall k :: 0 <= k < |r| - 1 ==> r[k].kind != SHUTDOWN
    ensures r == arrived || (r != [] && r[|r| - 1].kind == SHUTDOWN)
  {
    if arrived == [] then []
    else if arrived[0].kind == SHUTDOWN then [arrived[0]]
    else [arrived[0]] + UpToShutdown(arrived[1..])
  }

  lemma UpToShutdownIs(arrived: seq<Mesg>, n: nat)
    requires n <= |arrived| && forall k :: 0 <= k < n - 1 ==> arrived[k].kind != SHUTDOWN
    requires n == |arrived| || (n > 0 && arrived[n - 1].kind == SHUTDOWN)
    ensures UpToShutdown(arrived) == arrived[..n]
  {
    var r := UpToShutdown(arrived);
    assert r == arrived[..|r|];
  }

  ghost predicate Stops(arrived: seq<Mesg>) {
    exists k :: 0 <= k < |arrived| && arrived[k].kind == SHUTDOWN
  }

  /** The server thread shows what arrives until a SHUTDOWN does; at the end of `arrived` it waits for more. */
  method ServerToUser(arrived: seq<Mesg>) returns (shown: seq<string>, stopped: bool)
    ensures shown == ShowAll(UpToShutdown(arrived))
    ensures stopped <==> Stops(arrived)
  {
    shown := [];
    var n := 0;
    stopped := false;
    while n < |arrived| && !stopped
      invariant 0 <= n <= |arrived|
      invariant forall k :: 0 <= k < n - 1 ==> arrived[k].kind != SHUTDOWN
      invariant n > 0 ==> (stopped <==> arrived[n - 1].kind == SHUTDOWN)
      invariant n == 0 ==> !stopped
      invariant shown == ShowAll(arrived[..n])
    {
      var m := arrived[n];
      shown := shown + Show(m);
      stopped := m.kind == SHUTDOWN;
      assert arrived[..n + 1][..n] == arrived[..n];
      n := n + 1;
    }
    UpToShutdownIs(arrived, n);
    StopsAt(arrived, n, stopped);
  }

  lemma StopsAt(arrived: seq<Mesg>, n: nat, stopped: bool)
    requires n <= |arrived| && forall k :: 0 <= k < n - 1 ==> arrived[k].kind != SHUTDOWN
    requires if n == 0 then !stopped else stopped <==> arrived[n - 1].kind == SHUTDOWN
    requires n == |arrived| || stopped
    ensures stopped <==> Stops(arrived)
  {
  }
}
