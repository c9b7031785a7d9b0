/** What is typed is what is sent: lines, erasures and sessions in terms of the characters on the keys. */
module Typing {
  import opened ServerModel
  import opened CStrings
  import opened LineEditor
  import opened ChatClient

  // ---- one key ----

  /** Backspace (8) and DEL (127) take the last character; any other one is added while there is room. */
  lemma OneKey(keys: seq<Key>, from: nat, end: nat)
    requires from <= end < |keys| && keys[end].Typed?
    ensures var line, after, c := EditLine(keys, from, end), EditLine(keys, from, end + 1), keys[end].c;
            && (c as int == 8 || c as int == 127 ==> after == if line == "" then "" else line[..|line| - 1])
            && (c as int != 8 && c as int != 127 ==> after == if |line| < 1023 then line + [c] else line)
  {
  }

  // ---- the characters of a line ----

  /** Each character of the line stands on a key of its own, at these places, which increase. */
  ghost predicate TypedAt(keys: seq<Key>, from: nat, end: nat, line: string, places: seq<nat>)
    requires end <= |keys|
  {
    && |places| == |line|
    && (forall i :: 0 <= i < |line| ==> from <= places[i] < end && keys[places[i]] == Typed(line[i]))
    && (forall i, j :: 0 <= i < j < |line| ==> places[i] < places[j])
  }

  lemma OneMoreTyped(keys: seq<Key>, from: nat, end: nat, line: string, places: seq<nat>, c: char)
    requires from <= end < |keys| && TypedAt(keys, from, end, line, places) && keys[end] == Typed(c)
    ensures TypedAt(keys, from, end + 1, line + [c], places + [end])
  {
  }

  lemma StillTyped(keys: seq<Key>, from: nat, end: nat, line: string, places: seq<nat>, n: nat)
    requires from <= end < |keys| && TypedAt(keys, from, end, line, places) && n <= |line|
    ensures TypedAt(keys, from, end + 1, line[..n], places[..n])
  {
  }

  /** Every character of a line was typed, in the order in which the line has them. */
  lemma {:induction false} CharactersAreTyped(keys: seq<Key>, from: nat, end: nat) returns (places: seq<nat>)
    requires from <= end <= |keys|
    ensures TypedAt(keys, from, end, EditLine(keys, from, end), places)
    decreases end - from
  {
    if from == end {
      places := [];
    } else {
      var before := CharactersAreTyped(keys, from, end - 1);
      var line, k := EditLine(keys, from, end - 1), keys[end - 1];
      if !Erases(k) && k.Typed? && |line| < MAXLINE - 1 {
        places := before + [end - 1];
        OneMoreTyped(keys, from, end - 1, line, before, k.c);
      } else {
        var n := if Erases(k) && line != "" then |line| - 1 else |line|;
        places := before[..n];
        StillTyped(keys, from, end - 1, line, before, n);
        assert EditLine(keys, from, end) == line[..n];
      }
    }
  }

  /** Characters that neither erase (8, 127) nor end a line (10, 4), and are not NUL. */
  predicate Plain(text: string) {
    forall i :: 0 <= i < |text| ==>
      var n := text[i] as int;
      n != 0 && n != 4 && n != 8 && n != 10 && n != 127
  }

  function KeysOf(text: string): (r: seq<Key>)
    ensures |r| == |text| && forall i :: 0 <= i < |r| ==> r[i] == Typed(text[i])
  {
    seq(|text|, i requires 0 <= i < |text| => Typed(text[i]))
  }

  /** Plain text makes the line of its first 1023 characters. */
  lemma {:induction false} PlainLine(keys: seq<Key>, text: string, from: nat, n: nat)
    requires from + |text| <= |keys| && n <= |text| && Plain(text)
    requires forall i :: 0 <= i < |text| ==> keys[from + i] == Typed(text[i])
    ensures EditLine(keys, from, from + n) == text[..Min(n, 1023)]
    decreases n
  {
    if n > 0 {
      PlainLine(keys, text, from, n - 1);
      assert keys[from + (n - 1)] == Typed(text[n - 1]);
      OneKey(keys, from, from + (n - 1));
    }
  }

  /** So many erasures take so many characters from the end of a line, and no more than there are. */
  lemma {:induction false} ErasuresTake(keys: seq<Key>, from: nat, mid: nat, end: nat)
    requires from <= mid <= end <= |keys|
    requires forall i :: mid <= i < end ==> keys[i] == Typed(8 as char) || keys[i] == Typed(127 as char)
    ensures var line := EditLine(keys, from, mid);
            EditLine(keys, from, end) == line[..if end - mid < |line| then |line| - (end - mid) else 0]
    decreases end
  {
    if mid < end {
      ErasuresTake(keys, from, mid, end - 1);
      OneKey(keys, from, end - 1);
    }
  }

  // ---- lines and sessions ----

  lemma {:induction false} LineEndOfMore(before: seq<Key>, keys: seq<Key>, from: nat)
    requires from <= |keys|
    ensures LineEnd(before + keys, |before| + from) == |before| + LineEnd(keys, from)
    decreases |keys| - from
  {
    if from < |keys| {
      assert (before + keys)[|before| + from] == keys[from];
      LineEndOfMore(before, keys, from + 1);
    }
  }

  lemma {:induction false} EditLineAfter(before: seq<Key>, keys: seq<Key>, from: nat, end: nat)
    requires from <= end <= |keys|
    ensures EditLine(before + keys, |before| + from, |before| + end) == EditLine(keys, from, end)
    decreases end - from
  {
    if from < end {
      assert (before + keys)[|before| + end - 1] == keys[end - 1];
      EditLineAfter(before, keys, from, end - 1);
    }
  }

  /** The two sessions begin with the same line. */
  lemma LineAfter(before: seq<Key>, keys: seq<Key>, from: nat, n: nat)
    requires from <= n < |keys| && n == LineEnd(keys, from)
    ensures LineEnd(before + keys, |before| + from) == |before| + n
    ensures (before + keys)[|before| + n] == keys[n]
    ensures EditLine(before + keys, |before| + from, |before| + n) == EditLine(keys, from, n)
  {
    LineEndOfMore(before, keys, from);
    EditLineAfter(before, keys, from, n);
  }

  /** Sessions that begin with the same line, ended by the same key, and go on alike are the same. */
  lemma SameSession(name: string, a: seq<Key>, i: nat, m: nat, b: seq<Key>, j: nat, n: nat)
    requires i <= m < |a| && m == LineEnd(a, i) && j <= n < |b| && n == LineEnd(b, j)
    requires a[m] == b[n] && EditLine(a, i, m) == EditLine(b, j, n)
    requires a[m] == Typed(NEWLINE) ==> SessionFrom(name, a, m + 1) == SessionFrom(name, b, n + 1)
    ensures SessionFrom(name, a, i) == SessionFrom(name, b, j)
  {
    SessionAt(name, a, i, m);
    SessionAt(name, b, j, n);
  }

  lemma NoLineAfter(name: string, before: seq<Key>, keys: seq<Key>, from: nat)
    requires from <= |keys| && LineEnd(keys, from) == |keys|
    ensures SessionFrom(name, before + keys, |before| + from) == SessionFrom(name, keys, from)
  {
    LineEndOfMore(before, keys, from);
  }

  lemma OneLineAfter(name: string, before: seq<Key>, keys: seq<Key>, from: nat, n: nat)
    requires from <= n < |keys| && n == LineEnd(keys, from)
    requires keys[n] == Typed(NEWLINE) ==>
      SessionFrom(name, before + keys, |before| + (n + 1)) == SessionFrom(name, keys, n + 1)
    ensures SessionFrom(name, before + keys, |before| + from) == SessionFrom(name, keys, from)
  {
    LineAfter(before, keys, from, n);
    SameSession(name, before + keys, |before| + from, |before| + n, keys, from, n);
  }

  /** A session from a place where a line begins does not depend on what was typed before. */
  lemma {:induction false} SessionAfter(name: string, before: seq<Key>, keys: seq<Key>, from: nat)
    requires from <= |keys|
    ensures SessionFrom(name, before + keys, |before| + from) == SessionFrom(name, keys, from)
    decreases |keys| - from
  {
    var n := LineEnd(keys, from);
    if n == |keys| {
      NoLineAfter(name, before, keys, from);
    } else if keys[n] != Typed(NEWLINE) {
      OneLineAfter(name, before, keys, from, n);
    } else {
      SessionAfter(name, before, keys, n + 1);
      OneLineAfter(name, before, keys, from, n);
    }
  }

  /** Keys of a line, the key that ends it, and more keys. */
  function Entered(keys: seq<Key>, end: Key, more: seq<Key>): seq<Key> {
    keys + [end] + more
  }

  /** Keys that stay on one line: all but Enter (10), EOT (4) and the end of the input. */
  predicate OneLine(keys: seq<Key>) {
    forall i :: 0 <= i < |keys| ==> keys[i].Typed? && keys[i].c as int != 10 && keys[i].c as int != 4
  }

  /** The message for a line, if there is anything in it. */
  function Says(name: string, line: string): seq<Mesg> {
    if line == "" then [] else [Mesg(MESG, name, CString(line, NUL))]
  }

  lemma EnteredKeys(keys: seq<Key>, end: Key, more: seq<Key>)
    ensures var all := Entered(keys, end, more);
            |keys| < |all| && all[|keys|] == end && forall i :: 0 <= i < |keys| ==> all[i] == keys[i]
  {
  }

  lemma EnteredLine(keys: seq<Key>, end: Key, more: seq<Key>)
    requires OneLine(keys) && EndsLine(end)
    ensures var all := Entered(keys, end, more);
            && |keys| < |all| && LineEnd(all, 0) == |keys| && all[|keys|] == end
            && EditLine(all, 0, |keys|) == EditLine(keys, 0, |keys|)
  {
    EnteredKeys(keys, end, more);
    LineEndIs(Entered(keys, end, more), 0, |keys|);
    assert Entered(keys, end, more) == keys + ([end] + more);
    EditLineOfMore(keys, [end] + more, 0, |keys|);
  }

  lemma EnterSendsLine(name: string, keys: seq<Key>, more: seq<Key>)
    requires OneLine(keys)
    ensures |keys| + 1 <= |Entered(keys, Typed('\n'), more)|
    ensures Session(name, Entered(keys, Typed('\n'), more)) ==
            Says(name, EditLine(keys, 0, |keys|)) + SessionFrom(name, Entered(keys, Typed('\n'), more), |keys| + 1)
  {
    EnteredLine(keys, Typed('\n'), more);
    SessionAt(name, Entered(keys, Typed('\n'), more), 0, |keys|);
  }

  /** Enter sends the edited line, if anything is in it; what follows is a session of its own. */
  lemma EnterSends(name: string, keys: seq<Key>, more: seq<Key>)
    requires OneLine(keys)
    ensures Session(name, Entered(keys, Typed('\n'), more)) ==
            Says(name, EditLine(keys, 0, |keys|)) + Session(name, more)
  {
    EnterSendsLine(name, keys, more);
    SessionAfter(name, keys + [Typed('\n')], more, 0);
  }

  /** EOT (4) sends the edited line and then the departure, whatever is typed after it. */
  lemma EotSendsAndLeaves(name: string, keys: seq<Key>, more: seq<Key>)
    requires OneLine(keys)
    ensures Session(name, Entered(keys, Typed(4 as char), more)) ==
            Says(name, EditLine(keys, 0, |keys|)) + [Mesg(DEPARTED, name, "")]
  {
    EnteredLine(keys, Typed(4 as char), more);
    SessionAt(name, Entered(keys, Typed(4 as char), more), 0, |keys|);
  }

  /** The end of the input drops the line and sends the departure. */
  lemma EofLeaves(name: string, keys: seq<Key>, more: seq<Key>)
    requires OneLine(keys)
    ensures Session(name, Entered(keys, Eof, more)) == [Mesg(DEPARTED, name, "")]
  {
    EnteredLine(keys, Eof, more);
    SessionAt(name, Entered(keys, Eof, more), 0, |keys|);
  }

  /** A line that is not ended sends nothing. */
  lemma OpenLineSendsNothing(name: string, keys: seq<Key>)
    requires OneLine(keys)
    ensures Session(name, keys) == []
  {
    NothingSent(name, keys, 0);
  }

  lemma PlainHasNoNul(text: string, n: nat)
    requires Plain(text) && n <= |text|
    ensures NUL !in text[..n] && OneLine(KeysOf(text))
  {
  }

  lemma SaysWithoutNul(name: string, line: string)
    requires line != "" && NUL !in line
    ensures Says(name, line) == [Mesg(MESG, name, line)]
  {
  }

  /** Plain text that is not empty is sent as it was typed, up to 1023 characters. */
  lemma TextIsSent(name: string, text: string, more: seq<Key>)
    requires Plain(text) && text != ""
    ensures Session(name, Entered(KeysOf(text), Typed('\n'), more)) ==
            [Mesg(MESG, name, text[..Min(|text|, 1023)])] + Session(name, more)
  {
    PlainHasNoNul(text, Min(|text|, 1023));
    PlainLine(KeysOf(text), text, 0, |text|);
    SaysWithoutNul(name, text[..Min(|text|, 1023)]);
    EnterSends(name, KeysOf(text), more);
  }

  // ---- whole sessions ----

  /** Lines of text, each with Enter. */
  function Lines(texts: seq<string>, more: seq<Key>): seq<Key> {
    if texts == [] then more else Entered(KeysOf(texts[0]), Typed('\n'), Lines(texts[1..], more))
  }

  function Said(name: string, texts: seq<string>): seq<Mesg>
    ensures |Said(name, texts)| == |texts|
    ensures forall i :: 0 <= i < |texts| ==> Said(name, texts)[i] == Mesg(MESG, name, texts[i])
  {
    seq(|texts|, i requires 0 <= i < |texts| => Mesg(MESG, name, texts[i]))
  }

  lemma OneMoreSaid(name: string, texts: seq<string>, more: seq<Mesg>)
    requires texts != []
    ensures Said(name, texts) + more == [Mesg(MESG, name, texts[0])] + (Said(name, texts[1..]) + more)
  {
  }

  /** Lines of 1 to 1023 plain characters are sent as they are, in order, before whatever follows them. */
  lemma {:induction false} LinesAreSent(name: string, texts: seq<string>, more: seq<Key>)
    requires forall i :: 0 <= i < |texts| ==> Plain(texts[i]) && 1 <= |texts[i]| <= 1023
    ensures Session(name, Lines(texts, more)) == Said(name, texts) + Session(name, more)
  {
    if texts != [] {
      LinesAreSent(name, texts[1..], more);
      TextIsSent(name, texts[0], Lines(texts[1..], more));
      assert texts[0][..|texts[0]|] == texts[0];
      OneMoreSaid(name, texts, Session(name, more));
    }
  }

  /**
   The user thread over lines of 1 to 1023 plain characters, each with Enter, and EOT at the end: one message for each
   line, with that text, and then the departure.
   */
  method Converse(name: string, texts: seq<string>) returns (sent: seq<Mesg>, left: bool)
    requires forall i :: 0 <= i < |texts| ==> Plain(texts[i]) && 1 <= |texts[i]| <= 1023
    ensures |sent| == |texts| + 1 && sent[|texts|] == Mesg(DEPARTED, name, "") && left
    ensures forall i :: 0 <= i < |texts| ==> sent[i] == Mesg(MESG, name, texts[i])
  {
    var simpio := new Simpio();
    var end := Entered([], Typed(4 as char), []);
    var keys := Lines(texts, end);
    LinesAreSent(name, texts, end);
    EotSendsAndLeaves(name, [], []);
    SessionShape(name, keys);
    sent, left := UserToServer(simpio, name, keys);
  }

  /** The user thread over one such line: exactly one message, with the text as its body, and then it waits. */
  method SayOne(name: string, text: string) returns (sent: seq<Mesg>, left: bool)
    requires Plain(text) && 1 <= |text| <= 1023
    ensures sent == [Mesg(MESG, name, text)] && !left
  {
    var simpio := new Simpio();
    var keys := Lines([text], []);
    LinesAreSent(name, [text], []);
    OpenLineSendsNothing(name, []);
    SessionShape(name, keys);
    sent, left := UserToServer(simpio, name, keys);
  }
}
