/** Cutting a command line into tokens in place, and the command column that `list` prints. */
module Tokenizer {
  import opened CStrings

  const ARG_MAX: nat := 255

  predicate Delimiter(c: char) {
    c == ' ' || c == '\n'
  }

  // ---- words ----

  /** The length of the run free of delimiters that a text begins with. */
  function Run(s: string): (n: nat)
    ensures n <= |s|
    ensures forall i :: 0 <= i < n ==> !Delimiter(s[i])
    ensures n < |s| ==> Delimiter(s[n])
  {
    if s == "" || Delimiter(s[0]) then 0 else 1 + Run(s[1..])
  }

  /** The words of a text, in order. */
  function Words(s: string): seq<string>
    decreases |s|
  {
    if s == "" then []
    else if Delimiter(s[0]) then Words(s[1..])
    else [s[..Run(s)]] + Words(s[Run(s)..])
  }

  /** The tokens of a line: its first ARG_MAX words. */
  function Tokens(s: string): seq<string> {
    Words(s)[..Min(ARG_MAX, |Words(s)|)]
  }

  lemma RunIs(s: string, n: nat)
    requires n <= |s| && (forall i :: 0 <= i < n ==> !Delimiter(s[i])) && (n < |s| ==> Delimiter(s[n]))
    ensures Run(s) == n
  {
  }

  /** Where word w stands in s: a maximal run free of delimiters. */
  ghost predicate MaximalRun(s: string, start: nat, w: string) {
    && w != ""
    && start + |w| <= |s| && s[start..start + |w|] == w
    && (forall i :: 0 <= i < |w| ==> !Delimiter(w[i]))
    && (start == 0 || Delimiter(s[start - 1]))
    && (start + |w| == |s| || Delimiter(s[start + |w|]))
  }

  ghost predicate Covers(starts: seq<nat>, words: seq<string>, i: nat) {
    |starts| == |words| && exists k :: 0 <= k < |starts| && starts[k] <= i < starts[k] + |words[k]|
  }

  /** The words stand at these places, in order, and together cover every character that is no delimiter. */
  ghost predicate WordsAt(s: string, starts: seq<nat>, words: seq<string>) {
    && |starts| == |words|
    && (forall k :: 0 <= k < |starts| ==> MaximalRun(s, starts[k], words[k]))
    && (forall j, k :: 0 <= j < k < |starts| ==> starts[j] + |words[j]| < starts[k])
    && (forall i :: 0 <= i < |s| && !Delimiter(s[i]) ==> Covers(starts, words, i))
  }

  function Shift(starts: seq<nat>, n: nat): (r: seq<nat>)
    ensures |r| == |starts| && forall k :: 0 <= k < |r| ==> r[k] == starts[k] + n
  {
    seq(|starts|, k requires 0 <= k < |starts| => starts[k] + n)
  }

  lemma ShiftRun(s: string, n: nat, start: nat, w: string)
    requires n <= |s| && MaximalRun(s[n..], start, w)
    requires (n > 0 && Delimiter(s[n - 1])) || (n < |s| && Delimiter(s[n]))
    ensures MaximalRun(s, start + n, w)
    ensures n < |s| && Delimiter(s[n]) ==> start > 0
  {
    assert s[n..][start..start + |w|][0] == s[n + start];
    assert s[start + n..start + n + |w|] == s[n..][start..start + |w|];
  }

  lemma ShiftCovers(starts: seq<nat>, words: seq<string>, n: nat, i: nat)
    requires Covers(starts, words, i)
    ensures Covers(Shift(starts, n), words, i + n)
  {
    var k :| 0 <= k < |starts| && starts[k] <= i < starts[k] + |words[k]|;
    assert Shift(starts, n)[k] <= i + n;
  }

  lemma AfterDelimiter(s: string, rest: seq<nat>, words: seq<string>)
    requires s != "" && Delimiter(s[0]) && WordsAt(s[1..], rest, words)
    ensures WordsAt(s, Shift(rest, 1), words)
  {
    var starts := Shift(rest, 1);
    forall k | 0 <= k < |starts| ensures MaximalRun(s, starts[k], words[k]) {
      ShiftRun(s, 1, rest[k], words[k]);
    }
    forall i | 0 <= i < |s| && !Delimiter(s[i]) ensures Covers(starts, words, i) {
      assert !Delimiter(s[1..][i - 1]);
      ShiftCovers(rest, words, 1, i - 1);
    }
  }

  /** A word at place 0, of n characters, before others that are moved by n. */
  ghost predicate Prepended(starts: seq<nat>, all: seq<string>, n: nat, w: string, rest: seq<nat>, words: seq<string>) {
    && |rest| == |words| && |starts| == |all| == |rest| + 1
    && starts[0] == 0 && all[0] == w && |w| == n
    && forall k :: 0 < k < |starts| ==> starts[k] == rest[k - 1] + n && all[k] == words[k - 1]
  }

  lemma RunAfterWord(s: string, n: nat, start: nat, w: string)
    requires n == Run(s) && MaximalRun(s[n..], start, w)
    ensures MaximalRun(s, start + n, w) && start > 0
  {
    ShiftRun(s, n, start, w);
  }

  lemma RunInRest(s: string, rest: seq<nat>, words: seq<string>, k: nat)
    requires WordsAt(s, rest, words) && k < |rest|
    ensures MaximalRun(s, rest[k], words[k])
  {
  }

  lemma WordCovers(s: string, n: nat, rest: seq<nat>, words: seq<string>, starts: seq<nat>, all: seq<string>, i: nat)
    requires n == Run(s) && Prepended(starts, all, n, s[..n], rest, words)
    requires i < n || Covers(rest, words, i - n)
    ensures Covers(starts, all, i)
  {
    if i < n {
      assert starts[0] <= i < starts[0] + |all[0]|;
    } else {
      var k :| 0 <= k < |rest| && rest[k] <= i - n < rest[k] + |words[k]|;
      var m := k + 1;
      assert starts[m] == rest[m - 1] + n && all[m] == words[m - 1];
    }
  }

  lemma RunAtStart(s: string)
    requires Run(s) > 0
    ensures MaximalRun(s, 0, s[..Run(s)])
  {
  }

  lemma LaterRun(s: string, n: nat, rest: seq<nat>, words: seq<string>, k: nat)
    requires n == Run(s) > 0 && WordsAt(s[n..], rest, words) && k < |rest|
    ensures MaximalRun(s, rest[k] + n, words[k]) && n < rest[k] + n
  {
    RunInRest(s[n..], rest, words, k);
    RunAfterWord(s, n, rest[k], words[k]);
  }

  lemma RunsAfterWord(s: string, n: nat, rest: seq<nat>, words: seq<string>, starts: seq<nat>, all: seq<string>,
                      k: nat)
    requires n == Run(s) > 0 && WordsAt(s[n..], rest, words)
    requires Prepended(starts, all, n, s[..n], rest, words) && k < |starts|
    ensures MaximalRun(s, starts[k], all[k]) && (k > 0 ==> n < starts[k])
  {
    if k == 0 {
      RunAtStart(s);
    } else {
      LaterRun(s, n, rest, words, k - 1);
    }
  }

  lemma AfterWord(s: string, n: nat, rest: seq<nat>, words: seq<string>, starts: seq<nat>, all: seq<string>)
    requires n == Run(s) > 0 && WordsAt(s[n..], rest, words)
    requires Prepended(starts, all, n, s[..n], rest, words)
    ensures WordsAt(s, starts, all)
  {
    forall k | 0 <= k < |starts| ensures MaximalRun(s, starts[k], all[k]) {
      RunsAfterWord(s, n, rest, words, starts, all, k);
    }
    forall j, k | 0 <= j < k < |starts| ensures starts[j] + |all[j]| < starts[k] {
      RunsAfterWord(s, n, rest, words, starts, all, k);
      assert j > 0 ==> rest[j - 1] + |words[j - 1]| < rest[k - 1];
    }
    forall i | 0 <= i < |s| && !Delimiter(s[i]) ensures Covers(starts, all, i) {
      assert i >= n ==> !Delimiter(s[n..][i - n]);
      WordCovers(s, n, rest, words, starts, all, i);
    }
  }

  /** The words of any text are exactly its maximal runs free of delimiters. */
  lemma {:induction false} WordsAreMaximalRuns(s: string) returns (starts: seq<nat>)
    ensures WordsAt(s, starts, Words(s))
    decreases |s|
  {
    if s == "" {
      starts := [];
    } else if Delimiter(s[0]) {
      var rest := WordsAreMaximalRuns(s[1..]);
      AfterDelimiter(s, rest, Words(s[1..]));
      starts := Shift(rest, 1);
    } else {
      var n := Run(s);
      var rest := WordsAreMaximalRuns(s[n..]);
      starts := [0] + Shift(rest, n);
      AfterWord(s, n, rest, Words(s[n..]), starts, Words(s));
    }
  }

  /** A token and where it stands: without space or newline, and between two of them or the ends of the line. */
  ghost predicate TokenOf(s: string, start: nat, w: string) {
    && w != "" && ' ' !in w && '\n' !in w
    && start + |w| <= |s| && s[start..start + |w|] == w
    && (start > 0 ==> s[start - 1] == ' ' || s[start - 1] == '\n')
    && (start + |w| < |s| ==> s[start + |w|] == ' ' || s[start + |w|] == '\n')
  }

  lemma RunIsToken(s: string, start: nat, w: string)
    requires MaximalRun(s, start, w)
    ensures TokenOf(s, start, w)
  {
  }

  /**
   The tokens of any line are its maximal runs free of space and newline, from left to right, up to 255 of them: only
   behind the 255th can there be a character of either kind that is in none.
   */
  lemma TokensAreFirstRuns(s: string) returns (starts: seq<nat>)
    ensures var tokens := Tokens(s);
            && |starts| == |tokens| <= 255
            && (forall k :: 0 <= k < |tokens| ==> TokenOf(s, starts[k], tokens[k]))
            && (forall j, k :: 0 <= j < k < |tokens| ==> starts[j] + |tokens[j]| < starts[k])
            && (forall i :: 0 <= i < |s| && s[i] != ' ' && s[i] != '\n' ==>
                  || Covers(starts, tokens, i)
                  || (|tokens| == 255 && starts[254] + |tokens[254]| < i))
  {
    var all := WordsAreMaximalRuns(s);
    var words, tokens := Words(s), Tokens(s);
    starts := all[..|tokens|];
    forall k | 0 <= k < |tokens| ensures TokenOf(s, starts[k], tokens[k]) {
      RunIsToken(s, all[k], words[k]);
    }
    forall i | 0 <= i < |s| && s[i] != ' ' && s[i] != '\n'
      ensures Covers(starts, tokens, i) || (|tokens| == 255 && starts[254] + |tokens[254]| < i)
    {
      assert Covers(all, words, i);
      var k :| 0 <= k < |all| && all[k] <= i < all[k] + |words[k]|;
      if k < |tokens| {
        assert starts[k] <= i < starts[k] + |tokens[k]|;
      }
    }
  }

  // ---- printing and parsing back ----

  predicate IsWord(w: string) {
    w != "" && forall i :: 0 <= i < |w| ==> !Delimiter(w[i])
  }

  /** The command column of `list`: every argument followed by a space. */
  function CommandColumn(argv: seq<string>): string {
    if argv == [] then "" else argv[0] + " " + CommandColumn(argv[1..])
  }

  /** One argument more is printed as itself and one space. */
  lemma {:induction false} ColumnOfAppend(argv: seq<string>, w: string)
    ensures CommandColumn(argv + [w]) == CommandColumn(argv) + w + " "
  {
    if argv == [] {
      assert [w][1..] == [] && [] + [w] == [w];
    } else {
      assert (argv + [w])[1..] == argv[1..] + [w];
      ColumnOfAppend(argv[1..], w);
    }
  }

  lemma {:induction false} PrintThenParse(argv: seq<string>)
    requires forall k :: 0 <= k < |argv| ==> IsWord(argv[k])
    ensures Words(CommandColumn(argv) + "\n") == argv
  {
    var line := CommandColumn(argv) + "\n";
    if argv == [] {
      assert line == "\n" && line[1..] == "";
    } else {
      var w, rest := argv[0], CommandColumn(argv[1..]) + "\n";
      assert line == w + (" " + rest);
      RunIs(line, |w|);
      assert line[..|w|] == w && line[|w|..] == " " + rest;
      assert (" " + rest)[1..] == rest;
      PrintThenParse(argv[1..]);
    }
  }

  lemma {:induction false} WordsAreWords(s: string)
    ensures forall k :: 0 <= k < |Words(s)| ==> IsWord(Words(s)[k])
    decreases |s|
  {
    if s != "" {
      WordsAreWords(if Delimiter(s[0]) then s[1..] else s[Run(s)..]);
    }
  }

  lemma {:induction false} WordsLack(s: string, c: char)
    requires c !in s
    ensures forall k :: 0 <= k < |Words(s)| ==> c !in Words(s)[k]
    decreases |s|
  {
    if s != "" {
      WordsLack(if Delimiter(s[0]) then s[1..] else s[Run(s)..], c);
    }
  }
}
