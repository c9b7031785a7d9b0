/** The tokenizer as it is written: strtok cuts the line in place and the tokens are pointers into it. */
module TokenizerProgram {
  import opened CStrings
  import opened Tokenizer

  /** At index t of the buffer stands the C string w. */
  ghost predicate StringAt(buf: seq<char>, t: int, w: string) {
    0 <= t && t + |w| < |buf| && buf[t..t + |w|] == w && buf[t + |w|] == NUL
  }

  /** The token w stands at t, ended by a NUL before `save` or by the line's own. */
  ghost predicate TokenAt(buf: seq<char>, t: int, w: string, save: nat, len: nat) {
    StringAt(buf, t, w) && (t + |w| < save || t + |w| == save == len)
  }

  lemma NoWordsIn(s: string)
    requires forall i :: 0 <= i < |s| ==> Delimiter(s[i])
    ensures Words(s) == []
  {
  }

  lemma {:induction false} SkipDelimiters(s: string, n: nat)
    requires n <= |s| && forall i :: 0 <= i < n ==> Delimiter(s[i])
    ensures Words(s) == Words(s[n..])
    decreases n
  {
    if n > 0 {
      SkipDelimiters(s[1..], n - 1);
      assert s[1..][n - 1..] == s[n..];
    } else {
      assert s[0..] == s;
    }
  }

  lemma WordAt(s: string, n: nat)
    requires 0 < n <= |s| && (forall i :: 0 <= i < n ==> !Delimiter(s[i])) && (n < |s| ==> Delimiter(s[n]))
    ensures Words(s) == [s[..n]] + Words(s[n..])
  {
    RunIs(s, n);
  }

  /** The first word of a text that begins with it ends at e; the other words are behind the delimiter there. */
  lemma FirstWord(s: string, e: nat, next: nat)
    requires 0 < e <= |s| && next == Min(e + 1, |s|)
    requires forall i :: 0 <= i < e ==> !Delimiter(s[i])
    requires e < |s| ==> Delimiter(s[e])
    ensures Words(s) == [s[..e]] + Words(s[next..])
  {
    WordAt(s, e);
    RestAfter(s, e, next);
  }

  lemma RestAfter(s: string, e: nat, next: nat)
    requires e <= |s| && next == Min(e + 1, |s|) && (e < |s| ==> Delimiter(s[e]))
    ensures Words(s[e..]) == Words(s[next..])
  {
    if e < |s| {
      SkipDelimiters(s[e..], 1);
      assert s[e..][1..] == s[next..];
    }
  }

  /** The first index from `from` on whose character is, or is not, a delimiter; the line's NUL stops the search. */
  method Scan(buf: array<char>, from: nat, delimiters: bool, ghost len: nat) returns (a: nat)
    requires from <= len < buf.Length && buf[len] == NUL && NUL !in buf[from..len]
    ensures from <= a <= len && (a == len <==> buf[a] == NUL)
    ensures forall k :: 0 <= k < a - from ==> Delimiter(buf[from..len][k]) == delimiters
    ensures a < len ==> Delimiter(buf[from..len][a - from]) != delimiters
  {
    a := from;
    while buf[a] != NUL && Delimiter(buf[a]) == delimiters
      invariant from <= a <= len
      invariant forall k :: 0 <= k < a - from ==> Delimiter(buf[from..len][k]) == delimiters
      decreases len - a
    {
      assert buf[from..len][a - from] == buf[a];
      a := a + 1;
    }
    assert a < len ==> buf[from..len][a - from] == buf[a];
  }

  /**
   The next token at or after `from`, or -1 for NULL: delimiters are skipped, and the delimiter that ends the token
   is overwritten by NUL. The ghost len is where the line's own NUL stands.
   */
  method Strtok(buf: array<char>, from: nat, ghost len: nat) returns (tok: int, save: nat, ghost w: string)
    requires from <= len < buf.Length && buf[len] == NUL && NUL !in buf[from..len]
    modifies buf
    ensures from <= save <= len && buf[len] == NUL
    ensures buf[save..len] == old(buf[save..len])
    ensures tok == -1 ==> Words(old(buf[from..len])) == []
    ensures tok != -1 ==>
      && from <= tok && TokenAt(buf[..], tok, w, save, len)
      && Words(old(buf[from..len])) == [w] + Words(old(buf[save..len]))
    ensures forall k :: 0 <= k < from ==> buf[k] == old(buf[k])
  {
    ghost var line := buf[from..len];
    var a := Scan(buf, from, true, len);
    if buf[a] == NUL {
      forall k | 0 <= k < |line| ensures Delimiter(line[k]) {
        assert line[k] == buf[from..len][k];
      }
      NoWordsIn(line);
      return -1, a, "";
    }
    assert buf[a..len] == line[a - from..];
    assert !Delimiter(line[a - from]);
    tok := a;
    save, w := CutAt(buf, a, len);
    WordsBehind(line, a - from, w, line[save - from..]);
    assert line[save - from..] == old(buf[save..len]);
  }

  lemma WordsBehind(line: string, a: nat, w: string, rest: string)
    requires a <= |line| && forall k :: 0 <= k < a ==> Delimiter(line[k])
    requires Words(line[a..]) == [w] + Words(rest)
    ensures Words(line) == [w] + Words(rest)
  {
    SkipDelimiters(line, a);
  }

  /** The token that begins at a is ended, at e, by a NUL in place of its delimiter. */
  method EndToken(buf: array<char>, a: nat, ghost len: nat) returns (e: nat, save: nat)
    requires a < len < buf.Length && buf[len] == NUL && NUL !in buf[a..len] && !Delimiter(buf[a])
    modifies buf
    ensures a < e <= len && save == Min(e + 1, len)
    ensures buf[..] == old(buf[..])[e := NUL]
    ensures forall k :: 0 <= k < e - a ==> !Delimiter(old(buf[a..len])[k])
    ensures e < len ==> Delimiter(old(buf[a..len])[e - a])
  {
    assert buf[a..len][0] == buf[a];
    e := Scan(buf, a, false, len);
    save := e;
    if buf[e] != NUL {
      buf[e] := NUL;
      save := e + 1;
    }
  }

  method CutAt(buf: array<char>, a: nat, ghost len: nat) returns (save: nat, ghost w: string)
    requires a < len < buf.Length && buf[len] == NUL && NUL !in buf[a..len] && !Delimiter(buf[a])
    modifies buf
    ensures a < save <= len && buf[len] == NUL
    ensures TokenAt(buf[..], a, w, save, len)
    ensures buf[save..len] == old(buf[save..len])
    ensures Words(old(buf[a..len])) == [w] + Words(old(buf[save..len]))
    ensures forall k :: 0 <= k < a ==> buf[k] == old(buf[k])
  {
    ghost var all := buf[..];
    assert all[a..len] == buf[a..len];
    var e: nat;
    e, save := EndToken(buf, a, len);
    WordsFrom(all, a, e, save, len);
    w := all[a..e];
    CutIs(all, buf[..], a, e, save, len, w);
  }

  lemma WordsFrom(all: seq<char>, a: nat, e: nat, save: nat, len: nat)
    requires a < e <= len < |all| && save == Min(e + 1, len)
    requires forall k :: 0 <= k < e - a ==> !Delimiter(all[a..len][k])
    requires e < len ==> Delimiter(all[a..len][e - a])
    ensures Words(all[a..len]) == [all[a..e]] + Words(all[save..len])
  {
    var line := all[a..len];
    FirstWord(line, e - a, save - a);
    assert line[..e - a] == all[a..e] && line[save - a..] == all[save..len];
  }

  lemma CutIs(all: seq<char>, buf: seq<char>, a: nat, e: nat, save: nat, len: nat, w: string)
    requires a < e <= len < |all| && save == Min(e + 1, len) && all[len] == NUL
    requires buf == all[e := NUL] && w == all[a..e]
    ensures TokenAt(buf, a, w, save, len) && buf[len] == NUL && buf[save..len] == all[save..len]
  {
    assert buf[a..e] == all[a..e];
  }

  /** The tokens found so far lie before `save`, each ended by a NUL there or by the line's own. */
  ghost predicate Found(buf: seq<char>, tokens: seq<int>, found: seq<string>, save: nat, len: nat) {
    && |found| <= |tokens| && save <= len < |buf| && buf[len] == NUL
    && forall k :: 0 <= k < |found| ==> TokenAt(buf, tokens[k], found[k], save, len)
  }

  lemma StillFound(buf: seq<char>, after: seq<char>, tokens: seq<int>, found: seq<string>, save: nat, save': nat,
                   len: nat)
    requires Found(buf, tokens, found, save, len) && |after| == |buf| && after[len] == NUL
    requires forall k :: 0 <= k < save ==> after[k] == buf[k]
    requires save <= save' <= len
    ensures Found(after, tokens, found, save', len)
  {
    forall k | 0 <= k < |found| ensures TokenAt(after, tokens[k], found[k], save', len) {
      assert TokenAt(buf, tokens[k], found[k], save, len);
      assert after[tokens[k]..tokens[k] + |found[k]|] == buf[tokens[k]..tokens[k] + |found[k]|];
    }
  }

  lemma OneMoreFound(buf: seq<char>, tokens: seq<int>, found: seq<string>, save: nat, len: nat, tok: int, w: string)
    requires Found(buf, tokens, found, save, len) && |found| < |tokens|
    requires TokenAt(buf, tok, w, save, len)
    ensures Found(buf, tokens[|found| := tok], found + [w], save, len)
  {
  }

  /** What the next call found, when `found` are the words before it: nothing more, or w and the words from save on. */
  ghost predicate Pending(line: string, found: seq<string>, tok: int, w: string, save: nat) {
    && save <= |line|
    && Words(line) == if tok == -1 then found else found + ([w] + Words(line[save..]))
  }

  lemma NextPending(line: string, found: seq<string>, from: nat, tok: int, w: string, save: nat)
    requires from <= save <= |line| && Words(line) == found + Words(line[from..])
    requires Words(line[from..]) == if tok == -1 then [] else [w] + Words(line[save..])
    ensures Pending(line, found, tok, w, save)
  {
  }

  lemma PendingFound(line: string, found: seq<string>, tok: int, w: string, save: nat)
    requires Pending(line, found, tok, w, save) && tok != -1
    ensures Words(line) == (found + [w]) + Words(line[save..])
  {
  }

  /** The first pointers point to the words, in order. */
  ghost predicate PointTo(buf: seq<char>, tokens: seq<int>, words: seq<string>) {
    |words| <= |tokens| && forall k :: 0 <= k < |words| ==> StringAt(buf, tokens[k], words[k])
  }

  lemma FoundStays(buf: seq<char>, tokens: seq<int>, after: seq<int>, found: seq<string>, save: nat, len: nat)
    requires Found(buf, tokens, found, save, len) && |found| < |tokens| && after == tokens[|found| := -1]
    ensures PointTo(buf, after, found)
  {
    assert forall k :: 0 <= k < |found| ==> after[k] == tokens[k] && TokenAt(buf, tokens[k], found[k], save, len);
  }

  lemma AllFound(line: string, found: seq<string>, tok: int, w: string, save: nat)
    requires Pending(line, found, tok, w, save) && |found| <= ARG_MAX && (tok == -1 || |found| == ARG_MAX)
    ensures found == Tokens(line)
  {
  }

  /** One more call of strtok, after those that found the tokens so far. */
  method NextToken(buf: array<char>, from: nat, ghost len: nat, ghost tokens: seq<int>, ghost found: seq<string>,
                   ghost line: string)
    returns (tok: int, save: nat, ghost w: string)
    requires from <= len < buf.Length && buf[len] == NUL && NUL !in line && |line| == len
    requires buf[from..len] == line[from..] && Words(line) == found + Words(line[from..])
    requires Found(buf[..], tokens, found, from, len)
    modifies buf
    ensures save <= len && buf[save..len] == line[save..]
    ensures Found(buf[..], tokens, found, save, len) && Pending(line, found, tok, w, save)
    ensures tok != -1 ==> TokenAt(buf[..], tok, w, save, len)
  {
    ghost var before := buf[..];
    assert NUL !in line[from..];
    tok, save, w := Strtok(buf, from, len);
    assert before[save..len] == before[from..len][save - from..] == line[from..][save - from..] == line[save..];
    StillFound(before, buf[..], tokens, found, from, save, len);
    NextPending(line, found, from, tok, w, save);
  }

  method EndTokens(buf: array<char>, tokens: array<int>, i: nat, ghost len: nat, ghost line: string,
                   ghost found: seq<string>, ghost tok: int, ghost w: string, ghost save: nat)
    requires Found(buf[..], tokens[..], found, save, len) && Pending(line, found, tok, w, save)
    requires |found| == i <= ARG_MAX && tokens.Length == ARG_MAX + 1 && (tok == -1 || i == ARG_MAX)
    modifies tokens
    ensures tokens[i] == -1 && found == Tokens(line) && PointTo(buf[..], tokens[..], found)
  {
    ghost var was := tokens[..];
    tokens[i] := -1;
    AllFound(line, found, tok, w, save);
    FoundStays(buf[..], was, tokens[..], found, save, len);
  }

  /** tokens[i] points to the i-th word of the line, for the first ARG_MAX words, and is NULL after the last one. */
  method ParseIntoTokens(buf: array<char>, tokens: array<int>, ghost len: nat) returns (ntok: nat)
    requires len < buf.Length && buf[len] == NUL && NUL !in buf[..len] && tokens.Length == ARG_MAX + 1
    modifies buf, tokens
    ensures ntok == |Tokens(old(buf[..len]))| && tokens[ntok] == -1
    ensures PointTo(buf[..], tokens[..], Tokens(old(buf[..len])))
  {
    ghost var line := buf[..len];
    assert line[0..] == line && buf[0..len] == line;
    var i := 0;
    ghost var found: seq<string> := [];
    var tok, save, w := NextToken(buf, 0, len, tokens[..], found, line);
    while tok != -1 && i < ARG_MAX
      invariant 0 <= i <= ARG_MAX && |found| == i && 0 <= save <= len
      invariant Found(buf[..], tokens[..], found, save, len)
      invariant buf[save..len] == line[save..]
      invariant Pending(line, found, tok, w, save)
      invariant tok != -1 ==> TokenAt(buf[..], tok, w, save, len)
      decreases ARG_MAX - i
    {
      OneMoreFound(buf[..], tokens[..], found, save, len, tok, w);
      PendingFound(line, found, tok, w, save);
      tokens[i] := tok;
      found := found + [w];
      i := i + 1;
      tok, save, w := NextToken(buf, save, len, tokens[..], found, line);
    }
    EndTokens(buf, tokens, i, len, line, found, tok, w, save);
    ntok := i;
  }
}
