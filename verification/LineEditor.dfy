/** The bounded line editor a client types into, one key at a time, in one buffer. */
module LineEditor {
  import opened CStrings

  const MAXLINE: nat := 1024
  const NEWLINE: char := '\n'
  const BACKSPACE: char := 8 as char
  const DEL: char := 127 as char
  const EOT: char := 4 as char

  /** What fgetc returns: a character, or EOF. */
  datatype Key = Eof | Typed(c: char)

  predicate EndsInput(k: Key) {
    k == Eof || k == Typed(EOT)
  }

  /** The keys that end a line: Enter, and the two that end the input. */
  predicate EndsLine(k: Key) {
    k == Typed(NEWLINE) || EndsInput(k)
  }

  predicate Erases(k: Key) {
    k == Typed(BACKSPACE) || k == Typed(DEL)
  }

  /** The line after one more key that does not end it. */
  function Edited(line: string, k: Key): string {
    if Erases(k) then
      if line == "" then "" else line[..|line| - 1]
    else if k.Typed? && |line| < MAXLINE - 1 then
      line + [k.c]
    else
      line
  }

  /** The line that the keys from one place up to another leave behind. */
  function EditLine(keys: seq<Key>, from: nat, end: nat): (line: string)
    requires from <= end <= |keys|
    ensures |line| < MAXLINE
    ensures Typed(NUL) !in keys ==> NUL !in line
    decreases end - from
  {
    if from == end then "" else Edited(EditLine(keys, from, end - 1), keys[end - 1])
  }

  class Simpio {
    const buf: array<char>
    var pos: nat
    var lineReady: bool
    var endOfInput: bool

    ghost predicate Valid()
      reads this, buf
    {
      buf.Length == MAXLINE && pos < MAXLINE && buf[pos] == NUL
    }

    ghost function Line(): string
      reads this, buf
      requires pos <= buf.Length
    {
      buf[..pos]
    }

    constructor ()
      ensures Valid() && fresh(buf)
      ensures Line() == "" && !lineReady && !endOfInput
    {
      buf := new char[MAXLINE](_ => NUL);
      pos, lineReady, endOfInput := 0, false, false;
    }

    method Reset()
      requires buf.Length == MAXLINE
      modifies this, buf
      ensures Valid()
      ensures Line() == "" && !lineReady && !endOfInput
    {
      pos := 0;
      buf[0] := NUL;
      lineReady := false;
      endOfInput := false;
    }

    /** Enter, and the end of input through EOT, complete a line that is not empty; other keys edit it. */
    method GetChar(k: Key)
      requires Valid() && !lineReady && !endOfInput
      modifies this, buf
      ensures Valid()
      ensures Line() == if EndsLine(k) then old(Line()) else Edited(old(Line()), k)
      ensures lineReady == (old(Line()) != "" && (k == Typed(NEWLINE) || k == Typed(EOT)))
      ensures endOfInput == EndsInput(k)
    {
      if k == Typed(NEWLINE) && pos > 0 {
        buf[pos] := NUL;
        lineReady := true;
      } else if (Erases(k) || k == Typed(NEWLINE)) && pos == 0 {
        // nothing to erase and nothing to send
      } else if k == Typed(EOT) && pos > 0 {
        buf[pos] := NUL;
        lineReady := true;
      } else if Erases(k) && pos > 0 {
        pos := pos - 1;
        buf[pos] := NUL;
      } else if k != Eof && k != Typed(EOT) && pos < MAXLINE - 1 {
        buf[pos] := k.c;
        pos := pos + 1;
        buf[pos] := NUL;
      }
      if k == Eof || k == Typed(EOT) {
        endOfInput := true;
      }
    }
  }
}
