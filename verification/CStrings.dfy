/** Strings in memory, as C sees them. */
module CStrings {

  const NUL: char := '\0'

  function Min(a: nat, b: nat): nat {
    if a <= b then a else b
  }

  /** What the string functions of C take from a piece of memory: what stands before the first terminator. */
  function CString<T(==)>(memory: seq<T>, nul: T): (r: seq<T>)
    ensures r <= memory && nul !in r
    ensures |r| < |memory| ==> memory[|r|] == nul
    ensures nul !in memory ==> r == memory
  {
    if memory == [] || memory[0] == nul then [] else [memory[0]] + CString(memory[1..], nul)
  }

  lemma CStringIs<T>(memory: seq<T>, nul: T, n: nat)
    requires n <= |memory| && nul !in memory[..n] && (n < |memory| ==> memory[n] == nul)
    ensures CString(memory, nul) == memory[..n]
  {
    var r := CString(memory, nul);
    assert forall k :: 0 <= k < n ==> memory[..n][k] == memory[k];
    assert forall k :: 0 <= k < |r| ==> r[k] == memory[k];
  }

  /** What lies behind a terminator does not matter. */
  lemma CStringOfPart<T>(memory: seq<T>, nul: T, part: seq<T>)
    requires part + [nul] <= memory
    ensures CString(memory, nul) == CString(part, nul)
  {
    var r := CString(part, nul);
    assert (part + [nul])[..|r|] == r && (part + [nul])[|r|] == nul;
    assert memory[..|r|] == r;
    CStringIs(memory, nul, |r|);
  }
}
