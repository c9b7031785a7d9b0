/** Reading all of a finished child's output into one buffer that doubles as it fills. */
module PipeReader {
  import opened CStrings

  type Byte = b: int | 0 <= b < 256

  const BUFSIZE: nat := 1024

  // ---- what the buffer holds in the end ----

  /**
   What strcat makes of the bytes held and a block, both ended by a NUL, in memory that has just been enlarged: the
   block goes to the first NUL, at z, which need not be where the bytes held end, and its own first NUL behind it.
   Nothing is known of enlarged memory before it is written to; here it is a function of the place in the buffer.
   */
  function Joined(held: seq<Byte>, block: seq<Byte>, memory: nat -> Byte): (r: seq<Byte>)
    ensures |r| == |held| + |block|
  {
    var z, m := |CString(held, 0)|, |CString(block, 0)|;
    seq(|held| + |block|, k requires 0 <= k < |held| + |block| =>
      if k < z then held[k]
      else if k < z + m then block[k - z]
      else if k == z + m || k == |held| then 0
      else if k < |held| then held[k]
      else memory(k))
  }

  /** The block that is read next is as long as all that is held, or what is left. */
  function BlockEnd(stream: seq<Byte>, n: nat): (end: nat)
    requires 0 < n < |stream|
    ensures n < end <= |stream|
  {
    Min(2 * n, |stream|)
  }

  function HeldFrom(held: seq<Byte>, stream: seq<Byte>, memory: nat -> Byte): (r: seq<Byte>)
    requires 0 < |held| <= |stream|
    ensures |r| == |stream|
    decreases |stream| - |held|
  {
    if |held| == |stream| then
      held
    else
      HeldFrom(Joined(held, stream[|held|..BlockEnd(stream, |held|)], memory), stream, memory)
  }

  /** The bytes kept of a stream. The first BUFSIZE bytes are read into place; only later blocks are joined. */
  function Held(stream: seq<Byte>, memory: nat -> Byte): (r: seq<Byte>)
    ensures |r| == |stream|
  {
    if |stream| <= BUFSIZE then stream else HeldFrom(stream[..BUFSIZE], stream, memory)
  }

  // ---- when the bytes kept are the stream ----

  /** The block behind the first n bytes comes out right if they did. */
  predicate Joins(stream: seq<Byte>, n: nat)
    requires 0 < n < |stream|
  {
    var end := BlockEnd(stream, n);
    0 !in stream[..end - 1] || (end == n + 1 && stream[n] == 0)
  }

  lemma JoinKeeps(stream: seq<Byte>, n: nat, memory: nat -> Byte)
    requires 0 < n < |stream| && Joins(stream, n)
    ensures Joined(stream[..n], stream[n..BlockEnd(stream, n)], memory) == stream[..BlockEnd(stream, n)]
  {
    var end := BlockEnd(stream, n);
    if 0 !in stream[..end - 1] {
      JoinKeepsText(stream, n, end, memory);
    } else {
      JoinKeepsNul(stream, n, memory);
    }
  }

  lemma JoinKeepsText(stream: seq<Byte>, n: nat, end: nat, memory: nat -> Byte)
    requires 0 < n < end <= |stream| && 0 !in stream[..end - 1]
    ensures Joined(stream[..n], stream[n..end], memory) == stream[..end]
  {
    var held, block := stream[..n], stream[n..end];
    forall k | 0 <= k < end - 1 ensures stream[k] != 0 {
      assert stream[k] == stream[..end - 1][k];
    }
    CStringIs(held, 0, n);
    CStringIs(block, 0, if stream[end - 1] == 0 then |block| - 1 else |block|);
    forall k | 0 <= k < end ensures Joined(held, block, memory)[k] == stream[k] {
      assert k < n ==> stream[k] == held[k];
      assert k >= n ==> stream[k] == block[k - n];
    }
  }

  lemma JoinKeepsNul(stream: seq<Byte>, n: nat, memory: nat -> Byte)
    requires n < |stream| && stream[n] == 0
    ensures Joined(stream[..n], stream[n..n + 1], memory) == stream[..n + 1]
  {
    var held, block := stream[..n], stream[n..n + 1];
    CStringIs(block, 0, 0);
    assert forall k :: 0 <= k < n + 1 ==> Joined(held, block, memory)[k] == stream[k];
  }

  /** Memory that differs from the stream everywhere. */
  function Unlike(stream: seq<Byte>): (memory: nat -> Byte)
    ensures forall k :: 0 <= k < |stream| ==> memory(k) != stream[k]
  {
    (k: nat) => if k < |stream| && stream[k] == 1 then 2 else 1
  }

  /** In such memory, what has once come out wrong is not put right by a later block. */
  lemma JoinLoses(stream: seq<Byte>, held: seq<Byte>)
    requires 0 < |held| < |stream|
    requires var end := BlockEnd(stream, |held|);
             Joined(held, stream[|held|..end], Unlike(stream)) == stream[..end]
    ensures held == stream[..|held|] && Joins(stream, |held|)
  {
    var n := |held|;
    var end := BlockEnd(stream, n);
    var block := stream[n..end];
    var z, m := |CString(held, 0)|, |CString(block, 0)|;
    var r := Joined(held, block, Unlike(stream));
    assert forall k :: 0 <= k < end ==> r[k] == stream[k];
    assert r[end - 1] == stream[end - 1];
    Compare(stream, held, block, z, m);
  }

  /** The cases: nothing is overwritten, or the block is a single NUL behind bytes that hold one already. */
  lemma Compare(stream: seq<Byte>, held: seq<Byte>, block: seq<Byte>, z: nat, m: nat)
    requires 0 < |held| < |stream| && block == stream[|held|..BlockEnd(stream, |held|)]
    requires z <= |held| && 0 !in held[..z] && (z < |held| ==> held[z] == 0)
    requires m <= |block| && 0 !in block[..m] && (m < |block| ==> block[m] == 0)
    requires forall k :: 0 <= k < z || z + m < k < |held| ==> stream[k] == held[k]
    requires forall k :: 0 <= k < m ==> stream[z + k] == block[k]
    requires z + m < |held| + |block| ==> stream[z + m] == 0
    requires z + m < |held| ==> stream[|held|] == 0
    requires |held| + |block| <= z + m + 1 || |block| == 1
    ensures held == stream[..|held|] && Joins(stream, |held|)
  {
  }

  predicate AllJoin(stream: seq<Byte>, n: nat)
    requires 0 < n <= |stream|
    decreases |stream| - n
  {
    n == |stream| || (Joins(stream, n) && AllJoin(stream, BlockEnd(stream, n)))
  }

  lemma {:induction false} AllJoinKeeps(stream: seq<Byte>, n: nat, memory: nat -> Byte)
    requires 0 < n <= |stream| && AllJoin(stream, n)
    ensures HeldFrom(stream[..n], stream, memory) == stream
    decreases |stream| - n
  {
    if n < |stream| {
      JoinKeeps(stream, n, memory);
      AllJoinKeeps(stream, BlockEnd(stream, n), memory);
    }
  }

  lemma {:induction false} HeldNeedsAll(stream: seq<Byte>, held: seq<Byte>)
    requires 0 < |held| <= |stream| && HeldFrom(held, stream, Unlike(stream)) == stream
    ensures held == stream[..|held|] && AllJoin(stream, |held|)
    decreases |stream| - |held|
  {
    if |held| < |stream| {
      HeldNeedsAll(stream, Joined(held, stream[|held|..BlockEnd(stream, |held|)], Unlike(stream)));
      JoinLoses(stream, held);
    }
  }

  function Doubled(n: nat, times: nat): (r: nat)
    ensures r >= if times == 0 then n else 2 * n
    decreases times
  {
    if times == 0 then n else Doubled(2 * n, times - 1)
  }

  /** The last byte is a NUL and has a block to itself, and there is at most the byte before it to be lost. */
  ghost predicate LoneNul(stream: seq<Byte>, n: nat)
    requires 0 < n < |stream|
  {
    var last := |stream| - 1;
    && stream[last] == 0
    && exists k: nat :: last == Doubled(n, k) && (k == 0 || 0 !in stream[..last - 1])
  }

  /** Either the stream fits the first read, or it has no NUL but for its last byte, or its last byte is a lone NUL. */
  ghost predicate Whole(stream: seq<Byte>) {
    || |stream| <= BUFSIZE
    || 0 !in stream[..|stream| - 1]
    || LoneNul(stream, BUFSIZE)
  }

  lemma NoNulBefore(stream: seq<Byte>, m: nat, n: nat)
    requires m <= n <= |stream| && 0 !in stream[..n]
    ensures 0 !in stream[..m]
  {
    assert forall k :: 0 <= k < m ==> stream[..m][k] == stream[..n][k];
  }

  lemma OneBlockLeft(stream: seq<Byte>, n: nat)
    requires 1 < n < |stream| <= 2 * n
    ensures Joins(stream, n) <==> 0 !in stream[..|stream| - 1] || LoneNul(stream, n)
  {
    assert Doubled(n, 0) == n;
  }

  lemma LoneNulLater(stream: seq<Byte>, n: nat)
    requires 1 < n && 2 * n < |stream|
    ensures LoneNul(stream, n) <==> LoneNul(stream, 2 * n) && 0 !in stream[..2 * n - 1]
  {
    var last := |stream| - 1;
    if LoneNul(stream, n) {
      var k: nat :| last == Doubled(n, k) && (k == 0 || 0 !in stream[..last - 1]);
      assert k > 0 && last == Doubled(2 * n, k - 1);
      NoNulBefore(stream, 2 * n - 1, last - 1);
    }
    if LoneNul(stream, 2 * n) && 0 !in stream[..2 * n - 1] {
      var k: nat :| last == Doubled(2 * n, k) && (k == 0 || 0 !in stream[..last - 1]);
      assert last == Doubled(n, k + 1);
    }
  }

  lemma {:induction false} AllJoinIff(stream: seq<Byte>, n: nat)
    requires 1 < n < |stream|
    ensures AllJoin(stream, n) <==> 0 !in stream[..|stream| - 1] || LoneNul(stream, n)
    decreases |stream| - n
  {
    var last := |stream| - 1;
    if 2 * n < |stream| {
      AllJoinIff(stream, 2 * n);
      LoneNulLater(stream, n);
      if 0 !in stream[..last] {
        NoNulBefore(stream, 2 * n - 1, last);
      }
    } else {
      OneBlockLeft(stream, n);
    }
  }

  /** Whatever memory held before, the bytes kept are the stream: exactly then. */
  lemma HeldIsStreamIff(stream: seq<Byte>)
    ensures (forall memory: nat -> Byte :: Held(stream, memory) == stream) <==> Whole(stream)
  {
    if |stream| > BUFSIZE {
      AllJoinIff(stream, BUFSIZE);
      if Whole(stream) {
        forall memory: nat -> Byte ensures Held(stream, memory) == stream {
          AllJoinKeeps(stream, BUFSIZE, memory);
        }
      } else if Held(stream, Unlike(stream)) == stream {
        HeldNeedsAll(stream, stream[..BUFSIZE]);
      }
    }
  }

  lemma TwoReads(stream: seq<Byte>, memory: nat -> Byte)
    requires BUFSIZE < |stream| <= 2 * BUFSIZE
    ensures Held(stream, memory) == Joined(stream[..BUFSIZE], stream[BUFSIZE..], memory)
  {
    var held := stream[..BUFSIZE];
    assert |held| == BUFSIZE && stream[BUFSIZE..BlockEnd(stream, BUFSIZE)] == stream[BUFSIZE..];
    assert HeldFrom(held, stream, memory) == HeldFrom(Joined(held, stream[BUFSIZE..], memory), stream, memory);
  }

  /** A NUL at the front and two bytes beyond the first read: those two are written over the front. */
  lemma NulLosesOutput(memory: nat -> Byte)
    ensures var stream := [0] + seq(BUFSIZE + 1, _ => 97);
            Held(stream, memory) != stream && Held(stream, memory)[0] == 97
  {
    var stream: seq<Byte> := [0] + seq(BUFSIZE + 1, _ => 97);
    var first, block := stream[..BUFSIZE], stream[BUFSIZE..];
    TwoReads(stream, memory);
    CStringIs(first, 0, 0);
    CStringIs(block, 0, 2);
    assert Joined(first, block, memory)[0] == 97;
  }

  // ---- the text of what is kept ----

  /** The text of the blocks from place n on: each block counts up to its first NUL. */
  function BlocksFrom(stream: seq<Byte>, n: nat): seq<Byte>
    requires 0 < n <= |stream|
    decreases |stream| - n
  {
    if n == |stream| then
      []
    else
      CString(stream[n..BlockEnd(stream, n)], 0) + BlocksFrom(stream, BlockEnd(stream, n))
  }

  /** The text that reading a stream gives: its first BUFSIZE bytes, then blocks of BUFSIZE, 2 * BUFSIZE, ... bytes. */
  function Text(stream: seq<Byte>): seq<Byte> {
    if |stream| <= BUFSIZE then CString(stream, 0) else CString(stream[..BUFSIZE], 0) + BlocksFrom(stream, BUFSIZE)
  }

  lemma JoinedText(held: seq<Byte>, block: seq<Byte>, memory: nat -> Byte)
    ensures CString(Joined(held, block, memory), 0) == CString(held, 0) + CString(block, 0)
  {
    var text, r := CString(held, 0) + CString(block, 0), Joined(held, block, memory);
    assert r[..|text|] == text;
    CStringIs(r, 0, |text|);
  }

  /** The text of a block, and that of the blocks behind it. */
  lemma BlocksFromIs(stream: seq<Byte>, n: nat)
    requires 0 < n < |stream|
    ensures BlocksFrom(stream, n) ==
            CString(stream[n..BlockEnd(stream, n)], 0) + BlocksFrom(stream, BlockEnd(stream, n))
  {
  }

  /** One round: more is held, and what is kept in the end stays the same. */
  lemma OneRound(held: seq<Byte>, stream: seq<Byte>, memory: nat -> Byte) returns (more: seq<Byte>)
    requires 0 < |held| < |stream|
    ensures |more| == BlockEnd(stream, |held|)
    ensures CString(more, 0) == CString(held, 0) + CString(stream[|held|..|more|], 0)
    ensures HeldFrom(held, stream, memory) == HeldFrom(more, stream, memory)
  {
    var block := stream[|held|..BlockEnd(stream, |held|)];
    more := Joined(held, block, memory);
    JoinedText(held, block, memory);
  }

  lemma Regroup(a: seq<Byte>, b: seq<Byte>, c: seq<Byte>)
    ensures (a + b) + c == a + (b + c)
  {
  }

  lemma OneRoundText(held: seq<Byte>, more: seq<Byte>, kept: seq<Byte>, stream: seq<Byte>)
    requires 0 < |held| < |stream| && |more| == BlockEnd(stream, |held|)
    requires CString(more, 0) == CString(held, 0) + CString(stream[|held|..|more|], 0)
    requires CString(kept, 0) == CString(more, 0) + BlocksFrom(stream, |more|)
    ensures CString(kept, 0) == CString(held, 0) + BlocksFrom(stream, |held|)
  {
    BlocksFromIs(stream, |held|);
    Regroup(CString(held, 0), CString(stream[|held|..|more|], 0), BlocksFrom(stream, |more|));
  }

  lemma {:induction false} HeldFromText(held: seq<Byte>, stream: seq<Byte>, memory: nat -> Byte)
    requires 0 < |held| <= |stream|
    ensures CString(HeldFrom(held, stream, memory), 0) == CString(held, 0) + BlocksFrom(stream, |held|)
    decreases |stream| - |held|
  {
    if |held| < |stream| {
      var more := OneRound(held, stream, memory);
      HeldFromText(more, stream, memory);
      OneRoundText(held, more, HeldFrom(more, stream, memory), stream);
    }
  }

  /** The text of what is kept does not depend on what memory held before. */
  lemma HeldText(stream: seq<Byte>, memory: nat -> Byte)
    ensures CString(Held(stream, memory), 0) == Text(stream)
  {
    if |stream| > BUFSIZE {
      HeldFromText(stream[..BUFSIZE], stream, memory);
    }
  }

  lemma NoNul(s: seq<Byte>)
    ensures |CString(s, 0)| == |s| <==> 0 !in s
  {
  }

  lemma NulInHalves(s: seq<Byte>, n: nat)
    requires n <= |s|
    ensures s == s[..n] + s[n..]
    ensures 0 !in s <==> 0 !in s[..n] && 0 !in s[n..]
  {
    assert s == s[..n] + s[n..];
  }

  lemma {:induction false} BlocksLength(stream: seq<Byte>, n: nat)
    requires 0 < n <= |stream|
    ensures |BlocksFrom(stream, n)| <= |stream| - n
    ensures |BlocksFrom(stream, n)| == |stream| - n <==> 0 !in stream[n..]
    ensures 0 !in stream[n..] ==> BlocksFrom(stream, n) == stream[n..]
    decreases |stream| - n
  {
    if n < |stream| {
      var end := BlockEnd(stream, n);
      BlocksLength(stream, end);
      NoNul(stream[n..end]);
      NulInHalves(stream[n..], end - n);
      assert stream[n..][..end - n] == stream[n..end] && stream[n..][end - n..] == stream[end..];
    }
  }

  /** The text is as long as the stream exactly when the stream holds no NUL, and then it is the stream. */
  lemma TextIsStream(stream: seq<Byte>)
    ensures |Text(stream)| <= |stream|
    ensures |Text(stream)| == |stream| <==> 0 !in stream
    ensures 0 !in stream ==> Text(stream) == stream
  {
    if |stream| > BUFSIZE {
      BlocksLength(stream, BUFSIZE);
      NoNul(stream[..BUFSIZE]);
      NulInHalves(stream, BUFSIZE);
    }
  }

  // ---- the system and library calls ----

  /** Memory from malloc; what it holds is not known. */
  method Malloc(n: nat) returns (a: array<Byte>)
    ensures fresh(a) && a.Length == n
  {
    a := new Byte[n];
  }

  method Realloc(a: array<Byte>, n: nat, memory: nat -> Byte) returns (b: array<Byte>)
    requires n >= a.Length
    ensures fresh(b) && b.Length == n && b[..a.Length] == a[..]
    ensures forall k :: a.Length <= k < n ==> b[k] == memory(k)
  {
    b := new Byte[n](k requires 0 <= k => memory(k));
    var i := 0;
    while i < a.Length
      invariant 0 <= i <= a.Length
      invariant forall k :: 0 <= k < i ==> b[k] == a[k]
      invariant forall k :: a.Length <= k < n ==> b[k] == memory(k)
    {
      b[i] := a[i];
      i := i + 1;
    }
  }

  /** A read from a pipe whose writer is gone: as much as was asked for, or all that is left. */
  method Read(stream: seq<Byte>, taken: nat, a: array<Byte>, n: nat) returns (bytes: nat)
    requires taken <= |stream| && n <= a.Length
    modifies a
    ensures bytes == Min(n, |stream| - taken)
    ensures a[..bytes] == stream[taken..taken + bytes]
    ensures forall k :: bytes <= k < a.Length ==> a[k] == old(a[k])
  {
    bytes := Min(n, |stream| - taken);
    var i := 0;
    while i < bytes
      invariant 0 <= i <= bytes
      invariant forall k :: 0 <= k < i ==> a[k] == stream[taken + k]
      invariant forall k :: i <= k < a.Length ==> a[k] == old(a[k])
    {
      a[i] := stream[taken + i];
      i := i + 1;
    }
  }

  method Strlen(a: array<Byte>) returns (n: nat)
    requires |CString(a[..], 0)| < a.Length
    ensures n == |CString(a[..], 0)|
  {
    n := 0;
    while a[n] != 0
      invariant 0 <= n <= |CString(a[..], 0)| && 0 !in a[..n]
      decreases a.Length - n
    {
      assert a[..][n] == a[n];
      n := n + 1;
    }
    CStringIs(a[..], 0, n);
  }

  /** The string of src is copied to place z of dst. */
  method Strcpy(dst: array<Byte>, z: nat, src: array<Byte>)
    requires dst != src
    requires |CString(src[..], 0)| < src.Length && z + |CString(src[..], 0)| < dst.Length
    modifies dst
    ensures var text := CString(src[..], 0);
            dst[..] == old(dst[..])[..z] + text + [0] + old(dst[..])[z + |text| + 1..]
  {
    var n := 0;
    while src[n] != 0
      invariant 0 <= n <= |CString(src[..], 0)|
      invariant forall k :: 0 <= k < n ==> dst[z + k] == src[k]
      invariant forall k :: 0 <= k < z || z + n <= k < dst.Length ==> dst[k] == old(dst[k])
      decreases src.Length - n
    {
      assert src[..][n] == src[n];
      dst[z + n] := src[n];
      n := n + 1;
    }
    dst[z + n] := 0;
    CopiedText(src[..], n);
    Copied(old(dst[..]), src[..n], dst[..], z);
  }

  lemma CopiedText(memory: seq<Byte>, n: nat)
    requires n < |memory| && n <= |CString(memory, 0)| && memory[n] == 0
    ensures CString(memory, 0) == memory[..n]
  {
    assert memory[..n] == CString(memory, 0)[..n];
    CStringIs(memory, 0, n);
  }

  lemma Copied(was: seq<Byte>, text: seq<Byte>, now: seq<Byte>, z: nat)
    requires z + |text| < |was| == |now| && now[z + |text|] == 0
    requires forall k :: 0 <= k < |text| ==> now[z + k] == text[k]
    requires forall k :: 0 <= k < z || z + |text| < k < |now| ==> now[k] == was[k]
    ensures now == was[..z] + text + [0] + was[z + |text| + 1..]
  {
    var n := |text|;
    assert now[..z] == was[..z] && now[z..z + n] == text && now[z + n + 1..] == was[z + n + 1..];
    assert now == now[..z] + now[z..z + n] + [now[z + n]] + now[z + n + 1..];
  }

  /** The first string of dst gets the string of src appended; it must fit. */
  method Strcat(dst: array<Byte>, src: array<Byte>)
    requires dst != src
    requires |CString(src[..], 0)| < src.Length
    requires |CString(dst[..], 0)| + |CString(src[..], 0)| < dst.Length
    modifies dst
    ensures var text := CString(old(dst[..]), 0) + CString(src[..], 0);
            dst[..] == text + [0] + old(dst[..])[|text| + 1..]
  {
    var z := Strlen(dst);
    Strcpy(dst, z, src);
  }

  // ---- read_all ----

  function Pow2(n: nat): (r: nat)
    ensures r > n
  {
    if n == 0 then 1 else 2 * Pow2(n - 1)
  }

  /** How often n can be halved before it is 0 or 1. */
  function Log2(n: nat): nat {
    if n <= 1 then 0 else 1 + Log2(n / 2)
  }

  lemma {:induction false} Pow2Below(k: nat, n: nat)
    requires Pow2(k) <= n
    ensures k <= Log2(n)
  {
    if k > 0 {
      Pow2Below(k - 1, n / 2);
    }
  }

  lemma RoundsAre(rounds: nat, length: nat)
    requires BUFSIZE * Pow2(rounds) <= 4 * length
    ensures rounds <= Log2(length / BUFSIZE) + 2
  {
    if rounds >= 2 {
      assert Pow2(rounds) == 4 * Pow2(rounds - 2);
      Pow2Below(rounds - 2, length / BUFSIZE);
    }
  }

  /** The loop goes on from the bytes read so far to the bytes kept in the end. */
  ghost predicate LeadsTo(read: seq<Byte>, stream: seq<Byte>, memory: nat -> Byte) {
    0 < |read| <= |stream| && HeldFrom(read, stream, memory) == Held(stream, memory)
  }

  lemma NextRead(read: seq<Byte>, block: seq<Byte>, stream: seq<Byte>, memory: nat -> Byte)
    requires LeadsTo(read, stream, memory) && |read| < |stream|
    requires |block| == Min(|read|, |stream| - |read|) && block == stream[|read|..|read| + |block|]
    ensures LeadsTo(Joined(read, block, memory), stream, memory)
  {
    assert BlockEnd(stream, |read|) == |read| + |block|;
  }

  lemma LastRead(read: seq<Byte>, stream: seq<Byte>, memory: nat -> Byte)
    requires LeadsTo(read, stream, memory) && |read| == |stream|
    ensures read == Held(stream, memory)
  {
  }

  lemma FirstRead(stream: seq<Byte>, memory: nat -> Byte)
    requires |stream| >= BUFSIZE
    ensures LeadsTo(stream[..BUFSIZE], stream, memory)
  {
    assert |stream| == BUFSIZE ==> stream[..BUFSIZE] == stream;
  }

  /** The bytes held and their NUL, with n more bytes behind them. */
  ghost predicate Enlarged(r: seq<Byte>, held: seq<Byte>, memory: nat -> Byte) {
    held + [0] <= r && forall k :: |held| < k < |r| ==> r[k] == memory(k)
  }

  lemma StrcatJoins(held: seq<Byte>, block: seq<Byte>, memory: nat -> Byte, before: seq<Byte>, after: seq<Byte>)
    requires Enlarged(before, held, memory) && |held| + |block| < |before|
    requires var text := CString(held, 0) + CString(block, 0);
             after == text + [0] + before[|text| + 1..]
    ensures after[..|held| + |block|] == Joined(held, block, memory)
  {
    var text, r := CString(held, 0) + CString(block, 0), Joined(held, block, memory);
    assert before[..|held| + 1] == held + [0];
    forall k | 0 <= k < |r| ensures after[k] == r[k] {
      Overwritten(before, text, k);
    }
  }

  lemma Overwritten(memory: seq<Byte>, text: seq<Byte>, k: nat)
    requires |text| < |memory| && k < |memory|
    ensures (text + [0] + memory[|text| + 1..])[k] ==
            if k < |text| then text[k] else if k == |text| then 0 else memory[k]
  {
  }

  method StrcatBlock(dst: array<Byte>, src: array<Byte>, ghost held: seq<Byte>, ghost block: seq<Byte>,
                     ghost memory: nat -> Byte)
    requires dst != src && Enlarged(dst[..], held, memory) && |held| + |block| < dst.Length && block + [0] <= src[..]
    modifies dst
    ensures dst[..|held| + |block|] == Joined(held, block, memory)
  {
    ghost var before := dst[..];
    CStringOfPart(before, 0, held);
    CStringOfPart(src[..], 0, block);
    Strcat(dst, src);
    StrcatJoins(held, block, memory, before, dst[..]);
    assert dst[..][..|held| + |block|] == dst[..|held| + |block|];
  }

  /** The buffer and the block each get their NUL, and the buffer moves to memory of about twice its size. */
  method Enlarge(buf: array<Byte>, temp: array<Byte>, bytes: nat, memory: nat -> Byte) returns (bigger: array<Byte>)
    requires buf != temp && buf.Length > 0 && bytes < temp.Length
    modifies buf, temp
    ensures fresh(bigger) && bigger.Length == 2 * buf.Length - 1
    ensures Enlarged(bigger[..], old(buf[..buf.Length - 1]), memory)
    ensures temp[..bytes + 1] == old(temp[..bytes]) + [0]
  {
    var n := buf.Length - 1;
    buf[n] := 0;
    temp[bytes] := 0;
    bigger := Realloc(buf, 2 * n + 1, memory);
    assert bigger[..n + 1] == buf[..] == old(buf[..n]) + [0];
  }

  /** The block in temp is appended to a full buffer, in memory about twice as large. */
  method Append(buf: array<Byte>, temp: array<Byte>, bytes: nat, memory: nat -> Byte,
                ghost held: seq<Byte>, ghost block: seq<Byte>)
    returns (bigger: array<Byte>)
    requires buf != temp && temp.Length == buf.Length && bytes < temp.Length
    requires held == buf[..buf.Length - 1] && block == temp[..bytes]
    modifies buf, temp
    ensures fresh(bigger) && bigger.Length == 2 * buf.Length - 1
    ensures bigger[..|held| + |block|] == Joined(held, block, memory)
  {
    bigger := Enlarge(buf, temp, bytes, memory);
    assert temp[..bytes + 1] <= temp[..];
    StrcatBlock(bigger, temp, held, block, memory);
  }

  /** The body of the loop: the next block, if there is one, is read into memory of its own and appended. */
  method ReadBlock(stream: seq<Byte>, buf: array<Byte>, bytesRead: nat, size: nat, memory: nat -> Byte,
                   ghost read: seq<Byte>)
    returns (bigger: array<Byte>, bytes: nat, ghost read': seq<Byte>)
    requires 0 < bytesRead <= size && bytesRead <= |stream| && buf.Length == size + 1
    requires bytesRead == size || bytesRead == |stream|
    requires buf[..bytesRead] == read && LeadsTo(read, stream, memory)
    modifies buf
    ensures bytes == Min(size, |stream| - bytesRead)
    ensures bytes == 0 ==> bigger == buf && buf[..] == old(buf[..])
    ensures bytes > 0 ==> fresh(bigger) && bigger.Length == 2 * size + 1
    ensures bigger[..bytesRead + bytes] == read' && LeadsTo(read', stream, memory)
  {
    var temp := Malloc(size + 1);
    bytes := Read(stream, bytesRead, temp, size);
    bigger, read' := buf, read;
    if bytes > 0 {
      ghost var block := temp[..bytes];
      NextRead(read, block, stream, memory);
      bigger := Append(buf, temp, bytes, memory, read, block);
      read' := Joined(read, block, memory);
    }
  }

  /** The loop: blocks are read, each as large as all that came before, until a read finds nothing. */
  method ReadRest(stream: seq<Byte>, first: array<Byte>, memory: nat -> Byte)
    returns (buf: array<Byte>, bytesRead: nat, curBufsize: nat, ghost rounds: nat)
    requires first.Length == BUFSIZE + 1 && |stream| >= BUFSIZE && first[..BUFSIZE] == stream[..BUFSIZE]
    modifies first
    ensures (buf == first || fresh(buf)) && bytesRead == |stream|
    ensures curBufsize <= 4 * |stream| && buf.Length == curBufsize / 2 + 1 && bytesRead < buf.Length
    ensures buf[..bytesRead] == Held(stream, memory)
    ensures curBufsize == BUFSIZE * Pow2(rounds)
  {
    buf, bytesRead, curBufsize, rounds := first, BUFSIZE, BUFSIZE, 0;
    var bytes: nat := BUFSIZE;
    ghost var read := stream[..BUFSIZE];
    FirstRead(stream, memory);
    while bytes > 0
      invariant (buf == first || fresh(buf)) && BUFSIZE <= bytesRead <= |stream| && bytesRead < buf.Length
      invariant curBufsize == BUFSIZE * Pow2(rounds)
      invariant buf[..bytesRead] == read && LeadsTo(read, stream, memory)
      invariant bytes > 0 ==>
        && buf.Length == curBufsize + 1 && curBufsize < 2 * bytesRead
        && (bytesRead == curBufsize || bytesRead == |stream|)
      invariant bytes == 0 ==>
        bytesRead == |stream| && curBufsize <= 4 * |stream| && buf.Length == curBufsize / 2 + 1
      decreases |stream| - bytesRead, bytes
    {
      buf, bytes, read := ReadBlock(stream, buf, bytesRead, curBufsize, memory, read);
      curBufsize := curBufsize * 2;
      bytesRead := bytesRead + bytes;
      rounds := rounds + 1;
    }
    LastRead(read, stream, memory);
  }

  /**
   Every index used lies in the memory allocated for it, although the size kept beside the buffer ends up at twice
   its allocation; it never exceeds four times the length of the output, so 32 bits hold it below 2^29 bytes.
   */
  method ReadAll(stream: seq<Byte>, memory: nat -> Byte)
    returns (buf: array<Byte>, nread: nat, curBufsize: nat, ghost rounds: nat)
    ensures fresh(buf) && nread == |stream| && nread < buf.Length && buf[nread] == 0
    ensures buf[..nread] == Held(stream, memory)
    ensures |stream| < BUFSIZE ==> curBufsize == BUFSIZE && rounds == 0
    ensures |stream| >= BUFSIZE ==>
      && curBufsize <= 4 * |stream| && buf.Length == curBufsize / 2 + 1
      && rounds <= Log2(|stream| / BUFSIZE) + 2
  {
    curBufsize, rounds := BUFSIZE, 0;
    buf := Malloc(curBufsize + 1);
    var bytes: nat := Read(stream, 0, buf, curBufsize);
    nread := bytes;
    if bytes >= curBufsize {
      buf, nread, curBufsize, rounds := ReadRest(stream, buf, memory);
      RoundsAre(rounds, |stream|);
    }
    ghost var held := buf[..nread];
    buf[nread] := 0;
    assert buf[..nread] == held;
  }
}
