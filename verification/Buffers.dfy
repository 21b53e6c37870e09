/**
 The buffer helpers of qemu-img.c: comparing two buffers chunk by chunk, and finding the
 first sector of a buffer that is not zero.
 */
module Buffers {
  import opened Alignment
  import opened Images

  const SECTOR_SIZE: nat := 512
  const IO_BUF_SIZE: nat := 2 * 1024 * 1024

  // ------------------------------------------------------------ compare_buffers

  function ChunkSize(chsize: nat): (c: nat)
    ensures c > 0
  {
    if chsize == 0 then SECTOR_SIZE else chsize
  }

  /** memcmp of the chunks that start at s. */
  predicate ChunkDiffers(buf1: seq<Cell>, buf2: seq<Cell>, c: nat, s: nat)
    requires |buf1| == |buf2| && s <= |buf1|
  {
    var end := Min(s + c, |buf1|);
    buf1[s..end] != buf2[s..end]
  }

  /** The prefix of length n consists of chunks that all differ, or all match. */
  ghost predicate Alike(buf1: seq<Cell>, buf2: seq<Cell>, c: nat, n: nat, differ: bool)
    requires |buf1| == |buf2| && c > 0 && n <= |buf1|
  {
    forall s :: 0 <= s < n && s % c == 0 ==> (ChunkDiffers(buf1, buf2, c, s) <==> differ)
  }

  method CompareBuffers(buf1: seq<Cell>, buf2: seq<Cell>, chsize: nat) returns (res: bool, pnum: nat)
    requires |buf1| == |buf2| > 0
    ensures 0 < pnum <= |buf1| && (pnum < |buf1| ==> pnum % ChunkSize(chsize) == 0)
    ensures Alike(buf1, buf2, ChunkSize(chsize), pnum, res)
    ensures pnum < |buf1| ==> ChunkDiffers(buf1, buf2, ChunkSize(chsize), pnum) != res
    ensures res ==> buf1[..pnum] != buf2[..pnum]
    ensures !res ==> buf1[..pnum] == buf2[..pnum]
  {
    var bytes := |buf1|;
    var c := ChunkSize(chsize);
    var i: nat := Min(bytes, c);
    res := buf1[..i] != buf2[..i];
    AlikeFirst(buf1, buf2, c);
    while i < bytes
      invariant 0 < i <= bytes && (i < bytes ==> i % c == 0)
      invariant Alike(buf1, buf2, c, i, res)
      invariant res ==> buf1[..Min(bytes, c)] != buf2[..Min(bytes, c)]
      invariant !res ==> buf1[..i] == buf2[..i]
      invariant Min(bytes, c) <= i
    {
      var len: nat := Min(bytes - i, c);
      if (buf1[i..i + len] != buf2[i..i + len]) != res {
        break;
      }
      AlikeNext(buf1, buf2, c, i, res);
      JoinEqual(buf1, buf2, i, i + len);
      i := i + len;
    }
    pnum := i;
    PrefixDiffers(buf1, buf2, Min(bytes, c), i);
  }

  lemma AlikeFirst(buf1: seq<Cell>, buf2: seq<Cell>, c: nat)
    requires |buf1| == |buf2| && c > 0
    ensures Min(|buf1|, c) < |buf1| ==> Min(|buf1|, c) % c == 0
    ensures var i := Min(|buf1|, c); Alike(buf1, buf2, c, i, buf1[..i] != buf2[..i])
  {
    var i := Min(|buf1|, c);
    DivAdd(c, 1, 0);
    DivAdd(c, 0, 0);
    forall s | 0 <= s < i && s % c == 0 ensures ChunkDiffers(buf1, buf2, c, s) <==> buf1[..i] != buf2[..i] {
      OneMultiple(0, s, c);
    }
  }

  lemma AlikeNext(buf1: seq<Cell>, buf2: seq<Cell>, c: nat, i: nat, res: bool)
    requires |buf1| == |buf2| && c > 0 && i < |buf1| && i % c == 0
    requires Alike(buf1, buf2, c, i, res) && ChunkDiffers(buf1, buf2, c, i) == res
    ensures var n := i + Min(|buf1| - i, c); Alike(buf1, buf2, c, n, res) && (n < |buf1| ==> n % c == 0)
  {
    DivAdd(c, 1, 0);
    ModAdd(i, c, c);
    forall s | i <= s < i + c && s % c == 0 ensures s == i {
      OneMultiple(i, s, c);
    }
  }

  lemma JoinEqual(a: seq<Cell>, b: seq<Cell>, i: nat, j: nat)
    requires |a| == |b| && i <= j <= |a|
    ensures a[..i] == b[..i] && a[i..j] == b[i..j] ==> a[..j] == b[..j]
  {
  }

  lemma PrefixDiffers(a: seq<Cell>, b: seq<Cell>, i: nat, j: nat)
    requires |a| == |b| && i <= j <= |a|
    ensures a[..i] != b[..i] ==> a[..j] != b[..j]
  {
  }

  // ------------------------------------------------------------ find_nonzero

  predicate IsZero(buf: seq<Cell>) {
    forall i :: 0 <= i < |buf| ==> buf[i] == 0
  }

  /** -1 if the buffer is all zeroes, else the start of the first sector that is not. */
  method FindNonzero(buf: seq<Cell>) returns (idx: int)
    ensures idx == -1 <==> IsZero(buf)
    ensures idx != -1 ==> 0 <= idx < |buf| && idx % SECTOR_SIZE == 0 && IsZero(buf[..idx]) &&
                          !IsZero(buf[idx..Min(idx + SECTOR_SIZE, |buf|)])
  {
    var end := AlignDown(|buf|, SECTOR_SIZE);
    var i: nat := 0;
    while i < end
      invariant i <= end && i % SECTOR_SIZE == 0 && end % SECTOR_SIZE == 0 && end <= |buf| < end + SECTOR_SIZE
      invariant IsZero(buf[..i])
    {
      if !IsZero(buf[i..i + SECTOR_SIZE]) {
        SomeNonzero(buf, i, i + SECTOR_SIZE);
        return i;
      }
      ZeroNext(buf, i, i + SECTOR_SIZE);
      i := i + SECTOR_SIZE;
    }
    assert buf[i..] == buf[i..|buf|] && buf == buf[..|buf|];
    if i < |buf| && !IsZero(buf[i..]) {
      SomeNonzero(buf, i, |buf|);
      return i;
    }
    ZeroNext(buf, i, |buf|);
    return -1;
  }

  lemma SomeNonzero(buf: seq<Cell>, i: nat, j: nat)
    requires i <= j <= |buf| && !IsZero(buf[i..j])
    ensures !IsZero(buf)
  {
  }

  lemma ZeroNext(buf: seq<Cell>, i: nat, j: nat)
    requires i <= j <= |buf| && IsZero(buf[..i]) && IsZero(buf[i..j])
    ensures IsZero(buf[..j])
  {
  }
}
