/**
 qemu-img compare: two images are walked in step, by allocation status where that decides
 and by content where it does not; what the longer one has extra must be zero.
 */
module Compare {
  import opened Alignment
  import opened Images
  import opened Buffers

  /** The exit status: 0, 1, or 3 and 4 for failures. */
  datatype Verdict = Identical | Different | Failed

  function Content(image: seq<Layer>, i: nat): Cell {
    ReadAt(image, [], i)
  }

  /** The images read the same in a range; past its end an image reads as zero. */
  ghost predicate SameRange(a: seq<Layer>, b: seq<Layer>, from: nat, to: nat) {
    forall i :: from <= i < to ==> Content(a, i) == Content(b, i)
  }

  ghost predicate SameImage(a: seq<Layer>, b: seq<Layer>) {
    forall i: nat :: Content(a, i) == Content(b, i)
  }

  lemma SamePrefix(a: seq<Layer>, b: seq<Layer>, size: nat)
    requires SameRange(a, b, 0, size) && Length(a, []) <= size && Length(b, []) <= size
    ensures SameImage(a, b)
  {
  }

  lemma MismatchAt(a: seq<Layer>, b: seq<Layer>, i: nat)
    requires Content(a, i) != Content(b, i)
    ensures !SameImage(a, b)
  {
  }

  ghost predicate ZeroRange(a: seq<Layer>, from: nat, n: nat) {
    forall i :: from <= i < from + n ==> Content(a, i) == 0
  }

  /** The status of a cell may be another one in each image: it is allocated in one only, or known to be zero in one. */
  predicate StatusMayDiffer(a: seq<Layer>, b: seq<Layer>, i: nat) {
    AllocatedAbove(a, i) != AllocatedAbove(b, i) || Content(a, i) == 0 || Content(b, i) == 0
  }

  lemma StatusDiffers(a: seq<Layer>, b: seq<Layer>, i: nat, n1: nat, n2: nat, s1: Status, s2: Status)
    requires 0 < n1 && 0 < n2 && Answers(a, [], i, n1, s1) && Answers(b, [], i, n2, s2) && s1 != s2
    ensures StatusMayDiffer(a, b, i)
  {
    assert AllocatedAbove(a, i) <==> s1.alloc;
    assert AllocatedAbove(b, i) <==> s2.alloc;
  }

  /** A range no layer has allocated, or that is known to be zero, reads as zero. */
  lemma StatusZero(a: seq<Layer>, offset: nat, n: nat, m: nat, s: Status)
    requires Answers(a, [], offset, n, s) && m <= n && (s.zero || !s.alloc)
    ensures ZeroRange(a, offset, m)
  {
    forall i | offset <= i < offset + m ensures Content(a, i) == 0 {
      if !s.zero {
        assert AllocatedAbove(a, i) <==> s.alloc;
        UnallocatedReadsBase(a, [], i);
      }
    }
  }

  /** check_empty_sectors; calls counts the requests made so far. */
  method CheckEmptySectors(a: seq<Layer>, offset: nat, n: nat, io: Oracle, calls: nat) returns (v: Verdict, calls': nat)
    ensures calls < calls' && (v.Failed? <==> !AllOk(io, calls, calls'))
    ensures v.Identical? ==> ZeroRange(a, offset, n)
    ensures v.Different? ==> exists i :: offset <= i < offset + n && Content(a, i) != 0
  {
    calls' := calls + 1;
    if !io(calls) {
      return Failed, calls';
    }
    var buffer := Pread(a, [], offset, n);
    var idx := FindNonzero(buffer);
    if idx >= 0 {
      var k :| 0 <= k < n && buffer[k] != 0;
      assert Content(a, offset + k) != 0;
      return Different, calls';
    }
    forall i | offset <= i < offset + n ensures Content(a, i) == 0 {
      assert buffer[i - offset] == 0;
    }
    return Identical, calls';
  }

  /** Reading a range of both images and comparing it. */
  method CompareRange(a: seq<Layer>, b: seq<Layer>, offset: nat, n: nat, io: Oracle, calls: nat)
    returns (v: Verdict, calls': nat)
    requires n > 0
    ensures calls < calls' && (v.Failed? <==> !AllOk(io, calls, calls'))
    ensures v.Identical? ==> SameRange(a, b, offset, offset + n)
    ensures v.Different? ==> !SameImage(a, b)
  {
    calls' := calls + 1;
    if !io(calls) {
      return Failed, calls';
    }
    calls' := calls + 2;
    if !io(calls + 1) {
      return Failed, calls';
    }
    var buf1, buf2 := Pread(a, [], offset, n), Pread(b, [], offset, n);
    var differ, pnum := CompareBuffers(buf1, buf2, 0);
    if differ || pnum != n {
      DifferentBuffers(a, b, offset, buf1, buf2);
      return Different, calls';
    }
    forall i | offset <= i < offset + n ensures Content(a, i) == Content(b, i) {
      assert buf1[..pnum][i - offset] == buf2[..pnum][i - offset];
    }
    return Identical, calls';
  }

  lemma DifferentBuffers(a: seq<Layer>, b: seq<Layer>, offset: nat, buf1: seq<Cell>, buf2: seq<Cell>)
    requires |buf1| == |buf2| && buf1 != buf2
    requires Holds(buf1, a, [], offset) && Holds(buf2, b, [], offset)
    ensures !SameImage(a, b)
  {
    var k :| 0 <= k < |buf1| && buf1[k] != buf2[k];
    MismatchAt(a, b, offset + k);
  }

  /** What the two images' status and content say about a range, once both have been asked. */
  method DecideRange(a: seq<Layer>, b: seq<Layer>, strict: bool, offset: nat, status1: Status, pnum1: nat,
                     status2: Status, pnum2: nat, io: Oracle, calls: nat) returns (v: Verdict, chunk: nat, calls': nat)
    requires 0 < pnum1 && 0 < pnum2 && Answers(a, [], offset, pnum1, status1) && Answers(b, [], offset, pnum2, status2)
    ensures calls <= calls' && (v.Failed? <==> !AllOk(io, calls, calls')) && 0 < chunk <= pnum1 && chunk <= pnum2
    ensures v.Identical? ==> SameRange(a, b, offset, offset + chunk) && (strict ==> status1 == status2)
    ensures v.Different? ==> (strict && status1 != status2) || !SameImage(a, b)
  {
    chunk, calls' := Min(pnum1, pnum2), calls;
    if strict && status1 != status2 {
      return Different, chunk, calls';
    }
    if status1.zero && status2.zero {
      StatusZero(a, offset, pnum1, chunk, status1);
      StatusZero(b, offset, pnum2, chunk, status2);
      return Identical, chunk, calls';
    }
    if status1.alloc == status2.alloc {
      if status1.alloc {
        chunk := Min(chunk, IO_BUF_SIZE);
        v, calls' := CompareRange(a, b, offset, chunk, io, calls);
      } else {
        StatusZero(a, offset, pnum1, chunk, status1);
        StatusZero(b, offset, pnum2, chunk, status2);
        v := Identical;
      }
    } else {
      chunk := Min(chunk, IO_BUF_SIZE);
      if status1.alloc {
        StatusZero(b, offset, pnum2, chunk, status2);
        v, calls' := CheckEmptySectors(a, offset, chunk, io, calls);
      } else {
        StatusZero(a, offset, pnum1, chunk, status1);
        v, calls' := CheckEmptySectors(b, offset, chunk, io, calls);
      }
    }
  }

  /** One step over the part both images have. */
  method CompareStep(a: seq<Layer>, b: seq<Layer>, strict: bool, offset: nat, io: Oracle, calls: nat)
    returns (v: Verdict, chunk: nat, calls': nat)
    requires offset < Length(a, []) && offset < Length(b, [])
    ensures calls < calls' && (v.Failed? <==> !AllOk(io, calls, calls'))
    ensures !v.Failed? ==> 0 < chunk && offset + chunk <= Length(a, []) && offset + chunk <= Length(b, [])
    ensures v.Identical? ==> SameRange(a, b, offset, offset + chunk)
    ensures v.Different? ==> !SameImage(a, b) || (strict && StatusMayDiffer(a, b, offset))
  {
    chunk, calls' := 0, calls + 1;
    if !io(calls) {
      return Failed, chunk, calls';
    }
    var status1, pnum1 := StatusAbove(a, [], offset, Length(a, []) - offset, 1);
    calls' := calls + 2;
    if !io(calls + 1) {
      return Failed, chunk, calls';
    }
    var status2, pnum2 := StatusAbove(b, [], offset, Length(b, []) - offset, 1);
    v, chunk, calls' := DecideRange(a, b, strict, offset, status1, pnum1, status2, pnum2, io, calls + 2);
    if status1 != status2 {
      StatusDiffers(a, b, offset, pnum1, pnum2, status1, status2);
    }
  }

  /** The loop over what only the longer image has. */
  method CheckOverhang(over: seq<Layer>, from: nat, size: nat, io: Oracle, calls: nat) returns (v: Verdict, calls': nat)
    requires from <= size == Length(over, [])
    ensures calls <= calls' && (v.Failed? <==> !AllOk(io, calls, calls'))
    ensures v.Identical? ==> ZeroRange(over, from, size - from)
    ensures v.Different? ==> exists i :: from <= i < size && Content(over, i) != 0
  {
    var offset := from;
    calls' := calls;
    while offset < size
      invariant from <= offset <= size && ZeroRange(over, from, offset - from) && calls <= calls' &&
                AllOk(io, calls, calls')
    {
      calls' := calls' + 1;
      if !io(calls' - 1) {
        return Failed, calls';
      }
      var s, chunk := StatusAbove(over, [], offset, size - offset, 1);
      if s.alloc && !s.zero {
        chunk := Min(chunk, IO_BUF_SIZE);
        v, calls' := CheckEmptySectors(over, offset, chunk, io, calls');
        if !v.Identical? {
          return;
        }
      } else {
        StatusZero(over, offset, chunk, chunk, s);
      }
      offset := offset + chunk;
    }
    return Identical, calls';
  }

  /**
   img_compare.  It fails exactly when one of the requests it makes fails; else, unless it is strict, it
   answers Identical exactly for images with the same content and Different for all others.  If it is
   strict, images with the same content are Different only when their lengths are, or may be when the
   status of some cell is.
   */
  method ImgCompare(a: seq<Layer>, b: seq<Layer>, strict: bool, io: Oracle) returns (v: Verdict, calls: nat)
    ensures v.Failed? <==> !AllOk(io, 0, calls)
    ensures v.Identical? ==> SameImage(a, b) && (strict ==> Length(a, []) == Length(b, []))
    ensures v.Different? && !strict ==> !SameImage(a, b)
    ensures v.Different? && strict ==>
              !SameImage(a, b) || Length(a, []) != Length(b, []) ||
              exists i :: 0 <= i < Length(a, []) && StatusMayDiffer(a, b, i)
  {
    calls := 1;
    if !io(0) {
      return Failed, calls;
    }
    calls := 2;
    if !io(1) {
      return Failed, calls;
    }
    var size1, size2 := Length(a, []), Length(b, []);
    var total: nat := Min(size1, size2);
    if strict && size1 != size2 {
      return Different, calls;
    }
    var offset := 0;
    while offset < total
      invariant offset <= total && SameRange(a, b, 0, offset) && AllOk(io, 0, calls)
    {
      var chunk;
      v, chunk, calls := CompareStep(a, b, strict, offset, io, calls);
      if !v.Identical? {
        return;
      }
      offset := offset + chunk;
    }
    v := Identical;
    if size1 > size2 {
      v, calls := CheckOverhang(a, offset, size1, io, calls);
      Overhang(a, b, offset, size1, v);
    } else if size2 > size1 {
      v, calls := CheckOverhang(b, offset, size2, io, calls);
      Overhang(b, a, offset, size2, v);
    } else {
      SamePrefix(a, b, total);
    }
  }

  /** The shorter image reads as zero where only the longer one is. */
  lemma Overhang(over: seq<Layer>, short: seq<Layer>, from: nat, size: nat, v: Verdict)
    requires from == Length(short, []) <= size == Length(over, []) && SameRange(over, short, 0, from)
    requires v.Identical? ==> ZeroRange(over, from, size - from)
    requires v.Different? ==> exists i :: from <= i < size && Content(over, i) != 0
    ensures v.Identical? ==> SameImage(over, short)
    ensures v.Different? ==> !SameImage(over, short)
  {
  }
}
