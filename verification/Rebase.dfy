/**
 The safe mode of qemu-img rebase: every cluster the image does not have itself is compared
 in the old and the new backing chain and copied into the image when they differ, so that
 the image reads the same at any time, and also after its backing file is exchanged.
 */
module Rebase {
  import opened Alignment
  import opened Counting
  import opened Options
  import opened Images
  import opened Buffers

  /** The image reads as it was, everywhere. */
  ghost predicate SameContent(top: Layer, was: Layer, layers: seq<Layer>, base: seq<Cell>) {
    |top| == |was| && forall i :: 0 <= i < |top| ==> Over(top, layers, base, i) == Over(was, layers, base, i)
  }

  /** A byte that does not need the old backing chain. */
  predicate Free(top: Layer, layers: seq<Layer>, base: seq<Cell>, next: seq<Cell>, i: nat)
    requires i < |top|
  {
    top[i].Some? || ReadAt(layers, base, i) == At(next, i)
  }

  /** In a range, the image does not need the old backing chain any more. */
  ghost predicate AllFree(top: Layer, layers: seq<Layer>, base: seq<Cell>, next: seq<Cell>, from: nat, to: nat) {
    to <= |top| && forall i :: from <= i < to ==> Free(top, layers, base, next, i)
  }

  lemma FreeReadsSame(top: Layer, was: Layer, layers: seq<Layer>, base: seq<Cell>, next: seq<Cell>)
    requires SameContent(top, was, layers, base) && AllFree(top, layers, base, next, 0, |top|)
    ensures forall i :: 0 <= i < |top| ==> Over(top, [], next, i) == Over(was, layers, base, i)
  {
    forall i | 0 <= i < |top| ensures Over(top, [], next, i) == Over(was, layers, base, i) {
      assert Free(top, layers, base, next, i);
      assert Over(top, layers, base, i) == Over(was, layers, base, i);
    }
  }

  // ------------------------------------------------------------ units of allocation

  /** Extending an unallocated range to unit boundaries adds only unallocated bytes. */
  lemma ExtendUnallocated(l: Layer, m: nat, offset: nat, n: nat)
    requires Units(l, m) && n > 0 && Uniform(l, offset, n, false)
    ensures var start, end := AlignDown(offset, m), Min(AlignUp(offset + n, m), |l|);
            start <= offset && offset + n <= end && Uniform(l, start, end - start, false)
  {
    var e := offset + n;
    AlignDownIs(offset, m);
    AlignUpIs(e, m);
    var start, end := AlignDown(offset, m), Min(AlignUp(e, m), |l|);
    forall i | start <= i < end ensures l[i].None? {
      AlignDownIs(i, m);
      if i < offset {
        SameUnit(offset, i, m);
        assert l[offset].None?;
      } else if i >= e {
        LastUnit(e, i, m);
        assert l[e - 1].None?;
      }
    }
  }

  // ------------------------------------------------------------ writing

  /** Whole units are written, up to the end of the image. */
  lemma WrittenUnits(l: Layer, m: nat, offset: nat, buf: seq<Cell>)
    requires Units(l, m) && offset + |buf| <= |l| && offset % m == 0
    requires (offset + |buf|) % m == 0 || offset + |buf| == |l|
    ensures Units(Written(l, offset, buf), m)
  {
    var r, end := Written(l, offset, buf), offset + |buf|;
    forall i | 0 <= i < |r| ensures AlignDown(i, m) <= i && r[i].Some? == r[AlignDown(i, m)].Some? {
      AlignDownIs(i, m);
      if offset <= i {
        MultipleBelow(offset, i, m);
      }
      if end <= i {
        MultipleBelow(end, i, m);
      }
    }
  }

  /** Writing what the old backing chain has over unallocated bytes changes nothing one can see. */
  lemma WrittenSame(l: Layer, was: Layer, layers: seq<Layer>, base: seq<Cell>, offset: nat, buf: seq<Cell>)
    requires SameContent(l, was, layers, base) && Uniform(l, offset, |buf|, false)
    requires Holds(buf, layers, base, offset)
    ensures SameContent(Written(l, offset, buf), was, layers, base)
  {
  }

  // ------------------------------------------------------------ the invariant of the run

  /** The chains: what the old backing chain is made of, and what the new one reads. */
  datatype Backing = Backing(layers: seq<Layer>, base: seq<Cell>, next: seq<Cell>)

  /** The image reads as it did, allocates whole units, and keeps every byte that it had. */
  ghost predicate Intact(top: Layer, was: Layer, b: Backing, align: nat) {
    && SameContent(top, was, b.layers, b.base) && Units(top, align)
    && (forall i :: 0 <= i < |was| && was[i].Some? ==> top[i] == was[i])
  }

  /** The two chains read the same wherever the image is. */
  ghost predicate SameBackings(b: Backing, size: nat) {
    forall i :: 0 <= i < size ==> ReadAt(b.layers, b.base, i) == At(b.next, i)
  }

  /** A range that is allocated needs no copying; one that reads the new chain's content in the old one neither. */
  lemma SkipAllocated(top: Layer, b: Backing, offset: nat, n: nat)
    requires AllFree(top, b.layers, b.base, b.next, 0, offset) && Uniform(top, offset, n, true)
    ensures AllFree(top, b.layers, b.base, b.next, 0, offset + n)
  {
  }

  lemma SkipUnchanged(top: Layer, b: Backing, offset: nat, n: nat, s: Status)
    requires AllFree(top, b.layers, b.base, b.next, 0, offset) && offset + n <= |top| && b.next == b.base
    requires n > 0 && Answers(b.layers, b.base, offset, n, s) && !s.alloc
    ensures AllFree(top, b.layers, b.base, b.next, 0, offset + n)
  {
    forall i | offset <= i < offset + n ensures Free(top, b.layers, b.base, b.next, i) {
      assert !AllocatedAbove(b.layers, i);
      UnallocatedReadsBase(b.layers, b.base, i);
    }
  }

  /** What a buffer holds that is filled from a chain and zeroed past its end. */
  lemma FillHolds(layers: seq<Layer>, base: seq<Cell>, offset: nat, n: nat, got: nat)
    requires got == Min(n, Max(0, Length(layers, base) - offset))
    ensures Holds(Pread(layers, base, offset, got) + seq(n - got, _ => 0), layers, base, offset)
  {
    var buf := Pread(layers, base, offset, got) + seq(n - got, _ => 0);
    forall i | 0 <= i < n ensures buf[i] == ReadAt(layers, base, offset + i) {
      if got <= i {
        ReadPastEnd(layers, base, offset + i);
      }
    }
  }

  lemma HoldsSlice(buf: seq<Cell>, layers: seq<Layer>, base: seq<Cell>, offset: nat, from: nat, to: nat)
    requires Holds(buf, layers, base, offset) && from <= to <= |buf|
    ensures Holds(buf[from..to], layers, base, offset + from)
  {
  }

  lemma HoldsZeroes(buf: seq<Cell>, layers: seq<Layer>, base: seq<Cell>, offset: nat)
    requires offset >= Length(layers, base) && forall i :: 0 <= i < |buf| ==> buf[i] == 0
    ensures Holds(buf, layers, base, offset)
  {
  }

  /** A matching range of the buffers needs no copying. */
  lemma EqualIsFree(top: Layer, b: Backing, offset: nat, bufOld: seq<Cell>, bufNew: seq<Cell>)
    requires AllFree(top, b.layers, b.base, b.next, 0, offset) && offset + |bufOld| <= |top| && bufOld == bufNew
    requires Holds(bufOld, b.layers, b.base, offset) && Holds(bufNew, [], b.next, offset)
    ensures AllFree(top, b.layers, b.base, b.next, 0, offset + |bufOld|)
  {
    forall i | offset <= i < offset + |bufOld| ensures Free(top, b.layers, b.base, b.next, i) {
      assert bufOld[i - offset] == bufNew[i - offset];
    }
  }

  lemma DifferentBackings(size: nat, b: Backing, offset: nat, bufOld: seq<Cell>, bufNew: seq<Cell>)
    requires offset + |bufOld| <= size && bufOld != bufNew && |bufOld| == |bufNew|
    requires Holds(bufOld, b.layers, b.base, offset) && Holds(bufNew, [], b.next, offset)
    ensures !SameBackings(b, size)
  {
  }

  /** One write of the copying loop. */
  lemma WriteStep(top: Layer, was: Layer, b: Backing, align: nat, offset: nat, buf: seq<Cell>)
    requires Intact(top, was, b, align) && AllFree(top, b.layers, b.base, b.next, 0, offset)
    requires Uniform(top, offset, |buf|, false) && offset % align == 0
    requires (offset + |buf|) % align == 0 || offset + |buf| == |top|
    requires Holds(buf, b.layers, b.base, offset)
    ensures var r := Written(top, offset, buf);
            Intact(r, was, b, align) && AllFree(r, b.layers, b.base, b.next, 0, offset + |buf|)
  {
    WrittenUnits(top, align, offset, buf);
    WrittenSame(top, was, b.layers, b.base, offset, buf);
    var r := Written(top, offset, buf);
    forall i | 0 <= i < offset + |buf| ensures Free(r, b.layers, b.base, b.next, i) {
      assert i < offset ==> Free(top, b.layers, b.base, b.next, i);
    }
  }

  /** Where the copying loop stands in the range of n bytes at offset. */
  ghost predicate Copying(top: Layer, was: Layer, b: Backing, align: nat, offset: nat, n: nat, written: nat) {
    && Intact(top, was, b, align) && AllFree(top, b.layers, b.base, b.next, 0, offset + written)
    && written <= n && Uniform(top, offset + written, n - written, false)
    && offset % align == 0 && (written < n ==> written % align == 0)
    && ((offset + n) % align == 0 || offset + n == |top|)
  }

  lemma UnitsAddUp(align: nat, offset: nat, n: nat, written: nat, pnum: nat)
    requires align > 0 && offset % align == 0 && written % align == 0 && 0 < pnum <= n - written
    requires pnum < n - written ==> pnum % align == 0
    ensures (offset + written) % align == 0
    ensures written + pnum < n ==> (written + pnum) % align == 0 && (offset + written + pnum) % align == 0
  {
    ModAdd(offset, written, align);
    ModAdd(written, pnum, align);
    ModAdd(offset, written + pnum, align);
  }

  lemma WriteCopies(top: Layer, was: Layer, b: Backing, align: nat, offset: nat, n: nat, written: nat, buf: seq<Cell>)
    requires Copying(top, was, b, align, offset, n, written) && 0 < |buf| <= n - written
    requires |buf| < n - written ==> |buf| % align == 0
    requires Holds(buf, b.layers, b.base, offset + written)
    ensures Copying(Written(top, offset + written, buf), was, b, align, offset, n, written + |buf|)
  {
    UnitsAddUp(align, offset, n, written, |buf|);
    WriteStep(top, was, b, align, offset + written, buf);
  }

  lemma EqualCopies(top: Layer, was: Layer, b: Backing, align: nat, offset: nat, n: nat, written: nat,
                    chunkOld: seq<Cell>, chunkNew: seq<Cell>)
    requires Copying(top, was, b, align, offset, n, written) && 0 < |chunkOld| <= n - written && chunkOld == chunkNew
    requires |chunkOld| < n - written ==> |chunkOld| % align == 0
    requires Holds(chunkOld, b.layers, b.base, offset + written) && Holds(chunkNew, [], b.next, offset + written)
    ensures Copying(top, was, b, align, offset, n, written + |chunkOld|)
  {
    UnitsAddUp(align, offset, n, written, |chunkOld|);
    EqualIsFree(top, b, offset + written, chunkOld, chunkNew);
  }

  // ------------------------------------------------------------ the record of a run

  /**
   What the tool does: it asks for the status of a range, fills a buffer of n bytes of which got are
   read, or writes a range, which succeeds or not.
   */
  datatype Event = Query(offset: nat, bytes: nat) | Fill(offset: nat, n: nat, got: nat) |
                   Write(offset: nat, buf: seq<Cell>, ok: bool)

  /** A buffer that lies past the end of a chain is filled without a request. */
  predicate IsRequest(e: Event) {
    e.Fill? ==> e.got > 0
  }

  function Requests(trace: seq<Event>): nat {
    if trace == [] then 0 else Requests(trace[..|trace| - 1]) + One(IsRequest(trace[|trace| - 1]))
  }

  /** How much of a buffer an event needs. */
  function Room(e: Event): nat {
    match e
    case Query(_, _) => 0
    case Fill(_, n, _) => n
    case Write(_, buf, _) => |buf|
  }

  function Applied(top: Layer, e: Event): Layer {
    if e.Write? && e.ok && e.offset + |e.buf| <= |top| then Written(top, e.offset, e.buf) else top
  }

  /** The image after the writes of a trace. */
  function Replay(origin: Layer, trace: seq<Event>): Layer {
    if trace == [] then origin else Applied(Replay(origin, trace[..|trace| - 1]), trace[|trace| - 1])
  }

  lemma ReplayMore(origin: Layer, trace: seq<Event>, e: Event)
    ensures Replay(origin, trace + [e]) == Applied(Replay(origin, trace), e)
    ensures Requests(trace + [e]) == Requests(trace) + One(IsRequest(e))
  {
    assert (trace + [e])[..|trace|] == trace;
  }

  /**
   Since the trace was start, the image was intact at every moment, and not written to at all if the
   two chains read the same.
   */
  ghost predicate Logged(origin: Layer, start: seq<Event>, trace: seq<Event>, was: Layer, b: Backing, align: nat) {
    && start <= trace
    && (forall k :: |start| <= k <= |trace| ==> Intact(Replay(origin, trace[..k]), was, b, align))
    && (SameBackings(b, |was|) ==> forall k :: |start| <= k < |trace| ==> !trace[k].Write?)
  }

  lemma LoggedStart(origin: Layer, trace: seq<Event>, b: Backing, align: nat)
    requires Units(Replay(origin, trace), align)
    ensures Logged(origin, trace, trace, Replay(origin, trace), b, align)
  {
    assert trace[..|trace|] == trace;
  }

  lemma LoggedMore(origin: Layer, start: seq<Event>, trace: seq<Event>, was: Layer, b: Backing, align: nat, e: Event)
    requires Logged(origin, start, trace, was, b, align)
    requires Intact(Applied(Replay(origin, trace), e), was, b, align) && (e.Write? ==> !SameBackings(b, |was|))
    ensures Logged(origin, start, trace + [e], was, b, align)
  {
    var more := trace + [e];
    ReplayMore(origin, trace, e);
    assert more[..|more|] == more && start == more[..|start|];
    forall k | |start| <= k <= |more| ensures Intact(Replay(origin, more[..k]), was, b, align) {
      if k <= |trace| {
        assert more[..k] == trace[..k];
      }
    }
  }

  lemma LoggedLast(origin: Layer, start: seq<Event>, trace: seq<Event>, was: Layer, b: Backing, align: nat)
    requires Logged(origin, start, trace, was, b, align)
    ensures Intact(Replay(origin, trace), was, b, align)
  {
    assert trace[..|trace|] == trace;
  }

  /** A write of the copying loop, whether it succeeds or not. */
  lemma WriteLogged(origin: Layer, start: seq<Event>, trace: seq<Event>, was: Layer, b: Backing, align: nat,
                    offset: nat, n: nat, written: nat, buf: seq<Cell>, ok: bool)
    requires Logged(origin, start, trace, was, b, align) && !SameBackings(b, offset + n)
    requires Copying(Replay(origin, trace), was, b, align, offset, n, written) && 0 < |buf| <= n - written
    requires |buf| < n - written ==> |buf| % align == 0
    requires Holds(buf, b.layers, b.base, offset + written)
    ensures var top := Replay(origin, trace);
            var r := if ok then Written(top, offset + written, buf) else top;
            Copying(r, was, b, align, offset, n, if ok then written + |buf| else written)
    ensures Logged(origin, start, trace + [Write(offset + written, buf, ok)], was, b, align)
  {
    WriteCopies(Replay(origin, trace), was, b, align, offset, n, written, buf);
    LoggedMore(origin, start, trace, was, b, align, Write(offset + written, buf, ok));
  }

  /** No event since the trace was start needs more than the buffer. */
  ghost predicate Fitting(start: seq<Event>, trace: seq<Event>) {
    forall k :: |start| <= k < |trace| ==> Room(trace[k]) <= IO_BUF_SIZE
  }

  lemma FittingMore(start: seq<Event>, trace: seq<Event>, e: Event)
    requires Fitting(start, trace) && Room(e) <= IO_BUF_SIZE
    ensures Fitting(start, trace + [e])
  {
  }

  /** Compares the buffers from written on; buf is what would be written. */
  method CompareChunk(b: Backing, align: nat, offset: nat, written: nat, bufOld: seq<Cell>, bufNew: seq<Cell>,
                      eof: bool)
    returns (differ: bool, pnum: nat, buf: seq<Cell>)
    requires written < |bufOld| == |bufNew| && align > 0
    requires Holds(bufOld, b.layers, b.base, offset) && Holds(bufNew, [], b.next, offset)
    requires eof ==> offset + written >= Length(b.layers, b.base)
    ensures 0 < pnum <= |bufOld| - written && (pnum < |bufOld| - written ==> pnum % align == 0)
    ensures |buf| == pnum && Holds(buf, b.layers, b.base, offset + written)
    ensures Holds(bufNew[written..written + pnum], [], b.next, offset + written)
    ensures !differ ==> buf == bufNew[written..written + pnum]
    ensures differ ==> !SameBackings(b, offset + |bufOld|)
  {
    differ, pnum := CompareBuffers(bufOld[written..], bufNew[written..], align);
    var chunkOld, chunkNew := bufOld[written..written + pnum], bufNew[written..written + pnum];
    assert chunkOld == bufOld[written..][..pnum] && chunkNew == bufNew[written..][..pnum];
    HoldsSlice(bufOld, b.layers, b.base, offset, written, written + pnum);
    HoldsSlice(bufNew, [], b.next, offset, written, written + pnum);
    buf := chunkOld;
    if differ {
      DifferentBackings(offset + |bufOld|, b, offset + written, chunkOld, chunkNew);
      if eof {
        buf := seq(pnum, _ => 0);
        HoldsZeroes(buf, b.layers, b.base, offset + written);
      }
    }
  }

  // ------------------------------------------------------------ how long a range gets

  function ExtendedEnd(align: nat, offset: nat, n: nat, size: nat): nat
    requires align > 0
  {
    Min(AlignUp(offset + n, align), size)
  }

  /** Rounding up does not pass a boundary. */
  lemma UpTo(start: nat, end: nat, align: nat, limit: nat)
    requires align > 0 && start % align == 0 && limit % align == 0 && end <= start + limit
    ensures AlignUp(end, align) <= start + limit
  {
    AlignUpIs(end, align);
    ModAdd(start, limit, align);
    if start + limit < AlignUp(end, align) {
      OneMultiple(start + limit, AlignUp(end, align), align);
    }
  }

  /** With a buffer of whole units, a range fits when extended exactly if it fits with the start of its first unit. */
  lemma ExtendedFits(align: nat, offset: nat, n: nat, size: nat)
    requires align > 0 && IO_BUF_SIZE % align == 0 && offset + n <= size
    ensures ExtendedEnd(align, offset, n, size) - AlignDown(offset, align) <= IO_BUF_SIZE <==>
              offset % align + n <= IO_BUF_SIZE
  {
    var start := AlignDown(offset, align);
    assert offset == start + offset % align;
    AlignDownIs(offset, align);
    AlignUpIs(offset + n, align);
    if offset % align + n <= IO_BUF_SIZE {
      UpTo(start, offset + n, align, IO_BUF_SIZE);
    }
  }

  /**
   A range that does not fit: the image has nothing, and the old backing chain nothing in its first
   8192 bytes.  These are passed over; the next range is as long as the buffer, and then extended back.
   */
  lemma LongRange(size: nat)
    requires size >= 2162688
    ensures var top := seq(size, _ => None);
            var layers := [seq(size, i => if i < 8192 then None else Some(1))];
            && Units(top, 65536) && Uniform(top, 8192, IO_BUF_SIZE, false)
            && Answers(layers, [], 0, 8192, Status(false, false)) &&
               Answers(layers, [], 8192, IO_BUF_SIZE, Status(true, false))
            && ExtendedEnd(65536, 8192, IO_BUF_SIZE, size) - AlignDown(8192, 65536) == 2162688 > IO_BUF_SIZE
  {
    var layers := [seq(size, i => if i < 8192 then None else Some(1))];
    assert layers[1..] == [];
    assert !Decided([], 0);
  }

  /** Where the next range starts when the statuses come in whole units. */
  lemma NextBoundary(unit: nat, offset: nat, size: nat, n: nat)
    requires unit > 0 && IO_BUF_SIZE % unit == 0 && offset % unit == 0 && n <= Min(IO_BUF_SIZE, size - offset)
    requires n < Min(IO_BUF_SIZE, size - offset) ==> (offset + n) % unit == 0 || offset + n == size
    ensures (offset + n) % unit == 0 || offset + n == size
  {
    ModAdd(offset, IO_BUF_SIZE, unit);
  }

  /** Statuses come in the units that are written, of which the buffer has a whole number. */
  ghost predicate InWholeUnits(top: Layer, b: Backing, prefix: bool, align: nat, unit: nat) {
    unit == align && Units(top, align) && IO_BUF_SIZE % align == 0 && (prefix ==> WholeUnits(b.layers, align))
  }

  ghost predicate OnBoundary(align: nat, offset: nat, size: nat) {
    align > 0 && (offset % align == 0 || offset == size)
  }

  class Image {
    const io: Oracle
    var top: Layer
    /** How many requests have been made. */
    var calls: nat
    /** The image as it was opened, and what has been done with it since. */
    ghost const origin: Layer
    ghost var trace: seq<Event>

    ghost predicate Valid()
      reads this
    {
      top == Replay(origin, trace) && calls == Requests(trace)
    }

    constructor (top: Layer, io: Oracle)
      ensures this.top == top && this.io == io && calls == 0 && origin == top && trace == [] && Valid()
    {
      this.top, this.io, this.origin := top, io, top;
      calls, trace := 0, [];
    }

    /** A request that leaves the image alone; it succeeds or not. */
    method Request(ghost e: Event) returns (ok: bool)
      requires Valid() && !e.Write? && IsRequest(e)
      modifies this`calls, this`trace
      ensures Valid() && trace == old(trace) + [e] && calls == old(calls) + 1 && ok == io(old(calls))
    {
      ReplayMore(origin, trace, e);
      ok := io(calls);
      calls, trace := calls + 1, trace + [e];
    }

    /** blk_pwrite and blk_pwrite_zeroes of a range; when it fails it has done nothing. */
    method Pwrite(offset: nat, buf: seq<Cell>) returns (ok: bool)
      requires Valid() && offset + |buf| <= |top|
      modifies this
      ensures Valid() && trace == old(trace) + [Write(offset, buf, ok)] && calls == old(calls) + 1
      ensures ok == io(old(calls)) && top == if ok then Written(old(top), offset, buf) else old(top)
    {
      ok := io(calls);
      ReplayMore(origin, trace, Write(offset, buf, ok));
      if ok {
        top := Written(top, offset, buf);
      }
      calls, trace := calls + 1, trace + [Write(offset, buf, ok)];
    }

    /** A buffer filled from a chain and zeroed past its end. */
    method Fill(layers: seq<Layer>, base: seq<Cell>, offset: nat, n: nat) returns (ok: bool, buf: seq<Cell>)
      requires Valid()
      modifies this`calls, this`trace
      ensures Valid() && calls >= old(calls) && (ok <==> AllOk(io, old(calls), calls))
      ensures trace == old(trace) + [Event.Fill(offset, n, Min(n, Max(0, Length(layers, base) - offset)))]
      ensures ok ==> |buf| == n && Holds(buf, layers, base, offset)
    {
      var got := Min(n, Max(0, Length(layers, base) - offset));
      ok := true;
      if got != 0 {
        ok := Request(Event.Fill(offset, n, got));
      } else {
        ReplayMore(origin, trace, Event.Fill(offset, n, got));
        trace := trace + [Event.Fill(offset, n, got)];
      }
      FillHolds(layers, base, offset, n, got);
      buf := Pread(layers, base, offset, got) + seq(n - got, _ => 0);
    }

    /** A run of units that all differ is written. */
    method WriteChunk(b: Backing, align: nat, offset: nat, n: nat, written: nat, buf: seq<Cell>, ghost was: Layer,
                      ghost start: seq<Event>) returns (ok: bool)
      requires Valid() && Logged(origin, start, trace, was, b, align) && !SameBackings(b, offset + n)
      requires Copying(top, was, b, align, offset, n, written) && 0 < |buf| <= n - written
      requires |buf| < n - written ==> |buf| % align == 0
      requires Holds(buf, b.layers, b.base, offset + written)
      modifies this
      ensures Valid() && calls == old(calls) + 1 && ok == io(old(calls)) && Logged(origin, start, trace, was, b, align)
      ensures n <= IO_BUF_SIZE && Fitting(start, old(trace)) ==> Fitting(start, trace)
      ensures Copying(top, was, b, align, offset, n, if ok then written + |buf| else written)
    {
      WriteLogged(origin, start, trace, was, b, align, offset, n, written, buf, io(calls));
      if n <= IO_BUF_SIZE && Fitting(start, trace) {
        FittingMore(start, trace, Write(offset + written, buf, io(calls)));
      }
      ok := Pwrite(offset + written, buf);
    }

    /** One turn of the copying loop: a run of units that all differ is written, one that matches is not. */
    method CopyChunk(b: Backing, align: nat, offset: nat, n: nat, written: nat, bufOld: seq<Cell>, bufNew: seq<Cell>,
                     eof: bool, ghost was: Layer, ghost start: seq<Event>) returns (ok: bool, pnum: nat)
      requires Valid() && Logged(origin, start, trace, was, b, align)
      requires Copying(top, was, b, align, offset, n, written) && written < n
      requires |bufOld| == |bufNew| == n && Holds(bufOld, b.layers, b.base, offset) && Holds(bufNew, [], b.next, offset)
      requires eof ==> offset + written >= Length(b.layers, b.base)
      modifies this
      ensures Valid() && calls >= old(calls) && (ok <==> AllOk(io, old(calls), calls))
      ensures Logged(origin, start, trace, was, b, align)
      ensures n <= IO_BUF_SIZE && Fitting(start, old(trace)) ==> Fitting(start, trace)
      ensures 0 < pnum <= n - written
      ensures Copying(top, was, b, align, offset, n, if ok then written + pnum else written)
    {
      var differ, buf;
      differ, pnum, buf := CompareChunk(b, align, offset, written, bufOld, bufNew, eof);
      if differ {
        ok := WriteChunk(b, align, offset, n, written, buf, was, start);
      } else {
        EqualCopies(top, was, b, align, offset, n, written, buf, bufNew[written..written + pnum]);
        ok := true;
      }
    }

    /** Fills both buffers with a range. */
    method FillBoth(b: Backing, align: nat, offset: nat, n: nat, ghost was: Layer, ghost start: seq<Event>)
      returns (ok: bool, bufOld: seq<Cell>, bufNew: seq<Cell>)
      requires Valid() && Logged(origin, start, trace, was, b, align)
      modifies this`calls, this`trace
      ensures Valid() && calls >= old(calls) && (ok <==> AllOk(io, old(calls), calls))
      ensures Logged(origin, start, trace, was, b, align)
      ensures n <= IO_BUF_SIZE && Fitting(start, old(trace)) ==> Fitting(start, trace)
      ensures ok ==> |bufOld| == |bufNew| == n
      ensures ok ==> Holds(bufOld, b.layers, b.base, offset) && Holds(bufNew, [], b.next, offset)
    {
      bufNew := [];
      ok, bufOld := FillLogged(b, align, b.layers, b.base, offset, n, was, start);
      if ok {
        ok, bufNew := FillLogged(b, align, [], b.next, offset, n, was, start);
      }
    }

    method FillLogged(ghost b: Backing, ghost align: nat, layers: seq<Layer>, base: seq<Cell>, offset: nat, n: nat,
                      ghost was: Layer, ghost start: seq<Event>) returns (ok: bool, buf: seq<Cell>)
      requires Valid() && Logged(origin, start, trace, was, b, align)
      modifies this`calls, this`trace
      ensures Valid() && calls >= old(calls) && (ok <==> AllOk(io, old(calls), calls))
      ensures Logged(origin, start, trace, was, b, align)
      ensures n <= IO_BUF_SIZE && Fitting(start, old(trace)) ==> Fitting(start, trace)
      ensures ok ==> |buf| == n && Holds(buf, layers, base, offset)
    {
      ok, buf := Fill(layers, base, offset, n);
      ghost var e := Event.Fill(offset, n, Min(n, Max(0, Length(layers, base) - offset)));
      LoggedLast(origin, start, old(trace), was, b, align);
      LoggedMore(origin, start, old(trace), was, b, align, e);
      if n <= IO_BUF_SIZE && Fitting(start, old(trace)) {
        FittingMore(start, old(trace), e);
      }
    }

    /** Copies the units of a range that differ between the chains. */
    method CopyDiffering(b: Backing, align: nat, offset: nat, n: nat, ghost was: Layer, ghost start: seq<Event>)
      returns (ok: bool)
      requires Valid() && Logged(origin, start, trace, was, b, align)
      requires Copying(top, was, b, align, offset, n, 0) && n > 0
      modifies this
      ensures Valid() && calls >= old(calls) && (ok <==> AllOk(io, old(calls), calls))
      ensures Logged(origin, start, trace, was, b, align)
      ensures n <= IO_BUF_SIZE && Fitting(start, old(trace)) ==> Fitting(start, trace)
      ensures ok ==> AllFree(top, b.layers, b.base, b.next, 0, offset + n)
    {
      var oldSize := Length(b.layers, b.base);
      var bufOld, bufNew;
      ok, bufOld, bufNew := FillBoth(b, align, offset, n, was, start);
      if !ok {
        return;
      }
      var eof := offset >= oldSize;
      var written := 0;
      while written < n
        invariant Valid() && Logged(origin, start, trace, was, b, align)
        invariant n <= IO_BUF_SIZE && Fitting(start, old(trace)) ==> Fitting(start, trace)
        invariant Copying(top, was, b, align, offset, n, written)
        invariant eof ==> offset + written >= oldSize
        invariant calls >= old(calls) && ok && AllOk(io, old(calls), calls)
      {
        var pnum;
        ok, pnum := CopyChunk(b, align, offset, n, written, bufOld, bufNew, eof, was, start);
        if !ok {
          return;
        }
        written := written + pnum;
        if offset + written >= oldSize {
          eof := true;
        }
      }
    }

    /** bdrv_is_allocated or bdrv_is_allocated_above */
    method Ask(offset: nat, bytes: nat, ghost b: Backing, ghost align: nat, ghost was: Layer, ghost start: seq<Event>)
      returns (ok: bool)
      requires Valid() && Logged(origin, start, trace, was, b, align)
      modifies this`calls, this`trace
      ensures Valid() && calls == old(calls) + 1 && ok == io(old(calls)) && Logged(origin, start, trace, was, b, align)
      ensures Fitting(start, old(trace)) ==> Fitting(start, trace)
    {
      LoggedLast(origin, start, trace, was, b, align);
      LoggedMore(origin, start, trace, was, b, align, Query(offset, bytes));
      if Fitting(start, trace) {
        FittingMore(start, trace, Query(offset, bytes));
      }
      ok := Request(Query(offset, bytes));
    }

    /**
     The part of an iteration that decides: whether the next n bytes are to be compared, or can be
     passed over.  Where the chains have whole units, the range ends at one or with the image.
     */
    method NextRange(b: Backing, prefix: bool, offset: nat, unit: nat, ghost align: nat, ghost was: Layer,
                     ghost start: seq<Event>) returns (ok: bool, copy: bool, n: nat)
      requires Valid() && Logged(origin, start, trace, was, b, align)
      requires offset < |top| && (prefix ==> b.next == b.base) && AllFree(top, b.layers, b.base, b.next, 0, offset) &&
               unit > 0
      modifies this`calls, this`trace
      ensures Valid() && calls >= old(calls) && (ok <==> AllOk(io, old(calls), calls))
      ensures Logged(origin, start, trace, was, b, align) && (Fitting(start, old(trace)) ==> Fitting(start, trace))
      ensures ok ==> 0 < n <= Min(IO_BUF_SIZE, |top| - offset)
      ensures ok && copy ==> Uniform(top, offset, n, false)
      ensures ok && !copy ==> AllFree(top, b.layers, b.base, b.next, 0, offset + n)
      ensures ok && Units(top, unit) && (prefix ==> WholeUnits(b.layers, unit)) &&
              n < Min(IO_BUF_SIZE, |top| - offset) ==>
                (offset + n) % unit == 0 || offset + n == |top|
    {
      copy, n := false, 0;
      ok := Ask(offset, Min(IO_BUF_SIZE, |top| - offset), b, align, was, start);
      if !ok {
        return;
      }
      var s;
      s, n := DoBlockStatus([top] + b.layers, b.base, offset, Min(IO_BUF_SIZE, |top| - offset), unit);
      if s.alloc {
        SkipAllocated(top, b, offset, n);
        return;
      }
      if prefix {
        var bytes := n;
        ok := Ask(offset, n, b, align, was, start);
        if !ok {
          return;
        }
        s, n := StatusAbove(b.layers, b.base, offset, n, unit);
        if !s.alloc && n > 0 {
          SkipUnchanged(top, b, offset, n, s);
          return;
        }
        if n == 0 {
          n := bytes;
        }
      }
      copy := true;
    }

    /** The extension to unit boundaries, which moves the offset back. */
    method Extend(align: nat, offset: nat, n: nat) returns (start: nat, len: nat)
      requires Units(top, align) && n > 0 && Uniform(top, offset, n, false)
      ensures start <= offset && offset + n <= start + len && Uniform(top, start, len, false)
      ensures start % align == 0 && ((start + len) % align == 0 || start + len == |top|)
      ensures IO_BUF_SIZE % align == 0 ==> (len <= IO_BUF_SIZE <==> offset % align + n <= IO_BUF_SIZE)
    {
      ExtendUnallocated(top, align, offset, n);
      AlignDownIs(offset, align);
      AlignUpIs(offset + n, align);
      if IO_BUF_SIZE % align == 0 {
        ExtendedFits(align, offset, n, |top|);
      }
      len := n + offset - AlignDown(offset, align);
      start := AlignDown(offset, align);
      len := len + AlignUp(start + len, align) - (start + len);
      len := Min(len, |top| - start);
    }

    /** One iteration: a range is passed over, or extended and copied where the chains differ. */
    method RebaseRange(b: Backing, prefix: bool, align: nat, unit: nat, offset: nat, ghost was: Layer,
                       ghost start: seq<Event>)
      returns (ok: bool, offset': nat)
      requires Valid() && Logged(origin, start, trace, was, b, align)
      requires offset < |top| && (prefix ==> b.next == b.base) && AllFree(top, b.layers, b.base, b.next, 0, offset) &&
               unit > 0
      modifies this
      ensures Valid() && calls >= old(calls) && (ok <==> AllOk(io, old(calls), calls))
      ensures Logged(origin, start, trace, was, b, align) && |top| == old(|top|)
      ensures ok ==> AllFree(top, b.layers, b.base, b.next, 0, offset') && offset < offset'
      ensures InWholeUnits(was, b, prefix, align, unit) && OnBoundary(align, offset, |top|) &&
              Fitting(start, old(trace)) ==>
                Fitting(start, trace) && (ok ==> OnBoundary(align, offset', |top|))
    {
      var copy, n;
      offset' := offset;
      LoggedLast(origin, start, trace, was, b, align);
      ok, copy, n := NextRange(b, prefix, offset, unit, align, was, start);
      if !ok {
        return;
      }
      if InWholeUnits(was, b, prefix, align, unit) && OnBoundary(align, offset, |top|) {
        NextBoundary(align, offset, |top|, n);
      }
      if copy {
        offset', n := Extend(align, offset, n);
        ok := CopyDiffering(b, align, offset', n, was, start);
        LoggedLast(origin, start, trace, was, b, align);
        if !ok {
          return;
        }
      }
      offset' := offset' + n;
    }

    /**
     The loop of img_rebase, which fails exactly when a request does.  When the new backing file is in
     the old backing chain, prefix is set and the layers are those above it.  At every moment of the run
     the image is intact.  If statuses come in units of unit bytes and these are the units that are
     written, nothing needs more than the buffer.
     */
    method Rebase(b: Backing, prefix: bool, align: nat, unit: nat) returns (ok: bool)
      requires Valid() && Units(top, align) && (prefix ==> b.next == b.base) && unit > 0
      modifies this
      ensures Valid() && calls >= old(calls) && (ok <==> AllOk(io, old(calls), calls))
      ensures Logged(origin, old(trace), trace, old(top), b, align) && Intact(top, old(top), b, align)
      ensures ok ==> forall i :: 0 <= i < |top| ==> Over(top, [], b.next, i) == Over(old(top), b.layers, b.base, i)
      ensures InWholeUnits(old(top), b, prefix, align, unit) ==> Fitting(old(trace), trace)
    {
      ghost var was, start := top, trace;
      LoggedStart(origin, trace, b, align);
      var size, offset := |top|, 0;
      ok := true;
      while offset < size
        invariant Valid() && Logged(origin, start, trace, was, b, align)
        invariant size == |top| && AllFree(top, b.layers, b.base, b.next, 0, offset)
        invariant calls >= old(calls) && ok && AllOk(io, old(calls), calls)
        invariant InWholeUnits(was, b, prefix, align, unit) ==> Fitting(start, trace) && OnBoundary(align, offset, size)
      {
        ok, offset := RebaseRange(b, prefix, align, unit, offset, was, start);
        LoggedLast(origin, start, trace, was, b, align);
        if !ok {
          return;
        }
      }
      LoggedLast(origin, start, trace, was, b, align);
      FreeReadsSame(top, was, b.layers, b.base, b.next);
    }
  }
}
