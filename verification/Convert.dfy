/**
 qemu-img convert, in sectors: the sources are read as one concatenated image, and what the
 target does not read already is written to it.  Ranges that are known to be zero, or to be
 in the target's backing file, are left out where the target allows that.
 */
module Convert {
  import opened Alignment
  import opened Options
  import opened Images
  import opened Buffers

  // ------------------------------------------------------------ runs of zero sectors

  /** The first run sectors are all zero or all nonzero, and no more are. */
  ghost predicate IsRun(buf: seq<Cell>, run: nat) {
    && 1 <= run <= |buf| && (run < |buf| ==> (buf[run] == 0) != (buf[0] == 0))
    && forall k :: 0 <= k < run ==> (buf[k] == 0 <==> buf[0] == 0)
  }

  /**
   How the end of a run is rounded to the alignment: data up to the next boundary, zeroes down to
   the last one; zeroes that have no boundary in them count as data.
   */
  ghost predicate Rounded(buf: seq<Cell>, run: nat, sectorNum: nat, alignment: nat, ret: bool, pnum: nat)
    requires |buf| > 0 && alignment > 0
  {
    var tail := (sectorNum + run) % alignment;
    if run == |buf| then ret == (buf[0] != 0) && pnum == run
    else
      && (ret <==> buf[0] != 0 || run <= tail)
      && (ret ==> run <= pnum < run + alignment && (pnum == |buf| || (sectorNum + pnum) % alignment == 0))
      && (!ret ==> pnum <= run < pnum + alignment && (sectorNum + pnum) % alignment == 0)
  }

  lemma TailBoundaries(x: nat, m: nat)
    requires m > 0
    ensures (x - x % m) % m == 0 && (x + m - x % m) % m == 0
  {
    assert x - x % m == x / m * m;
    assert x + m - x % m == (x / m + 1) * m;
    DivAdd(m, x / m, 0);
    DivAdd(m, x / m + 1, 0);
  }

  /** is_allocated_sectors; alignment is a power of two, so masking with it is a remainder. */
  method IsAllocatedSectors(buf: seq<Cell>, sectorNum: nat, alignment: nat)
    returns (ret: bool, pnum: nat, ghost run: nat)
    requires alignment > 0
    ensures |buf| == 0 ==> !ret && pnum == 0
    ensures |buf| > 0 ==> 1 <= pnum <= |buf| && IsRun(buf, run) && Rounded(buf, run, sectorNum, alignment, ret, pnum)
    ensures !ret ==> IsZero(buf[..pnum])
  {
    var n := |buf|;
    if n == 0 {
      return false, 0, 0;
    }
    var isZero := buf[0] == 0;
    var i := 1;
    while i < n && isZero == (buf[i] == 0)
      invariant 1 <= i <= n && forall k :: 0 <= k < i ==> (buf[k] == 0 <==> isZero)
    {
      i := i + 1;
    }
    run := i;
    if i == n {
      return !isZero, i, run;
    }
    var tail := (sectorNum + i) % alignment;
    TailBoundaries(sectorNum + i, alignment);
    if tail != 0 {
      if isZero && i <= tail {
        isZero := false;
      }
      if !isZero {
        i := Min(i + alignment - tail, n);
      } else {
        i := i - tail;
      }
    }
    return !isZero, i, run;
  }

  /**
   The comment of is_allocated_sectors promises true exactly when the first sector is not zero.  That
   is so unless a run of zeroes ends before the first boundary, as one zero sector before data does.
   */
  lemma ShortZeroRunIsData(ret: bool, pnum: nat)
    requires Rounded([0, 1], 1, 0, 4, ret, pnum)
    ensures IsRun([0, 1], 1) && ret
  {
  }

  lemma MoreZeroes(buf: seq<Cell>, from: nat, to: nat, n: nat)
    requires from <= to <= |buf| && n <= |buf| - to && IsZero(buf[to..][..n])
    requires forall k :: from <= k < to ==> buf[k] == 0
    ensures forall k :: from <= k < to + n ==> buf[k] == 0
  {
    forall k | to <= k < to + n ensures buf[k] == 0 {
      assert buf[to..][..n][k - to] == buf[k];
    }
  }

  /**
   is_allocated_sectors_min: what it calls unused is all zero, it makes progress, and data is split only
   before min zero sectors, or before zeroes up to the end of the buffer.
   */
  method IsAllocatedSectorsMin(buf: seq<Cell>, min: nat, sectorNum: nat, alignment: nat) returns (ret: bool, pnum: nat)
    requires alignment > 0
    ensures |buf| > 0 ==> 1 <= pnum
    ensures pnum <= |buf| && (!ret ==> IsZero(buf[..pnum]))
    ensures ret && pnum < |buf| ==> buf[pnum] == 0 && IsZero(buf[pnum..Min(pnum + min, |buf|)])
  {
    var least := Min(|buf|, min);
    ghost var run;
    ret, pnum, run := IsAllocatedSectors(buf, sectorNum, alignment);
    if !ret {
      return;
    }
    var used, checked := pnum, pnum;
    while checked < |buf|
      invariant 0 < used <= checked <= |buf| && forall k :: used <= k < checked ==> buf[k] == 0
    {
      assert buf[checked..][0] == buf[checked];
      var used', pnum';
      used', pnum', run := IsAllocatedSectors(buf[checked..], sectorNum + checked, alignment);
      if !used' {
        MoreZeroes(buf, used, checked, pnum');
      }
      checked := checked + pnum';
      if used' {
        used := checked;
      } else if pnum' >= least {
        break;
      }
    }
    return true, used;
  }

  // ------------------------------------------------------------ the sources

  /** A source: the layers whose allocation counts, what is below them, and the alignment for requests. */
  datatype Source = Source(layers: seq<Layer>, base: seq<Cell>, alignment: nat)

  function Sectors(s: Source): nat {
    Length(s.layers, s.base)
  }

  function TotalSectors(sources: seq<Source>): nat {
    if sources == [] then 0 else Sectors(sources[0]) + TotalSectors(sources[1..])
  }

  /** The concatenation of the sources. */
  function SourceAt(sources: seq<Source>, i: nat): Cell {
    if sources == [] then 0
    else if i < Sectors(sources[0]) then ReadAt(sources[0].layers, sources[0].base, i)
    else SourceAt(sources[1..], i - Sectors(sources[0]))
  }

  /** From offset on, the concatenation is that of the sources from cur on. */
  ghost predicate Selected(sources: seq<Source>, cur: nat, offset: nat) {
    && cur <= |sources| && TotalSectors(sources) == offset + TotalSectors(sources[cur..])
    && forall i :: i >= offset ==> SourceAt(sources, i) == SourceAt(sources[cur..], i - offset)
  }

  lemma SelectNext(sources: seq<Source>, cur: nat, offset: nat)
    requires cur < |sources| && Selected(sources, cur, offset)
    ensures Selected(sources, cur + 1, offset + Sectors(sources[cur]))
  {
  }

  lemma PartReads(sources: seq<Source>, cur: nat, offset: nat, i: nat)
    requires cur < |sources| && Selected(sources, cur, offset) && offset <= i < offset + Sectors(sources[cur])
    ensures offset + Sectors(sources[cur]) <= TotalSectors(sources)
    ensures SourceAt(sources, i) == ReadAt(sources[cur].layers, sources[cur].base, i - offset)
  {
  }

  /** convert_select_part: the source with the sector, and where it starts. */
  method SelectPart(sources: seq<Source>, sectorNum: nat) returns (cur: nat, offset: nat)
    requires sectorNum < TotalSectors(sources)
    ensures cur < |sources| && offset <= sectorNum < offset + Sectors(sources[cur]) <= TotalSectors(sources)
    ensures Selected(sources, cur, offset)
  {
    cur, offset := 0, 0;
    assert sources[0..] == sources;
    while sectorNum - offset >= Sectors(sources[cur])
      invariant cur < |sources| && offset <= sectorNum && Selected(sources, cur, offset)
      decreases |sources| - cur
    {
      SelectNext(sources, cur, offset);
      offset, cur := offset + Sectors(sources[cur]), cur + 1;
      assert sources[|sources|..] == [];
    }
    PartReads(sources, cur, offset, sectorNum);
  }

  // ------------------------------------------------------------ the conversion

  const REQUEST_MAX_SECTORS: nat := 0x7fffffff / 512

  datatype BlockStatus = Data | Zero | BackingFile

  /**
   The settings.  backing is what the target's backing file reads, [] without one;
   backingSectors is its length when that is known.
   */
  datatype Config = Config(
    sources: seq<Source>,
    hasBacking: bool, backing: seq<Cell>, backingSectors: Option<nat>,
    hasZeroInit: bool, compressed: bool, minSparse: nat,
    alignment: nat, clusterSectors: nat, bufSectors: nat)
  {
    /**
     What img_convert sees to before: only a single source is converted to a target with a backing
     file, and its own backing file reads the same; without one, all layers of the sources count.
     */
    ghost predicate Sound() {
      && alignment > 0 && bufSectors > 0 && (forall s :: s in sources ==> s.alignment > 0 && s.layers != [])
      && (hasZeroInit ==> !hasBacking)
      && (backingSectors.Some? ==> hasBacking && backingSectors.value == |backing|)
      && (hasBacking ==> |sources| == 1 && forall i: nat :: At(sources[0].base, i) == At(backing, i))
      && (!hasBacking ==> backing == [] && forall s :: s in sources ==> s.base == [])
    }

    /** The settings as convert_do_copy leaves them: compressed images are copied by clusters. */
    ghost predicate Valid() {
      Sound() && (compressed ==> clusterSectors == bufSectors)
    }

    function Size(): nat { TotalSectors(sources) }

    function Want(i: nat): Cell { SourceAt(sources, i) }

    /** What the target reads at a sector. */
    function Reads(target: Layer, i: nat): Cell
      requires i < |target|
    {
      Over(target, [], backing, i)
    }

    /** What the status says of the sectors in a range. */
    ghost predicate StatusHolds(status: BlockStatus, from: nat, to: nat) {
      match status
      case Data => true
      case Zero => forall i :: from <= i < to ==> Want(i) == 0
      case BackingFile => (from < to ==> hasBacking) && forall i :: from <= i < to ==> Want(i) == At(backing, i)
    }

    /** The target as it was created, in a range: zero if it is initialised so, its backing file if it has one. */
    ghost predicate Untouched(target: Layer, from: nat, to: nat) {
      && to <= |target|
      && (hasZeroInit ==> forall i :: from <= i < to ==> Reads(target, i) == 0)
      && (hasBacking ==> forall i :: from <= i < to ==> Reads(target, i) == At(backing, i))
    }

    ghost predicate Copied(target: Layer, from: nat, to: nat) {
      to <= |target| && forall i :: from <= i < to ==> Reads(target, i) == Want(i)
    }
  }

  /** Nothing outside the range is different. */
  ghost predicate SameOutside(a: Layer, b: Layer, from: nat, to: nat) {
    |a| == |b| && forall i :: 0 <= i < |a| && !(from <= i < to) ==> a[i] == b[i]
  }

  /** The status of a block as convert_iteration_sectors derives it. */
  function StatusOf(c: Config, s: Status, postBackingZero: bool): BlockStatus {
    if s.zero then (if postBackingZero then BackingFile else Zero)
    else if s.alloc then Data
    else if c.hasBacking then BackingFile else Data
  }

  lemma StatusIsRight(c: Config, cur: nat, offset: nat, sector: nat, n: nat, s: Status, postBackingZero: bool)
    requires c.Valid() && cur < |c.sources| && Selected(c.sources, cur, offset) && offset <= sector && n > 0
    requires sector - offset + n <= Sectors(c.sources[cur])
    requires Answers(c.sources[cur].layers, c.sources[cur].base, sector - offset, n, s)
    requires postBackingZero ==> c.backingSectors.Some? && sector >= c.backingSectors.value
    ensures c.StatusHolds(StatusOf(c, s, postBackingZero), sector, sector + n)
  {
    var src := c.sources[cur];
    forall i | sector <= i < sector + n
      ensures s.zero ==> c.Want(i) == 0
      ensures !s.zero && !s.alloc && c.hasBacking ==> c.Want(i) == At(c.backing, i)
    {
      PartReads(c.sources, cur, offset, i);
      if !s.zero && !s.alloc && c.hasBacking {
        assert !AllocatedAbove(src.layers, i - offset);
        UnallocatedReadsBase(src.layers, src.base, i - offset);
        assert c.sources == [src];
        SingleSource(c.sources, cur, offset);
      }
    }
  }

  lemma SingleSource(sources: seq<Source>, cur: nat, offset: nat)
    requires |sources| == 1 && cur < |sources| && Selected(sources, cur, offset)
    ensures offset == 0
  {
  }

  lemma StatusLess(c: Config, status: BlockStatus, from: nat, to: nat, from': nat, to': nat)
    requires c.StatusHolds(status, from, to) && from <= from' && to' <= to
    ensures c.StatusHolds(status, from', to')
  {
  }

  /** A buffer with what the target should read from a sector on. */
  ghost predicate Wanted(c: Config, buf: seq<Cell>, sector: nat) {
    forall i :: 0 <= i < |buf| ==> buf[i] == c.Want(sector + i)
  }

  /** convert_co_read: reads on into the next source where one ends. */
  method CoRead(c: Config, sectorNum: nat, nbSectors: nat, io: Oracle, calls: nat)
    returns (ok: bool, buf: seq<Cell>, calls': nat)
    requires c.Valid() && sectorNum + nbSectors <= c.Size()
    ensures calls <= calls' && (ok <==> AllOk(io, calls, calls'))
    ensures ok ==> |buf| == nbSectors && Wanted(c, buf, sectorNum)
  {
    buf, calls' := [], calls;
    while |buf| < nbSectors
      invariant |buf| <= nbSectors && Wanted(c, buf, sectorNum) && calls <= calls' && AllOk(io, calls, calls')
      decreases nbSectors - |buf|
    {
      var at := sectorNum + |buf|;
      var cur, offset := SelectPart(c.sources, at);
      var src := c.sources[cur];
      var n := Min(nbSectors - |buf|, Sectors(src) - (at - offset));
      var part := Pread(src.layers, src.base, at - offset, n);
      calls' := calls' + 1;
      if !io(calls' - 1) {
        return false, buf, calls';
      }
      ReadOn(c, sectorNum, buf, cur, offset, part);
      buf := buf + part;
    }
    ok := true;
  }

  lemma ReadOn(c: Config, sectorNum: nat, buf: seq<Cell>, cur: nat, offset: nat, part: seq<Cell>)
    requires Wanted(c, buf, sectorNum) && cur < |c.sources| && Selected(c.sources, cur, offset)
    requires offset <= sectorNum + |buf| && sectorNum + |buf| - offset + |part| <= Sectors(c.sources[cur])
    requires Holds(part, c.sources[cur].layers, c.sources[cur].base, sectorNum + |buf| - offset)
    ensures Wanted(c, buf + part, sectorNum)
  {
  }

  /** A write of the wanted sectors. */
  lemma WriteCopies(c: Config, target: Layer, sector: nat, buf: seq<Cell>)
    requires Wanted(c, buf, sector) && sector + |buf| <= |target|
    ensures c.Copied(Written(target, sector, buf), sector, sector + |buf|)
    ensures SameOutside(Written(target, sector, buf), target, sector, sector + |buf|)
  {
  }

  lemma ZeroesWanted(c: Config, buf: seq<Cell>, sector: nat)
    requires IsZero(buf) && c.StatusHolds(Zero, sector, sector + |buf|)
    ensures Wanted(c, buf, sector)
  {
  }

  /** Sectors of which the target already reads the right content. */
  lemma AlreadyCopied(c: Config, target: Layer, from: nat, to: nat, status: BlockStatus)
    requires c.Untouched(target, from, to) && c.StatusHolds(status, from, to)
    requires status.BackingFile? || (status.Zero? && c.hasZeroInit)
    ensures c.Copied(target, from, to)
  {
  }

  lemma DataIsZero(c: Config, buf: seq<Cell>, sector: nat, n: nat)
    requires Wanted(c, buf, sector) && n <= |buf| && IsZero(buf[..n])
    ensures c.StatusHolds(Zero, sector, sector + n)
  {
    forall i | sector <= i < sector + n ensures c.Want(i) == 0 {
      assert buf[i - sector] == c.Want(sector + (i - sector));
      assert buf[..n][i - sector] == 0;
    }
  }

  lemma WantedPart(c: Config, buf: seq<Cell>, sector: nat, from: nat, to: nat)
    requires Wanted(c, buf, sector) && from <= to <= |buf|
    ensures Wanted(c, buf[from..to], sector + from)
  {
  }

  /** What has been copied stays so when later sectors are. */
  lemma CopiedOn(c: Config, was: Layer, before: Layer, after: Layer, start: nat, from: nat, to: nat)
    requires c.Copied(before, start, from) && SameOutside(before, was, start, from) && start <= from <= to
    requires c.Copied(after, from, to) && SameOutside(after, before, from, to)
    ensures c.Copied(after, start, to) && SameOutside(after, was, start, to)
  {
  }

  lemma UntouchedRest(c: Config, was: Layer, target: Layer, start: nat, from: nat, to: nat)
    requires c.Untouched(was, start, to) && SameOutside(target, was, start, from) && start <= from <= to
    ensures c.Untouched(target, from, to)
  {
    forall i | from <= i < to ensures c.Reads(target, i) == c.Reads(was, i) {
      assert target[i] == was[i];
    }
  }

  lemma AlignDownPositive(n: nat, m: nat)
    requires 0 < m <= n
    ensures 0 < AlignDown(n, m) <= n
  {
  }

  /** Claiming fewer sectors leaves the status right for the others. */
  lemma ClaimLess(c: Config, status: BlockStatus, sector: nat, n: nat, n': nat, next: nat)
    requires c.StatusHolds(status, sector, sector + n) && c.StatusHolds(status, sector + n, next) && n' <= n
    ensures c.StatusHolds(status, sector, sector + n') && c.StatusHolds(status, sector + n', next)
  {
  }

  class Converter {
    const c: Config
    const io: Oracle
    /** How many requests have been made. */
    var calls: nat
    var target: Layer
    var status: BlockStatus
    var sectorNextStatus: nat

    constructor (c: Config, target: Layer, io: Oracle)
      ensures this.c == c && this.target == target && this.io == io && calls == 0 && sectorNextStatus == 0
    {
      this.c, this.target, this.io := c, target, io;
      calls, status, sectorNextStatus := 0, Data, 0;
    }

    /** The requests made since from have all succeeded, exactly if ok. */
    ghost predicate Went(ok: bool, from: nat)
      reads this`calls
    {
      from <= calls && (ok <==> AllOk(io, from, calls))
    }

    /** blk_co_pwrite and blk_co_pwrite_zeroes; when it fails it has done nothing. */
    method Pwrite(sector: nat, buf: seq<Cell>) returns (ok: bool)
      requires sector + |buf| <= |target|
      modifies this`target, this`calls
      ensures calls == old(calls) + 1 && ok == io(old(calls))
      ensures target == if ok then Written(old(target), sector, buf) else old(target)
    {
      ok := io(calls);
      calls := calls + 1;
      if ok {
        target := Written(target, sector, buf);
      }
    }

    /** The part of convert_iteration_sectors that asks the source for the next status. */
    method QueryStatus(sectorNum: nat, bytes: nat, postBackingZero: bool) returns (ok: bool)
      requires c.Valid() && sectorNum < c.Size() && 0 < bytes
      requires postBackingZero ==> c.backingSectors.Some? && sectorNum >= c.backingSectors.value
      modifies this`status, this`sectorNextStatus, this`calls
      ensures calls == old(calls) + 1 && ok == io(old(calls))
      ensures ok ==> sectorNum < sectorNextStatus <= c.Size() && c.StatusHolds(status, sectorNum, sectorNextStatus)
    {
      var cur, offset := SelectPart(c.sources, sectorNum);
      var src := c.sources[cur];
      ok := io(calls);
      calls := calls + 1;
      if !ok {
        return;
      }
      var s, n := StatusAbove(src.layers, src.base, sectorNum - offset, bytes, 1);
      StatusIsRight(c, cur, offset, sectorNum, n, s, postBackingZero);
      var tail := (sectorNum - offset + n) % src.alignment;
      status := StatusOf(c, s, postBackingZero);
      sectorNextStatus := sectorNum + if n > tail then n - tail else n;
      StatusLess(c, status, sectorNum, sectorNum + n, sectorNum, sectorNextStatus);
    }

    /** convert_iteration_sectors: how many sectors from sectorNum on are to be treated alike, and how. */
    method IterationSectors(sectorNum: nat) returns (ok: bool, n: nat)
      requires c.Valid() && sectorNum < c.Size() && c.StatusHolds(status, sectorNum, sectorNextStatus)
      modifies this`status, this`sectorNextStatus, this`calls
      ensures Went(ok, old(calls))
      ensures ok ==> 0 < n <= c.Size() - sectorNum && (status.Data? ==> n <= c.bufSectors)
      ensures ok ==> c.StatusHolds(status, sectorNum, sectorNum + n)
      ensures ok ==> c.StatusHolds(status, sectorNum + n, sectorNextStatus)
    {
      n := Min(c.Size() - sectorNum, REQUEST_MAX_SECTORS);
      var postBackingZero := false;
      if c.backingSectors.Some? {
        if sectorNum >= c.backingSectors.value {
          postBackingZero := true;
        } else if sectorNum + n > c.backingSectors.value {
          n := c.backingSectors.value - sectorNum;
        }
      }
      if sectorNextStatus <= sectorNum {
        ok := QueryStatus(sectorNum, n, postBackingZero);
        if !ok {
          return;
        }
        n := sectorNextStatus - sectorNum;
      }
      n := Min(n, sectorNextStatus - sectorNum);
      if status.Data? {
        n := Min(n, c.bufSectors);
      }
      if c.compressed {
        if n < c.clusterSectors {
          n := Min(c.clusterSectors, c.Size() - sectorNum);
          status := Data;
        } else {
          AlignDownPositive(n, c.clusterSectors);
          n := AlignDown(n, c.clusterSectors);
        }
      }
      ok := true;
    }

    /** Whether the next sectors of a buffer are to be written, and how many at once; the others read as zero. */
    method FindUsed(sectorNum: nat, rest: seq<Cell>) returns (used: bool, n: nat)
      requires c.Valid() && 0 < |rest| && Wanted(c, rest, sectorNum)
      ensures 0 < n <= |rest| && (!used ==> c.StatusHolds(Zero, sectorNum, sectorNum + n))
    {
      used, n := true, |rest|;
      if c.minSparse != 0 {
        if c.compressed {
          used := !IsZero(rest);
        } else {
          used, n := IsAllocatedSectorsMin(rest, c.minSparse, sectorNum, c.alignment);
        }
        if !used {
          assert rest[..|rest|] == rest;
          DataIsZero(c, rest, sectorNum, n);
        }
      }
    }

    /** The write that leaves the right content in a range. */
    method WriteBuffer(sectorNum: nat, buf: seq<Cell>) returns (ok: bool)
      requires Wanted(c, buf, sectorNum) && sectorNum + |buf| <= |target|
      modifies this`target, this`calls
      ensures Went(ok, old(calls)) && SameOutside(target, old(target), sectorNum, sectorNum + |buf|)
      ensures ok ==> c.Copied(target, sectorNum, sectorNum + |buf|)
    {
      WriteCopies(c, target, sectorNum, buf);
      ok := Pwrite(sectorNum, buf);
    }

    /** One write of convert_co_write, for the sectors rest of the buffer. */
    method WriteSome(sectorNum: nat, nbSectors: nat, rest: seq<Cell>, status: BlockStatus) returns (ok: bool, n: nat)
      requires c.Valid() && 0 < nbSectors && c.Untouched(target, sectorNum, sectorNum + nbSectors)
      requires c.StatusHolds(status, sectorNum, sectorNum + nbSectors)
      requires status.Data? ==> |rest| == nbSectors && Wanted(c, rest, sectorNum)
      modifies this`target, this`calls
      ensures Went(ok, old(calls))
      ensures 0 < n <= nbSectors && SameOutside(target, old(target), sectorNum, sectorNum + n)
      ensures ok ==> c.Copied(target, sectorNum, sectorNum + n)
    {
      n := nbSectors;
      var asZero := status.Zero?;
      if status.Data? {
        var used;
        used, n := FindUsed(sectorNum, rest);
        if used {
          WantedPart(c, rest, sectorNum, 0, n);
          ok := WriteBuffer(sectorNum, rest[0..n]);
          return;
        }
        asZero := true;
      }
      if asZero && !c.hasZeroInit {
        var zeroes := seq(n, _ => 0);
        ZeroesWanted(c, zeroes, sectorNum);
        ok := WriteBuffer(sectorNum, zeroes);
      } else {
        AlreadyCopied(c, target, sectorNum, sectorNum + n, if asZero then Zero else status);
        ok := true;
      }
    }

    /** convert_co_write */
    method CoWrite(sectorNum: nat, nbSectors: nat, buf: seq<Cell>, status: BlockStatus) returns (ok: bool)
      requires c.Valid() && c.Untouched(target, sectorNum, sectorNum + nbSectors)
      requires c.StatusHolds(status, sectorNum, sectorNum + nbSectors)
      requires status.Data? ==> |buf| == nbSectors && Wanted(c, buf, sectorNum)
      modifies this`target, this`calls
      ensures Went(ok, old(calls))
      ensures SameOutside(target, old(target), sectorNum, sectorNum + nbSectors)
      ensures ok ==> c.Copied(target, sectorNum, sectorNum + nbSectors)
    {
      ghost var was := target;
      var done := 0;
      ok := true;
      while done < nbSectors
        invariant done <= nbSectors && ok && Went(true, old(calls))
        invariant c.Copied(target, sectorNum, sectorNum + done) && SameOutside(target, was, sectorNum, sectorNum + done)
      {
        ghost var before := target;
        UntouchedRest(c, was, target, sectorNum, sectorNum + done, sectorNum + nbSectors);
        StatusLess(c, status, sectorNum, sectorNum + nbSectors, sectorNum + done, sectorNum + nbSectors);
        if status.Data? {
          WantedPart(c, buf, sectorNum, done, nbSectors);
        }
        var n;
        ok, n := WriteSome(sectorNum + done, nbSectors - done, if status.Data? then buf[done..nbSectors] else [],
                           status);
        if !ok {
          return;
        }
        CopiedOn(c, was, before, target, sectorNum, sectorNum + done, sectorNum + done + n);
        done := done + n;
      }
    }

    /** What convert_co_do_copy does with a range it has claimed. */
    method CopyClaimed(sectorNum: nat, n: nat, claimed: BlockStatus) returns (ok: bool)
      requires c.Valid() && sectorNum + n <= c.Size() && c.Untouched(target, sectorNum, sectorNum + n)
      requires c.StatusHolds(claimed, sectorNum, sectorNum + n)
      modifies this`target, this`calls
      ensures Went(ok, old(calls))
      ensures SameOutside(target, old(target), sectorNum, sectorNum + n)
      ensures ok ==> c.Copied(target, sectorNum, sectorNum + n)
    {
      var status, buf := claimed, [];
      if status.Data? {
        ok, buf, calls := CoRead(c, sectorNum, n, io, calls);
        if !ok {
          return;
        }
      } else if c.minSparse == 0 && status.Zero? {
        status, buf := Data, seq(n, _ => 0);
        ZeroesWanted(c, buf, sectorNum);
      }
      ok := CoWrite(sectorNum, n, buf, status);
    }

    /** The first pass of convert_do_copy, which only adds up what there is to do. */
    method CountSectors() returns (ok: bool)
      requires c.Valid()
      modifies this`status, this`sectorNextStatus, this`calls
      ensures Went(ok, old(calls))
    {
      var sectorNum, n := 0, 0;
      sectorNextStatus := 0;
      ok := true;
      while sectorNum < c.Size()
        invariant sectorNum <= c.Size() && c.StatusHolds(status, sectorNum, sectorNextStatus) && ok &&
                  Went(true, old(calls))
      {
        ok, n := IterationSectors(sectorNum);
        if !ok {
          return;
        }
        sectorNum := sectorNum + n;
      }
    }

    /** What convert_co_do_copy claims next, and copies. */
    method CopyNext(sectorNum: nat) returns (ok: bool, n: nat)
      requires c.Valid() && sectorNum < c.Size() && c.StatusHolds(status, sectorNum, sectorNextStatus)
      requires c.Untouched(target, sectorNum, c.Size())
      modifies this
      ensures Went(ok, old(calls)) && n <= c.Size() - sectorNum &&
              SameOutside(target, old(target), sectorNum, sectorNum + n)
      ensures ok ==> 0 < n && c.Copied(target, sectorNum, sectorNum + n)
      ensures ok ==> c.StatusHolds(status, sectorNum + n, sectorNextStatus)
    {
      ok, n := IterationSectors(sectorNum);
      if !ok {
        n := 0;
        return;
      }
      var n' := if c.minSparse == 0 && status.Zero? then Min(n, c.bufSectors) else n;
      ClaimLess(c, status, sectorNum, n, n', sectorNextStatus);
      n := n';
      ok := CopyClaimed(sectorNum, n, status);
    }

    /** The passes of convert_do_copy, with a single coroutine. */
    method Copy() returns (ok: bool)
      requires c.Valid() && c.Size() <= |target| && c.Untouched(target, 0, c.Size())
      modifies this
      ensures Went(ok, old(calls))
      ensures ok ==> c.Copied(target, 0, c.Size())
      ensures SameOutside(target, old(target), 0, c.Size())
    {
      ghost var was := target;
      ok := CountSectors();
      if !ok {
        return;
      }
      var sectorNum, n := 0, 0;
      sectorNextStatus := 0;
      while sectorNum < c.Size()
        invariant sectorNum <= c.Size() && c.StatusHolds(status, sectorNum, sectorNextStatus) && ok &&
                  Went(true, old(calls))
        invariant c.Copied(target, 0, sectorNum) && SameOutside(target, was, 0, sectorNum)
      {
        ghost var before := target;
        UntouchedRest(c, was, target, 0, sectorNum, c.Size());
        ok, n := CopyNext(sectorNum);
        if !ok {
          return;
        }
        CopiedOn(c, was, before, target, 0, sectorNum, sectorNum + n);
        sectorNum := sectorNum + n;
      }
    }
  }

  /**
   convert_do_copy.  What bdrv_has_zero_init says of a new target is zeroInit; a cluster size that does
   not fit the buffer is an error, and the only one when all requests succeed.  The last request tells a
   compressed target that there is no more to come.
   */
  method DoCopy(settings: Config, target: Layer, targetIsNew: bool, zeroInit: bool, io: Oracle)
    returns (ok: bool, copy: Layer, calls: nat)
    requires settings.Sound() && settings.Size() <= |target| && settings.Untouched(target, 0, settings.Size())
    requires zeroInit && !settings.hasBacking ==> settings.(hasZeroInit := true).Untouched(target, 0, settings.Size())
    ensures ok <==> AllOk(io, 0, calls) && (settings.compressed ==> 0 < settings.clusterSectors <= settings.bufSectors)
    ensures ok ==> settings.Copied(copy, 0, settings.Size()) && (settings.compressed ==> calls > 0)
    ensures SameOutside(copy, target, 0, settings.Size())
  {
    var c := settings;
    if !c.hasZeroInit && targetIsNew && c.minSparse > 0 && !c.hasBacking {
      c := c.(hasZeroInit := zeroInit);
    }
    if c.compressed {
      if c.clusterSectors <= 0 || c.clusterSectors > c.bufSectors {
        return false, target, 0;
      }
      c := c.(bufSectors := c.clusterSectors);
    }
    SameUntouched(if c.hasZeroInit == settings.hasZeroInit then settings else settings.(hasZeroInit := true), c,
                  target);
    var converter := new Converter(c, target, io);
    ok := converter.Copy();
    copy, calls := converter.target, converter.calls;
    SameSources(settings, c, copy);
    if c.compressed && ok {
      ok := io(calls);
      calls := calls + 1;
    }
  }

  lemma SameUntouched(a: Config, b: Config, target: Layer)
    requires a.sources == b.sources && a.backing == b.backing && a.hasBacking == b.hasBacking &&
             a.hasZeroInit == b.hasZeroInit
    requires a.Untouched(target, 0, a.Size())
    ensures b.Untouched(target, 0, b.Size())
  {
    forall i | 0 <= i < |target| ensures a.Reads(target, i) == b.Reads(target, i) {
    }
  }

  lemma SameSources(a: Config, b: Config, target: Layer)
    requires a.sources == b.sources && a.backing == b.backing
    ensures b.Copied(target, 0, b.Size()) ==> a.Copied(target, 0, a.Size())
  {
    forall i | 0 <= i < |target| ensures a.Reads(target, i) == b.Reads(target, i) && a.Want(i) == b.Want(i) {
    }
  }
}
