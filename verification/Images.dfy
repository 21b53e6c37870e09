/**
 Disk images as chains of layers.  A layer says for every cell whether it is allocated and
 with what value; a cell that is not is read from the next layer, and past the end of a
 layer everything reads as zero.  Also the allocation status queries of block/io.c.

 A cell is a byte, or a sector of 512 bytes taken as one number where the code works in
 sectors; either way 0 stands for zeroes.
 */
module Images {
  import opened Alignment
  import opened Options

  newtype Cell = c: int | 0 <= c
  type Layer = seq<Option<Cell>>

  /** Which requests to the block layer succeed, numbered in the order in which they are made. */
  type Oracle = nat -> bool

  ghost predicate AllOk(io: Oracle, from: nat, to: nat) {
    forall k :: from <= k < to ==> io(k)
  }

  /** A cell of an image that reads as zero past its end. */
  function At(content: seq<Cell>, i: nat): Cell {
    if i < |content| then content[i] else 0
  }

  /** What a chain of layers over the image base reads at i. */
  function ReadAt(layers: seq<Layer>, base: seq<Cell>, i: nat): Cell
    decreases |layers|
  {
    if layers == [] then At(base, i)
    else if i >= |layers[0]| then 0
    else if layers[0][i].Some? then layers[0][i].value
    else ReadAt(layers[1..], base, i)
  }

  function Length(layers: seq<Layer>, base: seq<Cell>): nat {
    if layers == [] then |base| else |layers[0]|
  }

  /** blk_pread of n cells inside the image. */
  function Pread(layers: seq<Layer>, base: seq<Cell>, offset: nat, n: nat): (r: seq<Cell>)
    ensures |r| == n && forall i :: 0 <= i < n ==> r[i] == ReadAt(layers, base, offset + i)
  {
    seq(n, i requires 0 <= i < n => ReadAt(layers, base, offset + i))
  }

  /** The buffer has what the chain reads from offset on. */
  ghost predicate Holds(buf: seq<Cell>, layers: seq<Layer>, base: seq<Cell>, offset: nat) {
    forall i :: 0 <= i < |buf| ==> buf[i] == ReadAt(layers, base, offset + i)
  }

  lemma ReadPastEnd(layers: seq<Layer>, base: seq<Cell>, i: nat)
    requires i >= Length(layers, base)
    ensures ReadAt(layers, base, i) == 0
  {
  }

  /** What an image reads at i when its backing chain is the layers over base. */
  function Over(top: Layer, layers: seq<Layer>, base: seq<Cell>, i: nat): Cell
    requires i < |top|
  {
    if top[i].Some? then top[i].value else ReadAt(layers, base, i)
  }

  /** The image after a write. */
  function Written(l: Layer, offset: nat, buf: seq<Cell>): (r: Layer)
    requires offset + |buf| <= |l|
    ensures |r| == |l|
  {
    seq(|l|, i requires 0 <= i < |l| => if offset <= i < offset + |buf| then Some(buf[i - offset]) else l[i])
  }

  // ------------------------------------------------------------ allocation status

  /** Some layer below the first decides the cell: it has it allocated, or ends before it. */
  predicate Decided(layers: seq<Layer>, i: nat)
    decreases |layers|
  {
    layers != [] && (i >= |layers[0]| || layers[0][i].Some? || Decided(layers[1..], i))
  }

  /** The cell is allocated in one of the layers, none of them counting past the end of the first. */
  predicate AllocatedAbove(layers: seq<Layer>, i: nat) {
    layers != [] && i < |layers[0]| && (layers[0][i].Some? || Decided(layers[1..], i))
  }

  lemma UnallocatedReadsBase(layers: seq<Layer>, base: seq<Cell>, i: nat)
    requires !AllocatedAbove(layers, i) && (layers == [] || i < |layers[0]|)
    ensures ReadAt(layers, base, i) == At(base, i)
  {
  }

  /** The answer to a status query: BDRV_BLOCK_ALLOCATED and BDRV_BLOCK_ZERO. */
  datatype Status = Status(alloc: bool, zero: bool)

  /** Over the whole range the layer is allocated or not, as reported. */
  predicate Uniform(l: Layer, offset: nat, n: nat, alloc: bool) {
    offset + n <= |l| && forall i :: offset <= i < offset + n ==> (l[i].Some? <==> alloc)
  }

  predicate ReadsZero(layers: seq<Layer>, base: seq<Cell>, offset: nat, n: nat) {
    forall i :: offset <= i < offset + n ==> ReadAt(layers, base, i) == 0
  }

  /** The image allocates whole units of m cells. */
  predicate Units(l: Layer, m: nat) {
    m > 0 && forall i :: 0 <= i < |l| ==> (AlignDownIs(i, m); l[i].Some? == l[AlignDown(i, m)].Some?)
  }

  /** A cell's unit is alike up to its end. */
  lemma UnitAlike(l: Layer, m: nat, offset: nat)
    requires Units(l, m) && offset < |l|
    ensures var end := Min(AlignUp(offset + 1, m), |l|);
            offset < end && Uniform(l, offset, end - offset, l[offset].Some?)
  {
    AlignUpIs(offset + 1, m);
    AlignDownIs(offset, m);
    forall i | offset < i < Min(AlignUp(offset + 1, m), |l|) ensures l[i].Some? == l[offset].Some? {
      LastUnit(offset + 1, i, m);
    }
  }

  /**
   bdrv_co_do_block_status of the first of the layers.  How far the answer reaches, and whether
   zeroes are recognised, is up to the driver, which answers for whole units of a layer that has such;
   at the end of the image the count is 0.
   */
  method DoBlockStatus(layers: seq<Layer>, base: seq<Cell>, offset: nat, bytes: nat, unit: nat)
    returns (s: Status, pnum: nat)
    requires layers != [] && unit > 0
    ensures pnum == 0 <==> bytes == 0 || offset >= |layers[0]|
    ensures pnum <= bytes && (pnum > 0 ==> Uniform(layers[0], offset, pnum, s.alloc))
    ensures s.zero ==> ReadsZero(layers, base, offset, pnum)
    ensures pnum == 0 ==> !s.alloc
    ensures Units(layers[0], unit) && 0 < pnum < bytes ==> (offset + pnum) % unit == 0 || offset + pnum == |layers[0]|
  {
    if offset >= |layers[0]| || bytes == 0 {
      return Status(false, false), 0;
    }
    var alloc := layers[0][offset].Some?;
    var least := 1;
    if Units(layers[0], unit) {
      UnitAlike(layers[0], unit, offset);
      AlignUpIs(offset + 1, unit);
      least := Min(AlignUp(offset + 1, unit), |layers[0]|) - offset;
    }
    least := Min(least, bytes);
    assert Uniform(layers[0], offset, least, alloc);
    pnum :| 1 <= pnum <= bytes && Uniform(layers[0], offset, pnum, alloc)
      && (Units(layers[0], unit) && pnum < bytes ==> (offset + pnum) % unit == 0 || offset + pnum == |layers[0]|);
    var zero :| zero ==> ReadsZero(layers, base, offset, pnum);
    s := Status(alloc, zero);
  }

  /** Every layer is made of whole units. */
  ghost predicate WholeUnits(layers: seq<Layer>, unit: nat) {
    unit > 0 && forall l :: l in layers ==> Units(l, unit) && |l| % unit == 0
  }

  /** The first k layers leave the whole range to the others. */
  ghost predicate Deferred(layers: seq<Layer>, base: seq<Cell>, k: nat, offset: nat, n: nat) {
    && 0 < k <= |layers| && offset + n <= |layers[0]|
    && forall i :: offset <= i < offset + n ==>
         && (AllocatedAbove(layers, i) <==> Decided(layers[k..], i))
         && ReadAt(layers, base, i) == ReadAt(layers[k..], base, i)
  }

  lemma DeferFirst(layers: seq<Layer>, base: seq<Cell>, offset: nat, n: nat)
    requires layers != [] && Uniform(layers[0], offset, n, false)
    ensures Deferred(layers, base, 1, offset, n)
  {
  }

  lemma DeferNext(layers: seq<Layer>, base: seq<Cell>, k: nat, offset: nat, n: nat, n': nat)
    requires k < |layers| && Deferred(layers, base, k, offset, n) && n' <= n && Uniform(layers[k], offset, n', false)
    ensures Deferred(layers, base, k + 1, offset, n')
  {
  }

  /** What a query over a chain answers about a range. */
  ghost predicate Answers(layers: seq<Layer>, base: seq<Cell>, offset: nat, pnum: nat, s: Status) {
    && (layers == [] || pnum == 0 || offset + pnum <= |layers[0]|)
    && (forall i :: offset <= i < offset + pnum ==> (AllocatedAbove(layers, i) <==> s.alloc))
    && (s.zero ==> ReadsZero(layers, base, offset, pnum))
  }

  /** The layer that decides the range, or the end of the chain. */
  lemma DeferredAnswers(layers: seq<Layer>, base: seq<Cell>, k: nat, offset: nat, m: nat, n: nat, s: Status)
    requires Deferred(layers, base, k, offset, m) && n <= m
    requires forall i :: offset <= i < offset + n ==> (Decided(layers[k..], i) <==> s.alloc)
    requires s.zero ==> ReadsZero(layers[k..], base, offset, n)
    ensures Answers(layers, base, offset, n, s)
  {
  }

  /**
   bdrv_co_common_block_status_above without the base, which block_status_above and
   is_allocated_above call: asks the layers one after another, narrowing the range.
   */
  method StatusAbove(layers: seq<Layer>, base: seq<Cell>, offset: nat, bytes: nat, unit: nat)
    returns (s: Status, pnum: nat)
    requires unit > 0
    ensures pnum <= bytes && (pnum == 0 <==> bytes == 0 || (layers != [] && offset >= |layers[0]|))
    ensures Answers(layers, base, offset, pnum, s)
    ensures pnum == 0 ==> !s.alloc
    ensures WholeUnits(layers, unit) && 0 < pnum < bytes ==> (offset + pnum) % unit == 0
  {
    if layers == [] {
      return Status(false, false), bytes;
    }
    s, pnum := DoBlockStatus(layers, base, offset, bytes, unit);
    if pnum == 0 || s.alloc {
      return;
    }
    DeferFirst(layers, base, offset, pnum);
    var left, k := pnum, 1;
    while k < |layers|
      invariant 0 < k <= |layers| && 0 < left <= bytes && pnum == left && !s.alloc
      invariant Deferred(layers, base, k, offset, left)
      invariant s.zero ==> ReadsZero(layers[k..], base, offset, left)
      invariant WholeUnits(layers, unit) && left < bytes ==> (offset + left) % unit == 0
    {
      s, pnum := DoBlockStatus(layers[k..], base, offset, left, unit);
      if pnum == 0 {
        pnum := left;
        s := Status(true, true);
        DeferredAnswers(layers, base, k, offset, left, left, s);
        return;
      }
      if s.alloc {
        DeferredAnswers(layers, base, k, offset, left, pnum, s);
        return;
      }
      DeferNext(layers, base, k, offset, left, pnum);
      left, k := pnum, k + 1;
    }
    DeferredAnswers(layers, base, k, offset, left, left, s);
  }
}
