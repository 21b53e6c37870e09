/**
 The coroutines of qemu-img convert.  Each claims the next range of sectors under a lock,
 reads it and writes it; with wr_in_order a coroutine whose turn to write has not come
 parks, and is entered by the one that writes the range before.

 A state has every coroutine's position, and a step is what one coroutine does between two
 points where it may yield, so every interleaving is a run.  The claims made so far are
 kept as their bounds: claim k is the sectors from bounds[k] up to bounds[k + 1].
 */
module ConvertCoroutines {
  import opened Options
  import opened Images
  import opened Convert

  datatype Pc =
    | NotStarted
    | Looping              // wants the lock
    | Locked               // holds the lock, asking for the status of the next sectors
    | Reading(k: nat)      // has claimed range k
    | Ready(k: nat)        // has the data, or failed to read it
    | Parked(k: nat)       // wait_sector_num is the start of range k
    | Writing(k: nat)
    | Written(k: nat)      // has written, failed to, or left it out after an error
    | Finished

  datatype Outcome = InProgress | Succeeded | Error

  datatype State = State(
    cos: seq<Pc>, lock: Option<nat>,
    sectorNum: nat, wrOffs: nat, ret: Outcome, target: Layer,
    status: BlockStatus, nextStatus: nat,
    bounds: seq<nat>,      // of the claims made so far
    claimed: seq<BlockStatus>,
    done: set<nat>,        // the claims whose owner went on to the next one
    writes: seq<nat>)      // the claims that were written, in that order

  predicate Owns(pc: Pc) {
    pc.Reading? || pc.Ready? || pc.Parked? || pc.Writing? || pc.Written?
  }

  function Claims(s: State): int {
    |s.bounds| - 1
  }

  // ------------------------------------------------------------ steps

  ghost predicate Start(s: State, s': State, i: nat)
    requires i < |s.cos|
  {
    s.cos[i].NotStarted? && s' == s.(cos := s.cos[i := Looping])
  }

  /** The last coroutine to finish sets the result. */
  predicate LastToFinish(s: State, i: nat) {
    forall j :: 0 <= j < |s.cos| && j != i ==> s.cos[j].NotStarted? || s.cos[j].Finished?
  }

  function Finish(s: State, i: nat): State
    requires i < |s.cos|
  {
    s.(cos := s.cos[i := Finished], ret := if LastToFinish(s, i) && s.ret.InProgress? then Succeeded else s.ret)
  }

  ghost predicate Check(c: Config, s: State, s': State, i: nat)
    requires i < |s.cos|
  {
    && s.cos[i].Looping? && s.lock.None?
    && s' == if !s.ret.InProgress? || s.sectorNum >= c.Size() then Finish(s, i)
             else s.(cos := s.cos[i := Locked], lock := Some(i))
  }

  ghost predicate ClaimFails(s: State, s': State, i: nat)
    requires i < |s.cos|
  {
    s.cos[i].Locked? && s' == Finish(s.(lock := None, ret := Error), i)
  }

  /** The effect of convert_iteration_sectors: its contract, and the claim of the sectors. */
  ghost predicate Claim(c: Config, s: State, s': State, i: nat, n: nat)
    requires i < |s.cos|
  {
    && s.cos[i].Locked? && 0 < n && s.sectorNum + n <= c.Size() && |s.bounds| > 0
    && (c.StatusHolds(s.status, s.sectorNum, s.nextStatus) ==>
          c.StatusHolds(s'.status, s.sectorNum, s.sectorNum + n) &&
          c.StatusHolds(s'.status, s.sectorNum + n, s'.nextStatus))
    && s' == s.(cos := s.cos[i := Reading(|s.bounds| - 1)], lock := None, sectorNum := s.sectorNum + n,
                status := s'.status, nextStatus := s'.nextStatus,
                bounds := s.bounds + [s.sectorNum + n], claimed := s.claimed + [s'.status])
  }

  ghost predicate Read(s: State, s': State, i: nat, ok: bool)
    requires i < |s.cos|
  {
    && s.cos[i].Reading?
    && s' == s.(cos := s.cos[i := Ready(s.cos[i].k)], ret := if ok then s.ret else Error)
  }

  ghost predicate Turn(inOrder: bool, s: State, s': State, i: nat)
    requires i < |s.cos|
  {
    && s.cos[i].Ready? && s.cos[i].k < |s.bounds|
    && var k := s.cos[i].k;
       s' == s.(cos := s.cos[i := if !s.ret.InProgress? then Written(k)
                                  else if inOrder && s.wrOffs != s.bounds[k] then Parked(k) else Writing(k)])
  }

  /** What convert_co_write relies on for claim k. */
  ghost predicate Writable(c: Config, s: State, k: nat)
    requires k + 1 < |s.bounds|
  {
    && k < |s.claimed| && c.StatusHolds(s.claimed[k], s.bounds[k], s.bounds[k + 1])
    && c.Untouched(s.target, s.bounds[k], s.bounds[k + 1])
  }

  /** The effect of convert_co_write: its contract for the claimed range and status. */
  ghost predicate Write(c: Config, s: State, s': State, i: nat, ok: bool, target: Layer)
    requires i < |s.cos|
  {
    && s.cos[i].Writing? && s.cos[i].k + 1 < |s.bounds|
    && var k := s.cos[i].k;
       && SameOutside(target, s.target, s.bounds[k], s.bounds[k + 1])
       && (ok && Writable(c, s, k) ==> c.Copied(target, s.bounds[k], s.bounds[k + 1]))
       && s' == s.(cos := s.cos[i := Written(k)], target := target, ret := if ok then s.ret else Error,
                   writes := if ok then s.writes + [k] else s.writes)
  }

  /** Entering the coroutine that waits for this write. */
  function Wake(cos: seq<Pc>, bounds: seq<nat>, wrOffs: nat): seq<Pc> {
    seq(|cos|, j requires 0 <= j < |cos| =>
      if cos[j].Parked? && cos[j].k < |bounds| && bounds[cos[j].k] == wrOffs then Ready(cos[j].k) else cos[j])
  }

  ghost predicate Advance(inOrder: bool, s: State, s': State, i: nat)
    requires i < |s.cos|
  {
    && s.cos[i].Written? && s.cos[i].k + 1 < |s.bounds|
    && var k := s.cos[i].k;
       var r := s.(cos := s.cos[i := Looping], done := s.done + {k});
       s' == if inOrder then r.(wrOffs := s.bounds[k + 1], cos := Wake(r.cos, s.bounds, s.bounds[k + 1])) else r
  }

  ghost predicate Step(c: Config, inOrder: bool, s: State, s': State, i: nat) {
    && i < |s.cos|
    && (|| Start(s, s', i) || Check(c, s, s', i) || ClaimFails(s, s', i) || (exists n :: Claim(c, s, s', i, n))
        || (exists ok :: Read(s, s', i, ok)) || Turn(inOrder, s, s', i)
        || (exists ok, target :: Write(c, s, s', i, ok, target)) || Advance(inOrder, s, s', i))
  }

  ghost predicate Init(c: Config, s: State) {
    && (forall i :: 0 <= i < |s.cos| ==> s.cos[i].NotStarted?)
    && s.lock.None? && s.sectorNum == 0 && s.wrOffs == 0 && s.ret.InProgress?
    && s.bounds == [0] && s.claimed == [] && s.nextStatus == 0 && s.done == {} && s.writes == []
    && c.Untouched(s.target, 0, c.Size())
  }

  ghost predicate Next(c: Config, inOrder: bool, s: State, s': State) {
    exists i :: Step(c, inOrder, s, s', i)
  }

  ghost predicate Run(c: Config, inOrder: bool, run: seq<State>) {
    && run != [] && Init(c, run[0])
    && forall t, t' :: 0 <= t && t' == t + 1 < |run| ==> Next(c, inOrder, run[t], run[t'])
  }

  // ------------------------------------------------------------ the invariant

  /** The claims follow one another, from the first sector to where the next claim starts. */
  ghost predicate Contiguous(c: Config, s: State) {
    && |s.bounds| > 0 && s.bounds[0] == 0 && s.bounds[|s.bounds| - 1] == s.sectorNum <= c.Size()
    && forall a, b :: 0 <= a < b < |s.bounds| ==> s.bounds[a] < s.bounds[b]
  }

  /** The status of every claim is right, and so is the one at hand. */
  ghost predicate StatusesOk(c: Config, s: State) {
    && |s.claimed| == Claims(s) && c.StatusHolds(s.status, s.sectorNum, s.nextStatus)
    && forall k :: 0 <= k < |s.claimed| ==> c.StatusHolds(s.claimed[k], s.bounds[k], s.bounds[k + 1])
  }

  ghost predicate HasOwner(cos: seq<Pc>, k: nat) {
    exists i :: 0 <= i < |cos| && Owns(cos[i]) && cos[i].k == k
  }

  /** Every claim that is not done is in the hands of exactly one coroutine. */
  ghost predicate Owned(cos: seq<Pc>, claims: int, done: set<nat>) {
    && (forall i :: 0 <= i < |cos| && Owns(cos[i]) ==> cos[i].k < claims && cos[i].k !in done)
    && (forall i, j :: 0 <= i < j < |cos| && Owns(cos[i]) && Owns(cos[j]) ==> cos[i].k != cos[j].k)
    && (forall k :: 0 <= k < claims && k !in done ==> HasOwner(cos, k))
    && (forall k :: k in done ==> k < claims)
  }

  ghost predicate LockHeld(s: State) {
    && (forall i :: 0 <= i < |s.cos| && s.cos[i].Locked? ==> s.lock == Some(i))
    && (s.lock.Some? ==> s.lock.value < |s.cos| && s.cos[s.lock.value].Locked?)
  }

  /** A coroutine that gave up found nothing left; after the last one nothing is under way. */
  ghost predicate Ending(c: Config, s: State) {
    && (s.ret.InProgress? && (exists i :: 0 <= i < |s.cos| && s.cos[i].Finished?) ==> s.sectorNum == c.Size())
    && (s.lock.Some? ==> s.sectorNum < c.Size())
    && (s.ret.Succeeded? ==>
          s.sectorNum == c.Size() && forall i :: 0 <= i < |s.cos| ==> !Owns(s.cos[i]) && !s.cos[i].Locked?)
  }

  ghost predicate CopiedOrNot(c: Config, target: Layer, from: nat, to: nat, written: bool) {
    if written then c.Copied(target, from, to) else c.Untouched(target, from, to)
  }

  ghost predicate Copies(c: Config, bounds: seq<nat>, writes: seq<nat>, target: Layer) {
    forall k :: 0 <= k < |bounds| - 1 ==> CopiedOrNot(c, target, bounds[k], bounds[k + 1], k in writes)
  }

  /** What has been written is copied, what has not is as it was; unless there was an error, nothing was left out. */
  ghost predicate ContentOk(c: Config, s: State) {
    && c.Size() <= |s.target|
    && (forall k :: k in s.writes ==> k < Claims(s))
    && (forall i :: 0 <= i < |s.cos| && Owns(s.cos[i]) && s.cos[i].k in s.writes ==> s.cos[i].Written?)
    && (!s.ret.Error? ==>
          && (forall i :: 0 <= i < |s.cos| && s.cos[i].Written? ==> s.cos[i].k in s.writes)
          && (forall k :: k in s.done ==> k in s.writes)
          && Copies(c, s.bounds, s.writes, s.target)
          && c.Untouched(s.target, s.sectorNum, c.Size()))
  }

  /** While nothing failed: the first m claims are done, and only claim m may be written. */
  ghost predicate Front(s: State, m: nat) {
    && m < |s.bounds| && s.wrOffs == s.bounds[m] && (forall k :: k in s.done <==> 0 <= k < m)
    && m <= |s.writes| <= m + 1
    && (forall i :: 0 <= i < |s.cos| && (s.cos[i].Writing? || s.cos[i].Written?) ==> s.cos[i].k == m)
  }

  /** Writes come in the order of the claims, and who waits does so for a claim that is not done. */
  ghost predicate Ordered(s: State) {
    && (forall j :: 0 <= j < |s.writes| ==> s.writes[j] == j) && (forall k :: k in s.writes <==> 0 <= k < |s.writes|)
    && (forall i :: 0 <= i < |s.cos| && s.cos[i].Writing? ==> s.cos[i].k == |s.writes|)
    && (forall i :: 0 <= i < |s.cos| && s.cos[i].Parked? ==> s.cos[i].k > 0 && s.cos[i].k - 1 !in s.done)
    && (s.ret.InProgress? ==> exists m :: Front(s, m))
  }

  ghost predicate Inv(c: Config, inOrder: bool, s: State) {
    && Contiguous(c, s) && StatusesOk(c, s) && Owned(s.cos, Claims(s), s.done) && LockHeld(s) && Ending(c, s) &&
       ContentOk(c, s)
    && if inOrder then Ordered(s) else forall i :: 0 <= i < |s.cos| ==> !s.cos[i].Parked?
  }

  lemma InitInv(c: Config, inOrder: bool, s: State)
    requires Init(c, s)
    ensures Inv(c, inOrder, s)
  {
    assert Front(s, 0);
  }

  // ------------------------------------------------------------ steps of one coroutine that leave the claims alone

  predicate SameOwner(a: Pc, b: Pc) {
    (Owns(a) <==> Owns(b)) && (Owns(a) ==> a.k == b.k)
  }

  lemma ClaimsSame(c: Config, s: State, s': State)
    requires Contiguous(c, s) && StatusesOk(c, s)
    requires s'.bounds == s.bounds && s'.claimed == s.claimed && s'.sectorNum == s.sectorNum
    requires s'.status == s.status && s'.nextStatus == s.nextStatus
    ensures Contiguous(c, s') && StatusesOk(c, s')
  {
  }

  lemma OwnedSame(cos: seq<Pc>, i: nat, pc: Pc, claims: int, done: set<nat>)
    requires Owned(cos, claims, done) && i < |cos| && SameOwner(cos[i], pc)
    ensures Owned(cos[i := pc], claims, done)
  {
    var cos' := cos[i := pc];
    forall k | 0 <= k < claims && k !in done ensures HasOwner(cos', k) {
      var j :| 0 <= j < |cos| && Owns(cos[j]) && cos[j].k == k;
      assert Owns(cos'[j]) && cos'[j].k == k;
    }
  }

  lemma ContentSame(c: Config, s: State, s': State, i: nat, pc: Pc)
    requires ContentOk(c, s) && i < |s.cos| && SameOwner(s.cos[i], pc)
    requires s' == s.(cos := s.cos[i := pc], lock := s'.lock, ret := s'.ret)
    requires s.ret.Error? ==> s'.ret.Error?
    requires (s.cos[i].Written? ==> pc.Written?) && (pc.Written? && !s'.ret.Error? ==> s.cos[i].Written?)
    ensures ContentOk(c, s')
  {
  }

  /** Only a coroutine whose turn it is, or that writes, matters to the order. */
  lemma OrderedSame(s: State, s': State, i: nat, pc: Pc)
    requires Ordered(s) && i < |s.cos| && !pc.Parked? && !pc.Writing? && !pc.Written?
    requires s' == s.(cos := s.cos[i := pc], lock := s'.lock, ret := s'.ret) &&
             (s'.ret.InProgress? ==> s.ret.InProgress?)
    ensures Ordered(s')
  {
    if s'.ret.InProgress? {
      var m: nat :| Front(s, m);
      assert Front(s', m);
    }
  }

  /** A step of a coroutine that neither takes nor gives the lock, and does not finish. */
  lemma GoesOn(c: Config, s: State, s': State, i: nat, pc: Pc)
    requires LockHeld(s) && Ending(c, s) && i < |s.cos| && s'.cos == s.cos[i := pc] && s'.lock == s.lock &&
             s'.sectorNum == s.sectorNum
    requires !s.cos[i].Locked? && !pc.Locked? && !s.cos[i].Finished? && !pc.Finished? && (Owns(pc) ==> Owns(s.cos[i]))
    requires s'.ret == s.ret || s'.ret.Error?
    ensures LockHeld(s') && Ending(c, s')
  {
  }

  lemma StartKeeps(c: Config, inOrder: bool, s: State, s': State, i: nat)
    requires Inv(c, inOrder, s) && i < |s.cos| && Start(s, s', i)
    ensures Inv(c, inOrder, s')
  {
    ClaimsSame(c, s, s');
    GoesOn(c, s, s', i, Looping);
    OwnedSame(s.cos, i, Looping, Claims(s), s.done);
    ContentSame(c, s, s', i, Looping);
    if inOrder {
      OrderedSame(s, s', i, Looping);
    }
  }

  /** The last coroutine leaves nothing under way: no sector is left, and all others are finished or not started. */
  lemma FinishEnds(c: Config, s: State, i: nat)
    requires Ending(c, s) && LockHeld(s) && i < |s.cos| && s.cos[i].Looping? && s.lock.None?
    requires s.ret.InProgress? ==> s.sectorNum == c.Size()
    ensures Ending(c, Finish(s, i)) && LockHeld(Finish(s, i))
  {
  }

  lemma LockEnds(c: Config, s: State, i: nat)
    requires Ending(c, s) && LockHeld(s) && i < |s.cos| && s.cos[i].Looping? && s.lock.None? && s.ret.InProgress?
    requires s.sectorNum < c.Size()
    ensures var r := s.(cos := s.cos[i := Locked], lock := Some(i)); Ending(c, r) && LockHeld(r)
  {
  }

  lemma CheckKeeps(c: Config, inOrder: bool, s: State, s': State, i: nat)
    requires Inv(c, inOrder, s) && i < |s.cos| && Check(c, s, s', i)
    ensures Inv(c, inOrder, s')
  {
    if !s.ret.InProgress? || s.sectorNum >= c.Size() {
      FinishEnds(c, s, i);
    } else {
      LockEnds(c, s, i);
    }
    var pc := s'.cos[i];
    ClaimsSame(c, s, s');
    OwnedSame(s.cos, i, pc, Claims(s), s.done);
    ContentSame(c, s, s', i, pc);
    if inOrder {
      OrderedSame(s, s', i, pc);
    }
  }

  lemma ClaimFailsKeeps(c: Config, inOrder: bool, s: State, s': State, i: nat)
    requires Inv(c, inOrder, s) && i < |s.cos| && ClaimFails(s, s', i)
    ensures Inv(c, inOrder, s')
  {
    OwnedSame(s.cos, i, Finished, Claims(s), s.done);
    ContentSame(c, s, s', i, Finished);
    if inOrder {
      OrderedSame(s, s', i, Finished);
    }
  }

  lemma ReadKeeps(c: Config, inOrder: bool, s: State, s': State, i: nat, ok: bool)
    requires Inv(c, inOrder, s) && i < |s.cos| && Read(s, s', i, ok)
    ensures Inv(c, inOrder, s')
  {
    var pc := Ready(s.cos[i].k);
    ClaimsSame(c, s, s');
    GoesOn(c, s, s', i, pc);
    OwnedSame(s.cos, i, pc, Claims(s), s.done);
    ContentSame(c, s, s', i, pc);
    if inOrder {
      OrderedSame(s, s', i, pc);
    }
  }

  lemma TurnOrdered(c: Config, s: State, s': State, i: nat)
    requires Contiguous(c, s) && Ordered(s) && i < |s.cos| && Turn(true, s, s', i)
    requires s.cos[i].k !in s.done && s.cos[i].k !in s.writes
    ensures Ordered(s')
  {
    var k := s.cos[i].k;
    if s.ret.InProgress? {
      var m: nat :| Front(s, m);
      assert s.wrOffs == s.bounds[k] ==> k == m;
      assert Front(s', m);
    }
  }

  lemma TurnKeeps(c: Config, inOrder: bool, s: State, s': State, i: nat)
    requires Inv(c, inOrder, s) && i < |s.cos| && Turn(inOrder, s, s', i)
    ensures Inv(c, inOrder, s')
  {
    var pc := s'.cos[i];
    ClaimsSame(c, s, s');
    GoesOn(c, s, s', i, pc);
    OwnedSame(s.cos, i, pc, Claims(s), s.done);
    ContentSame(c, s, s', i, pc);
    if inOrder {
      TurnOrdered(c, s, s', i);
    }
  }

  // ------------------------------------------------------------ claiming

  lemma OwnedClaim(cos: seq<Pc>, i: nat, claims: nat, done: set<nat>)
    requires Owned(cos, claims, done) && i < |cos| && !Owns(cos[i])
    ensures Owned(cos[i := Reading(claims)], claims + 1, done)
  {
    var cos' := cos[i := Reading(claims)];
    forall k | 0 <= k < claims + 1 && k !in done ensures HasOwner(cos', k) {
      if k == claims {
        assert Owns(cos'[i]) && cos'[i].k == k;
      } else {
        var j :| 0 <= j < |cos| && Owns(cos[j]) && cos[j].k == k;
        assert Owns(cos'[j]) && cos'[j].k == k;
      }
    }
  }

  lemma ClaimContent(c: Config, s: State, s': State, i: nat, n: nat)
    requires Contiguous(c, s) && ContentOk(c, s) && i < |s.cos| && Claim(c, s, s', i, n)
    ensures ContentOk(c, s')
  {
  }

  lemma ClaimOrdered(s: State, s': State, i: nat, n: nat, c: Config)
    requires Ordered(s) && i < |s.cos| && Claim(c, s, s', i, n)
    ensures Ordered(s')
  {
    if s.ret.InProgress? {
      var m: nat :| Front(s, m);
      assert Front(s', m);
    }
  }

  lemma ClaimStatuses(c: Config, s: State, s': State, i: nat, n: nat)
    requires Contiguous(c, s) && StatusesOk(c, s) && i < |s.cos| && Claim(c, s, s', i, n)
    ensures StatusesOk(c, s')
  {
    forall k | 0 <= k < |s'.claimed| ensures c.StatusHolds(s'.claimed[k], s'.bounds[k], s'.bounds[k + 1]) {
      if k < |s.claimed| {
        assert c.StatusHolds(s.claimed[k], s.bounds[k], s.bounds[k + 1]);
      }
    }
  }

  lemma ClaimContiguous(c: Config, s: State, s': State, i: nat, n: nat)
    requires Contiguous(c, s) && i < |s.cos| && Claim(c, s, s', i, n)
    ensures Contiguous(c, s')
  {
  }

  lemma ClaimKeeps(c: Config, inOrder: bool, s: State, s': State, i: nat, n: nat)
    requires Inv(c, inOrder, s) && i < |s.cos| && Claim(c, s, s', i, n)
    ensures Inv(c, inOrder, s')
  {
    ClaimContiguous(c, s, s', i, n);
    ClaimStatuses(c, s, s', i, n);
    OwnedClaim(s.cos, i, Claims(s), s.done);
    ClaimContent(c, s, s', i, n);
    if inOrder {
      ClaimOrdered(s, s', i, n, c);
    }
  }

  // ------------------------------------------------------------ writing

  /** A write elsewhere changes nothing in a range. */
  lemma Elsewhere(c: Config, target: Layer, target': Layer, from: nat, to: nat, a: nat, b: nat)
    requires SameOutside(target', target, from, to) && (b <= from || to <= a)
    ensures c.Copied(target, a, b) ==> c.Copied(target', a, b)
    ensures c.Untouched(target, a, b) ==> c.Untouched(target', a, b)
  {
    assert forall i :: a <= i < b && i < |target| ==> target'[i] == target[i];
    if c.Copied(target, a, b) {
      forall i | a <= i < b ensures c.Reads(target', i) == c.Want(i) {
        assert c.Reads(target, i) == c.Want(i);
      }
    }
    if c.Untouched(target, a, b) {
      forall i | a <= i < b ensures c.Reads(target', i) == c.Reads(target, i) {
      }
    }
  }

  lemma CopiesWritten(c: Config, bounds: seq<nat>, writes: seq<nat>, target: Layer, target': Layer, k: nat)
    requires Copies(c, bounds, writes, target) && k + 1 < |bounds|
    requires forall a, b :: 0 <= a < b < |bounds| ==> bounds[a] < bounds[b]
    requires SameOutside(target', target, bounds[k], bounds[k + 1]) && c.Copied(target', bounds[k], bounds[k + 1])
    ensures Copies(c, bounds, writes + [k], target')
  {
    forall j | 0 <= j < |bounds| - 1 ensures CopiedOrNot(c, target', bounds[j], bounds[j + 1], j in writes + [k]) {
      if j != k {
        assert bounds[j + 1] <= bounds[k] || bounds[k + 1] <= bounds[j];
        Elsewhere(c, target, target', bounds[k], bounds[k + 1], bounds[j], bounds[j + 1]);
        assert CopiedOrNot(c, target, bounds[j], bounds[j + 1], j in writes);
      }
    }
  }

  lemma WriteContent(c: Config, s: State, s': State, i: nat, ok: bool, target: Layer)
    requires Contiguous(c, s) && StatusesOk(c, s) && ContentOk(c, s) && i < |s.cos| && Write(c, s, s', i, ok, target)
    requires forall j :: 0 <= j < |s.cos| && j != i && Owns(s.cos[j]) ==> s.cos[j].k != s.cos[i].k
    ensures ContentOk(c, s')
  {
    var k := s.cos[i].k;
    if !s'.ret.Error? {
      assert k !in s.writes && CopiedOrNot(c, s.target, s.bounds[k], s.bounds[k + 1], k in s.writes);
      CopiesWritten(c, s.bounds, s.writes, s.target, target, k);
      Elsewhere(c, s.target, target, s.bounds[k], s.bounds[k + 1], s.sectorNum, c.Size());
    }
  }

  lemma WriteOrdered(c: Config, s: State, s': State, i: nat, ok: bool, target: Layer)
    requires Ordered(s) && i < |s.cos| && Write(c, s, s', i, ok, target)
    requires forall j :: 0 <= j < |s.cos| && j != i && Owns(s.cos[j]) ==> s.cos[j].k != s.cos[i].k
    ensures Ordered(s')
  {
    if s'.ret.InProgress? {
      var m: nat :| Front(s, m);
      assert Front(s', m);
    }
  }

  lemma WriteKeeps(c: Config, inOrder: bool, s: State, s': State, i: nat, ok: bool, target: Layer)
    requires Inv(c, inOrder, s) && i < |s.cos| && Write(c, s, s', i, ok, target)
    ensures Inv(c, inOrder, s')
  {
    ClaimsSame(c, s, s');
    GoesOn(c, s, s', i, Written(s.cos[i].k));
    OwnedSame(s.cos, i, Written(s.cos[i].k), Claims(s), s.done);
    WriteContent(c, s, s', i, ok, target);
    if inOrder {
      WriteOrdered(c, s, s', i, ok, target);
    }
  }

  // ------------------------------------------------------------ going on, and waking the next writer

  lemma OwnedDone(cos: seq<Pc>, i: nat, claims: int, done: set<nat>)
    requires Owned(cos, claims, done) && i < |cos| && Owns(cos[i])
    ensures Owned(cos[i := Looping], claims, done + {cos[i].k})
  {
    var cos' := cos[i := Looping];
    forall k | 0 <= k < claims && k !in done + {cos[i].k} ensures HasOwner(cos', k) {
      var j :| 0 <= j < |cos| && Owns(cos[j]) && cos[j].k == k;
      assert Owns(cos'[j]) && cos'[j].k == k;
    }
  }

  lemma OwnedWake(cos: seq<Pc>, bounds: seq<nat>, wrOffs: nat, claims: int, done: set<nat>)
    requires Owned(cos, claims, done)
    ensures Owned(Wake(cos, bounds, wrOffs), claims, done)
  {
    var cos' := Wake(cos, bounds, wrOffs);
    assert forall j :: 0 <= j < |cos| ==> SameOwner(cos[j], cos'[j]);
    forall k | 0 <= k < claims && k !in done ensures HasOwner(cos', k) {
      var j :| 0 <= j < |cos| && Owns(cos[j]) && cos[j].k == k;
      assert Owns(cos'[j]) && cos'[j].k == k;
    }
  }

  lemma AdvanceContent(c: Config, inOrder: bool, s: State, s': State, i: nat)
    requires ContentOk(c, s) && i < |s.cos| && Advance(inOrder, s, s', i)
    ensures ContentOk(c, s')
  {
  }

  lemma AdvanceFront(c: Config, s: State, s': State, i: nat, m: nat)
    requires Contiguous(c, s) && Front(s, m) && i < |s.cos| && Advance(true, s, s', i)
    requires |s.writes| == m + 1 && s.cos[i].k == m
    requires forall j :: 0 <= j < |s.cos| && j != i && Owns(s.cos[j]) ==> s.cos[j].k != s.cos[i].k
    ensures Front(s', m + 1)
  {
  }

  /** Who writes or still waits was doing so before, and does not wait for the claim that is done now. */
  lemma AdvanceOthers(c: Config, s: State, s': State, i: nat, j: nat)
    requires Contiguous(c, s) && Owned(s.cos, Claims(s), s.done) && i < |s.cos| && Advance(true, s, s', i) &&
             j < |s.cos|
    ensures |s'.cos| == |s.cos|
    ensures s'.cos[j].Writing? || s'.cos[j].Parked? ==> s'.cos[j] == s.cos[j]
    ensures s'.cos[j].Parked? ==> s'.cos[j].k != s.cos[i].k + 1
  {
  }

  lemma AdvanceWaiters(c: Config, s: State, s': State, i: nat)
    requires Contiguous(c, s) && Owned(s.cos, Claims(s), s.done) && Ordered(s) && i < |s.cos| && Advance(true, s, s', i)
    ensures forall j :: 0 <= j < |s'.cos| && s'.cos[j].Writing? ==> s'.cos[j].k == |s'.writes|
    ensures forall j :: 0 <= j < |s'.cos| && s'.cos[j].Parked? ==> s'.cos[j].k > 0 && s'.cos[j].k - 1 !in s'.done
  {
    forall j | 0 <= j < |s'.cos|
      ensures s'.cos[j].Writing? ==> s'.cos[j].k == |s'.writes|
      ensures s'.cos[j].Parked? ==> s'.cos[j].k > 0 && s'.cos[j].k - 1 !in s'.done
    {
      AdvanceOthers(c, s, s', i, j);
    }
  }

  lemma AdvanceOrdered(c: Config, s: State, s': State, i: nat)
    requires Contiguous(c, s) && Owned(s.cos, Claims(s), s.done) && Ordered(s) && i < |s.cos| && Advance(true, s, s', i)
    requires s.ret.InProgress? ==> s.cos[i].k in s.writes
    ensures Ordered(s')
  {
    if s.ret.InProgress? {
      var m: nat :| Front(s, m);
      assert s.cos[i].k == m;
      AdvanceFront(c, s, s', i, m);
    }
    AdvanceWaiters(c, s, s', i);
  }

  lemma AdvanceEnds(c: Config, inOrder: bool, s: State, s': State, i: nat)
    requires LockHeld(s) && Ending(c, s) && i < |s.cos| && Advance(inOrder, s, s', i)
    ensures LockHeld(s') && Ending(c, s')
  {
  }

  lemma AdvanceOwned(inOrder: bool, s: State, s': State, i: nat)
    requires Owned(s.cos, Claims(s), s.done) && i < |s.cos| && Advance(inOrder, s, s', i)
    ensures Owned(s'.cos, Claims(s'), s'.done)
    ensures !inOrder && (forall j :: 0 <= j < |s.cos| ==> !s.cos[j].Parked?) ==>
              forall j :: 0 <= j < |s'.cos| ==> !s'.cos[j].Parked?
  {
    var k := s.cos[i].k;
    OwnedDone(s.cos, i, Claims(s), s.done);
    OwnedWake(s.cos[i := Looping], s.bounds, s.bounds[k + 1], Claims(s), s.done + {k});
  }

  lemma AdvanceKeeps(c: Config, inOrder: bool, s: State, s': State, i: nat)
    requires Inv(c, inOrder, s) && i < |s.cos| && Advance(inOrder, s, s', i)
    ensures Inv(c, inOrder, s')
  {
    ClaimsSame(c, s, s');
    AdvanceOwned(inOrder, s, s', i);
    AdvanceContent(c, inOrder, s, s', i);
    AdvanceEnds(c, inOrder, s, s', i);
    if inOrder {
      AdvanceOrdered(c, s, s', i);
    }
  }

  lemma StepKeepsInv(c: Config, inOrder: bool, s: State, s': State, i: nat)
    requires Inv(c, inOrder, s) && Step(c, inOrder, s, s', i)
    ensures Inv(c, inOrder, s')
  {
    if Start(s, s', i) {
      StartKeeps(c, inOrder, s, s', i);
    } else if Check(c, s, s', i) {
      CheckKeeps(c, inOrder, s, s', i);
    } else if ClaimFails(s, s', i) {
      ClaimFailsKeeps(c, inOrder, s, s', i);
    } else if n: nat :| Claim(c, s, s', i, n) {
      ClaimKeeps(c, inOrder, s, s', i, n);
    } else if ok :| Read(s, s', i, ok) {
      ReadKeeps(c, inOrder, s, s', i, ok);
    } else if Turn(inOrder, s, s', i) {
      TurnKeeps(c, inOrder, s, s', i);
    } else if ok, target :| Write(c, s, s', i, ok, target) {
      WriteKeeps(c, inOrder, s, s', i, ok, target);
    } else {
      AdvanceKeeps(c, inOrder, s, s', i);
    }
  }

  lemma {:induction false} RunKeepsInv(c: Config, inOrder: bool, run: seq<State>, t: nat)
    requires Run(c, inOrder, run) && t < |run|
    ensures Inv(c, inOrder, run[t])
  {
    if t == 0 {
      InitInv(c, inOrder, run[0]);
    } else {
      RunKeepsInv(c, inOrder, run, t - 1);
      assert Next(c, inOrder, run[t - 1], run[t]);
      var i :| Step(c, inOrder, run[t - 1], run[t], i);
      StepKeepsInv(c, inOrder, run[t - 1], run[t], i);
    }
  }

  // ------------------------------------------------------------ what every run keeps

  /** Every sector handed out belongs to exactly one claim, which is done or in the hands of exactly one coroutine. */
  lemma ClaimsPartition(c: Config, inOrder: bool, run: seq<State>, t: nat, sector: nat)
    requires Run(c, inOrder, run) && t < |run| && sector < run[t].sectorNum
    ensures var s := run[t];
            exists k :: InClaim(s, k, sector) && (forall j :: InClaim(s, j, sector) ==> j == k)
                        && (k in s.done || HasOwner(s.cos, k))
                        && (forall i, j :: 0 <= i < j < |s.cos| && Owns(s.cos[i]) && Owns(s.cos[j]) ==>
                              s.cos[i].k != s.cos[j].k)
  {
    RunKeepsInv(c, inOrder, run, t);
    var s := run[t];
    var k := FindClaim(s.bounds, sector);
    forall j | InClaim(s, j, sector) ensures j == k {
      OneClaim(s.bounds, j, k, sector);
    }
    assert InClaim(s, k, sector) && (k in s.done || HasOwner(s.cos, k));
  }

  ghost predicate InClaim(s: State, k: nat, sector: nat) {
    k + 1 < |s.bounds| && s.bounds[k] <= sector < s.bounds[k + 1]
  }

  lemma OneClaim(bounds: seq<nat>, j: nat, k: nat, sector: nat)
    requires forall a, b :: 0 <= a < b < |bounds| ==> bounds[a] < bounds[b]
    requires j + 1 < |bounds| && k + 1 < |bounds|
    requires bounds[j] <= sector < bounds[j + 1] && bounds[k] <= sector < bounds[k + 1]
    ensures j == k
  {
  }

  lemma {:induction false} FindClaim(bounds: seq<nat>, sector: nat) returns (k: nat)
    requires |bounds| > 0 && bounds[0] <= sector < bounds[|bounds| - 1]
    ensures k + 1 < |bounds| && bounds[k] <= sector < bounds[k + 1]
    decreases |bounds|
  {
    if bounds[1] > sector {
      k := 0;
    } else {
      k := FindClaim(bounds[1..], sector);
      k := k + 1;
    }
  }

  lemma OneWriter(s: State, i: nat, j: nat)
    requires Ordered(s) && Owned(s.cos, Claims(s), s.done) && i < j < |s.cos|
    ensures !(s.cos[i].Writing? && s.cos[j].Writing?)
  {
    assert Owns(s.cos[i]) && Owns(s.cos[j]) ==> s.cos[i].k != s.cos[j].k;
  }

  /** With wr_in_order the ranges are written one at a time, each where the one before it ended. */
  lemma WritesInOrder(c: Config, run: seq<State>, t: nat)
    requires Run(c, true, run) && t < |run|
    ensures forall k :: 0 <= k < |run[t].writes| ==> run[t].writes[k] == k < Claims(run[t])
    ensures forall i, j :: 0 <= i < j < |run[t].cos| ==> !(run[t].cos[i].Writing? && run[t].cos[j].Writing?)
    ensures forall i :: 0 <= i < |run[t].cos| && run[t].cos[i].Writing? ==> run[t].cos[i].k == |run[t].writes|
  {
    RunKeepsInv(c, true, run, t);
    var s := run[t];
    forall k | 0 <= k < |s.writes| ensures s.writes[k] == k < Claims(s) {
      assert s.writes[k] in s.writes;
    }
    forall i, j | 0 <= i < j < |s.cos| ensures !(s.cos[i].Writing? && s.cos[j].Writing?) {
      OneWriter(s, i, j);
    }
  }

  /** Who waits at a sector waits for a claim that ends there and whose owner will still come by. */
  lemma WaiterHasWaker(c: Config, inOrder: bool, run: seq<State>, t: nat, i: nat)
    requires Run(c, inOrder, run) && t < |run| && i < |run[t].cos| && run[t].cos[i].Parked?
    ensures inOrder && run[t].cos[i].k > 0 && HasOwner(run[t].cos, run[t].cos[i].k - 1)
  {
    RunKeepsInv(c, inOrder, run, t);
  }

  /** Success means that the whole target reads as the sources do. */
  lemma SuccessIsFaithful(c: Config, inOrder: bool, run: seq<State>, t: nat)
    requires Run(c, inOrder, run) && t < |run| && run[t].ret.Succeeded?
    ensures c.Copied(run[t].target, 0, c.Size())
  {
    RunKeepsInv(c, inOrder, run, t);
    var s := run[t];
    forall x | 0 <= x < c.Size() ensures c.Reads(s.target, x) == c.Want(x) {
      var k := FindClaim(s.bounds, x);
      assert !HasOwner(s.cos, k);
      assert k in s.done;
      assert CopiedOrNot(c, s.target, s.bounds[k], s.bounds[k + 1], k in s.writes);
    }
  }

  // ------------------------------------------------------------ every run comes to an end, and all coroutines finish

  /** From a coroutine that waits, back over the claims before it to one whose owner does not. */
  lemma {:induction false} NotAllWait(c: Config, inOrder: bool, s: State, i: nat) returns (j: nat)
    requires Inv(c, inOrder, s) && i < |s.cos| && s.cos[i].Parked?
    ensures j < |s.cos| && Owns(s.cos[j]) && !s.cos[j].Parked?
    decreases s.cos[i].k
  {
    var k := s.cos[i].k - 1;
    assert HasOwner(s.cos, k);
    j :| 0 <= j < |s.cos| && Owns(s.cos[j]) && s.cos[j].k == k;
    if s.cos[j].Parked? {
      j := NotAllWait(c, inOrder, s, j);
    }
  }

  /** A coroutine that neither waits nor wants the lock can go on. */
  lemma CanGoOn(c: Config, inOrder: bool, s: State, i: nat) returns (s': State)
    requires Inv(c, inOrder, s) && i < |s.cos|
    requires !s.cos[i].Finished? && !s.cos[i].Parked? && (s.cos[i].Looping? ==> s.lock.None?)
    ensures Step(c, inOrder, s, s', i)
  {
    match s.cos[i] {
      case NotStarted =>
        s' := s.(cos := s.cos[i := Looping]);
      case Looping =>
        s' := if !s.ret.InProgress? || s.sectorNum >= c.Size()
          then Finish(s, i)
          else s.(cos := s.cos[i := Locked], lock := Some(i));
      case Locked =>
        s' := s.(cos := s.cos[i := Reading(|s.bounds| - 1)], lock := None, sectorNum := s.sectorNum + 1,
                 status := Data, bounds := s.bounds + [s.sectorNum + 1], claimed := s.claimed + [Data]);
        assert Claim(c, s, s', i, 1);
      case Reading(k) =>
        s' := s.(cos := s.cos[i := Ready(k)]);
        assert Read(s, s', i, true);
      case Ready(k) =>
        s' := s.(cos := s.cos[i := if !s.ret.InProgress? then Written(k)
                                   else if inOrder && s.wrOffs != s.bounds[k] then Parked(k) else Writing(k)]);
      case Writing(k) =>
        var target := CopiedRange(c, s, k);
        s' := s.(cos := s.cos[i := Written(k)], target := target, writes := s.writes + [k]);
        assert Write(c, s, s', i, true, target);
      case Written(k) =>
        var r := s.(cos := s.cos[i := Looping], done := s.done + {k});
        s' := if inOrder then r.(wrOffs := s.bounds[k + 1], cos := Wake(r.cos, s.bounds, s.bounds[k + 1])) else r;
    }
  }

  lemma CopiedRange(c: Config, s: State, k: nat) returns (target: Layer)
    requires Contiguous(c, s) && c.Size() <= |s.target| && k < Claims(s)
    ensures SameOutside(target, s.target, s.bounds[k], s.bounds[k + 1]) &&
            c.Copied(target, s.bounds[k], s.bounds[k + 1])
  {
    var from, to := s.bounds[k], s.bounds[k + 1];
    assert k + 1 < |s.bounds| - 1 ==> to < s.bounds[|s.bounds| - 1];
    var buf := seq(to - from, x requires 0 <= x < to - from => c.Want(from + x));
    WriteCopies(c, s.target, from, buf);
    target := Images.Written(s.target, from, buf);
  }

  ghost predicate CanStep(c: Config, inOrder: bool, s: State) {
    exists s' :: Next(c, inOrder, s, s')
  }

  /** As long as some coroutine has not finished, one of them can go on. */
  lemma NoDeadlock(c: Config, inOrder: bool, run: seq<State>, t: nat, i: nat)
    requires Run(c, inOrder, run) && t < |run| && i < |run[t].cos| && !run[t].cos[i].Finished?
    ensures CanStep(c, inOrder, run[t])
  {
    RunKeepsInv(c, inOrder, run, t);
    var s, j := run[t], i;
    if s.cos[i].Parked? {
      j := NotAllWait(c, inOrder, s, i);
    } else if s.cos[i].Looping? && s.lock.Some? {
      j := s.lock.value;
    }
    var s' := CanGoOn(c, inOrder, s, j);
    assert Next(c, inOrder, s, s');
  }

  function Rank(pc: Pc): nat {
    match pc
    case Finished => 0
    case Locked => 1
    case Looping => 2
    case NotStarted => 3
    case Written(_) => 4
    case Writing(_) => 5
    case Parked(_) => 6
    case Ready(_) => 7
    case Reading(_) => 8
  }

  function Weight(cos: seq<Pc>): nat {
    if cos == [] then 0 else Rank(cos[0]) + Weight(cos[1..])
  }

  lemma {:induction false} WeightUpdate(cos: seq<Pc>, i: nat, pc: Pc)
    requires i < |cos|
    ensures Weight(cos[i := pc]) == Weight(cos) - Rank(cos[i]) + Rank(pc)
    decreases |cos|
  {
    if i == 0 {
      assert cos[i := pc][1..] == cos[1..];
    } else {
      WeightUpdate(cos[1..], i - 1, pc);
      assert cos[i := pc][1..] == cos[1..][i - 1 := pc];
    }
  }

  function Measure(c: Config, s: State): int {
    Weight(s.cos) + 10 * (c.Size() - s.sectorNum)
  }

  /** At most one coroutine waits for a sector. */
  lemma WakeWeight(c: Config, s: State, cos: seq<Pc>, wrOffs: nat)
    requires Contiguous(c, s) && Owned(cos, Claims(s), s.done)
    ensures Weight(Wake(cos, s.bounds, wrOffs)) <= Weight(cos) + 1
  {
    var woken := Wake(cos, s.bounds, wrOffs);
    if i :| 0 <= i < |cos| && cos[i].Parked? && cos[i].k < |s.bounds| && s.bounds[cos[i].k] == wrOffs {
      WeightUpdate(cos, i, Ready(cos[i].k));
      forall j | 0 <= j < |cos| && j != i ensures woken[j] == cos[j] {
        assert Owns(cos[i]);
        assert Owns(cos[j]) ==> cos[j].k != cos[i].k;
      }
      assert woken == cos[i := Ready(cos[i].k)];
    } else {
      assert woken == cos;
    }
  }

  lemma AdvanceDecreases(c: Config, inOrder: bool, s: State, s': State, i: nat)
    requires Contiguous(c, s) && Owned(s.cos, Claims(s), s.done) && i < |s.cos| && Advance(inOrder, s, s', i)
    ensures Measure(c, s') < Measure(c, s)
  {
    var k := s.cos[i].k;
    WeightUpdate(s.cos, i, Looping);
    OwnedDone(s.cos, i, Claims(s), s.done);
    WakeWeight(c, s.(done := s.done + {k}), s.cos[i := Looping], s.bounds[k + 1]);
  }

  lemma OthersDecrease(c: Config, inOrder: bool, s: State, s': State, i: nat)
    requires Step(c, inOrder, s, s', i) && !Advance(inOrder, s, s', i)
    ensures Measure(c, s') < Measure(c, s)
  {
    if n: nat :| Claim(c, s, s', i, n) {
      WeightUpdate(s.cos, i, s'.cos[i]);
    } else {
      OthersStep(c, inOrder, s, s', i);
      WeightUpdate(s.cos, i, s'.cos[i]);
    }
  }

  lemma OthersStep(c: Config, inOrder: bool, s: State, s': State, i: nat)
    requires Step(c, inOrder, s, s', i) && !Advance(inOrder, s, s', i) && !exists n: nat :: Claim(c, s, s', i, n)
    ensures s'.sectorNum == s.sectorNum && s'.cos == s.cos[i := s'.cos[i]] && Rank(s'.cos[i]) < Rank(s.cos[i])
  {
  }

  /** Every step uses up something, so no run goes on for ever. */
  lemma StepDecreases(c: Config, inOrder: bool, s: State, s': State, i: nat)
    requires Inv(c, inOrder, s) && Step(c, inOrder, s, s', i)
    ensures 0 <= Measure(c, s') < Measure(c, s)
  {
    StepKeepsInv(c, inOrder, s, s', i);
    if Advance(inOrder, s, s', i) {
      AdvanceDecreases(c, inOrder, s, s', i);
    } else {
      OthersDecrease(c, inOrder, s, s', i);
    }
  }

  // ------------------------------------------------------------ the result

  predicate Running(pc: Pc) {
    !pc.NotStarted? && !pc.Finished?
  }

  /** Until there is a result, a coroutine that is finished leaves another one running. */
  ghost predicate Busy(s: State) {
    s.ret.InProgress? && (exists i :: 0 <= i < |s.cos| && s.cos[i].Finished?) ==>
      exists j :: 0 <= j < |s.cos| && Running(s.cos[j])
  }

  lemma StepKeepsBusy(c: Config, inOrder: bool, s: State, s': State, i: nat)
    requires Busy(s) && Step(c, inOrder, s, s', i)
    ensures Busy(s')
  {
    if s'.cos[i].Finished? {
      if s'.ret.InProgress? {
        var j :| 0 <= j < |s.cos| && j != i && !(s.cos[j].NotStarted? || s.cos[j].Finished?);
        assert Running(s'.cos[j]);
      }
    } else {
      assert Running(s'.cos[i]);
    }
  }

  lemma {:induction false} RunKeepsBusy(c: Config, inOrder: bool, run: seq<State>, t: nat)
    requires Run(c, inOrder, run) && t < |run|
    ensures Busy(run[t]) && |run[t].cos| == |run[0].cos|
  {
    if t > 0 {
      RunKeepsBusy(c, inOrder, run, t - 1);
      assert Next(c, inOrder, run[t - 1], run[t]);
      var i :| Step(c, inOrder, run[t - 1], run[t], i);
      StepKeepsBusy(c, inOrder, run[t - 1], run[t], i);
    }
  }

  /** A step in which asking for the status, reading or writing fails. */
  ghost predicate Fails(c: Config, s: State, s': State, i: nat) {
    && i < |s.cos|
    && (ClaimFails(s, s', i) || Read(s, s', i, false) || exists target :: Write(c, s, s', i, false, target))
  }

  ghost predicate SomeFails(c: Config, s: State, s': State) {
    exists i :: Fails(c, s, s', i)
  }

  ghost predicate FailsAt(c: Config, run: seq<State>, t: nat) {
    t + 1 < |run| && SomeFails(c, run[t], run[t + 1])
  }

  lemma ErrorStep(c: Config, inOrder: bool, s: State, s': State, i: nat)
    requires Step(c, inOrder, s, s', i) && s'.ret.Error?
    ensures s.ret.Error? || Fails(c, s, s', i)
  {
    if ok, target :| Write(c, s, s', i, ok, target) {
      assert !ok ==> Write(c, s, s', i, false, target);
    }
  }

  lemma ErrorStays(c: Config, inOrder: bool, s: State, s': State, i: nat)
    requires Step(c, inOrder, s, s', i) && s.ret.Error?
    ensures s'.ret.Error?
  {
  }

  /** A failing step is what makes an error, which stays. */
  lemma NextError(c: Config, inOrder: bool, s: State, s': State)
    requires Next(c, inOrder, s, s')
    ensures s'.ret.Error? <==> s.ret.Error? || SomeFails(c, s, s')
  {
    var i :| Step(c, inOrder, s, s', i);
    if s.ret.Error? {
      ErrorStays(c, inOrder, s, s', i);
    } else if s'.ret.Error? {
      ErrorStep(c, inOrder, s, s', i);
    }
  }

  lemma {:induction false} ErrorOfSome(c: Config, run: seq<State>, t: nat)
    requires t < |run| && !run[0].ret.Error?
    requires forall u, v :: 0 <= u && v == u + 1 < |run| ==>
               (run[v].ret.Error? <==> run[u].ret.Error? || SomeFails(c, run[u], run[v]))
    ensures run[t].ret.Error? <==> exists u: nat :: u < t && FailsAt(c, run, u)
  {
    if t > 0 {
      ErrorOfSome(c, run, t - 1);
      assert FailsAt(c, run, t - 1) <==> SomeFails(c, run[t - 1], run[t]);
    }
  }

  /** There is an error exactly when some step before has failed. */
  lemma ErrorIffFailed(c: Config, inOrder: bool, run: seq<State>, t: nat)
    requires Run(c, inOrder, run) && t < |run|
    ensures run[t].ret.Error? <==> exists u: nat :: u < t && FailsAt(c, run, u)
  {
    forall u, v | 0 <= u && v == u + 1 < |run|
      ensures run[v].ret.Error? <==> run[u].ret.Error? || SomeFails(c, run[u], run[v])
    {
      NextError(c, inOrder, run[u], run[v]);
    }
    ErrorOfSome(c, run, t);
  }

  /**
   A run that cannot go on has a result: an error if some step failed, and otherwise, for there is no
   other error, success and a target that reads as the sources do.
   */
  lemma FinalResult(c: Config, inOrder: bool, run: seq<State>)
    requires Run(c, inOrder, run) && run[0].cos != [] && !CanStep(c, inOrder, run[|run| - 1])
    ensures var s := run[|run| - 1];
            && (forall i :: 0 <= i < |s.cos| ==> s.cos[i].Finished?)
            && if exists u: nat :: FailsAt(c, run, u) then s.ret.Error?
               else s.ret.Succeeded? && c.Copied(s.target, 0, c.Size())
  {
    var t := |run| - 1;
    var s := run[t];
    RunKeepsBusy(c, inOrder, run, t);
    forall i | 0 <= i < |s.cos| ensures s.cos[i].Finished? {
      if !s.cos[i].Finished? {
        NoDeadlock(c, inOrder, run, t, i);
      }
    }
    assert s.cos[0].Finished?;
    ErrorIffFailed(c, inOrder, run, t);
    if s.ret.Succeeded? {
      SuccessIsFaithful(c, inOrder, run, t);
    }
  }
}
