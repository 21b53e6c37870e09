/**
 The exclusive-section protocol of cpu-common.c: any number of vCPU threads run
 cpu_exec_start/cpu_exec_end and start_exclusive/end_exclusive over one mutex, two
 condition variables, the global pending_cpus and the per-CPU running and has_waiter.

 A state holds every CPU's program counter.  A step is one atomic action of one CPU;
 the accesses made without the mutex (running, and the reads of pending_cpus in the
 fast paths) are steps of their own, so every interleaving is a run.  The barriers are
 taken as sequential consistency and the set of CPUs is fixed.
 */
module ExclusiveProtocol {
  import opened Counting
  import opened Options

  datatype Pc =
    | Outside                    // not in cpu_exec, owns no exclusive section
      // cpu_exec_start
    | ExecRaised                 // running := true done, pending_cpus not read yet
    | ExecLocking                // pending_cpus was nonzero, wants the mutex
    | ExecLocked                 // mutex held, has_waiter not read yet
    | ExecIdling                 // mutex held, running lowered, at the test of exclusive_idle
    | ExecWaiting                // blocked on exclusive_resume
    | ExecWoken                  // notified, wants the mutex back
    | ExecResumed                // mutex held, pending_cpus seen zero
    | ExecUnlocking              // mutex held, running is true
    | Executing                  // cpu_exec_start returned, cpu_exec_end not begun
      // cpu_exec_end
    | EndLowered                 // running := false done, pending_cpus not read yet
    | EndLocking
    | EndLocked                  // mutex held, has_waiter not read yet
    | EndSignalling              // mutex held, pending_cpus decremented
    | EndUnlocking
      // start_exclusive
    | ExclLocking
    | ExclIdling                 // mutex held, at the test of exclusive_idle
    | ExclWaiting                // blocked on exclusive_resume
    | ExclWoken
    | ExclClaiming               // mutex held, pending_cpus seen zero
    | Scanning(next: nat, seen: nat)  // mutex held, CPU_FOREACH at index next
    | Draining                   // mutex held, at the test pending_cpus > 1
    | DrainWaiting               // blocked on exclusive_cond
    | DrainWoken
    | ExclUnlocking
    | ExclEntering               // mutex released, exclusive_context_count not set yet
    | Exclusive
      // end_exclusive
    | LeaveLocking
    | LeaveLocked                // mutex held, pending_cpus not reset yet
    | LeaveBroadcasting          // mutex held, pending_cpus is zero
    | LeaveUnlocking

  datatype Cpu = Cpu(pc: Pc, running: bool, hasWaiter: bool, depth: nat)

  datatype State = State(cpus: seq<Cpu>, pending: int, lock: Option<nat>)

  /** What a CPU may choose where its program counter leaves a choice. */
  datatype Choice =
    | Proceed            // the only continuation
    | EnterExec          // call cpu_exec_start
    | LeaveExec          // call cpu_exec_end
    | EnterExclusive     // call start_exclusive
    | LeaveExclusive     // call end_exclusive
    | Signal(who: nat)   // the waiter that qemu_cond_signal picks
    | Spurious           // a condition wait returns without a notification

  predicate Init(s: State) {
    && s.pending == 0
    && s.lock == None
    && forall i :: 0 <= i < |s.cpus| ==> s.cpus[i] == Cpu(Outside, false, false, 0)
  }

  // ---------------------------------------------------------------- steps

  function Goto(s: State, k: nat, pc: Pc): State
    requires k < |s.cpus|
  {
    s.(cpus := s.cpus[k := s.cpus[k].(pc := pc)])
  }

  /** Takes the mutex, if it is free. */
  function Acquire(s: State, k: nat, pc: Pc): Option<State>
    requires k < |s.cpus|
  {
    if s.lock.None? then Some(Goto(s, k, pc).(lock := Some(k))) else None
  }

  function Release(s: State, k: nat, pc: Pc): State
    requires k < |s.cpus|
  {
    Goto(s, k, pc).(lock := None)
  }

  function SetRunning(s: State, k: nat, running: bool, pc: Pc): State
    requires k < |s.cpus|
  {
    s.(cpus := s.cpus[k := s.cpus[k].(pc := pc, running := running)])
  }

  /** Where a waiter of exclusive_resume goes when it is notified. */
  function Woken(c: Cpu): Cpu {
    if c.pc.ExecWaiting? then c.(pc := ExecWoken)
    else if c.pc.ExclWaiting? then c.(pc := ExclWoken)
    else c
  }

  function Broadcast(cpus: seq<Cpu>): (r: seq<Cpu>)
    ensures |r| == |cpus|
    ensures forall i :: 0 <= i < |r| ==> r[i] == Woken(cpus[i])
  {
    seq(|cpus|, i requires 0 <= i < |cpus| => Woken(cpus[i]))
  }

  predicate AnyDrainWaiting(cpus: seq<Cpu>) {
    exists i :: 0 <= i < |cpus| && cpus[i].pc.DrainWaiting?
  }

  /** qemu_cond_signal(&exclusive_cond): wakes one waiter, or nobody when there is none. */
  function SignalDrain(cpus: seq<Cpu>, ch: Choice): Option<seq<Cpu>> {
    match ch
    case Signal(j) =>
      if j < |cpus| && cpus[j].pc.DrainWaiting? then Some(cpus[j := cpus[j].(pc := DrainWoken)]) else None
    case Proceed => if AnyDrainWaiting(cpus) then None else Some(cpus)
    case _ => None
  }

  /** start_exclusive up to the mutex: a CPU already in an exclusive section only counts. */
  function StartExclusive(s: State, k: nat): State
    requires k < |s.cpus|
  {
    var c := s.cpus[k];
    if c.depth != 0 then s.(cpus := s.cpus[k := c.(depth := c.depth + 1)])
    else Goto(s, k, ExclLocking)
  }

  /** end_exclusive up to the mutex. */
  function EndExclusive(s: State, k: nat): State
    requires k < |s.cpus| && s.cpus[k].depth > 0
  {
    var c := s.cpus[k];
    var pc := if c.depth == 1 then LeaveLocking else Exclusive;
    s.(cpus := s.cpus[k := c.(depth := c.depth - 1, pc := pc)])
  }

  /** One turn of CPU_FOREACH in start_exclusive. */
  function Scan(s: State, k: nat): State
    requires k < |s.cpus| && s.cpus[k].pc.Scanning? && s.cpus[k].pc.next < |s.cpus|
  {
    var i, seen := s.cpus[k].pc.next, s.cpus[k].pc.seen;
    if s.cpus[i].running then
      var marked := s.cpus[i := s.cpus[i].(hasWaiter := true)];
      s.(cpus := marked[k := marked[k].(pc := Scanning(i + 1, seen + 1))])
    else
      Goto(s, k, Scanning(i + 1, seen))
  }

  /** The program counters of cpu_exec_start, and its next atomic action. */
  predicate InStart(pc: Pc) {
    pc.ExecRaised? || pc.ExecLocking? || pc.ExecLocked? || pc.ExecIdling? ||
    pc.ExecWoken? || pc.ExecResumed? || pc.ExecUnlocking?
  }

  function NextStart(s: State, k: nat): Option<State>
    requires k < |s.cpus|
  {
    var c := s.cpus[k];
    match c.pc
    case ExecRaised => Some(Goto(s, k, if s.pending != 0 then ExecLocking else Executing))
    case ExecLocking => Acquire(s, k, ExecLocked)
    case ExecLocked =>
      Some(if c.hasWaiter then Goto(s, k, ExecUnlocking) else SetRunning(s, k, false, ExecIdling))
    case ExecIdling =>
      Some(if s.pending != 0 then Release(s, k, ExecWaiting) else Goto(s, k, ExecResumed))
    case ExecWoken => Acquire(s, k, ExecIdling)
    case ExecResumed => Some(SetRunning(s, k, true, ExecUnlocking))
    case ExecUnlocking => Some(Release(s, k, Executing))
    case _ => None
  }

  /** The program counters of cpu_exec_end, and its next atomic action. */
  predicate InEnd(pc: Pc) {
    pc.EndLowered? || pc.EndLocking? || pc.EndLocked? || pc.EndSignalling? || pc.EndUnlocking?
  }

  function NextEnd(s: State, k: nat, ch: Choice): Option<State>
    requires k < |s.cpus|
  {
    var c := s.cpus[k];
    match c.pc
    case EndLowered => Some(Goto(s, k, if s.pending != 0 then EndLocking else Outside))
    case EndLocking => Acquire(s, k, EndLocked)
    case EndLocked =>
      Some(if c.hasWaiter then
             s.(pending := s.pending - 1, cpus := s.cpus[k := c.(hasWaiter := false, pc := EndSignalling)])
           else Goto(s, k, EndUnlocking))
    case EndSignalling =>
      if s.pending == 1 then
        var woken := SignalDrain(s.cpus, ch);
        if woken.None? then None else Some(Goto(s.(cpus := woken.value), k, EndUnlocking))
      else Some(Goto(s, k, EndUnlocking))
    case EndUnlocking => Some(Release(s, k, Outside))
    case _ => None
  }

  /** The program counters of start_exclusive, and its next atomic action. */
  predicate InStartExclusive(pc: Pc) {
    pc.ExclLocking? || pc.ExclIdling? || pc.ExclWoken? || pc.ExclClaiming? || pc.Scanning? ||
    pc.Draining? || pc.DrainWoken? || pc.ExclUnlocking? || pc.ExclEntering?
  }

  function NextStartExclusive(s: State, k: nat): Option<State>
    requires k < |s.cpus|
  {
    var c := s.cpus[k];
    match c.pc
    case ExclLocking => Acquire(s, k, ExclIdling)
    case ExclIdling =>
      Some(if s.pending != 0 then Release(s, k, ExclWaiting) else Goto(s, k, ExclClaiming))
    case ExclWoken => Acquire(s, k, ExclIdling)
    case ExclClaiming => Some(Goto(s, k, Scanning(0, 0)).(pending := 1))
    case Scanning(i, seen) =>
      Some(if i < |s.cpus| then Scan(s, k) else Goto(s, k, Draining).(pending := seen + 1))
    case Draining =>
      Some(if s.pending > 1 then Release(s, k, DrainWaiting) else Goto(s, k, ExclUnlocking))
    case DrainWoken => Acquire(s, k, Draining)
    case ExclUnlocking => Some(Release(s, k, ExclEntering))
    case ExclEntering => Some(s.(cpus := s.cpus[k := c.(depth := 1, pc := Exclusive)]))
    case _ => None
  }

  /** The program counters of end_exclusive, and its next atomic action. */
  predicate InEndExclusive(pc: Pc) {
    pc.LeaveLocking? || pc.LeaveLocked? || pc.LeaveBroadcasting? || pc.LeaveUnlocking?
  }

  function NextEndExclusive(s: State, k: nat): Option<State>
    requires k < |s.cpus|
  {
    match s.cpus[k].pc
    case LeaveLocking => Acquire(s, k, LeaveLocked)
    case LeaveLocked => Some(Goto(s, k, LeaveBroadcasting).(pending := 0))
    case LeaveBroadcasting => Some(Goto(s.(cpus := Broadcast(s.cpus)), k, LeaveUnlocking))
    case LeaveUnlocking => Some(Release(s, k, Outside))
    case _ => None
  }

  /** A thread calls one of the four functions: the part before the first shared access. */
  function Call(s: State, k: nat, ch: Choice): Option<State>
    requires k < |s.cpus|
  {
    var c := s.cpus[k];
    match (c.pc, ch)
    case (Outside, EnterExec) => Some(SetRunning(s, k, true, ExecRaised))
    case (Executing, LeaveExec) => Some(SetRunning(s, k, false, EndLowered))
    case (Outside, EnterExclusive) => Some(StartExclusive(s, k))
    case (Exclusive, EnterExclusive) => Some(StartExclusive(s, k))
    case (Exclusive, LeaveExclusive) => if c.depth > 0 then Some(EndExclusive(s, k)) else None
    case _ => None
  }

  /** A condition wait returns without having been notified. */
  function WakeSpuriously(s: State, k: nat): Option<State>
    requires k < |s.cpus|
  {
    match s.cpus[k].pc
    case ExecWaiting => Some(Goto(s, k, ExecWoken))
    case ExclWaiting => Some(Goto(s, k, ExclWoken))
    case DrainWaiting => Some(Goto(s, k, DrainWoken))
    case _ => None
  }

  /** The state after CPU k takes its next atomic action, or None when it cannot. */
  function Next(s: State, k: nat, ch: Choice): Option<State>
    requires k < |s.cpus|
  {
    var pc := s.cpus[k].pc;
    if ch.Spurious? then WakeSpuriously(s, k)
    else if !ch.Proceed? && !ch.Signal? then Call(s, k, ch)
    else if InStart(pc) then NextStart(s, k)
    else if InEnd(pc) then NextEnd(s, k, ch)
    else if InStartExclusive(pc) then NextStartExclusive(s, k)
    else if InEndExclusive(pc) then NextEndExclusive(s, k)
    else None
  }

  predicate Step(s: State, k: nat, ch: Choice, t: State) {
    k < |s.cpus| && Next(s, k, ch) == Some(t)
  }

  ghost predicate Steps(s: State, t: State) {
    exists k: nat, ch :: Step(s, k, ch, t)
  }

  /** A run: every state follows from the one before by a step of some CPU. */
  ghost predicate Run(states: seq<State>) {
    && |states| > 0
    && Init(states[0])
    && forall n :: 0 <= n < |states| - 1 ==> Steps(states[n], states[n + 1])
  }

  // ---------------------------------------------------------------- the invariant

  /** The mutex is held at these program counters. */
  predicate Holds(pc: Pc) {
    pc.ExecLocked? || pc.ExecIdling? || pc.ExecResumed? || pc.ExecUnlocking? ||
    pc.EndLocked? || pc.EndSignalling? || pc.EndUnlocking? ||
    pc.ExclIdling? || pc.ExclClaiming? || pc.Scanning? || pc.Draining? || pc.ExclUnlocking? ||
    pc.LeaveLocked? || pc.LeaveBroadcasting? || pc.LeaveUnlocking?
  }

  /** cpu->running is true at these program counters. */
  predicate Raised(pc: Pc) {
    pc.ExecRaised? || pc.ExecLocking? || pc.ExecLocked? || pc.ExecUnlocking? || pc.Executing?
  }

  /** Inside cpu_exec, or certain to be when the mutex is released. */
  predicate InExec(pc: Pc) {
    pc.ExecUnlocking? || pc.Executing?
  }

  /** A CPU counted in pending_cpus has not passed the decrement in cpu_exec_end. */
  predicate MayBeCounted(pc: Pc) {
    Raised(pc) || pc.EndLowered? || pc.EndLocking? || pc.EndLocked?
  }

  /** From a returned start_exclusive to the reset of pending_cpus. */
  predicate InExclusive(pc: Pc) {
    pc.ExclUnlocking? || pc.ExclEntering? || pc.Exclusive? || pc.LeaveLocking? || pc.LeaveLocked?
  }

  /** Has set pending_cpus and not reset it. */
  predicate Owns(pc: Pc) {
    pc.Scanning? || pc.Draining? || pc.DrainWaiting? || pc.DrainWoken? || InExclusive(pc)
  }

  /** The number of CPUs with has_waiter set. */
  function Waiters(cpus: seq<Cpu>): nat {
    if cpus == [] then 0 else One(cpus[0].hasWaiter) + Waiters(cpus[1..])
  }

  ghost predicate LockInv(s: State) {
    && (s.lock.Some? ==> s.lock.value < |s.cpus| && Holds(s.cpus[s.lock.value].pc))
    && forall i :: 0 <= i < |s.cpus| && Holds(s.cpus[i].pc) ==> s.lock == Some(i)
  }

  /** What the fields of one CPU have to do with its program counter. */
  predicate CpuInv(c: Cpu, pending: int) {
    && c.running == Raised(c.pc)
    && (c.depth > 0 <==> c.pc.Exclusive?)
    && (c.hasWaiter ==> MayBeCounted(c.pc) && pending > 0)
    && (c.pc.ExecResumed? || c.pc.ExclClaiming? || c.pc.LeaveBroadcasting? ==> pending == 0)
    && (c.pc.EndSignalling? ==> pending > 0)
  }

  /** Nobody sleeps on a condition variable that nobody will notify. */
  predicate WaitInv(c: Cpu, s: State) {
    && (c.pc.DrainWaiting? ==> s.pending > 1 || Signalling(s))
    && (c.pc.ExecWaiting? || c.pc.ExclWaiting? ==> s.pending > 0 || Broadcasting(s))
  }

  predicate Signalling(s: State) {
    s.lock.Some? && s.lock.value < |s.cpus| && s.cpus[s.lock.value].pc.EndSignalling?
  }

  predicate Broadcasting(s: State) {
    s.lock.Some? && s.lock.value < |s.cpus| && s.cpus[s.lock.value].pc.LeaveBroadcasting?
  }

  /** Every CPU below limit that is inside cpu_exec is counted. */
  ghost predicate CountedBelow(cpus: seq<Cpu>, limit: nat) {
    forall j :: 0 <= j < limit && j < |cpus| && InExec(cpus[j].pc) ==> cpus[j].hasWaiter
  }

  /** What pending_cpus counts, depending on how far the owner is. */
  ghost predicate OwnerInv(s: State, pc: Pc) {
    if pc.Scanning? then
      && pc.next <= |s.cpus| && s.pending == 1
      && pc.seen == Waiters(s.cpus)
      && (forall j :: pc.next <= j < |s.cpus| ==> !s.cpus[j].hasWaiter)
      && CountedBelow(s.cpus, pc.next)
    else
      && s.pending == 1 + Waiters(s.cpus)
      && (InExclusive(pc) ==> s.pending == 1)
      && CountedBelow(s.cpus, |s.cpus|)
  }

  /** The invariant, for the CPU (if any) that has set pending_cpus. */
  ghost predicate InvAt(s: State, owner: Option<nat>) {
    && LockInv(s)
    && (owner.Some? ==> owner.value < |s.cpus|)
    && (forall i :: 0 <= i < |s.cpus| ==> (Owns(s.cpus[i].pc) <==> owner == Some(i)))
    && (if owner.Some? then s.pending > 0 else s.pending == 0)
    && (forall i :: 0 <= i < |s.cpus| ==> CpuInv(s.cpus[i], s.pending))
    && (forall i :: 0 <= i < |s.cpus| ==> WaitInv(s.cpus[i], s))
    && (owner.Some? ==> OwnerInv(s, s.cpus[owner.value].pc))
  }

  ghost predicate Inv(s: State) {
    exists owner :: InvAt(s, owner)
  }

  // ---------------------------------------------------------------- counting

  lemma {:induction false} WaitersUpdate(cpus: seq<Cpu>, i: nat, c: Cpu)
    requires i < |cpus|
    ensures Waiters(cpus[i := c]) == Waiters(cpus) - One(cpus[i].hasWaiter) + One(c.hasWaiter)
  {
    if i == 0 {
      assert cpus[i := c][1..] == cpus[1..];
    } else {
      assert cpus[i := c][1..] == cpus[1..][i - 1 := c];
      WaitersUpdate(cpus[1..], i - 1, c);
    }
  }

  lemma {:induction false} WaitersZero(cpus: seq<Cpu>)
    ensures Waiters(cpus) == 0 <==> forall i :: 0 <= i < |cpus| ==> !cpus[i].hasWaiter
  {
    if cpus != [] {
      WaitersZero(cpus[1..]);
      assert forall i :: 1 <= i < |cpus| ==> cpus[i] == cpus[1..][i - 1];
      assert forall i :: 0 <= i < |cpus| - 1 ==> cpus[1..][i] == cpus[i + 1];
    }
  }

  // ---------------------------------------------------------------- every step keeps the invariant

  /** The state after only CPU k and the mutex changed. */
  function Put(s: State, k: nat, c: Cpu, lock: Option<nat>): State
    requires k < |s.cpus|
  {
    State(s.cpus[k := c], s.pending, lock)
  }

  /** CPU k keeps, takes or drops the mutex, and its program counter says so. */
  predicate LockMove(before: Pc, after: Pc, k: nat, lock: Option<nat>, lock': Option<nat>) {
    || (lock' == lock && Holds(after) == Holds(before))
    || (lock.None? && lock' == Some(k) && Holds(after))
    || (Holds(before) && lock'.None? && !Holds(after))
  }

  /** A move of one CPU from b to c that touches no has_waiter and keeps what the invariant says of it. */
  predicate QuietMove(b: Cpu, c: Cpu, pending: int) {
    && c.hasWaiter == b.hasWaiter && Owns(c.pc) == Owns(b.pc)
    && (InExec(c.pc) ==> InExec(b.pc) || c.hasWaiter || pending == 0)
    && CpuInv(c, pending)
  }

  /** One that nobody waits for, and that does not go to sleep without need. */
  predicate LocalMove(b: Cpu, c: Cpu, pending: int) {
    && QuietMove(b, c, pending)
    && !b.pc.LeaveBroadcasting? && (b.pc.EndSignalling? ==> pending > 1)
    && (c.pc.DrainWaiting? ==> pending > 1)
    && (c.pc.ExecWaiting? || c.pc.ExclWaiting? ==> pending > 0)
  }

  lemma LockMoveKeepsLock(s: State, k: nat, t: State)
    requires k < |s.cpus| == |t.cpus| && LockInv(s)
    requires LockMove(s.cpus[k].pc, t.cpus[k].pc, k, s.lock, t.lock)
    requires forall i :: 0 <= i < |s.cpus| && i != k ==> Holds(t.cpus[i].pc) == Holds(s.cpus[i].pc)
    ensures LockInv(t)
  {
  }

  ghost predicate AllWaitInv(s: State) {
    forall i :: 0 <= i < |s.cpus| ==> WaitInv(s.cpus[i], s)
  }

  /** A quiet move keeps the invariant, if nobody is left waiting; an owner has to answer for its own part. */
  lemma QuietKeepsInv(s: State, k: nat, c: Cpu, lock: Option<nat>, owner: Option<nat>)
    requires InvAt(s, owner) && k < |s.cpus|
    requires QuietMove(s.cpus[k], c, s.pending) && LockMove(s.cpus[k].pc, c.pc, k, s.lock, lock)
    requires AllWaitInv(Put(s, k, c, lock)) && (owner == Some(k) ==> OwnerInv(Put(s, k, c, lock), c.pc))
    ensures InvAt(Put(s, k, c, lock), owner)
  {
    LockMoveKeepsLock(s, k, Put(s, k, c, lock));
    if owner.Some? && owner.value != k {
      QuietKeepsOwner(s, k, c, lock, owner.value);
    }
  }

  lemma LocalKeepsInv(s: State, k: nat, c: Cpu, lock: Option<nat>, owner: Option<nat>)
    requires InvAt(s, owner) && k < |s.cpus|
    requires LocalMove(s.cpus[k], c, s.pending) && LockMove(s.cpus[k].pc, c.pc, k, s.lock, lock)
    requires owner == Some(k) ==> OwnerInv(Put(s, k, c, lock), c.pc)
    ensures InvAt(Put(s, k, c, lock), owner)
  {
    LockMoveKeepsLock(s, k, Put(s, k, c, lock));
    LocalKeepsWait(s, k, c, lock);
    QuietKeepsInv(s, k, c, lock, owner);
  }

  lemma LocalKeepsWait(s: State, k: nat, c: Cpu, lock: Option<nat>)
    requires k < |s.cpus| && LockInv(s) && LockInv(Put(s, k, c, lock))
    requires forall i :: 0 <= i < |s.cpus| ==> CpuInv(s.cpus[i], s.pending) && WaitInv(s.cpus[i], s)
    requires LocalMove(s.cpus[k], c, s.pending)
    ensures AllWaitInv(Put(s, k, c, lock))
  {
  }

  lemma QuietKeepsOwner(s: State, k: nat, c: Cpu, lock: Option<nat>, o: nat)
    requires k < |s.cpus| && o < |s.cpus| && o != k
    requires OwnerInv(s, s.cpus[o].pc) && s.pending > 0
    requires QuietMove(s.cpus[k], c, s.pending)
    ensures OwnerInv(Put(s, k, c, lock), s.cpus[o].pc)
  {
    WaitersUpdate(s.cpus, k, c);
  }

  /** t is s after a local move of CPU k. */
  ghost predicate IsLocal(s: State, k: nat, t: State) {
    && k < |s.cpus| == |t.cpus|
    && t == Put(s, k, t.cpus[k], t.lock)
    && LocalMove(s.cpus[k], t.cpus[k], s.pending)
    && LockMove(s.cpus[k].pc, t.cpus[k].pc, k, s.lock, t.lock)
  }

  /** The move does not begin or end in the scan, and enters the exclusive section only when everybody is out. */
  predicate StaysOutOfScan(s: State, k: nat, t: State) {
    && k < |s.cpus| == |t.cpus| && !s.cpus[k].pc.Scanning? && !t.cpus[k].pc.Scanning?
    && (InExclusive(t.cpus[k].pc) ==> InExclusive(s.cpus[k].pc) || s.pending <= 1)
  }

  lemma StartIsLocal(s: State, k: nat, t: State)
    requires k < |s.cpus| && CpuInv(s.cpus[k], s.pending) && s.pending >= 0
    requires NextStart(s, k) == Some(t)
    ensures IsLocal(s, k, t) && StaysOutOfScan(s, k, t)
  {
  }

  lemma EndIsLocal(s: State, k: nat, ch: Choice, t: State)
    requires k < |s.cpus| && CpuInv(s.cpus[k], s.pending)
    requires NextEnd(s, k, ch) == Some(t)
    requires s.cpus[k].pc.EndLocked? ==> !s.cpus[k].hasWaiter
    requires s.cpus[k].pc.EndSignalling? ==> s.pending != 1
    ensures IsLocal(s, k, t) && StaysOutOfScan(s, k, t)
  {
  }

  lemma StartExclusiveIsLocal(s: State, k: nat, t: State)
    requires k < |s.cpus| && CpuInv(s.cpus[k], s.pending) && s.pending >= 0
    requires !s.cpus[k].pc.ExclClaiming? && !s.cpus[k].pc.Scanning?
    requires NextStartExclusive(s, k) == Some(t)
    ensures IsLocal(s, k, t) && StaysOutOfScan(s, k, t)
  {
  }

  lemma EndExclusiveIsLocal(s: State, k: nat, t: State)
    requires k < |s.cpus| && CpuInv(s.cpus[k], s.pending)
    requires !s.cpus[k].pc.LeaveLocked? && !s.cpus[k].pc.LeaveBroadcasting?
    requires NextEndExclusive(s, k) == Some(t)
    ensures IsLocal(s, k, t) && StaysOutOfScan(s, k, t)
  {
  }

  lemma CallIsLocal(s: State, k: nat, ch: Choice, t: State)
    requires k < |s.cpus| && CpuInv(s.cpus[k], s.pending)
    requires Call(s, k, ch) == Some(t)
    ensures IsLocal(s, k, t) && StaysOutOfScan(s, k, t)
  {
  }

  lemma SpuriousIsLocal(s: State, k: nat, t: State)
    requires k < |s.cpus| && CpuInv(s.cpus[k], s.pending)
    requires WakeSpuriously(s, k) == Some(t)
    ensures IsLocal(s, k, t) && StaysOutOfScan(s, k, t)
  {
  }

  /** The owner moves between program counters past the scan. */
  lemma OwnerMoves(s: State, k: nat, t: State)
    requires k < |s.cpus| && IsLocal(s, k, t)
    requires Owns(s.cpus[k].pc) && OwnerInv(s, s.cpus[k].pc)
    requires !s.cpus[k].pc.Scanning? && !t.cpus[k].pc.Scanning?
    requires InExclusive(t.cpus[k].pc) ==> s.pending == 1
    ensures OwnerInv(t, t.cpus[k].pc)
  {
    WaitersUpdate(s.cpus, k, t.cpus[k]);
  }

  /** Taking a CPU off the count keeps what the owner relies on. */
  lemma EndDecrementOwner(s: State, k: nat, t: State, o: nat)
    requires k < |s.cpus| && o < |s.cpus| && o != k && OwnerInv(s, s.cpus[o].pc) && CpuInv(s.cpus[k], s.pending)
    requires s.cpus[k].pc.EndLocked? && s.cpus[k].hasWaiter && NextEnd(s, k, Proceed) == Some(t)
    requires s.lock == Some(k) && LockInv(s)
    ensures OwnerInv(t, s.cpus[o].pc) && t.pending > 0
  {
    WaitersUpdate(s.cpus, k, t.cpus[k]);
  }

  lemma EndDecrementKeepsInv(s: State, k: nat, t: State, owner: Option<nat>)
    requires InvAt(s, owner) && k < |s.cpus|
    requires s.cpus[k].pc.EndLocked? && s.cpus[k].hasWaiter && NextEnd(s, k, Proceed) == Some(t)
    ensures InvAt(t, owner)
  {
    LockMoveKeepsLock(s, k, t);
    EndDecrementOwner(s, k, t, owner.value);
  }

  /** A signaller that finds nobody waiting has nobody to wake. */
  lemma SignalNobodyWaits(s: State, k: nat)
    requires k < |s.cpus| && LockInv(s) && s.cpus[k].pc.EndSignalling? && !AnyDrainWaiting(s.cpus) && AllWaitInv(s)
    ensures AllWaitInv(Goto(s, k, EndUnlocking))
  {
  }

  lemma SignalNobodyKeepsInv(s: State, k: nat, owner: Option<nat>)
    requires InvAt(s, owner) && k < |s.cpus|
    requires s.cpus[k].pc.EndSignalling? && !AnyDrainWaiting(s.cpus)
    ensures InvAt(Goto(s, k, EndUnlocking), owner)
  {
    var t := Goto(s, k, EndUnlocking);
    SignalNobodyWaits(s, k);
    assert CpuInv(s.cpus[k], s.pending);
    assert t == Put(s, k, t.cpus[k], s.lock);
    QuietKeepsInv(s, k, t.cpus[k], s.lock, owner);
  }

  /** The signal is the waiter's wake-up followed by a signaller that finds nobody waiting. */
  lemma SignalKeepsInv(s: State, k: nat, ch: Choice, t: State, owner: Option<nat>)
    requires InvAt(s, owner) && k < |s.cpus|
    requires s.cpus[k].pc.EndSignalling? && s.pending == 1 && NextEnd(s, k, ch) == Some(t)
    ensures InvAt(t, owner)
  {
    if ch.Signal? {
      var mid := Goto(s, ch.who, DrainWoken);
      SpuriousIsLocal(s, ch.who, mid);
      OwnerMoves(s, ch.who, mid);
      LocalKeepsInv(s, ch.who, mid.cpus[ch.who], mid.lock, owner);
      SignalNobodyKeepsInv(mid, k, owner);
    } else {
      SignalNobodyKeepsInv(s, k, owner);
    }
  }

  lemma ClaimKeepsInv(s: State, k: nat, t: State, owner: Option<nat>)
    requires InvAt(s, owner) && k < |s.cpus|
    requires s.cpus[k].pc.ExclClaiming? && NextStartExclusive(s, k) == Some(t)
    ensures InvAt(t, Some(k))
  {
    LockMoveKeepsLock(s, k, t);
    WaitersUpdate(s.cpus, k, t.cpus[k]);
    WaitersZero(s.cpus);
  }

  lemma ScanMarkOwner(s: State, k: nat)
    requires k < |s.cpus| && s.cpus[k].pc.Scanning? && s.cpus[k].pc.next < |s.cpus| && OwnerInv(s, s.cpus[k].pc)
    requires s.cpus[s.cpus[k].pc.next].running && s.cpus[k].pc.next != k
    ensures OwnerInv(Scan(s, k), Scan(s, k).cpus[k].pc)
  {
    var i, t := s.cpus[k].pc.next, Scan(s, k);
    var marked := s.cpus[i := s.cpus[i].(hasWaiter := true)];
    WaitersUpdate(s.cpus, i, s.cpus[i].(hasWaiter := true));
    WaitersUpdate(marked, k, t.cpus[k]);
  }

  lemma ScanMarkKeepsInv(s: State, k: nat, owner: Option<nat>)
    requires InvAt(s, owner) && k < |s.cpus|
    requires s.cpus[k].pc.Scanning? && s.cpus[k].pc.next < |s.cpus|
    requires s.cpus[s.cpus[k].pc.next].running
    ensures InvAt(Scan(s, k), owner)
  {
    assert CpuInv(s.cpus[k], s.pending);
    LockMoveKeepsLock(s, k, Scan(s, k));
    ScanMarkOwner(s, k);
  }

  /** A CPU that is not running is passed over. */
  lemma ScanSkipKeepsInv(s: State, k: nat, owner: Option<nat>)
    requires InvAt(s, owner) && k < |s.cpus|
    requires s.cpus[k].pc.Scanning? && s.cpus[k].pc.next < |s.cpus| && !s.cpus[s.cpus[k].pc.next].running
    ensures InvAt(Scan(s, k), owner)
  {
    var t := Scan(s, k);
    assert CpuInv(s.cpus[k], s.pending) && CpuInv(s.cpus[s.cpus[k].pc.next], s.pending);
    assert t == Put(s, k, t.cpus[k], s.lock);
    WaitersUpdate(s.cpus, k, t.cpus[k]);
    LocalKeepsInv(s, k, t.cpus[k], s.lock, owner);
  }

  /** All CPUs have been looked at. */
  lemma ScanEndKeepsInv(s: State, k: nat, t: State, owner: Option<nat>)
    requires InvAt(s, owner) && k < |s.cpus|
    requires s.cpus[k].pc.Scanning? && s.cpus[k].pc.next >= |s.cpus| && NextStartExclusive(s, k) == Some(t)
    ensures InvAt(t, owner)
  {
    LockMoveKeepsLock(s, k, t);
    WaitersUpdate(s.cpus, k, t.cpus[k]);
  }

  lemma ScanKeepsInv(s: State, k: nat, t: State, owner: Option<nat>)
    requires InvAt(s, owner) && k < |s.cpus|
    requires s.cpus[k].pc.Scanning? && NextStartExclusive(s, k) == Some(t)
    ensures InvAt(t, owner)
  {
    var i := s.cpus[k].pc.next;
    if i >= |s.cpus| {
      ScanEndKeepsInv(s, k, t, owner);
    } else if s.cpus[i].running {
      ScanMarkKeepsInv(s, k, owner);
    } else {
      ScanSkipKeepsInv(s, k, owner);
    }
  }

  lemma ResetKeepsInv(s: State, k: nat, t: State, owner: Option<nat>)
    requires InvAt(s, owner) && k < |s.cpus|
    requires s.cpus[k].pc.LeaveLocked? && NextEndExclusive(s, k) == Some(t)
    ensures InvAt(t, None)
  {
    LockMoveKeepsLock(s, k, t);
    WaitersZero(s.cpus);
  }

  lemma BroadcastKeepsInv(s: State, k: nat, t: State, owner: Option<nat>)
    requires InvAt(s, owner) && k < |s.cpus|
    requires s.cpus[k].pc.LeaveBroadcasting? && NextEndExclusive(s, k) == Some(t)
    ensures InvAt(t, owner)
  {
    LockMoveKeepsLock(s, k, t);
  }

  lemma ProceedKeepsInv(s: State, k: nat, ch: Choice, t: State, owner: Option<nat>)
    requires InvAt(s, owner) && Step(s, k, ch, t) && (ch.Proceed? || ch.Signal?)
    ensures Inv(t)
  {
    var pc := s.cpus[k].pc;
    assert CpuInv(s.cpus[k], s.pending);
    if pc.EndLocked? && s.cpus[k].hasWaiter {
      EndDecrementKeepsInv(s, k, t, owner);
    } else if pc.EndSignalling? && s.pending == 1 {
      SignalKeepsInv(s, k, ch, t, owner);
    } else if pc.ExclClaiming? {
      ClaimKeepsInv(s, k, t, owner);
    } else if pc.Scanning? {
      ScanKeepsInv(s, k, t, owner);
    } else if pc.LeaveLocked? {
      ResetKeepsInv(s, k, t, owner);
    } else if pc.LeaveBroadcasting? {
      BroadcastKeepsInv(s, k, t, owner);
    } else {
      ProceedLocally(s, k, ch, t);
      LocalStepKeepsInv(s, k, t, owner);
    }
  }

  /** All other actions are local moves. */
  lemma ProceedLocally(s: State, k: nat, ch: Choice, t: State)
    requires Step(s, k, ch, t) && (ch.Proceed? || ch.Signal?) && CpuInv(s.cpus[k], s.pending) && s.pending >= 0
    requires !(s.cpus[k].pc.EndLocked? && s.cpus[k].hasWaiter) && !(s.cpus[k].pc.EndSignalling? && s.pending == 1)
    requires !s.cpus[k].pc.ExclClaiming? && !s.cpus[k].pc.Scanning? && !s.cpus[k].pc.LeaveLocked? &&
             !s.cpus[k].pc.LeaveBroadcasting?
    ensures IsLocal(s, k, t) && StaysOutOfScan(s, k, t)
  {
    var pc := s.cpus[k].pc;
    if InStart(pc) {
      StartIsLocal(s, k, t);
    } else if InEnd(pc) {
      EndIsLocal(s, k, ch, t);
    } else if InStartExclusive(pc) {
      StartExclusiveIsLocal(s, k, t);
    } else {
      EndExclusiveIsLocal(s, k, t);
    }
  }

  lemma LocalStepKeepsInv(s: State, k: nat, t: State, owner: Option<nat>)
    requires InvAt(s, owner) && IsLocal(s, k, t) && StaysOutOfScan(s, k, t)
    ensures Inv(t)
  {
    if owner == Some(k) {
      OwnerMoves(s, k, t);
    }
    LocalKeepsInv(s, k, t.cpus[k], t.lock, owner);
  }

  /** Every atomic action of every CPU, and every spurious wake-up, keeps the invariant. */
  lemma StepKeepsInv(s: State, k: nat, ch: Choice, t: State)
    requires Inv(s) && Step(s, k, ch, t)
    ensures Inv(t)
  {
    var owner :| InvAt(s, owner);
    assert CpuInv(s.cpus[k], s.pending);
    if ch.Proceed? || ch.Signal? {
      ProceedKeepsInv(s, k, ch, t, owner);
    } else if ch.Spurious? {
      SpuriousIsLocal(s, k, t);
      LocalStepKeepsInv(s, k, t, owner);
    } else {
      CallIsLocal(s, k, ch, t);
      LocalStepKeepsInv(s, k, t, owner);
    }
  }

  lemma InitInv(s: State)
    requires Init(s)
    ensures Inv(s)
  {
    WaitersZero(s.cpus);
    assert InvAt(s, None);
  }

  ghost predicate Reachable(s: State) {
    exists states :: Run(states) && states[|states| - 1] == s
  }

  lemma ReachableInv(s: State)
    requires Reachable(s)
    ensures Inv(s)
  {
    var states :| Run(states) && states[|states| - 1] == s;
    RunKeepsInv(states, |states| - 1);
  }

  lemma {:induction false} RunKeepsInv(states: seq<State>, n: nat)
    requires Run(states) && n < |states|
    ensures Inv(states[n])
  {
    if n == 0 {
      InitInv(states[0]);
    } else {
      RunKeepsInv(states, n - 1);
      assert Steps(states[n - 1], states[n - 1 + 1]);
      var k: nat, ch :| Step(states[n - 1], k, ch, states[n]);
      StepKeepsInv(states[n - 1], k, ch, states[n]);
    }
  }

  // ---------------------------------------------------------------- safety

  /** While a CPU is in an exclusive section, no other CPU is, and no CPU is inside cpu_exec. */
  lemma MutualExclusion(s: State, i: nat, j: nat)
    requires Reachable(s) && i < |s.cpus| && j < |s.cpus| && i != j
    requires InExclusive(s.cpus[i].pc)
    ensures !InExec(s.cpus[j].pc)
    ensures !InExclusive(s.cpus[j].pc)
  {
    ReachableInv(s);
    var owner :| InvAt(s, owner);
    assert Owns(s.cpus[i].pc) && Owns(s.cpus[j].pc) <==> owner == Some(j);
    WaitersZero(s.cpus);
    assert CountedBelow(s.cpus, |s.cpus|);
  }

  /**
   Outside the scan pending_cpus is 0 with no CPU counted, or 1 plus the number of counted CPUs.
   A thread that calls start_exclusive is never marked running, and its nesting count is
   nonzero exactly inside its exclusive section.
   */
  lemma PendingCounts(s: State)
    requires Reachable(s)
    ensures (forall i :: 0 <= i < |s.cpus| ==> !s.cpus[i].pc.Scanning?) ==>
              if s.pending == 0 then Waiters(s.cpus) == 0 else s.pending == 1 + Waiters(s.cpus)
    ensures forall i :: 0 <= i < |s.cpus| ==>
              (s.cpus[i].pc.Outside? || s.cpus[i].pc.Exclusive? ==> !s.cpus[i].running) &&
              (s.cpus[i].depth > 0 <==> s.cpus[i].pc.Exclusive?)
  {
    ReachableInv(s);
    var owner :| InvAt(s, owner);
    assert forall i :: 0 <= i < |s.cpus| ==> CpuInv(s.cpus[i], s.pending);
    WaitersZero(s.cpus);
  }

  // ---------------------------------------------------------------- no deadlock

  /** Blocked on a condition variable. */
  predicate Sleeping(pc: Pc) {
    pc.ExecWaiting? || pc.ExclWaiting? || pc.DrainWaiting?
  }

  /** Moves that finish what is under way: no new call of cpu_exec_start or start_exclusive. */
  predicate Finishing(ch: Choice) {
    ch.Proceed? || ch.Signal? || ch.LeaveExec? || ch.LeaveExclusive?
  }

  ghost predicate FinishStep(s: State, t: State) {
    exists k: nat, ch :: Finishing(ch) && Step(s, k, ch, t)
  }

  ghost predicate AllOutside(s: State) {
    forall i :: 0 <= i < |s.cpus| ==> s.cpus[i].pc.Outside?
  }

  /** A CPU asleep on exclusive_cond is owed a wake-up by a CPU that is not asleep. */
  lemma DrainerHasWaker(s: State, i: nat) returns (k: nat)
    requires Inv(s) && i < |s.cpus| && s.cpus[i].pc.DrainWaiting?
    ensures k < |s.cpus| && !Sleeping(s.cpus[k].pc)
    ensures s.cpus[k].hasWaiter || (s.cpus[k].pc.EndSignalling? && s.lock == Some(k))
  {
    var owner :| InvAt(s, owner);
    assert WaitInv(s.cpus[i], s);
    if Signalling(s) {
      k := s.lock.value;
    } else {
      assert owner == Some(i);
      WaitersZero(s.cpus);
      k :| 0 <= k < |s.cpus| && s.cpus[k].hasWaiter;
      assert CpuInv(s.cpus[k], s.pending);
    }
  }

  /** A CPU asleep on exclusive_resume is owed one by an owner, or by the CPU about to broadcast. */
  lemma IdlerHasWaker(s: State, i: nat) returns (k: nat)
    requires Inv(s) && i < |s.cpus| && (s.cpus[i].pc.ExecWaiting? || s.cpus[i].pc.ExclWaiting?)
    ensures k < |s.cpus| && k != i
    ensures Owns(s.cpus[k].pc) || (s.cpus[k].pc.LeaveBroadcasting? && s.lock == Some(k))
  {
    var owner :| InvAt(s, owner);
    assert WaitInv(s.cpus[i], s);
    k := if Broadcasting(s) then s.lock.value else owner.value;
  }

  /** A CPU that is neither outside nor asleep can move once the mutex is free or its own. */
  lemma AwakeCanMove(s: State, k: nat)
    requires k < |s.cpus| && CpuInv(s.cpus[k], s.pending)
    requires !s.cpus[k].pc.Outside? && !Sleeping(s.cpus[k].pc)
    requires s.lock.None? || Holds(s.cpus[k].pc)
    ensures exists t :: FinishStep(s, t)
  {
    var pc := s.cpus[k].pc;
    if pc.EndSignalling? && s.pending == 1 && AnyDrainWaiting(s.cpus) {
      var j :| 0 <= j < |s.cpus| && s.cpus[j].pc.DrainWaiting?;
      var t := Next(s, k, Signal(j)).value;
      assert Finishing(Signal(j)) && Step(s, k, Signal(j), t);
      assert FinishStep(s, t);
    } else {
      var ch := if pc.Executing? then LeaveExec else if pc.Exclusive? then LeaveExclusive else Proceed;
      assert Next(s, k, ch).Some?;
      var t := Next(s, k, ch).value;
      assert Finishing(ch) && Step(s, k, ch, t);
      assert FinishStep(s, t);
    }
  }

  /** No reachable state is stuck: unless every CPU is outside, some CPU can go on finishing. */
  lemma NoDeadlock(s: State)
    requires Inv(s) && !AllOutside(s)
    ensures exists t :: FinishStep(s, t)
  {
    var owner :| InvAt(s, owner);
    var k: nat;
    if s.lock.Some? {
      k := s.lock.value;
    } else {
      k :| k < |s.cpus| && !s.cpus[k].pc.Outside?;
      if s.cpus[k].pc.ExecWaiting? || s.cpus[k].pc.ExclWaiting? {
        k := IdlerHasWaker(s, k);
      }
      if s.cpus[k].pc.DrainWaiting? {
        k := DrainerHasWaker(s, k);
      }
    }
    assert CpuInv(s.cpus[k], s.pending);
    AwakeCanMove(s, k);
  }

  // ---------------------------------------------------------------- finishing terminates

  /** An exclusive section asked for and not yet given back. */
  predicate Unfinished(pc: Pc) {
    InStartExclusive(pc) || pc.ExclWaiting? || pc.DrainWaiting? || pc.Exclusive? ||
    pc.LeaveLocking? || pc.LeaveLocked? || pc.LeaveBroadcasting?
  }

  /** How far a CPU is from being outside, unless it is put back to sleep by a later owner. */
  function Rank(pc: Pc, depth: nat, n: nat): nat {
    match pc
    case Outside => 0
    case ExecRaised => 20
    case ExecLocking => 19
    case ExecLocked => 18
    case ExecWoken => 18
    case ExecIdling => 17
    case ExecWaiting => 16
    case ExecResumed => 16
    case ExecUnlocking => 15
    case Executing => 14
    case EndLowered => 13
    case EndLocking => 12
    case EndLocked => 11
    case EndSignalling => 10
    case EndUnlocking => 2
    case ExclLocking => 17 + n
    case ExclWoken => 17 + n
    case ExclIdling => 16 + n
    case ExclWaiting => 15 + n
    case ExclClaiming => 15 + n
    case Scanning(i, _) => if i < n then 13 + n - i else 13
    case DrainWoken => 12
    case Draining => 11
    case DrainWaiting => 10
    case ExclUnlocking => 10
    case ExclEntering => 9
    case Exclusive => 7 + depth
    case LeaveLocking => 6
    case LeaveLocked => 5
    case LeaveBroadcasting => 4
    case LeaveUnlocking => 3
  }

  function Sections(cpus: seq<Cpu>): nat {
    if cpus == [] then 0 else One(Unfinished(cpus[0].pc)) + Sections(cpus[1..])
  }

  function Distance(cpus: seq<Cpu>, n: nat): nat {
    if cpus == [] then 0 else Rank(cpus[0].pc, cpus[0].depth, n) + Distance(cpus[1..], n)
  }

  lemma {:induction false} MeasureUpdate(cpus: seq<Cpu>, i: nat, c: Cpu, n: nat)
    requires i < |cpus|
    ensures Sections(cpus[i := c]) == Sections(cpus) - One(Unfinished(cpus[i].pc)) + One(Unfinished(c.pc))
    ensures Distance(cpus[i := c], n) == Distance(cpus, n) - Rank(cpus[i].pc, cpus[i].depth, n) + Rank(c.pc, c.depth, n)
  {
    if i == 0 {
      assert cpus[i := c][1..] == cpus[1..];
    } else {
      assert cpus[i := c][1..] == cpus[1..][i - 1 := c];
      MeasureUpdate(cpus[1..], i - 1, c, n);
    }
  }

  lemma {:induction false} SectionsBroadcast(cpus: seq<Cpu>)
    ensures Sections(Broadcast(cpus)) == Sections(cpus)
  {
    if cpus != [] {
      assert Broadcast(cpus)[1..] == Broadcast(cpus[1..]);
      SectionsBroadcast(cpus[1..]);
    }
  }

  /** Fewer exclusive sections to come, or as many and every CPU together closer to being outside. */
  predicate Closer(s: State, t: State) {
    || Sections(t.cpus) < Sections(s.cpus)
    || (Sections(t.cpus) == Sections(s.cpus) && Distance(t.cpus, |t.cpus|) < Distance(s.cpus, |s.cpus|))
  }

  /** Only CPU k moved, and it came closer to being outside. */
  predicate Approaches(s: State, k: nat, t: State) {
    && k < |s.cpus| == |t.cpus|
    && t.cpus == s.cpus[k := t.cpus[k]]
    && (Unfinished(t.cpus[k].pc) ==> Unfinished(s.cpus[k].pc))
    && Rank(t.cpus[k].pc, t.cpus[k].depth, |s.cpus|) < Rank(s.cpus[k].pc, s.cpus[k].depth, |s.cpus|)
  }

  lemma StartApproaches(s: State, k: nat, t: State)
    requires k < |s.cpus| && NextStart(s, k) == Some(t)
    ensures Approaches(s, k, t)
  {
  }

  lemma EndApproaches(s: State, k: nat, ch: Choice, t: State)
    requires k < |s.cpus| && NextEnd(s, k, ch) == Some(t)
    requires s.cpus[k].pc.EndSignalling? && s.pending == 1 ==> ch.Proceed?
    ensures Approaches(s, k, t)
  {
  }

  predicate BeforeScan(pc: Pc) {
    pc.ExclLocking? || pc.ExclIdling? || pc.ExclWoken? || pc.ExclClaiming?
  }

  lemma ClaimApproaches(s: State, k: nat, t: State)
    requires k < |s.cpus| && NextStartExclusive(s, k) == Some(t) && BeforeScan(s.cpus[k].pc)
    ensures Approaches(s, k, t)
  {
  }

  lemma DrainApproaches(s: State, k: nat, t: State)
    requires k < |s.cpus| && NextStartExclusive(s, k) == Some(t) && !BeforeScan(s.cpus[k].pc)
    requires s.cpus[k].pc.Scanning? ==> s.cpus[k].pc.next >= |s.cpus| || !s.cpus[s.cpus[k].pc.next].running
    ensures Approaches(s, k, t)
  {
  }

  lemma StartExclusiveApproaches(s: State, k: nat, t: State)
    requires k < |s.cpus| && NextStartExclusive(s, k) == Some(t)
    requires s.cpus[k].pc.Scanning? ==> s.cpus[k].pc.next >= |s.cpus| || !s.cpus[s.cpus[k].pc.next].running
    ensures Approaches(s, k, t)
  {
    if BeforeScan(s.cpus[k].pc) {
      ClaimApproaches(s, k, t);
    } else {
      DrainApproaches(s, k, t);
    }
  }

  lemma EndExclusiveApproaches(s: State, k: nat, t: State)
    requires k < |s.cpus| && NextEndExclusive(s, k) == Some(t) && !s.cpus[k].pc.LeaveBroadcasting?
    ensures Approaches(s, k, t)
  {
  }

  lemma MarkKeepsMeasure(cpus: seq<Cpu>, i: nat)
    requires i < |cpus|
    ensures var marked := cpus[i := cpus[i].(hasWaiter := true)];
            Sections(marked) == Sections(cpus) && Distance(marked, |cpus|) == Distance(cpus, |cpus|)
  {
    MeasureUpdate(cpus, i, cpus[i].(hasWaiter := true), |cpus|);
  }

  lemma WakeMeasure(cpus: seq<Cpu>, i: nat)
    requires i < |cpus| && cpus[i].pc.DrainWaiting?
    ensures var woken := cpus[i := cpus[i].(pc := DrainWoken)];
            Sections(woken) == Sections(cpus) && Distance(woken, |cpus|) == Distance(cpus, |cpus|) + 2
  {
    MeasureUpdate(cpus, i, cpus[i].(pc := DrainWoken), |cpus|);
  }

  lemma ScanCloser(s: State, k: nat, t: State)
    requires k < |s.cpus| && NextStartExclusive(s, k) == Some(t)
    requires s.cpus[k].pc.Scanning? && s.cpus[k].pc.next < |s.cpus| && s.cpus[s.cpus[k].pc.next].running
    ensures Closer(s, t)
  {
    var i := s.cpus[k].pc.next;
    MarkKeepsMeasure(s.cpus, i);
    MeasureUpdate(s.cpus[i := s.cpus[i].(hasWaiter := true)], k, t.cpus[k], |s.cpus|);
  }

  lemma SignalCloser(s: State, k: nat, ch: Choice, t: State)
    requires k < |s.cpus| && NextEnd(s, k, ch) == Some(t)
    requires s.cpus[k].pc.EndSignalling? && s.pending == 1 && ch.Signal?
    ensures Closer(s, t)
  {
    WakeMeasure(s.cpus, ch.who);
    MeasureUpdate(SignalDrain(s.cpus, ch).value, k, t.cpus[k], |s.cpus|);
  }

  lemma BroadcastCloser(s: State, k: nat, t: State)
    requires k < |s.cpus| && NextEndExclusive(s, k) == Some(t) && s.cpus[k].pc.LeaveBroadcasting?
    ensures Closer(s, t)
  {
    SectionsBroadcast(s.cpus);
    MeasureUpdate(Broadcast(s.cpus), k, t.cpus[k], |s.cpus|);
  }

  /** Every finishing step makes progress, so finishing cannot go on for ever. */
  lemma FinishingIsCloser(s: State, k: nat, ch: Choice, t: State)
    requires Step(s, k, ch, t) && Finishing(ch)
    ensures Closer(s, t)
  {
    var pc := s.cpus[k].pc;
    if ch.LeaveExec? || ch.LeaveExclusive? {
      assert Approaches(s, k, t);
    } else if pc.LeaveBroadcasting? {
      BroadcastCloser(s, k, t);
    } else if pc.EndSignalling? && s.pending == 1 && ch.Signal? {
      SignalCloser(s, k, ch, t);
    } else if pc.Scanning? && pc.next < |s.cpus| && s.cpus[pc.next].running {
      ScanCloser(s, k, t);
    } else if InStart(pc) {
      StartApproaches(s, k, t);
    } else if InEnd(pc) {
      EndApproaches(s, k, ch, t);
    } else if InStartExclusive(pc) {
      StartExclusiveApproaches(s, k, t);
    } else {
      EndExclusiveApproaches(s, k, t);
    }
    if Approaches(s, k, t) {
      MeasureUpdate(s.cpus, k, t.cpus[k], |s.cpus|);
    }
  }

  lemma FinishOn(s: State) returns (t: State)
    requires Inv(s) && !AllOutside(s)
    ensures FinishStep(s, t) && Inv(t) && Closer(s, t)
  {
    NoDeadlock(s);
    t :| FinishStep(s, t);
    var k: nat, ch :| Finishing(ch) && Step(s, k, ch, t);
    FinishingIsCloser(s, k, ch, t);
    StepKeepsInv(s, k, ch, t);
  }

  ghost predicate FinishRun(run: seq<State>) {
    forall n, m :: 0 <= n && m == n + 1 < |run| ==> FinishStep(run[n], run[m])
  }

  lemma Prepend(s: State, rest: seq<State>)
    requires rest != [] && FinishStep(s, rest[0]) && FinishRun(rest)
    ensures FinishRun([s] + rest)
  {
  }

  /**
   No deadlock: from every state the invariant allows, so from every reachable one, the calls
   under way can all be brought to their end; by FinishingIsCloser every schedule of finishing
   steps gets there.
   */
  lemma {:induction false} AllCanFinish(s: State) returns (finish: seq<State>)
    requires Inv(s)
    ensures |finish| > 0 && finish[0] == s && AllOutside(finish[|finish| - 1]) && FinishRun(finish)
    decreases Sections(s.cpus), Distance(s.cpus, |s.cpus|)
  {
    if AllOutside(s) {
      finish := [s];
    } else {
      var t := FinishOn(s);
      var rest := AllCanFinish(t);
      Prepend(s, rest);
      finish := [s] + rest;
    }
  }
}
