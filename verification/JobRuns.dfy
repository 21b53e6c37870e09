/**
 Whole runs of the job manager: any sequence of what users, drivers and the main loop ask of it keeps
 every transaction in order, up to the first request that cannot.
 */
module JobRuns {
  import opened Options
  import opened Sequences
  import opened Jobs
  import opened JobTransactions

  /** The entry points; the functions say what the drivers of the jobs answer. */
  datatype Command =
    | Opening(t: TxnId)
    | Creating(id: JobId, t: TxnId, autoFinalize: bool, autoDismiss: bool)
    | Happening(job: JobId, e: Event)
    | Exiting(job: JobId, rets: JobId -> int, forces: JobId -> bool, prepares: JobId -> int)
    | Cancelling(job: JobId, force: bool, driverForces: bool, rets: JobId -> int, forces: JobId -> bool)
    | Finalizing(job: JobId, prepares: JobId -> int, forces: JobId -> bool)
    | Dismissing(job: JobId)
    | FailingEarly(job: JobId)
    | Freeing(job: JobId)

  /** What the entry points ask of their callers. */
  predicate Allowed(m: Manager, c: Command) {
    match c
    case Opening(t) => t !in m.members && t !in m.aborting
    case Creating(id, t, _, _) => t in m.members && id !in m.jobs && id !in m.group
    case Happening(job, e) => job in m.jobs && Enabled(m.jobs[job], e)
    case Exiting(job, _, _, _) => job in m.jobs && MayExit(m.jobs[job])
    case Cancelling(job, _, _, _, _) => job in m.jobs
    case Finalizing(job, _, _) => job in m.jobs
    case Dismissing(job) => job in m.jobs
    case FailingEarly(job) => job in m.jobs && m.jobs[job].status.Created?
    case Freeing(job) => job in m.jobs && m.jobs[job].refcnt == 0
  }

  predicate MayExit(j: Job) {
    j.co.Returned? && (j.status.Running? || j.status.Ready?)
  }

  /** Finalising the transaction of job finds that another job fails to prepare first. */
  predicate Splits(m: Manager, job: JobId, prepares: JobId -> int)
    requires job in m.jobs
  {
    var t := m.jobs[job].txn;
    t.Some? && t.value in m.members && SparedBy(m.members[t.value], job, prepares).Some?
  }

  /** The transaction of job has another job that was never started, for which aborting it would wait. */
  predicate Hangs(m: Manager, job: JobId)
    requires job in m.jobs
  {
    m.jobs[job].txn.Some? && !OthersStarted(m, m.jobs[job].txn.value, job)
  }

  /** The command leaves a transaction that is not in order. */
  predicate Breaks(m: Manager, c: Command)
    requires Allowed(m, c)
  {
    match c
    case Creating(_, t, _, _) => !Undecided(m, t)
    case Exiting(job, _, _, prepares) => ExitBreaks(m, job, prepares)
    case Cancelling(job, force, driverForces, _, _) => CancelBreaks(m, job, force, driverForces)
    case Finalizing(job, prepares, _) => m.jobs[job].status.Pending? && Splits(m, job, prepares)
    case _ => false
  }

  /** Other jobs cannot be waited for when it fails; being the last to succeed, it finalises them. */
  predicate ExitBreaks(m: Manager, job: JobId, prepares: JobId -> int)
    requires job in m.jobs
  {
    var j := m.jobs[job];
    if j.ret != 0 || j.forceCancel then Hangs(m, job) else IsLast(m, job) && Splits(m, job, prepares)
  }

  /** When job is done all jobs of its transaction are, and none is left to the user to finalise. */
  predicate IsLast(m: Manager, job: JobId)
    requires job in m.jobs
  {
    var n := Put(m, job, m.jobs[job].(busy := false, status := Waiting));
    m.jobs[job].txn.Some? && AllCompletedIn(n, m.jobs[job].txn.value) && !NeedsFinalize(n, m.jobs[job].txn.value)
  }

  /** The job is not started, or done and cancelled by force, and other jobs cannot be waited for. */
  predicate CancelBreaks(m: Manager, job: JobId, force: bool, driverForces: bool)
    requires job in m.jobs
  {
    var j := m.jobs[job];
    && MayApply(Cancel, j.status) && PausesOk(j) && Hangs(m, job)
    && (!Started(j) || (j.deferred && CancelAsync(j, force, driverForces).forceCancel))
  }

  // ------------------------------------------------------------ what a command does

  ghost predicate ExitEffect(m: Manager, n: Manager, job: JobId, prepares: JobId -> int)
    requires job in m.jobs
  {
    var j := m.jobs[job];
    && j.txn.Some? && j.txn.value in m.members
    && if j.ret != 0 || j.forceCancel
       then Failed(m, n, j.txn.value, job, OthersStarted(m, j.txn.value, job))
       else Succeeded(m, n, j.txn.value, job, j.(busy := false, status := Waiting), prepares)
  }

  ghost predicate CancelEffect(m: Manager, n: Manager, job: JobId, force: bool, driverForces: bool)
    requires job in m.jobs
  {
    var j := m.jobs[job];
    if !MayApply(Cancel, j.status) then n == m
    else
      && PausesOk(j) && j.txn.Some?
      && Cancelled(m, n, job, CancelAsync(j, force, driverForces), !CancelBreaks(m, job, force, driverForces))
  }

  ghost predicate FinalizeEffect(m: Manager, n: Manager, job: JobId, prepares: JobId -> int)
    requires job in m.jobs
  {
    var j := m.jobs[job];
    if !j.status.Pending? then n == m
    else j.txn.Some? && j.txn.value in m.members && Finalized(m, n, j.txn.value, job, prepares)
  }

  /** The command makes n of m. */
  ghost predicate Effect(m: Manager, c: Command, n: Manager)
    requires Allowed(m, c)
  {
    match c
    case Opening(t) => n == m.(members := m.members[t := []])
    case Creating(id, t, autoFinalize, autoDismiss) => n == Join(m, t, id, NewJob(t, autoFinalize, autoDismiss))
    case Happening(job, e) => JobOk(m.jobs[job]) && n == Put(m, job, Apply(m.jobs[job], e))
    case Exiting(job, _, _, prepares) => ExitEffect(m, n, job, prepares)
    case Cancelling(job, force, driverForces, _, _) => CancelEffect(m, n, job, force, driverForces)
    case Finalizing(job, prepares, _) => FinalizeEffect(m, n, job, prepares)
    case Dismissing(job) =>
      n == if MayApply(Dismiss, m.jobs[job].status) then Put(m, job, DoDismiss(m.jobs[job])) else m
    case FailingEarly(job) =>
      && m.jobs[job].txn.Some? && m.jobs[job].txn.value in m.members
      && n == Leave(m, m.jobs[job].txn.value, job, DoDismiss(m.jobs[job]))
    case Freeing(job) => n == m.(jobs := m.jobs - {job})
  }

  method PerformExit(g: JobManager, job: JobId, rets: JobId -> int, forces: JobId -> bool, prepares: JobId -> int)
    requires OkBut(g.m, {}) && job in g.m.jobs && MayExit(g.m.jobs[job])
    modifies g
    ensures ExitEffect(old(g.m), g.m, job, prepares)
    ensures OkBut(g.m, {}) <==> !ExitBreaks(old(g.m), job, prepares)
  {
    var finished := g.Exit(job, rets, forces, prepares);
    ghost var j := old(g.m).jobs[job];
    if j.ret == 0 && !j.forceCancel {
      SucceededIff(old(g.m), g.m, job, j.(busy := false, status := Waiting), prepares);
    }
  }

  lemma SucceededIff(m: Manager, after: Manager, job: JobId, r: Job, prepares: JobId -> int)
    requires job in m.jobs && m.jobs[job].txn.Some? && m.jobs[job].txn.value in m.members
    requires r == m.jobs[job].(busy := false, status := Waiting)
    requires Succeeded(m, after, m.jobs[job].txn.value, job, r, prepares)
    ensures OkBut(after, {}) <==> !(IsLast(m, job) && Splits(m, job, prepares))
  {
    if IsLast(m, job) {
      FinalizedIff(m, after, m.jobs[job].txn.value, job, prepares);
    }
  }

  method PerformCancel(g: JobManager, job: JobId, force: bool, driverForces: bool, rets: JobId -> int,
                       forces: JobId -> bool)
    requires OkBut(g.m, {}) && job in g.m.jobs
    modifies g
    ensures CancelEffect(old(g.m), g.m, job, force, driverForces)
    ensures OkBut(g.m, {}) <==> !CancelBreaks(old(g.m), job, force, driverForces)
  {
    var finished := g.CancelJob(job, force, driverForces, rets, forces);
  }

  method PerformFinalize(g: JobManager, job: JobId, prepares: JobId -> int, forces: JobId -> bool)
    requires OkBut(g.m, {}) && job in g.m.jobs
    modifies g
    ensures FinalizeEffect(old(g.m), g.m, job, prepares)
    ensures OkBut(g.m, {}) <==> !(old(g.m).jobs[job].status.Pending? && Splits(old(g.m), job, prepares))
  {
    g.FinalizeJob(job, prepares, forces);
    if old(g.m).jobs[job].status.Pending? {
      FinalizedIff(old(g.m), g.m, old(g.m).jobs[job].txn.value, job, prepares);
    }
  }

  /** A command leaves every transaction in order exactly if it is not one that breaks one. */
  method Perform(g: JobManager, c: Command)
    requires OkBut(g.m, {}) && Allowed(g.m, c)
    modifies g
    ensures Effect(old(g.m), c, g.m)
    ensures OkBut(g.m, {}) <==> !Breaks(old(g.m), c)
  {
    match c {
      case Opening(t) => g.NewTxn(t);
      case Creating(id, t, autoFinalize, autoDismiss) => g.Create(id, t, autoFinalize, autoDismiss);
      case Happening(job, e) => g.Happen(job, e);
      case Exiting(job, rets, forces, prepares) => PerformExit(g, job, rets, forces, prepares);
      case Cancelling(job, force, driverForces, rets, forces) =>
        PerformCancel(g, job, force, driverForces, rets, forces);
      case Finalizing(job, prepares, forces) => PerformFinalize(g, job, prepares, forces);
      case Dismissing(job) => g.DismissJob(job);
      case FailingEarly(job) => g.EarlyFail(job);
      case Freeing(job) => g.Free(job);
    }
  }

  /** One command of a run, which does nothing when it is not allowed. */
  ghost predicate Next(m: Manager, c: Command, n: Manager) {
    if Allowed(m, c) then Effect(m, c, n) else n == m
  }

  /** The states are those the commands lead through, and all of them are in order. */
  ghost predicate IsRun(commands: seq<Command>, states: seq<Manager>) {
    && 0 < |states| <= |commands| + 1
    && (forall k :: 0 <= k < |states| ==> OkBut(states[k], {}))
    && (forall k :: 0 <= k < |states| - 1 ==> Next(states[k], commands[k], states[k + 1]))
  }

  lemma OneMoreState(commands: seq<Command>, states: seq<Manager>, n: Manager)
    requires IsRun(commands, states) && |states| <= |commands| && OkBut(n, {})
    requires Next(states[|states| - 1], commands[|states| - 1], n)
    ensures IsRun(commands, states + [n])
  {
    var more := states + [n];
    forall k | 0 <= k < |more| - 1 ensures Next(more[k], commands[k], more[k + 1]) {
      if k == |states| - 1 {
        assert more[k] == states[k] && more[k + 1] == n;
      }
    }
  }

  /** The next command of a run, unless it breaks a transaction. */
  method TakeNext(g: JobManager, c: Command) returns (stop: bool)
    requires OkBut(g.m, {})
    modifies g
    ensures stop <==> Allowed(old(g.m), c) && Breaks(old(g.m), c)
    ensures if stop then g.m == old(g.m) else OkBut(g.m, {}) && Next(old(g.m), c, g.m)
  {
    if Allowed(g.m, c) {
      if Breaks(g.m, c) {
        return true;
      }
      Perform(g, c);
    }
    return false;
  }

  /**
   Commands one after another, as far as they are allowed.  All transactions are in order at every
   moment up to the first command that breaks one, if there is such a command.
   */
  method Run(g: JobManager, commands: seq<Command>) returns (done: nat, ghost states: seq<Manager>)
    requires OkBut(g.m, {})
    modifies g
    ensures IsRun(commands, states) && |states| == done + 1 && states[0] == old(g.m) && states[done] == g.m
    ensures done < |commands| ==> Allowed(g.m, commands[done]) && Breaks(g.m, commands[done])
  {
    done, states := 0, [g.m];
    while done < |commands|
      invariant IsRun(commands, states) && |states| == done + 1 && states[0] == old(g.m) && states[done] == g.m
    {
      var stop := TakeNext(g, commands[done]);
      if stop {
        return;
      }
      OneMoreState(commands, states, g.m);
      done, states := done + 1, states + [g.m];
    }
  }

  /** In a run, the jobs of a transaction never end differently. */
  lemma RunIsAllOrNothing(commands: seq<Command>, states: seq<Manager>, k: nat, a: JobId, b: JobId)
    requires IsRun(commands, states) && k < |states|
    requires a in states[k].group && b in states[k].group && states[k].group[a] == states[k].group[b]
    requires a in states[k].outcome
    ensures states[k].outcome[a].Committed? ==> b in states[k].outcome && !states[k].outcome[b].Aborted?
    ensures states[k].outcome[a].Aborted? ==> b in states[k].outcome && !states[k].outcome[b].Committed?
  {
    AllOrNothing(states[k], a, b);
  }

  // ------------------------------------------------------------ a transaction that is split

  /** A new transaction with two jobs. */
  function TwoOf(a: Job, b: Job): Manager {
    Manager(map[0 := a, 1 := b], map[0 := [1, 0]], {}, map[0 := 0, 1 := 0], map[])
  }

  lemma TwoJoined(a: Job)
    ensures var m := Manager(map[], map[0 := []], {}, map[], map[]);
            Join(Join(m, 0, 0, a), 0, 1, a) == TwoOf(a, a)
  {
    assert [1] + ([0] + []) == [1, 0];
    assert map[0 := [0] + []][0 := [1] + ([0] + [])] == map[0 := [1, 0]];
    assert map[0 := a][1 := a] == map[0 := a, 1 := a];
    assert map[0 := 0][1 := 0] == map[0 := 0, 1 := 0];
  }

  lemma TwoPut(a: Job, b: Job, r: Job)
    ensures Put(TwoOf(a, b), 0, r) == TwoOf(r, b) && Put(TwoOf(a, b), 1, r) == TwoOf(a, r)
  {
    assert map[0 := a, 1 := b][0 := r] == map[0 := r, 1 := b];
    assert map[0 := a, 1 := b][1 := r] == map[0 := a, 1 := r];
  }

  /** A job that is left to the user to finalise, from its creation to its return. */
  function FreshJob(): Job { NewJob(0, false, false) }

  function ReturnedJob(): Job {
    FreshJob().(status := Running, ret := 0, co := Returned, deferred := true, busy := true, paused := false,
                pauseCount := 0)
  }

  function WaitingJob(): Job { ReturnedJob().(status := Waiting, busy := false) }

  lemma JobRuns()
    ensures JobOk(FreshJob()) && Enabled(FreshJob(), Starting)
    ensures JobOk(Apply(FreshJob(), Starting)) && Enabled(Apply(FreshJob(), Starting), Returning(0))
    ensures Apply(Apply(FreshJob(), Starting), Returning(0)) == ReturnedJob()
  {
  }

  /** Two jobs of one transaction are created. */
  method CreateTwo() returns (g: JobManager)
    ensures fresh(g) && OkBut(g.m, {}) && g.m == TwoOf(FreshJob(), FreshJob())
  {
    g := new JobManager();
    g.NewTxn(0);
    g.Create(0, 0, false, false);
    g.Create(1, 0, false, false);
    TwoJoined(FreshJob());
  }

  /** A job is started and returns. */
  method RunOne(g: JobManager, job: JobId)
    requires OkBut(g.m, {}) && job in g.m.jobs && g.m.jobs[job] == FreshJob()
    modifies g
    ensures OkBut(g.m, {}) && g.m == Put(old(g.m), job, ReturnedJob())
  {
    JobRuns();
    PutTwice(g.m, job, Apply(FreshJob(), Starting), ReturnedJob());
    g.Happen(job, Starting);
    g.Happen(job, Returning(0));
  }

  lemma PutTwice(m: Manager, j: JobId, a: Job, b: Job)
    ensures Put(Put(m, j, a), j, b) == Put(m, j, b)
  {
    assert m.jobs[j := a][j := b] == m.jobs[j := b];
  }

  /** Both jobs have run to their ends, and wait for the user. */
  method PendingPair() returns (g: JobManager)
    ensures fresh(g) && OkBut(g.m, {}) && g.m == TwoOf(WaitingJob(), WaitingJob()).(jobs := g.m.jobs)
    ensures AllPending(g.m.jobs, [1, 0])
  {
    g := CreateTwo();
    RunOne(g, 0);
    TwoPut(FreshJob(), FreshJob(), ReturnedJob());
    RunOne(g, 1);
    TwoPut(ReturnedJob(), FreshJob(), ReturnedJob());
    ExitFirst(g);
    ExitSecond(g);
  }

  lemma OneWaits()
    ensures !AllCompletedIn(TwoOf(WaitingJob(), ReturnedJob()), 0)
    ensures AllCompletedIn(TwoOf(WaitingJob(), WaitingJob()), 0) && NeedsFinalize(TwoOf(WaitingJob(), WaitingJob()), 0)
  {
    assert 1 in [1, 0];
  }

  method ExitFirst(g: JobManager)
    requires OkBut(g.m, {}) && g.m == TwoOf(ReturnedJob(), ReturnedJob())
    modifies g
    ensures OkBut(g.m, {}) && g.m == TwoOf(WaitingJob(), ReturnedJob())
  {
    var finished := g.Exit(0, _ => 0, _ => false, _ => 0);
    TwoPut(ReturnedJob(), ReturnedJob(), WaitingJob());
    OneWaits();
  }

  method ExitSecond(g: JobManager)
    requires OkBut(g.m, {}) && g.m == TwoOf(WaitingJob(), ReturnedJob())
    modifies g
    ensures OkBut(g.m, {}) && g.m == TwoOf(WaitingJob(), WaitingJob()).(jobs := g.m.jobs)
    ensures AllPending(g.m.jobs, [1, 0])
  {
    var finished := g.Exit(1, _ => 0, _ => false, _ => 0);
    TwoPut(WaitingJob(), ReturnedJob(), WaitingJob());
    OneWaits();
  }

  lemma SplitIs(before: Manager, m: Manager, prepares: JobId -> int)
    requires before.members == map[0 := [1, 0]] && before.group == map[0 := 0, 1 := 0] && before.outcome == map[]
    requires Finalized(before, m, 0, 1, prepares) && FirstFailure([1, 0], prepares) == Some(0)
    ensures 0 in m.group && 1 in m.group && m.group[0] == m.group[1] && 0 in m.outcome && 1 in m.outcome
    ensures m.outcome[0].Aborted? && m.outcome[1].Committed? && !OkBut(m, {})
  {
    assert 0 in [1, 0] && 1 in [1, 0];
  }

  /**
   The input for which a transaction is split: the job that is not named in the command fails to
   prepare.  The other one commits, although the transaction aborts.
   */
  method SplitByPrepare() returns (m: Manager)
    ensures 0 in m.group && 1 in m.group && m.group[0] == m.group[1] && 0 in m.outcome && 1 in m.outcome
    ensures m.outcome[0].Aborted? && m.outcome[1].Committed? && !OkBut(m, {})
  {
    var prepares := (j: JobId) => if j == 0 then -1 else 0;
    FirstFailureIs([1, 0], prepares);
    assert FailsFirst([1, 0], prepares, 1);
    var g := PendingPair();
    ghost var before := g.m;
    assert [1, 0][0] == 1 && MayCommit(before.jobs[1]);
    g.FinalizeJob(1, prepares, _ => false);
    m := g.m;
    SplitIs(before, m, prepares);
  }
}
