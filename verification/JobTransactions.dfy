/**
 Transactions of jobs: the jobs of a transaction are finalised together, either all by
 committing or all by aborting.  What happens to a transaction as a whole is one step.
 */
module JobTransactions {
  import opened Options
  import opened Sequences
  import opened Jobs

  type JobId = nat

  datatype Outcome = Committed | Aborted | EarlyFailed

  // ------------------------------------------------------------ how a job ends

  /** A job of an aborting transaction: it has failed, or is bound to. */
  predicate Doomed(j: Job) {
    && PausesOk(j) && CoroutineOk(j) && (j.forceCancel ==> j.cancelled)
    && j.refcnt == 1 + j.held && j.txn.Some?
    && match j.status
       case Aborting => j.ret != 0 && !j.busy && (j.co.Returned? || j.co.NotCreated?)
       case Waiting => j.forceCancel && j.co.Returned? && !j.busy
       case Pending => j.forceCancel && j.co.Returned? && !j.busy
       case Running => j.forceCancel && Started(j) && !j.paused
       case Ready => j.forceCancel && Started(j) && !j.paused
       case Paused => j.forceCancel && Started(j) && j.paused && !j.deferred
       case Standby => j.forceCancel && Started(j) && j.paused && !j.deferred
       case _ => false
  }

  lemma UpdateRcFails(j: Job)
    requires MayBecome(j.status, Aborting) && (j.ret != 0 || j.forceCancel)
    ensures UpdateRc(j) == j.(status := Aborting, ret := if j.ret == 0 then -ECANCELED else j.ret)
  {
  }

  /** job_exit up to job_completed_locked's decision. */
  function Complete(j: Job): Job
    requires j.co.Returned? && (j.status.Running? || j.status.Ready?)
  {
    UpdateRc(j.(busy := false))
  }

  lemma CompleteFails(j: Job)
    requires PausesOk(j) && CoroutineOk(j) && (j.forceCancel ==> j.cancelled) && j.refcnt == 1 + j.held && j.txn.Some?
    requires j.co.Returned? && (j.status.Running? || j.status.Ready?) && (j.ret != 0 || j.forceCancel)
    ensures Doomed(Complete(j)) && Complete(j).status.Aborting? && Complete(j).txn == j.txn
  {
    UpdateRcFails(j.(busy := false));
  }

  /** The coroutine of a cancelled job is entered and leaves the pause it may be in. */
  function Resumed(j: Job): Job
    requires Doomed(j) && !IsCompleted(j.status)
  {
    var a := Enter(j, true);
    if a.paused then LeavePause(a) else a
  }

  lemma ResumedRuns(j: Job)
    requires Doomed(j) && !IsCompleted(j.status)
    ensures var b := Resumed(j);
            Doomed(b) && b.txn == j.txn && (b.status.Running? || b.status.Ready?) && (b.co.Returned? || b.co.Active?)
  {
  }

  /** job_finish_sync_locked of a job that has been cancelled: its run function returns ret, and job_exit follows. */
  function FinishSync(j: Job, ret: int): (r: Job)
    requires Doomed(j) && !IsCompleted(j.status)
  {
    ResumedRuns(j);
    var b := Resumed(j);
    Complete(if b.co.Returned? then b else Return(b, ret))
  }

  lemma FinishSyncAborts(j: Job, ret: int)
    requires Doomed(j) && !IsCompleted(j.status)
    ensures Doomed(FinishSync(j, ret)) && FinishSync(j, ret).status.Aborting? && FinishSync(j, ret).txn == j.txn
  {
    ResumedRuns(j);
    var b := Resumed(j);
    CompleteFails(if b.co.Returned? then b else Return(b, ret));
  }

  /** job_finalize_single_locked */
  function FinalizeSingle(j: Job): Job
    requires j.ret != 0 || j.forceCancel ==> MayBecome(j.status, Aborting)
    requires j.ret == 0 && !j.forceCancel ==> j.status.Pending?
  {
    Conclude(UpdateRc(j).(txn := None))
  }

  /** What job_finalize_single_locked calls: the commit callback for a job that ends with a result of 0, else abort. */
  function OutcomeOf(j: Job): Outcome
    requires Finalizable(j)
  {
    if UpdateRc(j).ret == 0 then Committed else Aborted
  }

  lemma ConcludeEnds(j: Job)
    requires j.status.Aborting? || j.status.Pending?
    requires PausesOk(j) && CoroutineOk(j) && (j.forceCancel ==> j.cancelled) && j.refcnt == 1 + j.held && j.txn.None?
    requires !j.busy && (j.co.Returned? || j.co.NotCreated?)
    ensures JobOk(Conclude(j)) && Conclude(j).txn.None?
  {
  }

  lemma FinalizeDoomed(j: Job)
    requires Doomed(j) && IsCompleted(j.status)
    ensures JobOk(FinalizeSingle(j)) && FinalizeSingle(j).txn.None? && OutcomeOf(j).Aborted?
  {
    UpdateRcFails(j);
    ConcludeEnds(UpdateRc(j).(txn := None));
  }

  /** A job that its transaction can finalise by committing. */
  predicate MayCommit(j: Job) {
    JobOk(j) && j.status.Pending?
  }

  lemma FinalizePending(j: Job)
    requires MayCommit(j)
    ensures JobOk(FinalizeSingle(j)) && FinalizeSingle(j).txn.None? && OutcomeOf(j).Committed?
  {
  }

  // ------------------------------------------------------------ what aborting finds

  /** A job that was cancelled before it was started, for which nothing can wait. */
  predicate Stuck(j: Job) {
    j.status.Created? && !Started(j)
  }

  /** A job that is completed, or will be. */
  predicate Endable(j: Job) {
    IsCompleted(j.status) || Started(j)
  }

  /** Being cancelled by another job of the transaction. */
  lemma CancelDooms(j: Job, driverForces: bool)
    requires (JobOk(j) && j.txn.Some?) || Doomed(j)
    ensures var a := CancelAsync(j, true, driverForces);
            (if Endable(j) then Doomed(a) else Stuck(a)) && a.txn == j.txn && a.status == j.status && a.co == j.co
  {
  }

  /** The job as it is when job_completed_txn_abort_locked finalises it, having waited for it if need be. */
  function AtEnd(j: Job, ret: int): Job {
    if Doomed(j) && !IsCompleted(j.status) then FinishSync(j, ret) else j
  }

  lemma AtEndDoomed(j: Job, ret: int)
    requires Doomed(j)
    ensures Doomed(AtEnd(j, ret)) && IsCompleted(AtEnd(j, ret).status)
  {
    if !IsCompleted(j.status) {
      FinishSyncAborts(j, ret);
    }
  }

  /** job_prepare_locked; ret is what the driver's callback returns, 0 if there is none. */
  function Prepare(j: Job, ret: int): Job
    requires MayCommit(j)
  {
    UpdateRc(j.(ret := ret))
  }

  lemma PrepareEnds(j: Job, ret: int)
    requires MayCommit(j)
    ensures if ret == 0 then Prepare(j, ret) == j else Doomed(Prepare(j, ret)) && Prepare(j, ret).txn == j.txn
  {
    if ret != 0 {
      UpdateRcFails(j.(ret := ret));
    }
  }

  /** The first job whose preparation fails. */
  function FirstFailure(list: seq<JobId>, prepares: JobId -> int): Option<JobId> {
    if list == [] then None
    else if prepares(list[0]) != 0 then Some(list[0])
    else FirstFailure(list[1..], prepares)
  }

  /** The job that finalises the list is spared when the first job that fails to prepare is another one. */
  function SparedBy(list: seq<JobId>, job: JobId, prepares: JobId -> int): Option<JobId> {
    var failed := FirstFailure(list, prepares);
    if failed.None? || failed.value == job then None else Some(job)
  }

  // ------------------------------------------------------------ all jobs and transactions

  type JobTable = map<JobId, Job>
  type Members = map<TxnId, seq<JobId>>
  type Groups = map<JobId, TxnId>
  type Outcomes = map<JobId, Outcome>

  /** The list of a transaction has exactly the jobs that point at it. */
  ghost predicate MembersOk(jobs: JobTable, members: Members) {
    && (forall t, j :: t in members && j in members[t] ==> j in jobs && jobs[j].txn == Some(t))
    && (forall j :: j in jobs && jobs[j].txn.Some? ==> jobs[j].txn.value in members && j in members[jobs[j].txn.value])
    && (forall t :: t in members ==> Distinct(members[t]))
  }

  /** Every job ever put into a transaction is still in it, or has ended in one way. */
  ghost predicate GroupsOk(members: Members, group: Groups, outcome: Outcomes) {
    && (forall t, j :: t in members && j in members[t] ==> j in group && group[j] == t && j !in outcome)
    && (forall j :: j in group ==> group[j] in members && (j in outcome || j in members[group[j]]))
    && (forall j :: j in outcome ==> j in group)
  }

  /** The jobs become pending together. */
  ghost predicate PendingTogether(jobs: JobTable, list: seq<JobId>) {
    forall a, b :: a in list && b in list && a in jobs && b in jobs && jobs[a].status.Pending? ==>
      jobs[b].status.Pending?
  }

  /** No job of the transaction has ended like this. */
  predicate NoneEnded(t: TxnId, group: Groups, outcome: Outcomes, o: Outcome) {
    forall j :: j in group && group[j] == t && j in outcome ==> outcome[j] != o
  }

  /** A transaction that aborts is done with its jobs and has committed none; one that does not has aborted none. */
  ghost predicate TxnOk(t: TxnId, jobs: JobTable, members: Members, aborting: set<TxnId>, group: Groups,
                        outcome: Outcomes)
    requires t in members
  {
    if t in aborting then members[t] == [] && NoneEnded(t, group, outcome, Committed)
    else
      && NoneEnded(t, group, outcome, Aborted) && PendingTogether(jobs, members[t])
      && (members[t] != [] ==> NoneEnded(t, group, outcome, Committed))
  }

  datatype Manager = Manager(jobs: JobTable, members: Members, aborting: set<TxnId>, group: Groups, outcome: Outcomes)

  /** Everything is in order, except for the jobs of the transactions in busy, which are being worked on. */
  ghost predicate OkBut(m: Manager, busy: set<TxnId>) {
    && JobsOk(m.jobs, busy) && MembersOk(m.jobs, m.members) && GroupsOk(m.members, m.group, m.outcome)
    && TxnsOk(m.jobs, m.members, m.aborting, m.group, m.outcome, busy) && EndsOk(m.jobs, m.outcome)
  }

  /** A job that its transaction has ended has a result of 0 exactly when it was committed. */
  ghost predicate EndsOk(jobs: JobTable, outcome: Outcomes) {
    forall j :: j in outcome && j in jobs && !outcome[j].EarlyFailed? ==> (jobs[j].ret == 0 <==> outcome[j].Committed?)
  }

  ghost predicate JobsOk(jobs: JobTable, busy: set<TxnId>) {
    forall j :: j in jobs && (jobs[j].txn.None? || jobs[j].txn.value !in busy) ==> JobOk(jobs[j])
  }

  ghost predicate TxnsOk(jobs: JobTable, members: Members, aborting: set<TxnId>, group: Groups, outcome: Outcomes,
                         busy: set<TxnId>) {
    forall t :: t in members && t !in busy ==> TxnOk(t, jobs, members, aborting, group, outcome)
  }

  /** All or nothing, for every state in order. */
  lemma AllOrNothing(m: Manager, a: JobId, b: JobId)
    requires OkBut(m, {}) && a in m.group && b in m.group && m.group[a] == m.group[b] && a in m.outcome
    ensures m.outcome[a].Committed? ==> b in m.outcome && !m.outcome[b].Aborted?
    ensures m.outcome[a].Aborted? ==> b in m.outcome && !m.outcome[b].Committed?
  {
  }

  // ------------------------------------------------------------ changing one job

  function Put(m: Manager, j: JobId, r: Job): Manager {
    m.(jobs := m.jobs[j := r])
  }

  lemma PutMembers(jobs: JobTable, members: Members, j: JobId, r: Job)
    requires MembersOk(jobs, members) && j in jobs && r.txn == jobs[j].txn
    ensures MembersOk(jobs[j := r], members)
  {
  }

  /** A job changes, but not from pending or to it, or it is not in a transaction that is in order. */
  lemma PutTxns(m: Manager, busy: set<TxnId>, j: JobId, r: Job)
    requires MembersOk(m.jobs, m.members) && TxnsOk(m.jobs, m.members, m.aborting, m.group, m.outcome, busy) &&
             j in m.jobs
    requires m.jobs[j].txn.None? || m.jobs[j].txn.value in busy || (m.jobs[j].status.Pending? <==> r.status.Pending?)
    ensures TxnsOk(m.jobs[j := r], m.members, m.aborting, m.group, m.outcome, busy)
  {
    forall t | t in m.members && t !in busy
      ensures TxnOk(t, m.jobs[j := r], m.members, m.aborting, m.group, m.outcome)
    {
      PutTogether(m.jobs, m.members[t], j, r);
    }
  }

  lemma PutTogether(jobs: JobTable, list: seq<JobId>, j: JobId, r: Job)
    requires j in jobs && (j !in list || (jobs[j].status.Pending? <==> r.status.Pending?))
    ensures PendingTogether(jobs, list) ==> PendingTogether(jobs[j := r], list)
  {
  }

  lemma PutJobs(jobs: JobTable, busy: set<TxnId>, j: JobId, r: Job)
    requires JobsOk(jobs, busy) && (JobOk(r) || (r.txn.Some? && r.txn.value in busy))
    ensures JobsOk(jobs[j := r], busy)
  {
  }

  lemma PutEnds(jobs: JobTable, outcome: Outcomes, j: JobId, r: Job)
    requires EndsOk(jobs, outcome) && (j in outcome ==> j in jobs && jobs[j].ret == r.ret)
    ensures EndsOk(jobs[j := r], outcome)
  {
  }

  /** A job in a transaction has not ended. */
  lemma NotYet(m: Manager, busy: set<TxnId>, j: JobId)
    requires OkBut(m, busy) && j in m.jobs && m.jobs[j].txn.Some?
    ensures j !in m.outcome
  {
    assert j in m.members[m.jobs[j].txn.value];
  }

  /** A job of a transaction being worked on changes without leaving it. */
  lemma PutBusy(m: Manager, busy: set<TxnId>, j: JobId, r: Job)
    requires OkBut(m, busy) && j in m.jobs && m.jobs[j].txn.Some? && m.jobs[j].txn.value in busy &&
             r.txn == m.jobs[j].txn
    ensures OkBut(Put(m, j, r), busy)
  {
    NotYet(m, busy, j);
    PutEnds(m.jobs, m.outcome, j, r);
    PutJobs(m.jobs, busy, j, r);
    PutMembers(m.jobs, m.members, j, r);
    PutTxns(m, busy, j, r);
  }

  /** A job does something on its own. */
  lemma PutKept(m: Manager, j: JobId, r: Job)
    requires OkBut(m, {}) && j in m.jobs && Kept(m.jobs[j], r)
    ensures OkBut(Put(m, j, r), {})
  {
    if m.jobs[j].txn.Some? {
      NotYet(m, {}, j);
    }
    PutEnds(m.jobs, m.outcome, j, r);
    PutJobs(m.jobs, {}, j, r);
    PutMembers(m.jobs, m.members, j, r);
    PutTxns(m, {}, j, r);
  }

  // ------------------------------------------------------------ jobs leaving a transaction

  /** The job is at its end and can be finalised. */
  predicate Finalizable(j: Job) {
    (Doomed(j) && IsCompleted(j.status)) || MayCommit(j)
  }

  lemma FinalizeEnds(j: Job)
    requires Finalizable(j)
    ensures JobOk(FinalizeSingle(j)) && FinalizeSingle(j).txn.None?
    ensures OutcomeOf(j) == if MayCommit(j) then Committed else Aborted
    ensures FinalizeSingle(j).ret == 0 <==> OutcomeOf(j).Committed?
  {
    if MayCommit(j) {
      FinalizePending(j);
    } else {
      FinalizeDoomed(j);
    }
  }

  /** The first job of the transaction is finalised, as it is at its end, and leaves the transaction. */
  function Pop(m: Manager, t: TxnId, end: Job): Manager
    requires t in m.members && m.members[t] != [] && Finalizable(end)
  {
    var j, rest := m.members[t][0], m.members[t][1..];
    m.(jobs := m.jobs[j := FinalizeSingle(end)], members := m.members[t := rest],
       outcome := m.outcome[j := OutcomeOf(end)])
  }

  lemma PopMembers(jobs: JobTable, members: Members, t: TxnId, r: Job)
    requires MembersOk(jobs, members) && t in members && members[t] != [] && r.txn.None?
    ensures MembersOk(jobs[members[t][0] := r], members[t := members[t][1..]])
  {
    var j, rest := members[t][0], members[t][1..];
    var jobs', members' := jobs[j := r], members[t := rest];
    assert Distinct(members[t]);
    assert j in members[t] && j !in rest && forall x :: x in members[t] <==> x == j || x in rest;
    forall u: TxnId, x: JobId | u in members' && x in members'[u] ensures x in jobs' && jobs'[x].txn == Some(u) {
      assert x in members[u];
      assert jobs[x].txn == Some(u);
      assert x != j;
    }
  }

  lemma PopGroups(members: Members, group: Groups, outcome: Outcomes, t: TxnId, o: Outcome)
    requires GroupsOk(members, group, outcome) && t in members && members[t] != [] && Distinct(members[t])
    ensures GroupsOk(members[t := members[t][1..]], group, outcome[members[t][0] := o])
  {
    var j, rest := members[t][0], members[t][1..];
    var members', outcome' := members[t := rest], outcome[j := o];
    assert j in members[t] && j !in rest && forall x :: x in members[t] <==> x == j || x in rest;
    forall u: TxnId, x: JobId | u in members' && x in members'[u]
      ensures x in group && group[x] == u && x !in outcome'
    {
      assert x in members[u];
      assert group[j] == t;
    }
    forall x: JobId | x in group ensures group[x] in members' && (x in outcome' || x in members'[group[x]]) {
      assert x in outcome || x in members[group[x]];
    }
  }

  lemma PopBusy(m: Manager, busy: set<TxnId>, t: TxnId, end: Job)
    requires OkBut(m, busy) && t in busy && t in m.members && m.members[t] != [] && Finalizable(end)
    ensures OkBut(Pop(m, t, end), busy)
  {
    FinalizeEnds(end);
    var r, o := FinalizeSingle(end), OutcomeOf(end);
    PutJobs(m.jobs, busy, m.members[t][0], r);
    PopMembers(m.jobs, m.members, t, r);
    PopGroups(m.members, m.group, m.outcome, t, o);
    PopTxns(m, busy, t, r, o);
    PopEnds(m.jobs, m.outcome, m.members[t][0], r, o);
  }

  lemma PopEnds(jobs: JobTable, outcome: Outcomes, j: JobId, r: Job, o: Outcome)
    requires EndsOk(jobs, outcome) && (r.ret == 0 <==> o.Committed?)
    ensures EndsOk(jobs[j := r], outcome[j := o])
  {
  }

  lemma PopTxns(m: Manager, busy: set<TxnId>, t: TxnId, r: Job, o: Outcome)
    requires TxnsOk(m.jobs, m.members, m.aborting, m.group, m.outcome, busy) && GroupsOk(m.members, m.group, m.outcome)
    requires t in busy && t in m.members && m.members[t] != []
    ensures var j := m.members[t][0];
            TxnsOk(m.jobs[j := r], m.members[t := m.members[t][1..]], m.aborting, m.group, m.outcome[j := o], busy)
  {
    var j := m.members[t][0];
    forall u | u in m.members && u !in busy
      ensures TxnOk(u, m.jobs[j := r], m.members[t := m.members[t][1..]], m.aborting, m.group, m.outcome[j := o])
    {
      PopOthers(m, t, r, o, u);
    }
  }

  lemma PopOthers(m: Manager, t: TxnId, r: Job, o: Outcome, u: TxnId)
    requires t in m.members && m.members[t] != [] && u in m.members && u != t && GroupsOk(m.members, m.group, m.outcome)
    requires TxnOk(u, m.jobs, m.members, m.aborting, m.group, m.outcome)
    ensures var j := m.members[t][0];
            TxnOk(u, m.jobs[j := r], m.members[t := m.members[t][1..]], m.aborting, m.group, m.outcome[j := o])
  {
    assert m.group[m.members[t][0]] == t;
  }

  /** Nothing is left in the transaction. */
  lemma Settle(m: Manager, t: TxnId)
    requires OkBut(m, {t}) && t in m.members && m.members[t] == []
    requires NoneEnded(t, m.group, m.outcome, if t in m.aborting then Committed else Aborted)
    ensures OkBut(m, {})
  {
  }

  lemma Open(m: Manager, t: TxnId)
    requires OkBut(m, {})
    ensures OkBut(m, {t})
  {
  }

  /** The jobs of the transaction are sound again. */
  lemma Close(m: Manager, t: TxnId)
    requires OkBut(m, {t}) && t in m.members && forall j :: j in m.members[t] ==> j in m.jobs && JobOk(m.jobs[j])
    requires TxnOk(t, m.jobs, m.members, m.aborting, m.group, m.outcome)
    ensures OkBut(m, {})
  {
  }

  lemma MemberIs(m: Manager, busy: set<TxnId>, t: TxnId, j: JobId)
    requires OkBut(m, busy) && t in m.members && j in m.members[t]
    ensures j in m.jobs && m.jobs[j].txn == Some(t) && j in m.group && m.group[j] == t && j !in m.outcome
  {
  }

  /** What an aborting transaction has: jobs that are doomed or stuck, except the one that is spared. */
  ghost predicate AbortList(jobs: JobTable, list: seq<JobId>, spared: Option<JobId>) {
    forall k :: 0 <= k < |list| ==> list[k] in jobs && Abortable(jobs[list[k]], spared == Some(list[k]))
  }

  predicate Abortable(j: Job, spared: bool) {
    if spared then MayCommit(j) else Doomed(j) || Stuck(j)
  }

  ghost predicate AllEndable(jobs: JobTable, list: seq<JobId>) {
    forall k :: 0 <= k < |list| ==> list[k] in jobs && Endable(jobs[list[k]])
  }

  ghost predicate AllPending(jobs: JobTable, list: seq<JobId>) {
    forall k :: 0 <= k < |list| ==> list[k] in jobs && MayCommit(jobs[list[k]])
  }

  lemma NoneEndedStill(t: TxnId, group: Groups, outcome: Outcomes, j: JobId, o: Outcome, x: Outcome)
    requires NoneEnded(t, group, outcome, x) && o != x
    ensures NoneEnded(t, group, outcome[j := o], x)
  {
  }

  lemma AbortRest(jobs: JobTable, list: seq<JobId>, spared: Option<JobId>, r: Job)
    requires AbortList(jobs, list, spared) && list != [] && Distinct(list)
    ensures AbortList(jobs[list[0] := r], list[1..], spared)
  {
  }

  lemma EndableRest(jobs: JobTable, list: seq<JobId>, r: Job)
    requires list != [] && Distinct(list) && list[0] in jobs && Endable(jobs[list[0]])
    ensures AllEndable(jobs, list) <==> AllEndable(jobs[list[0] := r], list[1..])
  {
    var jobs', rest := jobs[list[0] := r], list[1..];
    if AllEndable(jobs', rest) {
      forall k | 0 <= k < |list| ensures list[k] in jobs && Endable(jobs[list[k]]) {
        assert k > 0 ==> rest[k - 1] == list[k];
      }
    }
  }

  lemma PendingRest(jobs: JobTable, list: seq<JobId>, r: Job)
    requires AllPending(jobs, list) && list != [] && Distinct(list)
    ensures AllPending(jobs[list[0] := r], list[1..])
  {
  }

  /** A transaction in the middle of aborting, or of committing, its jobs. */
  ghost predicate IsAborting(m: Manager, t: TxnId, spared: Option<JobId>) {
    && OkBut(m, {t}) && t in m.members && AbortList(m.jobs, m.members[t], spared) && t in m.aborting
    && (spared.None? ==> NoneEnded(t, m.group, m.outcome, Committed))
  }

  ghost predicate IsCommitting(m: Manager, t: TxnId) {
    && OkBut(m, {t}) && t in m.members && AllPending(m.jobs, m.members[t])
    && t !in m.aborting && NoneEnded(t, m.group, m.outcome, Aborted)
  }

  /** How a job of an aborting transaction ends: the one that is spared commits. */
  function EndOf(j: JobId, o: Outcome, spared: Option<JobId>): Outcome {
    if spared == Some(j) then Committed else o
  }

  lemma AbortStep(m: Manager, t: TxnId, spared: Option<JobId>, ret: int)
    requires t in m.members && m.members[t] != [] && m.members[t][0] in m.jobs && Endable(m.jobs[m.members[t][0]])
    requires IsAborting(m, t, spared)
    ensures var j := m.members[t][0]; var end := AtEnd(m.jobs[j], ret);
            && Finalizable(end) && IsAborting(Pop(m, t, end), t, spared) && OutcomeOf(end) == EndOf(j, Aborted, spared)
  {
    var j := m.members[t][0];
    if spared != Some(j) {
      AtEndDoomed(m.jobs[j], ret);
    }
    var end := AtEnd(m.jobs[j], ret);
    FinalizeEnds(end);
    PopBusy(m, {t}, t, end);
    if spared.None? {
      NoneEndedStill(t, m.group, m.outcome, j, Aborted, Committed);
    }
    AbortRest(m.jobs, m.members[t], spared, FinalizeSingle(end));
  }

  lemma CommitStep(m: Manager, t: TxnId)
    requires IsCommitting(m, t) && m.members[t] != []
    ensures var end := m.jobs[m.members[t][0]]; IsCommitting(Pop(m, t, end), t) && OutcomeOf(end).Committed?
  {
    var end := m.jobs[m.members[t][0]];
    FinalizeEnds(end);
    PopBusy(m, {t}, t, end);
    NoneEndedStill(t, m.group, m.outcome, m.members[t][0], Committed, Aborted);
    PendingRest(m.jobs, m.members[t], FinalizeSingle(end));
  }

  /** Only the transaction t is different: jobs that have left it have ended as o, except the one that is spared. */
  ghost predicate OnlyTxn(before: Manager, after: Manager, t: TxnId, o: Outcome, spared: Option<JobId>) {
    && t in before.members && t in after.members && after.members == before.members[t := after.members[t]]
    && after.group == before.group && SameOutside(before.jobs, after.jobs, before.members[t])
    && EndedAs(before.members[t], after.members[t], before.outcome, after.outcome, o, spared)
  }

  /** The same jobs exist, and those that are not in the list are as they were. */
  ghost predicate SameOutside(a: JobTable, b: JobTable, list: seq<JobId>) {
    a.Keys == b.Keys && forall j :: j in a && j !in list ==> b[j] == a[j]
  }

  lemma OutsidePut(a: JobTable, b: JobTable, list: seq<JobId>, j: JobId, r: Job)
    requires SameOutside(a, b, list) && j in list && j in b
    ensures SameOutside(a, b[j := r], list)
  {
  }

  /** The jobs of the transaction have been changed before. */
  lemma OnlyTxnAfter(before: Manager, mid: Manager, after: Manager, t: TxnId, o: Outcome, spared: Option<JobId>)
    requires OnlyTxn(mid, after, t, o, spared) && mid == before.(jobs := mid.jobs, aborting := mid.aborting)
    requires SameOutside(before.jobs, mid.jobs, before.members[t])
    ensures OnlyTxn(before, after, t, o, spared)
  {
  }

  ghost predicate EndedAs(list: seq<JobId>, left: seq<JobId>, before: Outcomes, after: Outcomes, o: Outcome,
                          spared: Option<JobId>) {
    && (forall j :: j in left ==> j in list)
    && (forall j :: j in after <==> j in before || (j in list && j !in left))
    && (forall j :: j in after ==> after[j] == if j in before then before[j] else EndOf(j, o, spared))
  }

  lemma OnlyPop(before: Manager, m: Manager, t: TxnId, end: Job, o: Outcome, spared: Option<JobId>)
    requires OnlyTxn(before, m, t, o, spared) && m.members[t] != [] && Distinct(m.members[t]) && Finalizable(end)
    requires OutcomeOf(end) == EndOf(m.members[t][0], o, spared) && m.members[t][0] in m.jobs
    requires forall j :: j in before.members[t] ==> j !in before.outcome
    ensures OnlyTxn(before, Pop(m, t, end), t, o, spared)
  {
    assert m.members[t][0] in m.members[t];
    OutsidePut(before.jobs, m.jobs, before.members[t], m.members[t][0], FinalizeSingle(end));
    EndedPop(before.members[t], m.members[t], before.outcome, m.outcome, o, spared);
    PopIs(m, t, end);
    ShorterList(before.members, m.members, t, m.members[t][1..]);
  }

  lemma ShorterList(before: Members, members: Members, t: TxnId, rest: seq<JobId>)
    requires t in before && t in members && members == before[t := members[t]]
    ensures members[t := rest] == before[t := rest]
  {
  }

  lemma EndedPop(list: seq<JobId>, left: seq<JobId>, before: Outcomes, after: Outcomes, o: Outcome,
                 spared: Option<JobId>)
    requires EndedAs(list, left, before, after, o, spared) && left != [] && Distinct(left)
    requires forall j :: j in list ==> j !in before
    ensures EndedAs(list, left[1..], before, after[left[0] := EndOf(left[0], o, spared)], o, spared)
  {
    var j, rest := left[0], left[1..];
    assert j in left && j !in rest && forall x :: x in left <==> x == j || x in rest;
  }

  /** A transaction whose jobs are being aborted, and what has been done so far. */
  ghost predicate AbortingFrom(before: Manager, m: Manager, t: TxnId, spared: Option<JobId>) {
    && IsAborting(m, t, spared) && OnlyTxn(before, m, t, Aborted, spared) && m.aborting == before.aborting
    && (AllEndable(before.jobs, before.members[t]) <==> AllEndable(m.jobs, m.members[t]))
  }

  lemma PopIs(m: Manager, t: TxnId, end: Job)
    requires t in m.members && m.members[t] != [] && Finalizable(end)
    ensures var r := Pop(m, t, end);
            && t in r.members && r.members[t] == m.members[t][1..] &&
               r.jobs == m.jobs[m.members[t][0] := FinalizeSingle(end)]
            && r.members == m.members[t := m.members[t][1..]] &&
               r.outcome == m.outcome[m.members[t][0] := OutcomeOf(end)]
            && r.aborting == m.aborting && r.group == m.group
  {
  }

  lemma PopEndable(m: Manager, t: TxnId, end: Job)
    requires t in m.members && m.members[t] != [] && Finalizable(end) && Distinct(m.members[t])
    requires m.members[t][0] in m.jobs && Endable(m.jobs[m.members[t][0]])
    ensures t in Pop(m, t, end).members
    ensures AllEndable(m.jobs, m.members[t]) <==> AllEndable(Pop(m, t, end).jobs, Pop(m, t, end).members[t])
  {
    PopIs(m, t, end);
    EndableRest(m.jobs, m.members[t], FinalizeSingle(end));
  }

  lemma AbortNext(before: Manager, m: Manager, t: TxnId, spared: Option<JobId>, ret: int)
    requires AbortingFrom(before, m, t, spared) && m.members[t] != [] && Endable(m.jobs[m.members[t][0]])
    requires forall j :: j in before.members[t] ==> j !in before.outcome
    ensures var end := AtEnd(m.jobs[m.members[t][0]], ret);
            Finalizable(end) && AbortingFrom(before, Pop(m, t, end), t, spared)
  {
    AbortStep(m, t, spared, ret);
    var end := AtEnd(m.jobs[m.members[t][0]], ret);
    OnlyPop(before, m, t, end, Aborted, spared);
    PopEndable(m, t, end);
    PopIs(m, t, end);
  }

  lemma NotEnded(m: Manager, busy: set<TxnId>, t: TxnId)
    requires OkBut(m, busy) && t in m.members
    ensures forall j :: j in m.members[t] ==> j !in m.outcome
  {
  }

  // ------------------------------------------------------------ aborting

  /** The first i jobs of the list have been cancelled, apart from job. */
  ghost predicate Cancelling(jobs: JobTable, list: seq<JobId>, job: JobId, spared: Option<JobId>, i: nat) {
    && i <= |list| && job in jobs &&
       (if spared.Some? then spared.value == job && MayCommit(jobs[job]) else Doomed(jobs[job]))
    && (forall k :: 0 <= k < i && list[k] != job ==> list[k] in jobs && Abortable(jobs[list[k]], false))
    && (forall k :: i <= k < |list| && list[k] != job ==> list[k] in jobs && MayCancel(jobs[list[k]]))
  }

  predicate MayCancel(j: Job) {
    (JobOk(j) && j.txn.Some?) || Doomed(j)
  }

  lemma CancelStep(jobs: JobTable, list: seq<JobId>, job: JobId, spared: Option<JobId>, i: nat, r: Job)
    requires Cancelling(jobs, list, job, spared, i) && i < |list| && Distinct(list) && list[i] != job &&
             Abortable(r, false)
    ensures Cancelling(jobs[list[i] := r], list, job, spared, i + 1)
  {
  }

  lemma CancelledAll(jobs: JobTable, list: seq<JobId>, job: JobId, spared: Option<JobId>)
    requires Cancelling(jobs, list, job, spared, |list|)
    ensures AbortList(jobs, list, spared)
  {
  }

  /** Cancelling does not complete or start a job. */
  ghost predicate SameEnds(a: JobTable, b: JobTable) {
    forall j :: j in a ==> j in b && (Endable(a[j]) <==> Endable(b[j]))
  }

  lemma SameEndable(a: JobTable, b: JobTable, list: seq<JobId>)
    requires SameEnds(a, b) && forall k :: 0 <= k < |list| ==> list[k] in a
    ensures AllEndable(a, list) <==> AllEndable(b, list)
  {
    forall k | 0 <= k < |list| ensures list[k] in b && (Endable(a[list[k]]) <==> Endable(b[list[k]])) {
    }
  }

  lemma SameEndsPut(a: JobTable, b: JobTable, j: JobId, r: Job)
    requires SameEnds(a, b) && j in b && (Endable(b[j]) <==> Endable(r))
    ensures SameEnds(a, b[j := r])
  {
  }

  /** Where the loop that cancels the jobs of the transaction stands. */
  ghost predicate CancellingFrom(before: Manager, m: Manager, t: TxnId, job: JobId, spared: Option<JobId>, i: nat) {
    && OkBut(m, {t}) && t in m.members && m == before.(jobs := m.jobs) && SameEnds(before.jobs, m.jobs)
    && Cancelling(m.jobs, m.members[t], job, spared, i) && SameOutside(before.jobs, m.jobs, m.members[t])
  }

  lemma CancelSkip(jobs: JobTable, list: seq<JobId>, job: JobId, spared: Option<JobId>, i: nat)
    requires Cancelling(jobs, list, job, spared, i) && i < |list| && list[i] == job
    ensures Cancelling(jobs, list, job, spared, i + 1)
  {
  }

  lemma CancelThis(before: Manager, m: Manager, t: TxnId, job: JobId, spared: Option<JobId>, i: nat)
    requires CancellingFrom(before, m, t, job, spared, i) && i < |m.members[t]| && m.members[t][i] == job
    ensures CancellingFrom(before, m, t, job, spared, i + 1)
  {
    CancelSkip(m.jobs, m.members[t], job, spared, i);
  }

  lemma CancelEnd(before: Manager, m: Manager, t: TxnId, job: JobId, spared: Option<JobId>)
    requires t in m.members && CancellingFrom(before, m, t, job, spared, |m.members[t]|)
    ensures AbortList(m.jobs, m.members[t], spared)
  {
    CancelledAll(m.jobs, m.members[t], job, spared);
  }

  lemma CancelOther(before: Manager, m: Manager, t: TxnId, job: JobId, spared: Option<JobId>, i: nat, force: bool)
    requires CancellingFrom(before, m, t, job, spared, i) && i < |m.members[t]| && m.members[t][i] != job
    ensures var o := m.members[t][i];
            && o in m.jobs && PausesOk(m.jobs[o])
            && CancellingFrom(before, Put(m, o, CancelAsync(m.jobs[o], true, force)), t, job, spared, i + 1)
  {
    var o := m.members[t][i];
    MemberIs(m, {t}, t, o);
    CancelDooms(m.jobs[o], force);
    var a := CancelAsync(m.jobs[o], true, force);
    PutBusy(m, {t}, o, a);
    CancelStep(m.jobs, m.members[t], job, spared, i, a);
    SameEndsPut(before.jobs, m.jobs, o, a);
    OutsidePut(before.jobs, m.jobs, m.members[t], o, a);
  }

  lemma MarkAborting(m: Manager, t: TxnId)
    requires OkBut(m, {t})
    ensures OkBut(m.(aborting := m.aborting + {t}), {t})
  {
  }

  // ------------------------------------------------------------ succeeding

  ghost predicate AllWaiting(jobs: JobTable, list: seq<JobId>, from: nat) {
    forall k :: from <= k < |list| ==> list[k] in jobs && JobOk(jobs[list[k]]) && jobs[list[k]].status.Waiting?
  }

  /** The first job to wait finds no other pending. */
  lemma PutWaiting(m: Manager, j: JobId, r: Job)
    requires OkBut(m, {}) && j in m.jobs && !IsCompleted(m.jobs[j].status) && m.jobs[j].txn.Some?
    requires JobOk(r) && r.status.Waiting? && r.txn == m.jobs[j].txn
    ensures OkBut(Put(m, j, r), {})
  {
    NotYet(m, {}, j);
    PutEnds(m.jobs, m.outcome, j, r);
    PutJobs(m.jobs, {}, j, r);
    PutMembers(m.jobs, m.members, j, r);
    PutTxns(m, {}, j, r);
  }

  /** When all jobs are completed and one of them waits, all of them do. */
  lemma AllWait(m: Manager, t: TxnId, j: JobId)
    requires OkBut(m, {}) && t in m.members && j in m.members[t] && j in m.jobs && m.jobs[j].status.Waiting?
    requires forall o :: o in m.members[t] ==> o in m.jobs && IsCompleted(m.jobs[o].status)
    ensures AllWaiting(m.jobs, m.members[t], 0)
  {
    assert TxnOk(t, m.jobs, m.members, m.aborting, m.group, m.outcome);
    forall k | 0 <= k < |m.members[t]| ensures m.jobs[m.members[t][k]].status.Waiting? {
      MemberIs(m, {}, t, m.members[t][k]);
    }
  }

  /** The first i jobs of the list are pending, the others wait. */
  ghost predicate Promoting(m: Manager, t: TxnId, i: nat) {
    && OkBut(m, {t}) && t in m.members && i <= |m.members[t]|
    && AllPending(m.jobs, m.members[t][..i]) && AllWaiting(m.jobs, m.members[t], i)
    && t !in m.aborting && NoneEnded(t, m.group, m.outcome, Aborted) && NoneEnded(t, m.group, m.outcome, Committed)
  }

  lemma StartPromoting(m: Manager, t: TxnId, j: JobId)
    requires OkBut(m, {}) && t in m.members && j in m.members[t] && j in m.jobs && m.jobs[j].status.Waiting?
    requires forall o :: o in m.members[t] ==> o in m.jobs && IsCompleted(m.jobs[o].status)
    ensures Promoting(m, t, 0)
  {
    AllWait(m, t, j);
    Open(m, t);
    assert TxnOk(t, m.jobs, m.members, m.aborting, m.group, m.outcome);
  }

  lemma PromoteStep(m: Manager, t: TxnId, i: nat)
    requires Promoting(m, t, i) && i < |m.members[t]|
    ensures var j := m.members[t][i];
            j in m.jobs && m.jobs[j].status.Waiting? && Promoting(Put(m, j, Transition(m.jobs[j], Pending)), t, i + 1)
  {
    var j := m.members[t][i];
    MemberIs(m, {t}, t, j);
    PutBusy(m, {t}, j, Transition(m.jobs[j], Pending));
    PromoteList(m.jobs, m.members[t], i);
  }

  /** Where the loop over the jobs of the transaction stands. */
  ghost predicate PromotingFrom(before: Manager, m: Manager, t: TxnId, i: nat) {
    && Promoting(m, t, i) && m == before.(jobs := m.jobs) && SameFlags(before.jobs, m.jobs)
    && SameOutside(before.jobs, m.jobs, m.members[t])
  }

  lemma PromoteNext(before: Manager, m: Manager, t: TxnId, i: nat)
    requires PromotingFrom(before, m, t, i) && i < |m.members[t]|
    ensures var j := m.members[t][i];
            && j in m.jobs && m.jobs[j].status.Waiting?
            && PromotingFrom(before, Put(m, j, Transition(m.jobs[j], Pending)), t, i + 1)
  {
    PromoteStep(m, t, i);
    var j := m.members[t][i];
    OutsidePut(before.jobs, m.jobs, m.members[t], j, Transition(m.jobs[j], Pending));
  }

  lemma Promoted(m: Manager, t: TxnId)
    requires t in m.members && Promoting(m, t, |m.members[t]|)
    ensures IsCommitting(m, t) && OkBut(m, {}) && AllPending(m.jobs, m.members[t])
  {
    var list := m.members[t];
    assert list[..|list|] == list;
    assert PendingTogether(m.jobs, list);
    Close(m, t);
  }

  lemma PromoteList(jobs: JobTable, list: seq<JobId>, i: nat)
    requires i < |list| && Distinct(list) && AllPending(jobs, list[..i]) && AllWaiting(jobs, list, i)
    ensures var jobs' := jobs[list[i] := Transition(jobs[list[i]], Pending)];
            AllPending(jobs', list[..i + 1]) && AllWaiting(jobs', list, i + 1)
  {
  }

  /** Some job of the transaction is to be finalised by the user. */
  predicate NeedsFinalize(m: Manager, t: TxnId) {
    t in m.members && exists j :: j in m.members[t] && j in m.jobs && !m.jobs[j].autoFinalize
  }

  ghost predicate SameFlags(a: JobTable, b: JobTable) {
    forall j :: j in a ==> j in b && a[j].autoFinalize == b[j].autoFinalize
  }

  predicate AllCompletedIn(m: Manager, t: TxnId) {
    t in m.members && forall o :: o in m.members[t] ==> o in m.jobs && IsCompleted(m.jobs[o].status)
  }

  /** A completed job of a transaction that is in order has a result of 0. */
  lemma CompletedIsZero(m: Manager, t: TxnId)
    requires OkBut(m, {}) && t in m.members
    ensures forall o :: o in m.members[t] && o in m.jobs && IsCompleted(m.jobs[o].status) ==> m.jobs[o].ret == 0
  {
    forall o | o in m.members[t] ensures o in m.jobs && JobOk(m.jobs[o]) && m.jobs[o].txn == Some(t) {
      MemberIs(m, {}, t, o);
    }
  }

  lemma CancelledSame(before: Manager, after: Manager, t: TxnId)
    requires OkBut(before, {t}) && t in before.members && SameEnds(before.jobs, after.jobs)
    ensures AllEndable(before.jobs, before.members[t]) <==> AllEndable(after.jobs, before.members[t])
  {
    forall k | 0 <= k < |before.members[t]| ensures before.members[t][k] in before.jobs {
      MemberIs(before, {t}, t, before.members[t][k]);
    }
    SameEndable(before.jobs, after.jobs, before.members[t]);
  }

  // ------------------------------------------------------------ entry points

  /** The other jobs of the transaction can be waited for when job has to abort it. */
  predicate OthersStarted(m: Manager, t: TxnId, job: JobId) {
    t in m.members ==> forall o :: o in m.members[t] && o != job ==> o in m.jobs && Started(m.jobs[o])
  }

  lemma OthersEnd(m: Manager, t: TxnId, job: JobId, r: Job)
    requires OkBut(m, {}) && t in m.members && job in m.members[t] && Doomed(r)
    ensures AllEndable(m.jobs[job := r], m.members[t]) <==> OthersStarted(m, t, job)
  {
    var jobs', list := m.jobs[job := r], m.members[t];
    forall k | 0 <= k < |list|
      ensures list[k] in jobs' && (Endable(jobs'[list[k]]) <==> list[k] == job || Started(m.jobs[list[k]]))
    {
      MemberIs(m, {}, t, list[k]);
    }
    if AllEndable(jobs', list) {
      forall o | o in list && o != job ensures o in m.jobs && Started(m.jobs[o]) {
        var k :| 0 <= k < |list| && list[k] == o;
      }
    }
  }

  /** One job of a sound transaction is doomed, the others are not yet. */
  lemma FirstDoomed(m: Manager, t: TxnId, job: JobId, r: Job)
    requires OkBut(m, {}) && t in m.members && job in m.members[t] && Doomed(r) && r.txn == Some(t)
    ensures job in m.jobs && m.jobs[job].txn == Some(t) && t !in m.aborting
    ensures var n := Put(m, job, r);
            && OkBut(n, {t}) && Cancelling(n.jobs, n.members[t], job, None, 0) &&
               NoneEnded(t, n.group, n.outcome, Committed)
  {
    MemberIs(m, {}, t, job);
    Open(m, t);
    PutBusy(m, {t}, job, r);
    assert TxnOk(t, m.jobs, m.members, m.aborting, m.group, m.outcome);
    forall k | 0 <= k < |m.members[t]| && m.members[t][k] != job
      ensures m.members[t][k] in m.jobs && MayCancel(m.jobs[m.members[t][k]]) {
      MemberIs(m, {}, t, m.members[t][k]);
    }
  }

  /** A job of a committing transaction fails to prepare: it is doomed, the others are pending. */
  lemma PreparingFails(m: Manager, t: TxnId, failed: JobId, ret: int, job: JobId)
    requires IsCommitting(m, t) && failed in m.members[t] && job in m.members[t] && ret != 0
    ensures failed in m.jobs && MayCommit(m.jobs[failed])
    ensures var n := Put(m, failed, Prepare(m.jobs[failed], ret));
            && OkBut(n, {t}) && Cancelling(n.jobs, n.members[t], job, if failed == job then None else Some(job), 0)
            && AllEndable(n.jobs, n.members[t])
  {
    var list := m.members[t];
    MemberIs(m, {t}, t, failed);
    PrepareEnds(m.jobs[failed], ret);
    PutBusy(m, {t}, failed, Prepare(m.jobs[failed], ret));
    PreparedList(m.jobs, list, failed, Prepare(m.jobs[failed], ret), job);
  }

  lemma PreparedList(jobs: JobTable, list: seq<JobId>, failed: JobId, r: Job, job: JobId)
    requires AllPending(jobs, list) && failed in list && job in list && Doomed(r) && IsCompleted(r.status)
    ensures var jobs' := jobs[failed := r];
            Cancelling(jobs', list, job, if failed == job then None else Some(job), 0) && AllEndable(jobs', list)
  {
  }

  lemma CompleteSucceeds(j: Job)
    requires JobOk(j) && j.co.Returned? && (j.status.Running? || j.status.Ready?) && j.ret == 0 && !j.forceCancel
    ensures Complete(j) == j.(busy := false) && JobOk(Transition(Complete(j), Waiting)) && j.txn.Some?
  {
  }

  lemma CancelCreated(j: Job, force: bool, driverForces: bool, a: Job)
    requires JobOk(j) && j.status.Created? && a == CancelAsync(j, force, driverForces)
    ensures a.forceCancel && Doomed(UpdateRc(a)) && UpdateRc(a).txn == j.txn
  {
    CancelFlags(j, force, driverForces, a);
    CancelUnpauses(j, force, driverForces, a);
    UpdateRcFails(a);
  }

  lemma CancelReturned(j: Job, force: bool, driverForces: bool, a: Job)
    requires JobOk(j) && j.txn.Some? && j.co.Returned? && a == CancelAsync(j, force, driverForces)
    ensures a.txn == j.txn && if a.forceCancel then Doomed(a) else Kept(j, a)
  {
    CancelFlags(j, force, driverForces, a);
    CancelUnpauses(j, force, driverForces, a);
  }

  lemma CancelLive(j: Job, force: bool, driverForces: bool, a: Job)
    requires JobOk(j) && j.txn.Some? && Started(j) && !j.deferred && a == CancelAsync(j, force, driverForces)
    ensures CoroutineOk(a) && Kept(j, Enter(a, true))
    ensures Enter(a, true).cancelled == a.cancelled && Enter(a, true).forceCancel == a.forceCancel
  {
    CancelFlags(j, force, driverForces, a);
    CancelUnpauses(j, force, driverForces, a);
    KeptOn(j, a);
  }

  lemma KeptOn(j: Job, a: Job)
    requires Kept(j, a)
    ensures Kept(j, Enter(a, true)) && Enter(a, true).cancelled == a.cancelled &&
            Enter(a, true).forceCancel == a.forceCancel
  {
    EnterKeeps(a);
  }

  /** What job_cancel_locked makes of the job, once the request is noted. */
  function AfterCancel(j: Job, a: Job): Job
    requires CoroutineOk(a) && (!Started(j) ==> MayBecome(a.status, Aborting))
  {
    if !Started(j) then UpdateRc(a) else if j.deferred then a else Enter(a, true)
  }

  lemma CancelTakesEffect(j: Job, force: bool, driverForces: bool, a: Job)
    requires JobOk(j) && MayApply(Cancel, j.status) && a == CancelAsync(j, force, driverForces)
    ensures CoroutineOk(a) && (!Started(j) ==> MayBecome(a.status, Aborting))
    ensures var r := AfterCancel(j, a);
            if !Started(j) || (j.deferred && a.forceCancel) then Doomed(r) && r.txn == j.txn
            else Kept(j, r) && r.cancelled == a.cancelled && r.forceCancel == a.forceCancel
  {
    if !Started(j) {
      CancelCreated(j, force, driverForces, a);
    } else if j.deferred {
      CancelReturned(j, force, driverForces, a);
    } else {
      CancelLive(j, force, driverForces, a);
    }
  }

  /** A job outside all transactions is dismissed. */
  lemma PutGone(m: Manager, j: JobId, r: Job)
    requires OkBut(m, {}) && j in m.jobs && m.jobs[j].txn.None? && JobOk(r) && r.txn.None? && r.ret == m.jobs[j].ret
    ensures OkBut(Put(m, j, r), {})
  {
    PutEnds(m.jobs, m.outcome, j, r);
    PutJobs(m.jobs, {}, j, r);
    PutMembers(m.jobs, m.members, j, r);
    PutTxns(m, {}, j, r);
  }

  lemma DismissEnds(j: Job)
    requires JobOk(j) && j.status.Concluded?
    ensures JobOk(DoDismiss(j)) && DoDismiss(j).txn.None? && j.txn.None? && DoDismiss(j).ret == j.ret
  {
  }

  /** Nobody refers to the job: it is freed. */
  lemma FreeKeeps(m: Manager, j: JobId)
    requires OkBut(m, {}) && j in m.jobs && m.jobs[j].refcnt == 0
    ensures m.jobs[j].status.Null? && OkBut(m.(jobs := m.jobs - {j}), {})
  {
    FreedIsNull(m.jobs[j]);
    FreeTxns(m, j);
    FreeOthers(m.jobs, m.members, m.outcome, j);
  }

  lemma FreeOthers(jobs: JobTable, members: Members, outcome: Outcomes, j: JobId)
    requires JobsOk(jobs, {}) && MembersOk(jobs, members) && EndsOk(jobs, outcome) && j in jobs && jobs[j].txn.None?
    ensures JobsOk(jobs - {j}, {}) && MembersOk(jobs - {j}, members) && EndsOk(jobs - {j}, outcome)
  {
  }

  lemma FreeTxns(m: Manager, j: JobId)
    requires MembersOk(m.jobs, m.members) && TxnsOk(m.jobs, m.members, m.aborting, m.group, m.outcome, {})
    ensures TxnsOk(m.jobs - {j}, m.members, m.aborting, m.group, m.outcome, {})
  {
    forall t | t in m.members ensures TxnOk(t, m.jobs - {j}, m.members, m.aborting, m.group, m.outcome) {
      assert TxnOk(t, m.jobs, m.members, m.aborting, m.group, m.outcome);
    }
  }

  lemma PendingCommits(m: Manager, t: TxnId, job: JobId)
    requires OkBut(m, {}) && t in m.members && job in m.members[t] && job in m.jobs && m.jobs[job].status.Pending?
    ensures IsCommitting(m, t) && NoneEnded(t, m.group, m.outcome, Committed)
  {
    Open(m, t);
    assert TxnOk(t, m.jobs, m.members, m.aborting, m.group, m.outcome);
    forall k | 0 <= k < |m.members[t]| ensures m.members[t][k] in m.jobs && MayCommit(m.jobs[m.members[t][k]]) {
      MemberIs(m, {}, t, m.members[t][k]);
    }
  }

  // ------------------------------------------------------------ joining and leaving early

  /** A job that was never started leaves its transaction. */
  function Leave(m: Manager, t: TxnId, j: JobId, r: Job): Manager
    requires t in m.members
  {
    m.(jobs := m.jobs[j := r], members := m.members[t := Without(m.members[t], j)],
       outcome := m.outcome[j := EarlyFailed])
  }

  lemma LeaveMembers(jobs: JobTable, members: Members, t: TxnId, j: JobId, r: Job)
    requires MembersOk(jobs, members) && t in members && j in members[t] && r.txn.None?
    ensures MembersOk(jobs[j := r], members[t := Without(members[t], j)])
  {
    WithoutIsDistinct(members[t], j);
    var jobs', members' := jobs[j := r], members[t := Without(members[t], j)];
    forall u: TxnId, x: JobId | u in members' && x in members'[u] ensures x in jobs' && jobs'[x].txn == Some(u) {
      assert x in members[u];
      assert jobs[x].txn == Some(u);
      assert x != j;
    }
  }

  lemma LeaveGroups(members: Members, group: Groups, outcome: Outcomes, t: TxnId, j: JobId)
    requires GroupsOk(members, group, outcome) && t in members && j in members[t] && Distinct(members[t])
    ensures GroupsOk(members[t := Without(members[t], j)], group, outcome[j := EarlyFailed])
  {
  }

  lemma LeaveTxn(m: Manager, t: TxnId, j: JobId, r: Job, u: TxnId)
    requires t in m.members && u in m.members && j in m.members[t] && GroupsOk(m.members, m.group, m.outcome) &&
             Distinct(m.members[t])
    requires MembersOk(m.jobs, m.members)
    requires TxnOk(u, m.jobs, m.members, m.aborting, m.group, m.outcome)
    ensures var n := Leave(m, t, j, r); TxnOk(u, n.jobs, n.members, n.aborting, n.group, n.outcome)
  {
    WithoutIsDistinct(m.members[t], j);
    assert m.group[j] == t;
  }

  lemma LeaveKeeps(m: Manager, t: TxnId, j: JobId, r: Job)
    requires OkBut(m, {}) && t in m.members && j in m.members[t] && JobOk(r) && r.txn.None?
    ensures OkBut(Leave(m, t, j, r), {})
  {
    var n := Leave(m, t, j, r);
    LeaveMembers(m.jobs, m.members, t, j, r);
    LeaveGroups(m.members, m.group, m.outcome, t, j);
    forall u | u in n.members ensures TxnOk(u, n.jobs, n.members, n.aborting, n.group, n.outcome) {
      LeaveTxn(m, t, j, r, u);
    }
  }

  /** job_create */
  function NewJob(t: TxnId, autoFinalize: bool, autoDismiss: bool): Job {
    Job(Created, 0, NotCreated, false, true, false, false, false, 1, false, true, autoFinalize, autoDismiss, Some(t), 1,
        0, 0)
  }

  /** A job joins a transaction. */
  function Join(m: Manager, t: TxnId, j: JobId, r: Job): Manager
    requires t in m.members
  {
    m.(jobs := m.jobs[j := r], members := m.members[t := [j] + m.members[t]], group := m.group[j := t])
  }

  /** Nothing has been decided about the transaction yet. */
  predicate Undecided(m: Manager, t: TxnId) {
    && t in m.members && t !in m.aborting && NoneEnded(t, m.group, m.outcome, Committed)
    && forall j :: j in m.members[t] && j in m.jobs ==> !m.jobs[j].status.Pending?
  }

  lemma NewTxnKeeps(m: Manager, t: TxnId)
    requires OkBut(m, {}) && t !in m.members && t !in m.aborting
    ensures var n := m.(members := m.members[t := []]); OkBut(n, {}) && Undecided(n, t)
  {
    NewMembers(m.jobs, m.members, t);
    NewGroups(m.members, m.group, m.outcome, t);
    NewTxns(m, t);
  }

  lemma NewMembers(jobs: JobTable, members: Members, t: TxnId)
    requires MembersOk(jobs, members) && t !in members
    ensures MembersOk(jobs, members[t := []])
  {
  }

  lemma NewGroups(members: Members, group: Groups, outcome: Outcomes, t: TxnId)
    requires GroupsOk(members, group, outcome) && t !in members
    ensures GroupsOk(members[t := []], group, outcome) && forall j :: j in group ==> group[j] != t
  {
  }

  lemma NewTxns(m: Manager, t: TxnId)
    requires TxnsOk(m.jobs, m.members, m.aborting, m.group, m.outcome, {}) && t !in m.members && t !in m.aborting
    requires forall j :: j in m.group ==> m.group[j] != t
    ensures TxnsOk(m.jobs, m.members[t := []], m.aborting, m.group, m.outcome, {})
  {
    var members := m.members[t := []];
    forall u | u in members ensures TxnOk(u, m.jobs, members, m.aborting, m.group, m.outcome) {
      assert u != t ==> TxnOk(u, m.jobs, m.members, m.aborting, m.group, m.outcome);
    }
  }

  lemma JoinMembers(jobs: JobTable, members: Members, t: TxnId, j: JobId, r: Job)
    requires MembersOk(jobs, members) && t in members && j !in jobs && r.txn == Some(t)
    ensures MembersOk(jobs[j := r], members[t := [j] + members[t]])
  {
  }

  lemma JoinGroups(members: Members, group: Groups, outcome: Outcomes, t: TxnId, j: JobId)
    requires GroupsOk(members, group, outcome) && t in members && j !in group
    ensures GroupsOk(members[t := [j] + members[t]], group[j := t], outcome)
  {
  }

  lemma JoinTxn(m: Manager, t: TxnId, j: JobId, r: Job, u: TxnId)
    requires Undecided(m, t) && u in m.members && j !in m.group && j !in m.jobs && r.status.Created?
    requires MembersOk(m.jobs, m.members) && GroupsOk(m.members, m.group, m.outcome)
    requires TxnOk(u, m.jobs, m.members, m.aborting, m.group, m.outcome)
    ensures var n := Join(m, t, j, r); TxnOk(u, n.jobs, n.members, n.aborting, n.group, n.outcome)
  {
  }

  lemma JoinKeeps(m: Manager, t: TxnId, j: JobId, r: Job)
    requires OkBut(m, {}) && Undecided(m, t) && j !in m.group && j !in m.jobs && JobOk(r) && r.status.Created? &&
             r.txn == Some(t)
    ensures OkBut(Join(m, t, j, r), {})
  {
    var n := Join(m, t, j, r);
    JoinMembers(m.jobs, m.members, t, j, r);
    JoinGroups(m.members, m.group, m.outcome, t, j);
    forall u | u in n.members ensures TxnOk(u, n.jobs, n.members, n.aborting, n.group, n.outcome) {
      JoinTxn(m, t, j, r, u);
    }
  }

  lemma JoinBreaks(m: Manager, t: TxnId, j: JobId, r: Job)
    requires OkBut(m, {}) && t in m.members && !Undecided(m, t) && j !in m.group && j !in m.jobs && r.status.Created?
    ensures !OkBut(Join(m, t, j, r), {})
  {
    var n := Join(m, t, j, r);
    if t !in m.aborting {
      if NoneEnded(t, m.group, m.outcome, Committed) {
        var x :| x in m.members[t] && x in m.jobs && m.jobs[x].status.Pending?;
        JoinPending(m.jobs, m.members[t], j, r, x);
      } else {
        JoinEnded(t, m.group, m.outcome, j);
      }
    }
    assert !TxnOk(t, n.jobs, n.members, n.aborting, n.group, n.outcome);
  }

  lemma JoinPending(jobs: JobTable, list: seq<JobId>, j: JobId, r: Job, x: JobId)
    requires j !in jobs && r.status.Created? && x in list && x in jobs && jobs[x].status.Pending?
    ensures !PendingTogether(jobs[j := r], [j] + list)
  {
    assert x in [j] + list && j in [j] + list;
  }

  lemma JoinEnded(t: TxnId, group: Groups, outcome: Outcomes, j: JobId)
    requires !NoneEnded(t, group, outcome, Committed) && j !in group
    ensures !NoneEnded(t, group[j := t], outcome, Committed)
  {
    var x :| x in group && group[x] == t && x in outcome && outcome[x] == Committed;
    assert group[j := t][x] == t;
  }

  // ------------------------------------------------------------ what finalising leaves

  /**
   What job_do_finalize_locked leaves when it is called for job: if the first job that fails to prepare is
   another one, job is spared and commits although the transaction aborts; otherwise all is in order.
   */
  ghost predicate Finalized(before: Manager, after: Manager, t: TxnId, job: JobId, prepares: JobId -> int)
    requires t in before.members
  {
    var failed, spared := FirstFailure(before.members[t], prepares), SparedBy(before.members[t], job, prepares);
    && OkBut(after, {t}) && OnlyTxn(before, after, t, if failed.None? then Committed else Aborted, spared) &&
       after.members[t] == []
    && after.aborting == (if failed.None? then before.aborting else before.aborting + {t})
    && (OkBut(after, {}) <==> spared.None?)
  }

  lemma FinalizedAfter(before: Manager, mid: Manager, after: Manager, t: TxnId, job: JobId, prepares: JobId -> int)
    requires t in before.members && mid == before.(jobs := mid.jobs) && Finalized(mid, after, t, job, prepares)
    requires SameOutside(before.jobs, mid.jobs, before.members[t])
    ensures Finalized(before, after, t, job, prepares)
  {
    var failed, spared := FirstFailure(before.members[t], prepares), SparedBy(before.members[t], job, prepares);
    OnlyTxnAfter(before, mid, after, t, if failed.None? then Committed else Aborted, spared);
  }

  lemma FinalizedIff(before: Manager, after: Manager, t: TxnId, job: JobId, prepares: JobId -> int)
    requires t in before.members && Finalized(before, after, t, job, prepares)
    ensures OkBut(after, {}) <==> SparedBy(before.members[t], job, prepares).None?
  {
  }

  /** What the failure of a job leaves: it takes its transaction with it, unless another job was never started. */
  ghost predicate Failed(before: Manager, after: Manager, t: TxnId, job: JobId, finished: bool) {
    && (finished <==> OthersStarted(before, t, job))
    && OkBut(after, {t}) && OnlyTxn(before, after, t, Aborted, None) && after.aborting == before.aborting + {t}
    && (finished <==> OkBut(after, {})) && (finished <==> after.members[t] == [])
  }

  /** What cancelling a job leaves, whose flags are then those of a. */
  ghost predicate Cancelled(before: Manager, after: Manager, job: JobId, a: Job, finished: bool)
    requires job in before.jobs && before.jobs[job].txn.Some?
  {
    var j := before.jobs[job];
    if !Started(j) || (j.deferred && a.forceCancel) then Failed(before, after, j.txn.value, job, finished)
    else
      && finished && OkBut(after, {}) && job in after.jobs && after == Put(before, job, after.jobs[job])
      && after.jobs[job].cancelled == a.cancelled && after.jobs[job].forceCancel == a.forceCancel
  }

  /** What the successful completion of a job, which is r then, leaves. */
  ghost predicate Succeeded(before: Manager, after: Manager, t: TxnId, job: JobId, r: Job, prepares: JobId -> int)
    requires t in before.members
  {
    var m := Put(before, job, r);
    if !AllCompletedIn(m, t) then after == m && OkBut(after, {})
    else if NeedsFinalize(m, t) then
      && after == m.(jobs := after.jobs) && OkBut(after, {}) && AllPending(after.jobs, after.members[t])
      && SameOutside(before.jobs, after.jobs, before.members[t])
    else Finalized(before, after, t, job, prepares)
  }

  /** What the completion of the last job leaves, once it waits: all are pending, or finalised. */
  ghost predicate PromoteOver(before: Manager, after: Manager, t: TxnId, job: JobId, prepares: JobId -> int)
    requires t in before.members
  {
    if NeedsFinalize(before, t) then
      && after == before.(jobs := after.jobs) && OkBut(after, {}) && AllPending(after.jobs, after.members[t])
      && SameOutside(before.jobs, after.jobs, before.members[t])
    else Finalized(before, after, t, job, prepares)
  }

  lemma SucceededLast(before: Manager, mid: Manager, after: Manager, t: TxnId, job: JobId, r: Job,
                      prepares: JobId -> int)
    requires t in before.members && job in before.members[t] && job in before.jobs && mid == Put(before, job, r)
    requires AllCompletedIn(mid, t) && PromoteOver(mid, after, t, job, prepares)
    ensures Succeeded(before, after, t, job, r, prepares)
  {
    OutsidePut(before.jobs, before.jobs, before.members[t], job, r);
    if !NeedsFinalize(mid, t) {
      FinalizedAfter(before, mid, after, t, job, prepares);
    }
  }

  /** A transaction that aborts and has committed a job is not in order. */
  lemma SplitTxn(before: Manager, after: Manager, t: TxnId, job: JobId)
    requires OkBut(before, {t}) && t in before.members && job in before.members[t]
    requires OnlyTxn(before, after, t, Aborted, Some(job)) && after.members[t] == [] && t in after.aborting
    ensures !OkBut(after, {})
  {
    MemberIs(before, {t}, t, job);
    assert job in after.outcome && after.outcome[job].Committed?;
    assert !NoneEnded(t, after.group, after.outcome, Committed);
    assert !TxnOk(t, after.jobs, after.members, after.aborting, after.group, after.outcome);
  }

  /** Job k of the list fails to prepare, and none before it does. */
  ghost predicate FailsFirst(list: seq<JobId>, prepares: JobId -> int, k: nat) {
    k < |list| && prepares(list[k]) != 0 && forall i :: 0 <= i < k ==> prepares(list[i]) == 0
  }

  lemma {:induction false} FirstFailureIs(list: seq<JobId>, prepares: JobId -> int)
    ensures FirstFailure(list, prepares).None? <==> forall k :: 0 <= k < |list| ==> prepares(list[k]) == 0
    ensures forall k: nat :: FailsFirst(list, prepares, k) ==> FirstFailure(list, prepares) == Some(list[k])
  {
    if list != [] && prepares(list[0]) == 0 {
      var rest := list[1..];
      FirstFailureIs(rest, prepares);
      assert forall k :: 0 < k < |list| ==> list[k] == rest[k - 1];
      forall k: nat | FailsFirst(list, prepares, k) ensures FirstFailure(list, prepares) == Some(list[k]) {
        assert FailsFirst(rest, prepares, k - 1);
      }
    }
  }

  class JobManager {
    var m: Manager

    constructor ()
      ensures m == Manager(map[], map[], {}, map[], map[]) && OkBut(m, {})
    {
      m := Manager(map[], map[], {}, map[], map[]);
    }

    /** job_txn_new */
    method NewTxn(t: TxnId)
      requires OkBut(m, {}) && t !in m.members && t !in m.aborting
      modifies this
      ensures OkBut(m, {}) && m == old(m).(members := old(m).members[t := []]) && Undecided(m, t)
    {
      NewTxnKeeps(m, t);
      m := m.(members := m.members[t := []]);
    }

    /**
     The loop in job_completed_txn_abort_locked that finishes and finalises the jobs; rets has what they
     return.  It waits for ever for a job that was never started.
     */
    method AbortAll(t: TxnId, ghost spared: Option<JobId>, rets: JobId -> int) returns (finished: bool)
      requires IsAborting(m, t, spared)
      modifies this
      ensures finished <==> AllEndable(old(m).jobs, old(m).members[t])
      ensures OkBut(m, {t}) && OnlyTxn(old(m), m, t, Aborted, spared) && m.aborting == old(m).aborting
      ensures (finished <==> m.members[t] == []) && (finished && spared.None? ==> OkBut(m, {}))
    {
      NotEnded(m, {t}, t);
      while m.members[t] != []
        invariant AbortingFrom(old(m), m, t, spared)
        decreases |m.members[t]|
      {
        var j := m.members[t][0];
        if !IsCompleted(m.jobs[j].status) && !Started(m.jobs[j]) {
          return false;
        }
        AbortNext(old(m), m, t, spared, rets(j));
        m := Pop(m, t, AtEnd(m.jobs[j], rets(j)));
      }
      if spared.None? {
        Settle(m, t);
      }
      return true;
    }

    /** The second half of job_do_finalize_locked. */
    method CommitAll(t: TxnId)
      requires IsCommitting(m, t)
      modifies this
      ensures OkBut(m, {}) && OnlyTxn(old(m), m, t, Committed, None) && m.members[t] == [] &&
              m.aborting == old(m).aborting
    {
      while m.members[t] != []
        invariant IsCommitting(m, t) && OnlyTxn(old(m), m, t, Committed, None) && m.aborting == old(m).aborting
        decreases |m.members[t]|
      {
        var end := m.jobs[m.members[t][0]];
        CommitStep(m, t);
        OnlyPop(old(m), m, t, end, Committed, None);
        m := Pop(m, t, end);
      }
      Settle(m, t);
    }

    /** The loop in job_completed_txn_abort_locked that cancels the other jobs; forces is what their drivers say. */
    method CancelOthers(t: TxnId, job: JobId, ghost spared: Option<JobId>, forces: JobId -> bool)
      requires OkBut(m, {t}) && t in m.members && Cancelling(m.jobs, m.members[t], job, spared, 0)
      modifies this
      ensures OkBut(m, {t}) && m == old(m).(jobs := m.jobs) && AbortList(m.jobs, m.members[t], spared)
      ensures SameEnds(old(m).jobs, m.jobs) && SameOutside(old(m).jobs, m.jobs, old(m).members[t])
    {
      var list := m.members[t];
      for i := 0 to |list|
        invariant CancellingFrom(old(m), m, t, job, spared, i) && list == m.members[t]
      {
        if list[i] == job {
          CancelThis(old(m), m, t, job, spared, i);
        } else {
          CancelOther(old(m), m, t, job, spared, i, forces(list[i]));
          m := Put(m, list[i], CancelAsync(m.jobs[list[i]], true, forces(list[i])));
        }
      }
      CancelEnd(old(m), m, t, job, spared);
    }

    /** job_completed_txn_abort_locked, which returns unless one of the jobs was never started. */
    method TxnAbort(t: TxnId, job: JobId, ghost spared: Option<JobId>, rets: JobId -> int, forces: JobId -> bool)
      returns (finished: bool)
      requires OkBut(m, {t}) && t in m.members && job in m.members[t] && t !in m.aborting
      requires NoneEnded(t, m.group, m.outcome, Committed) && Cancelling(m.jobs, m.members[t], job, spared, 0)
      modifies this
      ensures finished <==> AllEndable(old(m).jobs, old(m).members[t])
      ensures OkBut(m, {t}) && OnlyTxn(old(m), m, t, Aborted, spared) && m.aborting == old(m).aborting + {t}
      ensures (finished <==> m.members[t] == []) && (finished && spared.None? ==> OkBut(m, {}))
    {
      MarkAborting(m, t);
      m := m.(aborting := m.aborting + {t});
      CancelOthers(t, job, spared, forces);
      CancelledSame(old(m), m, t);
      ghost var mid := m;
      finished := AbortAll(t, spared, rets);
      OnlyTxnAfter(old(m), mid, m, t, Aborted, spared);
    }

    /** The preparation in job_do_finalize_locked; prepares is what the drivers return. */
    method PrepareAll(t: TxnId, prepares: JobId -> int) returns (failed: Option<JobId>)
      requires IsCommitting(m, t)
      modifies this
      ensures failed == FirstFailure(old(m).members[t], prepares)
      ensures failed.None? ==> m == old(m)
      ensures failed.Some? ==>
                failed.value in old(m).members[t] && failed.value in old(m).jobs && MayCommit(old(m).jobs[failed.value])
      ensures failed.Some? ==> prepares(failed.value) != 0
      ensures failed.Some? ==>
                m == Put(old(m), failed.value, Prepare(old(m).jobs[failed.value], prepares(failed.value)))
    {
      var list := m.members[t];
      for i := 0 to |list|
        invariant m == old(m) && FirstFailure(list[i..], prepares) == FirstFailure(list, prepares)
      {
        var j := list[i];
        PrepareEnds(m.jobs[j], prepares(j));
        assert list[i..][1..] == list[i + 1..];
        m := Put(m, j, Prepare(m.jobs[j], prepares(j)));
        if m.jobs[j].ret != 0 {
          return Some(j);
        }
        assert m.jobs == old(m).jobs;
      }
      return None;
    }

    /** job_do_finalize_locked */
    method DoFinalize(t: TxnId, job: JobId, prepares: JobId -> int, forces: JobId -> bool)
      requires IsCommitting(m, t) && job in m.members[t] && NoneEnded(t, m.group, m.outcome, Committed)
      modifies this
      ensures Finalized(old(m), m, t, job, prepares)
    {
      var failed := PrepareAll(t, prepares);
      if failed.Some? {
        PreparingFails(old(m), t, failed.value, prepares(failed.value), job);
        ghost var spared, mid := if failed.value == job then None else Some(job), m;
        OutsidePut(old(m).jobs, old(m).jobs, old(m).members[t], failed.value, m.jobs[failed.value]);
        var finished := TxnAbort(t, job, spared, _ => 0, forces);
        OnlyTxnAfter(old(m), mid, m, t, Aborted, spared);
        if spared.Some? {
          SplitTxn(old(m), m, t, job);
        }
      } else {
        CommitAll(t);
        Open(m, t);
      }
    }

    /** job_transition_to_pending_locked for all jobs of the transaction. */
    method MakePending(t: TxnId)
      requires Promoting(m, t, 0)
      modifies this
      ensures m == old(m).(jobs := m.jobs) && SameFlags(old(m).jobs, m.jobs)
      ensures SameOutside(old(m).jobs, m.jobs, old(m).members[t])
      ensures IsCommitting(m, t) && OkBut(m, {}) && AllPending(m.jobs, m.members[t])
      ensures NoneEnded(t, m.group, m.outcome, Committed)
    {
      var list := m.members[t];
      for i := 0 to |list|
        invariant PromotingFrom(old(m), m, t, i) && list == m.members[t]
      {
        PromoteNext(old(m), m, t, i);
        m := Put(m, list[i], Transition(m.jobs[list[i]], Pending));
      }
      Promoted(m, t);
    }

    /** job_completed_txn_success_locked once all jobs wait. */
    method Promote(t: TxnId, job: JobId, prepares: JobId -> int, forces: JobId -> bool)
      requires Promoting(m, t, 0) && job in m.members[t]
      modifies this
      ensures PromoteOver(old(m), m, t, job, prepares)
    {
      var list := m.members[t];
      MakePending(t);
      if forall j :: j in list ==> m.jobs[j].autoFinalize {
        ghost var mid := m;
        DoFinalize(t, job, prepares, forces);
        FinalizedAfter(old(m), mid, m, t, job, prepares);
      }
    }

    /** The loop in job_completed_txn_success_locked; what it asserts of completed jobs holds. */
    method AllCompleted(t: TxnId) returns (all: bool)
      requires OkBut(m, {}) && t in m.members
      ensures all <==> AllCompletedIn(m, t)
      ensures forall o :: o in m.members[t] && o in m.jobs && IsCompleted(m.jobs[o].status) ==> m.jobs[o].ret == 0
    {
      CompletedIsZero(m, t);
      var list := m.members[t];
      for i := 0 to |list|
        invariant forall k :: 0 <= k < i ==> list[k] in m.jobs && IsCompleted(m.jobs[list[k]].status)
      {
        MemberIs(m, {}, t, list[i]);
        if !IsCompleted(m.jobs[list[i]].status) {
          return false;
        }
      }
      return true;
    }

    /**
     job_completed_txn_success_locked: the last job to complete makes all pending, and finalises
     them unless one is left to the user.
     */
    method TxnSuccess(t: TxnId, job: JobId, r: Job, prepares: JobId -> int, forces: JobId -> bool)
      requires OkBut(m, {}) && t in m.members && job in m.members[t] && job in m.jobs &&
               !IsCompleted(m.jobs[job].status)
      requires JobOk(r) && r.status.Waiting? && r.txn == Some(t)
      modifies this
      ensures Succeeded(old(m), m, t, job, r, prepares)
    {
      MemberIs(m, {}, t, job);
      PutWaiting(m, job, r);
      m := Put(m, job, r);
      ghost var mid := m;
      var all := AllCompleted(t);
      if all {
        StartPromoting(m, t, job);
        Promote(t, job, prepares, forces);
        SucceededLast(old(m), mid, m, t, job, r, prepares);
      }
    }

    /** Something happens to a single job. */
    method Happen(j: JobId, e: Event)
      requires OkBut(m, {}) && j in m.jobs && Enabled(m.jobs[j], e)
      modifies this
      ensures OkBut(m, {}) && m == Put(old(m), j, Apply(old(m).jobs[j], e))
    {
      ApplyKeeps(m.jobs[j], e);
      Update(j, Apply(m.jobs[j], e));
    }

    /** A job fails. */
    method Fail(t: TxnId, job: JobId, r: Job, rets: JobId -> int, forces: JobId -> bool) returns (finished: bool)
      requires OkBut(m, {}) && t in m.members && job in m.members[t] && Doomed(r) && r.txn == Some(t)
      modifies this
      ensures Failed(old(m), m, t, job, finished)
    {
      FirstDoomed(m, t, job, r);
      OthersEnd(m, t, job, r);
      m := Put(m, job, r);
      ghost var mid := m;
      OutsidePut(old(m).jobs, old(m).jobs, old(m).members[t], job, r);
      finished := TxnAbort(t, job, None, rets, forces);
      OnlyTxnAfter(old(m), mid, m, t, Aborted, None);
    }

    /** job_exit: the run function of the job has returned. */
    method Exit(job: JobId, rets: JobId -> int, forces: JobId -> bool, prepares: JobId -> int) returns (finished: bool)
      requires OkBut(m, {}) && job in m.jobs && m.jobs[job].co.Returned? &&
               (m.jobs[job].status.Running? || m.jobs[job].status.Ready?)
      modifies this
      ensures old(m).jobs[job].txn.Some? && old(m).jobs[job].txn.value in old(m).members
      ensures var t := old(m).jobs[job].txn.value;
              if old(m).jobs[job].ret != 0 || old(m).jobs[job].forceCancel then Failed(old(m), m, t, job, finished)
              else
                finished &&
                Succeeded(old(m), m, t, job, old(m).jobs[job].(busy := false, status := Waiting), prepares)
    {
      var j := m.jobs[job];
      var t := j.txn.value;
      if j.ret != 0 || j.forceCancel {
        CompleteFails(j);
        finished := Fail(t, job, Complete(j), rets, forces);
      } else {
        CompleteSucceeds(j);
        TxnSuccess(t, job, Transition(Complete(j), Waiting), prepares, forces);
        finished := true;
      }
    }

    /** job_dismiss_locked, and what job_cancel_locked does with a concluded job. */
    method DismissJob(job: JobId)
      requires OkBut(m, {}) && job in m.jobs
      modifies this
      ensures OkBut(m, {})
      ensures m == if MayApply(Dismiss, old(m).jobs[job].status)
                   then Put(old(m), job, DoDismiss(old(m).jobs[job]))
                   else old(m)
    {
      if MayApply(Dismiss, m.jobs[job].status) {
        DismissEnds(m.jobs[job]);
        PutGone(m, job, DoDismiss(m.jobs[job]));
        m := Put(m, job, DoDismiss(m.jobs[job]));
      }
    }

    /** job_finalize_locked: all jobs of the transaction are pending, and are finalised together. */
    method FinalizeJob(job: JobId, prepares: JobId -> int, forces: JobId -> bool)
      requires OkBut(m, {}) && job in m.jobs
      modifies this
      ensures if old(m).jobs[job].status.Pending?
              then
                && old(m).jobs[job].txn.Some? && old(m).jobs[job].txn.value in old(m).members
                && Finalized(old(m), m, old(m).jobs[job].txn.value, job, prepares) && job in m.outcome
              else m == old(m)
    {
      if MayApply(Finalize, m.jobs[job].status) {
        var t := m.jobs[job].txn.value;
        PendingCommits(m, t, job);
        MemberIs(m, {}, t, job);
        DoFinalize(t, job, prepares, forces);
      }
    }

    /** A job goes on with a cancel request noted, or without. */
    method Update(job: JobId, r: Job)
      requires OkBut(m, {}) && job in m.jobs && Kept(m.jobs[job], r)
      modifies this
      ensures OkBut(m, {}) && m == Put(old(m), job, r)
    {
      PutKept(m, job, r);
      m := Put(m, job, r);
    }

    /** job_cancel_locked of a job that is not concluded. */
    method DoCancel(job: JobId, force: bool, driverForces: bool, rets: JobId -> int, forces: JobId -> bool)
      returns (finished: bool)
      requires OkBut(m, {}) && job in m.jobs && MayApply(Cancel, m.jobs[job].status)
      modifies this
      ensures JobOk(old(m).jobs[job]) && old(m).jobs[job].txn.Some?
      ensures Cancelled(old(m), m, job, CancelAsync(old(m).jobs[job], force, driverForces), finished)
    {
      var j := m.jobs[job];
      assert JobOk(j);
      var a := CancelAsync(j, force, driverForces);
      CancelTakesEffect(j, force, driverForces, a);
      if !Started(j) || j.deferred {
        if !Started(j) || a.forceCancel {
          finished := Fail(j.txn.value, job, AfterCancel(j, a), rets, forces);
          return;
        }
      }
      Update(job, AfterCancel(j, a));
      finished := true;
    }

    /** job_user_cancel_locked */
    method CancelJob(job: JobId, force: bool, driverForces: bool, rets: JobId -> int, forces: JobId -> bool)
      returns (finished: bool)
      requires OkBut(m, {}) && job in m.jobs
      modifies this
      ensures if MayApply(Cancel, old(m).jobs[job].status)
              then
                && JobOk(old(m).jobs[job]) && old(m).jobs[job].txn.Some?
                && Cancelled(old(m), m, job, CancelAsync(old(m).jobs[job], force, driverForces), finished)
              else m == old(m) && finished
    {
      finished := true;
      if MayApply(Cancel, m.jobs[job].status) {
        finished := DoCancel(job, force, driverForces, rets, forces);
      }
    }

    /** job_unref_locked of the last reference. */
    method Free(job: JobId)
      requires OkBut(m, {}) && job in m.jobs && m.jobs[job].refcnt == 0
      modifies this
      ensures OkBut(m, {}) && m == old(m).(jobs := old(m).jobs - {job})
      ensures old(m).jobs[job].status.Null? && old(m).jobs[job].txn.None?
    {
      FreeKeeps(m, job);
      m := m.(jobs := m.jobs - {job});
    }

    /** job_early_fail */
    method EarlyFail(job: JobId)
      requires OkBut(m, {}) && job in m.jobs && m.jobs[job].status.Created?
      modifies this
      ensures OkBut(m, {}) && old(m).jobs[job].txn.Some? && old(m).jobs[job].txn.value in old(m).members
      ensures m == Leave(old(m), old(m).jobs[job].txn.value, job, DoDismiss(old(m).jobs[job]))
    {
      var t := m.jobs[job].txn.value;
      LeaveKeeps(m, t, job, DoDismiss(m.jobs[job]));
      m := Leave(m, t, job, DoDismiss(m.jobs[job]));
    }

    /**
     job_create; id has not been used before.  Joining a transaction breaks its order exactly
     when something has been decided about it.
     */
    method Create(id: JobId, t: TxnId, autoFinalize: bool, autoDismiss: bool)
      requires OkBut(m, {}) && t in m.members && id !in m.jobs && id !in m.group
      modifies this
      ensures m == Join(old(m), t, id, NewJob(t, autoFinalize, autoDismiss)) && (OkBut(m, {}) <==> Undecided(old(m), t))
    {
      if Undecided(m, t) {
        JoinKeeps(m, t, id, NewJob(t, autoFinalize, autoDismiss));
      } else {
        JoinBreaks(m, t, id, NewJob(t, autoFinalize, autoDismiss));
      }
      m := Join(m, t, id, NewJob(t, autoFinalize, autoDismiss));
    }
  }
}
