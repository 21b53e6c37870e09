/**
 A background job of job.c and blockjob.c: its status, its coroutine, pausing and
 cancellation.  Every function is what one entry point, or the job's coroutine between two
 yields, does to one job; the assertions the code makes are preconditions here.
 */
module Jobs {
  import opened Counting
  import opened Options

  type TxnId = nat

  datatype Status =
    Undefined | Created | Running | Paused | Ready | Standby | Waiting | Pending | Aborting | Concluded | Null

  /** JobSTT */
  predicate MayBecome(s0: Status, s1: Status) {
    match s0
    case Undefined => s1.Created?
    case Created => s1.Running? || s1.Aborting? || s1.Null?
    case Running => s1.Paused? || s1.Ready? || s1.Waiting? || s1.Aborting?
    case Paused => s1.Running?
    case Ready => s1.Standby? || s1.Waiting? || s1.Aborting?
    case Standby => s1.Ready?
    case Waiting => s1.Pending? || s1.Aborting?
    case Pending => s1.Aborting? || s1.Concluded?
    case Aborting => s1.Aborting? || s1.Concluded?
    case Concluded => s1.Null?
    case Null => false
  }

  datatype Verb = Cancel | Pause | Resume | Finalize | Dismiss

  /** JobVerbTable, for the verbs that matter here. */
  predicate MayApply(v: Verb, s: Status) {
    match v
    case Cancel => s.Created? || s.Running? || s.Paused? || s.Ready? || s.Standby? || s.Waiting? || s.Pending?
    case Pause => s.Created? || s.Running? || s.Paused? || s.Ready? || s.Standby?
    case Resume => s.Created? || s.Running? || s.Paused? || s.Ready? || s.Standby?
    case Finalize => s.Pending?
    case Dismiss => s.Concluded?
  }

  /** Where the coroutine is. */
  datatype Coroutine = NotCreated | Active | AtYield | Returned

  datatype Job = Job(
    status: Status, ret: int, co: Coroutine, busy: bool, paused: bool, deferred: bool,
    cancelled: bool, forceCancel: bool,
    pauseCount: int, userPaused: bool, iostatusOk: bool,
    autoFinalize: bool, autoDismiss: bool,
    txn: Option<TxnId>, refcnt: int,
    drains: nat,           // drained sections that have paused the job
    held: nat)             // references owned by others

  const ECANCELED: int := 125

  predicate Started(j: Job) { !j.co.NotCreated? }

  predicate IsReady(j: Job) { j.status.Ready? || j.status.Standby? }

  predicate IsCompleted(s: Status) {
    s.Waiting? || s.Pending? || s.Aborting? || s.Concluded? || s.Null?
  }

  /** The pauses of a job are accounted for, and an I/O error that stopped it shows as a user pause. */
  predicate PausesOk(j: Job) {
    j.pauseCount == One(!Started(j)) + One(j.userPaused) + j.drains && (j.iostatusOk || j.userPaused)
  }

  /** The flags of the coroutine tell where it is. */
  predicate CoroutineOk(j: Job) {
    match j.co
    case NotCreated => !j.busy
    case Active => j.busy && !j.deferred
    case AtYield => !j.busy && !j.deferred
    case Returned => j.deferred
  }

  /** What the status means for the other fields, between the steps of a run. */
  predicate StatusOk(j: Job) {
    match j.status
    case Undefined => false
    case Created => j.co.NotCreated? && j.paused && !j.deferred && j.ret == 0 && !j.cancelled
    case Running => Started(j) && !j.paused
    case Ready => Started(j) && !j.paused
    case Paused => Started(j) && j.paused && !j.deferred && (j.co.Active? || j.co.AtYield?)
    case Standby => Started(j) && j.paused && !j.deferred && (j.co.Active? || j.co.AtYield?)
    case Waiting => j.co.Returned? && !j.busy && j.ret == 0 && !j.forceCancel
    case Pending => j.co.Returned? && !j.busy && j.ret == 0 && !j.forceCancel
    case Aborting => false
    case Concluded => j.co.Returned? && !j.autoDismiss
    case Null => true
  }

  predicate JobOk(j: Job) {
    && PausesOk(j) && CoroutineOk(j) && StatusOk(j)
    && (j.forceCancel ==> j.cancelled)
    && j.refcnt == One(!j.status.Null?) + j.held
    && (j.status.Null? || j.status.Concluded? ==> j.txn.None?)
    && (!j.status.Null? && !j.status.Concluded? ==> j.txn.Some?)
  }

  /** job_state_transition_locked: the transition is one of the table. */
  function Transition(j: Job, s: Status): Job
    requires MayBecome(j.status, s)
  {
    j.(status := s)
  }

  // ------------------------------------------------------------ the coroutine

  /** aio_co_wake of a coroutine that has yielded. */
  function Wake(j: Job): Job
    requires j.co.AtYield?
  {
    j.(co := Active)
  }

  /** job_enter_cond_locked; go is what the condition passed by the caller says. */
  function Enter(j: Job, go: bool): Job
    requires CoroutineOk(j)
  {
    if !Started(j) || j.deferred || j.busy || !go then j else Wake(j).(busy := true)
  }

  /** job_start */
  function Start(j: Job): Job
    requires j.status.Created? && StatusOk(j)
  {
    Transition(j.(co := Active, pauseCount := j.pauseCount - 1, busy := true, paused := false), Running)
  }

  /** The driver's code is running. */
  predicate InDriver(j: Job) {
    j.co.Active? && !j.paused && (j.status.Running? || j.status.Ready?)
  }

  /** job_pause_point_locked up to the yield, if it pauses. */
  function PausePoint(j: Job): Job
    requires InDriver(j)
  {
    if j.pauseCount <= 0 || j.forceCancel then j
    else Transition(j, if j.status.Ready? then Standby else Paused).(paused := true, busy := false, co := AtYield)
  }

  /** What follows the yield in job_pause_point_locked. */
  function LeavePause(j: Job): Job
    requires j.co.Active? && j.paused && (j.status.Paused? || j.status.Standby?)
  {
    Transition(j.(paused := false), if j.status.Standby? then Ready else Running)
  }

  /** job_yield or job_sleep_ns up to the yield, if there is one. */
  function Yield(j: Job): Job
    requires InDriver(j)
  {
    if j.forceCancel || j.pauseCount > 0 then j else j.(busy := false, co := AtYield)
  }

  /** job_transition_to_ready, which a driver calls while its job is not ready. */
  function BecomeReady(j: Job): Job
    requires InDriver(j) && j.status.Running?
  {
    Transition(j, Ready)
  }

  /** The end of job_co_entry. */
  function Return(j: Job, ret: int): Job
    requires InDriver(j)
  {
    j.(ret := ret, deferred := true, busy := true, co := Returned)
  }

  // ------------------------------------------------------------ pausing

  /** job_pause_locked */
  function DoPause(j: Job): Job
    requires CoroutineOk(j)
  {
    var p := j.(pauseCount := j.pauseCount + 1);
    if p.paused then p else Enter(p, true)
  }

  /** job_resume_locked */
  function DoResume(j: Job, timerPending: bool): Job
    requires CoroutineOk(j) && j.pauseCount > 0
  {
    var p := j.(pauseCount := j.pauseCount - 1);
    if p.pauseCount > 0 then p else Enter(p, !timerPending)
  }

  /** job_user_pause_locked */
  function UserPause(j: Job): Job
    requires CoroutineOk(j)
  {
    if !MayApply(Pause, j.status) || j.userPaused then j else DoPause(j.(userPaused := true))
  }

  /** block_job_iostatus_reset_locked, which the driver's user_resume amounts to. */
  function IostatusReset(j: Job): Job
    requires j.iostatusOk || (j.userPaused && j.pauseCount > 0)
  {
    j.(iostatusOk := true)
  }

  /** job_user_resume_locked */
  function UserResume(j: Job, timerPending: bool): Job
    requires CoroutineOk(j) && PausesOk(j)
  {
    if !j.userPaused || j.pauseCount <= 0 || !MayApply(Resume, j.status) then j
    else DoResume(IostatusReset(j).(userPaused := false), timerPending)
  }

  /** child_job_drained_begin and child_job_drained_end */
  function DrainBegin(j: Job): Job
    requires CoroutineOk(j)
  {
    DoPause(j).(drains := j.drains + 1)
  }

  function DrainEnd(j: Job, timerPending: bool): Job
    requires CoroutineOk(j) && j.drains > 0 && j.pauseCount > 0
  {
    DoResume(j, timerPending).(drains := j.drains - 1)
  }

  /** block_job_error_action when the action is to stop the job. */
  function ErrorStop(j: Job): Job
    requires CoroutineOk(j)
  {
    (if j.userPaused then j else DoPause(j).(userPaused := true)).(iostatusOk := false)
  }

  // ------------------------------------------------------------ cancelling and completing

  /** job_cancel_async_locked; the driver may force a soft request, and has to unless the job is ready. */
  function CancelAsync(j: Job, force: bool, driverForces: bool): Job
    requires PausesOk(j)
  {
    var forced := force || driverForces || !IsReady(j);
    var p := if j.userPaused then IostatusReset(j).(userPaused := false, pauseCount := j.pauseCount - 1) else j;
    if forced || !p.deferred then p.(cancelled := true, forceCancel := p.forceCancel || forced) else p
  }

  /** job_update_rc_locked */
  function UpdateRc(j: Job): Job
    requires j.ret != 0 || j.forceCancel ==> MayBecome(j.status, Aborting)
  {
    var p := if j.ret == 0 && j.forceCancel then j.(ret := -ECANCELED) else j;
    if p.ret != 0 then Transition(p, Aborting) else p
  }

  /** job_do_dismiss_locked, except for leaving the transaction's list. */
  function DoDismiss(j: Job): Job
    requires MayBecome(j.status, Null)
  {
    Transition(j.(busy := false, paused := false, deferred := true, txn := None), Null).(refcnt := j.refcnt - 1)
  }

  /** job_conclude_locked */
  function Conclude(j: Job): Job
    requires MayBecome(j.status, Concluded)
  {
    var p := Transition(j, Concluded);
    if p.autoDismiss || !Started(p) then DoDismiss(p) else p
  }

  // ------------------------------------------------------------ what one job does on its own

  datatype Event =
    | Starting | PausePointing | LeavingPause | Yielding | BecomingReady | Returning(ret: int)
    | UserPausing | UserResuming(timer: bool) | DrainBeginning | DrainEnding(timer: bool) | Stopping | Entering
    | Referencing | Unreferencing

  /** When the event can happen: what the code asserts, and where the coroutine has to be. */
  predicate Enabled(j: Job, e: Event) {
    match e
    case Starting => j.status.Created?
    case PausePointing => InDriver(j)
    case LeavingPause => j.co.Active? && j.paused && Started(j) && (j.status.Paused? || j.status.Standby?)
    case Yielding => InDriver(j)
    case BecomingReady => InDriver(j) && j.status.Running?
    case Returning(_) => InDriver(j)
    case DrainEnding(_) => j.drains > 0
    case Unreferencing => j.held > 0
    case _ => true
  }

  function Apply(j: Job, e: Event): Job
    requires JobOk(j) && Enabled(j, e)
  {
    match e
    case Starting => Start(j)
    case PausePointing => PausePoint(j)
    case LeavingPause => LeavePause(j)
    case Yielding => Yield(j)
    case BecomingReady => BecomeReady(j)
    case Returning(ret) => Return(j, ret)
    case UserPausing => UserPause(j)
    case UserResuming(timer) => UserResume(j, timer)
    case DrainBeginning => DrainBegin(j)
    case DrainEnding(timer) => DrainEnd(j, timer)
    case Stopping => ErrorStop(j)
    case Entering => Enter(j, true)
    case Referencing => j.(refcnt := j.refcnt + 1, held := j.held + 1)
    case Unreferencing => j.(refcnt := j.refcnt - 1, held := j.held - 1)
  }

  /** An event of one job leaves it in its transaction, and a completed job completed with the same result. */
  predicate SameForOthers(a: Job, b: Job) {
    && a.txn == b.txn && (IsCompleted(a.status) <==> IsCompleted(b.status))
    && (IsCompleted(a.status) ==> a.status == b.status && a.ret == b.ret && a.forceCancel == b.forceCancel)
    && (Started(a) ==> Started(b))
  }

  predicate Kept(a: Job, b: Job) {
    JobOk(b) && SameForOthers(a, b)
  }

  /** Only the pauses, the cancel flags and the coroutine may differ, and the coroutine has at most been woken. */
  predicate Steady(a: Job, b: Job) {
    && a.status == b.status && a.ret == b.ret && a.paused == b.paused && a.deferred == b.deferred &&
       a.autoDismiss == b.autoDismiss
    && a.txn == b.txn && a.refcnt == b.refcnt && a.held == b.held
    && ((a.co == b.co && a.busy == b.busy) || (a.co.AtYield? && b.co.Active? && b.busy))
  }

  predicate Paced(a: Job, b: Job) {
    Steady(a, b) && a.cancelled == b.cancelled && a.forceCancel == b.forceCancel
  }

  lemma PacedKeeps(a: Job, b: Job)
    requires JobOk(a) && Paced(a, b) && PausesOk(b)
    ensures Kept(a, b)
  {
  }

  predicate SamePauses(a: Job, b: Job) {
    a.pauseCount == b.pauseCount && a.userPaused == b.userPaused && a.iostatusOk == b.iostatusOk && a.drains == b.drains
  }

  lemma EnterPaced(j: Job, go: bool)
    requires CoroutineOk(j)
    ensures Paced(j, Enter(j, go)) && SamePauses(j, Enter(j, go))
  {
  }

  lemma PausePaced(j: Job, p: Job, r: Job)
    requires CoroutineOk(j) && p == j.(pauseCount := j.pauseCount + 1) && r == DoPause(j)
    ensures Paced(j, r) && SamePauses(p, r)
  {
    EnterPaced(p, true);
  }

  lemma ResumePaced(j: Job, timer: bool, p: Job, r: Job)
    requires CoroutineOk(j) && j.pauseCount > 0 && p == j.(pauseCount := j.pauseCount - 1) && r == DoResume(j, timer)
    ensures Paced(j, r) && SamePauses(p, r)
  {
    EnterPaced(p, !timer);
  }

  /** A cancel request sets the flags, unless the job is done and the request is soft. */
  lemma CancelFlags(j: Job, force: bool, driverForces: bool, r: Job)
    requires PausesOk(j) && r == CancelAsync(j, force, driverForces)
    ensures var forced := force || driverForces || !IsReady(j);
            r.cancelled == (j.cancelled || forced || !j.deferred) && r.forceCancel == (j.forceCancel || forced)
  {
  }

  lemma EndUserPause(j: Job, p: Job)
    requires PausesOk(j) && j.userPaused && p == IostatusReset(j).(userPaused := false, pauseCount := j.pauseCount - 1)
    ensures Steady(j, p) && PausesOk(p) && !p.userPaused && p.co == j.co && p.busy == j.busy &&
            p.pauseCount == j.pauseCount - 1
  {
  }

  lemma FlagsOnly(p: Job, forced: bool, r: Job)
    requires r == if forced || !p.deferred then p.(cancelled := true, forceCancel := p.forceCancel || forced) else p
    ensures Steady(p, r) && SamePauses(p, r) && r.co == p.co && r.busy == p.busy
  {
  }

  /** It ends a user pause, and does nothing else. */
  lemma CancelUnpauses(j: Job, force: bool, driverForces: bool, r: Job)
    requires PausesOk(j) && r == CancelAsync(j, force, driverForces)
    ensures !r.userPaused && PausesOk(r) && r.pauseCount == j.pauseCount - One(j.userPaused) && r.co == j.co &&
            r.busy == j.busy
    ensures Steady(j, r)
  {
    var forced := force || driverForces || !IsReady(j);
    if j.userPaused {
      var p := IostatusReset(j).(userPaused := false, pauseCount := j.pauseCount - 1);
      EndUserPause(j, p);
      FlagsOnly(p, forced, r);
    } else {
      FlagsOnly(j, forced, r);
    }
  }

  lemma EnterKeeps(j: Job)
    requires JobOk(j)
    ensures Kept(j, Enter(j, true))
  {
    EnterPaced(j, true);
    PacedKeeps(j, Enter(j, true));
  }

  lemma StartKeeps(j: Job)
    requires JobOk(j) && j.status.Created?
    ensures Kept(j, Start(j))
  {
  }

  lemma PausePointKeeps(j: Job)
    requires JobOk(j) && InDriver(j)
    ensures Kept(j, PausePoint(j))
  {
  }

  lemma LeavePauseKeeps(j: Job)
    requires JobOk(j) && Enabled(j, LeavingPause)
    ensures Kept(j, LeavePause(j))
  {
  }

  lemma YieldKeeps(j: Job)
    requires JobOk(j) && InDriver(j)
    ensures Kept(j, Yield(j))
  {
  }

  lemma BecomeReadyKeeps(j: Job)
    requires JobOk(j) && InDriver(j) && j.status.Running?
    ensures Kept(j, BecomeReady(j)) && IsReady(BecomeReady(j)) && InDriver(BecomeReady(j))
  {
  }

  lemma ReturnKeeps(j: Job, ret: int)
    requires JobOk(j) && InDriver(j)
    ensures Kept(j, Return(j, ret)) && Return(j, ret).ret == ret && Return(j, ret).co.Returned?
  {
  }

  lemma UserPausePaced(j: Job, r: Job)
    requires PausesOk(j) && CoroutineOk(j) && r == UserPause(j)
    ensures Paced(j, r) && PausesOk(r)
  {
    if MayApply(Pause, j.status) && !j.userPaused {
      var p := j.(userPaused := true);
      PausePaced(p, p.(pauseCount := p.pauseCount + 1), r);
    }
  }

  lemma UserPauseKeeps(j: Job)
    requires JobOk(j)
    ensures Kept(j, UserPause(j))
  {
    UserPausePaced(j, UserPause(j));
    PacedKeeps(j, UserPause(j));
  }

  lemma ResumeUnpaused(j: Job, timer: bool, p: Job, r: Job)
    requires PausesOk(j) && CoroutineOk(j) && j.userPaused && j.pauseCount > 0
    requires p == IostatusReset(j).(userPaused := false) && r == DoResume(p, timer)
    ensures Paced(j, r) && PausesOk(r)
  {
    assert Paced(j, p) && SamePauses(j.(userPaused := false, iostatusOk := true), p);
    ResumePaced(p, timer, p.(pauseCount := p.pauseCount - 1), r);
  }

  lemma UserResumePaced(j: Job, timer: bool, r: Job)
    requires PausesOk(j) && CoroutineOk(j) && r == UserResume(j, timer)
    ensures Paced(j, r) && PausesOk(r)
  {
    if j.userPaused && j.pauseCount > 0 && MayApply(Resume, j.status) {
      ResumeUnpaused(j, timer, IostatusReset(j).(userPaused := false), r);
    }
  }

  lemma UserResumeKeeps(j: Job, timer: bool)
    requires JobOk(j)
    ensures Kept(j, UserResume(j, timer))
  {
    UserResumePaced(j, timer, UserResume(j, timer));
    PacedKeeps(j, UserResume(j, timer));
  }

  lemma DrainBeginPaced(j: Job, r: Job)
    requires PausesOk(j) && CoroutineOk(j) && r == DrainBegin(j)
    ensures Paced(j, r) && PausesOk(r)
  {
    PausePaced(j, j.(pauseCount := j.pauseCount + 1), DoPause(j));
  }

  lemma DrainBeginKeeps(j: Job)
    requires JobOk(j)
    ensures Kept(j, DrainBegin(j))
  {
    DrainBeginPaced(j, DrainBegin(j));
    PacedKeeps(j, DrainBegin(j));
  }

  lemma DrainEndPaced(j: Job, timer: bool, r: Job)
    requires PausesOk(j) && CoroutineOk(j) && j.drains > 0 && r == DrainEnd(j, timer)
    ensures Paced(j, r) && PausesOk(r)
  {
    ResumePaced(j, timer, j.(pauseCount := j.pauseCount - 1), DoResume(j, timer));
  }

  lemma DrainEndKeeps(j: Job, timer: bool)
    requires JobOk(j) && j.drains > 0
    ensures Kept(j, DrainEnd(j, timer))
  {
    DrainEndPaced(j, timer, DrainEnd(j, timer));
    PacedKeeps(j, DrainEnd(j, timer));
  }

  lemma ErrorStopPaced(j: Job, r: Job)
    requires PausesOk(j) && CoroutineOk(j) && r == ErrorStop(j)
    ensures Paced(j, r) && PausesOk(r)
  {
    if !j.userPaused {
      PausePaced(j, j.(pauseCount := j.pauseCount + 1), DoPause(j));
    }
  }

  lemma ErrorStopKeeps(j: Job)
    requires JobOk(j)
    ensures Kept(j, ErrorStop(j))
  {
    ErrorStopPaced(j, ErrorStop(j));
    PacedKeeps(j, ErrorStop(j));
  }

  /** No event breaks the accounting, or asks for a transition or a wake-up that is not allowed. */
  lemma ApplyKeeps(j: Job, e: Event)
    requires JobOk(j) && Enabled(j, e)
    ensures Kept(j, Apply(j, e))
  {
    match e {
      case Starting => StartKeeps(j);
      case PausePointing => PausePointKeeps(j);
      case LeavingPause => LeavePauseKeeps(j);
      case Yielding => YieldKeeps(j);
      case BecomingReady => BecomeReadyKeeps(j);
      case Returning(ret) => ReturnKeeps(j, ret);
      case UserPausing => UserPauseKeeps(j);
      case UserResuming(timer) => UserResumeKeeps(j, timer);
      case DrainBeginning => DrainBeginKeeps(j);
      case DrainEnding(timer) => DrainEndKeeps(j, timer);
      case Stopping => ErrorStopKeeps(j);
      case Entering => EnterKeeps(j);
      case _ =>
    }
  }

  /** A running job that nothing has paused or cancelled. */
  predicate Undisturbed(j: Job) {
    JobOk(j) && InDriver(j) && j.pauseCount == 0 && !j.forceCancel
  }

  /** A job that yields is not busy until it is entered, and then goes on as it was. */
  lemma YieldRoundTrip(j: Job)
    requires Undisturbed(j)
    ensures JobOk(Yield(j)) && Yield(j).co.AtYield? && !Yield(j).busy && Enter(Yield(j), true) == j
  {
    YieldKeeps(j);
  }

  /** A user pause stops the job at its next pause point, and resuming it gives back the same job. */
  lemma UserPauseRoundTrip(j: Job)
    requires Undisturbed(j)
    ensures var p := UserPause(j);
            && InDriver(p) && JobOk(PausePoint(p)) && PausePoint(p).co.AtYield? && PausePoint(p).paused
            && var r := UserResume(PausePoint(p), false); Enabled(r, LeavingPause) && LeavePause(r) == j
  {
    UserPauseKeeps(j);
    PausePointKeeps(UserPause(j));
  }

  /** So does a drained section. */
  lemma DrainRoundTrip(j: Job)
    requires Undisturbed(j)
    ensures var p := DrainBegin(j);
            && InDriver(p) && JobOk(PausePoint(p)) && PausePoint(p).co.AtYield? && PausePoint(p).paused
            && PausePoint(p).drains > 0
            && var r := DrainEnd(PausePoint(p), false); Enabled(r, LeavingPause) && LeavePause(r) == j
  {
    DrainBeginKeeps(j);
    PausePointKeeps(DrainBegin(j));
  }

  /** A job stopped by an I/O error shows as paused by the user; resuming it also clears the error. */
  lemma ErrorStopRoundTrip(j: Job)
    requires Undisturbed(j)
    ensures var p := ErrorStop(j);
            && InDriver(p) && p.userPaused && JobOk(PausePoint(p)) && PausePoint(p).co.AtYield? && PausePoint(p).paused
            && var r := UserResume(PausePoint(p), false); Enabled(r, LeavingPause) && LeavePause(r) == j
  {
    ErrorStopKeeps(j);
    PausePointKeeps(ErrorStop(j));
  }

  /** A job nobody refers to any more is gone from its transaction and from the status table. */
  lemma FreedIsNull(j: Job)
    requires JobOk(j) && j.refcnt == 0
    ensures j.status.Null? && j.txn.None?
  {
  }
}
