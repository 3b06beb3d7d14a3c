/** One block job: its status table, pause counting, cancellation and finalization. */
module BlockJob {

  datatype Status =
    | Undefined | Created | Running | Paused | Ready | Standby | Waiting | Pending | Aborting | Concluded | Null

  /** BlockJobSTT. */
  predicate Allowed(s0: Status, s1: Status) {
    match s0
    case Undefined => s1.Created?
    case Created => s1.Running? || s1.Aborting? || s1.Null?
    case Running => s1.Paused? || s1.Ready? || s1.Waiting? || s1.Aborting?
    case Paused => s1.Running?
    case Ready => s1.Standby? || s1.Waiting? || s1.Aborting?
    case Standby => s1.Ready?
    case Waiting => s1.Pending? || s1.Aborting?
    case Pending => s1.Aborting? || s1.Concluded?
    case Aborting => s1.Aborting? || s1.Concluded?
    case Concluded => s1.Null?
    case Null => false
  }

  datatype Verb = Cancel | Pause | Resume | Finalize | Dismiss

  /** BlockJobVerbTable, for the verbs modelled here. */
  predicate Accepts(v: Verb, s: Status) {
    match v
    case Cancel => !s.Undefined? && !s.Aborting? && !s.Concluded? && !s.Null?
    case Pause => s.Created? || s.Running? || s.Paused? || s.Ready? || s.Standby?
    case Resume => s.Created? || s.Running? || s.Paused? || s.Ready? || s.Standby?
    case Finalize => s.Pending?
    case Dismiss => s.Concluded?
  }

  const ECANCELED := 125

  /**
   * busy, paused, pause_count, user_paused and whether iostatus is not OK. drains counts open drained sections and
   * leaked the stops on error that hit a job already paused by the user; the source does not keep these two.
   */
  datatype Pausing = Pausing(busy: bool, paused: bool, count: int, byUser: bool, ioBad: bool, drains: nat, leaked: nat)

  /** What happened so far: every status, and how often the commit and abort hooks were called. */
  datatype History = History(trace: seq<Status>, commits: nat, aborts: nat)

  /** Fixed at creation; prepareRc is what the driver's prepare hook returns. */
  datatype Config = Config(autoFinalize: bool, autoDismiss: bool, prepareRc: int)

  datatype Job = Job(status: Status, started: bool, completed: bool, deferred: bool, cancelled: bool, force: bool,
                     ret: int, ready: bool, inTxn: bool, pausing: Pausing, history: History, config: Config)

  ghost predicate TraceOk(t: seq<Status>, s: Status) {
    && t != [] && t[0] == Undefined && t[|t| - 1] == s
    && forall k :: 0 < k < |t| ==> Allowed(t[k - 1], t[k])
  }

  /** A job is in exactly one of these situations, told by its status. */
  ghost predicate Situation(j: Job) {
    match j.status
    case Undefined => false
    case Created => !j.started && !j.completed && !j.deferred && j.inTxn && j.ret == 0 && j.pausing.paused
    case Running => j.started && !j.completed && j.inTxn && j.ret == 0 && !j.pausing.paused
    case Ready => j.started && !j.completed && j.inTxn && j.ret == 0 && !j.pausing.paused
    case Paused => j.started && !j.completed && !j.deferred && j.inTxn && j.ret == 0 && j.pausing.paused
    case Standby => j.started && !j.completed && !j.deferred && j.inTxn && j.ret == 0 && j.pausing.paused
    case Waiting => j.started && j.completed && j.deferred && j.inTxn && j.ret == 0
    case Pending => j.started && j.completed && j.deferred && j.inTxn
    case Aborting => j.completed && j.inTxn && j.ret != 0
    case Concluded => j.completed && !j.inTxn && j.started && !j.config.autoDismiss
    case Null => j.completed && !j.inTxn
  }

  /** Commit or abort runs once, when the job leaves its transaction; a job that failed early runs neither. */
  ghost predicate Counted(j: Job) {
    var c, a := j.history.commits, j.history.aborts;
    && (j.inTxn ==> c == 0 && a == 0)
    && (!j.inTxn ==> c + a == 1 || (!j.started && c + a == 0))
    && (c > 0 ==> j.ret == 0) && (a > 0 ==> j.ret != 0)
  }

  function B(b: bool): int { if b then 1 else 0 }

  /** What pause_count counts. */
  ghost predicate PauseOk(p: Pausing, started: bool) {
    && p.count == p.drains + B(p.byUser) + B(!started) + p.leaked
    && (p.ioBad ==> p.byUser)
  }

  ghost predicate JobOk(j: Job) {
    TraceOk(j.history.trace, j.status) && Situation(j) && Counted(j) && PauseOk(j.pausing, j.started)
  }

  /** The later state of a job: its history is kept. */
  ghost predicate Later(j: Job, k: Job) {
    && j.config == k.config && Extends(j.history, k.history) && j.pausing.leaked <= k.pausing.leaked
    && (j.started ==> k.started) && (j.completed ==> k.completed) && (j.cancelled ==> k.cancelled)
  }

  ghost predicate Extends(h: History, k: History) {
    h.trace <= k.trace && h.commits <= k.commits && h.aborts <= k.aborts
  }

  lemma {:induction false} LaterTrans(i: Job, j: Job, k: Job)
    requires Later(i, j) && Later(j, k)
    ensures Later(i, k)
  {
  }

  // The table

  /** Progress through the life cycle; running/paused and ready/standby count as one stage each. */
  function Rank(s: Status): nat {
    match s
    case Undefined => 0
    case Created => 1
    case Running => 2
    case Paused => 2
    case Ready => 3
    case Standby => 3
    case Waiting => 4
    case Pending => 5
    case Aborting => 6
    case Concluded => 7
    case Null => 8
  }

  /**
   * In every allowed history the stage never goes back, two statuses of one stage are the same or alternate within
   * running/paused or ready/standby, and nothing follows NULL.
   */
  lemma {:induction false} NeverBackwards(t: seq<Status>, s: Status, i: nat, j: nat)
    requires TraceOk(t, s) && i <= j < |t|
    ensures Rank(t[i]) <= Rank(t[j]) && (i < j ==> !t[i].Null?)
    ensures Rank(t[i]) == Rank(t[j]) ==>
      t[i] == t[j] || {t[i], t[j]} == {Running, Paused} || {t[i], t[j]} == {Ready, Standby}
    decreases j - i
  {
    if i < j {
      assert Allowed(t[j - 1], t[j]);
      NeverBackwards(t, s, i, j - 1);
    }
  }

  // Steps of one job

  /** block_job_state_transition, with its assertion as precondition. */
  function Moved(j: Job, s: Status): (h: History)
    requires Allowed(j.status, s)
    ensures Extends(j.history, h) && h.commits == j.history.commits && h.aborts == j.history.aborts
    ensures TraceOk(j.history.trace, j.status) ==> TraceOk(h.trace, s)
  {
    j.history.(trace := j.history.trace + [s])
  }

  function NewJob(config: Config): (j: Job)
    ensures JobOk(j) && j.status.Created? && !j.cancelled && j.config == config
  {
    Job(Created, false, false, false, false, false, 0, false, true,
        Pausing(false, true, 1, false, false, 0, 0), History([Undefined, Created], 0, 0), config)
  }

  /** The coroutine is woken unless it runs, has not started or has ended. */
  function Woken(j: Job, p: Pausing): Pausing {
    if j.started && !j.deferred && !p.busy then p.(busy := true) else p
  }

  /** block_job_enter. */
  function Enter(j: Job): (k: Job)
    requires JobOk(j)
    ensures JobOk(k) && Later(j, k) && k.(pausing := j.pausing) == j && k.pausing.count == j.pausing.count
    ensures k.pausing.leaked == j.pausing.leaked
  {
    j.(pausing := Woken(j, j.pausing))
  }

  function Start(j: Job): (k: Job)
    requires JobOk(j) && !j.started && j.pausing.paused && j.status.Created?
    ensures JobOk(k) && Later(j, k) && k.started && k.status.Running? && k.pausing.busy
    ensures k.pausing.count == j.pausing.count - 1 && k.pausing.leaked == j.pausing.leaked
  {
    j.(status := Running, history := Moved(j, Running), started := true,
       pausing := j.pausing.(count := j.pausing.count - 1, busy := true, paused := false))
  }

  /** The job's coroutine is running. */
  predicate Active(j: Job) {
    j.started && j.pausing.busy && !j.deferred && (j.status.Running? || j.status.Ready?)
  }

  /** The coroutine reaches a pause point: it pauses iff asked to and not cancelled. */
  function PausePoint(j: Job): (k: Job)
    requires JobOk(j) && Active(j)
    ensures JobOk(k) && Later(j, k)
    ensures k.pausing.paused <==> j.pausing.count > 0 && !j.cancelled
    ensures k.pausing.leaked == j.pausing.leaked
    ensures if k.pausing.paused then k.status == (if j.status.Ready? then Standby else Paused) else k == j
  {
    if j.pausing.count > 0 && !j.cancelled then
      var s := if j.status.Ready? then Standby else Paused;
      j.(status := s, history := Moved(j, s), pausing := j.pausing.(paused := true, busy := false))
    else j
  }

  /** The paused coroutine is woken and goes back to the status it had. */
  function WakePaused(j: Job): (k: Job)
    requires JobOk(j) && j.pausing.busy && (j.status.Paused? || j.status.Standby?)
    ensures JobOk(k) && Later(j, k) && !k.pausing.paused && k.pausing.leaked == j.pausing.leaked
    ensures k.status == if j.status.Standby? then Ready else Running
  {
    var s := if j.status.Standby? then Ready else Running;
    j.(status := s, history := Moved(j, s), pausing := j.pausing.(paused := false))
  }

  function EventReady(j: Job): (k: Job)
    requires JobOk(j) && Active(j) && j.status.Running?
    ensures JobOk(k) && Later(j, k) && k.status.Ready? && k.ready && k.pausing == j.pausing
  {
    j.(status := Ready, history := Moved(j, Ready), ready := true)
  }

  function Defer(j: Job): (k: Job)
    requires JobOk(j) && Active(j)
    ensures JobOk(k) && Later(j, k) && k.deferred && k.pausing == j.pausing
  {
    j.(deferred := true)
  }

  /** block_job_resume of a job whose pause count has been taken down to p. */
  function Resumed(j: Job, p: Pausing): (k: Job)
    requires JobOk(j) && PauseOk(p, j.started) && p.paused == j.pausing.paused && j.pausing.leaked <= p.leaked
    ensures JobOk(k) && Later(j, k) && k.(pausing := j.pausing) == j && k.pausing.(busy := p.busy) == p
    ensures p.count == 0 && j.started && !j.deferred ==> k.pausing.busy
  {
    j.(pausing := if p.count > 0 then p else Woken(j, p))
  }

  function DrainBegin(j: Job): (k: Job)
    requires JobOk(j)
    ensures JobOk(k) && Later(j, k) && k.(pausing := j.pausing) == j && k.pausing.drains == j.pausing.drains + 1
    ensures k.pausing.leaked == j.pausing.leaked
  {
    j.(pausing := j.pausing.(count := j.pausing.count + 1, drains := j.pausing.drains + 1))
  }

  function DrainEnd(j: Job): (k: Job)
    requires JobOk(j) && j.pausing.drains > 0
    ensures JobOk(k) && Later(j, k) && k.(pausing := j.pausing) == j && k.pausing.drains == j.pausing.drains - 1
    ensures k.pausing.byUser == j.pausing.byUser && k.pausing.count == j.pausing.count - 1
    ensures k.pausing.leaked == j.pausing.leaked
    ensures k.pausing.count == 0 && j.started && !j.deferred ==> k.pausing.busy
  {
    Resumed(j, j.pausing.(count := j.pausing.count - 1, drains := j.pausing.drains - 1))
  }

  datatype OnError = Report | Ignore | Enospc | Auto | Stop

  predicate Stops(onError: OnError, noSpace: bool) {
    onError.Stop? || ((onError.Enospc? || onError.Auto?) && noSpace)
  }

  /** block_job_error_action; a stop counts a pause even when the user's pause is already counted. */
  function ErrorAction(j: Job, onError: OnError, noSpace: bool): (k: Job)
    requires JobOk(j)
    ensures JobOk(k) && Later(j, k) && k.(pausing := j.pausing) == j
    ensures k.pausing.leaked == j.pausing.leaked + B(Stops(onError, noSpace) && j.pausing.byUser)
    ensures if Stops(onError, noSpace) then k.pausing.ioBad && k.pausing.count == j.pausing.count + 1 else k == j
  {
    var p := j.pausing;
    if Stops(onError, noSpace) then
      j.(pausing := p.(count := p.count + 1, byUser := true, ioBad := true, leaked := p.leaked + B(p.byUser)))
    else j
  }

  function UserPause(j: Job): (k: Job)
    requires JobOk(j)
    ensures JobOk(k) && Later(j, k) && k.(pausing := j.pausing) == j
    ensures Accepts(Pause, j.status) ==> k.pausing.byUser
    ensures k == j || k.pausing.count == j.pausing.count + 1
    ensures k.pausing.drains == j.pausing.drains && k.pausing.leaked == j.pausing.leaked
  {
    var p := j.pausing;
    if !Accepts(Pause, j.status) || p.byUser then j
    else j.(pausing := p.(byUser := true, count := p.count + 1))
  }

  function UserResume(j: Job): (k: Job)
    requires JobOk(j)
    ensures JobOk(k) && Later(j, k) && k.(pausing := j.pausing) == j
    ensures j.pausing.byUser && Accepts(Resume, j.status) ==>
      !k.pausing.byUser && !k.pausing.ioBad && k.pausing.count == j.pausing.count - 1
    ensures !j.pausing.byUser || !Accepts(Resume, j.status) ==> k == j
    ensures k.pausing.drains == j.pausing.drains && k.pausing.leaked == j.pausing.leaked
  {
    var p := j.pausing;
    if !p.byUser || p.count <= 0 || !Accepts(Resume, j.status) then j
    else
      assert p.ioBad ==> p.byUser && p.count > 0;
      Resumed(j, p.(ioBad := false, byUser := false, count := p.count - 1))
  }

  function CancelAsync(j: Job, force: bool): (k: Job)
    requires JobOk(j)
    ensures JobOk(k) && Later(j, k) && !k.pausing.byUser && !k.pausing.ioBad
    ensures k.pausing.drains == j.pausing.drains && k.pausing.leaked == j.pausing.leaked
    ensures k.pausing.busy == j.pausing.busy
    ensures k.(pausing := j.pausing) == j.(cancelled := true, force := j.force || force)
  {
    var p := j.pausing;
    assert p.ioBad ==> p.byUser && p.count > 0;
    j.(cancelled := true, force := j.force || force,
       pausing := p.(ioBad := false, byUser := false, count := p.count - B(p.byUser)))
  }

  /** The job aborts rather than commits. */
  predicate Fails(j: Job) { j.ret != 0 || j.cancelled }

  /** block_job_update_rc. */
  function UpdateRc(j: Job): (k: Job)
    requires Fails(j) ==> Allowed(j.status, Aborting)
    ensures k.ret != 0 <==> Fails(j)
  {
    if !Fails(j) then j
    else j.(ret := if j.ret == 0 then -ECANCELED else j.ret, status := Aborting, history := Moved(j, Aborting))
  }

  /** The job can report its completion: the deferred callback, or a cancellation before it started. */
  predicate CanComplete(j: Job, ret: int) {
    !j.completed && ((j.deferred && (j.status.Running? || j.status.Ready?)) || (j.status.Created? && ret != 0))
  }

  /** block_job_completed, up to the handling of the transaction: a failed job aborts, the others wait. */
  function Complete(j: Job, ret: int): (k: Job)
    requires JobOk(j) && CanComplete(j, ret)
    ensures JobOk(k) && Later(j, k) && k.completed && k.inTxn && k.config == j.config && k.cancelled == j.cancelled
    ensures k.ret != 0 <==> ret != 0 || j.cancelled
    ensures k.status == if k.ret != 0 then Aborting else Waiting
  {
    var c := UpdateRc(j.(completed := true, ret := ret));
    if c.ret != 0 then c else c.(status := Waiting, history := Moved(c, Waiting))
  }

  /** block_job_event_pending. */
  function EventPending(j: Job): (k: Job)
    requires JobOk(j) && j.status.Waiting?
    ensures JobOk(k) && Later(j, k) && k.status.Pending? && k.cancelled == j.cancelled && k.ret == j.ret
    ensures k.inTxn && k.completed && k.config == j.config
  {
    j.(status := Pending, history := Moved(j, Pending))
  }

  /** block_job_prepare. */
  function Prepare(j: Job): (k: Job)
    requires JobOk(j) && j.status.Pending?
    ensures JobOk(k) && Later(j, k) && k.(ret := j.ret) == j
    ensures j.ret == 0 ==> k.ret == j.config.prepareRc
  {
    if j.ret == 0 then j.(ret := j.config.prepareRc) else j
  }

  function Decommission(j: Job): Job
    requires Allowed(j.status, Null)
  {
    j.(completed := true, deferred := true, inTxn := false, status := Null, history := Moved(j, Null),
       pausing := j.pausing.(busy := false, paused := false))
  }

  function Conclude(j: Job): Job
    requires Allowed(j.status, Concluded)
  {
    var c := j.(status := Concluded, history := Moved(j, Concluded));
    if c.config.autoDismiss || !c.started then Decommission(c) else c
  }

  /** A job that block_job_finalize_single can take: it completed, and has reached PENDING or is to abort. */
  ghost predicate Final(j: Job) {
    JobOk(j) && j.inTxn && j.completed && (j.status.Pending? || Fails(j))
  }

  /** Commit or abort, then out of the transaction. */
  function RunHook(j: Job): Job {
    var h := j.history;
    j.(inTxn := false,
       history := if j.ret == 0 then h.(commits := h.commits + 1) else h.(aborts := h.aborts + 1))
  }

  function FinalizeSingle(j: Job): Job
    requires Final(j)
  {
    Conclude(RunHook(UpdateRc(j)))
  }

  /** A job on its way out: only Situation is still to be restored. */
  ghost predicate Leaving(j: Job) {
    TraceOk(j.history.trace, j.status) && Counted(j) && PauseOk(j.pausing, j.started) && j.completed && !j.inTxn
  }

  lemma {:induction false} Gone(j: Job)
    requires Leaving(j.(completed := true, inTxn := false)) && Allowed(j.status, Null)
    ensures JobOk(Decommission(j)) && Later(j, Decommission(j)) && Decommission(j).status.Null?
    ensures Decommission(j).history == Moved(j, Null)
  {
    hide TraceOk;
  }

  lemma {:induction false} Concludes(j: Job)
    requires Leaving(j) && Allowed(j.status, Concluded)
    ensures JobOk(Conclude(j)) && Later(j, Conclude(j)) && !Conclude(j).inTxn
    ensures Conclude(j).history.commits == j.history.commits && Conclude(j).history.aborts == j.history.aborts
    ensures Conclude(j).status == if j.config.autoDismiss || !j.started then Null else Concluded
  {
    hide TraceOk;
    var c := j.(status := Concluded, history := Moved(j, Concluded));
    if c.config.autoDismiss || !c.started {
      Gone(c);
    }
  }

  /** Exactly one of commit and abort runs, the right one, and the job leaves its transaction. */
  lemma {:induction false} Finalized(j: Job)
    requires Final(j)
    ensures JobOk(FinalizeSingle(j)) && Later(j, FinalizeSingle(j)) && !FinalizeSingle(j).inTxn
    ensures FinalizeSingle(j).history.commits == B(!Fails(j)) && FinalizeSingle(j).history.aborts == B(Fails(j))
    ensures FinalizeSingle(j).status == if j.config.autoDismiss || !j.started then Null else Concluded
  {
    hide TraceOk;
    var h := RunHook(UpdateRc(j));
    assert Leaving(h) && Later(j, h);
    hide Conclude;
    Concludes(h);
    LaterTrans(j, h, FinalizeSingle(j));
  }

  // Events

  /** Steps that concern one job only. */
  datatype Local =
    | Starting | PausePointReached | Waking | GettingReady | Yielding | Kicked | Deferring
    | DrainBeginning | DrainEnding | IoError(onError: OnError, noSpace: bool) | UserPausing | UserResuming

  /** The step leaves completion, cancellation and membership alone. */
  ghost predicate Quiet(j: Job, k: Job) {
    && JobOk(k) && Later(j, k) && k.inTxn == j.inTxn && k.completed == j.completed && k.cancelled == j.cancelled
    && k.ret == j.ret && k.history.commits == j.history.commits && k.history.aborts == j.history.aborts
    && (k.status == j.status || !k.completed)
  }

  /** A local step, if its job is at a point where it can happen. */
  function LocalStep(e: Local, j: Job): (k: Job)
    requires JobOk(j)
    ensures Quiet(j, k)
  {
    hide TraceOk;
    match e
    case Starting => if j.status.Created? then Start(j) else j
    case PausePointReached => if Active(j) then PausePoint(j) else j
    case Waking => if j.pausing.busy && (j.status.Paused? || j.status.Standby?) then WakePaused(j) else j
    case GettingReady => if Active(j) && j.status.Running? then EventReady(j) else j
    case Yielding =>
      if Active(j) && !j.cancelled && j.pausing.count == 0 then j.(pausing := j.pausing.(busy := false)) else j
    case Kicked => Enter(j)
    case Deferring => if Active(j) then Defer(j) else j
    case DrainBeginning => DrainBegin(j)
    case DrainEnding => if j.pausing.drains > 0 then DrainEnd(j) else j
    case IoError(onError, noSpace) => if Active(j) then ErrorAction(j, onError, noSpace) else j
    case UserPausing => UserPause(j)
    case UserResuming => UserResume(j)
  }

  // Pause counting

  /** A stop on error followed by one resume lets the job run again exactly when the user had not paused it before. */
  lemma {:induction false} ResumeAfterStop(j: Job, onError: OnError, noSpace: bool)
    requires JobOk(j) && j.started && Accepts(Resume, j.status) && Stops(onError, noSpace)
    requires j.pausing.count == B(j.pausing.byUser)
    ensures UserResume(ErrorAction(j, onError, noSpace)).pausing.count == 0 <==> !j.pausing.byUser
  {
    hide TraceOk;
  }

  /** A user pause, a stop on error and one resume: the job stays paused though the user resumed it. */
  lemma {:induction false} StopOnPausedJobLeaks(j: Job)
    requires JobOk(j) && j.status.Running? && j.pausing.count == 0
    ensures var k := UserResume(ErrorAction(UserPause(j), Stop, false));
      k.pausing.count == 1 && !k.pausing.byUser && k.pausing.drains == 0
  {
  }

  /** What can happen to a job by itself: a local step or a cancellation. */
  datatype Single = Happens(local: Local) | IsCancelled(force: bool)

  function SingleStep(e: Single, j: Job): (k: Job)
    requires JobOk(j)
    ensures JobOk(k) && Later(j, k)
  {
    match e
    case Happens(local) => LocalStep(local, j)
    case IsCancelled(force) => CancelAsync(j, force)
  }

  /** The job after a list of events. */
  ghost function After(j: Job, events: seq<Single>): (k: Job)
    requires JobOk(j)
    ensures JobOk(k)
  {
    if events == [] then j
    else SingleStep(events[|events| - 1], After(j, events[..|events| - 1]))
  }

  /** A running job is stopped on an error while user_paused is set. */
  predicate Doubles(e: Single, j: Job) {
    && e.Happens? && e.local.IoError? && Active(j) && Stops(e.local.onError, e.local.noSpace)
    && j.pausing.byUser
  }

  /** How many such stops a list of events brings. */
  ghost function DoubledStops(j: Job, events: seq<Single>): nat
    requires JobOk(j)
  {
    if events == [] then 0
    else
      var init := events[..|events| - 1];
      DoubledStops(j, init) + if Doubles(events[|events| - 1], After(j, init)) then 1 else 0
  }

  /** No other step touches the surplus. */
  lemma {:induction false} StepSurplus(e: Single, j: Job)
    requires JobOk(j)
    ensures SingleStep(e, j).pausing.leaked == j.pausing.leaked + B(Doubles(e, j))
  {
    hide JobOk, Later, Start, PausePoint, WakePaused, EventReady, Defer, Enter, DrainBegin, DrainEnd, ErrorAction,
         UserPause, UserResume, CancelAsync, Stops;
  }

  /** Over any list of events, the surplus in pause_count is the number of stops that came while user_paused was set. */
  lemma {:induction false} SurplusExact(j: Job, events: seq<Single>)
    requires JobOk(j)
    ensures After(j, events).pausing.leaked == j.pausing.leaked + DoubledStops(j, events)
  {
    if events != [] {
      var init := events[..|events| - 1];
      SurplusExact(j, init);
      StepSurplus(events[|events| - 1], After(j, init));
    }
  }

  /**
   * After any list of events from the creation of a job on: when the user has paused it and no drained section is
   * open, one resume lets it run exactly when no stop on error came while user_paused was set.
   */
  lemma {:induction false} ResumeRuns(config: Config, events: seq<Single>)
    requires var k := After(NewJob(config), events);
      k.started && k.pausing.byUser && k.pausing.drains == 0 && Accepts(Resume, k.status)
    ensures UserResume(After(NewJob(config), events)).pausing.count == 0 <==> DoubledStops(NewJob(config), events) == 0
  {
    hide TraceOk, After, DoubledStops, NewJob;
    SurplusExact(NewJob(config), events);
    NewSurplus(config);
    var k := After(NewJob(config), events);
    assert k.pausing.count == 1 + k.pausing.leaked;
  }

  lemma {:induction false} NewSurplus(config: Config)
    ensures NewJob(config).pausing.leaked == 0
  {
  }
}
