/** A transaction of block jobs: completion, cancellation and group commit or abort. */
module BlockJobTxn {

  import opened BlockJob

  ghost predicate AllOk(jobs: seq<Job>) {
    forall k :: 0 <= k < |jobs| ==> JobOk(jobs[k])
  }

  ghost predicate AllLater(a: seq<Job>, b: seq<Job>) {
    |a| == |b| && forall k :: 0 <= k < |a| ==> Later(a[k], b[k])
  }

  /** Before any failure: completed members wait together, uncancelled; hooks ran only if all are out. */
  ghost predicate CalmJob(j: Job) {
    && j.history.aborts == 0 && !j.status.Aborting?
    && (j.inTxn && j.completed ==> !Fails(j))
  }

  /** Every member still in the transaction is bound to abort, and none has committed. */
  ghost predicate DoomedJob(j: Job) {
    && j.history.commits == 0
    && (j.inTxn ==> if j.completed then Fails(j) else j.cancelled)
  }

  ghost predicate AllCalm(jobs: seq<Job>) { forall k :: 0 <= k < |jobs| ==> CalmJob(jobs[k]) }

  ghost predicate AllDoomed(jobs: seq<Job>) { forall k :: 0 <= k < |jobs| ==> DoomedJob(jobs[k]) }

  ghost predicate AllOut(jobs: seq<Job>) { forall k :: 0 <= k < |jobs| ==> !jobs[k].inTxn }

  ghost predicate AllCompleted(jobs: seq<Job>) { forall k :: 0 <= k < |jobs| && jobs[k].inTxn ==> jobs[k].completed }


  ghost predicate AllPending(jobs: seq<Job>) {
    forall k :: 0 <= k < |jobs| && jobs[k].inTxn ==> jobs[k].status.Pending?
  }

  /** Members that are done succeed or wait for each other: one is PENDING only if all are. */
  ghost predicate Together(jobs: seq<Job>) {
    && ((exists k :: 0 <= k < |jobs| && jobs[k].status.Pending?) ==> AllPending(jobs))
    && ((exists k :: 0 <= k < |jobs| && jobs[k].history.commits > 0) ==> AllOut(jobs))
  }

  /** No job committed while another aborted. */
  ghost predicate AllOrNothing(jobs: seq<Job>) {
    forall i, k :: 0 <= i < |jobs| && 0 <= k < |jobs| ==> !(jobs[i].history.commits > 0 && jobs[k].history.aborts > 0)
  }

  lemma {:induction false} CalmAllOrNothing(jobs: seq<Job>)
    requires AllCalm(jobs) || AllDoomed(jobs)
    ensures AllOrNothing(jobs)
  {
  }

  /** Every member but i is cancelled. */
  ghost function CancelledOthers(a: seq<Job>, i: nat): (b: seq<Job>)
    requires AllOk(a)
    ensures |b| == |a|
  {
    seq(|a|, k requires 0 <= k < |a| => if a[k].inTxn && k != i then CancelAsync(a[k], false) else a[k])
  }

  /** Some completed members have been finalized, the others are untouched. */
  ghost predicate SomeFinalized(a: seq<Job>, b: seq<Job>) {
    |a| == |b| && forall k :: 0 <= k < |a| ==> b[k] == a[k] || (Final(a[k]) && b[k] == FinalizeSingle(a[k]))
  }

  /** All members have been finalized. */
  ghost predicate AllFinalized(a: seq<Job>, b: seq<Job>) {
    |a| == |b| && forall k :: 0 <= k < |a| ==>
      if a[k].inTxn then Final(a[k]) && b[k] == FinalizeSingle(a[k]) else b[k] == a[k]
  }

  /** Whoever is still in the transaction waits for a member further ahead that has not completed. */
  ghost predicate FrontWaits(jobs: seq<Job>) {
    forall k :: 0 <= k < |jobs| && jobs[k].inTxn && jobs[k].completed ==>
      exists f :: 0 <= f < k && jobs[f].inTxn && !jobs[f].completed
  }

  ghost predicate MembersFinal(jobs: seq<Job>) {
    forall k :: 0 <= k < |jobs| && jobs[k].inTxn && jobs[k].completed ==> Final(jobs[k])
  }

  lemma {:induction false} SomeFinalizedOk(a: seq<Job>, b: seq<Job>)
    requires AllOk(a) && SomeFinalized(a, b)
    ensures AllOk(b) && AllLater(a, b)
  {
    hide JobOk, FinalizeSingle, Later;
    forall k | 0 <= k < |a|
      ensures JobOk(b[k]) && Later(a[k], b[k])
    {
      if b[k] != a[k] { Finalized(a[k]); } else { LaterRefl(a[k]); }
    }
  }

  lemma {:induction false} LaterRefl(j: Job)
    ensures Later(j, j)
  {
  }

  lemma {:induction false} DoomedStays(a: seq<Job>, b: seq<Job>)
    requires AllOk(a) && AllDoomed(a) && SomeFinalized(a, b)
    ensures AllDoomed(b)
  {
    hide JobOk, FinalizeSingle, Later;
    forall k | 0 <= k < |a|
      ensures DoomedJob(b[k])
    {
      if b[k] != a[k] { Finalized(a[k]); }
    }
  }

  lemma {:induction false} CancelledOk(a: seq<Job>, i: nat)
    requires AllOk(a)
    ensures AllOk(CancelledOthers(a, i)) && AllLater(a, CancelledOthers(a, i))
  {
    hide JobOk, Later;
    var b := CancelledOthers(a, i);
    forall k | 0 <= k < |a|
      ensures JobOk(b[k]) && Later(a[k], b[k])
    {
      LaterRefl(a[k]);
    }
  }

  /** Members that have completed can be finalized once the others are cancelled. */
  lemma {:induction false} CancelledFinal(a: seq<Job>, i: nat)
    requires AllOk(a) && i < |a| && (a[i].inTxn && a[i].completed ==> Final(a[i]))
    ensures MembersFinal(CancelledOthers(a, i))
  {
    hide JobOk;
  }

  /** Cancelling the others dooms the transaction when the one that started it fails. */
  lemma {:induction false} CancelDooms(a: seq<Job>, i: nat)
    requires AllOk(a) && i < |a| && forall k :: 0 <= k < |a| ==> a[k].history.commits == 0
    requires if a[i].completed then Fails(a[i]) else a[i].cancelled
    ensures AllDoomed(CancelledOthers(a, i))
  {
    hide JobOk;
  }

  lemma {:induction false} DoomedFinal(jobs: seq<Job>)
    requires AllOk(jobs) && AllDoomed(jobs)
    ensures MembersFinal(jobs)
  {
    hide JobOk;
  }

  lemma {:induction false} AllLaterTrans(a: seq<Job>, b: seq<Job>, c: seq<Job>)
    requires AllLater(a, b) && AllLater(b, c)
    ensures AllLater(a, c)
  {
    hide Later;
    forall k | 0 <= k < |a|
      ensures Later(a[k], c[k])
    {
      LaterTrans(a[k], b[k], c[k]);
    }
  }

  /** An abort that starts at member i: cancel the others, then finalize those that have completed. */
  ghost predicate Aborted(a: seq<Job>, b: seq<Job>, i: nat)
    requires AllOk(a)
  {
    var mid := CancelledOthers(a, i);
    SomeFinalized(mid, b) && (AllCompleted(mid) ==> AllFinalized(mid, b))
  }

  lemma {:induction false} AbortDooms(a: seq<Job>, b: seq<Job>, i: nat)
    requires AllOk(a) && i < |a| && Aborted(a, b, i) && forall k :: 0 <= k < |a| ==> a[k].history.commits == 0
    requires if a[i].completed then Fails(a[i]) else a[i].cancelled
    ensures AllOk(b) && AllDoomed(b) && AllLater(a, b)
  {
    hide AllOk, AllDoomed, AllLater, SomeFinalized;
    var mid := CancelledOthers(a, i);
    CancelledOk(a, i);
    CancelDooms(a, i);
    SomeFinalizedOk(mid, b);
    DoomedStays(mid, b);
    AllLaterTrans(a, mid, b);
  }

  // Group finalization

  /** The first member, in list order, whose prepare hook fails; |jobs| if none does. */
  ghost function FirstFailure(jobs: seq<Job>): (f: nat)
    ensures f <= |jobs|
    ensures f < |jobs| ==> jobs[f].inTxn && jobs[f].config.prepareRc != 0
    ensures forall k :: 0 <= k < f ==> !(jobs[k].inTxn && jobs[k].config.prepareRc != 0)
  {
    if jobs == [] then 0
    else if jobs[0].inTxn && jobs[0].config.prepareRc != 0 then 0
    else
      assert forall k :: 0 <= k < |jobs| - 1 ==> jobs[1..][k] == jobs[k + 1];
      1 + FirstFailure(jobs[1..])
  }

  /** All members PENDING and none failed: what block_job_do_finalize starts from. */
  ghost predicate ReadyToFinalize(jobs: seq<Job>) {
    && AllOk(jobs) && AllCalm(jobs) && AllPending(jobs)
    && forall k :: 0 <= k < |jobs| ==> jobs[k].history.commits == 0
  }

  /** What the group ends with when member i finalizes it. */
  ghost predicate Outcome(a: seq<Job>, b: seq<Job>, i: nat) {
    var f := FirstFailure(a);
    |a| == |b| && AllOut(b) && forall k :: 0 <= k < |a| && a[k].inTxn ==>
      var commits := f == |a| || (k == i && f != i);
      b[k].history.commits == B(commits) && b[k].history.aborts == B(!commits)
  }

  /** It is all or nothing exactly when no prepare hook fails, or that of the finalizing member is the first to. */
  lemma {:induction false} OutcomeAllOrNothing(a: seq<Job>, b: seq<Job>, i: nat)
    requires ReadyToFinalize(a) && i < |a| && a[i].inTxn && Outcome(a, b, i)
    requires forall k :: 0 <= k < |a| && !a[k].inTxn ==> b[k] == a[k]
    ensures AllOrNothing(b) <==> FirstFailure(a) == |a| || FirstFailure(a) == i
  {
    hide JobOk;
    var f := FirstFailure(a);
    if f < |a| && f != i {
      assert b[i].history.commits > 0 && b[f].history.aborts > 0;
    }
  }

  /** A manually finalized job that has run through to PENDING, and whose prepare hook returns rc. */
  function PendingJob(rc: int): (j: Job)
    ensures JobOk(j) && CalmJob(j) && j.inTxn && j.status.Pending? && j.history.commits == 0
    ensures j.config.prepareRc == rc
  {
    hide TraceOk;
    EventPending(BlockJob.Complete(Defer(Start(NewJob(Config(false, true, rc)))), 0))
  }

  /** Two pending jobs, the second with a failing hook: finalized through the first, they split. */
  lemma {:induction false} PrepareFailureSplits(b: seq<Job>)
    requires Outcome([PendingJob(0), PendingJob(-5)], b, 0)
    ensures ReadyToFinalize([PendingJob(0), PendingJob(-5)]) && !AllOrNothing(b)
  {
    hide PendingJob, JobOk;
    var a := [PendingJob(0), PendingJob(-5)];
    assert FirstFailure(a) == 1;
    assert b[0].history.commits == 1 && b[1].history.aborts == 1;
  }

  /** After the prepare loop: hooks up to the first failure ran, and its result is in that member's ret. */
  ghost function PreparedJobs(a: seq<Job>): (b: seq<Job>)
    requires AllOk(a) && AllPending(a)
    ensures |b| == |a|
  {
    var f := FirstFailure(a);
    if f < |a| then a[f := Prepare(a[f])] else a
  }

  /** The hook's result becomes the member's ret. */
  lemma {:induction false} PrepareResult(a: seq<Job>, k: nat)
    requires ReadyToFinalize(a) && k < |a| && a[k].inTxn
    ensures Prepare(a[k]).ret == a[k].config.prepareRc
    ensures a[k].config.prepareRc == 0 ==> Prepare(a[k]) == a[k]
  {
    assert CalmJob(a[k]);
  }

  lemma {:induction false} PreparedOk(a: seq<Job>, i: nat)
    requires ReadyToFinalize(a) && i < |a| && a[i].inTxn
    ensures AllOk(PreparedJobs(a)) && AllLater(a, PreparedJobs(a))
    ensures Final(PreparedJobs(a)[i]) && PreparedJobs(a)[i].inTxn
    ensures AllCompleted(PreparedJobs(a)) && MembersFinal(PreparedJobs(a))
  {
    hide Later;
    var b := PreparedJobs(a);
    forall k | 0 <= k < |a|
      ensures JobOk(b[k]) && Later(a[k], b[k]) && (b[k].inTxn ==> Final(b[k]) && b[k].completed)
    {
      LaterRefl(a[k]);
    }
  }

  /** No hook failed: every member commits. */
  lemma {:induction false} GroupCommits(a: seq<Job>, b: seq<Job>, i: nat)
    requires ReadyToFinalize(a) && FirstFailure(a) == |a| && AllFinalized(a, b)
    ensures AllOk(b) && AllLater(a, b) && Outcome(a, b, i) && AllCalm(b)
  {
    hide JobOk, Later, FinalizeSingle;
    forall k | 0 <= k < |a|
      ensures JobOk(b[k]) && Later(a[k], b[k]) && !b[k].inTxn && CalmJob(b[k])
      ensures a[k].inTxn ==> b[k].history.commits == 1 && b[k].history.aborts == 0
    {
      assert CalmJob(a[k]);
      LaterRefl(a[k]);
      if a[k].inTxn {
        Finalized(a[k]);
        OutIsCalm(b[k]);
      }
    }
  }

  lemma {:induction false} OutIsCalm(j: Job)
    requires JobOk(j) && !j.inTxn && j.history.aborts == 0
    ensures CalmJob(j)
  {
  }

  /** Hook f failed and member i drives the abort: every member but i aborts, and i does so only if it is f. */
  lemma {:induction false} GroupAborts(a: seq<Job>, b: seq<Job>, i: nat)
    requires ReadyToFinalize(a) && i < |a| && a[i].inTxn && FirstFailure(a) < |a|
    requires AllOk(PreparedJobs(a)) && AllFinalized(CancelledOthers(PreparedJobs(a), i), b)
    ensures Outcome(a, b, i)
  {
    hide JobOk, Later, FinalizeSingle;
    var f, p := FirstFailure(a), PreparedJobs(a);
    var mid := CancelledOthers(p, i);
    forall k | 0 <= k < |a|
      ensures !b[k].inTxn
      ensures a[k].inTxn ==>
        var commits := k == i && f != i;
        b[k].history.commits == B(commits) && b[k].history.aborts == B(!commits)
    {
      assert CalmJob(a[k]);
      if a[k].inTxn {
        assert p[k].cancelled == a[k].cancelled && p[k].inTxn && mid[k].inTxn;
        Finalized(mid[k]);
      }
    }
  }

  lemma {:induction false} AllCancelledCompleted(a: seq<Job>, i: nat)
    requires AllOk(a) && AllCompleted(a)
    ensures AllCompleted(CancelledOthers(a, i))
  {
    hide JobOk;
  }

  /** Members out of the transaction are left alone. */
  ghost predicate OutsKept(a: seq<Job>, b: seq<Job>) {
    |a| == |b| && forall k :: 0 <= k < |a| && !a[k].inTxn ==> b[k] == a[k]
  }

  lemma {:induction false} OutcomeDoomed(a: seq<Job>, b: seq<Job>, i: nat)
    requires ReadyToFinalize(a) && i < |a| && Outcome(a, b, i) && OutsKept(a, b) && FirstFailure(a) == i
    ensures AllDoomed(b)
  {
    hide JobOk;
  }

  lemma {:induction false} AbortKeepsOuts(a: seq<Job>, b: seq<Job>, i: nat)
    requires AllOk(a) && Aborted(a, b, i)
    ensures OutsKept(a, b)
  {
    hide JobOk;
  }

  class Txn {
    var jobs: seq<Job>
    var aborting: bool
    /** A prepare hook failed in a finalization started by another member. */
    ghost var split: bool

    ghost predicate Valid()
      reads this
    {
      && AllOk(jobs)
      && (!aborting ==> AllCalm(jobs) && Together(jobs) && !split)
      && (aborting && !split ==> AllDoomed(jobs))
      && (split ==> AllOut(jobs) && !PreparesOk(jobs))
    }

    /** block_job_completed_txn_abort is waiting for a member in block_job_finish_sync. */
    ghost predicate InAbort()
      reads this
    {
      aborting && !AllOut(jobs)
    }

    constructor (configs: seq<Config>)
      ensures Valid() && !aborting && |jobs| == |configs|
      ensures forall k :: 0 <= k < |jobs| ==> jobs[k] == NewJob(configs[k])
    {
      jobs := seq(|configs|, k requires 0 <= k < |configs| => NewJob(configs[k]));
      aborting := false;
      split := false;
    }

    /** The first loop of block_job_completed_txn_abort. */
    method CancelOthers(i: nat)
      requires i < |jobs| && AllOk(jobs)
      modifies `jobs
      ensures jobs == CancelledOthers(old(jobs), i)
    {
      hide JobOk, CancelAsync;
      var k := 0;
      while k < |jobs|
        invariant k <= |jobs| == |old(jobs)|
        invariant forall m :: 0 <= m < k ==> jobs[m] == CancelledOthers(old(jobs), i)[m]
        invariant forall m :: k <= m < |jobs| ==> jobs[m] == old(jobs)[m]
      {
        if jobs[k].inTxn && k != i {
          jobs := jobs[k := CancelAsync(jobs[k], false)];
        }
        k := k + 1;
      }
    }

    /**
     * The second loop: finalize the first member while it has completed. It stops at a member that has not, which
     * block_job_finish_sync waits for, and is resumed when that member completes.
     */
    method AbortLoop()
      requires AllOk(jobs) && MembersFinal(jobs)
      modifies `jobs
      ensures SomeFinalized(old(jobs), jobs) && FrontWaits(jobs)
      ensures AllCompleted(old(jobs)) ==> AllFinalized(old(jobs), jobs)
    {
      hide JobOk, Final, FinalizeSingle;
      var k := 0;
      while k < |jobs|
        invariant k <= |jobs| == |old(jobs)|
        invariant AllFinalized(old(jobs)[..k], jobs[..k]) && AllOut(jobs[..k])
        invariant forall m :: k <= m < |jobs| ==> jobs[m] == old(jobs)[m]
      {
        if jobs[k].inTxn {
          if !jobs[k].completed {
            assert forall m :: 0 <= m < k ==> !jobs[m].inTxn;
            break;
          }
          Finalized(jobs[k]);
          jobs := jobs[k := FinalizeSingle(jobs[k])];
        }
        k := k + 1;
      }
    }

    /** Nothing to do if another member is aborting the transaction already. */
    method CompletedTxnAbort(i: nat)
      requires i < |jobs| && AllOk(jobs) && jobs[i].inTxn
      requires !aborting && jobs[i].completed ==> Final(jobs[i])
      modifies `jobs, `aborting
      ensures aborting
      ensures old(aborting) ==> jobs == old(jobs)
      ensures !old(aborting) ==> Aborted(old(jobs), jobs, i) && FrontWaits(jobs)
    {
      hide AllOk, SomeFinalized, AllFinalized, AllCompleted, MembersFinal, CancelledOthers, Final;
      if aborting {
        return;
      }
      aborting := true;
      CancelledOk(jobs, i);
      CancelledFinal(jobs, i);
      CancelOthers(i);
      AbortLoop();
    }

    /**
     * block_job_do_finalize. Everyone leaves the transaction; the outcome depends on whether a prepare hook fails
     * and on whose it is.
     */
    method DoFinalize(i: nat)
      requires ReadyToFinalize(jobs) && i < |jobs| && jobs[i].inTxn && !aborting && !split
      modifies this
      ensures Valid() && AllLater(old(jobs), jobs) && Outcome(old(jobs), jobs, i)
      ensures aborting <==> FirstFailure(old(jobs)) < |old(jobs)|
      ensures split <==> FirstFailure(old(jobs)) < |old(jobs)| && FirstFailure(old(jobs)) != i
    {
      hide JobOk, Prepare, Final, Later, SomeFinalized, AllFinalized, CancelledOthers, Outcome, PreparedJobs;
      ghost var a := jobs;
      PreparedOk(a, i);
      var rc := RunPrepare();
      if rc != 0 {
        CompletedTxnAbort(i);
        AllCancelledCompleted(PreparedJobs(a), i);
        GroupAborts(a, jobs, i);
        split := FirstFailure(a) != i;
        FinishAbort(a, jobs, i);
        PrepareFailed(a, jobs);
      } else {
        assert PreparedJobs(a) == a by { NoFailure(a); }
        FinalizeAll();
        GroupCommits(a, jobs, i);
        CommittedTogether(a, jobs, i);
      }
    }

    /** block_job_txn_apply(block_job_prepare): stops at the first failure. */
    method RunPrepare() returns (rc: int)
      requires ReadyToFinalize(jobs)
      modifies `jobs
      ensures jobs == PreparedJobs(old(jobs))
      ensures rc != 0 <==> FirstFailure(old(jobs)) < |old(jobs)|
    {
      hide JobOk, Prepare;
      rc := 0;
      ghost var a := jobs;
      var k := 0;
      while k < |jobs|
        invariant k <= |jobs| && jobs == a && rc == 0 && k <= FirstFailure(a)
      {
        if jobs[k].inTxn {
          PrepareResult(a, k);
          jobs := jobs[k := Prepare(jobs[k])];
          rc := jobs[k].ret;
          if rc != 0 {
            return;
          }
          assert jobs == a;
        }
        k := k + 1;
      }
    }

    /** block_job_txn_apply(block_job_finalize_single). */
    method FinalizeAll()
      requires AllOk(jobs) && AllCompleted(jobs) && MembersFinal(jobs)
      modifies `jobs
      ensures AllFinalized(old(jobs), jobs)
    {
      hide JobOk, Final, FinalizeSingle;
      var k := 0;
      while k < |jobs|
        invariant k <= |jobs| == |old(jobs)|
        invariant AllFinalized(old(jobs)[..k], jobs[..k])
        invariant forall m :: k <= m < |jobs| ==> jobs[m] == old(jobs)[m]
      {
        if jobs[k].inTxn {
          jobs := jobs[k := FinalizeSingle(jobs[k])];
        }
        k := k + 1;
      }
    }

    /** Success of member i: wait for the others, then finalize the group unless a member wants that done by hand. */
    method CompletedTxnSuccess(i: nat)
      requires i < |jobs| && jobs[i].status.Waiting? && jobs[i].inTxn && !aborting && !split
      requires AllOk(jobs) && AllCalm(jobs) && NonePending(jobs) && NoCommits(jobs)
      modifies this
      ensures Valid() && AllLater(old(jobs), jobs)
      ensures if AllCompleted(old(jobs)) then AllPending(jobs) else jobs == old(jobs)
      ensures AllCompleted(old(jobs)) ==> (AllOut(jobs) <==> AllAuto(old(jobs)))
    {
      hide JobOk, Later, ReadyToFinalize, Outcome, FirstFailure, PreparesOk;
      AllLaterRefl(jobs);
      var k := 0;
      while k < |jobs|
        invariant k <= |jobs|
        invariant forall m :: 0 <= m < k && jobs[m].inTxn ==> jobs[m].completed
      {
        if jobs[k].inTxn {
          if !jobs[k].completed {
            return;
          }
          assert CalmJob(jobs[k]);
          assert jobs[k].ret == 0;
        }
        k := k + 1;
      }
      AllWait(jobs);
      ghost var a := jobs;
      MakePending();
      AllReady(a, jobs);
      var auto := true;
      k := 0;
      while k < |jobs|
        invariant k <= |jobs|
        invariant auto <==> forall m :: 0 <= m < k && jobs[m].inTxn ==> jobs[m].config.autoFinalize
      {
        if jobs[k].inTxn && !jobs[k].config.autoFinalize {
          auto := false;
        }
        k := k + 1;
      }
      if auto {
        ghost var b := jobs;
        DoFinalize(i);
        AllLaterTrans(a, b, jobs);
        OutcomeOut(b, jobs, i);
      } else {
        PendingTogether(jobs);
      }
    }

    /** block_job_txn_apply(block_job_event_pending). */
    method MakePending()
      requires AllOk(jobs) && forall k :: 0 <= k < |jobs| && jobs[k].inTxn ==> jobs[k].status.Waiting?
      modifies `jobs
      ensures |jobs| == |old(jobs)|
      ensures forall k :: 0 <= k < |jobs| ==>
        jobs[k] == if old(jobs)[k].inTxn then EventPending(old(jobs)[k]) else old(jobs)[k]
    {
      hide JobOk, EventPending;
      var k := 0;
      while k < |jobs|
        invariant k <= |jobs| == |old(jobs)|
        invariant forall m :: 0 <= m < k ==>
          jobs[m] == if old(jobs)[m].inTxn then EventPending(old(jobs)[m]) else old(jobs)[m]
        invariant forall m :: k <= m < |jobs| ==> jobs[m] == old(jobs)[m]
      {
        if jobs[k].inTxn {
          jobs := jobs[k := EventPending(jobs[k])];
        }
        k := k + 1;
      }
    }

    /** block_job_completed. */
    method Completed(i: nat, ret: int)
      requires Valid() && i < |jobs| && CanComplete(jobs[i], ret)
      modifies this
      ensures Valid() && AllLater(old(jobs), jobs) && jobs[i].completed
      ensures old(aborting) ==> aborting && !split && jobs == old(jobs)[i := BlockJob.Complete(old(jobs)[i], ret)]
      ensures ret != 0 || old(jobs)[i].cancelled ==> aborting && (old(aborting) || FrontWaits(jobs))
      ensures ret == 0 && !old(jobs)[i].cancelled ==>
        var b := old(jobs)[i := BlockJob.Complete(old(jobs)[i], ret)];
        if AllCompleted(b) then AllPending(jobs) && (AllOut(jobs) <==> AllAuto(b)) else jobs == b
    {
      hide JobOk, Later, Complete, Aborted, PreparesOk;
      ghost var a := jobs;
      IncompleteIn(a, i);
      jobs := jobs[i := Complete(jobs[i], ret)];
      ghost var b := jobs;
      OneChanged(a, b, i);
      if jobs[i].ret != 0 {
        CompletedFails(b[i]);
        CompletedTxnAbort(i);
        if !old(aborting) {
          NobodyCommitted(a, i);
          AbortDooms(b, jobs, i);
          AllLaterTrans(a, b, jobs);
        } else {
          AllLaterRefl(b);
        }
      } else {
        NobodyCommitted(a, i);
        StillCalm(a, b, i);
        CompletedTxnSuccess(i);
        AllLaterTrans(a, b, jobs);
      }
      Stays(b, jobs, i);
    }

    /** The deferred completion of member i; an abort that waits for it goes on. */
    method CompletionBh(i: nat, ret: int)
      requires Valid() && i < |jobs| && CanComplete(jobs[i], ret)
      modifies this
      ensures Valid() && AllLater(old(jobs), jobs) && jobs[i].completed
      ensures ret != 0 || old(jobs)[i].cancelled ==> aborting && FrontWaits(jobs)
    {
      hide JobOk, Later, PreparesOk, SomeFinalized, MembersFinal, FrontWaits;
      var waiting := aborting;
      IncompleteIn(jobs, i);
      Completed(i, ret);
      if waiting {
        ghost var b := jobs;
        DoomedFinal(b);
        AbortLoop();
        SomeFinalizedOk(b, jobs);
        DoomedStays(b, jobs);
        AllLaterTrans(old(jobs), b, jobs);
        Stays(b, jobs, i);
      }
    }

    /** block_job_cancel: any job that still exists can be cancelled, whatever its status. */
    method CancelJob(i: nat, force: bool)
      requires Valid() && i < |jobs| && !jobs[i].status.Null? && !InAbort()
      modifies this
      ensures Valid() && AllLater(old(jobs), jobs)
      ensures old(jobs)[i].status.Concluded? ==> jobs == old(jobs)[i := Decommission(old(jobs)[i])]
      ensures old(jobs)[i].inTxn ==> jobs[i].cancelled
      ensures old(jobs)[i].inTxn && (!old(jobs)[i].started || old(jobs)[i].deferred) ==> aborting && FrontWaits(jobs)
      ensures old(jobs)[i].inTxn && old(jobs)[i].started && !old(jobs)[i].deferred ==>
        aborting == old(aborting) && jobs == old(jobs)[i := Enter(CancelAsync(old(jobs)[i], force))]
    {
      hide JobOk, Later, PreparesOk, CancelAsync, Decommission, Enter, Aborted;
      ghost var a := jobs;
      if jobs[i].status.Concluded? {
        DismissMember(i);
        return;
      }
      NotConcluded(a, i);
      jobs := jobs[i := CancelAsync(jobs[i], force)];
      ghost var b := jobs;
      OneChanged(a, b, i);
      NobodyCommitted(a, i);
      if !jobs[i].started {
        Unstarted(a, b, i, force, -ECANCELED);
        Completed(i, -ECANCELED);
        AllLaterTrans(a, b, jobs);
      } else if jobs[i].deferred {
        CancelledIsFinal(b[i]);
        CompletedTxnAbort(i);
        AbortDooms(b, jobs, i);
        AllLaterTrans(a, b, jobs);
      } else {
        StillRunning(a, b, i);
        jobs := jobs[i := Enter(jobs[i])];
        OneChanged(b, jobs, i);
        AllLaterTrans(a, b, jobs);
      }
      Stays(b, jobs, i);
    }

    method UserCancel(i: nat, force: bool) returns (ok: bool)
      requires Valid() && i < |jobs| && !InAbort()
      modifies this
      ensures Valid() && AllLater(old(jobs), jobs)
      ensures ok == Accepts(Cancel, old(jobs)[i].status) && (!ok ==> unchanged(this))
    {
      hide JobOk, Later, PreparesOk;
      ok := Accepts(Cancel, jobs[i].status);
      if ok {
        CancelJob(i, force);
      } else {
        AllLaterRefl(jobs);
      }
    }

    /** block_job_finalize: accepted only when PENDING, and then the whole group is. */
    method FinalizeJob(i: nat) returns (ok: bool)
      requires Valid() && i < |jobs| && !InAbort()
      modifies this
      ensures Valid() && AllLater(old(jobs), jobs)
      ensures ok == old(jobs)[i].status.Pending? && (!ok ==> unchanged(this))
      ensures ok ==> Outcome(old(jobs), jobs, i) && AllPending(old(jobs))
    {
      hide JobOk, Later, PreparesOk, Outcome, FirstFailure;
      ok := Accepts(Finalize, jobs[i].status);
      AllLaterRefl(jobs);
      if ok {
        ghost var a := jobs;
        PendingIn(a, i);
        NobodyCommitted(a, i);
        DoFinalize(i);
      }
    }

    method DismissMember(i: nat)
      requires Valid() && i < |jobs| && jobs[i].status.Concluded?
      modifies `jobs
      ensures Valid() && AllLater(old(jobs), jobs) && !old(jobs)[i].inTxn
      ensures jobs == old(jobs)[i := Decommission(old(jobs)[i])]
    {
      hide JobOk, Later, Decommission, PreparesOk;
      ghost var a := jobs;
      DismissedOk(a[i]);
      jobs := jobs[i := Decommission(jobs[i])];
      OneChanged(a, jobs, i);
      SamePrepares(a, jobs);
      DismissKeeps(a, jobs, i);
    }

    method DismissJob(i: nat) returns (ok: bool)
      requires Valid() && i < |jobs|
      modifies `jobs
      ensures Valid() && AllLater(old(jobs), jobs)
      ensures ok == old(jobs)[i].status.Concluded?
      ensures jobs == if ok then old(jobs)[i := Decommission(old(jobs)[i])] else old(jobs)
    {
      hide JobOk, Later;
      AllLaterRefl(jobs);
      ok := Accepts(Dismiss, jobs[i].status);
      if ok { DismissMember(i); }
    }

    method EarlyFail(i: nat)
      requires Valid() && i < |jobs| && jobs[i].status.Created? && !InAbort()
      modifies `jobs
      ensures Valid() && AllLater(old(jobs), jobs) && jobs == old(jobs)[i := Decommission(old(jobs)[i])]
    {
      hide JobOk, Later, Decommission;
      ghost var a := jobs;
      CreatedIn(a, i);
      NobodyCommitted(a, i);
      jobs := jobs[i := Decommission(jobs[i])];
      OneChanged(a, jobs, i);
      LeftEarly(a, jobs, i);
    }

    /** A step of one member alone. */
    method LocalEvent(i: nat, e: Local)
      requires Valid() && i < |jobs|
      modifies `jobs
      ensures Valid() && AllLater(old(jobs), jobs) && jobs == old(jobs)[i := LocalStep(e, old(jobs)[i])]
    {
      hide JobOk, Later, LocalStep, PreparesOk;
      ghost var a := jobs;
      jobs := jobs[i := LocalStep(e, jobs[i])];
      OneChanged(a, jobs, i);
      SamePrepares(a, jobs);
      QuietKeeps(a, jobs, i);
    }

    /** One event; it is ignored when it cannot happen in this state. Commands wait while an abort is in progress. */
    method Step(e: Event)
      requires Valid()
      modifies this
      ensures Valid() && AllLater(old(jobs), jobs)
      ensures e.At? && e.i < |old(jobs)| ==> jobs == old(jobs)[e.i := LocalStep(e.local, old(jobs)[e.i])]
      ensures e.Done? && e.i < |old(jobs)| && CanComplete(old(jobs)[e.i], e.ret) ==> jobs[e.i].completed
    {
      hide JobOk, Later, PreparesOk, Outcome;
      AllLaterRefl(jobs);
      if e.i >= |jobs| {
        return;
      }
      if e.At? {
        LocalEvent(e.i, e.local);
      } else if e.Done? {
        if CanComplete(jobs[e.i], e.ret) { CompletionBh(e.i, e.ret); }
      } else {
        var busy := Aborting();
        if !busy { Command(e); }
      }
    }

    method Aborting() returns (busy: bool)
      ensures busy <==> InAbort()
    {
      busy := false;
      if aborting {
        var k := 0;
        while k < |jobs|
          invariant k <= |jobs| && !busy && forall m :: 0 <= m < k ==> !jobs[m].inTxn
        {
          if jobs[k].inTxn { return true; }
          k := k + 1;
        }
      }
    }

    method Command(e: Event)
      requires Valid() && e.i < |jobs| && !e.At? && !e.Done? && !InAbort()
      modifies this
      ensures Valid() && AllLater(old(jobs), jobs)
    {
      hide JobOk, Later, PreparesOk, Outcome, AllOk, Together, AllCalm, AllDoomed;
      AllLaterRefl(jobs);
      if e.Cancelling? {
        var _ := UserCancel(e.i, e.force);
      } else if e.CancelInternally? {
        if !jobs[e.i].status.Null? { CancelJob(e.i, false); }
      } else if e.Finalizing? {
        var _ := FinalizeJob(e.i);
      } else if e.Dismissing? {
        var _ := DismissJob(e.i);
      } else if jobs[e.i].status.Created? {
        EarlyFail(e.i);
      }
    }

    /**
     * Any run, of any length and order: every assertion on the status table holds, every job's history is an allowed
     * one and only grows, and unless a prepare hook fails no job commits while another aborts.
     */
    method Run(events: seq<Event>)
      requires Valid()
      modifies this
      ensures Valid() && AllLater(old(jobs), jobs)
      ensures PreparesOk(jobs) ==> AllOrNothing(jobs)
    {
      hide JobOk, Later, PreparesOk, AllOrNothing;
      AllLaterRefl(jobs);
      for k := 0 to |events|
        invariant Valid() && AllLater(old(jobs), jobs)
      {
        ghost var b := jobs;
        Step(events[k]);
        AllLaterTrans(old(jobs), b, jobs);
      }
      if !split { CalmAllOrNothing(jobs); }
    }
  }

  datatype Event =
    | At(i: nat, local: Local) | Done(i: nat, ret: int)
    | Cancelling(i: nat, force: bool) | CancelInternally(i: nat)
    | Finalizing(i: nat) | Dismissing(i: nat) | Failing(i: nat)

  lemma {:induction false} QuietKeeps(a: seq<Job>, b: seq<Job>, i: nat)
    requires AllOk(a) && i < |a| == |b| && b == a[i := b[i]] && Quiet(a[i], b[i])
    ensures AllCalm(a) ==> AllCalm(b)
    ensures Together(a) ==> Together(b)
    ensures AllDoomed(a) ==> AllDoomed(b)
    ensures AllOut(a) ==> AllOut(b)
  {
    hide TraceOk, PauseOk, Later;
    assert JobOk(a[i]) && JobOk(b[i]);
    assert b[i].status.Pending? ==> a[i].status.Pending?;
    assert forall k :: 0 <= k < |a| && k != i ==> b[k] == a[k];
  }

  /** At the end of such a run: every started job ran exactly one of the two hooks, and all of them the same one. */
  lemma {:induction false} FinishedTogether(jobs: seq<Job>)
    requires AllOk(jobs) && AllOut(jobs) && AllOrNothing(jobs)
    ensures forall k :: 0 <= k < |jobs| && jobs[k].started ==> jobs[k].history.commits + jobs[k].history.aborts == 1
    ensures
      || (forall k :: 0 <= k < |jobs| && jobs[k].started ==> jobs[k].history.commits == 1)
      || (forall k :: 0 <= k < |jobs| && jobs[k].started ==> jobs[k].history.aborts == 1)
  {
    hide TraceOk, PauseOk, Situation;
    forall k | 0 <= k < |jobs| && jobs[k].started
      ensures jobs[k].history.commits + jobs[k].history.aborts == 1
    {
      assert JobOk(jobs[k]);
    }
  }

  ghost predicate NonePending(jobs: seq<Job>) { forall k :: 0 <= k < |jobs| ==> !jobs[k].status.Pending? }

  ghost predicate NoCommits(jobs: seq<Job>) { forall k :: 0 <= k < |jobs| ==> jobs[k].history.commits == 0 }

  /** No member wants to be finalized by hand. */
  ghost predicate AllAuto(jobs: seq<Job>) {
    forall k :: 0 <= k < |jobs| && jobs[k].inTxn ==> jobs[k].config.autoFinalize
  }

  /** No member's prepare hook fails. */
  ghost predicate PreparesOk(jobs: seq<Job>) { forall k :: 0 <= k < |jobs| ==> jobs[k].config.prepareRc == 0 }

  lemma {:induction false} AllLaterRefl(jobs: seq<Job>)
    ensures AllLater(jobs, jobs)
  {
  }

  /** Members that completed calmly and are not PENDING are WAITING. */
  lemma {:induction false} AllWait(jobs: seq<Job>)
    requires AllOk(jobs) && AllCalm(jobs) && NonePending(jobs) && AllCompleted(jobs)
    ensures forall k :: 0 <= k < |jobs| && jobs[k].inTxn ==> jobs[k].status.Waiting?
  {
    hide TraceOk, Counted, PauseOk;
    forall k | 0 <= k < |jobs| && jobs[k].inTxn
      ensures jobs[k].status.Waiting?
    {
      assert JobOk(jobs[k]) && CalmJob(jobs[k]);
    }
  }

  lemma {:induction false} AllReady(a: seq<Job>, b: seq<Job>)
    requires AllOk(a) && AllCalm(a) && NoCommits(a) && |a| == |b|
    requires forall k :: 0 <= k < |a| && a[k].inTxn ==> a[k].status.Waiting?
    requires forall k :: 0 <= k < |a| ==> b[k] == if a[k].inTxn then EventPending(a[k]) else a[k]
    ensures ReadyToFinalize(b) && AllLater(a, b)
  {
    hide JobOk, Later;
    forall k | 0 <= k < |a|
      ensures JobOk(b[k]) && Later(a[k], b[k]) && CalmJob(b[k]) && b[k].history.commits == 0
      ensures b[k].inTxn ==> b[k].status.Pending?
    {
      assert CalmJob(a[k]);
      LaterRefl(a[k]);
    }
  }

  lemma {:induction false} PendingTogether(jobs: seq<Job>)
    requires ReadyToFinalize(jobs)
    ensures AllOk(jobs) && AllCalm(jobs) && Together(jobs) && AllPending(jobs)
  {
    hide JobOk;
  }

  lemma {:induction false} PrepareFailed(a: seq<Job>, b: seq<Job>)
    requires AllLater(a, b) && FirstFailure(a) < |a|
    ensures !PreparesOk(b)
  {
    hide FirstFailure;
    var f := FirstFailure(a);
    assert a[f].config.prepareRc != 0;
    SamePrepares(a, b);
  }

  lemma {:induction false} SamePrepares(a: seq<Job>, b: seq<Job>)
    requires AllLater(a, b)
    ensures PreparesOk(a) <==> PreparesOk(b)
  {
    forall k | 0 <= k < |b|
      ensures b[k].config.prepareRc == a[k].config.prepareRc
    {
      assert Later(a[k], b[k]);
    }
  }

  lemma {:induction false} IncompleteIn(jobs: seq<Job>, i: nat)
    requires AllOk(jobs) && i < |jobs| && !jobs[i].completed
    ensures jobs[i].inTxn
  {
    hide TraceOk, Counted, PauseOk;
    assert JobOk(jobs[i]);
  }

  lemma {:induction false} OneChanged(a: seq<Job>, b: seq<Job>, i: nat)
    requires AllOk(a) && i < |a| == |b| && b == a[i := b[i]] && JobOk(b[i]) && Later(a[i], b[i])
    ensures AllOk(b) && AllLater(a, b)
  {
    hide JobOk, Later;
    forall k | 0 <= k < |a|
      ensures JobOk(b[k]) && Later(a[k], b[k])
    {
      LaterRefl(a[k]);
    }
  }

  /** While a member is in the transaction, calmly or doomed, nobody has committed. */
  lemma {:induction false} NobodyCommitted(jobs: seq<Job>, i: nat)
    requires Together(jobs) && i < |jobs| && jobs[i].inTxn
    ensures NoCommits(jobs) && (!jobs[i].status.Pending? ==> NonePending(jobs))
  {
  }

  lemma {:induction false} StillCalm(a: seq<Job>, b: seq<Job>, i: nat)
    requires AllCalm(a) && NonePending(a) && NoCommits(a) && i < |a| == |b| && b == a[i := b[i]]
    requires JobOk(b[i]) && b[i].status.Waiting? && !b[i].cancelled
    ensures AllCalm(b) && NonePending(b) && NoCommits(b)
  {
    hide TraceOk, PauseOk;
  }

  lemma {:induction false} CompletedFails(j: Job)
    requires JobOk(j) && j.completed && j.inTxn && j.ret != 0
    ensures Final(j) && Fails(j) && j.history.commits == 0
  {
  }

  // Facts used by the entry points

  lemma {:induction false} NotConcluded(jobs: seq<Job>, i: nat)
    requires AllOk(jobs) && i < |jobs| && !jobs[i].status.Null? && !jobs[i].status.Concluded?
    ensures jobs[i].inTxn
  {
    hide TraceOk, Counted, PauseOk;
    assert JobOk(jobs[i]);
  }

  lemma {:induction false} PendingIn(jobs: seq<Job>, i: nat)
    requires AllOk(jobs) && i < |jobs| && jobs[i].status.Pending?
    ensures jobs[i].inTxn
  {
    hide TraceOk, Counted, PauseOk;
    assert JobOk(jobs[i]);
  }

  lemma {:induction false} Unstarted(a: seq<Job>, b: seq<Job>, i: nat, force: bool, ret: int)
    requires AllOk(a) && i < |a| == |b| && b == a[i := b[i]] && AllCalm(a) && Together(a) && a[i].inTxn
    requires b[i] == CancelAsync(a[i], force) && !a[i].started && ret != 0
    ensures AllCalm(b) && Together(b) && CanComplete(b[i], ret)
  {
    hide TraceOk, PauseOk;
    assert JobOk(a[i]) && CalmJob(a[i]);
  }

  lemma {:induction false} CancelledIsFinal(j: Job)
    requires JobOk(j) && j.inTxn && j.cancelled
    ensures (j.completed ==> Final(j)) && j.history.commits == 0
  {
  }

  /** Cancelling a running member leaves the others as they were. */
  lemma {:induction false} StillRunning(a: seq<Job>, b: seq<Job>, i: nat)
    requires AllOk(a) && i < |a| == |b| && b == a[i := b[i]] && AllCalm(a) && Together(a) && a[i].inTxn
    requires JobOk(b[i]) && b[i].status == a[i].status && b[i].started && !b[i].deferred && b[i].inTxn
    ensures AllCalm(b) && Together(b) && !b[i].completed
    ensures forall c :: c == b[i := Enter(b[i])] ==> AllCalm(c) && Together(c)
  {
    hide TraceOk, PauseOk;
    assert JobOk(a[i]) && CalmJob(a[i]);
  }

  lemma {:induction false} Stays(a: seq<Job>, b: seq<Job>, i: nat)
    requires AllLater(a, b) && i < |a|
    ensures (a[i].cancelled ==> b[i].cancelled) && (a[i].completed ==> b[i].completed)
  {
    assert Later(a[i], b[i]);
  }

  lemma {:induction false} DismissedOk(j: Job)
    requires JobOk(j) && j.status.Concluded?
    ensures JobOk(Decommission(j)) && Later(j, Decommission(j)) && !Decommission(j).inTxn && !j.inTxn
    ensures Decommission(j).history.commits == j.history.commits && Decommission(j).history.aborts == j.history.aborts
    ensures Decommission(j).status.Null?
  {
    Gone(j);
  }

  lemma {:induction false} DismissKeeps(a: seq<Job>, b: seq<Job>, i: nat)
    requires i < |a| == |b| && b == a[i := b[i]] && !a[i].inTxn && !b[i].inTxn && b[i].status.Null?
    requires b[i].history.commits == a[i].history.commits && b[i].history.aborts == a[i].history.aborts
    ensures AllCalm(a) ==> AllCalm(b)
    ensures Together(a) ==> Together(b)
    ensures AllDoomed(a) ==> AllDoomed(b)
    ensures AllOut(a) ==> AllOut(b)
  {
    assert forall k :: 0 <= k < |a| && k != i ==> b[k] == a[k];
  }

  lemma {:induction false} CreatedIn(jobs: seq<Job>, i: nat)
    requires AllOk(jobs) && i < |jobs| && jobs[i].status.Created?
    ensures jobs[i].inTxn && JobOk(Decommission(jobs[i])) && Later(jobs[i], Decommission(jobs[i]))
    ensures Decommission(jobs[i]).history.commits == 0 && Decommission(jobs[i]).history.aborts == 0
    ensures Decommission(jobs[i]).status.Null? && !Decommission(jobs[i]).inTxn
  {
    assert JobOk(jobs[i]);
    Gone(jobs[i]);
  }

  lemma {:induction false} LeftEarly(a: seq<Job>, b: seq<Job>, i: nat)
    requires i < |a| == |b| && b == a[i := b[i]] && AllCalm(a) && NoCommits(a) && NonePending(a)
    requires b[i].history.commits == 0 && b[i].history.aborts == 0 && b[i].status.Null? && !b[i].inTxn
    ensures AllCalm(b) && Together(b)
  {
  }

  lemma {:induction false} NoFailure(a: seq<Job>)
    requires AllOk(a) && AllPending(a) && FirstFailure(a) == |a|
    ensures PreparedJobs(a) == a
  {
  }

  lemma {:induction false} CommittedTogether(a: seq<Job>, b: seq<Job>, i: nat)
    requires Outcome(a, b, i) && AllOk(b)
    ensures Together(b)
  {
    hide FirstFailure, Counted, TraceOk, PauseOk;
  }

  /** The state after a group abort is a valid one. */
  lemma {:induction false} FinishAbort(a: seq<Job>, b: seq<Job>, i: nat)
    requires ReadyToFinalize(a) && i < |a| && a[i].inTxn && FirstFailure(a) < |a| && Outcome(a, b, i)
    requires AllOk(PreparedJobs(a)) && Aborted(PreparedJobs(a), b, i)
    ensures AllOk(b) && AllLater(a, b) && AllOut(b) && (FirstFailure(a) == i ==> AllDoomed(b))
  {
    hide JobOk, Later, Outcome, CancelledOthers, SomeFinalized, AllFinalized, PreparedJobs;
    var p := PreparedJobs(a);
    PreparedOk(a, i);
    CancelledOk(p, i);
    SomeFinalizedOk(CancelledOthers(p, i), b);
    AllLaterTrans(a, p, CancelledOthers(p, i));
    AllLaterTrans(a, CancelledOthers(p, i), b);
    AbortKeepsOuts(p, b, i);
    PrepareKeepsOuts(a);
    OutcomeOut(a, b, i);
    if FirstFailure(a) == i { OutcomeDoomed(a, b, i); }
  }

  lemma {:induction false} PrepareKeepsOuts(a: seq<Job>)
    requires AllOk(a) && AllPending(a)
    ensures forall k :: 0 <= k < |a| && !a[k].inTxn ==> PreparedJobs(a)[k] == a[k] && !PreparedJobs(a)[k].inTxn
  {
  }

  lemma {:induction false} OutcomeOut(a: seq<Job>, b: seq<Job>, i: nat)
    requires Outcome(a, b, i)
    ensures AllOut(b)
  {
  }
}
