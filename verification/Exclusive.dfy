/**
 The exclusive-section protocol of cpus-common.c as a transition system.
 Every step of a thread is one access to shared memory, to the mutex or to a condition variable,
 and threads interleave arbitrarily. Waits may also end without a signal.
 */
module Exclusive {

  import opened Common

  type Tid = nat

  /** Program points; each names the access that the thread performs next. */
  datatype PC =
    | Idle                                        // outside every function below
    // cpu_exec_start
    | StartRead                                   // running is set; read pending_cpus
    | StartLock                                   // take the lock
    | StartCheck                                  // read has_waiter
    | StartIdle                                   // exclusive_idle: read pending_cpus
    | StartSleep(signalled: bool)                 // asleep on exclusive_resume
    | StartRelock                                 // awake; take the lock again
    | StartSet                                    // set running
    | StartUnlock                                 // release the lock
    | Exec                                        // between cpu_exec_start and cpu_exec_end
    // cpu_exec_end
    | EndRead                                     // running is cleared; read pending_cpus
    | EndLock
    | EndCheck                                    // read and clear has_waiter
    | EndDec                                      // decrement pending_cpus
    | EndSignal                                   // signal exclusive_cond if pending_cpus is 1
    | EndUnlock
    // start_exclusive
    | ExLock
    | ExIdle                                      // exclusive_idle: read pending_cpus
    | ExSleepIdle(signalled: bool)                // asleep on exclusive_resume
    | ExRelockIdle
    | ExSetOne                                    // set pending_cpus to 1
    | ExScan(rest: seq<Tid>, count: nat)          // read running of the next CPU
    | ExMark(rest: seq<Tid>, count: nat)          // it was running: set its has_waiter
    | ExWait                                      // read pending_cpus
    | ExSleepWait(signalled: bool)                // asleep on exclusive_cond
    | ExRelockWait
    | ExUnlock
    | Exclusive                                   // between start_exclusive and end_exclusive
    // end_exclusive
    | FinLock
    | FinClear                                    // set pending_cpus to 0
    | FinBroadcast                                // broadcast exclusive_resume
    | FinUnlock

  datatype Thread = Thread(pc: PC, running: bool, hasWaiter: bool)

  datatype State = State(th: map<Tid, Thread>, cpus: seq<Tid>, mutex: Option<Tid>, pending: int)

  ghost predicate NoDuplicates(s: seq<Tid>) {
    forall i, j :: 0 <= i < j < |s| ==> s[i] != s[j]
  }

  /** Any threads, any subset of them CPUs, nothing going on. */
  ghost predicate Init(s: State) {
    && s.mutex == None && s.pending == 0
    && NoDuplicates(s.cpus) && (forall c :: c in s.cpus ==> c in s.th)
    && forall t :: t in s.th ==> s.th[t] == Thread(Idle, false, false)
  }

  function Goto(s: State, t: Tid, pc: PC): State
    requires t in s.th
  {
    s.(th := s.th[t := s.th[t].(pc := pc)])
  }

  function SetRunning(s: State, t: Tid, value: bool, pc: PC): State
    requires t in s.th
  {
    s.(th := s.th[t := s.th[t].(running := value, pc := pc)])
  }

  function SetWaiter(s: State, c: Tid, value: bool): State
    requires c in s.th
  {
    s.(th := s.th[c := s.th[c].(hasWaiter := value)])
  }

  /** A thread that sleeps on exclusive_resume receives a signal. */
  function Woken(th: Thread): Thread {
    match th.pc
    case StartSleep(_) => th.(pc := StartSleep(true))
    case ExSleepIdle(_) => th.(pc := ExSleepIdle(true))
    case _ => th
  }

  /** All sleepers on exclusive_resume receive the broadcast. */
  function Broadcast(s: State): State {
    s.(th := map u | u in s.th :: Woken(s.th[u]))
  }

  /** s' is s after a signal on exclusive_cond: one sleeper, if there is any, receives it. */
  ghost predicate Signal(s: State, s': State) {
    if exists w :: w in s.th && s.th[w].pc.ExSleepWait?
    then exists w :: w in s.th && s.th[w].pc.ExSleepWait? && s' == Goto(s, w, ExSleepWait(true))
    else s' == s
  }

  ghost predicate Acquire(s: State, s': State, t: Tid, pc: PC)
    requires t in s.th
  {
    s.mutex == None && s' == Goto(s, t, pc).(mutex := Some(t))
  }

  ghost predicate StartStep(s: State, s': State, t: Tid)
    requires t in s.th
  {
    match s.th[t].pc
    case Idle => t in s.cpus && s' == SetRunning(s, t, true, StartRead)
    case StartRead => s' == Goto(s, t, if s.pending != 0 then StartLock else Exec)
    case StartLock => Acquire(s, s', t, StartCheck)
    case StartCheck => s' == if !s.th[t].hasWaiter then SetRunning(s, t, false, StartIdle) else Goto(s, t, StartUnlock)
    case StartIdle => s' == if s.pending != 0 then Goto(s, t, StartSleep(false)).(mutex := None) else Goto(s, t, StartSet)
    case StartSleep(_) => s' == Goto(s, t, StartRelock)
    case StartRelock => Acquire(s, s', t, StartIdle)
    case StartSet => s' == SetRunning(s, t, true, StartUnlock)
    case StartUnlock => s' == Goto(s, t, Exec).(mutex := None)
    case _ => false
  }

  ghost predicate EndStep(s: State, s': State, t: Tid)
    requires t in s.th
  {
    match s.th[t].pc
    case Exec => s' == SetRunning(s, t, false, EndRead)
    case EndRead => s' == Goto(s, t, if s.pending != 0 then EndLock else Idle)
    case EndLock => Acquire(s, s', t, EndCheck)
    case EndCheck => s' == if s.th[t].hasWaiter then Goto(SetWaiter(s, t, false), t, EndDec) else Goto(s, t, EndUnlock)
    case EndDec => s' == Goto(s, t, EndSignal).(pending := s.pending - 1)
    case EndSignal => if s.pending == 1 then Signal(Goto(s, t, EndUnlock), s') else s' == Goto(s, t, EndUnlock)
    case EndUnlock => s' == Goto(s, t, Idle).(mutex := None)
    case _ => false
  }

  ghost predicate ExclusiveStep(s: State, s': State, t: Tid)
    requires t in s.th
  {
    match s.th[t].pc
    case Idle => s' == Goto(s, t, ExLock)
    case ExLock => Acquire(s, s', t, ExIdle)
    case ExIdle => s' == if s.pending != 0 then Goto(s, t, ExSleepIdle(false)).(mutex := None) else Goto(s, t, ExSetOne)
    case ExSleepIdle(_) => s' == Goto(s, t, ExRelockIdle)
    case ExRelockIdle => Acquire(s, s', t, ExIdle)
    case ExSetOne => s' == Goto(s, t, ExScan(s.cpus, 0)).(pending := 1)
    case ExScan(rest, count) =>
      if rest == [] then s' == Goto(s, t, ExWait).(pending := count + 1)
      else rest[0] in s.th &&
           s' == Goto(s, t, if s.th[rest[0]].running then ExMark(rest, count) else ExScan(rest[1..], count))
    case ExMark(rest, count) =>
      rest != [] && rest[0] in s.th && s' == Goto(SetWaiter(s, rest[0], true), t, ExScan(rest[1..], count + 1))
    case ExWait => s' == if s.pending > 1 then Goto(s, t, ExSleepWait(false)).(mutex := None) else Goto(s, t, ExUnlock)
    case ExSleepWait(_) => s' == Goto(s, t, ExRelockWait)
    case ExRelockWait => Acquire(s, s', t, ExWait)
    case ExUnlock => s' == Goto(s, t, Exclusive).(mutex := None)
    case Exclusive => s' == Goto(s, t, FinLock)
    case FinLock => Acquire(s, s', t, FinClear)
    case FinClear => s' == Goto(s, t, FinBroadcast).(pending := 0)
    case FinBroadcast => s' == Goto(Broadcast(s), t, FinUnlock)
    case FinUnlock => s' == Goto(s, t, Idle).(mutex := None)
    case _ => false
  }

  ghost predicate Next(s: State, s': State, t: Tid) {
    t in s.th && (StartStep(s, s', t) || EndStep(s, s', t) || ExclusiveStep(s, s', t))
  }

  // ---------------------------------------------------------------- program-point classes

  predicate HoldsLock(pc: PC) {
    match pc
    case StartCheck | StartIdle | StartSet | StartUnlock => true
    case EndCheck | EndDec | EndSignal | EndUnlock => true
    case ExIdle | ExSetOne | ExScan(_, _) | ExMark(_, _) | ExWait | ExUnlock => true
    case FinClear | FinBroadcast | FinUnlock => true
    case _ => false
  }

  /** The thread has set pending_cpus and not yet cleared it. */
  predicate Owns(pc: PC) {
    pc.ExScan? || pc.ExMark? || PastScan(pc)
  }

  predicate PastScan(pc: PC) {
    match pc
    case ExWait | ExSleepWait(_) | ExRelockWait | ExUnlock | Exclusive | FinLock | FinClear => true
    case _ => false
  }

  /** pending_cpus is known to be 1. */
  predicate Alone(pc: PC) {
    pc == ExUnlock || pc == Exclusive || pc == FinLock || pc == FinClear
  }

  predicate RunFlag(pc: PC) {
    pc == StartRead || pc == StartLock || pc == StartCheck || pc == StartUnlock || pc == Exec
  }

  /** Points of a CPU that some waiter counts on: its locked decrement is still ahead. */
  predicate Owed(pc: PC) {
    RunFlag(pc) || pc == EndRead || pc == EndLock || pc == EndCheck
  }

  /** Points from which guest code runs, or will run without looking at pending_cpus again. */
  predicate Committed(pc: PC) {
    pc == Exec || pc == StartSet || pc == StartUnlock
  }

  predicate CpuPoint(pc: PC) {
    RunFlag(pc) || pc == StartIdle || pc.StartSleep? || pc == StartRelock || pc == StartSet
    || pc == EndRead || pc == EndLock || pc == EndCheck || pc == EndDec || pc == EndSignal || pc == EndUnlock
  }

  // ---------------------------------------------------------------- the invariant

  ghost function Waiters(s: State): set<Tid> {
    set u | u in s.th && s.th[u].hasWaiter
  }

  ghost function Decrementers(s: State): set<Tid> {
    set u | u in s.th && s.th[u].pc == EndDec
  }

  /** The CPUs the owner has not looked at yet. */
  function Unscanned(pc: PC): seq<Tid> {
    match pc case ExScan(rest, _) => rest case ExMark(rest, _) => rest case _ => []
  }

  ghost predicate OwnerOk(s: State, o: Option<Tid>) {
    && (o.Some? ==> o.value in s.th && Owns(s.th[o.value].pc))
    && (forall u :: u in s.th && Owns(s.th[u].pc) ==> o == Some(u))
    && (if o.Some? then s.pending > 0 else s.pending == 0)
  }

  ghost predicate LockOk(s: State) {
    && (s.mutex.Some? ==> s.mutex.value in s.th)
    && forall u :: u in s.th ==> (HoldsLock(s.th[u].pc) <==> s.mutex == Some(u))
  }

  ghost predicate ThreadOk(s: State, o: Option<Tid>, u: Tid)
    requires u in s.th && (o.Some? ==> o.value in s.th)
  {
    var pc := s.th[u].pc;
    && s.th[u].running == RunFlag(pc)
    && (CpuPoint(pc) ==> u in s.cpus)
    && (s.th[u].hasWaiter ==> o.Some? && u in s.cpus && u !in Unscanned(s.th[o.value].pc) && Owed(pc))
    && (o.Some? && u !in Unscanned(s.th[o.value].pc) && !s.th[u].hasWaiter ==> !Committed(pc))
    && (pc == StartSet ==> o.None?)
    && (pc == ExSetOne ==> o.None?)
    && (pc == EndDec || pc == EndSignal ==> o.Some?)
    && (pc == FinBroadcast || pc == FinUnlock ==> o.None?)
  }

  ghost predicate CountOk(s: State, o: Option<Tid>)
    requires o.Some? ==> o.value in s.th
  {
    o.Some? ==>
      match s.th[o.value].pc
      case ExScan(rest, count) => s.pending == 1 && count == |Waiters(s)|
      case ExMark(rest, count) => s.pending == 1 && count == |Waiters(s)| && rest != [] && Owed(PcOf(s, rest[0]))
      case pc => s.pending == 1 + |Waiters(s)| + |Decrementers(s)| && (Alone(pc) ==> s.pending == 1)
  }

  ghost function PcOf(s: State, u: Tid): PC {
    if u in s.th then s.th[u].pc else Idle
  }

  ghost predicate ScanOk(s: State, o: Option<Tid>)
    requires o.Some? ==> o.value in s.th
  {
    o.Some? ==>
      var rest := Unscanned(s.th[o.value].pc);
      NoDuplicates(rest) && forall c :: c in rest ==> c in s.cpus
  }

  ghost predicate SleepOk(s: State) {
    && (forall u :: u in s.th && s.th[u].pc == ExSleepWait(false) ==>
          s.pending > 1 || (s.mutex.Some? && PcOf(s, s.mutex.value) == EndSignal))
    && (forall u :: u in s.th && (s.th[u].pc == StartSleep(false) || s.th[u].pc == ExSleepIdle(false)) ==>
          s.pending > 0 || (s.mutex.Some? && PcOf(s, s.mutex.value) == FinBroadcast))
  }

  ghost predicate InvWith(s: State, o: Option<Tid>) {
    && NoDuplicates(s.cpus) && (forall c :: c in s.cpus ==> c in s.th)
    && OwnerOk(s, o) && LockOk(s)
    && (forall u :: u in s.th ==> ThreadOk(s, o, u))
    && CountOk(s, o) && ScanOk(s, o) && SleepOk(s)
  }

  ghost predicate Inv(s: State) {
    exists o :: InvWith(s, o)
  }

  lemma {:induction false} InitInv(s: State)
    requires Init(s)
    ensures Inv(s)
  {
    assert InvWith(s, None);
  }

  // ---------------------------------------------------------------- every step keeps the invariant

  /** A step that changes only thread t's own record and possibly the lock. */
  predicate Move(s: State, s': State, t: Tid, n: Thread, m: Option<Tid>)
    requires t in s.th
  {
    s' == s.(th := s.th[t := n], mutex := m)
  }

  lemma {:induction false} MoveOwner(s: State, s': State, t: Tid, n: Thread, m: Option<Tid>, o: Option<Tid>)
    requires t in s.th && Move(s, s', t, n, m) && OwnerOk(s, o) && Owns(n.pc) == Owns(s.th[t].pc)
    ensures OwnerOk(s', o)
  {
  }

  /** The lock after the move is the one the new program point stands for. */
  predicate LockMove(s: State, t: Tid, pc: PC, m: Option<Tid>)
    requires t in s.th
  {
    match (HoldsLock(s.th[t].pc), HoldsLock(pc))
    case (true, true) => m == s.mutex
    case (true, false) => m == None
    case (false, true) => s.mutex == None && m == Some(t)
    case (false, false) => m == s.mutex
  }

  lemma {:induction false} MoveLock(s: State, s': State, t: Tid, n: Thread, m: Option<Tid>)
    requires t in s.th && Move(s, s', t, n, m) && LockOk(s) && LockMove(s, t, n.pc, m)
    ensures LockOk(s')
  {
    assert HoldsLock(s.th[t].pc) <==> s.mutex == Some(t);
  }

  lemma {:induction false} MoveThread(s: State, s': State, t: Tid, n: Thread, m: Option<Tid>, o: Option<Tid>, u: Tid)
    requires t in s.th && Move(s, s', t, n, m) && u in s.th && u != t
    requires o.Some? ==> o.value in s.th
    requires ThreadOk(s, o, u)
    requires o == Some(t) ==> Unscanned(n.pc) == Unscanned(s.th[t].pc)
    ensures ThreadOk(s', o, u)
  {
  }

  lemma {:induction false} MoveSets(s: State, s': State, t: Tid, n: Thread, m: Option<Tid>)
    requires t in s.th && Move(s, s', t, n, m)
    requires n.hasWaiter == s.th[t].hasWaiter && (n.pc == EndDec <==> s.th[t].pc == EndDec)
    ensures Waiters(s') == Waiters(s) && Decrementers(s') == Decrementers(s)
  {
  }

  lemma {:induction false} MoveCount(s: State, s': State, t: Tid, n: Thread, m: Option<Tid>, o: Option<Tid>)
    requires t in s.th && Move(s, s', t, n, m) && (o.Some? ==> o.value in s.th) && CountOk(s, o)
    requires n.hasWaiter == s.th[t].hasWaiter && n.pc != EndDec && s.th[t].pc != EndDec
    requires Owed(s.th[t].pc) && o.Some? && s.th[o.value].pc.ExMark? && s.th[o.value].pc.rest != [] && s.th[o.value].pc.rest[0] == t ==> Owed(n.pc)
    requires o == Some(t) ==> PastScan(n.pc) && PastScan(s.th[t].pc) && (Alone(n.pc) ==> s.pending == 1)
    ensures CountOk(s', o)
  {
    hide Waiters, Decrementers;
    MoveSets(s, s', t, n, m);
  }

  lemma {:induction false} MoveSleep(s: State, s': State, t: Tid, n: Thread, m: Option<Tid>)
    requires t in s.th && Move(s, s', t, n, m) && SleepOk(s) && LockOk(s) && LockMove(s, t, n.pc, m)
    requires s.th[t].pc != EndSignal && s.th[t].pc != FinBroadcast
    requires n.pc == ExSleepWait(false) ==> s.pending > 1
    requires n.pc == StartSleep(false) || n.pc == ExSleepIdle(false) ==> s.pending > 0
    ensures SleepOk(s')
  {
    assert HoldsLock(s.th[t].pc) <==> s.mutex == Some(t);
    if s.mutex.Some? { assert HoldsLock(s.th[s.mutex.value].pc); }
  }

  /** What a step must show to be a harmless move of thread t. */
  ghost predicate GoodMove(s: State, t: Tid, n: Thread, m: Option<Tid>, o: Option<Tid>)
    requires t in s.th && (o.Some? ==> o.value in s.th)
  {
    var pc := s.th[t].pc;
    && LockMove(s, t, n.pc, m)
    && Owns(n.pc) == Owns(pc) && n.hasWaiter == s.th[t].hasWaiter
    && n.pc != EndDec && pc != EndDec && pc != EndSignal && pc != FinBroadcast
    && (Owed(pc) && o.Some? && s.th[o.value].pc.ExMark? ==> Owed(n.pc))
    && (o == Some(t) ==> PastScan(n.pc) && PastScan(pc) && (Alone(n.pc) ==> s.pending == 1))
    && (n.pc == ExSleepWait(false) ==> s.pending > 1)
    && (n.pc == StartSleep(false) || n.pc == ExSleepIdle(false) ==> s.pending > 0)
  }

  lemma {:induction false} MoveKeeps(s: State, s': State, t: Tid, n: Thread, m: Option<Tid>, o: Option<Tid>)
    requires t in s.th && Move(s, s', t, n, m) && InvWith(s, o) && GoodMove(s, t, n, m, o)
    requires ThreadOk(s', o, t)
    ensures InvWith(s', o)
  {
    hide ThreadOk, CountOk, SleepOk, LockOk, LockMove, Owed, Committed, CpuPoint, RunFlag, HoldsLock, NoDuplicates;
    MoveOwner(s, s', t, n, m, o);
    MoveLock(s, s', t, n, m);
    MoveCount(s, s', t, n, m, o);
    MoveSleep(s, s', t, n, m);
    forall u | u in s'.th ensures ThreadOk(s', o, u) {
      if u != t { MoveThread(s, s', t, n, m, o, u); }
    }
  }

  /** What the steps of thread t need to know about t itself. */
  lemma {:induction false} Facts(s: State, t: Tid, o: Option<Tid>)
    requires InvWith(s, o) && t in s.th
    ensures ThreadOk(s, o, t)
    ensures HoldsLock(s.th[t].pc) <==> s.mutex == Some(t)
    ensures Owns(s.th[t].pc) <==> o == Some(t)
    ensures if o.Some? then s.pending > 0 && o.value in s.th else s.pending == 0
    ensures o.Some? && (s.th[o.value].pc.ExScan? || s.th[o.value].pc.ExMark?) ==> s.mutex == o
  {
  }

  lemma {:induction false} StartKeeps(s: State, s': State, t: Tid, o: Option<Tid>)
    requires InvWith(s, o) && t in s.th && StartStep(s, s', t)
    ensures InvWith(s', o)
  {
    hide InvWith, StartStep, ThreadOk, GoodMove, Move;
    Facts(s, t, o);
    StartGood(s, s', t, o);
    StartThread(s, s', t, o);
    MoveKeeps(s, s', t, s'.th[t], s'.mutex, o);
  }

  /** What is known about t and the owner before a step of t. */
  ghost predicate Known(s: State, t: Tid, o: Option<Tid>) {
    && t in s.th && (HoldsLock(s.th[t].pc) <==> s.mutex == Some(t)) && (Owns(s.th[t].pc) <==> o == Some(t))
    && (if o.Some? then s.pending > 0 && o.value in s.th else s.pending == 0)
    && (o.Some? && (s.th[o.value].pc.ExScan? || s.th[o.value].pc.ExMark?) ==> s.mutex == o)
  }

  lemma {:induction false} StartGood(s: State, s': State, t: Tid, o: Option<Tid>)
    requires Known(s, t, o) && StartStep(s, s', t)
    ensures t in s'.th && Move(s, s', t, s'.th[t], s'.mutex) && GoodMove(s, t, s'.th[t], s'.mutex, o)
  {
    StartLocks(s, s', t);
    hide LockMove, HoldsLock;
  }

  lemma {:induction false} StartLocks(s: State, s': State, t: Tid)
    requires t in s.th && (HoldsLock(s.th[t].pc) <==> s.mutex == Some(t)) && StartStep(s, s', t)
    ensures t in s'.th && LockMove(s, t, s'.th[t].pc, s'.mutex)
  {
  }

  lemma {:induction false} StartThread(s: State, s': State, t: Tid, o: Option<Tid>)
    requires Known(s, t, o) && ThreadOk(s, o, t) && StartStep(s, s', t)
    ensures t in s'.th && (o.Some? ==> o.value in s'.th) && ThreadOk(s', o, t)
  {
  }

  /** Only one thread can be inside the locked part. */
  lemma {:induction false} LockAlone(s: State, t: Tid)
    requires LockOk(s) && t in s.th && HoldsLock(s.th[t].pc)
    ensures forall u :: u in s.th && u != t ==> !HoldsLock(s.th[u].pc)
  {
    assert s.mutex == Some(t);
  }

  /** Any step of t that writes t's record, the lock and pending_cpus, with the counting parts shown separately. */
  lemma {:induction false} WriteKeeps(s: State, s': State, t: Tid, n: Thread, m: Option<Tid>, pending: int,
                                      o: Option<Tid>)
    requires t in s.th && InvWith(s, o)
    requires s' == s.(th := s.th[t := n], mutex := m, pending := pending)
    requires LockMove(s, t, n.pc, m)
    requires OwnerOk(s', o) && CountOk(s', o) && SleepOk(s') && ThreadOk(s', o, t)
    requires o == Some(t) ==> Unscanned(n.pc) == Unscanned(s.th[t].pc)
    ensures InvWith(s', o)
  {
    hide ThreadOk, CountOk, SleepOk, LockOk, LockMove, OwnerOk, Owed, Committed, CpuPoint, RunFlag, HoldsLock;
    var s1 := s.(th := s.th[t := n], mutex := m);
    MoveLock(s, s1, t, n, m);
    LockSame(s1, s');
    OwnerIn(s, o);
    forall u | u in s'.th ensures ThreadOk(s', o, u) {
      if u != t {
        MoveThread(s, s1, t, n, m, o, u);
        ThreadSame(s1, s', o, u);
      }
    }
  }

  lemma {:induction false} OwnerIn(s: State, o: Option<Tid>)
    requires OwnerOk(s, o)
    ensures o.Some? ==> o.value in s.th && Owns(s.th[o.value].pc)
  {
  }

  lemma {:induction false} LockSame(s: State, s': State)
    requires s'.th == s.th && s'.mutex == s.mutex && LockOk(s)
    ensures LockOk(s')
  {
  }

  lemma {:induction false} ThreadSame(s: State, s': State, o: Option<Tid>, u: Tid)
    requires s'.th == s.th && s'.cpus == s.cpus && u in s.th && (o.Some? ==> o.value in s.th) && ThreadOk(s, o, u)
    ensures ThreadOk(s', o, u)
  {
  }

  /** The owner cannot be scanning while another thread holds the lock. */
  lemma {:induction false} OwnerPastScan(s: State, t: Tid, o: Option<Tid>)
    requires InvWith(s, o) && t in s.th && HoldsLock(s.th[t].pc) && o.Some? && o.value != t
    ensures PastScan(s.th[o.value].pc)
    ensures s.pending == 1 + |Waiters(s)| + |Decrementers(s)|
    ensures Alone(s.th[o.value].pc) ==> s.pending == 1
  {
    LockAlone(s, t);
  }

  lemma {:induction false} EndCheckKeeps(s: State, s': State, t: Tid, o: Option<Tid>)
    requires InvWith(s, o) && t in s.th && s.th[t].pc == EndCheck && s.th[t].hasWaiter
    requires s' == Goto(SetWaiter(s, t, false), t, EndDec)
    ensures InvWith(s', o)
  {
    hide InvWith, Waiters, Decrementers;
    Facts(s, t, o);
    OwnerPastScan(s, t, o);
    Locked(s, o);
    EndCheckSets(s, s', t);
    MoveParts(s, s', t, s'.th[t], s'.mutex, o);
    WriteKeeps(s, s', t, s'.th[t], s'.mutex, s'.pending, o);
  }

  /** Owner and sleep facts of a move. */
  lemma {:induction false} MoveParts(s: State, s': State, t: Tid, n: Thread, m: Option<Tid>, o: Option<Tid>)
    requires t in s.th && Move(s, s', t, n, m) && InvWith(s, o) && LockMove(s, t, n.pc, m)
    requires Owns(n.pc) == Owns(s.th[t].pc)
    requires s.th[t].pc != EndSignal && s.th[t].pc != FinBroadcast && !n.pc.ExSleepWait? && !n.pc.StartSleep? &&
      !n.pc.ExSleepIdle?
    ensures OwnerOk(s', o) && SleepOk(s')
  {
    MoveOwner(s, s', t, n, m, o);
    MoveSleep(s, s', t, n, m);
  }

  lemma {:induction false} Locked(s: State, o: Option<Tid>)
    requires InvWith(s, o)
    ensures LockOk(s)
  {
  }

  lemma {:induction false} EndCheckSets(s: State, s': State, t: Tid)
    requires LockOk(s) && t in s.th && s.th[t].pc == EndCheck && s.th[t].hasWaiter
    requires s' == Goto(SetWaiter(s, t, false), t, EndDec)
    ensures |Waiters(s')| + |Decrementers(s')| == |Waiters(s)| + |Decrementers(s)|
  {
    LockAlone(s, t);
    hide LockOk;
    assert Waiters(s') == Waiters(s) - {t} && t in Waiters(s);
    assert Decrementers(s) == {};
    assert Decrementers(s') == {t};
  }

  /** The decrement in cpu_exec_end never takes pending_cpus below 1. */
  lemma {:induction false} EndDecKeeps(s: State, s': State, t: Tid, o: Option<Tid>)
    requires InvWith(s, o) && t in s.th && s.th[t].pc == EndDec
    requires s' == Goto(s, t, EndSignal).(pending := s.pending - 1)
    ensures InvWith(s', o) && s'.pending >= 1
  {
    hide InvWith, Waiters, Decrementers;
    Facts(s, t, o);
    OwnerPastScan(s, t, o);
    EndDecSets(s, s', t, o);
    EndDecParts(s, s', t, o);
    WriteKeeps(s, s', t, s'.th[t], s'.mutex, s'.pending, o);
  }

  lemma {:induction false} EndDecSets(s: State, s': State, t: Tid, o: Option<Tid>)
    requires t in s.th && s.th[t].pc == EndDec
    requires s' == Goto(s, t, EndSignal).(pending := s.pending - 1)
    ensures |Waiters(s')| == |Waiters(s)| && |Decrementers(s)| == |Decrementers(s')| + 1
  {
    assert Waiters(s') == Waiters(s);
    assert t in Decrementers(s) && Decrementers(s') == Decrementers(s) - {t};
  }

  lemma {:induction false} EndDecParts(s: State, s': State, t: Tid, o: Option<Tid>)
    requires InvWith(s, o) && t in s.th && s.th[t].pc == EndDec && s.pending > 1 && o.Some?
    requires s' == Goto(s, t, EndSignal).(pending := s.pending - 1)
    ensures OwnerOk(s', o) && SleepOk(s')
  {
    hide ThreadOk, CountOk, ScanOk, NoDuplicates;
    assert HoldsLock(s.th[t].pc) <==> s.mutex == Some(t);
  }

  lemma {:induction false} SignalKeeps(s: State, s': State, t: Tid, o: Option<Tid>)
    requires InvWith(s, o) && t in s.th && s.th[t].pc == EndSignal
    requires if s.pending == 1 then Signal(Goto(s, t, EndUnlock), s') else s' == Goto(s, t, EndUnlock)
    ensures InvWith(s', o)
  {
    hide InvWith;
    var s1 := Goto(s, t, EndUnlock);
    if s.pending == 1 && exists w :: w in s1.th && s1.th[w].pc.ExSleepWait? {
      var w :| w in s1.th && s1.th[w].pc.ExSleepWait? && s' == Goto(s1, w, ExSleepWait(true));
      SignalOne(s, s', t, w, o);
    } else {
      UnlockKeeps(s, s1, t, o);
    }
  }

  /** EndSignal to EndUnlock when nobody is left asleep without a signal. */
  lemma {:induction false} UnlockKeeps(s: State, s1: State, t: Tid, o: Option<Tid>)
    requires InvWith(s, o) && t in s.th && s.th[t].pc == EndSignal && s1 == Goto(s, t, EndUnlock)
    requires s.pending == 1 ==> forall w :: w in s1.th ==> !s1.th[w].pc.ExSleepWait? || s1.th[w].pc.signalled
    ensures InvWith(s1, o)
  {
    hide InvWith, Waiters, Decrementers;
    Facts(s, t, o);
    OwnerPastScan(s, t, o);
    NoSleeper(s, s1, t, o);
    MoveSets(s, s1, t, s1.th[t], s1.mutex);
    WriteKeeps(s, s1, t, s1.th[t], s1.mutex, s1.pending, o);
  }

  lemma {:induction false} NoSleeper(s: State, s1: State, t: Tid, o: Option<Tid>)
    requires InvWith(s, o) && t in s.th && s.th[t].pc == EndSignal && s1 == Goto(s, t, EndUnlock)
    requires s.pending == 1 ==> forall w :: w in s1.th ==> !s1.th[w].pc.ExSleepWait? || s1.th[w].pc.signalled
    ensures OwnerOk(s1, o) && SleepOk(s1)
  {
    MoveOwner(s, s1, t, s1.th[t], s1.mutex, o);
    assert HoldsLock(s.th[t].pc) <==> s.mutex == Some(t);
    assert ThreadOk(s, o, t);
  }

  /** Waking the owner: first the wake-up of w, then t's own move. */
  lemma {:induction false} SignalOne(s: State, s': State, t: Tid, w: Tid, o: Option<Tid>)
    requires InvWith(s, o) && t in s.th && s.th[t].pc == EndSignal
    requires w in s.th && s.th[w].pc.ExSleepWait? && w != t
    requires s' == Goto(Goto(s, t, EndUnlock), w, ExSleepWait(true))
    ensures InvWith(s', o)
  {
    hide InvWith;
    var s1 := Goto(s, w, ExSleepWait(true));
    WakeKeeps(s, s1, t, w, o);
    var s2 := Goto(s1, t, EndUnlock);
    assert s2.th == s'.th;
    OnlySleeper(s1, s2, t, w, o);
    UnlockKeeps(s1, s2, t, o);
  }

  lemma {:induction false} WakeKeeps(s: State, s1: State, t: Tid, w: Tid, o: Option<Tid>)
    requires InvWith(s, o) && t in s.th && s.th[t].pc == EndSignal
    requires w in s.th && s.th[w].pc.ExSleepWait? && w != t && s1 == Goto(s, w, ExSleepWait(true))
    ensures InvWith(s1, o)
  {
    hide InvWith, Waiters, Decrementers, CountOk, ThreadOk, SleepOk, OwnerOk;
    Facts(s, w, o);
    OwnerPastScan(s, t, o);
    SignalledParts(s, s1, t, w, o);
    MoveSets(s, s1, w, s1.th[w], s1.mutex);
    WakeOk(s, s1, w, o);
    WriteKeeps(s, s1, w, s1.th[w], s1.mutex, s1.pending, o);
  }

  lemma {:induction false} WakeOk(s: State, s1: State, w: Tid, o: Option<Tid>)
    requires w in s.th && s.th[w].pc.ExSleepWait? && o == Some(w) && s1 == Goto(s, w, ExSleepWait(true))
    requires s.pending == 1 + |Waiters(s)| + |Decrementers(s)| && ThreadOk(s, o, w)
    requires Waiters(s1) == Waiters(s) && Decrementers(s1) == Decrementers(s)
    ensures CountOk(s1, o) && ThreadOk(s1, o, w)
  {
    hide Waiters, Decrementers;
  }

  lemma {:induction false} SignalledParts(s: State, s1: State, t: Tid, w: Tid, o: Option<Tid>)
    requires InvWith(s, o) && t in s.th && s.th[t].pc == EndSignal
    requires w in s.th && s.th[w].pc.ExSleepWait? && w != t && s1 == Goto(s, w, ExSleepWait(true))
    ensures OwnerOk(s1, o) && SleepOk(s1)
  {
    hide ThreadOk, CountOk, ScanOk, NoDuplicates, OwnerOk, SleepOk;
    MoveOwner(s, s1, w, s1.th[w], s1.mutex, o);
    assert HoldsLock(s.th[t].pc) <==> s.mutex == Some(t);
    WakeSleep(s, s1, t, w);
  }

  lemma {:induction false} WakeSleep(s: State, s1: State, t: Tid, w: Tid)
    requires SleepOk(s) && s.mutex == Some(t) && t in s.th && s.th[t].pc == EndSignal
    requires w in s.th && w != t && s1 == Goto(s, w, ExSleepWait(true))
    ensures SleepOk(s1)
  {
  }

  lemma {:induction false} OnlySleeper(s1: State, s2: State, t: Tid, w: Tid, o: Option<Tid>)
    requires InvWith(s1, o) && t in s1.th && s2 == Goto(s1, t, EndUnlock) && w in s1.th &&
      s1.th[w].pc == ExSleepWait(true) && w != t
    ensures forall u :: u in s2.th ==> !s2.th[u].pc.ExSleepWait? || s2.th[u].pc.signalled
  {
    hide ThreadOk, CountOk, SleepOk, ScanOk, LockOk, NoDuplicates;
    assert Owns(s1.th[w].pc);
    forall u | u in s2.th && s2.th[u].pc.ExSleepWait? ensures u == w {
      assert u in s1.th && Owns(s1.th[u].pc);
    }
  }

  lemma {:induction false} EndMoveKeeps(s: State, s': State, t: Tid, o: Option<Tid>)
    requires InvWith(s, o) && t in s.th && EndStep(s, s', t)
    requires EndMove(s.th[t])
    ensures InvWith(s', o)
  {
    hide InvWith, EndStep, ThreadOk, GoodMove, Move;
    Facts(s, t, o);
    EndGood(s, s', t, o);
    EndThread(s, s', t, o);
    MoveKeeps(s, s', t, s'.th[t], s'.mutex, o);
  }

  predicate EndMove(th: Thread) {
    th.pc.Exec? || th.pc.EndRead? || th.pc.EndLock? || th.pc.EndUnlock? || (th.pc.EndCheck? && !th.hasWaiter)
  }

  lemma {:induction false} EndGood(s: State, s': State, t: Tid, o: Option<Tid>)
    requires Known(s, t, o) && ThreadOk(s, o, t) && EndStep(s, s', t) && EndMove(s.th[t])
    ensures t in s'.th && Move(s, s', t, s'.th[t], s'.mutex) && GoodMove(s, t, s'.th[t], s'.mutex, o)
  {
    EndLocks(s, s', t);
    hide LockMove, HoldsLock;
  }

  lemma {:induction false} EndLocks(s: State, s': State, t: Tid)
    requires t in s.th && (HoldsLock(s.th[t].pc) <==> s.mutex == Some(t)) && EndStep(s, s', t) && EndMove(s.th[t])
    ensures t in s'.th && LockMove(s, t, s'.th[t].pc, s'.mutex)
  {
  }

  lemma {:induction false} EndThread(s: State, s': State, t: Tid, o: Option<Tid>)
    requires Known(s, t, o) && ThreadOk(s, o, t) && EndStep(s, s', t) && EndMove(s.th[t])
    ensures t in s'.th && (o.Some? ==> o.value in s'.th) && ThreadOk(s', o, t)
  {
  }

  lemma {:induction false} EndKeeps(s: State, s': State, t: Tid, o: Option<Tid>)
    requires InvWith(s, o) && t in s.th && EndStep(s, s', t)
    ensures InvWith(s', o)
  {
    hide InvWith;
    if s.th[t].pc == EndCheck && s.th[t].hasWaiter {
      EndCheckKeeps(s, s', t, o);
    } else if s.th[t].pc == EndDec {
      EndDecKeeps(s, s', t, o);
    } else if s.th[t].pc == EndSignal {
      SignalKeeps(s, s', t, o);
    } else {
      EndMoveKeeps(s, s', t, o);
    }
  }

  // start_exclusive: becoming the owner

  lemma {:induction false} SetOneKeeps(s: State, s': State, t: Tid, o: Option<Tid>)
    requires InvWith(s, o) && t in s.th && s.th[t].pc == ExSetOne
    requires s' == Goto(s, t, ExScan(s.cpus, 0)).(pending := 1)
    ensures InvWith(s', Some(t))
  {
    hide NoDuplicates, ThreadOk, OwnerOk, LockOk, SleepOk, Waiters, Decrementers, HoldsLock, Owns;
    SetOneNone(s, s', t, o);
    SetOneThreads(s, s', t, o);
    SetOneSleep(s, s', t, o);
    SetOneOwner(s, s', t, o);
    SetOneLock(s, s', t);
  }

  /** Before the scan nobody owns the section, so nobody is marked. */
  lemma {:induction false} SetOneNone(s: State, s': State, t: Tid, o: Option<Tid>)
    requires InvWith(s, o) && t in s.th && s.th[t].pc == ExSetOne
    requires s' == Goto(s, t, ExScan(s.cpus, 0)).(pending := 1)
    ensures o == None && Waiters(s') == {}
  {
    hide NoDuplicates, OwnerOk, LockOk, SleepOk, CountOk, ScanOk;
    assert ThreadOk(s, o, t) && o == None;
    forall u | u in s'.th ensures !s'.th[u].hasWaiter { assert ThreadOk(s, o, u); }
  }

  lemma {:induction false} SetOneThreads(s: State, s': State, t: Tid, o: Option<Tid>)
    requires InvWith(s, o) && t in s.th && s.th[t].pc == ExSetOne && o == None
    requires s' == Goto(s, t, ExScan(s.cpus, 0)).(pending := 1)
    ensures forall u :: u in s'.th ==> ThreadOk(s', Some(t), u)
  {
    LockAlone(s, t);
    forall u | u in s'.th ensures ThreadOk(s', Some(t), u) {
      assert ThreadOk(s, o, u);
      SetOneThread(s, s', t, u);
    }
  }

  lemma {:induction false} SetOneThread(s: State, s': State, t: Tid, u: Tid)
    requires t in s.th && u in s.th && s.th[t].pc == ExSetOne && ThreadOk(s, None, u)
    requires u != t ==> !HoldsLock(s.th[u].pc)
    requires s' == Goto(s, t, ExScan(s.cpus, 0)).(pending := 1)
    ensures ThreadOk(s', Some(t), u)
  {
  }

  lemma {:induction false} SetOneSleep(s: State, s': State, t: Tid, o: Option<Tid>)
    requires InvWith(s, o) && t in s.th && s.th[t].pc == ExSetOne && o == None
    requires s' == Goto(s, t, ExScan(s.cpus, 0)).(pending := 1)
    ensures SleepOk(s')
  {
    hide ThreadOk, CountOk, ScanOk, NoDuplicates;
    forall u | u in s'.th ensures s'.th[u].pc != ExSleepWait(false) {
      assert u in s.th && (Owns(s.th[u].pc) ==> o == Some(u));
    }
  }

  lemma {:induction false} SetOneOwner(s: State, s': State, t: Tid, o: Option<Tid>)
    requires OwnerOk(s, o) && t in s.th && o == None
    requires s' == Goto(s, t, ExScan(s.cpus, 0)).(pending := 1)
    ensures OwnerOk(s', Some(t))
  {
  }

  lemma {:induction false} SetOneLock(s: State, s': State, t: Tid)
    requires LockOk(s) && t in s.th && s.th[t].pc == ExSetOne
    requires s' == Goto(s, t, ExScan(s.cpus, 0)).(pending := 1)
    ensures LockOk(s')
  {
  }

  // start_exclusive: scanning

  /** While the owner scans, only it is in the locked part and nobody sleeps on exclusive_cond. */
  lemma {:induction false} ScanFacts(s: State, t: Tid, o: Option<Tid>)
    requires InvWith(s, o) && t in s.th && (s.th[t].pc.ExScan? || s.th[t].pc.ExMark?)
    ensures o == Some(t) && s.pending == 1 && Decrementers(s) == {}
    ensures forall u :: u in s.th && u != t ==> !HoldsLock(s.th[u].pc) && !Owns(s.th[u].pc)
    ensures s.th[t].pc.count == |Waiters(s)|
    ensures NoDuplicates(s.th[t].pc.rest) && forall c :: c in s.th[t].pc.rest ==> c in s.cpus && c in s.th
    ensures s.th[t].pc.ExMark? ==> s.th[t].pc.rest != [] && Owed(PcOf(s, s.th[t].pc.rest[0]))
  {
    assert Owns(s.th[t].pc);
    LockAlone(s, t);
  }

  /** Moves of the owner that keep pending_cpus positive and leave nobody newly asleep. */
  lemma {:induction false} OwnerParts(s: State, s': State, t: Tid, pc: PC, pending: int, o: Option<Tid>)
    requires t in s.th && o == Some(t) && InvWith(s, o) && pending > 0 && Owns(pc) && pc != ExSleepWait(false)
    requires s' == Goto(s, t, pc).(pending := pending)
    ensures OwnerOk(s', o) && SleepOk(s')
  {
    hide ThreadOk, CountOk, ScanOk, NoDuplicates, LockOk;
    forall u | u in s'.th && u != t ensures !Owns(s'.th[u].pc) {
      assert u in s.th && (Owns(s.th[u].pc) ==> o == Some(u));
    }
  }

  lemma {:induction false} ScanEndKeeps(s: State, s': State, t: Tid, o: Option<Tid>)
    requires InvWith(s, o) && t in s.th && s.th[t].pc.ExScan? && s.th[t].pc.rest == []
    requires s' == Goto(s, t, ExWait).(pending := s.th[t].pc.count + 1)
    ensures InvWith(s', o)
  {
    hide InvWith, Waiters, Decrementers;
    Facts(s, t, o);
    ScanFacts(s, t, o);
    OwnerParts(s, s', t, ExWait, s.th[t].pc.count + 1, o);
    ScanSets(s, s', t, ExWait);
    WriteKeeps(s, s', t, s'.th[t], s'.mutex, s'.pending, o);
  }

  lemma {:induction false} ScanSets(s: State, s': State, t: Tid, pc: PC)
    requires t in s.th && s'.th == s.th[t := s.th[t].(pc := pc)] && pc != EndDec && s.th[t].pc != EndDec
    ensures Waiters(s') == Waiters(s) && Decrementers(s') == Decrementers(s)
  {
  }

  lemma {:induction false} ScanHitKeeps(s: State, s': State, t: Tid, o: Option<Tid>)
    requires InvWith(s, o) && t in s.th && s.th[t].pc.ExScan? && s.th[t].pc.rest != []
    requires s.th[t].pc.rest[0] in s.th && s.th[s.th[t].pc.rest[0]].running
    requires s' == Goto(s, t, ExMark(s.th[t].pc.rest, s.th[t].pc.count))
    ensures InvWith(s', o)
  {
    hide InvWith, Waiters, Decrementers;
    Facts(s, t, o);
    Facts(s, s.th[t].pc.rest[0], o);
    ScanFacts(s, t, o);
    OwnerParts(s, s', t, s'.th[t].pc, 1, o);
    ScanSets(s, s', t, s'.th[t].pc);
    WriteKeeps(s, s', t, s'.th[t], s'.mutex, s'.pending, o);
  }

  /** The owner advances past rest[0], whose record may get has_waiter. */
  lemma {:induction false} AdvanceThread(s: State, s': State, t: Tid, mark: bool, u: Tid)
    requires t in s.th && u in s.th && (s.th[t].pc.ExScan? || s.th[t].pc.ExMark?)
    requires var rest := s.th[t].pc.rest;
      && rest != [] && NoDuplicates(rest) && rest[0] in s.th && rest[0] in s.cpus
      && s'.cpus == s.cpus && t in s'.th && s'.th[t].pc.ExScan?
      && s'.th == (if mark then s.th[rest[0] := s.th[rest[0]].(hasWaiter := true)] else s.th)
                  [t := s.th[t].(pc := ExScan(rest[1..], s'.th[t].pc.count))]
      && (mark ==> rest[0] != t && Owed(s.th[rest[0]].pc))
      && (!mark ==> !s.th[rest[0]].running && (rest[0] == t || !HoldsLock(s.th[rest[0]].pc)))
    requires ThreadOk(s, Some(t), u)
    ensures ThreadOk(s', Some(t), u)
  {
    hide NoDuplicates, HoldsLock, Owed, Committed, CpuPoint, RunFlag;
    var rest := s.th[t].pc.rest;
    TailMember(rest, u);
    ScanPoint(s.th[t].pc);
    ScanPoint(s'.th[t].pc);
    Uncommitted(s.th[u].pc);
  }

  lemma {:induction false} ScanPoint(pc: PC)
    requires pc.ExScan? || pc.ExMark? || pc == FinBroadcast || pc == FinUnlock
    ensures !RunFlag(pc) && !CpuPoint(pc) && !Owed(pc) && !Committed(pc)
  {
  }

  lemma {:induction false} Uncommitted(pc: PC)
    ensures !RunFlag(pc) && !HoldsLock(pc) ==> !Committed(pc)
    ensures Owed(pc) ==> CpuPoint(pc)
  {
  }

  lemma {:induction false} TailMember(rest: seq<Tid>, u: Tid)
    requires rest != [] && NoDuplicates(rest)
    ensures u in rest[1..] <==> u in rest && u != rest[0]
  {
    assert rest == [rest[0]] + rest[1..];
  }

  lemma {:induction false} AdvanceLock(s: State, s': State, t: Tid)
    requires t in s.th && LockOk(s) && HoldsLock(s.th[t].pc) && s'.mutex == s.mutex && s'.th.Keys == s.th.Keys
    requires HoldsLock(s'.th[t].pc) && forall u :: u in s.th && u != t ==> s'.th[u].pc == s.th[u].pc
    ensures LockOk(s')
  {
  }

  lemma {:induction false} AdvanceOwner(s: State, s': State, t: Tid)
    requires t in s.th && OwnerOk(s, Some(t)) && s'.pending == s.pending && s'.th.Keys == s.th.Keys
    requires Owns(s'.th[t].pc) && forall u :: u in s.th && u != t ==> s'.th[u].pc == s.th[u].pc
    ensures OwnerOk(s', Some(t))
  {
  }

  lemma {:induction false} AdvanceSleep(s: State, s': State, t: Tid)
    requires t in s.th && SleepOk(s) && s.pending == s'.pending == 1 && s'.th.Keys == s.th.Keys
    requires !s'.th[t].pc.ExSleepWait? && forall u :: u in s.th && u != t ==> s'.th[u].pc == s.th[u].pc && !Owns(s.th[u].pc)
    ensures SleepOk(s')
  {
    forall u | u in s'.th ensures s'.th[u].pc != ExSleepWait(false) {
      if u != t { assert !Owns(s.th[u].pc); }
    }
  }

  lemma {:induction false} AdvanceScan(s: State, s': State, t: Tid)
    requires t in s.th && t in s'.th && (s.th[t].pc.ExScan? || s.th[t].pc.ExMark?) && s'.th[t].pc.ExScan? &&
      s'.cpus == s.cpus
    requires s.th[t].pc.rest != [] && s'.th[t].pc.rest == s.th[t].pc.rest[1..]
    requires ScanOk(s, Some(t))
    ensures ScanOk(s', Some(t))
  {
    var rest := s.th[t].pc.rest;
    assert Unscanned(s.th[t].pc) == rest && Unscanned(s'.th[t].pc) == rest[1..];
  }

  /** One CPU done: it is either marked and counted, or not running. */
  lemma {:induction false} AdvanceKeeps(s: State, s': State, t: Tid, o: Option<Tid>, mark: bool)
    requires InvWith(s, o) && t in s.th && (s.th[t].pc.ExScan? || s.th[t].pc.ExMark?)
    requires var rest := s.th[t].pc.rest;
      && rest != [] && rest[0] in s.th
      && (if mark then s.th[t].pc.ExMark? else s.th[t].pc.ExScan? && !s.th[rest[0]].running)
      && s' == Goto(if mark then SetWaiter(s, rest[0], true) else s, t, ExScan(rest[1..], s.th[t].pc.count + if mark then 1 else 0))
    ensures InvWith(s', o)
  {
    hide NoDuplicates, OwnerOk, LockOk, ThreadOk, SleepOk, ScanOk, CountOk, HoldsLock, Owed, Waiters, Decrementers,
      Owns;
    var rest := s.th[t].pc.rest;
    var c := rest[0];
    ScanFacts(s, t, o);
    OwnerRunsNot(s, t, o);
    UnscannedUnmarked(s, t, o);
    AdvanceLock(s, s', t) by { ScanHolds(s.th[t].pc, s'.th[t].pc); }
    AdvanceOwner(s, s', t) by { ScanHolds(s.th[t].pc, s'.th[t].pc); }
    AdvanceSleep(s, s', t);
    AdvanceScan(s, s', t);
    forall u | u in s'.th ensures ThreadOk(s', o, u) {
      AdvanceThread(s, s', t, mark, u);
    }
    AdvanceCount(s, s', t, c, mark);
  }

  lemma {:induction false} ScanHolds(pc: PC, pc': PC)
    requires (pc.ExScan? || pc.ExMark?) && (pc'.ExScan? || pc'.ExMark?)
    ensures HoldsLock(pc) && HoldsLock(pc') && Owns(pc')
  {
  }

  /** The scanner is outside cpu_exec, so it never marks itself. */
  lemma {:induction false} OwnerRunsNot(s: State, t: Tid, o: Option<Tid>)
    requires InvWith(s, o) && t in s.th && (s.th[t].pc.ExScan? || s.th[t].pc.ExMark?) && s.th[t].pc.rest != []
    requires s.th[t].pc.ExMark? || (s.th[t].pc.rest[0] in s.th && !s.th[s.th[t].pc.rest[0]].running)
    ensures s.th[t].pc.ExMark? ==> s.th[t].pc.rest[0] != t
  {
    ScanFacts(s, t, o);
  }

  lemma {:induction false} UnscannedUnmarked(s: State, t: Tid, o: Option<Tid>)
    requires InvWith(s, o) && t in s.th && o == Some(t)
    ensures forall c :: c in Unscanned(s.th[t].pc) && c in s.th ==> !s.th[c].hasWaiter
  {
    forall c | c in Unscanned(s.th[t].pc) && c in s.th ensures !s.th[c].hasWaiter {
      assert ThreadOk(s, o, c);
    }
  }

  lemma {:induction false} AdvanceCount(s: State, s': State, t: Tid, c: Tid, mark: bool)
    requires t in s.th && c in s.th && s.pending == 1 && s'.pending == 1 && s'.th.Keys == s.th.Keys
    requires (s.th[t].pc.ExScan? || s.th[t].pc.ExMark?) && s.th[t].pc.count == |Waiters(s)| && !s.th[c].hasWaiter
    requires s'.th[t].pc.ExScan? && s'.th[t].pc.count == s.th[t].pc.count + if mark then 1 else 0
    requires forall u :: u in s.th ==> s'.th[u].hasWaiter == (s.th[u].hasWaiter || (mark && u == c))
    ensures CountOk(s', Some(t))
  {
    assert Waiters(s') == if mark then Waiters(s) + {c} else Waiters(s);
  }

  // end_exclusive

  /** When pending_cpus is 1 nobody is marked and nobody is about to decrement. */
  lemma {:induction false} AloneFacts(s: State, t: Tid, o: Option<Tid>)
    requires InvWith(s, o) && t in s.th && Alone(s.th[t].pc)
    ensures o == Some(t) && s.pending == 1
    ensures forall u :: u in s.th ==> !s.th[u].hasWaiter && s.th[u].pc != EndDec
  {
    hide ThreadOk, SleepOk, ScanOk, LockOk, NoDuplicates;
    assert Owns(s.th[t].pc);
    assert |Waiters(s)| == 0 && |Decrementers(s)| == 0;
    forall u | u in s.th ensures !s.th[u].hasWaiter && s.th[u].pc != EndDec {
      assert u !in Waiters(s) && u !in Decrementers(s);
    }
  }

  lemma {:induction false} ClearThread(s: State, s': State, t: Tid, u: Tid)
    requires t in s.th && u in s.th && s.th[t].pc == FinClear && ThreadOk(s, Some(t), u) && !s.th[u].hasWaiter &&
      s.th[u].pc != EndDec
    requires s' == Goto(s, t, FinBroadcast).(pending := 0) && (u != t ==> !HoldsLock(s.th[u].pc))
    ensures ThreadOk(s', None, u)
  {
  }

  lemma {:induction false} ClearKeeps(s: State, s': State, t: Tid, o: Option<Tid>)
    requires InvWith(s, o) && t in s.th && s.th[t].pc == FinClear
    requires s' == Goto(s, t, FinBroadcast).(pending := 0)
    ensures InvWith(s', None)
  {
    hide NoDuplicates, ThreadOk, ScanOk, CountOk, OwnerOk, LockOk, SleepOk, Waiters, Decrementers, Owns, HoldsLock;
    AloneFacts(s, t, o);
    ClearLock(s, s', t);
    ClearOwner(s, s', t);
    forall u | u in s'.th ensures ThreadOk(s', None, u) { ClearThread(s, s', t, u); }
    NoneOk(s');
  }

  lemma {:induction false} ClearLock(s: State, s': State, t: Tid)
    requires LockOk(s) && t in s.th && s.th[t].pc == FinClear && s' == Goto(s, t, FinBroadcast).(pending := 0)
    ensures LockOk(s') && s.mutex == Some(t) && forall u :: u in s.th && u != t ==> !HoldsLock(s.th[u].pc)
  {
    LockAlone(s, t);
  }

  lemma {:induction false} ClearOwner(s: State, s': State, t: Tid)
    requires OwnerOk(s, Some(t)) && t in s.th && s' == Goto(s, t, FinBroadcast).(pending := 0) && s.mutex == Some(t)
    ensures OwnerOk(s', None) && SleepOk(s')
  {
    forall u | u in s'.th ensures !Owns(s'.th[u].pc) {
      if u != t { assert u in s.th && (Owns(s.th[u].pc) ==> u == t); }
    }
  }

  lemma {:induction false} NoneOk(s: State)
    ensures CountOk(s, None) && ScanOk(s, None)
  {
  }

  lemma {:induction false} BroadcastThread(s: State, s': State, t: Tid, u: Tid)
    requires t in s.th && u in s.th && s.th[t].pc == FinBroadcast && ThreadOk(s, None, u)
    requires s' == Goto(Broadcast(s), t, FinUnlock)
    ensures ThreadOk(s', None, u)
  {
    hide Broadcast, Woken, RunFlag, CpuPoint, Owed, Committed;
    BroadcastAt(s, s', t, u);
    WokenSame(s.th[u]);
    ScanPoint(FinBroadcast);
    ScanPoint(FinUnlock);
  }

  lemma {:induction false} WokenSame(th: Thread)
    ensures Woken(th).running == th.running && Woken(th).hasWaiter == th.hasWaiter
    ensures RunFlag(Woken(th).pc) == RunFlag(th.pc) && CpuPoint(Woken(th).pc) == CpuPoint(th.pc)
    ensures Woken(th).pc == th.pc || th.pc.StartSleep? || th.pc.ExSleepIdle?
    ensures Woken(th).pc.StartSleep? == th.pc.StartSleep? && Woken(th).pc.ExSleepIdle? == th.pc.ExSleepIdle?
  {
  }

  lemma {:induction false} BroadcastAt(s: State, s': State, t: Tid, u: Tid)
    requires t in s.th && u in s.th && s.th[t].pc == FinBroadcast && s' == Goto(Broadcast(s), t, FinUnlock)
    ensures s'.cpus == s.cpus && u in s'.th
    ensures s'.th[u] == if u == t then s.th[t].(pc := FinUnlock) else Woken(s.th[u])
  {
  }

  lemma {:induction false} BroadcastPc(s: State, s': State, t: Tid, u: Tid)
    requires t in s.th && u in s.th && s.th[t].pc == FinBroadcast && s' == Goto(Broadcast(s), t, FinUnlock)
    ensures u in s'.th
    ensures HoldsLock(s'.th[u].pc) == HoldsLock(s.th[u].pc) && Owns(s'.th[u].pc) == Owns(s.th[u].pc)
    ensures s'.th[u].pc != StartSleep(false) && s'.th[u].pc != ExSleepIdle(false)
  {
    BroadcastAt(s, s', t, u);
    hide Broadcast;
  }

  lemma {:induction false} BroadcastPcs(s: State, s': State, t: Tid)
    requires t in s.th && s.th[t].pc == FinBroadcast && s' == Goto(Broadcast(s), t, FinUnlock)
    ensures s'.th.Keys == s.th.Keys && s'.mutex == s.mutex && s'.pending == s.pending && s'.cpus == s.cpus
    ensures forall u :: u in s.th ==>
              && HoldsLock(s'.th[u].pc) == HoldsLock(s.th[u].pc) && Owns(s'.th[u].pc) == Owns(s.th[u].pc)
              && s'.th[u].pc != StartSleep(false) && s'.th[u].pc != ExSleepIdle(false)
  {
    hide HoldsLock, Owns;
    forall u | u in s.th
      ensures u in s'.th
      ensures HoldsLock(s'.th[u].pc) == HoldsLock(s.th[u].pc) && Owns(s'.th[u].pc) == Owns(s.th[u].pc)
      ensures s'.th[u].pc != StartSleep(false) && s'.th[u].pc != ExSleepIdle(false)
    {
      BroadcastPc(s, s', t, u);
    }
  }

  lemma {:induction false} BroadcastKeeps(s: State, s': State, t: Tid, o: Option<Tid>)
    requires InvWith(s, o) && t in s.th && s.th[t].pc == FinBroadcast
    requires s' == Goto(Broadcast(s), t, FinUnlock)
    ensures InvWith(s', None)
  {
    hide NoDuplicates, ThreadOk, ScanOk, Waiters, Decrementers, Broadcast, HoldsLock, Owns;
    Facts(s, t, o);
    BroadcasterOwnsNot(s, t, o);
    BroadcastPcs(s, s', t);
    forall u | u in s'.th ensures ThreadOk(s', None, u) { BroadcastThread(s, s', t, u); }
    NoneOk(s');
    forall u | u in s'.th ensures s'.th[u].pc != ExSleepWait(false) {
      SleeperOwns(s'.th[u].pc);
    }
  }

  lemma {:induction false} SleeperOwns(pc: PC)
    ensures pc.ExSleepWait? ==> Owns(pc)
  {
  }

  lemma {:induction false} BroadcasterOwnsNot(s: State, t: Tid, o: Option<Tid>)
    requires t in s.th && (o.Some? ==> o.value in s.th) && ThreadOk(s, o, t) && s.th[t].pc == FinBroadcast
    ensures o == None
  {
  }

  /** Points of start_exclusive and end_exclusive where the thread does not own the section. */
  predicate Outsider(pc: PC) {
    match pc
    case Idle | ExLock | ExIdle | ExSleepIdle(_) | ExRelockIdle | ExSetOne | FinUnlock => true
    case _ => false
  }

  lemma {:induction false} OutsiderIs(pc: PC)
    requires Outsider(pc)
    ensures !CpuPoint(pc) && !Owns(pc) && !Owed(pc) && pc != FinBroadcast && pc != EndDec && pc != EndSignal
    ensures !pc.StartSleep? && !pc.ExSleepWait?
  {
  }

  lemma {:induction false} OutsiderThread(s: State, s': State, t: Tid, pc: PC, m: Option<Tid>, o: Option<Tid>)
    requires t in s.th && s' == Goto(s, t, pc).(mutex := m) && (o.Some? ==> o.value in s.th && o.value != t)
    requires !CpuPoint(pc) && !CpuPoint(s.th[t].pc) && ThreadOk(s, o, t)
    requires pc != FinBroadcast && pc != FinUnlock && (pc == ExSetOne ==> o == None)
    ensures ThreadOk(s', o, t)
  {
  }

  /** A move between points outside cpu_exec by a thread that is not the owner. */
  lemma {:induction false} OutsiderMove(s: State, s': State, t: Tid, pc: PC, m: Option<Tid>, o: Option<Tid>)
    requires InvWith(s, o) && t in s.th && s' == Goto(s, t, pc).(mutex := m) && LockMove(s, t, pc, m)
    requires Outsider(s.th[t].pc) && Outsider(pc) && pc != FinUnlock
    requires pc == ExSetOne ==> s.pending == 0
    requires pc == ExSleepIdle(false) ==> s.pending > 0
    ensures InvWith(s', o)
  {
    hide InvWith, LockMove, ThreadOk, Outsider, CpuPoint, Owns, Owed, HoldsLock;
    Facts(s, t, o);
    OutsiderIs(pc);
    OutsiderIs(s.th[t].pc);
    OutsiderThread(s, s', t, pc, m, o);
    MoveKeeps(s, s', t, s'.th[t], m, o);
  }

  lemma {:induction false} EnterKeeps(s: State, s': State, t: Tid, o: Option<Tid>)
    requires InvWith(s, o) && t in s.th && ExclusiveStep(s, s', t)
    requires var pc := s.th[t].pc; pc.Idle? || pc.ExLock? || pc.ExRelockIdle?
    ensures InvWith(s', o)
  {
    hide InvWith, ThreadOk;
    Facts(s, t, o);
    if s.th[t].pc == Idle {
      OutsiderMove(s, s', t, ExLock, s.mutex, o);
    } else {
      OutsiderMove(s, s', t, ExIdle, Some(t), o);
    }
  }

  lemma {:induction false} IdleKeeps(s: State, s': State, t: Tid, o: Option<Tid>)
    requires InvWith(s, o) && t in s.th && ExclusiveStep(s, s', t)
    requires var pc := s.th[t].pc; pc.ExIdle?
    ensures InvWith(s', o)
  {
    hide InvWith, ThreadOk;
    Facts(s, t, o);
    if s.pending != 0 {
      OutsiderMove(s, s', t, ExSleepIdle(false), None, o);
    } else {
      OutsiderMove(s, s', t, ExSetOne, s.mutex, o);
    }
  }

  lemma {:induction false} LeaveKeeps(s: State, s': State, t: Tid, o: Option<Tid>)
    requires InvWith(s, o) && t in s.th && ExclusiveStep(s, s', t)
    requires var pc := s.th[t].pc; pc.ExSleepIdle? || pc.FinUnlock?
    ensures InvWith(s', o)
  {
    hide InvWith, ThreadOk;
    Facts(s, t, o);
    if s.th[t].pc == FinUnlock {
      OutsiderMove(s, s', t, Idle, None, o);
    } else {
      OutsiderMove(s, s', t, ExRelockIdle, s.mutex, o);
    }
  }

  /** A move of the owner after its scan. */
  lemma {:induction false} OwnerMove(s: State, s': State, t: Tid, pc: PC, m: Option<Tid>, o: Option<Tid>)
    requires InvWith(s, o) && t in s.th && s' == Goto(s, t, pc).(mutex := m) && LockMove(s, t, pc, m)
    requires PastScan(pc) && PastScan(s.th[t].pc)
    requires Alone(pc) ==> s.pending == 1
    requires pc == ExSleepWait(false) ==> s.pending > 1
    ensures InvWith(s', o)
  {
    hide InvWith, LockMove;
    Facts(s, t, o);
    MoveKeeps(s, s', t, s'.th[t], m, o);
  }

  lemma {:induction false} OwnerKeeps(s: State, s': State, t: Tid, o: Option<Tid>)
    requires InvWith(s, o) && t in s.th && ExclusiveStep(s, s', t)
    requires PastScan(s.th[t].pc) && !s.th[t].pc.FinClear?
    ensures InvWith(s', o)
  {
    hide InvWith;
    Facts(s, t, o);
    hide ThreadOk;
    if Alone(s.th[t].pc) { AloneFacts(s, t, o); }
    OwnerMove(s, s', t, s'.th[t].pc, s'.mutex, o);
  }

  lemma {:induction false} ExclusiveKeeps(s: State, s': State, t: Tid, o: Option<Tid>) returns (o': Option<Tid>)
    requires InvWith(s, o) && t in s.th && ExclusiveStep(s, s', t)
    ensures InvWith(s', o')
  {
    hide InvWith;
    o' := o;
    var pc := s.th[t].pc;
    if pc == ExSetOne {
      SetOneKeeps(s, s', t, o);
      o' := Some(t);
    } else if pc.ExScan? {
      if pc.rest == [] {
        ScanEndKeeps(s, s', t, o);
      } else if s.th[pc.rest[0]].running {
        ScanHitKeeps(s, s', t, o);
      } else {
        AdvanceKeeps(s, s', t, o, false);
      }
    } else if pc.ExMark? {
      AdvanceKeeps(s, s', t, o, true);
    } else if pc == FinClear {
      ClearKeeps(s, s', t, o);
      o' := None;
    } else if pc == FinBroadcast {
      BroadcastKeeps(s, s', t, o);
      o' := None;
    } else if PastScan(pc) {
      OwnerKeeps(s, s', t, o);
    } else if pc == ExIdle {
      IdleKeeps(s, s', t, o);
    } else if pc == FinUnlock || pc.ExSleepIdle? {
      LeaveKeeps(s, s', t, o);
    } else {
      EnterKeeps(s, s', t, o);
    }
  }

  lemma {:induction false} NextKeeps(s: State, s': State, t: Tid)
    requires Inv(s) && Next(s, s', t)
    ensures Inv(s')
  {
    hide InvWith, StartStep, EndStep, ExclusiveStep;
    var o :| InvWith(s, o);
    if StartStep(s, s', t) {
      StartKeeps(s, s', t, o);
    } else if EndStep(s, s', t) {
      EndKeeps(s, s', t, o);
    } else {
      var o' := ExclusiveKeeps(s, s', t, o);
    }
  }

  // ---------------------------------------------------------------- whole runs

  /** A run: a start state and, at each position, the thread that moves and the state after it. */
  ghost predicate Run(states: seq<State>, movers: seq<Tid>) {
    && |states| == |movers| + 1 && Init(states[0])
    && forall i :: 0 <= i < |movers| ==> Next(states[i], states[i + 1], movers[i])
  }

  lemma {:induction false} RunInv(states: seq<State>, movers: seq<Tid>, i: nat)
    requires Run(states, movers) && i < |states|
    ensures Inv(states[i])
  {
    hide Inv, Next, Init;
    if i == 0 {
      InitInv(states[0]);
    } else {
      RunInv(states, movers, i - 1);
      assert Next(states[i - 1], states[i], movers[i - 1]);
      NextKeeps(states[i - 1], states[i], movers[i - 1]);
    }
  }

  /** Between start_exclusive and end_exclusive no CPU executes and no other thread is exclusive. */
  lemma {:induction false} ExclusiveSafety(states: seq<State>, movers: seq<Tid>, i: nat, t: Tid, u: Tid)
    requires Run(states, movers) && i < |states| && t in states[i].th && u in states[i].th && t != u
    requires states[i].th[t].pc == Exclusive
    ensures states[i].th[u].pc != Exec && states[i].th[u].pc != Exclusive
  {
    RunInv(states, movers, i);
    var o :| InvWith(states[i], o);
    AloneFacts(states[i], t, o);
    assert ThreadOk(states[i], o, u);
  }

  /** Once the scan is over, pending_cpus is 1 plus the CPUs that still owe a decrement. */
  lemma {:induction false} ExactCount(states: seq<State>, movers: seq<Tid>, i: nat, t: Tid)
    requires Run(states, movers) && i < |states| && t in states[i].th && PastScan(states[i].th[t].pc)
    ensures states[i].pending == 1 + |Waiters(states[i])| + |Decrementers(states[i])|
    ensures |Decrementers(states[i])| <= 1
    ensures forall u :: u in states[i].th && states[i].th[u].hasWaiter ==> Owed(states[i].th[u].pc)
  {
    RunInv(states, movers, i);
    var s := states[i];
    var o :| InvWith(s, o);
    assert Owns(s.th[t].pc);
    forall u | u in s.th && s.th[u].hasWaiter ensures Owed(s.th[u].pc) { assert ThreadOk(s, o, u); }
    if d :| d in Decrementers(s) {
      LockAlone(s, d);
      assert Decrementers(s) == {d};
    }
  }

  /** The decrement of cpu_exec_end never takes pending_cpus below 1. */
  lemma {:induction false} DecrementSafe(states: seq<State>, movers: seq<Tid>, i: nat)
    requires Run(states, movers) && i < |movers|
    requires movers[i] in states[i].th && states[i].th[movers[i]].pc == EndDec
    ensures states[i + 1].pending == states[i].pending - 1 && states[i + 1].pending >= 1
  {
    RunInv(states, movers, i);
    hide InvWith, Init;
    var o :| InvWith(states[i], o);
    var s, s', t := states[i], states[i + 1], movers[i];
    assert Next(s, s', t);
    EndDecIs(s, s', t);
    EndDecKeeps(s, s', t, o);
  }

  lemma {:induction false} EndDecIs(s: State, s': State, t: Tid)
    requires Next(s, s', t) && s.th[t].pc == EndDec
    ensures s' == Goto(s, t, EndSignal).(pending := s.pending - 1)
  {
  }

  /** No lost wake-up: an unsignalled sleeper is still waiting for something that has not happened. */
  lemma {:induction false} NoLostWakeup(states: seq<State>, movers: seq<Tid>, i: nat, t: Tid)
    requires Run(states, movers) && i < |states| && t in states[i].th && states[i].mutex == None
    ensures states[i].th[t].pc == ExSleepWait(false) ==>
              states[i].pending > 1 && exists u :: u in states[i].th && states[i].th[u].hasWaiter && Owed(states[i].th[u].pc)
    ensures states[i].th[t].pc == StartSleep(false) || states[i].th[t].pc == ExSleepIdle(false) ==>
              states[i].pending > 0 && exists u :: u in states[i].th && Owns(states[i].th[u].pc)
  {
    RunInv(states, movers, i);
    hide Run, ThreadOk, ScanOk, NoDuplicates, CountOk;
    var s := states[i];
    var o :| InvWith(s, o);
    if s.th[t].pc == ExSleepWait(false) {
      assert Owns(s.th[t].pc) && s.pending > 1;
      ExactCount(states, movers, i, t);
      assert Decrementers(s) == {} by {
        forall d | d in s.th ensures s.th[d].pc != EndDec { assert HoldsLock(s.th[d].pc) <==> s.mutex == Some(d); }
      }
      var u :| u in Waiters(s);
      assert s.th[u].hasWaiter;
    }
  }

  // ---------------------------------------------------------------- absence of deadlock

  /** Asleep, and nobody has signalled yet; only a spurious wake-up would let the thread go on. */
  predicate Asleep(pc: PC) {
    pc == StartSleep(false) || pc == ExSleepIdle(false) || pc == ExSleepWait(false)
  }

  /** The thread is inside one of the functions, not asleep, and has a step that it can make. */
  ghost predicate CanGoOn(s: State, t: Tid) {
    t in s.th && s.th[t].pc != Idle && !Asleep(s.th[t].pc) && exists s' :: Next(s, s', t)
  }

  lemma {:induction false} GoesOn(s: State, s': State, t: Tid)
    requires Next(s, s', t) && s.th[t].pc != Idle && !Asleep(s.th[t].pc)
    ensures CanGoOn(s, t)
  {
  }

  /** Whoever holds the lock can go on. */
  lemma {:induction false} HolderGoesOn(s: State, t: Tid, o: Option<Tid>)
    requires InvWith(s, o) && t in s.th && s.mutex == Some(t)
    ensures CanGoOn(s, t)
  {
    Facts(s, t, o);
    var pc := s.th[t].pc;
    if pc.ExScan? || pc.ExMark? {
      ScanGoesOn(s, t, o);
    } else if pc == EndSignal {
      SignalGoesOn(s, t);
    } else {
      hide InvWith;
      LockedGoesOn(s, t);
    }
  }

  lemma {:induction false} LockedGoesOn(s: State, t: Tid)
    requires t in s.th && HoldsLock(s.th[t].pc)
    requires !s.th[t].pc.ExScan? && !s.th[t].pc.ExMark? && s.th[t].pc != EndSignal
    ensures CanGoOn(s, t)
  {
    var pc := s.th[t].pc;
    if pc.StartCheck? || pc.StartIdle? || pc.StartSet? || pc.StartUnlock? {
      var s' := if pc.StartCheck? then
          (if !s.th[t].hasWaiter then SetRunning(s, t, false, StartIdle) else Goto(s, t, StartUnlock))
        else if pc.StartIdle? then
          (if s.pending != 0 then Goto(s, t, StartSleep(false)).(mutex := None) else Goto(s, t, StartSet))
        else if pc.StartSet? then SetRunning(s, t, true, StartUnlock)
        else Goto(s, t, Exec).(mutex := None);
      assert StartStep(s, s', t);
      GoesOn(s, s', t);
    } else if pc.EndCheck? || pc.EndDec? || pc.EndUnlock? {
      var s' := if pc.EndCheck? then
          (if s.th[t].hasWaiter then Goto(SetWaiter(s, t, false), t, EndDec) else Goto(s, t, EndUnlock))
        else if pc.EndDec? then Goto(s, t, EndSignal).(pending := s.pending - 1)
        else Goto(s, t, Idle).(mutex := None);
      assert EndStep(s, s', t);
      GoesOn(s, s', t);
    } else {
      var s' := if pc.ExIdle? then
          (if s.pending != 0 then Goto(s, t, ExSleepIdle(false)).(mutex := None) else Goto(s, t, ExSetOne))
        else if pc.ExSetOne? then Goto(s, t, ExScan(s.cpus, 0)).(pending := 1)
        else if pc.ExWait? then
          (if s.pending > 1 then Goto(s, t, ExSleepWait(false)).(mutex := None) else Goto(s, t, ExUnlock))
        else if pc.ExUnlock? then Goto(s, t, Exclusive).(mutex := None)
        else if pc.FinClear? then Goto(s, t, FinBroadcast).(pending := 0)
        else if pc.FinBroadcast? then Goto(Broadcast(s), t, FinUnlock)
        else Goto(s, t, Idle).(mutex := None);
      assert ExclusiveStep(s, s', t);
      GoesOn(s, s', t);
    }
  }

  lemma {:induction false} ScanGoesOn(s: State, t: Tid, o: Option<Tid>)
    requires InvWith(s, o) && t in s.th && (s.th[t].pc.ExScan? || s.th[t].pc.ExMark?)
    ensures CanGoOn(s, t)
  {
    hide NoDuplicates, OwnerOk, LockOk, ThreadOk, SleepOk, Waiters, Decrementers;
    assert o == Some(t) by { OwnerIsScanner(s, t, o); }
    var rest, count := s.th[t].pc.rest, s.th[t].pc.count;
    if rest != [] { assert rest[0] in s.cpus && rest[0] in s.th; }
    var s' := if s.th[t].pc.ExMark? then Goto(SetWaiter(s, rest[0], true), t, ExScan(rest[1..], count + 1))
      else if rest == [] then Goto(s, t, ExWait).(pending := count + 1)
      else Goto(s, t, if s.th[rest[0]].running then ExMark(rest, count) else ExScan(rest[1..], count));
    assert ExclusiveStep(s, s', t);
    GoesOn(s, s', t);
  }

  lemma {:induction false} OwnerIsScanner(s: State, t: Tid, o: Option<Tid>)
    requires OwnerOk(s, o) && t in s.th && Owns(s.th[t].pc)
    ensures o == Some(t)
  {
  }

  lemma {:induction false} SignalGoesOn(s: State, t: Tid)
    requires t in s.th && s.th[t].pc == EndSignal
    ensures CanGoOn(s, t)
  {
    var s1 := Goto(s, t, EndUnlock);
    if s.pending == 1 && exists w :: w in s1.th && s1.th[w].pc.ExSleepWait? {
      var w :| w in s1.th && s1.th[w].pc.ExSleepWait?;
      assert Signal(s1, Goto(s1, w, ExSleepWait(true)));
      GoesOn(s, Goto(s1, w, ExSleepWait(true)), t);
    } else {
      GoesOn(s, s1, t);
    }
  }

  /** While the lock is free, whoever does not hold it, is not asleep and is not idle can go on. */
  lemma {:induction false} FreeGoesOn(s: State, t: Tid)
    requires t in s.th && s.mutex == None && s.th[t].pc != Idle && !Asleep(s.th[t].pc) && !HoldsLock(s.th[t].pc)
    ensures CanGoOn(s, t)
  {
    var pc := s.th[t].pc;
    if pc.StartRead? || pc.StartLock? || pc.StartSleep? || pc.StartRelock? {
      var s' := if pc.StartRead? then Goto(s, t, if s.pending != 0 then StartLock else Exec)
        else if pc.StartLock? then Goto(s, t, StartCheck).(mutex := Some(t))
        else if pc.StartSleep? then Goto(s, t, StartRelock)
        else Goto(s, t, StartIdle).(mutex := Some(t));
      assert StartStep(s, s', t);
      GoesOn(s, s', t);
    } else if pc.Exec? || pc.EndRead? || pc.EndLock? {
      var s' := if pc.Exec? then SetRunning(s, t, false, EndRead)
        else if pc.EndRead? then Goto(s, t, if s.pending != 0 then EndLock else Idle)
        else Goto(s, t, EndCheck).(mutex := Some(t));
      assert EndStep(s, s', t);
      GoesOn(s, s', t);
    } else {
      var s' := if pc.ExLock? then Goto(s, t, ExIdle).(mutex := Some(t))
        else if pc.ExSleepIdle? then Goto(s, t, ExRelockIdle)
        else if pc.ExRelockIdle? then Goto(s, t, ExIdle).(mutex := Some(t))
        else if pc.ExSleepWait? then Goto(s, t, ExRelockWait)
        else if pc.ExRelockWait? then Goto(s, t, ExWait).(mutex := Some(t))
        else if pc.Exclusive? then Goto(s, t, FinLock)
        else Goto(s, t, FinClear).(mutex := Some(t));
      assert ExclusiveStep(s, s', t);
      GoesOn(s, s', t);
    }
  }

  /**
   * No deadlock: as long as any thread is inside one of the functions, some thread inside can go on, and no spurious
   * wake-up is needed for it.
   */
  lemma {:induction false} NoDeadlock(states: seq<State>, movers: seq<Tid>, i: nat, t: Tid)
    requires Run(states, movers) && i < |states| && t in states[i].th && states[i].th[t].pc != Idle
    ensures exists u :: CanGoOn(states[i], u)
  {
    hide Run, CanGoOn, InvWith;
    var s := states[i];
    RunInv(states, movers, i);
    var o :| InvWith(s, o);
    if s.mutex.Some? {
      assert s.mutex.value in s.th by { HolderExists(s, o); }
      HolderGoesOn(s, s.mutex.value, o);
    } else {
      var u := Awake(states, movers, i, t);
      Facts(s, u, o);
      FreeGoesOn(s, u);
    }
  }

  lemma {:induction false} HolderExists(s: State, o: Option<Tid>)
    requires InvWith(s, o) && s.mutex.Some?
    ensures s.mutex.value in s.th
  {
  }

  /** With the lock free, somebody inside is awake: the sleeper itself, or one that its wake-up depends on. */
  lemma {:induction false} Awake(states: seq<State>, movers: seq<Tid>, i: nat, t: Tid) returns (u: Tid)
    requires Run(states, movers) && i < |states| && t in states[i].th && states[i].th[t].pc != Idle
    requires states[i].mutex == None
    ensures u in states[i].th && states[i].th[u].pc != Idle && !Asleep(states[i].th[u].pc)
  {
    hide Run;
    var s := states[i];
    u := t;
    NoLostWakeup(states, movers, i, u);
    if s.th[u].pc == StartSleep(false) || s.th[u].pc == ExSleepIdle(false) {
      u :| u in s.th && Owns(s.th[u].pc);
      NoLostWakeup(states, movers, i, u);
    }
    if s.th[u].pc == ExSleepWait(false) {
      u :| u in s.th && s.th[u].hasWaiter && Owed(s.th[u].pc);
    }
  }
}
