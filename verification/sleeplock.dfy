/**
 kernel/sleeplock.c: acquiresleep and releasesleep of one sleep-lock, run by any
 number of processes, on the sleep/wakeup protocol of module Sleep. The inner
 spinlock is the protocol's lk and the lock's address its only channel.
 */
module SleepLock {
  import opened Common
  import opened Sleep

  datatype Chan = LockAddr

  datatype Pc =
    | Idle         // not in either function, not holding the sleep-lock
    | Testing      // in acquiresleep's while loop
    | Took         // locked and pid are set
    | Holding      // has returned from acquiresleep
    | Clearing     // in releasesleep, before locked is cleared
    | Unset        // before wakeup
    | Woke         // in or after wakeup

  /** pids[i] is the pid of process i; owner tells who set locked. */
  datatype Lock = SleepLock(k: Kernel<Chan>, pc: seq<Pc>, pids: seq<nat>, locked: bool, pid: nat, owner: Option<nat>)

  datatype Op =
    | Begin(i: nat)        // takes the inner lock in acquiresleep
    | Wait(i: nat)         // locked: sleep
    | Take(i: nat)         // not locked: set locked and pid
    | Return(i: nat)       // gives the inner lock back
    | BeginRelease(i: nat)
    | Clear(i: nat)        // clears locked and pid
    | Wake(i: nat)
    | Finish(i: nat)
    | Inner(s: Step<Chan>) // a step inside sleep or wakeup, of the scheduler, of kill, or not involving the lock

  /** Steps of the protocol that are not calls made by the two functions. */
  predicate IsInner(s: Step<Chan>) {
    s.LockSelf? || s.Fall? || s.Doze? || s.Switch? || s.Kill? || s.Schedule? || s.Tidy? || s.Reacquire?
    || s.WakeNext? || s.WakeDone? || s.Elsewhere?
  }

  function At(l: Lock, i: nat): Option<Pc> {
    if i < |l.pc| then Some(l.pc[i]) else None
  }

  predicate InPhase(l: Lock, i: nat) {
    i < |l.k.procs| && l.k.procs[i].phase.In?
  }

  predicate Allowed(l: Lock, op: Op) {
    match op
    case Begin(i) => At(l, i) == Some(Idle) && Enabled(l.k, Acquire(i))
    case Wait(i) => At(l, i) == Some(Testing) && l.locked && Enabled(l.k, CallSleep(i, LockAddr))
    case Take(i) => At(l, i) == Some(Testing) && !l.locked && InPhase(l, i) && i < |l.pids|
    case Return(i) => At(l, i) == Some(Took) && Enabled(l.k, Release(i))
    case BeginRelease(i) => At(l, i) == Some(Holding) && Enabled(l.k, Acquire(i))
    case Clear(i) => At(l, i) == Some(Clearing) && Enabled(l.k, Owe(i, {LockAddr}))
    case Wake(i) => At(l, i) == Some(Unset) && Enabled(l.k, CallWakeup(i, LockAddr))
    case Finish(i) => At(l, i) == Some(Woke) && Enabled(l.k, Release(i))
    case Inner(s) => IsInner(s) && Enabled(l.k, s)
  }

  function Do(l: Lock, op: Op): (l': Lock)
    requires Allowed(l, op)
  {
    match op
    case Begin(i) => l.(k := Apply(l.k, Acquire(i)), pc := l.pc[i := Testing])
    case Wait(i) => l.(k := Apply(l.k, CallSleep(i, LockAddr)))
    case Take(i) => l.(locked := true, pid := l.pids[i], owner := Some(i), pc := l.pc[i := Took])
    case Return(i) => l.(k := Apply(l.k, Release(i)), pc := l.pc[i := Holding])
    case BeginRelease(i) => l.(k := Apply(l.k, Acquire(i)), pc := l.pc[i := Clearing])
    case Clear(i) => l.(k := Apply(l.k, Owe(i, {LockAddr})), locked := false, pid := 0, owner := None,
                        pc := l.pc[i := Unset])
    case Wake(i) => l.(k := Apply(l.k, CallWakeup(i, LockAddr)), pc := l.pc[i := Woke])
    case Finish(i) => l.(k := Apply(l.k, Release(i)), pc := l.pc[i := Idle])
    case Inner(s) => l.(k := Apply(l.k, s))
  }

  /** Sleeping on the lock is right exactly while it is taken. */
  function Good(l: Lock): set<Chan> {
    if l.locked then {LockAddr} else {}
  }

  predicate Owns(pc: Pc) {
    pc == Took || pc == Holding || pc == Clearing
  }

  /** The phases of the protocol in which a process can be, for each place in the two functions. */
  predicate PhaseFits(pc: Pc, ph: Phase<Chan>) {
    match pc
    case Idle => ph.Out?
    case Holding => ph.Out?
    case Testing => !ph.Out? && !ph.Waking? && !ph.LeaveLocked? && !ph.Leaving? && !ph.Left?
        && (ph.In? ==> ph.owes == {})
    case Took => ph.In? && ph.owes == {}
    case Clearing => ph.In? && ph.owes == {}
    case Unset => ph.In? && ph.owes == {LockAddr}
    case Woke => (ph.In? && ph.owes == {}) || ph.Waking?
  }

  predicate PidsOk(pids: seq<nat>) {
    (forall i :: 0 <= i < |pids| ==> pids[i] != 0) && forall i, j :: 0 <= i < j < |pids| ==> pids[i] != pids[j]
  }

  ghost predicate OwnerOk(l: Lock) {
    && (l.locked <==> l.owner.Some?)
    && l.pid == (if l.owner.Some? && l.owner.value < |l.pids| then l.pids[l.owner.value] else 0)
    && forall i :: 0 <= i < |l.pc| ==> (Owns(l.pc[i]) <==> l.owner == Some(i))
  }

  ghost predicate Invariant(l: Lock) {
    && KernelOk(l.k) && NoLost(l.k, Good(l))
    && |l.pc| == |l.pids| == |l.k.procs| && PidsOk(l.pids)
    && (forall i :: 0 <= i < |l.pc| ==> PhaseFits(l.pc[i], l.k.procs[i].phase))
    && OwnerOk(l) && (l.owner.Some? ==> l.owner.value < |l.pc|)
  }

  // ----- every step keeps the invariant

  function KernelStep(op: Op): Step<Chan> {
    match op
    case Begin(i) => Acquire(i)
    case Wait(i) => CallSleep(i, LockAddr)
    case Take(i) => Owe(i, {})
    case Return(i) => Release(i)
    case BeginRelease(i) => Acquire(i)
    case Clear(i) => Owe(i, {LockAddr})
    case Wake(i) => CallWakeup(i, LockAddr)
    case Finish(i) => Release(i)
    case Inner(s) => s
  }

  lemma StepPhases(l: Lock, op: Op, j: nat)
    requires Invariant(l) && Allowed(l, op) && j < |l.pc|
    ensures var l' := Do(l, op); |l'.k.procs| == |l.pc| && |l'.pc| == |l.pc| && PhaseFits(l'.pc[j], l'.k.procs[j].phase)
  {
    hide KernelOk, NoLost, OwnerOk;
    var s := KernelStep(op);
    if j != s.i {
      hide PhaseFits, Apply;
      if !op.Take? {
        StepMovesOne(l.k, s, j);
      }
    } else {
      ActorPhase(l, op);
    }
  }

  lemma ActorPhase(l: Lock, op: Op)
    requires Invariant(l) && Allowed(l, op)
    ensures var l', i := Do(l, op), KernelStep(op).i;
            |l'.k.procs| == |l.pc| && |l'.pc| == |l.pc| && i < |l.pc| && PhaseFits(l'.pc[i], l'.k.procs[i].phase)
  {
    hide KernelOk, NoLost, OwnerOk;
    var i := KernelStep(op).i;
    assert PhaseFits(l.pc[i], l.k.procs[i].phase);
    if op.Inner? {
      InnerPhase(l.k, op.s, l.pc[i]);
    } else {
      OuterPhase(l, op);
    }
  }

  lemma InnerPhase(k: Kernel<Chan>, s: Step<Chan>, pc: Pc)
    requires IsInner(s) && Enabled(k, s) && PhaseFits(pc, k.procs[s.i].phase)
    ensures PhaseFits(pc, Apply(k, s).procs[s.i].phase)
  {
    hide Woken;
    if s.WakeDone? {
      OneChannel(k.procs[s.i].phase.owes, k.procs[s.i].phase.chan);
    }
  }

  lemma OuterPhase(l: Lock, op: Op)
    requires Allowed(l, op) && !op.Inner? && |l.pc| == |l.k.procs| && PhaseFits(l.pc[op.i], l.k.procs[op.i].phase)
    ensures var l' := Do(l, op);
            |l'.k.procs| == |l.pc| && |l'.pc| == |l.pc| && PhaseFits(l'.pc[op.i], l'.k.procs[op.i].phase)
  {
    hide Woken;
  }

  lemma OneChannel(owes: set<Chan>, c: Chan)
    ensures owes - {c} == {}
  {
    forall d | d in owes
      ensures d == c
    {
      assert d == LockAddr && c == LockAddr;
    }
  }

  /** Only the holder of the inner lock tests or changes locked. */
  lemma OwnerAlone(l: Lock, op: Op)
    requires Invariant(l) && Allowed(l, op)
    ensures OwnerOk(Do(l, op))
  {
    hide KernelOk, NoLost, PhaseFits, Apply, Enabled;
    match op
    case Take(i) =>
    case Clear(i) => assert Owns(l.pc[i]);
    case _ =>
  }

  lemma StepNoLost(l: Lock, op: Op)
    requires Invariant(l) && Allowed(l, op)
    ensures KernelOk(Do(l, op).k) && NoLost(Do(l, op).k, Good(Do(l, op)))
  {
    hide KernelOk, NoLost;
    if op.Take? {
      assert l.k.procs[op.i].phase.In?;
      WriteKeepsNoLost(l.k, op.i, Good(l), {LockAddr});
    } else {
      StepKeepsKernel(l.k, KernelStep(op));
      StepKeepsNoLost(l.k, KernelStep(op), Good(l));
      if op.Clear? {
        WriteKeepsNoLost(Do(l, op).k, op.i, Good(l), {});
      }
    }
  }

  lemma StepKeeps(l: Lock, op: Op)
    requires Invariant(l) && Allowed(l, op)
    ensures Invariant(Do(l, op))
  {
    hide KernelOk, NoLost, PhaseFits, OwnerOk;
    forall j | 0 <= j < |l.pc|
      ensures |Do(l, op).k.procs| == |l.pc| && |Do(l, op).pc| == |l.pc|
      ensures PhaseFits(Do(l, op).pc[j], Do(l, op).k.procs[j].phase)
    {
      StepPhases(l, op, j);
    }
    OwnerAlone(l, op);
    StepNoLost(l, op);
  }

  // ----- runs

  predicate Legal(l: Lock, ops: seq<Op>)
    decreases |ops|, 0
  {
    ops == [] || (Legal(l, ops[..|ops| - 1]) && Allowed(After(l, ops[..|ops| - 1]), ops[|ops| - 1]))
  }

  function After(l: Lock, ops: seq<Op>): Lock
    requires Legal(l, ops)
    decreases |ops|, 1
  {
    if ops == [] then l else Do(After(l, ops[..|ops| - 1]), ops[|ops| - 1])
  }

  /** initsleeplock, before any process uses the lock. */
  predicate Fresh(l: Lock) {
    && !l.locked && l.pid == 0 && l.owner == None && l.k.lk == None
    && |l.pc| == |l.pids| == |l.k.procs| && PidsOk(l.pids)
    && (forall i :: 0 <= i < |l.pc| ==> l.pc[i] == Idle && l.k.procs[i].phase.Out? && l.k.procs[i].chan == None)
  }

  lemma {:induction false} RunKeeps(l: Lock, ops: seq<Op>)
    requires Fresh(l) && Legal(l, ops)
    ensures Invariant(After(l, ops))
    decreases |ops|
  {
    hide KernelOk, NoLost;
    if ops == [] {
      BootOk(l.k, Good(l));
    } else {
      RunKeeps(l, ops[..|ops| - 1]);
      StepKeeps(After(l, ops[..|ops| - 1]), ops[|ops| - 1]);
    }
  }

  /** On every run at most one process holds the sleep-lock, and it does only while locked is set. */
  lemma MutualExclusion(l: Lock, ops: seq<Op>, i: nat, j: nat)
    requires Fresh(l) && Legal(l, ops)
    requires At(After(l, ops), i) == Some(Holding) && At(After(l, ops), j) == Some(Holding)
    ensures i == j && After(l, ops).locked
  {
    RunKeeps(l, ops);
    hide KernelOk, NoLost;
    assert Owns(After(l, ops).pc[i]) && Owns(After(l, ops).pc[j]);
  }

  /** No lost wakeup: with the inner lock free and the sleep-lock not taken, nobody sleeps on it or is about to. */
  lemma NoLostWakeup(l: Lock, ops: seq<Op>, i: nat)
    requires Fresh(l) && Legal(l, ops)
    requires var m := After(l, ops); m.k.lk == None && !m.locked && i < |m.k.procs|
    ensures WaitsOn(After(l, ops).k.procs[i]) == None
  {
    RunKeeps(l, ops);
    var m := After(l, ops);
    FreeMeansNoLost(m.k, Good(m));
  }

  /** So a process in acquiresleep can be run, and can then take the lock. */
  lemma WaiterCanProceed(l: Lock, ops: seq<Op>, i: nat)
    requires Fresh(l) && Legal(l, ops)
    requires var m := After(l, ops); m.k.lk == None && !m.locked && At(m, i) == Some(Testing)
    ensures var m := After(l, ops);
            Enabled(m.k, Schedule(i)) || Enabled(m.k, Tidy(i)) || Enabled(m.k, Reacquire(i))
  {
    hide Legal, After, Invariant, Enabled;
    RunKeeps(l, ops);
    var m := After(l, ops);
    LockFree(m, i);
    NoLostWakeup(l, ops, i);
    AwakeCanGoOn(m.k, i);
  }

  lemma LockFree(m: Lock, i: nat)
    requires Invariant(m) && m.k.lk == None && i < |m.pc|
    ensures i < |m.k.procs| && PhaseFits(m.pc[i], m.k.procs[i].phase) && FieldsOk(m.k.procs[i])
    ensures !HoldsLk(m.k.procs[i].phase)
  {
    hide NoLost, WokenOk, OwnerOk;
  }

  lemma AwakeCanGoOn(k: Kernel<Chan>, i: nat)
    requires k.lk == None && i < |k.procs| && PhaseFits(Testing, k.procs[i].phase) && FieldsOk(k.procs[i])
    requires !HoldsLk(k.procs[i].phase) && WaitsOn(k.procs[i]) == None
    ensures Enabled(k, Schedule(i)) || Enabled(k, Tidy(i)) || Enabled(k, Reacquire(i))
  {
  }

  /** holdingsleep, called by process i with the inner lock free, says whether it holds the lock. */
  lemma HoldingSleepExact(l: Lock, ops: seq<Op>, i: nat)
    requires Fresh(l) && Legal(l, ops) && After(l, ops).k.lk == None && i < |After(l, ops).pc|
    ensures i < |After(l, ops).pids|
    ensures var m := After(l, ops); (m.locked && m.pid == m.pids[i]) <==> m.pc[i] == Holding
  {
    hide Legal, After, Invariant;
    RunKeeps(l, ops);
    HolderExact(After(l, ops), i);
  }

  lemma HolderExact(m: Lock, i: nat)
    requires Invariant(m) && m.k.lk == None && i < |m.pc|
    ensures i < |m.pids| && ((m.locked && m.pid == m.pids[i]) <==> m.pc[i] == Holding)
  {
    hide KernelOk, NoLost;
    LockFree(m, i);
    assert Owns(m.pc[i]) <==> m.owner == Some(i);
  }

  // ----- nobody is stuck, and nobody keeps the inner lock

  /** What keeps process i from going on: see Blocked; or the inner lock. */
  predicate Held(l: Lock, i: nat)
    requires i < |l.pc| == |l.k.procs|
  {
    Blocked(l.k, i) || (l.k.procs[i].phase.Out? && (l.k.procs[i].state != Running || l.k.lk.Some?))
  }

  /** What process i does next. */
  function NextOp(l: Lock, i: nat): Op
    requires i < |l.pc| == |l.k.procs|
  {
    if InProtocol(l.k.procs[i].phase) then Inner(NextStep(l.k, i))
    else
      match l.pc[i]
      case Idle => Begin(i)
      case Testing => if l.locked then Wait(i) else Take(i)
      case Took => Return(i)
      case Holding => BeginRelease(i)
      case Clearing => Clear(i)
      case Unset => Wake(i)
      case Woke => Finish(i)
  }

  /** On every run a process can take its next step unless it is held up, and has no choice which. */
  lemma NobodyStuck(l: Lock, ops: seq<Op>, i: nat)
    requires Fresh(l) && Legal(l, ops) && i < |After(l, ops).pc| == |After(l, ops).k.procs| && !Held(After(l, ops), i)
    ensures var m := After(l, ops);
            && Allowed(m, NextOp(m, i)) && KernelStep(NextOp(m, i)).i == i
            && forall op: Op :: Allowed(m, op) && !op.Inner? && op.i == i ==> op == NextOp(m, i)
  {
    hide Legal, After, Fresh;
    RunKeeps(l, ops);
    GoesOnFrom(After(l, ops), i);
  }

  lemma GoesOnFrom(m: Lock, i: nat)
    requires Invariant(m) && i < |m.pc| && !Held(m, i)
    ensures Allowed(m, NextOp(m, i)) && KernelStep(NextOp(m, i)).i == i
    ensures forall op: Op :: Allowed(m, op) && !op.Inner? && op.i == i ==> op == NextOp(m, i)
  {
    assert PhaseFits(m.pc[i], m.k.procs[i].phase);
    hide KernelOk, NoLost, OwnerOk;
    if InProtocol(m.k.procs[i].phase) {
      GoesOn(m.k, i);
    }
    forall op: Op | Allowed(m, op) && !op.Inner? && op.i == i
      ensures op == NextOp(m, i)
    {
      NextIsForced(m, op);
    }
  }

  lemma NextIsForced(m: Lock, op: Op)
    requires |m.pc| == |m.k.procs| && Allowed(m, op) && !op.Inner? && op.i < |m.pc|
    requires PhaseFits(m.pc[op.i], m.k.procs[op.i].phase)
    ensures op == NextOp(m, op.i)
  {
  }

  /** How far a process that holds the inner lock is from letting go of it, in calls. */
  function CallsLeft(pc: Pc, ph: Phase<Chan>): int {
    match pc
    case Testing => if ph.In? then 3 else 0
    case Took => 1
    case Clearing => 4
    case Unset => 3
    case Woke => 1
    case _ => 0
  }

  function Left(l: Lock, i: nat): (int, int)
    requires i < |l.pc| == |l.k.procs|
  {
    (CallsLeft(l.pc[i], l.k.procs[i].phase), PhaseLeft(l.k.procs[i].phase, |l.pc|))
  }

  /** On every run, each step that a process makes while it holds the inner lock brings it closer to letting go. */
  lemma LetsGo(l: Lock, ops: seq<Op>, op: Op)
    requires Fresh(l) && Legal(l, ops) && Allowed(After(l, ops), op) && (op.Inner? ==> IsProtocol(op.s))
    requires var m, i := After(l, ops), KernelStep(op).i;
             i < |m.k.procs| == |Do(m, op).k.procs|
             && HoldsLk(m.k.procs[i].phase) && HoldsLk(Do(m, op).k.procs[i].phase)
    ensures var m, i := After(l, ops), KernelStep(op).i;
            && i < |m.pc| == |m.k.procs| == |Do(m, op).pc| == |Do(m, op).k.procs|
            && Less(Left(Do(m, op), i), Left(m, i))
  {
    hide Legal, After, Fresh;
    RunKeeps(l, ops);
    StepLetsGo(After(l, ops), op);
  }

  lemma StepLetsGo(m: Lock, op: Op)
    requires Invariant(m) && Allowed(m, op) && (op.Inner? ==> IsProtocol(op.s))
    requires var i := KernelStep(op).i;
             i < |m.k.procs| == |Do(m, op).k.procs|
             && HoldsLk(m.k.procs[i].phase) && HoldsLk(Do(m, op).k.procs[i].phase)
    ensures var i := KernelStep(op).i;
            |Do(m, op).pc| == |m.pc| == |m.k.procs| && Less(Left(Do(m, op), i), Left(m, i))
  {
    var i := KernelStep(op).i;
    StepKeeps(m, op);
    assert PhaseFits(m.pc[i], m.k.procs[i].phase);
    PhaseLeftBound(m.k, i);
    PhaseLeftBound(Do(m, op).k, i);
    if op.Inner? {
      ProtocolLetsGo(m.k, op.s);
    }
    hide Invariant, KernelOk, NoLost, Woken, OwnerOk;
  }
}
